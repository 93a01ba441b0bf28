/** The user's model registry: patches of one definition, and versioned replacement of the whole file. */
module Registry {
  import opened Paths
  import opened Json
  import opened VersionedFile

  // ----- Patches

  /** Changes override, except that two mappings merge key by key. */
  function Merge(target: Json, changes: Json): Json
    decreases changes
  {
    if target.Object? && changes.Object? then
      Object(map k | k in target.fields.Keys + changes.fields.Keys ::
               if k !in changes.fields then target.fields[k]
               else if k in target.fields then Merge(target.fields[k], changes.fields[k])
               else changes.fields[k])
    else changes
  }

  /** The value at a path of keys. */
  function At(j: Json, path: seq<string>): Option<Json> {
    if path == [] then Some(j)
    else if j.Object? && path[0] in j.fields then At(j.fields[path[0]], path[1..])
    else None
  }

  /** Removes the key at the end of the path, if its owners are all mappings. */
  function Unset(j: Json, path: seq<string>): Json {
    if path == [] || !j.Object? || path[0] !in j.fields then j
    else if |path| == 1 then Object(j.fields - {path[0]})
    else Object(j.fields[path[0] := Unset(j.fields[path[0]], path[1..])])
  }

  /** The path leaves the changes: they have a mapping on the way without the next key. */
  predicate Leaves(changes: Json, path: seq<string>) {
    path != [] && changes.Object?
    && (path[0] in changes.fields ==> Leaves(changes.fields[path[0]], path[1..]))
  }

  /** Every plain value of the changes is set, whatever stood in its way. */
  lemma {:induction false} MergeSets(target: Json, changes: Json, path: seq<string>)
    requires At(changes, path).Some? && !At(changes, path).value.Object?
    ensures At(Merge(target, changes), path) == At(changes, path)
    decreases path
  {
    if path != [] && target.Object? && path[0] in target.fields {
      MergeSets(target.fields[path[0]], changes.fields[path[0]], path[1..]);
    }
  }

  /** Everything the changes do not reach is kept; a value in the way of a mapping is dropped. */
  lemma {:induction false} MergeKeeps(target: Json, changes: Json, path: seq<string>)
    requires Leaves(changes, path)
    ensures At(Merge(target, changes), path) == At(target, path)
    decreases path
  {
    if target.Object? && path[0] in changes.fields && path[0] in target.fields {
      MergeKeeps(target.fields[path[0]], changes.fields[path[0]], path[1..]);
    } else if path[0] in changes.fields {
      NothingBeyond(changes.fields[path[0]], path[1..]);
    }
  }

  lemma {:induction false} NothingBeyond(changes: Json, path: seq<string>)
    requires Leaves(changes, path)
    ensures At(changes, path) == None
    decreases path
  {
    if path[0] in changes.fields {
      NothingBeyond(changes.fields[path[0]], path[1..]);
    }
  }

  /** Applying the same changes again changes nothing. */
  lemma {:induction false} MergeIdempotent(target: Json, changes: Json)
    ensures Merge(Merge(target, changes), changes) == Merge(target, changes)
    decreases changes
  {
    if target.Object? && changes.Object? {
      var once := Merge(target, changes);
      forall k | k in once.fields ensures Merge(once, changes).fields[k] == once.fields[k] {
        if k in changes.fields {
          if k in target.fields {
            MergeIdempotent(target.fields[k], changes.fields[k]);
          } else {
            MergeSelf(changes.fields[k]);
          }
        }
      }
      assert Merge(once, changes).fields.Keys == once.fields.Keys;
    } else {
      MergeSelf(changes);
    }
  }

  lemma {:induction false} MergeSelf(j: Json)
    ensures Merge(j, j) == j
    decreases j
  {
    if j.Object? {
      forall k | k in j.fields ensures Merge(j, j).fields[k] == j.fields[k] {
        MergeSelf(j.fields[k]);
      }
      assert Merge(j, j).fields == j.fields;
    }
  }

  /** Unsetting removes exactly the path and what lies below it. */
  lemma {:induction false} UnsetRemoves(j: Json, path: seq<string>, other: seq<string>)
    requires path != []
    ensures At(Unset(j, path), path) == None
    ensures !(path <= other) && !(other <= path) ==> At(Unset(j, path), other) == At(j, other)
    decreases path
  {
    if j.Object? && path[0] in j.fields && |path| > 1 {
      UnsetRemoves(j.fields[path[0]], path[1..], if other == [] then [] else other[1..]);
      if other != [] && other[0] == path[0] {
        assert path == [path[0]] + path[1..] && other == [path[0]] + other[1..];
      }
    } else if j.Object? && path[0] in j.fields && other != [] && other[0] == path[0] {
      assert path == [other[0]] && path <= other;
    }
  }

  /** Removes several paths, one after another. */
  function UnsetAll(j: Json, paths: seq<seq<string>>): Json
    decreases |paths|
  {
    if paths == [] then j else UnsetAll(Unset(j, paths[0]), paths[1..])
  }

  /** Unsetting adds nothing. */
  lemma {:induction false} UnsetOnlyRemoves(j: Json, path: seq<string>, other: seq<string>)
    requires At(j, other) == None
    ensures At(Unset(j, path), other) == None
    decreases path
  {
    if path != [] && j.Object? && path[0] in j.fields && |path| > 1 && other[0] == path[0] {
      UnsetOnlyRemoves(j.fields[path[0]], path[1..], other[1..]);
    }
  }

  lemma {:induction false} UnsetAllOnlyRemoves(j: Json, paths: seq<seq<string>>, other: seq<string>)
    requires At(j, other) == None
    ensures At(UnsetAll(j, paths), other) == None
    decreases |paths|
  {
    if paths != [] {
      UnsetOnlyRemoves(j, paths[0], other);
      UnsetAllOnlyRemoves(Unset(j, paths[0]), paths[1..], other);
    }
  }

  /** Neither path leads through the other. */
  predicate Apart(p: seq<string>, q: seq<string>) { !(p <= q) && !(q <= p) }

  /** Every listed path is gone, and whatever lies apart from all of them is kept, in any order of removal. */
  lemma {:induction false} UnsetAllRemoves(j: Json, paths: seq<seq<string>>, other: seq<string>)
    requires [] !in paths
    ensures other in paths ==> At(UnsetAll(j, paths), other) == None
    ensures (forall p | p in paths :: Apart(p, other)) ==> At(UnsetAll(j, paths), other) == At(j, other)
    decreases |paths|
  {
    if paths != [] {
      assert paths[0] in paths;
      assert paths == [paths[0]] + paths[1..];
      UnsetRemoves(j, paths[0], other);
      UnsetAllRemoves(Unset(j, paths[0]), paths[1..], other);
      if other == paths[0] {
        UnsetAllOnlyRemoves(Unset(j, paths[0]), paths[1..], other);
      }
    }
  }

  /** A complete definition, or changes to merge and paths to unset afterwards. */
  datatype Patch =
    | Replacement(definition: Json)
    | Edit(changes: map<string, Json>, unset: seq<seq<string>>)

  predicate NoNulls(j: Json) {
    match j
    case Null => false
    case Object(fields) => forall k | k in fields :: NoNulls(fields[k])
    case List(items) => forall i | 0 <= i < |items| :: NoNulls(items[i])
    case _ => true
  }

  function UnsetPaths(): set<seq<string>> {
    {["tokenizer_model"], ["provider_name"], ["base_url"], ["api_key_env"], ["max_output_tokens"]}
    + {["input_cost_per_1m"], ["output_cost_per_1m"], ["cache_read_cost_per_1m"], ["cache_write_cost_per_1m"]}
    + {["runtime", "health_url"], ["runtime", "expected_model_contains"]}
    + {["defaults", "temperature"], ["defaults", "top_p"], ["defaults", "parallel_tool_calls"], ["defaults", "seed"]}
  }

  predicate Allowed(patch: Patch) {
    patch.Edit? ==> NoNulls(Object(patch.changes)) && forall p | p in patch.unset :: p in UnsetPaths()
  }

  function Edited(current: Json, patch: Patch): Json
    requires patch.Edit?
  {
    UnsetAll(Merge(current, Object(patch.changes)), patch.unset)
  }

  /** The patched definition, as validation leaves it. */
  function ApplyPatch(current: Json, patch: Patch, validate: Json -> Option<Json>): Option<Json> {
    if !Allowed(patch) then None
    else if patch.Replacement? then Some(patch.definition)
    else validate(Edited(current, patch))
  }

  lemma AllowedUnsets(patch: Patch)
    requires patch.Edit? && Allowed(patch)
    ensures [] !in patch.unset
  {
    assert [] !in UnsetPaths();
  }

  /** What validation is given: unset paths are gone, changed values set, everything else is as it was. */
  lemma PatchDecides(current: Json, patch: Patch, path: seq<string>)
    requires patch.Edit? && Allowed(patch)
    ensures path in patch.unset ==> At(Edited(current, patch), path) == None
    ensures (forall p | p in patch.unset :: Apart(p, path)) ==>
            var changed := At(Object(patch.changes), path);
            && (changed.Some? && !changed.value.Object? ==> At(Edited(current, patch), path) == changed)
            && (Leaves(Object(patch.changes), path) ==> At(Edited(current, patch), path) == At(current, path))
  {
    var changes := Object(patch.changes);
    AllowedUnsets(patch);
    UnsetAllRemoves(Merge(current, changes), patch.unset, path);
    if At(changes, path).Some? && !At(changes, path).value.Object? {
      MergeSets(current, changes, path);
    }
    if Leaves(changes, path) {
      MergeKeeps(current, changes, path);
    }
  }

  /** The value is the other, or somewhere inside it. */
  ghost predicate Within(j: Json, x: Json) {
    || x == j
    || (j.Object? && exists k :: k in j.fields && Within(j.fields[k], x))
    || (j.List? && exists i :: 0 <= i < |j.items| && Within(j.items[i], x))
  }

  lemma {:induction false} NoNullsWithin(j: Json)
    ensures NoNulls(j) <==> !Within(j, Null)
    decreases j
  {
    match j
    case Object(fields) =>
      forall k | k in fields ensures NoNulls(fields[k]) <==> !Within(fields[k], Null) {
        NoNullsWithin(fields[k]);
      }
    case List(items) =>
      forall i | 0 <= i < |items| ensures NoNulls(items[i]) <==> !Within(items[i], Null) {
        NoNullsWithin(items[i]);
      }
    case _ =>
  }

  /** The fields that may be unset, by owner. */
  lemma UnsetPathsAre(path: seq<string>)
    ensures path in UnsetPaths() <==>
            || path in {["tokenizer_model"], ["provider_name"], ["base_url"], ["api_key_env"], ["max_output_tokens"]}
            || (|path| == 1 && path[0] in {"input_cost_per_1m", "output_cost_per_1m", "cache_read_cost_per_1m",
                                           "cache_write_cost_per_1m"})
            || (|path| == 2 && path[0] == "runtime" && path[1] in {"health_url", "expected_model_contains"})
            || (|path| == 2 && path[0] == "defaults"
                && path[1] in {"temperature", "top_p", "parallel_tool_calls", "seed"})
  {
    assert |path| == 1 ==> path == [path[0]];
    assert |path| == 2 ==> path == [path[0], path[1]];
  }

  /**
   What the changes and unsets make of a definition, path by path: an unset path is gone, and apart from
   those every plain value of the changes is set, and what the changes leave is as it was.
   */
  ghost predicate Patched(current: Json, changes: Json, unset: seq<seq<string>>, x: Json) {
    forall path ::
      && (path in unset ==> At(x, path) == None)
      && ((forall p | p in unset :: !(p <= path) && !(path <= p)) ==>
            && (At(changes, path).Some? && !At(changes, path).value.Object? ==> At(x, path) == At(changes, path))
            && (Leaves(changes, path) ==> At(x, path) == At(current, path)))
  }

  /**
   What a patch makes of a definition: a replacement is taken as it is; changes that hold a null or an
   unset path that is not listed are refused; otherwise the definition is patched and validated.
   */
  ghost predicate PatchGives(current: Json, patch: Patch, validate: Json -> Option<Json>, result: Option<Json>) {
    match patch
    case Replacement(definition) => result == Some(definition)
    case Edit(changes, unset) =>
      if Within(Object(changes), Null) || exists p :: p in unset && p !in UnsetPaths() then result == None
      else exists x :: Patched(current, Object(changes), unset, x) && result == validate(x)
  }

  lemma PatchMeans(current: Json, patch: Patch, validate: Json -> Option<Json>)
    ensures PatchGives(current, patch, validate, ApplyPatch(current, patch, validate))
  {
    if patch.Edit? {
      NoNullsWithin(Object(patch.changes));
      if Allowed(patch) {
        EditedPatches(current, patch);
      }
    }
  }

  lemma EditedPatches(current: Json, patch: Patch)
    requires patch.Edit? && Allowed(patch)
    ensures Patched(current, Object(patch.changes), patch.unset, Edited(current, patch))
  {
    forall path
      ensures path in patch.unset ==> At(Edited(current, patch), path) == None
      ensures (forall p | p in patch.unset :: !(p <= path) && !(path <= p)) ==>
                var changed := At(Object(patch.changes), path);
                && (changed.Some? && !changed.value.Object? ==> At(Edited(current, patch), path) == changed)
                && (Leaves(Object(patch.changes), path) ==> At(Edited(current, patch), path) == At(current, path))
    {
      PatchDecides(current, patch, path);
    }
  }

  // ----- The store

  type Models = map<string, Json>

  datatype Receipt = Receipt(base: Version, revision: nat, payload: Option<string>)

  datatype Outcome =
    | Overridden
    | Unreadable
    | Conflict
    | Refused
    | Failed
    | Unknown(receipt: Receipt)
    | Done(models: Models, receipt: Receipt, changed: bool)

  function Encode(lib: Library, revision: nat, models: Models): string {
    lib.dumps(Object(map["version" := Num(1), "revision" := Num(revision), "models" := Object(models)]))
  }

  function Parse(lib: Library, valid: Models -> bool, payload: string): Option<(nat, Models)> {
    var value := lib.loads(payload);
    if value.None? || !value.value.Object? then None
    else
      var f := value.value.fields;
      if !(f.Keys <= {"version", "revision", "models"}) || "revision" !in f then None
      else if "version" in f && f["version"] != Num(1) then None
      else if !f["revision"].Num? || f["revision"].number < 0 then None
      else if "models" in f && !(f["models"].Object? && valid(f["models"].fields)) then None
      else Some((f["revision"].number, if "models" in f then f["models"].fields else map[]))
  }

  lemma DocumentRoundTrip(lib: Library, valid: Models -> bool, revision: nat, models: Models)
    requires Faithful(lib)
    ensures Parse(lib, valid, Encode(lib, revision, models)) == if valid(models) then Some((revision, models)) else None
  {
    var f := map["version" := Num(1), "revision" := Num(revision), "models" := Object(models)];
    assert JsonSpaces("") && "" + lib.dumps(Object(f)) + "" == Encode(lib, revision, models);
    assert lib.loads("" + lib.dumps(Object(f)) + "") == Some(Object(f));
  }

  /** A file that is no object, has an unknown key or another version, or names no revision cannot be read. */
  lemma ForeignUnreadable(lib: Library, valid: Models -> bool, payload: string)
    ensures var value := lib.loads(payload);
            && (value == None ==> Parse(lib, valid, payload) == None)
            && (value.Some? && value.value.Object? ==>
                  var f := value.value.fields;
                  && (forall k | k in f && k !in {"version", "revision", "models"} ::
                        Parse(lib, valid, payload) == None)
                  && ("version" in f && f["version"] != Num(1) ==> Parse(lib, valid, payload) == None)
                  && ("revision" !in f ==> Parse(lib, valid, payload) == None))
  {
  }

  function ReadRevision(lib: Library, valid: Models -> bool): Reader {
    payload => var d := Parse(lib, valid, payload); if d.None? then None else Some(d.value.0)
  }

  function ReadFile(lib: Library, valid: Models -> bool, file: Option<string>): Option<(Version, Models)> {
    match file
    case None => Some((Version(0, None), map[]))
    case Some(payload) =>
      var d := Parse(lib, valid, payload);
      if d.None? then None else Some((Version(d.value.0, file), d.value.1))
  }

  /** What every store of one process shares: the library, validation, and the catalog's own models. */
  datatype Setting = Setting(lib: Library, valid: Models -> bool, builtIn: set<string>, overridden: bool)

  /** The models a mutation would install, if it is allowed at all. */
  function CandidateIn(s: Setting, file: Option<string>, expected: Version,
                       apply: Models -> Option<Models>): Option<Models> {
    var observed := ReadFile(s.lib, s.valid, file);
    if s.overridden || observed.None? || observed.value.0 != expected then None
    else
      var models := apply(observed.value.1);
      if models.None? || !s.valid(models.value) || models.value.Keys * s.builtIn != {} then None else models
  }

  /** The post-state a receipt names reads as these models. */
  predicate Promises(s: Setting, receipt: Receipt, models: Models) {
    match receipt.payload
    case None => receipt.revision == 0 && models == map[]
    case Some(payload) => Parse(s.lib, s.valid, payload) == Some((receipt.revision, models))
  }

  class Store {
    var file: Option<string>
    const setting: Setting

    constructor (setting: Setting, file: Option<string>)
      ensures this.setting == setting && this.file == file
    {
      this.setting, this.file := setting, file;
    }

    function Read(): Option<(Version, Models)>
      reads this
    {
      ReadFile(setting.lib, setting.valid, file)
    }

    function Candidate(expected: Version, apply: Models -> Option<Models>): Option<Models>
      reads this
    {
      CandidateIn(setting, file, expected, apply)
    }

    method Mutate(expected: Version, apply: Models -> Option<Models>, replace: Replace) returns (r: Outcome)
      requires Faithful(setting.lib)
      modifies this
      ensures (r.Done? || r.Unknown? || r.Failed?) <==> old(Candidate(expected, apply)).Some?
      ensures file == AfterCall(setting, old(file), Call(expected, apply, replace))
      ensures r.Overridden? <==> setting.overridden
      ensures r.Unreadable? <==> !setting.overridden && old(Read()).None?
      ensures r.Conflict? <==> !setting.overridden && old(Read()).Some? && old(Read()).value.0 != expected
      ensures r.Done? && !r.changed ==>
              old(Candidate(expected, apply)) == Some(old(Read()).value.1) && file == old(file)
      ensures (r.Done? && r.changed) || r.Unknown? ==>
              && old(Candidate(expected, apply)) != Some(old(Read()).value.1)
              && file == Some(Encode(setting.lib, expected.revision + 1, old(Candidate(expected, apply)).value))
              && Commits(ReadRevision(setting.lib, setting.valid), old(file), expected, file)
      ensures old(Candidate(expected, apply)).Some? && old(Candidate(expected, apply)) != Some(old(Read()).value.1) ==>
              match replace case Durable => r.Done? case NotVisible => r.Failed? case Unconfirmed => r.Unknown?
      ensures old(Candidate(expected, apply)).Some? && old(Candidate(expected, apply)) == Some(old(Read()).value.1) ==>
              r.Done?
      ensures !((r.Done? && r.changed) || r.Unknown?) ==> file == old(file)
      ensures r.Done? ==> Some(r.models) == old(Candidate(expected, apply))
      ensures r.Done? ==>
              && old(Read()).Some? && Some(r.models) == apply(old(Read()).value.1)
              && setting.valid(r.models) && r.models.Keys !! setting.builtIn
      ensures r.Refused? ==>
              && old(Read()).Some?
              && var models := apply(old(Read()).value.1);
                 models.None? || !setting.valid(models.value) || !(models.value.Keys !! setting.builtIn)
      ensures r.Done? || r.Unknown? ==>
              && r.receipt == Receipt(expected, expected.revision + if r.Done? && !r.changed then 0 else 1, file)
              && Promises(setting, r.receipt, old(Candidate(expected, apply)).value)
    {
      if setting.overridden {
        return Overridden;
      }
      var observed := Read();
      if observed.None? {
        return Unreadable;
      }
      if observed.value.0 != expected {
        return Conflict;
      }
      var models := apply(observed.value.1);
      if models.None? || !setting.valid(models.value) {
        return Refused;
      }
      Overlap(models.value.Keys, setting.builtIn);
      if models.value.Keys * setting.builtIn != {} {
        return Refused;
      }
      if models.value == observed.value.1 {
        return Done(models.value, Receipt(expected, expected.revision, file), false);
      }
      var payload := Encode(setting.lib, expected.revision + 1, models.value);
      DocumentRoundTrip(setting.lib, setting.valid, expected.revision + 1, models.value);
      match replace
      case NotVisible =>
        r := Failed;
      case Unconfirmed =>
        file := Some(payload);
        r := Unknown(Receipt(expected, expected.revision + 1, file));
      case Durable =>
        file := Some(payload);
        r := Done(models.value, Receipt(expected, expected.revision + 1, file), true);
    }

    /** Succeeds exactly when the file is the receipt's post-state and can be read; returns the models it names. */
    method Reconcile(receipt: Receipt) returns (models: Option<Models>)
      ensures models.Some? <==> file == receipt.payload && exists promised :: Promises(setting, receipt, promised)
      ensures models.Some? ==> Promises(setting, receipt, models.value)
    {
      var observed := Read();
      models := None;
      if observed.Some? && observed.value.0 == Version(receipt.revision, receipt.payload) {
        models := Some(observed.value.1);
        assert Promises(setting, receipt, observed.value.1);
      }
    }
  }

  lemma Overlap(a: set<string>, b: set<string>)
    ensures a * b == {} <==> a !! b
  {
    if x :| x in a && x in b {
      assert x in a * b;
    }
  }

  lemma PromisesOne(s: Setting, receipt: Receipt, a: Models, b: Models)
    requires Promises(s, receipt, a) && Promises(s, receipt, b)
    ensures a == b
  {
  }

  /**
   A mutation, whatever other processes make of the file afterwards, and reconciling its receipt:
   that succeeds exactly when the file is still as the mutation left it, and gives the models it
   installed. This holds for changed, unchanged and unknown outcomes alike.
   */
  method MutateThenReconcile(store: Store, expected: Version, apply: Models -> Option<Models>, replace: Replace,
                             meanwhile: Option<Option<string>>)
    returns (r: Outcome, models: Option<Models>, ghost left: Option<string>)
    requires Faithful(store.setting.lib)
    modifies store
    ensures left == AfterCall(store.setting, old(store.file), Call(expected, apply, replace))
    ensures store.file == if meanwhile.Some? then meanwhile.value else left
    ensures r.Done? || r.Unknown? ==>
            && (models.Some? <==> store.file == left)
            && (models.Some? ==> models == old(store.Candidate(expected, apply)))
    ensures !(r.Done? || r.Unknown?) ==> models == None
  {
    r := store.Mutate(expected, apply, replace);
    left := store.file;
    if meanwhile.Some? {
      store.file := meanwhile.value;
    }
    models := None;
    if r.Done? || r.Unknown? {
      models := store.Reconcile(r.receipt);
      if models.Some? {
        PromisesOne(store.setting, r.receipt, models.value, old(store.Candidate(expected, apply)).value);
      }
    }
  }

  // ----- Runs of mutations

  /** One call of a mutation, by any process. */
  datatype Call = Call(expected: Version, apply: Models -> Option<Models>, replace: Replace)

  /** The call's write becomes visible: it is allowed, and changes the models. */
  predicate Lands(s: Setting, file: Option<string>, c: Call) {
    && !c.replace.NotVisible?
    && var models := CandidateIn(s, file, c.expected, c.apply);
       models.Some? && models.value != ReadFile(s.lib, s.valid, file).value.1
  }

  function AfterCall(s: Setting, file: Option<string>, c: Call): Option<string> {
    if !Lands(s, file, c) then file
    else Some(Encode(s.lib, c.expected.revision + 1, CandidateIn(s, file, c.expected, c.apply).value))
  }

  ghost predicate IsHistory(s: Setting, files: seq<Option<string>>, calls: seq<Call>) {
    && |files| == |calls| + 1
    && forall i | 0 <= i < |calls| :: files[i + 1] == AfterCall(s, files[i], calls[i])
  }

  function Attempts(s: Setting, files: seq<Option<string>>, calls: seq<Call>): seq<Attempt>
    requires |files| == |calls| + 1
  {
    seq(|calls|, i requires 0 <= i < |calls| => Attempt(calls[i].expected, Lands(s, files[i], calls[i])))
  }

  lemma MutationCommits(s: Setting, file: Option<string>, c: Call)
    requires Faithful(s.lib) && Lands(s, file, c)
    ensures Commits(ReadRevision(s.lib, s.valid), file, c.expected, AfterCall(s, file, c))
  {
    DocumentRoundTrip(s.lib, s.valid, c.expected.revision + 1, CandidateIn(s, file, c.expected, c.apply).value);
  }

  /** Any interleaving of mutations is a run, so versions have one winner and the revision counts commits. */
  lemma MutationsRun(s: Setting, files: seq<Option<string>>, calls: seq<Call>)
    requires Faithful(s.lib) && IsHistory(s, files, calls)
    ensures IsRun(ReadRevision(s.lib, s.valid), files, Attempts(s, files, calls))
  {
    forall i | 0 <= i < |calls| && Lands(s, files[i], calls[i])
      ensures Commits(ReadRevision(s.lib, s.valid), files[i], calls[i].expected, files[i + 1])
    {
      MutationCommits(s, files[i], calls[i]);
    }
  }

  // ----- Preview and commit of an update

  /** What `update` applies: the patched definition in place of the current one. */
  function Updating(id: string, patch: Patch, validate: Json -> Option<Json>): Models -> Option<Models> {
    (models: Models) =>
      if id !in models then None
      else
        var updated := ApplyPatch(models[id], patch, validate);
        if updated.None? then None else Some(models[id := updated.value])
  }

  function Preview(models: Models, id: string, patch: Patch, validate: Json -> Option<Json>): Option<Json> {
    if id in models then ApplyPatch(models[id], patch, validate) else None
  }

  lemma PreviewMeans(models: Models, id: string, patch: Patch, validate: Json -> Option<Json>)
    ensures if id !in models then Preview(models, id, patch, validate) == None
            else PatchGives(models[id], patch, validate, Preview(models, id, patch, validate))
  {
    if id in models {
      PatchMeans(models[id], patch, validate);
    }
  }

  /**
   Someone previews an update, others may use the store, and the update is committed from the
   previewed snapshot: if it commits at all, it commits the definition shown and no other change.
   */
  method PreviewedUpdate(store: Store, snapshot: (Version, Models), id: string, patch: Patch,
                         validate: Json -> Option<Json>, replace: Replace)
    returns (preview: Option<Json>, r: Outcome)
    requires Faithful(store.setting.lib)
    requires Parses(store, snapshot)
    modifies store
    ensures preview == if store.setting.overridden then None else Preview(snapshot.1, id, patch, validate)
    ensures if store.setting.overridden || id !in snapshot.1 then preview == None
            else PatchGives(snapshot.1[id], patch, validate, preview)
    ensures r.Done? ==> preview.Some? && id in snapshot.1 && r.models == snapshot.1[id := preview.value]
    ensures preview.None? ==> !r.Done? && !r.Unknown? && store.file == old(store.file)
    ensures r.Refused? && preview.Some? ==>
            && id in snapshot.1
            && var models := snapshot.1[id := preview.value];
               !store.setting.valid(models) || !(models.Keys !! store.setting.builtIn)
  {
    preview := if store.setting.overridden then None else Preview(snapshot.1, id, patch, validate);
    PreviewMeans(snapshot.1, id, patch, validate);
    r := store.Mutate(snapshot.0, Updating(id, patch, validate), replace);
  }

  /** The snapshot was read from some state of the store: its models are those of its bytes. */
  ghost predicate Parses(store: Store, snapshot: (Version, Models)) {
    match snapshot.0.payload
    case None => snapshot == (Version(0, None), map[])
    case Some(payload) =>
      Parse(store.setting.lib, store.setting.valid, payload) == Some((snapshot.0.revision, snapshot.1))
  }
}
