/**
 A session's model choice in memory beside the shared session file: switching, configuring
 requests, reconciling an unknown outcome, and loading with repair of a stale choice.
 */
module ControlPlane {
  import opened Paths
  import opened Json
  import opened Text
  import opened VersionedFile
  import opened SessionStore

  datatype Requester = User | Agent | System

  /** The models on offer, and per requester the ones allowed; none for all. */
  datatype Policy = Policy(catalog: set<string>, allowed: map<Requester, set<string>>) {
    predicate Permits(model: string, who: Requester) {
      model in catalog && (who in allowed ==> model in allowed[who])
    }
  }

  datatype Memory = Memory(
    model: string, requester: Requester, version: Version, preferences: map<string, Json>, settings: nat)

  datatype Pending = Pending(receipt: Receipt, requester: Requester)

  datatype Result = Refused | Unswitched(outcome: Outcome) | Accepted

  function Recalled(m: Memory): Session { Session(m.model, m.version, m.preferences, m.settings) }

  function Remember(session: Session, who: Requester): Memory {
    Memory(session.model, who, session.version, session.preferences, session.settings)
  }

  /** What the content says that a version names, if it can be read; the default model plays no part. */
  function Named(lib: Library, valid: Json -> bool, v: Version): Option<Session> {
    ReadFile(lib, valid, v.payload, "")
  }

  /** Other than for `models` the preferences are the same. */
  ghost predicate SameBut(a: map<string, Json>, b: map<string, Json>, models: set<string>) {
    forall k | k !in models :: Preference(k, a) == Preference(k, b)
  }

  /**
   Memory names some content, whatever the file holds by now, and has its preferences and settings
   but for requests configured since in this process alone, those of `local`.
   */
  ghost predicate Ahead(lib: Library, valid: Json -> bool, m: Memory, local: set<string>) {
    var named := Named(lib, valid, m.version);
    named.Some? ==>
      && named.value.version == m.version
      && SameBut(m.preferences, named.value.preferences, local)
      && m.settings >= named.value.settings
      && (m.settings == named.value.settings <==> local == {})
  }

  /** Nothing is configured for this process alone. The model may be: it is not compared. */
  ghost predicate Agrees(lib: Library, valid: Json -> bool, m: Memory) {
    var named := Named(lib, valid, m.version);
    named.Some? ==> named.value == Recalled(m).(model := named.value.model)
  }

  lemma AgreesIsAhead(lib: Library, valid: Json -> bool, m: Memory)
    ensures Agrees(lib, valid, m) <==> Ahead(lib, valid, m, {})
  {
    var named := Named(lib, valid, m.version);
    if named.Some? {
      SameButNone(m.preferences, named.value.preferences);
    }
  }

  lemma SameButNone(a: map<string, Json>, b: map<string, Json>)
    ensures SameBut(a, b, {}) <==> a == b
  {
    if SameBut(a, b, {}) {
      forall k ensures (k in a <==> k in b) && (k in a ==> a[k] == b[k]) {
        assert Preference(k, a) == Preference(k, b);
      }
      assert a.Keys == b.Keys;
    }
  }

  lemma ReadAgrees(lib: Library, valid: Json -> bool, file: Option<string>, default: string, who: Requester)
    requires ReadFile(lib, valid, file, default).Some?
    ensures Agrees(lib, valid, Remember(ReadFile(lib, valid, file, default).value, who))
  {
  }

  /** Memory that agrees and names the file's version holds what the file says, but perhaps for the model. */
  lemma CurrentMemory(lib: Library, valid: Json -> bool, file: Option<string>, m: Memory, default: string)
    requires Agrees(lib, valid, m)
    requires ReadFile(lib, valid, file, default).Some? && ReadFile(lib, valid, file, default).value.version == m.version
    ensures Remember(ReadFile(lib, valid, file, default).value, m.requester).(model := m.model) == m
  {
  }

  /** Memory once a document was written. */
  function Written(lib: Library, d: Document, who: Requester): Memory {
    Memory(d.model, who, Version(d.revision, Some(Encode(lib, d))), d.preferences, d.settings)
  }

  lemma WrittenAgrees(lib: Library, valid: Json -> bool, d: Document, who: Requester)
    requires Faithful(lib)
    ensures Agrees(lib, valid, Written(lib, d, who))
  {
    DocumentRoundTrip(lib, valid, d);
  }

  function Preference(model: string, preferences: map<string, Json>): Option<Json> {
    if model in preferences then Some(preferences[model]) else None
  }

  /** The document that selects `model` and changes its preference alone. */
  function Configured(seen: Session, model: string, value: Json): Document {
    Document(model, seen.version.revision + 1, seen.preferences[model := value], seen.settings + 1)
  }

  /** What memory holds is in line with the document a switch writes exactly as far as it was before. */
  lemma SwitchKeepsAhead(lib: Library, valid: Json -> bool, file: Option<string>, m: Memory, d: Document,
                         who: Requester)
    requires Faithful(lib) && Trimmed(d.model)
    requires ReadFile(lib, valid, file, d.model).Some?
    requires var seen := ReadFile(lib, valid, file, d.model).value;
             seen.version == m.version && d == Next(d.model, seen, None, None)
    ensures var after := m.(model := d.model, requester := who, version := Version(d.revision, Some(Encode(lib, d))));
            forall local :: Ahead(lib, valid, m, local) <==> Ahead(lib, valid, after, local)
  {
    SameVersion(lib, valid, file, d.model, "");
    ReadIsGood(lib, valid, file, d.model);
    DocumentRoundTrip(lib, valid, d);
  }

  /** Preferences that were read are good. */
  lemma ReadIsGood(lib: Library, valid: Json -> bool, file: Option<string>, default: string)
    ensures var seen := ReadFile(lib, valid, file, default);
            seen.Some? ==> GoodPreferences(valid, seen.value.preferences)
  {
  }

  /** The default model plays no part in which version a file has, nor in what a present file says. */
  lemma SameVersion(lib: Library, valid: Json -> bool, file: Option<string>, a: string, b: string)
    ensures var x, y := ReadFile(lib, valid, file, a), ReadFile(lib, valid, file, b);
            (x.None? <==> y.None?) && (x.Some? ==> y.value == x.value.(model := y.value.model))
  {
  }

  /**
   The preferences written over those seen: the other models' are kept exactly when memory had the same,
   and only those configured for this process alone can be lost.
   */
  ghost predicate LosesAsMemoryDiffers(lib: Library, valid: Json -> bool, m: Memory, seen: map<string, Json>,
                                       written: map<string, Json>)
  {
    && (SameBut(written, seen, {m.model}) <==> SameBut(m.preferences, seen, {m.model}))
    && (forall local :: Ahead(lib, valid, m, local) ==> SameBut(written, seen, local + {m.model}))
  }

  /** What writing memory's preferences, changed for its model, over the version it names does to the others. */
  lemma ConfigureSpares(lib: Library, valid: Json -> bool, file: Option<string>, m: Memory, value: Json)
    requires ReadFile(lib, valid, file, m.model).Some? && ReadFile(lib, valid, file, m.model).value.version == m.version
    ensures var seen := ReadFile(lib, valid, file, m.model).value.preferences;
            && LosesAsMemoryDiffers(lib, valid, m, seen, m.preferences[m.model := value])
            && (Agrees(lib, valid, m) ==>
                  m.preferences == seen && m.settings == ReadFile(lib, valid, file, m.model).value.settings)
  {
    var seen := ReadFile(lib, valid, file, m.model).value.preferences;
    var mine := m.preferences[m.model := value];
    SameVersion(lib, valid, file, m.model, "");
    if Agrees(lib, valid, m) {
      CurrentMemory(lib, valid, file, m, m.model);
    }
    forall k | k != m.model ensures Preference(k, mine) == Preference(k, m.preferences) {
    }
  }

  class Plane {
    const policy: Policy
    const store: Store
    var memory: Memory
    var pending: Option<Pending>

    constructor (policy: Policy, store: Store, memory: Memory)
      ensures this.policy == policy && this.store == store && this.memory == memory && pending == None
    {
      this.policy, this.store, this.memory, pending := policy, store, memory, None;
    }

    ghost predicate Agreeing()
      reads this
    {
      Agrees(store.lib, store.valid, memory)
    }

    ghost predicate AheadBy(local: set<string>)
      reads this
    {
      Ahead(store.lib, store.valid, memory, local)
    }

    /** The file can be read and has the version in memory. */
    predicate Ready(model: string)
      reads this, store
    {
      Trimmed(model) && store.Read(model).Some? && store.Read(model).value.version == memory.version
    }

    /**
     A persisted switch. The file keeps its own preferences and memory keeps its own, under one
     version: where memory agreed it still does, and otherwise it is as far ahead as it was.
     */
    method SwitchModel(model: string, who: Requester, replace: Replace) returns (r: Result)
      requires Faithful(store.lib)
      modifies this, store
      ensures old(Agreeing()) ==> Agreeing()
      ensures forall local :: old(AheadBy(local)) ==> AheadBy(local)
      ensures r.Refused? <==>
              model !in policy.catalog || (who in policy.allowed && model !in policy.allowed[who])
      ensures r.Accepted? <==> policy.Permits(model, who) && old(Ready(model)) && replace.Durable?
      ensures !r.Accepted? ==> memory == old(memory)
      ensures r.Accepted? ==>
              && old(store.Read(model)).Some?
              && var seen := old(store.Read(model)).value;
                 && seen.version == old(memory).version
                 && memory == old(memory).(model := model, requester := who,
                                           version := Version(seen.version.revision + 1, store.file))
                 && store.file == Some(Encode(store.lib, Document(model, memory.version.revision,
                                                                  seen.preferences, seen.settings)))
                 && (Agreeing() <==> memory.preferences == seen.preferences && memory.settings == seen.settings)
      ensures r.Accepted? && old(Agreeing()) ==>
              store.file == Some(Encode(store.lib, Document(model, memory.version.revision,
                                                            old(memory).preferences, old(memory).settings)))
      ensures if r.Unswitched? && r.outcome.Unknown?
              then pending == Some(Pending(r.outcome.receipt, who))
                   && store.file == Some(r.outcome.receipt.payload)
              else pending == old(pending) && (!r.Accepted? ==> store.file == old(store.file))
    {
      if !policy.Permits(model, who) {
        return Refused;
      }
      ghost var file := store.file;
      var outcome := store.Select(model, memory.version, None, None, replace);
      if outcome.Unknown? {
        pending := Some(Pending(outcome.receipt, who));
      }
      if !outcome.Done? {
        return Unswitched(outcome);
      }
      ghost var seen := ReadFile(store.lib, store.valid, file, model).value;
      ghost var d := Next(model, seen, None, None);
      SwitchKeepsAhead(store.lib, store.valid, file, memory, d, who);
      SameVersion(store.lib, store.valid, file, model, "");
      AgreesIsAhead(store.lib, store.valid, memory);
      memory := memory.(model := model, requester := who, version := outcome.session.version);
      AgreesIsAhead(store.lib, store.valid, memory);
      r := Accepted;
    }

    /** Switching for this process alone. */
    method SwitchLocally(model: string, who: Requester) returns (r: Result)
      modifies this
      ensures old(Agreeing()) ==> Agreeing()
      ensures forall local :: old(AheadBy(local)) ==> AheadBy(local)
      ensures r == if model in policy.catalog && (who in policy.allowed ==> model in policy.allowed[who])
                   then Accepted else Refused
      ensures pending == old(pending)
      ensures memory == if r.Accepted? then old(memory).(model := model, requester := who) else old(memory)
    {
      r := Refused;
      if policy.Permits(model, who) {
        memory := memory.(model := model, requester := who);
        r := Accepted;
      }
    }

    /** Request preferences of the current model for this process alone: memory goes ahead of what it names. */
    method ConfigureLocally(update: Option<Json> -> Option<Json>) returns (r: Result)
      modifies this
      ensures r == if old(memory.model) in policy.catalog
                      && (User in policy.allowed ==> old(memory.model) in policy.allowed[User])
                      && update(Preference(old(memory.model), old(memory.preferences))).Some? then Accepted else Refused
      ensures pending == old(pending)
      ensures r.Refused? ==> memory == old(memory)
      ensures r.Accepted? ==>
              && update(Preference(old(memory.model), old(memory.preferences))).Some?
              && var value := update(Preference(old(memory.model), old(memory.preferences))).value;
                 memory == old(memory).(preferences := old(memory).preferences[old(memory).model := value],
                                        settings := old(memory).settings + 1)
      ensures r.Accepted? ==> forall local :: old(AheadBy(local)) ==> AheadBy(local + {memory.model})
      ensures r.Accepted? && old(Agreeing()) ==>
              (Agreeing() <==> Named(store.lib, store.valid, memory.version).None?)
    {
      if !policy.Permits(memory.model, User) {
        return Refused;
      }
      var value := update(Preference(memory.model, memory.preferences));
      if value.None? {
        return Refused;
      }
      memory := memory.(
        preferences := memory.preferences[memory.model := value.value], settings := memory.settings + 1);
      r := Accepted;
    }

    /**
     Persisted request preferences of the current model, written from memory over the version memory
     names. A preference of another model in the file is lost exactly when memory had a different one,
     which takes a request configured for this process alone since memory was last in line with a file;
     the write brings it in line.
     */
    method Configure(update: Option<Json> -> Option<Json>, replace: Replace) returns (r: Result)
      requires Faithful(store.lib)
      modifies this, store
      ensures r.Accepted? || old(Agreeing()) ==> Agreeing()
      ensures !r.Accepted? ==> memory == old(memory)
      ensures r.Accepted? <==>
              && old(memory.model) in policy.catalog
              && (User in policy.allowed ==> old(memory.model) in policy.allowed[User])
              && update(Preference(old(memory.model), old(memory.preferences))).Some?
              && old(Ready(memory.model)) && replace.Durable?
      ensures r.Accepted? ==>
              && old(store.Read(memory.model)).Some?
              && update(Preference(old(memory.model), old(memory.preferences))).Some?
              && var seen, model := old(store.Read(memory.model)).value, old(memory.model);
                 var value := update(Preference(model, old(memory.preferences))).value;
                 var d := Document(model, seen.version.revision + 1, old(memory.preferences)[model := value],
                                   old(memory.settings) + 1);
                 && store.file == Some(Encode(store.lib, d))
                 && memory == Written(store.lib, d, old(memory).requester)
                 && LosesAsMemoryDiffers(store.lib, store.valid, old(memory), seen.preferences, d.preferences)
      ensures r.Accepted? && old(Agreeing()) ==>
              var seen, model := old(store.Read(memory.model)).value, old(memory.model);
              && update(Preference(model, seen.preferences)).Some?
              && var d := Configured(seen, model, update(Preference(model, seen.preferences)).value);
                 store.file == Some(Encode(store.lib, d)) && memory == Written(store.lib, d, old(memory).requester)
      ensures if r.Unswitched? && r.outcome.Unknown?
              then pending == Some(Pending(r.outcome.receipt, memory.requester))
                   && store.file == Some(r.outcome.receipt.payload)
              else pending == old(pending) && (!r.Accepted? ==> store.file == old(store.file))
    {
      if !policy.Permits(memory.model, User) {
        return Refused;
      }
      var value := update(Preference(memory.model, memory.preferences));
      if value.None? {
        return Refused;
      }
      ghost var file := store.file;
      if old(Ready(memory.model)) {
        ConfigureSpares(store.lib, store.valid, file, memory, value.value);
      }
      r := Persist(value.value, replace);
    }

    /** A new preference of the current model, selected over the version memory names. */
    method Persist(value: Json, replace: Replace) returns (r: Result)
      requires Faithful(store.lib)
      modifies this, store
      ensures !r.Refused? && (r.Accepted? || old(Agreeing()) ==> Agreeing())
      ensures r.Accepted? <==> old(Ready(memory.model)) && replace.Durable?
      ensures !r.Accepted? ==> memory == old(memory)
      ensures r.Accepted? ==>
              var d := Document(old(memory.model), old(memory.version.revision) + 1,
                                old(memory.preferences)[old(memory.model) := value], old(memory.settings) + 1);
              store.file == Some(Encode(store.lib, d)) && memory == Written(store.lib, d, old(memory).requester)
      ensures if r.Unswitched? && r.outcome.Unknown?
              then pending == Some(Pending(r.outcome.receipt, memory.requester))
                   && store.file == Some(r.outcome.receipt.payload)
              else pending == old(pending) && (!r.Accepted? ==> store.file == old(store.file))
    {
      var preferences := memory.preferences[memory.model := value];
      var outcome := store.Select(memory.model, memory.version, Some(preferences), Some(memory.settings + 1), replace);
      if outcome.Unknown? {
        pending := Some(Pending(outcome.receipt, memory.requester));
      }
      if !outcome.Done? {
        return Unswitched(outcome);
      }
      ghost var d := Document(memory.model, memory.version.revision + 1, preferences, memory.settings + 1);
      WrittenAgrees(store.lib, store.valid, d, memory.requester);
      memory := memory.(
        version := outcome.session.version, preferences := preferences, settings := memory.settings + 1);
      assert memory == Written(store.lib, d, old(memory).requester);
      r := Accepted;
    }

    /** Only the receipt in hand, still permitted, over exactly its post-state; memory then is that state. */
    method ReconcileSwitch(receipt: Receipt, confirms: bool) returns (r: Result)
      modifies this
      ensures r.Accepted? <==>
              && old(pending).Some? && old(pending).value.receipt == receipt
              && receipt.model in policy.catalog
              && (old(pending).value.requester in policy.allowed ==>
                    receipt.model in policy.allowed[old(pending).value.requester])
              && confirms && store.Reconciles(store.file, receipt)
      ensures r.Accepted? ==> pending == None && memory.model == receipt.model && Agreeing()
                              && store.Read(receipt.model) == Some(Recalled(memory))
      ensures !r.Accepted? ==> memory == old(memory)
      ensures r.Unswitched? && r.outcome.Conflict? ==> pending == None
      ensures !r.Accepted? && !(r.Unswitched? && r.outcome.Conflict?) ==> pending == old(pending)
    {
      if pending.None? || pending.value.receipt != receipt || !policy.Permits(receipt.model, pending.value.requester) {
        return Refused;
      }
      var outcome := store.Reconcile(receipt, confirms);
      if !outcome.Done? {
        if outcome.Conflict? {
          pending := None;
        }
        return Unswitched(outcome);
      }
      ReadAgrees(store.lib, store.valid, store.file, receipt.model, pending.value.requester);
      memory := Remember(outcome.session, pending.value.requester);
      pending := None;
      r := Accepted;
    }
  }

  // ----- Loading

  datatype Loaded =
    | Garbled
    | Unoffered
    | NotPermitted
    | NotWritten(outcome: Outcome)
    | Kept(memory: Memory)
    | Repaired(memory: Memory)

  /** Who is taken to have made the choice that was read: nobody made the default. */
  function Recall(session: Session): Memory {
    Remember(session, if session.version.payload.None? then System else User)
  }

  /** What another process may have made of the file meanwhile. */
  method Interfere(store: Store, meanwhile: Option<Option<string>>)
    modifies store
    ensures store.file == if meanwhile.Some? then meanwhile.value else old(store.file)
  {
    if meanwhile.Some? {
      store.file := meanwhile.value;
    }
  }

  /** `file` can be read, its choice left the catalog, and selecting the default over it gives `after`. */
  ghost predicate RepairOf(lib: Library, valid: Json -> bool, file: Option<string>, default: string, policy: Policy,
                           after: Option<string>)
  {
    var seen := ReadFile(lib, valid, file, default);
    && seen.Some? && seen.value.model !in policy.catalog
    && after == Some(Encode(lib, Next(default, seen.value, None, None)))
  }

  /** The default was selected, for all one can know. */
  predicate Wrote(r: Loaded) { r.Repaired? || (r.NotWritten? && r.outcome.Unknown?) }

  /** How selecting the default ends when nobody interferes. */
  predicate Ends(replace: Replace, r: Loaded) {
    match replace
    case Durable => r.Repaired?
    case NotVisible => r.NotWritten? && r.outcome.Failed?
    case Unconfirmed => r.NotWritten? && r.outcome.Unknown?
  }

  /**
   Loading a session. A model given by the caller is taken for this process with the file's
   preferences, and nothing is written. Otherwise a choice that left the catalog is replaced by the
   default, in two attempts at most. Whatever other processes write in between, only a choice outside
   the catalog is overwritten, and its preferences are carried over.
   */
  method Load(store: Store, policy: Policy, default: string, initial: Option<(string, Requester)>,
              first: Option<Option<string>>, second: Option<Option<string>>, endings: (Replace, Replace))
    returns (r: Loaded, ghost over: Option<string>)
    requires default in policy.catalog && Faithful(store.lib)
    modifies store
    ensures r.Kept? ==> r.memory.model in policy.catalog && Agrees(store.lib, store.valid, r.memory)
    ensures r.Repaired? ==> r.memory.model == default && Agrees(store.lib, store.valid, r.memory)
    ensures initial.Some? ==>
            var seen := old(store.Read(default));
            && store.file == old(store.file)
            && r == if seen.None? then Garbled else if initial.value.0 !in policy.catalog then Unoffered
                    else Kept(Remember(seen.value, initial.value.1).(model := initial.value.0))
    ensures initial.None? && first.None? && Trimmed(default) ==>
            var seen := old(store.Read(default));
            if seen.None? then r.Garbled?
            else if seen.value.model in policy.catalog then r == Kept(Recall(seen.value))
            else if !policy.Permits(default, User) then r.NotPermitted?
            else Ends(endings.0, r)
    ensures r.NotWritten? && r.outcome.Conflict? ==> first.Some? && second.Some?
    ensures r.NotPermitted? ==> !policy.Permits(default, User)
    ensures initial.None? ==> !r.Unoffered? && (r.Garbled? ==> store.Read(default).None?)
    ensures initial.None? && r.Kept? ==> store.Read(default).Some? && r.memory == Recall(store.Read(default).value)
    ensures initial.None? && r.Kept? ==> (r.memory.requester == if store.file.None? then System else User)
    ensures Wrote(r) ==> RepairOf(store.lib, store.valid, over, default, policy, store.file)
    ensures !Wrote(r) ==> store.file == old(store.file) || first == Some(store.file) || second == Some(store.file)
  {
    var seen := store.Read(default);
    over := store.file;
    if seen.None? {
      return Garbled, over;
    }
    ReadAgrees(store.lib, store.valid, store.file, default, User);
    if initial.Some? {
      r := if initial.value.0 !in policy.catalog then Unoffered
      else Kept(Remember(seen.value, initial.value.1).(model := initial.value.0));
      return;
    }
    if seen.value.model in policy.catalog {
      return Kept(Recall(seen.value)), over;
    }
    if !policy.Permits(default, User) {
      return NotPermitted, over;
    }
    r, over := Repair(store, policy, default, seen.value, first, endings.0);
    if r.NotWritten? && r.outcome.Conflict? {
      var newer := store.Read(default);
      if newer.None? {
        return Garbled, over;
      }
      if newer.value.model in policy.catalog {
        ReadAgrees(store.lib, store.valid, store.file, default, User);
        return Kept(Recall(newer.value)), over;
      }
      r, over := Repair(store, policy, default, newer.value, second, endings.1);
    }
  }

  /** Another process may write, and the default is selected over what was read before it did. */
  method Repair(store: Store, policy: Policy, default: string, seen: Session, meanwhile: Option<Option<string>>,
                replace: Replace)
    returns (r: Loaded, ghost over: Option<string>)
    requires store.Read(default) == Some(seen) && seen.model !in policy.catalog && Faithful(store.lib)
    modifies store
    ensures r.Repaired? || r.NotWritten?
    ensures meanwhile.None? && Trimmed(default) ==> Ends(replace, r)
    ensures r.NotWritten? && r.outcome.Conflict? ==> meanwhile.Some?
    ensures r.Repaired? ==> r.memory.model == default && Agrees(store.lib, store.valid, r.memory)
    ensures Wrote(r) ==> RepairOf(store.lib, store.valid, over, default, policy, store.file)
    ensures !Wrote(r) ==> store.file == if meanwhile.Some? then meanwhile.value else old(store.file)
  {
    Interfere(store, meanwhile);
    over := store.file;
    var outcome := store.Select(default, seen.version, None, None, replace);
    r := if outcome.Done? then Repaired(Remember(outcome.session, User)) else NotWritten(outcome);
    if outcome.Done? {
      var d := Next(default, ReadFile(store.lib, store.valid, over, default).value, None, None);
      WrittenAgrees(store.lib, store.valid, d, User);
    }
  }

  // ----- A preference lost

  /** A plane that loaded `d` and configured a request for its own process alone. */
  method LocallyConfigured(lib: Library, valid: Json -> bool, d: Document, value: Json) returns (plane: Plane)
    ensures fresh(plane) && fresh(plane.store) && plane.store.lib == lib && plane.store.valid == valid
    ensures plane.policy == Policy({"a", "b"}, map[]) && plane.store.file == Some(Encode(lib, d))
    ensures plane.memory == if d.model in {"a", "b"}
                            then Written(lib, d, User).(preferences := d.preferences[d.model := value],
                                                        settings := d.settings + 1)
                            else Written(lib, d, User)
  {
    var store := new Store(lib, valid, Some(Encode(lib, d)));
    plane := new Plane(Policy({"a", "b"}, map[]), store, Written(lib, d, User));
    var r := plane.ConfigureLocally(_ => Some(value));
  }

  /** Then a switch to the other model: memory and file are under one version with different preferences. */
  method SwitchedAhead(lib: Library, valid: Json -> bool, d: Document, value: Json) returns (plane: Plane, r: Result)
    requires Faithful(lib) && d.model == "a" && GoodPreferences(valid, d.preferences)
    ensures fresh(plane) && fresh(plane.store) && plane.store.lib == lib && plane.store.valid == valid
    ensures plane.policy == Policy({"a", "b"}, map[]) && r.Accepted?
    ensures var switched := d.(model := "b", revision := d.revision + 1);
            && plane.store.file == Some(Encode(lib, switched))
            && plane.memory == Written(lib, switched, User).(preferences := d.preferences["a" := value],
                                                             settings := d.settings + 1)
  {
    SoundNames();
    WrittenReads(lib, valid, d, "b");
    plane := LocallyConfigured(lib, valid, d, value);
    r := plane.SwitchModel("b", User, Durable);
  }

  /**
   Then a persisted request preference for that model: the file's preference of the first is
   overwritten, though nobody persisted a change to it.
   */
  method LocalPreferenceOverwrites(lib: Library, valid: Json -> bool, low: Json, high: Json)
    returns (plane: Plane, before: string, second: Result, third: Result)
    requires Faithful(lib) && valid(low) && valid(high)
    ensures Parse(lib, valid, before) == Some(Document("a", 1, map["a" := low], 0))
    ensures second.Accepted? && third.Accepted?
    ensures plane.store.file == Some(Encode(lib, Document("b", 3, map["a" := high, "b" := low], 2)))
  {
    var d := Document("a", 1, map["a" := low], 0);
    before := Encode(lib, d);
    SoundNames();
    DocumentRoundTrip(lib, valid, d);
    plane, second := SwitchedAhead(lib, valid, d, high);
    assert plane.Ready("b") by {
      WrittenReads(lib, valid, d.(model := "b", revision := 2), "b");
    }
    assert map["a" := low]["a" := high]["b" := low] == map["a" := high, "b" := low];
    third := plane.Configure(_ => Some(low), Durable);
  }

  lemma WrittenReads(lib: Library, valid: Json -> bool, d: Document, default: string)
    requires Faithful(lib) && Trimmed(d.model) && GoodPreferences(valid, d.preferences)
    ensures ReadFile(lib, valid, Some(Encode(lib, d)), default)
         == Some(Session(d.model, Version(d.revision, Some(Encode(lib, d))), d.preferences, d.settings))
  {
    DocumentRoundTrip(lib, valid, d);
  }

  lemma SoundNames()
    ensures Trimmed("a") && Trimmed("b")
  {
  }
}
