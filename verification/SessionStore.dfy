/** The file holding a session's model choice and request preferences. */
module SessionStore {
  import opened Paths
  import opened Json
  import opened Text
  import opened VersionedFile

  datatype Document = Document(model: string, revision: nat, preferences: map<string, Json>, settings: nat)

  datatype Session = Session(model: string, version: Version, preferences: map<string, Json>, settings: nat)

  datatype Receipt = Receipt(base: Version, revision: nat, payload: string, model: string)

  datatype Outcome =
    | InvalidModel
    | Unreadable
    | Conflict
    | Failed
    | Unknown(receipt: Receipt)
    | Done(session: Session)

  // ----- The document

  function Fields(d: Document): map<string, Json> {
    var plain := map["version" := Num(1), "revision" := Num(d.revision), "current_model_id" := Text(d.model)];
    if d.preferences == map[] && d.settings == 0 then plain
    else plain["version" := Num(2)]
              ["request_preferences" := Object(d.preferences)]
              ["request_settings_revision" := Num(d.settings)]
  }

  /** The two document versions: the second one only where there are request preferences. */
  lemma FieldsAre(d: Document)
    ensures Fields(d) ==
            if d.preferences == map[] && d.settings == 0
            then map["version" := Num(1), "revision" := Num(d.revision), "current_model_id" := Text(d.model)]
            else map["version" := Num(2), "revision" := Num(d.revision), "current_model_id" := Text(d.model),
                     "request_preferences" := Object(d.preferences), "request_settings_revision" := Num(d.settings)]
  {
  }

  function Encode(lib: Library, d: Document): string {
    lib.dumps(Object(Fields(d))) + "\n"
  }

  const LEGACY_KEYS := {"current_model_id"}
  const PLAIN_KEYS := {"version", "revision", "current_model_id"}
  const FULL_KEYS := {"version", "revision", "current_model_id", "request_preferences", "request_settings_revision"}

  predicate Counter(j: Json) { j.Num? && j.number >= 0 }

  predicate GoodPreferences(valid: Json -> bool, preferences: map<string, Json>) {
    forall k | k in preferences :: Trimmed(k) && valid(preferences[k])
  }

  /** The strict reader of the three accepted shapes; a legacy document has revision 0. */
  function ReadFields(valid: Json -> bool, f: map<string, Json>): Option<Document> {
    if f.Keys != LEGACY_KEYS && f.Keys != PLAIN_KEYS && f.Keys != FULL_KEYS then None
    else if f.Keys != LEGACY_KEYS && f["version"] != Num(if f.Keys == FULL_KEYS then 2 else 1) then None
    else if f.Keys == FULL_KEYS && !(Counter(f["request_settings_revision"]) && f["request_preferences"].Object?
                                     && GoodPreferences(valid, f["request_preferences"].fields)) then None
    else if f.Keys != LEGACY_KEYS && !Counter(f["revision"]) then None
    else if !f["current_model_id"].Text? || !Trimmed(f["current_model_id"].text) then None
    else Some(Document(f["current_model_id"].text,
                       if f.Keys == LEGACY_KEYS then 0 else f["revision"].number,
                       if f.Keys == FULL_KEYS then f["request_preferences"].fields else map[],
                       if f.Keys == FULL_KEYS then f["request_settings_revision"].number else 0))
  }

  function Parse(lib: Library, valid: Json -> bool, payload: string): Option<Document> {
    var value := lib.loads(payload);
    if value.None? || !value.value.Object? then None else ReadFields(valid, value.value.fields)
  }

  /** In either version, what is written is read back, exactly when its model and preference keys are sound. */
  lemma DocumentRoundTrip(lib: Library, valid: Json -> bool, d: Document)
    requires Faithful(lib)
    ensures Parse(lib, valid, Encode(lib, d))
         == if Trimmed(d.model) && GoodPreferences(valid, d.preferences) then Some(d) else None
  {
    var f := Fields(d);
    assert JsonSpaces("") && JsonSpaces("\n");
    assert "" + lib.dumps(Object(f)) + "\n" == Encode(lib, d);
    assert lib.loads(Encode(lib, d)) == Some(Object(f));
    if d.preferences == map[] && d.settings == 0 {
      assert f.Keys == PLAIN_KEYS;
      assert "request_preferences" in FULL_KEYS && "request_preferences" !in PLAIN_KEYS;
    } else {
      assert f.Keys == FULL_KEYS;
    }
    assert "version" in f && "version" !in LEGACY_KEYS;
  }

  function ReadRevision(lib: Library, valid: Json -> bool): Reader {
    payload => var d := Parse(lib, valid, payload); if d.None? then None else Some(d.value.revision)
  }

  // ----- The store

  function ReadFile(lib: Library, valid: Json -> bool, file: Option<string>, default: string): Option<Session> {
    match file
    case None => Some(Session(default, Version(0, None), map[], 0))
    case Some(payload) =>
      var d := Parse(lib, valid, payload);
      if d.None? then None
      else Some(Session(d.value.model, Version(d.value.revision, file), d.value.preferences, d.value.settings))
  }

  /** The document a selection writes over what was read. */
  function Next(model: string, seen: Session, preferences: Option<map<string, Json>>, settings: Option<nat>): Document {
    Document(model, seen.version.revision + 1,
             if preferences.Some? then preferences.value else seen.preferences,
             if settings.Some? then settings.value else seen.settings)
  }

  /** One call of `select`, by any process. */
  datatype Call = Call(
    model: string, expected: Version, preferences: Option<map<string, Json>>, settings: Option<nat>, replace: Replace)

  /** The call's write becomes visible. */
  predicate Lands(lib: Library, valid: Json -> bool, file: Option<string>, c: Call) {
    && Trimmed(c.model) && !c.replace.NotVisible?
    && var seen := ReadFile(lib, valid, file, c.model);
       seen.Some? && seen.value.version == c.expected
  }

  function AfterCall(lib: Library, valid: Json -> bool, file: Option<string>, c: Call): Option<string> {
    if !Lands(lib, valid, file, c) then file
    else Some(Encode(lib, Next(c.model, ReadFile(lib, valid, file, c.model).value, c.preferences, c.settings)))
  }

  class Store {
    var file: Option<string>
    const lib: Library
    const valid: Json -> bool

    constructor (lib: Library, valid: Json -> bool, file: Option<string>)
      ensures this.lib == lib && this.valid == valid && this.file == file
    {
      this.lib, this.valid, this.file := lib, valid, file;
    }

    /** What reading the file yields; none when its content is malformed. */
    function Read(default: string): Option<Session>
      reads this
    {
      ReadFile(lib, valid, file, default)
    }

    method Select(model: string, expected: Version, preferences: Option<map<string, Json>>, settings: Option<nat>,
                  replace: Replace)
      returns (r: Outcome)
      modifies this
      ensures file == AfterCall(lib, valid, old(file), Call(model, expected, preferences, settings, replace))
      ensures r.InvalidModel? <==> !Trimmed(model)
      ensures Trimmed(model) ==> (r.Unreadable? <==> old(Read(model)).None?)
      ensures Trimmed(model) && old(Read(model)).Some? ==>
              (r.Conflict? <==> old(Read(model)).value.version != expected)
      ensures r.Failed? ==> replace == NotVisible
      ensures r.Done? || r.Unknown? ==>
              file == Some(Encode(lib, Next(model, old(Read(model)).value, preferences, settings)))
      ensures !(r.Done? || r.Unknown?) ==> file == old(file)
      ensures r.Unknown? ==>
              replace == Unconfirmed && r.receipt == Receipt(expected, expected.revision + 1, file.value, model)
      ensures r.Done? ==>
              && replace == Durable
              && var d := Next(model, old(Read(model)).value, preferences, settings);
                 r.session == Session(model, Version(expected.revision + 1, file), d.preferences, d.settings)
      ensures r.Done? ==>
              && r.session.model == model && r.session.version == Version(expected.revision + 1, file)
              && r.session.preferences
                 == (if preferences.Some? then preferences.value else old(Read(model)).value.preferences)
              && r.session.settings == (if settings.Some? then settings.value else old(Read(model)).value.settings)
              && file == Some(Encode(lib, Document(model, expected.revision + 1, r.session.preferences,
                                                   r.session.settings)))
      ensures Faithful(lib) && (r.Done? || r.Unknown?) ==>
              Commits(ReadRevision(lib, valid), old(file), expected, file)
      ensures Faithful(lib) && (r.Done? || r.Unknown?) ==>
              (Read(model).Some? <==> (preferences.Some? ==> GoodPreferences(valid, preferences.value)))
    {
      if !Trimmed(model) {
        return InvalidModel;
      }
      var observed := Read(model);
      if observed.None? {
        return Unreadable;
      }
      if observed.value.version != expected {
        return Conflict;
      }
      var next := Next(model, observed.value, preferences, settings);
      var payload := Encode(lib, next);
      if Faithful(lib) {
        SelectionCommits(lib, valid, file, expected, next);
        DocumentRoundTrip(lib, valid, next);
      }
      match replace
      case NotVisible =>
        r := Failed;
      case Unconfirmed =>
        file := Some(payload);
        r := Unknown(Receipt(observed.value.version, next.revision, payload, model));
      case Durable =>
        file := Some(payload);
        r := Done(Session(model, Version(next.revision, file), next.preferences, next.settings));
    }

    /** Succeeds when the file is the receipt's post-state and the directory confirms. */
    method Reconcile(receipt: Receipt, confirms: bool) returns (r: Outcome)
      ensures r.Done? <==> confirms && Reconciles(file, receipt)
      ensures r.Unknown? <==> !confirms && Reconciles(file, receipt)
      ensures r.Unreadable? <==> Read(receipt.model).None?
      ensures r.Done? ==> Some(r.session) == Read(receipt.model)
    {
      var observed := Read(receipt.model);
      if observed.None? {
        return Unreadable;
      }
      if observed.value.model != receipt.model
         || observed.value.version != Version(receipt.revision, Some(receipt.payload)) {
        return Conflict;
      }
      r := if confirms then Done(observed.value) else Unknown(receipt);
    }

    ghost predicate Reconciles(file: Option<string>, receipt: Receipt) {
      && file == Some(receipt.payload)
      && var d := Parse(lib, valid, receipt.payload);
         d.Some? && d.value.model == receipt.model && d.value.revision == receipt.revision
    }

    /** For a receipt issued by a selection: reconciled exactly when the file is the intended one and can be read. */
    lemma IssuedReceiptReconciles(file: Option<string>, receipt: Receipt, d: Document)
      requires Faithful(lib) && receipt == Receipt(receipt.base, d.revision, Encode(lib, d), d.model)
      requires Trimmed(d.model)
      ensures Reconciles(file, receipt) <==> file == Some(receipt.payload) && GoodPreferences(valid, d.preferences)
    {
      DocumentRoundTrip(lib, valid, d);
    }
  }

  /** A visible selection is a commit in the sense of VersionedFile. */
  lemma SelectionCommits(lib: Library, valid: Json -> bool, before: Option<string>, expected: Version, d: Document)
    requires Faithful(lib)
    requires Observe(ReadRevision(lib, valid), before) == Some(expected) && d.revision == expected.revision + 1
    ensures Commits(ReadRevision(lib, valid), before, expected, Some(Encode(lib, d)))
  {
    DocumentRoundTrip(lib, valid, d);
  }

  // ----- Runs of selections

  /** The file before, between and after calls of any processes, in the order of the lock. */
  ghost predicate IsHistory(lib: Library, valid: Json -> bool, files: seq<Option<string>>, calls: seq<Call>) {
    && |files| == |calls| + 1
    && forall i | 0 <= i < |calls| :: files[i + 1] == AfterCall(lib, valid, files[i], calls[i])
  }

  function Attempts(lib: Library, valid: Json -> bool, files: seq<Option<string>>, calls: seq<Call>): seq<Attempt>
    requires |files| == |calls| + 1
  {
    seq(|calls|, i requires 0 <= i < |calls| => Attempt(calls[i].expected, Lands(lib, valid, files[i], calls[i])))
  }

  /** Any interleaving of selections is a run. */
  lemma SelectionsRun(lib: Library, valid: Json -> bool, files: seq<Option<string>>, calls: seq<Call>)
    requires Faithful(lib) && IsHistory(lib, valid, files, calls)
    ensures IsRun(ReadRevision(lib, valid), files, Attempts(lib, valid, files, calls))
  {
    var attempts := Attempts(lib, valid, files, calls);
    forall i | 0 <= i < |calls|
      ensures if attempts[i].visible
              then Commits(ReadRevision(lib, valid), files[i], attempts[i].expected, files[i + 1])
              else files[i + 1] == files[i]
    {
      if Lands(lib, valid, files[i], calls[i]) {
        var c := calls[i];
        var d := Next(c.model, ReadFile(lib, valid, files[i], c.model).value, c.preferences, c.settings);
        SelectionCommits(lib, valid, files[i], c.expected, d);
      }
    }
  }

  /** So two visible selections never name one version, and the revision counts the visible ones. */
  lemma SelectionsWin(lib: Library, valid: Json -> bool, files: seq<Option<string>>, calls: seq<Call>)
    requires Faithful(lib) && IsHistory(lib, valid, files, calls)
    ensures forall i, j | 0 <= i < j < |calls|
                          && Lands(lib, valid, files[i], calls[i]) && Lands(lib, valid, files[j], calls[j]) ::
              calls[i].expected != calls[j].expected
    ensures var read := ReadRevision(lib, valid);
            Observe(read, files[0]).Some? && Observe(read, files[|calls|]).Some? ==>
            Observe(read, files[|calls|]).value.revision
              == Observe(read, files[0]).value.revision + Visible(Attempts(lib, valid, files, calls))
  {
    var read, attempts := ReadRevision(lib, valid), Attempts(lib, valid, files, calls);
    SelectionsRun(lib, valid, files, calls);
    forall i, j | 0 <= i < j < |calls| && Lands(lib, valid, files[i], calls[i]) && Lands(lib, valid, files[j], calls[j])
      ensures calls[i].expected != calls[j].expected
    {
      OneWinner(read, files, attempts, i, j);
    }
    if Observe(read, files[0]).Some? && Observe(read, files[|calls|]).Some? {
      RevisionCountsCommits(read, files, attempts);
    }
  }

  /** `select` does not check preference keys: it accepts a padded one, and the file cannot be read any more. */
  method PaddedKeyLocksOut(lib: Library, valid: Json -> bool, model: string, value: Json)
    returns (store: Store, r: Outcome)
    requires Faithful(lib) && Trimmed(model)
    ensures r.Done? && store.lib == lib && store.valid == valid && store.Read(model).None?
  {
    store := new Store(lib, valid, None);
    var preferences := map[" m" := value];
    assert " m" in preferences && !Trimmed(" m");
    r := store.Select(model, Version(0, None), Some(preferences), None, Durable);
  }
}
