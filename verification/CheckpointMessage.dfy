/**
 The metadata of a checkpoint, written into its commit message as a JSON trailer and read
 back from the raw message; and the older format, read back from the subject line.
 */
module CheckpointMessage {
  import opened Paths
  import opened Decimals
  import opened Json
  import opened Text

  /** What a listing learns of a checkpoint; corrupt metadata never falls back to the title. */
  datatype Entry =
    | Entry(trigger: Option<string>, turn: Option<string>, sequence: nat)
    | Corrupt

  const TRAILER := "Praxis-Checkpoint"
  const HEADING := "praxis-checkpoint "

  predicate IsTrigger(s: string) { s == "pre_write" || s == "restore" }

  // ----- Writing

  predicate Safe(c: char) {
    'A' <= c <= 'Z' || 'a' <= c <= 'z' || '0' <= c <= '9' || c == '.' || c == '_' || c == '-'
  }

  /** ASCII letters and digits, the full stop, the underscore and the hyphen. */
  lemma SafeAre(c: char)
    ensures Safe(c) <==>
            var n := c as int; 65 <= n <= 90 || 97 <= n <= 122 || 48 <= n <= 57 || n == 46 || n == 95 || n == 45
  {
  }

  predicate AllSafe(s: string) { forall i | 0 <= i < |s| :: Safe(s[i]) }

  /** Unsafe characters become underscores, and 64 characters are kept. */
  function Sanitize(turn: string): (s: string)
    ensures AllSafe(s) && |s| == (if |turn| < 64 then |turn| else 64)
    ensures forall i | 0 <= i < |s| :: s[i] == if Safe(turn[i]) then turn[i] else '_'
    ensures AllSafe(turn) && |turn| <= 64 ==> s == turn
  {
    var safe := seq(|turn|, i requires 0 <= i < |turn| => if Safe(turn[i]) then turn[i] else '_');
    if |safe| <= 64 then safe else safe[..64]
  }

  function Subject(trigger: string, turn: string, digits: string): string {
    HEADING + trigger + (if turn == "" then "" else " " + turn) + " seq=" + digits
  }

  function Metadata(trigger: string, turn: string, sequence: nat): Json {
    Object(map["version" := Num(1), "trigger" := Text(trigger), "turn_id" := Text(turn), "sequence" := Num(sequence)])
  }

  function Front(lib: Library, workspace: string, modes: map<string, Json>): string {
    "workspace: " + workspace + "\npraxis-modes-json: " + lib.dumps(Object(modes))
  }

  function Trailer(json: string): string { TRAILER + ": " + json }

  function Message(lib: Library, trigger: string, turn: string, sequence: nat, workspace: string, modes: map<string,
                   Json>)
    : string
  {
    Subject(trigger, Sanitize(turn), Padded(sequence, 6))
    + "\n\n" + Front(lib, workspace, modes)
    + "\n\n" + Trailer(lib.dumps(Metadata(trigger, turn, sequence)))
  }

  /** The fixed texts of subjects, trailers and metadata. */
  lemma Written(lib: Library, trigger: string, turn: string, digits: string, sequence: nat, modes: map<string, Json>)
    ensures Front(lib, turn, modes) == "workspace: " + turn + "\npraxis-modes-json: " + lib.dumps(Object(modes))
    ensures Subject(trigger, turn, digits)
         == "praxis-checkpoint " + trigger + (if turn == "" then "" else " " + turn) + " seq=" + digits
    ensures Trailer(digits) == "Praxis-Checkpoint: " + digits
    ensures Metadata(trigger, turn, sequence)
         == Object(map["version" := Num(1), "trigger" := Text(trigger), "turn_id" := Text(turn),
                       "sequence" := Num(sequence)])
  {
    assert TRAILER + ": " == "Praxis-Checkpoint: ";
  }

  // ----- Reading

  /** `partition("\n\n")[2]`. */
  function AfterFirstBreak(s: string): string {
    if |s| < 2 then "" else if s[0] == '\n' && s[1] == '\n' then s[2..] else AfterFirstBreak(s[1..])
  }

  /** `rsplit("\n\n", 1)[-1]`, looking only before position `end`. */
  function AfterLastBreak(s: string, end: nat): string
    requires end <= |s|
  {
    if end < 2 then s else if s[end - 2] == '\n' && s[end - 1] == '\n' then s[end..] else AfterLastBreak(s, end - 1)
  }

  function RStrip(s: string): string {
    if s == "" || !IsSpace(s[|s| - 1]) then s else RStrip(s[..|s| - 1])
  }

  /** The characters at which `splitlines` ends a line. */
  predicate EndsLine(c: char) {
    '\n' <= c <= '\r' || '\U{001C}' <= c <= '\U{001E}' || c == '\U{0085}' || c == '\U{2028}' || c == '\U{2029}'
  }

  function LineLength(s: string): (n: nat)
    ensures n <= |s|
  {
    if s == "" || EndsLine(s[0]) then 0 else 1 + LineLength(s[1..])
  }

  function Lines(s: string): seq<string>
    decreases |s|
  {
    if s == "" then []
    else
      var n := LineLength(s);
      if n == |s| then [s]
      else [s[..n]] + Lines(if s[n] == '\r' && n + 1 < |s| && s[n + 1] == '\n' then s[n + 2..] else s[n + 1..])
  }

  function Records(lines: seq<string>): seq<string> {
    if lines == [] then []
    else (if TRAILER + ":" <= lines[0] then [lines[0]] else []) + Records(lines[1..])
  }

  /** `partition(":")[2]`. */
  function AfterColon(s: string): string {
    if s == "" then "" else if s[0] == ':' then s[1..] else AfterColon(s[1..])
  }

  function ReadMetadata(value: Option<Json>): Entry {
    if value.None? || !value.value.Object? then Corrupt
    else
      var fields := value.value.fields;
      if "version" !in fields || fields["version"] != Num(1) then Corrupt
      else if "trigger" !in fields || !fields["trigger"].Text? || !IsTrigger(fields["trigger"].text) then Corrupt
      else if "turn_id" !in fields || !fields["turn_id"].Text? then Corrupt
      else if "sequence" !in fields || !fields["sequence"].Num? || fields["sequence"].number < 0 then Corrupt
      else Entry(Some(fields["trigger"].text), Some(fields["turn_id"].text), fields["sequence"].number)
  }

  function SafeRun(s: string): (n: nat)
    ensures n <= |s| && AllSafe(s[..n]) && (n < |s| ==> !Safe(s[n]))
  {
    if s == "" || !Safe(s[0]) then 0 else 1 + SafeRun(s[1..])
  }

  const SEQ := " seq="

  /** The subject after its trigger: an optional turn id, then the sequence digits. */
  function LegacyTail(rest: string): Option<(string, string)> {
    if SEQ <= rest && rest[|SEQ|..] != "" && AllDigits(rest[|SEQ|..]) then Some(("", rest[|SEQ|..]))
    else if rest == "" || rest[0] != ' ' then None
    else
      var n := SafeRun(rest[1..]);
      var after := rest[1 + n..];
      if 1 <= n <= 64 && SEQ <= after && after[|SEQ|..] != "" && AllDigits(after[|SEQ|..])
      then Some((rest[1..1 + n], after[|SEQ|..]))
      else None
  }

  function LegacyAfter(subject: string, trigger: string): Option<(string, string, string)> {
    if HEADING + trigger <= subject then
      var tail := LegacyTail(subject[|HEADING + trigger|..]);
      if tail.None? then None else Some((trigger, tail.value.0, tail.value.1))
    else None
  }

  /** The anchored pattern of the older subject line. */
  function LegacyFields(subject: string): Option<(string, string, string)> {
    var first := LegacyAfter(subject, "pre_write");
    if first.Some? then first else LegacyAfter(subject, "restore")
  }

  function ReadLegacy(subject: string): Entry {
    var found := LegacyFields(subject);
    if found.Some? && AllDigits(found.value.2) && Padded(Value(found.value.2), 6) == found.value.2
    then Entry(Some(found.value.0), Some(found.value.1), Value(found.value.2))
    else Entry(None, None, 0)
  }

  function ReadEntry(lib: Library, subject: string, message: string): Entry {
    var body := RStrip(AfterFirstBreak(message));
    var records := Records(Lines(AfterLastBreak(body, |body|)));
    if |records| == 1 then ReadMetadata(lib.loads(AfterColon(records[0])))
    else if |records| > 1 then Corrupt
    else ReadLegacy(subject)
  }

  // ----- Scanning

  predicate OneLine(s: string) { forall i | 0 <= i < |s| :: !EndsLine(s[i]) }

  /** The characters that end a line, by their code points. */
  lemma LineEndsAre(c: char)
    ensures EndsLine(c) <==>
            var n := c as int; 10 <= n <= 13 || 28 <= n <= 30 || n == 0x85 || n == 0x2028 || n == 0x2029
  {
  }

  lemma {:induction false} LineLengthIs(line: string, rest: string)
    requires OneLine(line) && (rest == "" || EndsLine(rest[0]))
    ensures LineLength(line + rest) == |line|
  {
    if line == "" {
      assert line + rest == rest;
    } else {
      assert (line + rest)[0] == line[0] && !EndsLine(line[0]) && (line + rest)[1..] == line[1..] + rest;
      LineLengthIs(line[1..], rest);
    }
  }

  /** A line ends at the first such character. */
  lemma LinesSplit(line: string, c: char, rest: string)
    requires OneLine(line) && EndsLine(c) && !(c == '\r' && rest != "" && rest[0] == '\n')
    ensures Lines(line + [c] + rest) == [line] + Lines(rest)
  {
    var s := line + [c] + rest;
    assert s == line + ([c] + rest);
    LineLengthIs(line, [c] + rest);
    assert s[|line|] == c && s[|line| + 1..] == rest && (rest != "" ==> s[|line| + 1] == rest[0]);
  }

  /** A return and a newline after it count as one end, and the last line needs none. */
  lemma LinesEnd(line: string, rest: string)
    requires OneLine(line)
    ensures Lines("") == [] && (line != "" ==> Lines(line) == [line])
    ensures Lines(line + "\r\n" + rest) == [line] + Lines(rest)
  {
    WholeLine(line);
    var t := line + "\r\n" + rest;
    assert t == line + ("\r\n" + rest);
    LineLengthIs(line, "\r\n" + rest);
    assert t[|line|] == '\r' && t[|line| + 1] == '\n' && t[|line| + 2..] == rest;
  }

  /** The trailer lines, in order. */
  lemma {:induction false} RecordsAre(a: seq<string>, line: string, b: seq<string>)
    ensures Records([]) == []
    ensures Records(a + [line] + b) == Records(a) + (if "Praxis-Checkpoint:" <= line then [line] else []) + Records(b)
  {
    assert TRAILER + ":" == "Praxis-Checkpoint:";
    if a == [] {
      assert a + [line] + b == [line] + b && ([line] + b)[1..] == b;
    } else {
      assert (a + [line] + b)[0] == a[0] && (a + [line] + b)[1..] == a[1..] + [line] + b;
      RecordsAre(a[1..], line, b);
    }
  }

  /** What metadata is taken for good. */
  lemma MetadataDecides(value: Option<Json>, trigger: string, turn: string, sequence: nat)
    ensures ReadMetadata(value) == Entry(Some(trigger), Some(turn), sequence) <==>
            && value.Some? && value.value.Object? && trigger in {"pre_write", "restore"}
            && var f := value.value.fields;
               && "version" in f && f["version"] == Num(1) && "trigger" in f && f["trigger"] == Text(trigger)
               && "turn_id" in f && f["turn_id"] == Text(turn) && "sequence" in f && f["sequence"] == Num(sequence)
    ensures ReadMetadata(value).Entry? ==>
            ReadMetadata(value).trigger.Some? && ReadMetadata(value).turn.Some?
  {
  }

  /** One trailer alone is read, whatever the title; more than one are corrupt; the title is for messages with none. */
  lemma TrailersDecide(lib: Library, subject: string, message: string, trailers: seq<string>)
    requires var body := RStrip(AfterFirstBreak(message)); trailers == Records(Lines(AfterLastBreak(body, |body|)))
    ensures |trailers| == 1 ==>
            ReadEntry(lib, subject, message) == ReadMetadata(lib.loads(AfterColon(trailers[0])))
    ensures |trailers| >= 2 ==> ReadEntry(lib, subject, message) == Corrupt
    ensures trailers == [] ==> ReadEntry(lib, subject, message) == ReadLegacy(subject)
  {
  }

  lemma {:induction false} BreakAfterLine(line: string, rest: string)
    requires OneLine(line)
    ensures AfterFirstBreak(line + "\n\n" + rest) == rest
  {
    var s := line + "\n\n" + rest;
    if line == "" {
      assert s[2..] == rest;
    } else {
      assert !EndsLine(line[0]) && s[0] == line[0];
      assert s[1..] == line[1..] + "\n\n" + rest;
      BreakAfterLine(line[1..], rest);
    }
  }

  lemma {:induction false} LastBreakBefore(front: string, line: string, end: nat)
    requires OneLine(line) && line != "" && |front| + 2 <= end <= |front + "\n\n" + line|
    ensures AfterLastBreak(front + "\n\n" + line, end) == line
  {
    var s := front + "\n\n" + line;
    if end == |front| + 2 {
      assert s[end..] == line;
    } else {
      assert s[end - 1] == line[end - 3 - |front|];
      assert !EndsLine(line[end - 3 - |front|]);
      LastBreakBefore(front, line, end - 1);
    }
  }

  lemma {:induction false} StripTrailing(s: string, blanks: string)
    requires Spaces(blanks) && s != "" && !IsSpace(s[|s| - 1])
    ensures RStrip(s + blanks) == s
  {
    var all := s + blanks;
    if blanks == "" {
      assert all == s;
    } else {
      var fewer := blanks[..|blanks| - 1];
      assert all[..|all| - 1] == s + fewer && all[|all| - 1] == blanks[|blanks| - 1];
      StripTrailing(s, fewer);
    }
  }

  lemma {:induction false} WholeLine(s: string)
    requires OneLine(s)
    ensures LineLength(s) == |s|
  {
    if s != "" {
      assert !EndsLine(s[0]);
      assert forall i | 0 <= i < |s| - 1 :: s[1..][i] == s[i + 1];
      WholeLine(s[1..]);
    }
  }

  lemma {:induction false} ColonSplits(key: string, rest: string)
    requires forall i | 0 <= i < |key| :: key[i] != ':'
    ensures AfterColon(key + ":" + rest) == rest
  {
    var s := key + ":" + rest;
    if key == "" {
      assert s[1..] == rest;
    } else {
      assert s[0] == key[0] && s[1..] == key[1..] + ":" + rest;
      ColonSplits(key[1..], rest);
    }
  }

  // ----- Round trips

  lemma OneLineJoins(a: string, b: string)
    requires OneLine(a) && OneLine(b)
    ensures OneLine(a + b)
  {
  }

  lemma SubjectIsOneLine(trigger: string, turn: string, digits: string)
    requires IsTrigger(trigger) && AllSafe(turn) && AllDigits(digits)
    ensures OneLine(Subject(trigger, turn, digits))
  {
    var middle := if turn == "" then "" else " " + turn;
    assert forall i | 0 <= i < |turn| :: Safe(turn[i]) && !EndsLine(turn[i]);
    OneLineJoins(HEADING, trigger);
    OneLineJoins(" ", turn);
    OneLineJoins(HEADING + trigger, middle);
    OneLineJoins(HEADING + trigger + middle, " seq=");
    OneLineJoins(HEADING + trigger + middle + " seq=", digits);
  }

  lemma TrailerRead(json: string)
    requires Printed(json)
    ensures Records(Lines(Trailer(json))) == [Trailer(json)]
    ensures AfterColon(Trailer(json)) == " " + json
  {
    var line := TRAILER + ": " + json;
    TrailerIsOneLine(json);
    WholeLine(line);
    assert Lines(line) == [line];
    assert TRAILER + ":" <= line by { assert line == (TRAILER + ":") + (" " + json); }
    assert Records([line]) == [line] + Records([line][1..]);
    assert Records([]) == [];
    assert line == TRAILER + ":" + (" " + json);
    ColonSplits(TRAILER, " " + json);
  }

  /** Whatever the turn id and the workspace path hold, the metadata written is the metadata read. */
  lemma MetadataRoundTrip(lib: Library, trigger: string, turn: string, sequence: nat, workspace: string,
                          modes: map<string, Json>, blanks: string, subject: string)
    requires Faithful(lib) && PrintsAscii(lib) && IsTrigger(trigger) && Spaces(blanks)
    ensures ReadEntry(lib, subject, Message(lib, trigger, turn, sequence, workspace, modes) + blanks)
         == Entry(Some(trigger), Some(turn), sequence)
  {
    var title := Subject(trigger, Sanitize(turn), Padded(sequence, 6));
    var json := lib.dumps(Metadata(trigger, turn, sequence));
    assert Printed(json);
    SubjectIsOneLine(trigger, Sanitize(turn), Padded(sequence, 6));
    Associates(title, "\n\n", Front(lib, workspace, modes), Trailer(json), blanks);
    TrailerFound(title, Front(lib, workspace, modes), json, blanks);
    TrailerRead(json);
    TrailerLoads(lib, trigger, turn, sequence);
  }

  lemma Associates(a: string, b: string, c: string, d: string, e: string)
    ensures a + b + c + b + d + e == a + b + ((c + b + d) + e)
  {
  }

  /** The reader's cuts isolate the last paragraph, the trailer. */
  lemma TrailerFound(title: string, front: string, json: string, blanks: string)
    requires OneLine(title) && Printed(json) && Spaces(blanks)
    ensures var message := title + "\n\n" + ((front + "\n\n" + Trailer(json)) + blanks);
            var body := RStrip(AfterFirstBreak(message));
            AfterLastBreak(body, |body|) == Trailer(json)
  {
    var line := Trailer(json);
    var body := front + "\n\n" + line;
    BreakAfterLine(title, body + blanks);
    assert line[|line| - 1] == json[|json| - 1] && body[|body| - 1] == line[|line| - 1];
    StripTrailing(body, blanks);
    TrailerIsOneLine(json);
    LastBreakBefore(front, line, |body|);
  }

  lemma TrailerIsOneLine(json: string)
    requires Printed(json)
    ensures OneLine(Trailer(json))
  {
    assert forall i | 0 <= i < |json| :: !EndsLine(json[i]);
    OneLineJoins(TRAILER, ": ");
    OneLineJoins(TRAILER + ": ", json);
  }

  lemma TrailerLoads(lib: Library, trigger: string, turn: string, sequence: nat)
    requires Faithful(lib) && IsTrigger(trigger)
    ensures ReadMetadata(lib.loads(" " + lib.dumps(Metadata(trigger, turn, sequence))))
         == Entry(Some(trigger), Some(turn), sequence)
  {
    var value := Metadata(trigger, turn, sequence);
    assert JsonSpaces(" ") && JsonSpaces("");
    assert " " + lib.dumps(value) + "" == " " + lib.dumps(value);
    assert lib.loads(" " + lib.dumps(Object(value.fields)) + "") == Some(value);
  }

  // ----- The older format

  lemma {:induction false} SafeRunStops(turn: string, rest: string)
    requires AllSafe(turn) && (rest == "" || !Safe(rest[0]))
    ensures SafeRun(turn + rest) == |turn|
  {
    if turn == "" {
      assert turn + rest == rest;
    } else {
      assert (turn + rest)[1..] == turn[1..] + rest;
      SafeRunStops(turn[1..], rest);
    }
  }

  predicate LegacyShape(trigger: string, turn: string, digits: string) {
    IsTrigger(trigger) && AllSafe(turn) && |turn| <= 64 && digits != "" && AllDigits(digits)
  }

  lemma TailReads(turn: string, digits: string)
    requires AllSafe(turn) && |turn| <= 64 && digits != "" && AllDigits(digits)
    ensures LegacyTail((if turn == "" then "" else " " + turn) + SEQ + digits) == Some((turn, digits))
  {
    if turn == "" {
      assert "" + SEQ + digits == SEQ + digits;
      assert (SEQ + digits)[|SEQ|..] == digits;
    } else {
      var rest := " " + turn + SEQ + digits;
      assert rest[1..] == turn + (SEQ + digits);
      SafeRunStops(turn, SEQ + digits);
      assert rest[1 + |turn|..] == SEQ + digits && rest[1..1 + |turn|] == turn;
      assert (SEQ + digits)[|SEQ|..] == digits;
      NotBareSequence(turn, digits);
    }
  }

  lemma NotBareSequence(turn: string, digits: string)
    requires turn != "" && AllSafe(turn)
    ensures !(SEQ <= " " + turn + SEQ + digits)
  {
    var rest := " " + turn + SEQ + digits;
    if |turn| > 3 {
      assert rest[4] == turn[3] && Safe(turn[3]) && SEQ[4] == '=';
    } else {
      assert rest[1 + |turn|] == SEQ[0] == ' ';
      assert SEQ[1] == 's' && SEQ[2] == 'e' && SEQ[3] == 'q' && SEQ[4] == '=';
    }
  }

  lemma TriggersDiffer(rest: string)
    ensures !(HEADING + "pre_write" <= HEADING + "restore" + rest)
  {
    var a, b := HEADING + "pre_write", HEADING + "restore" + rest;
    assert a[|HEADING|] == 'p' && b[|HEADING|] == 'r';
  }

  /** The pattern reads exactly the subjects the writer composes, and reads their parts back. */
  lemma LegacyReads(trigger: string, turn: string, digits: string)
    requires LegacyShape(trigger, turn, digits)
    ensures LegacyFields(Subject(trigger, turn, digits)) == Some((trigger, turn, digits))
  {
    var rest := (if turn == "" then "" else " " + turn) + SEQ + digits;
    var subject := Subject(trigger, turn, digits);
    assert subject == HEADING + trigger + rest;
    assert subject[|HEADING + trigger|..] == rest;
    TailReads(turn, digits);
    TriggersDiffer(rest);
  }

  ghost predicate TailComposed(rest: string, tail: (string, string)) {
    && AllSafe(tail.0) && |tail.0| <= 64 && tail.1 != "" && AllDigits(tail.1)
    && rest == (if tail.0 == "" then "" else " " + tail.0) + SEQ + tail.1
  }

  lemma TailComposes(rest: string)
    requires LegacyTail(rest).Some?
    ensures TailComposed(rest, LegacyTail(rest).value)
  {
    if SEQ <= rest && rest[|SEQ|..] != "" && AllDigits(rest[|SEQ|..]) {
      assert rest == "" + SEQ + rest[|SEQ|..];
    } else {
      var n := SafeRun(rest[1..]);
      var turn, after := rest[1..1 + n], rest[1 + n..];
      assert turn == rest[1..][..n];
      assert after == SEQ + after[|SEQ|..];
      assert rest == " " + turn + after;
    }
  }

  lemma AfterComposes(subject: string, trigger: string)
    requires IsTrigger(trigger) && LegacyAfter(subject, trigger).Some?
    ensures var found := LegacyAfter(subject, trigger).value;
            && found.0 == trigger && LegacyShape(trigger, found.1, found.2)
            && subject == Subject(trigger, found.1, found.2)
  {
    var front := HEADING + trigger;
    var rest := subject[|front|..];
    var tail := LegacyTail(rest).value;
    TailComposes(rest);
    assert subject == front + rest;
    SubjectParts(trigger, tail.0, tail.1);
  }

  lemma SubjectParts(trigger: string, turn: string, digits: string)
    ensures Subject(trigger, turn, digits)
         == (HEADING + trigger) + ((if turn == "" then "" else " " + turn) + SEQ + digits)
  {
  }

  /** A subject the pattern accepts is one the writer could have composed. */
  lemma LegacyOnlyComposed(subject: string)
    requires LegacyFields(subject).Some?
    ensures var found := LegacyFields(subject).value;
            LegacyShape(found.0, found.1, found.2) && subject == Subject(found.0, found.1, found.2)
  {
    AfterComposes(subject, if LegacyAfter(subject, "pre_write").Some? then "pre_write" else "restore");
  }

  /** Without a trailer, the title gives back trigger, sanitized turn id and sequence. */
  lemma LegacyRoundTrip(lib: Library, trigger: string, turn: string, sequence: nat, message: string)
    requires IsTrigger(trigger)
    requires var body := RStrip(AfterFirstBreak(message)); Records(Lines(AfterLastBreak(body, |body|))) == []
    ensures ReadEntry(lib, Subject(trigger, Sanitize(turn), Padded(sequence, 6)), message)
         == Entry(Some(trigger), Some(Sanitize(turn)), sequence)
  {
    LegacyReads(trigger, Sanitize(turn), Padded(sequence, 6));
    PaddedValue(sequence, 6);
  }
}
