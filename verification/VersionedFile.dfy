/**
 Files replaced under compare-and-swap: a writer names the version it read, and the
 replacement carries the next revision. Fingerprints are modelled by the bytes they digest.
 */
module VersionedFile {
  import opened Paths

  /** The revision and content observed; a missing file is revision 0 without content. */
  datatype Version = Version(revision: nat, payload: Option<string>)

  /** How replacing the file ends: durable, failed before visibility, or visible but unconfirmed. */
  datatype Replace = Durable | NotVisible | Unconfirmed

  type Reader = string -> Option<nat>

  /** The version a reader observes; none when the content cannot be read. */
  function Observe(read: Reader, file: Option<string>): Option<Version> {
    match file
    case None => Some(Version(0, None))
    case Some(payload) =>
      var revision := read(payload);
      if revision.None? then None else Some(Version(revision.value, file))
  }

  /** A commit made from `expected` replaced the file. */
  ghost predicate Commits(read: Reader, before: Option<string>, expected: Version, after: Option<string>) {
    && Observe(read, before) == Some(expected)
    && after.Some?
    && (read(after.value).Some? ==> read(after.value).value == expected.revision + 1)
  }

  /** One lock-protected call by some process, and whether its commit became visible. */
  datatype Attempt = Attempt(expected: Version, visible: bool)

  /** Any interleaving of calls: the file before each one, and after the last. */
  ghost predicate IsRun(read: Reader, files: seq<Option<string>>, attempts: seq<Attempt>) {
    && |files| == |attempts| + 1
    && forall i | 0 <= i < |attempts| ::
         if attempts[i].visible then Commits(read, files[i], attempts[i].expected, files[i + 1])
         else files[i + 1] == files[i]
  }

  function Visible(attempts: seq<Attempt>): nat {
    if attempts == [] then 0
    else Visible(attempts[..|attempts| - 1]) + if attempts[|attempts| - 1].visible then 1 else 0
  }

  lemma RunPrefix(read: Reader, files: seq<Option<string>>, attempts: seq<Attempt>)
    requires IsRun(read, files, attempts) && attempts != []
    ensures IsRun(read, files[..|files| - 1], attempts[..|attempts| - 1])
  {
  }

  /** The revision counts the commits that became visible, each raising it by exactly one. */
  lemma {:induction false} RevisionCountsCommits(read: Reader, files: seq<Option<string>>, attempts: seq<Attempt>)
    requires IsRun(read, files, attempts)
    requires Observe(read, files[0]).Some? && Observe(read, files[|files| - 1]).Some?
    ensures Observe(read, files[|files| - 1]).value.revision
         == Observe(read, files[0]).value.revision + Visible(attempts)
    decreases |attempts|
  {
    if attempts != [] {
      var n := |attempts|;
      RunPrefix(read, files, attempts);
      if attempts[n - 1].visible {
        assert Commits(read, files[n - 1], attempts[n - 1].expected, files[n]);
      } else {
        assert files[n] == files[n - 1];
      }
      RevisionCountsCommits(read, files[..n], attempts[..n - 1]);
    }
  }

  lemma SubRun(read: Reader, files: seq<Option<string>>, attempts: seq<Attempt>, i: nat, j: nat)
    requires IsRun(read, files, attempts) && i <= j <= |attempts|
    ensures IsRun(read, files[i..j + 1], attempts[i..j])
  {
  }

  lemma {:induction false} FirstVisible(attempts: seq<Attempt>)
    requires attempts != [] && attempts[0].visible
    ensures Visible(attempts) >= 1
  {
    if |attempts| > 1 {
      FirstVisible(attempts[..|attempts| - 1]);
    } else {
      assert attempts[..0] == [];
    }
  }

  /** Of all calls naming one version, at most one becomes visible. */
  lemma OneWinner(read: Reader, files: seq<Option<string>>, attempts: seq<Attempt>, i: nat, j: nat)
    requires IsRun(read, files, attempts) && i < j < |attempts|
    requires attempts[i].visible && attempts[j].visible
    ensures attempts[i].expected != attempts[j].expected
  {
    SubRun(read, files, attempts, i, j);
    assert Commits(read, files[i], attempts[i].expected, files[i + 1]);
    assert Commits(read, files[j], attempts[j].expected, files[j + 1]);
    assert files[i..j + 1][0] == files[i] && files[i..j + 1][j - i] == files[j];
    RevisionCountsCommits(read, files[i..j + 1], attempts[i..j]);
    assert attempts[i..j][0] == attempts[i];
    FirstVisible(attempts[i..j]);
  }
}
