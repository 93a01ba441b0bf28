/** Absolute, normalised paths: the components below the root, "/" being []. */
module Paths {
  type Path = seq<string>

  datatype Option<+T> = None | Some(value: T)

  /** Names of the metadata directories that no policy may open for writing. */
  const PROTECTED: seq<string> := [".agents", ".aws", ".codex", ".git"]

  /** `str.casefold` on the characters that fold onto the letters of PROTECTED. */
  function FoldChar(c: char): char {
    if 'A' <= c <= 'Z' then 'a' + (c - 'A')
    else if c == '\U{017F}' then 's'
    else c
  }

  function CaseFold(s: string): string {
    seq(|s|, i requires 0 <= i < |s| => FoldChar(s[i]))
  }

  /** Only the capitals and the long s fold, to the small letters they look like. */
  lemma FoldCharIs(c: char)
    ensures var n, m := c as int, FoldChar(c) as int;
            if 65 <= n <= 90 then m == n + 32 else if n == 0x17F then m == 115 else m == n
  {
  }

  lemma FoldExamples()
    ensures CaseFold(".GIT") == ".git" && CaseFold(".agent\U{017F}") == ".agents" && CaseFold(".gitx") == ".gitx"
  {
  }

  predicate HasProtected(path: Path) {
    exists i :: 0 <= i < |path| && CaseFold(path[i]) in PROTECTED
  }

  /** Two prefixes of one path are comparable. */
  lemma PrefixesNest(a: Path, b: Path, c: Path)
    requires a <= c && b <= c && |a| <= |b|
    ensures a <= b
  {
    assert a == c[..|a|] && b == c[..|b|];
  }

  lemma ProtectedFoldsToItself(name: string)
    requires name in PROTECTED
    ensures CaseFold(name) == name
  {
    assert name == PROTECTED[0] || name == PROTECTED[1] || name == PROTECTED[2] || name == PROTECTED[3];
  }

  lemma ProtectedBelow(prefix: Path, path: Path)
    requires prefix <= path && HasProtected(prefix)
    ensures HasProtected(path)
  {
    var i :| 0 <= i < |prefix| && CaseFold(prefix[i]) in PROTECTED;
    assert path[i] == prefix[i];
  }

  lemma ProtectedSplits(base: Path, rel: Path)
    ensures HasProtected(base + rel) <==> HasProtected(base) || HasProtected(rel)
  {
    if i :| 0 <= i < |rel| && CaseFold(rel[i]) in PROTECTED {
      assert (base + rel)[|base| + i] == rel[i];
    }
    if i :| 0 <= i < |base| && CaseFold(base[i]) in PROTECTED {
      assert (base + rel)[i] == base[i];
    }
    if i :| 0 <= i < |base + rel| && CaseFold((base + rel)[i]) in PROTECTED {
      if i < |base| {
        assert base[i] == (base + rel)[i];
      } else {
        assert rel[i - |base|] == (base + rel)[i];
      }
    }
  }

  /** A nonempty finite set of prefixes of `path` has a longest member. */
  lemma LongestPrefix(s: set<Path>, path: Path) returns (longest: Path)
    requires exists x :: x in s && x <= path
    ensures longest in s && longest <= path
    ensures forall x :: x in s && x <= path ==> x <= longest
  {
    longest :| longest in s && longest <= path;
    while exists x :: x in s && x <= path && |x| > |longest|
      invariant longest in s && longest <= path
      decreases |path| - |longest|
    {
      var longer :| longer in s && longer <= path && |longer| > |longest|;
      longest := longer;
    }
    forall x | x in s && x <= path ensures x <= longest {
      PrefixesNest(x, longest, path);
    }
  }
}
