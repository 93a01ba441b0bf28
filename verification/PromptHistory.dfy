/** The composer's history: a suffix of everything typed, within an entry and a byte bound. */
module PromptHistory {
  import opened Text

  /** The UTF-8 length of a character. */
  function CharBytes(c: char): nat {
    if c < '\U{0080}' then 1 else if c < '\U{0800}' then 2 else if c < '\U{010000}' then 3 else 4
  }

  /** One byte holds 7 bits of a character, and each further one makes 5, then 6, then 5 more. */
  lemma CharBytesAre(c: char)
    ensures CharBytes(c) == 1 <==> (c as int) < 0x80
    ensures CharBytes(c) == 2 <==> 0x80 <= (c as int) < 0x800
    ensures CharBytes(c) == 3 <==> 0x800 <= (c as int) < 0x1_0000
    ensures CharBytes(c) == 4 <==> 0x1_0000 <= (c as int)
  {
  }

  function Bytes(s: string): nat {
    if s == "" then 0 else Bytes(s[..|s| - 1]) + CharBytes(s[|s| - 1])
  }

  lemma BytesOfAppend(s: string, c: char)
    ensures Bytes("") == 0 && Bytes(s + [c]) == Bytes(s) + CharBytes(c)
  {
    assert (s + [c])[..|s|] == s;
  }

  function Total(xs: seq<string>): nat {
    if xs == [] then 0 else Bytes(xs[0]) + Total(xs[1..])
  }

  predicate Fits(xs: seq<string>, maxEntries: nat, maxBytes: nat) {
    |xs| <= maxEntries && Total(xs) <= maxBytes
  }

  /** The longest suffix that fits. */
  function Longest(xs: seq<string>, maxEntries: nat, maxBytes: nat): seq<string>
  {
    if Fits(xs, maxEntries, maxBytes) then xs else Longest(xs[1..], maxEntries, maxBytes)
  }

  lemma {:induction false} LongestIsFittingSuffix(xs: seq<string>, maxEntries: nat, maxBytes: nat)
    ensures var r := Longest(xs, maxEntries, maxBytes);
            Fits(r, maxEntries, maxBytes) && |r| <= |xs| && r == xs[|xs| - |r|..]
  {
    if !Fits(xs, maxEntries, maxBytes) {
      LongestIsFittingSuffix(xs[1..], maxEntries, maxBytes);
    }
  }

  /** No longer suffix fits. */
  lemma {:induction false} LongestIsLongest(xs: seq<string>, maxEntries: nat, maxBytes: nat, k: nat)
    requires k <= |xs| && Fits(xs[k..], maxEntries, maxBytes)
    ensures |Longest(xs, maxEntries, maxBytes)| >= |xs| - k
  {
    if !Fits(xs, maxEntries, maxBytes) {
      assert xs[0..] == xs;
      assert xs[1..][k - 1..] == xs[k..];
      LongestIsLongest(xs[1..], maxEntries, maxBytes, k - 1);
    }
  }

  lemma {:induction false} TotalOfAppend(xs: seq<string>, s: string)
    ensures Total(xs + [s]) == Total(xs) + Bytes(s)
  {
    if xs == [] {
      assert xs + [s] == [s];
    } else {
      assert (xs + [s])[1..] == xs[1..] + [s];
      TotalOfAppend(xs[1..], s);
    }
  }

  /** Evicting before or after appending comes to the same. */
  lemma {:induction false} LongestOfAppend(xs: seq<string>, s: string, maxEntries: nat, maxBytes: nat)
    ensures Longest(Longest(xs, maxEntries, maxBytes) + [s], maxEntries, maxBytes)
         == Longest(xs + [s], maxEntries, maxBytes)
  {
    if !Fits(xs, maxEntries, maxBytes) {
      TotalOfAppend(xs, s);
      assert (xs + [s])[1..] == xs[1..] + [s];
      LongestOfAppend(xs[1..], s, maxEntries, maxBytes);
    }
  }

  function Reversed(xs: seq<string>): seq<string> {
    if xs == [] then [] else Reversed(xs[1..]) + [xs[0]]
  }

  lemma {:induction false} ReversedAppend(xs: seq<string>, s: string)
    ensures Reversed(xs + [s]) == [s] + Reversed(xs)
  {
    if xs == [] {
      assert xs + [s] == [s];
    } else {
      assert (xs + [s])[1..] == xs[1..] + [s];
      ReversedAppend(xs[1..], s);
    }
  }

  class History {
    const maxEntries: nat
    const maxBytes: nat
    var storage: seq<string>
    var storageBytes: nat
    var loaded: seq<string>
    ghost var accepted: seq<string>

    ghost predicate Valid()
      reads this
    {
      && maxEntries >= 1 && maxBytes >= 1
      && storage == Longest(accepted, maxEntries, maxBytes)
      && storageBytes == Total(storage)
      && loaded == Reversed(storage)
    }

    constructor (maxEntries: nat, maxBytes: nat)
      requires maxEntries >= 1 && maxBytes >= 1
      ensures Valid() && accepted == []
    {
      this.maxEntries, this.maxBytes := maxEntries, maxBytes;
      storage, storageBytes, loaded, accepted := [], 0, [], [];
    }

    /** Blank and oversized strings are ignored; the rest is stored, and the oldest make room. */
    method Append(s: string)
      requires Valid()
      modifies this
      ensures Valid()
      ensures accepted == if Spaces(s) || Bytes(s) > maxBytes then old(accepted) else old(accepted) + [s]
    {
      if Spaces(s) || Bytes(s) > maxBytes {
        return;
      }
      LongestOfAppend(accepted, s, maxEntries, maxBytes);
      LongestIsFittingSuffix(storage, maxEntries, maxBytes);
      TotalOfAppend(storage, s);
      ReversedAppend(storage, s);
      accepted := accepted + [s];
      storage, storageBytes, loaded := storage + [s], storageBytes + Bytes(s), [s] + loaded;
      while |storage| > maxEntries || storageBytes > maxBytes
        invariant accepted == old(accepted) + [s]
        invariant Longest(storage, maxEntries, maxBytes) == Longest(accepted, maxEntries, maxBytes)
        invariant storageBytes == Total(storage) && loaded == Reversed(storage)
        decreases |storage|
      {
        storageBytes := storageBytes - Bytes(storage[0]);
        storage, loaded := storage[1..], loaded[..|loaded| - 1];
      }
    }
  }
}
