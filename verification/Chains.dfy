/** Following a partial successor until it ends or comes back. */
module Chains {
  import opened Paths

  type Successor = string -> Option<string>

  function Iterate(next: Successor, start: string, n: nat): Option<string> {
    if n == 0 then Some(start)
    else
      var before := Iterate(next, start, n - 1);
      if before.None? then None else next(before.value)
  }

  /** A chain that comes back to an earlier element repeats itself from there on. */
  lemma {:induction false} CycleRepeats(next: Successor, start: string, m: nat, k: nat, n: nat)
    requires m < k <= n && Iterate(next, start, m) == Iterate(next, start, k)
    ensures Iterate(next, start, n) == Iterate(next, start, n - (k - m))
  {
    if n > k {
      CycleRepeats(next, start, m, k, n - 1);
    }
  }

  /** So everything on it is met before the chain closes. */
  lemma {:induction false} CycleCovers(next: Successor, start: string, m: nat, k: nat, n: nat) returns (j: nat)
    requires m < k && Iterate(next, start, m) == Iterate(next, start, k)
    ensures j < k && Iterate(next, start, j) == Iterate(next, start, n) && (n > 0 && m > 0 ==> j > 0)
    decreases n
  {
    if n < k {
      j := n;
    } else {
      CycleRepeats(next, start, m, k, n);
      j := CycleCovers(next, start, m, k, n - (k - m));
    }
  }

  lemma {:induction false} ChainEnds(next: Successor, start: string, k: nat, n: nat)
    requires Iterate(next, start, k) == None && k <= n
    ensures Iterate(next, start, n) == None
  {
    if n > k {
      ChainEnds(next, start, k, n - 1);
    }
  }
}
