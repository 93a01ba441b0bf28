/** Splitting a section's tokens into overlapping windows. */
module SectionWindows {
  datatype Window = Window(start: nat, end: nat, index: nat)

  function Min(a: int, b: int): int { if a < b then a else b }
  function Max(a: int, b: int): int { if a > b then a else b }

  /** The parameters as the splitter uses them. */
  datatype Plan = Plan(size: nat, overlap: nat, step: nat, least: nat)

  predicate Usable(p: Plan) {
    p.size >= 1 && p.overlap < p.size && p.step == p.size - p.overlap && p.least >= 1
  }

  function PlanFor(maxTokens: int, overlapTokens: int, minTokens: int): (p: Plan)
    ensures Usable(p)
    ensures p.size == maxTokens || (maxTokens < 1 && p.size == 1)
    ensures (overlapTokens <= 0 && p.overlap == 0) || (overlapTokens >= p.size && p.overlap == p.size - 1)
            || (0 < overlapTokens < p.size && p.overlap == overlapTokens)
    ensures p.least == minTokens || (minTokens < 1 && p.least == 1)
  {
    var size := Max(maxTokens, 1);
    var overlap := Min(Max(overlapTokens, 0), Max(size - 1, 0));
    Plan(size, overlap, Max(size - overlap, 1), Max(minTokens, 1))
  }

  /** Where position `k` starts. */
  function Start(p: Plan, k: nat): nat {
    if k == 0 then 0 else Start(p, k - 1) + p.step
  }

  lemma {:induction false} StartIsMultiple(p: Plan, k: nat)
    ensures Start(p, k) == k * p.step
  {
    if k > 0 {
      StartIsMultiple(p, k - 1);
    }
  }

  lemma {:induction false} StartsGrow(p: Plan, j: nat, k: nat)
    requires j <= k
    ensures Start(p, j) <= Start(p, k)
    decreases k
  {
    if j < k {
      StartsGrow(p, j, k - 1);
    }
  }

  /** How many positions the splitter visits. */
  function Positions(n: nat, p: Plan): (count: nat)
    requires Usable(p) && n > p.overlap
    ensures count >= 1
  {
    if n <= p.size then 1 else Positions(n - p.step, p) + 1
  }

  /** The closed form: ceil((n - overlap) / step). */
  lemma {:induction false} PositionsIsCeiling(n: nat, p: Plan)
    requires Usable(p) && n > p.overlap
    ensures (Positions(n, p) - 1) * p.step < n - p.overlap <= Positions(n, p) * p.step
  {
    if n > p.size {
      PositionsIsCeiling(n - p.step, p);
      StepDown(Positions(n, p), p.step);
    }
  }

  lemma StepDown(count: nat, step: nat)
    ensures (count - 1) * step == count * step - step
    ensures (count - 2) * step == count * step - 2 * step
  {
  }

  /** The last position is the first whose window reaches the end. */
  lemma {:induction false} PositionsExact(n: nat, p: Plan, k: nat)
    requires Usable(p) && n > p.overlap
    ensures k + 1 < Positions(n, p) <==> Start(p, k) + p.size < n
    decreases k
  {
    if k > 0 && n > p.size {
      PositionsExact(n - p.step, p, k - 1);
    }
  }

  lemma PositionStarts(n: nat, p: Plan, k: nat)
    requires Usable(p) && n >= p.size && k < Positions(n, p)
    ensures Start(p, k) < n
    ensures k >= 1 ==> n - Start(p, k) > p.overlap
  {
    if k >= 1 {
      PositionsExact(n, p, k - 1);
    }
  }

  /** How many windows come out: only the last position can be too short. */
  function Emitted(n: nat, p: Plan): nat
    requires Usable(p) && n >= p.size
  {
    var last := Positions(n, p) - 1;
    if p.least > p.size then 0 else if n - Start(p, last) >= p.least then last + 1 else last
  }

  /** The `k`th window: from its start, full size unless the section ends first. */
  predicate IsWindow(w: Window, n: nat, p: Plan, k: nat) {
    w == Window(Start(p, k), Min(Start(p, k) + p.size, n), k)
  }

  ghost predicate AreWindows(windows: seq<Window>, n: nat, p: Plan) {
    forall k | 0 <= k < |windows| :: IsWindow(windows[k], n, p, k)
  }

  method Split(n: nat, maxTokens: int, overlapTokens: int, minTokens: int) returns (windows: seq<Window>)
    ensures n == 0 ==> windows == []
    ensures 0 < n <= maxTokens ==> windows == [Window(0, n, 0)]
    ensures n > 0 && n > maxTokens ==>
            var p := PlanFor(maxTokens, overlapTokens, minTokens);
            n >= p.size && |windows| == Emitted(n, p) && AreWindows(windows, n, p)
  {
    if n == 0 {
      return [];
    }
    if n <= maxTokens {
      return [Window(0, n, 0)];
    }
    windows := SplitLong(n, PlanFor(maxTokens, overlapTokens, minTokens));
  }

  method SplitLong(n: nat, p: Plan) returns (windows: seq<Window>)
    requires Usable(p) && n >= p.size
    ensures |windows| == Emitted(n, p) && AreWindows(windows, n, p)
  {
    windows := [];
    var start, k := 0, 0;
    PositionsExact(n, p, 0);
    while start < n
      invariant start == Start(p, k)
      invariant k < Positions(n, p) && start < n
      invariant |windows| == if p.least <= p.size then k else 0
      invariant AreWindows(windows, n, p)
      decreases n - start
    {
      var end := Min(start + p.size, n);
      PositionsExact(n, p, k);
      if end - start >= p.least {
        windows := windows + [Window(start, end, |windows|)];
      }
      if end >= n {
        return;
      }
      start, k := start + p.step, k + 1;
      PositionStarts(n, p, k);
    }
  }

  ghost predicate Covers(w: Window, t: nat) { w.start <= t < w.end }

  /** Neighbouring windows share exactly the overlap, the last two included. */
  lemma OverlapExact(n: nat, p: Plan, windows: seq<Window>, k: nat)
    requires Usable(p) && n >= p.size && |windows| == Emitted(n, p) && AreWindows(windows, n, p)
    requires k + 1 < |windows|
    ensures windows[k].end - windows[k + 1].start == p.overlap
    ensures windows[k + 1].start - windows[k].start == p.step
    ensures windows[k + 1].end > windows[k].end
  {
    PositionsExact(n, p, k);
    PositionsExact(n, p, 0);
    assert IsWindow(windows[k], n, p, k) && IsWindow(windows[k + 1], n, p, k + 1);
  }

  /** Windows leave no gap below the end of any of them. */
  lemma {:induction false} NoGap(n: nat, p: Plan, windows: seq<Window>, k: nat, t: nat)
    requires Usable(p) && n >= p.size && AreWindows(windows, n, p)
    requires k < |windows| && t < windows[k].end
    ensures exists j :: 0 <= j < |windows| && Covers(windows[j], t)
  {
    assert IsWindow(windows[k], n, p, k);
    if t >= windows[k].start {
      assert Covers(windows[k], t);
    } else if k > 0 {
      assert IsWindow(windows[k - 1], n, p, k - 1);
      NoGap(n, p, windows, k - 1, t);
    }
  }

  /** The number of tokens past the last window. */
  function Lost(n: nat, windows: seq<Window>): int {
    if windows == [] then n else n - windows[|windows| - 1].end
  }

  /** Which tokens are in some window: all but the tail. */
  lemma CoveredExactly(n: nat, p: Plan, windows: seq<Window>, t: nat)
    requires Usable(p) && n >= p.size && AreWindows(windows, n, p) && t < n
    ensures (exists j :: 0 <= j < |windows| && Covers(windows[j], t)) <==> t < n - Lost(n, windows)
  {
    if windows != [] {
      var top := |windows| - 1;
      if t < windows[top].end {
        NoGap(n, p, windows, top, t);
      } else {
        forall j | 0 <= j < |windows| ensures !Covers(windows[j], t) {
          assert IsWindow(windows[j], n, p, j) && IsWindow(windows[top], n, p, top);
          StartsGrow(p, j, top);
        }
      }
    }
  }

  /** How long the lost tail is: always shorter than `least - overlap`, and nothing when `least <= overlap + 1`. */
  lemma LostIsShort(n: nat, p: Plan, windows: seq<Window>)
    requires Usable(p) && n >= p.size && |windows| == Emitted(n, p) && AreWindows(windows, n, p)
    requires p.least <= p.size
    ensures 0 <= Lost(n, windows)
    ensures Lost(n, windows) == 0 || Lost(n, windows) < p.least - p.overlap
    ensures p.least <= p.overlap + 1 ==> Lost(n, windows) == 0
  {
    var last := Positions(n, p) - 1;
    PositionsExact(n, p, last);
    PositionStarts(n, p, last);
    TailIsShort(n, p, windows, last);
  }

  lemma TailIsShort(n: nat, p: Plan, windows: seq<Window>, last: nat)
    requires Usable(p) && n >= p.size && p.least <= p.size && AreWindows(windows, n, p)
    requires |windows| == if n - Start(p, last) >= p.least then last + 1 else last
    requires Start(p, last) < n <= Start(p, last) + p.size
    requires last > 0 ==> n - Start(p, last) > p.overlap
    ensures 0 <= Lost(n, windows)
    ensures Lost(n, windows) == 0 || Lost(n, windows) < p.least - p.overlap
    ensures p.least <= p.overlap + 1 ==> Lost(n, windows) == 0
  {
    if last > 0 {
      assert Start(p, last) == Start(p, last - 1) + p.step;
    }
    var top := |windows| - 1;
    assert top >= 0 ==> IsWindow(windows[top], n, p, top);
  }
}
