/**
 Attaching to background work: the caller's own workspace, or an unbroken chain of budget
 edges with matching environment provenance leading up to it.
 */
module Lineage {
  import opened Paths
  import opened Chains

  datatype Environment = Environment(parentTurn: string, sourceRoot: Path, workspace: Path)
  datatype Turn = Turn(thread: string, environment: Option<Environment>)

  /**
   Workspaces of threads, recorded turns, canonical edges from child to parent, and the thread of
   each turn's first start command.
   */
  datatype Store = Store(
    threads: map<string, Path>,
    turns: map<string, Turn>,
    edges: map<string, string>,
    starts: map<string, string>)

  datatype Verdict = Authorized | Denied | Missing

  /** Both ends of the edge above `child` are on record. */
  predicate Recorded(s: Store, child: string) {
    && child in s.edges && child in s.turns && s.edges[child] in s.turns
    && s.turns[child].thread in s.threads && s.turns[s.edges[child]].thread in s.threads
  }

  function WorkspaceOf(s: Store, turn: string): Path
    requires turn in s.turns && s.turns[turn].thread in s.threads
  {
    s.threads[s.turns[turn].thread]
  }

  /** The environment the child was given names this parent, its root and the child's own workspace. */
  predicate Provenance(s: Store, child: string)
    requires Recorded(s, child)
  {
    var environment, parent := s.turns[child].environment, s.edges[child];
    && environment.Some?
    && environment.value.parentTurn == parent
    && environment.value.sourceRoot == WorkspaceOf(s, parent)
    && environment.value.workspace == WorkspaceOf(s, child)
  }

  /** One canonical step up the chain. */
  function Parent(s: Store): Successor {
    (child: string) => if Recorded(s, child) && Provenance(s, child) then Some(s.edges[child]) else None
  }

  /** One step along the bare edges. */
  function Edge(s: Store): Successor {
    (child: string) => if child in s.edges then Some(s.edges[child]) else None
  }

  predicate Hits(s: Store, turn: string, n: nat, workspace: Path) {
    && Iterate(Parent(s), turn, n).Some?
    && var a := Iterate(Parent(s), turn, n).value;
       a in s.turns && s.turns[a].thread in s.threads && WorkspaceOf(s, a) == workspace
  }

  /** Some ancestor works in `workspace`. */
  ghost predicate Reaches(s: Store, turn: string, workspace: Path) {
    exists n: nat :: n >= 1 && Hits(s, turn, n, workspace)
  }

  /** The edge from `child` up to `parent` is on record, and so is that the child was given the parent's workspace. */
  ghost predicate Given(s: Store, child: string, parent: string) {
    && child in s.edges && s.edges[child] == parent && child in s.turns && parent in s.turns
    && s.turns[child].thread in s.threads && s.turns[parent].thread in s.threads
    && s.turns[child].environment
       == Some(Environment(parent, s.threads[s.turns[parent].thread], s.threads[s.turns[child].thread]))
  }

  /** An unbroken chain of such edges leads from the turn up to one that works in the workspace. */
  ghost predicate LeadsTo(s: Store, chain: seq<string>, turn: string, workspace: Path) {
    && |chain| >= 2 && chain[0] == turn
    && (forall i | 0 <= i < |chain| - 1 :: Given(s, chain[i], chain[i + 1]))
    && chain[|chain| - 1] in s.turns && s.turns[chain[|chain| - 1]].thread in s.threads
    && s.threads[s.turns[chain[|chain| - 1]].thread] == workspace
  }

  lemma GivenIsParent(s: Store, child: string, parent: string)
    ensures Given(s, child, parent) <==> Parent(s)(child) == Some(parent)
  {
  }

  /** Reaching a workspace means that such a chain exists. */
  lemma ReachesMeans(s: Store, turn: string, workspace: Path)
    ensures Reaches(s, turn, workspace) <==> exists chain :: LeadsTo(s, chain, turn, workspace)
  {
    if n: nat :| n >= 1 && Hits(s, turn, n, workspace) {
      var chain := ChainOf(s, turn, n);
      assert LeadsTo(s, chain, turn, workspace);
    }
    if chain :| LeadsTo(s, chain, turn, workspace) {
      ChainIterates(s, turn, chain, |chain| - 1);
      assert Hits(s, turn, |chain| - 1, workspace);
    }
  }

  lemma {:induction false} ChainOf(s: Store, turn: string, n: nat) returns (chain: seq<string>)
    requires Iterate(Parent(s), turn, n).Some?
    ensures |chain| == n + 1 && chain[0] == turn && Iterate(Parent(s), turn, n) == Some(chain[n])
    ensures forall i | 0 <= i < n :: Given(s, chain[i], chain[i + 1])
  {
    if n == 0 {
      chain := [turn];
    } else {
      var init := ChainOf(s, turn, n - 1);
      var last := Iterate(Parent(s), turn, n).value;
      GivenIsParent(s, init[n - 1], last);
      chain := init + [last];
    }
  }

  lemma {:induction false} ChainIterates(s: Store, turn: string, chain: seq<string>, n: nat)
    requires n < |chain| && chain[0] == turn && forall i | 0 <= i < |chain| - 1 :: Given(s, chain[i], chain[i + 1])
    ensures Iterate(Parent(s), turn, n) == Some(chain[n])
  {
    if n > 0 {
      ChainIterates(s, turn, chain, n - 1);
      assert Given(s, chain[n - 1], chain[n - 1 + 1]);
      GivenIsParent(s, chain[n - 1], chain[n]);
    }
  }

  predicate Starts(s: Store, turn: string, n: nat) {
    Iterate(Edge(s), turn, n).Some? && Iterate(Edge(s), turn, n).value in s.starts
  }

  /** The submission a turn runs under: the nearest ancestor-or-self with a start command. */
  ghost predicate IsSubmission(s: Store, turn: string, thread: string) {
    exists n: nat :: Starts(s, turn, n) && s.starts[Iterate(Edge(s), turn, n).value] == thread
                     && forall m: nat | m < n :: !Starts(s, turn, m)
  }

  /** The chain leads, past the caller's workspace nowhere, to a turn whose edge has an end not on record. */
  ghost predicate Snaps(s: Store, turn: string, n: nat, workspace: Path) {
    && Iterate(Parent(s), turn, n).Some?
    && (var child := Iterate(Parent(s), turn, n).value;
        && child in s.edges
        && !(child in s.turns && s.edges[child] in s.turns
             && s.turns[child].thread in s.threads && s.turns[s.edges[child]].thread in s.threads))
    && forall m: nat | 1 <= m <= n :: !Hits(s, turn, m, workspace)
  }

  /** Where a chain snaps it ends, so it snaps nowhere else. */
  lemma SnapEnds(s: Store, turn: string, n: nat, workspace: Path, k: nat)
    requires Snaps(s, turn, n, workspace) && k > n
    ensures Iterate(Parent(s), turn, k) == None
  {
    assert Iterate(Parent(s), turn, n + 1) == None;
    ChainEnds(Parent(s), turn, n + 1, k);
  }

  method FindSubmission(s: Store, turn: string) returns (thread: Option<string>)
    ensures thread.Some? ==> IsSubmission(s, turn, thread.value)
    ensures thread.None? ==> forall n: nat :: !Starts(s, turn, n)
  {
    var current := turn;
    var seen: set<string> := {};
    ghost var k: nat := 0;
    while current !in seen
      invariant Iterate(Edge(s), turn, k) == Some(current)
      invariant seen <= s.edges.Keys
      invariant forall x | x in seen :: exists m: nat :: m < k && Iterate(Edge(s), turn, m) == Some(x)
      invariant forall m: nat | m < k :: !Starts(s, turn, m)
      decreases s.edges.Keys - seen
    {
      if current in s.starts {
        assert Starts(s, turn, k);
        return Some(s.starts[current]);
      }
      if current !in s.edges {
        forall n: nat ensures !Starts(s, turn, n) {
          if n > k {
            ChainEnds(Edge(s), turn, k + 1, n);
          }
        }
        return None;
      }
      seen := seen + {current};
      current, k := s.edges[current], k + 1;
    }
    ghost var m: nat :| m < k && Iterate(Edge(s), turn, m) == Some(current);
    forall n: nat ensures !Starts(s, turn, n) {
      var j := CycleCovers(Edge(s), turn, m, k, n);
      assert !Starts(s, turn, j);
    }
    thread := None;
  }

  /** Two nearest submissions are one. */
  lemma SubmissionUnique(s: Store, turn: string, a: string, b: string)
    requires IsSubmission(s, turn, a) && IsSubmission(s, turn, b)
    ensures a == b
  {
    var n: nat :| Starts(s, turn, n) && s.starts[Iterate(Edge(s), turn, n).value] == a
                  && forall m: nat | m < n :: !Starts(s, turn, m);
    var k: nat :| Starts(s, turn, k) && s.starts[Iterate(Edge(s), turn, k).value] == b
                  && forall m: nat | m < k :: !Starts(s, turn, m);
    assert n == k;
  }

  datatype Hop = Top | Unrecorded | Up(turn: string)

  /** The edge above a turn, if it is canonical; unrecorded ends raise. */
  method Climb(s: Store, child: string) returns (h: Hop)
    ensures h.Up? ==> Parent(s)(child) == Some(h.turn) && child in s.turns && h.turn in s.turns
                      && s.turns[h.turn].thread in s.threads
    ensures !h.Up? ==> Parent(s)(child) == None
    ensures h.Unrecorded? <==> child in s.edges && !Recorded(s, child)
  {
    if child !in s.edges {
      h := Top;
    } else if !Recorded(s, child) {
      h := Unrecorded;
    } else if !Provenance(s, child) {
      h := Top;
    } else {
      h := Up(s.edges[child]);
    }
  }

  class Handle {
    var workspace: Path
    const thread: string
    const turn: string

    constructor (workspace: Path, thread: string, turn: string)
      ensures this.workspace == workspace && this.thread == thread && this.turn == turn
    {
      this.workspace, this.thread, this.turn := workspace, thread, turn;
    }

    /** The target belongs to the handle's thread: its record says so, or else its submission. */
    ghost predicate OwnThread(s: Store) {
      if turn in s.turns then s.turns[turn].thread == thread else IsSubmission(s, turn, thread)
    }

    /** Authorized exactly for the own workspace or one an ancestor works in; the latter rebinds the handle. */
    method Authorize(s: Store) returns (v: Verdict)
      modifies this
      ensures v == Authorized <==>
              && thread in s.threads && (exists n: nat :: Starts(s, turn, n)) && OwnThread(s)
              && (s.threads[thread] == old(workspace) || exists chain :: LeadsTo(s, chain, turn, old(workspace)))
      ensures v == Missing <==>
              || thread !in s.threads || (forall n: nat :: !Starts(s, turn, n))
              || (OwnThread(s) && s.threads[thread] != old(workspace)
                  && exists n: nat :: Snaps(s, turn, n, old(workspace)))
      ensures workspace == if v == Authorized then s.threads[thread] else old(workspace)
    {
      ReachesMeans(s, turn, workspace);
      if thread !in s.threads {
        return Missing;
      }
      var submission := FindSubmission(s, turn);
      if submission.None? {
        return Missing;
      }
      if turn in s.turns && s.turns[turn].thread != thread {
        return Denied;
      }
      if turn !in s.turns && submission.value != thread {
        if IsSubmission(s, turn, thread) {
          SubmissionUnique(s, turn, thread, submission.value);
        }
        return Denied;
      }
      var actual := s.threads[thread];
      if actual == workspace {
        return Authorized;
      }
      v := Walk(s);
      if v == Authorized {
        workspace := actual;
      }
    }

    /** The walk ends on any edges, cycles included: each round visits a new turn. */
    method Walk(s: Store) returns (v: Verdict)
      ensures v == Authorized <==> Reaches(s, turn, workspace)
      ensures v == Authorized <==> exists chain :: LeadsTo(s, chain, turn, workspace)
      ensures v == Missing <==> exists n: nat :: Snaps(s, turn, n, workspace)
    {
      ReachesMeans(s, turn, workspace);
      var current := turn;
      var seen: set<string> := {};
      ghost var path: seq<string> := [];
      while current !in seen
        invariant Climbed(s, path + [current])
        invariant seen <= s.turns.Keys && forall x | x in seen :: x in path
        decreases s.turns.Keys - seen
      {
        var hop := Climb(s, current);
        if !hop.Up? {
          NoneAbove(s, path + [current]);
          SnapsHere(s, path + [current], hop.Unrecorded?);
          return if hop.Top? then Denied else Missing;
        }
        ClimbMore(s, path + [current], hop.turn);
        if WorkspaceOf(s, hop.turn) == workspace {
          HitBeforeSnap(s, path + [current], hop.turn);
          return Authorized;
        }
        seen := seen + {current};
        path := path + [current];
        current := hop.turn;
      }
      ghost var m: nat :| m < |path| && path[m] == current;
      CycleMisses(s, path + [current], m);
      CycleHolds(s, path + [current], m);
      v := Denied;
    }

    /** The chain climbed so far, none of it in the caller's workspace. */
    ghost predicate Climbed(s: Store, path: seq<string>)
      reads this
    {
      && path != []
      && (forall m: nat | m < |path| :: Iterate(Parent(s), turn, m) == Some(path[m]))
      && (forall m: nat | 1 <= m < |path| :: !Hits(s, turn, m, workspace))
    }

    lemma ClimbMore(s: Store, path: seq<string>, parent: string)
      requires Climbed(s, path) && Parent(s)(path[|path| - 1]) == Some(parent)
      requires parent in s.turns && s.turns[parent].thread in s.threads
      ensures if WorkspaceOf(s, parent) == workspace then Reaches(s, turn, workspace) else Climbed(s, path + [parent])
    {
      var k := |path|;
      NextOf(s, k, path[k - 1], parent);
      assert Hits(s, turn, k, workspace) <==> WorkspaceOf(s, parent) == workspace;
      if WorkspaceOf(s, parent) != workspace {
        var longer := path + [parent];
        forall m: nat | m < |longer| ensures Iterate(Parent(s), turn, m) == Some(longer[m]) {
          assert m < k ==> longer[m] == path[m];
        }
      }
    }

    /** At the end of the chain it snaps, or it snaps nowhere. */
    lemma SnapsHere(s: Store, path: seq<string>, unrecorded: bool)
      requires Climbed(s, path) && Parent(s)(path[|path| - 1]) == None
      requires var child := path[|path| - 1]; unrecorded <==> child in s.edges && !Recorded(s, child)
      ensures unrecorded <==> exists n: nat :: Snaps(s, turn, n, workspace)
    {
      var k := |path| - 1;
      if unrecorded {
        assert Snaps(s, turn, k, workspace);
      }
      if n: nat :| Snaps(s, turn, n, workspace) {
        if n < k {
          SnapEnds(s, turn, n, workspace, k);
        }
        if n > k {
          assert Iterate(Parent(s), turn, k + 1) == None;
          ChainEnds(Parent(s), turn, k + 1, n);
        }
      }
    }

    lemma HitBeforeSnap(s: Store, path: seq<string>, parent: string)
      requires Climbed(s, path) && Parent(s)(path[|path| - 1]) == Some(parent)
      requires parent in s.turns && s.turns[parent].thread in s.threads && WorkspaceOf(s, parent) == workspace
      ensures forall n: nat :: !Snaps(s, turn, n, workspace)
    {
      var k := |path|;
      NextOf(s, k, path[k - 1], parent);
      assert Hits(s, turn, k, workspace);
      forall n: nat ensures !Snaps(s, turn, n, workspace) {
        if Snaps(s, turn, n, workspace) && n < k {
          SnapEnds(s, turn, n, workspace, k);
        }
      }
    }

    /** A chain that closes never ends. */
    lemma CycleHolds(s: Store, path: seq<string>, m: nat)
      requires Climbed(s, path) && m < |path| - 1 && path[m] == path[|path| - 1]
      ensures forall n: nat :: !Snaps(s, turn, n, workspace)
    {
      var k := |path| - 1;
      forall n: nat ensures !Snaps(s, turn, n, workspace) {
        var j := CycleCovers(Parent(s), turn, m, k, n + 1);
        assert Iterate(Parent(s), turn, j) == Some(path[j]);
        if Snaps(s, turn, n, workspace) {
          SnapEnds(s, turn, n, workspace, n + 1);
        }
      }
    }

    lemma NextOf(s: Store, k: nat, child: string, parent: string)
      requires k >= 1 && Iterate(Parent(s), turn, k - 1) == Some(child) && Parent(s)(child) == Some(parent)
      ensures Iterate(Parent(s), turn, k) == Some(parent)
    {
    }

    lemma CycleMisses(s: Store, path: seq<string>, m: nat)
      requires Climbed(s, path) && m < |path| - 1 && path[m] == path[|path| - 1]
      ensures !Reaches(s, turn, workspace)
    {
      var k := |path| - 1;
      forall n: nat | n >= 1 ensures !Hits(s, turn, n, workspace) {
        var j := CycleCovers(Parent(s), turn, m, k, n);
        assert !Hits(s, turn, if j == 0 then k else j, workspace);
      }
    }

    lemma NoneAbove(s: Store, path: seq<string>)
      requires Climbed(s, path) && Parent(s)(path[|path| - 1]) == None
      ensures !Reaches(s, turn, workspace)
    {
      var k := |path| - 1;
      assert Iterate(Parent(s), turn, k + 1) == None;
      forall n: nat | n >= 1 ensures !Hits(s, turn, n, workspace) {
        if n > k {
          ChainEnds(Parent(s), turn, k + 1, n);
        }
      }
    }
  }
}
