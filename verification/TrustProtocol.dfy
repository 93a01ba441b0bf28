/**
 Initialising and reading the trust domain. Initialisers take the lock, clean up after an
 interrupted install, load or install, and return an identity. Readers take no lock: they look
 whether a second link needs cleaning, which alone is done under the lock, then open and read.
 Any process may crash or give up between any two steps; that frees the lock and leaves the files.
 */
module TrustProtocol {
  import opened Paths

  type Pid = nat
  type Inode = nat
  type Temp = nat

  /** Where a process is. An identity is the content it was read from. */
  datatype Phase =
    | Idle
    | Locked
    | Cleaned
    | Absent
    | Prepared(temp: Temp, inode: Inode)
    | Linked(temp: Temp, inode: Inode)
    | Loaded(identity: string)
    | Finished(identity: string)
    | Refused                              // a lock holder found links it cannot clean
    | Looked(absent: bool)                 // a reader found no target, or one with a single link
    | Waiting                              // a reader found a second link and wants the lock
    | Sweeping                             // and has it
    | Opened(absent: bool, inode: Inode)   // a reader found the target to read
    | Uninitialized
    | Rejected                             // a reader met a target with a second link

  datatype State = State(
    target: Option<Inode>,
    temps: map<Temp, Inode>,
    data: map<Inode, string>,
    lock: Option<Pid>,
    phase: map<Pid, Phase>)
  {
    function Phase(p: Pid): Phase { if p in phase then phase[p] else Idle }

    function At(p: Pid, f: Phase): State { this.(phase := phase[p := f]) }

    /** The temporary names of an inode; its link count is one more when it is the target. */
    function TempLinks(i: Inode): set<Temp> { set t | t in temps && temps[t] == i }
  }

  datatype Step =
    | Acquire
    | Clean(durable: bool)
    | Load
    | Prepare(newTemp: Temp, newInode: Inode, payload: string)
    | Link
    | Confirm(synced: bool)
    | Look
    | Open
    | Read
    | Crash

  ghost predicate Next(s: State, p: Pid, step: Step, s': State) {
    var at := s.Phase(p);
    match step
    case Acquire =>
      && (at.Idle? || at.Waiting?) && s.lock == None
      && s' == s.At(p, if at.Idle? then Locked else Sweeping).(lock := Some(p))
    case Clean(durable) =>
      // a directory that cannot be synced after the unlink raises; a sweeping reader gives the lock back
      && (at.Locked? || at.Sweeping?)
      && var next := if at.Locked? then s.At(p, Cleaned) else s.At(p, Looked(false)).(lock := None);
         if s.target.None? || s.TempLinks(s.target.value) == {} then s' == next
         else if |s.TempLinks(s.target.value)| != 1 then s' == s.At(p, Refused).(lock := None)
         else s' == (if durable then next else s.At(p, Idle).(lock := None))
                      .(temps := s.temps - s.TempLinks(s.target.value))
    case Load =>
      && at.Cleaned?
      && s' == if s.target.None? then s.At(p, Absent)
               else if s.target.value in s.data && s.TempLinks(s.target.value) == {}
               then s.At(p, Loaded(s.data[s.target.value]))
               else s.At(p, Refused).(lock := None)
    case Prepare(temp, inode, payload) =>
      && at.Absent? && temp !in s.temps && inode !in s.data
      && s' == s.At(p, Prepared(temp, inode)).(temps := s.temps[temp := inode], data := s.data[inode := payload])
    case Link =>
      && at.Prepared?
      && s' == if s.target.None? then s.At(p, Linked(at.temp, at.inode)).(target := Some(at.inode))
               else s.At(p, Cleaned).(temps := s.temps - {at.temp})
    case Confirm(synced) =>
      // a directory that cannot be synced raises; the lock is released either way
      if at.Linked? then
        at.inode in s.data
        && s' == s.At(p, if synced then Finished(s.data[at.inode]) else Idle)
                  .(temps := s.temps - {at.temp}, lock := None)
      else
        at.Loaded? && s' == s.At(p, if synced then Finished(at.identity) else Idle).(lock := None)
    case Look =>
      // absent, or a single link: nothing to clean
      && at.Idle?
      && s' == s.At(p, if s.target.None? then Looked(true)
                       else if s.TempLinks(s.target.value) == {} then Looked(false) else Waiting)
    case Open =>
      at.Looked? && s' == s.At(p, if s.target.None? then Uninitialized else Opened(at.absent, s.target.value))
    case Read =>
      && at.Opened? && at.inode in s.data
      && s' == s.At(p, if s.target != Some(at.inode) || s.TempLinks(at.inode) != {} then Rejected
                       else Finished(s.data[at.inode]))
    case Crash =>
      s' == s.At(p, Idle).(lock := if s.lock == Some(p) then None else s.lock)
  }

  predicate Holding(f: Phase) {
    f.Locked? || f.Cleaned? || f.Absent? || f.Prepared? || f.Linked? || f.Loaded? || f.Sweeping?
  }

  /** What holds in every reachable state. */
  ghost predicate Inv(s: State) {
    && (s.target.Some? ==> s.target.value in s.data && |s.TempLinks(s.target.value)| <= 1)
    && (forall t | t in s.temps :: s.temps[t] in s.data)
    && (forall t, u | t in s.temps && u in s.temps && s.temps[t] == s.temps[u] :: t == u)
    && (forall p: Pid :: Holding(s.Phase(p)) <==> s.lock == Some(p))
    && (forall p: Pid :: PhaseFits(s, s.Phase(p)))
  }

  ghost predicate PhaseFits(s: State, f: Phase) {
    match f
    case Idle => true
    case Locked => true
    case Cleaned => s.target.Some? ==> s.TempLinks(s.target.value) == {}
    case Absent => s.target.None?
    case Prepared(temp, inode) => s.target.None? && temp in s.temps && s.temps[temp] == inode
    case Linked(temp, inode) => s.target == Some(inode) && temp in s.temps && s.temps[temp] == inode
    case Loaded(identity) => s.target.Some? && s.target.value in s.data && s.data[s.target.value] == identity
    case Finished(identity) => s.target.Some? && s.target.value in s.data && s.data[s.target.value] == identity
    case Refused => false
    case Looked(absent) => !absent ==> s.target.Some? && s.TempLinks(s.target.value) == {}
    case Waiting => s.target.Some?
    case Sweeping => s.target.Some?
    case Opened(absent, inode) => s.target == Some(inode) && (!absent ==> s.TempLinks(inode) == {})
    case Uninitialized => true
    case Rejected => true
  }

  ghost predicate Initial(s: State) {
    && s.target.None? && s.temps == map[] && s.data == map[] && s.lock == None && s.phase == map[]
  }

  lemma InitialInv(s: State)
    requires Initial(s)
    ensures Inv(s)
  {
    forall p: Pid ensures s.Phase(p) == Idle { }
  }

  /** Distinct temporary names have distinct inodes, so an inode has at most one of them. */
  lemma AtMostOneTemp(s: State, i: Inode)
    requires forall t, u | t in s.temps && u in s.temps && s.temps[t] == s.temps[u] :: t == u
    ensures |s.TempLinks(i)| <= 1
  {
    if t :| t in s.TempLinks(i) {
      assert s.TempLinks(i) == {t};
    }
  }

  /** Once there is a target, its inode and bytes never change. */
  lemma TargetStays(s: State, p: Pid, step: Step, s': State)
    requires Inv(s) && Next(s, p, step, s') && s.target.Some?
    ensures s'.target == s.target && s.target.value in s'.data && s'.data[s.target.value] == s.data[s.target.value]
  {
  }

  lemma FilesKept(s: State, p: Pid, step: Step, s': State)
    requires Inv(s) && Next(s, p, step, s')
    ensures s'.target.Some? ==> s'.target.value in s'.data && |s'.TempLinks(s'.target.value)| <= 1
    ensures forall t | t in s'.temps :: s'.temps[t] in s'.data
    ensures forall t, u | t in s'.temps && u in s'.temps && s'.temps[t] == s'.temps[u] :: t == u
  {
    assert PhaseFits(s, s.Phase(p));
    if s'.target.Some? { AtMostOneTemp(s', s'.target.value); }
  }

  lemma LockKept(s: State, p: Pid, step: Step, s': State)
    requires Inv(s) && Next(s, p, step, s')
    ensures forall q: Pid :: Holding(s'.Phase(q)) <==> s'.lock == Some(q)
  {
    forall q: Pid ensures Holding(s'.Phase(q)) <==> s'.lock == Some(q) {
      LockKeptFor(s, p, step, s', q);
    }
  }

  lemma LockKeptFor(s: State, p: Pid, step: Step, s': State, q: Pid)
    requires Inv(s) && Next(s, p, step, s')
    ensures Holding(s'.Phase(q)) <==> s'.lock == Some(q)
  {
    assert Holding(s.Phase(q)) <==> s.lock == Some(q);
    assert Holding(s.Phase(p)) <==> s.lock == Some(p);
    if q != p {
      PhaseOfOther(s, p, step, s', q);
    }
  }

  lemma PhaseOfOther(s: State, p: Pid, step: Step, s': State, q: Pid)
    requires Next(s, p, step, s') && q != p
    ensures s'.Phase(q) == s.Phase(q)
  {
  }

  /** The acting process lands in a phase that fits; cleaning never has to refuse. */
  lemma OwnPhaseFits(s: State, p: Pid, step: Step, s': State)
    requires Inv(s) && Next(s, p, step, s')
    ensures PhaseFits(s', s'.Phase(p))
  {
    assert PhaseFits(s, s.Phase(p));
    if step.Clean? && s.target.Some? {
      var links := s.TempLinks(s.target.value);
      if links != {} {
        AtMostOneTemp(s, s.target.value);
        var t :| t in links;
        assert links == {t} && |links| == 1;
        assert s'.TempLinks(s.target.value) == {};
      } else {
        assert s'.TempLinks(s.target.value) == {};
      }
    } else if step.Link? && s.target.Some? {
      assert false;
    }
  }

  /** A process standing still keeps its phase's facts: the holder acts alone on the files. */
  lemma OtherPhaseFits(s: State, p: Pid, step: Step, s': State, q: Pid)
    requires Inv(s) && Next(s, p, step, s') && q != p
    ensures PhaseFits(s', s'.Phase(q))
  {
    var f := s.Phase(q);
    assert s'.Phase(q) == f && PhaseFits(s, f);
    assert Holding(f) <==> s.lock == Some(q);
    assert Holding(s.Phase(p)) <==> s.lock == Some(p);
    if Holding(f) {
      assert !Holding(s.Phase(p));
      assert s'.target == s.target && s'.temps == s.temps && s'.data == s.data;
      assert s.target.Some? ==> s'.TempLinks(s.target.value) == s.TempLinks(s.target.value);
    } else if f.Finished? {
      TargetStays(s, p, step, s');
    }
  }

  lemma InvKept(s: State, p: Pid, step: Step, s': State)
    requires Inv(s) && Next(s, p, step, s')
    ensures Inv(s')
  {
    FilesKept(s, p, step, s');
    LockKept(s, p, step, s');
    forall q: Pid ensures PhaseFits(s', s'.Phase(q)) {
      if q == p {
        OwnPhaseFits(s, p, step, s');
      } else {
        OtherPhaseFits(s, p, step, s', q);
      }
    }
  }

  // ----- Whole runs

  ghost predicate IsRun(states: seq<State>, pids: seq<Pid>, steps: seq<Step>) {
    && |states| == |steps| + 1 && |pids| == |steps|
    && Initial(states[0])
    && forall i | 0 <= i < |steps| :: Next(states[i], pids[i], steps[i], states[i + 1])
  }

  lemma {:induction false} RunInv(states: seq<State>, pids: seq<Pid>, steps: seq<Step>, i: nat)
    requires IsRun(states, pids, steps) && i < |states|
    ensures Inv(states[i])
  {
    if i == 0 {
      InitialInv(states[0]);
    } else {
      RunInv(states, pids, steps, i - 1);
      InvKept(states[i - 1], pids[i - 1], steps[i - 1], states[i]);
    }
  }

  lemma {:induction false} RunTargetStays(states: seq<State>, pids: seq<Pid>, steps: seq<Step>, i: nat, j: nat)
    requires IsRun(states, pids, steps) && i <= j < |states| && states[i].target.Some?
    ensures var t := states[i].target.value;
            states[j].target == Some(t) && t in states[i].data && t in states[j].data
            && states[j].data[t] == states[i].data[t]
    decreases j - i
  {
    RunInv(states, pids, steps, i);
    if i < j {
      RunTargetStays(states, pids, steps, i, j - 1);
      RunInv(states, pids, steps, j - 1);
      TargetStays(states[j - 1], pids[j - 1], steps[j - 1], states[j]);
    }
  }

  /** However processes interleave, crash and restart, all that finish return one identity. */
  lemma OneIdentity(states: seq<State>, pids: seq<Pid>, steps: seq<Step>, i: nat, p: Pid, j: nat, q: Pid)
    requires IsRun(states, pids, steps) && i <= j < |states|
    requires states[i].Phase(p).Finished? && states[j].Phase(q).Finished?
    ensures states[i].Phase(p).identity == states[j].Phase(q).identity
  {
    RunInv(states, pids, steps, i);
    RunInv(states, pids, steps, j);
    assert PhaseFits(states[i], states[i].Phase(p)) && PhaseFits(states[j], states[j].Phase(q));
    RunTargetStays(states, pids, steps, i, j);
  }

  /** No lock holder is ever refused: an interrupted install always leaves exactly one link to clean. */
  lemma NeverRefused(states: seq<State>, pids: seq<Pid>, steps: seq<Step>, i: nat, p: Pid)
    requires IsRun(states, pids, steps) && i < |states|
    ensures !states[i].Phase(p).Refused?
  {
    RunInv(states, pids, steps, i);
    assert PhaseFits(states[i], states[i].Phase(p));
  }

  // ----- Readers without the lock

  /** A read fails exactly when the reader had looked before there was a target, and the second link is still there. */
  lemma ReadRejects(s: State, p: Pid, s': State)
    requires Inv(s) && Next(s, p, Read, s')
    ensures s'.Phase(p).Rejected? <==> s.Phase(p).absent && s.TempLinks(s.Phase(p).inode) != {}
  {
    assert PhaseFits(s, s.Phase(p));
  }

  /** Step `l` is the last look of `p` before its read at step `i`. */
  ghost predicate LooksThenReads(pids: seq<Pid>, steps: seq<Step>, l: nat, i: nat, p: Pid) {
    && l < i < |steps| && |pids| == |steps|
    && pids[l] == p && steps[l] == Look && pids[i] == p && steps[i] == Read
    && forall k | l < k < i && pids[k] == p :: !steps[k].Look?
  }

  /** Step `k` installs the target, and the temporary link it came from is still there at `i`. */
  ghost predicate LinkedUntil(states: seq<State>, pids: seq<Pid>, steps: seq<Step>, k: nat, i: nat)
    requires |states| > |steps| && |pids| == |steps|
  {
    && k < i < |states| && k < |steps| && steps[k].Link? && states[k].target.None?
    && var at := states[k].Phase(pids[k]);
       at.Prepared? && at.temp in states[i].temps && states[i].temps[at.temp] == at.inode
  }

  lemma TempsShrink(s: State, p: Pid, step: Step, s': State)
    requires Inv(s) && Next(s, p, step, s') && s.target.Some?
    ensures s'.target == s.target && s'.TempLinks(s.target.value) <= s.TempLinks(s.target.value)
  {
    TargetStays(s, p, step, s');
  }

  lemma {:induction false} RunTempsShrink(states: seq<State>, pids: seq<Pid>, steps: seq<Step>, i: nat, j: nat)
    requires IsRun(states, pids, steps) && i <= j < |states| && states[i].target.Some?
    ensures var t := states[i].target.value;
            states[j].target == Some(t) && states[j].TempLinks(t) <= states[i].TempLinks(t)
    decreases j - i
  {
    if i < j {
      RunTempsShrink(states, pids, steps, i, j - 1);
      RunInv(states, pids, steps, j - 1);
      TempsShrink(states[j - 1], pids[j - 1], steps[j - 1], states[j]);
    }
  }

  /** What a reader remembers of its look. */
  ghost predicate Remembers(f: Phase, absent: bool) {
    && (f.Looked? ==> f.absent == absent)
    && (f.Opened? ==> f.absent == absent)
    && (f.Waiting? || f.Sweeping? ==> !absent)
  }

  lemma {:induction false} LookRemembered(states: seq<State>, pids: seq<Pid>, steps: seq<Step>, l: nat, i: nat, p: Pid)
    requires IsRun(states, pids, steps) && l < i < |states|
    requires pids[l] == p && steps[l] == Look
    requires forall k | l < k < i && pids[k] == p :: !steps[k].Look?
    ensures Remembers(states[i].Phase(p), states[l].target.None?)
    decreases i
  {
    assert Next(states[i - 1], pids[i - 1], steps[i - 1], states[i]);
    if i > l + 1 {
      LookRemembered(states, pids, steps, l, i - 1, p);
    }
  }

  /** Somewhere between, the target appeared. */
  lemma {:induction false} TargetAppears(states: seq<State>, pids: seq<Pid>, steps: seq<Step>, l: nat,
                                         i: nat) returns (k: nat)
    requires IsRun(states, pids, steps) && l < i < |states| && states[l].target.None? && states[i].target.Some?
    ensures l <= k < i && states[k].target.None? && states[k + 1].target.Some?
    ensures steps[k].Link? && states[k].Phase(pids[k]).Prepared?
    ensures states[k + 1].target == Some(states[k].Phase(pids[k]).inode)
    decreases i
  {
    if states[i - 1].target.None? {
      k := i - 1;
      assert Next(states[k], pids[k], steps[k], states[k + 1]);
    } else {
      k := TargetAppears(states, pids, steps, l, i - 1);
    }
  }

  lemma StillLinked(states: seq<State>, pids: seq<Pid>, steps: seq<Step>, k: nat, i: nat)
    requires IsRun(states, pids, steps) && k < i < |states| && steps[k].Link? && states[k].target.None?
    ensures states[k].Phase(pids[k]).Prepared? && states[i].target == Some(states[k].Phase(pids[k]).inode)
    ensures LinkedUntil(states, pids, steps, k, i) <==> states[i].TempLinks(states[i].target.value) != {}
  {
    var at := states[k].Phase(pids[k]);
    RunInv(states, pids, steps, k);
    RunInv(states, pids, steps, k + 1);
    assert Next(states[k], pids[k], steps[k], states[k + 1]) && PhaseFits(states[k], at);
    AtMostOneTemp(states[k + 1], at.inode);
    assert at.temp in states[k + 1].TempLinks(at.inode);
    RunTempsShrink(states, pids, steps, k + 1, i);
    forall u | u in states[i].TempLinks(at.inode) ensures u == at.temp {
      assert u in states[k + 1].TempLinks(at.inode);
    }
    assert LinkedUntil(states, pids, steps, k, i) <==> at.temp in states[i].TempLinks(at.inode);
  }

  /** In any run: a read fails exactly when the target was linked after the look and its second link is still there. */
  lemma ReaderRejectedExactly(states: seq<State>, pids: seq<Pid>, steps: seq<Step>, l: nat, i: nat, p: Pid)
    requires IsRun(states, pids, steps) && LooksThenReads(pids, steps, l, i, p)
    ensures states[i + 1].Phase(p).Rejected? <==> exists k :: l < k < i && LinkedUntil(states, pids, steps, k, i)
  {
    RunInv(states, pids, steps, i);
    assert Next(states[i], p, Read, states[i + 1]) && PhaseFits(states[i], states[i].Phase(p));
    ReadRejects(states[i], p, states[i + 1]);
    LookRemembered(states, pids, steps, l, i, p);
    if states[i + 1].Phase(p).Rejected? {
      var k := TargetAppears(states, pids, steps, l, i);
      StillLinked(states, pids, steps, k, i);
      assert l < k && LinkedUntil(states, pids, steps, k, i);
    }
    if k :| l < k < i && LinkedUntil(states, pids, steps, k, i) {
      if states[l].target.Some? {
        RunTargetStays(states, pids, steps, l, k);
      }
      StillLinked(states, pids, steps, k, i);
    }
  }

  lemma Extend(states: seq<State>, pids: seq<Pid>, steps: seq<Step>, p: Pid, step: Step, s': State)
    requires IsRun(states, pids, steps) && Next(states[|steps|], p, step, s')
    ensures IsRun(states + [s'], pids + [p], steps + [step])
  {
  }

  /** Process 1 is about to link the key it prepared; process 0 had looked before. */
  function AboutToLink(): State {
    State(None, map[0 := 0], map[0 := "key"], Some(1), map[0 := Looked(true), 1 := Prepared(0, 0)])
  }

  lemma LookBeforeLink() returns (states: seq<State>, pids: seq<Pid>, steps: seq<Step>)
    ensures IsRun(states, pids, steps) && states[|steps|] == AboutToLink()
  {
    var s0 := State(None, map[], map[], None, map[]);
    var s1 := s0.At(0, Looked(true));
    var s2 := s1.At(1, Locked).(lock := Some(1));
    var s3 := s2.At(1, Cleaned);
    var s4 := s3.At(1, Absent);
    states := [s0, s1, s2, s3, s4];
    pids, steps := [0, 1, 1, 1], [Look, Acquire, Clean(true), Load];
    Extend(states, pids, steps, 1, Prepare(0, 0, "key"), AboutToLink());
    states, pids, steps := states + [AboutToLink()], pids + [1], steps + [Prepare(0, 0, "key")];
  }

  /** A run in which a reader is turned away: it looks, the target is linked, it reads before the second link goes. */
  lemma ReaderCanBeRejected() returns (states: seq<State>, pids: seq<Pid>, steps: seq<Step>)
    ensures IsRun(states, pids, steps) && states[|steps|].Phase(0).Rejected?
  {
    states, pids, steps := LookBeforeLink();
    var linked := AboutToLink().At(1, Linked(0, 0)).(target := Some(0));
    var reading := linked.At(0, Opened(true, 0));
    assert 0 in reading.TempLinks(0);
    Extend(states, pids, steps, 1, Link, linked);
    states, pids, steps := states + [linked], pids + [1], steps + [Link];
    Extend(states, pids, steps, 0, Open, reading);
    states, pids, steps := states + [reading], pids + [0], steps + [Open];
    Extend(states, pids, steps, 0, Read, reading.At(0, Rejected));
    states, pids, steps := states + [reading.At(0, Rejected)], pids + [0], steps + [Read];
  }

  // ----- Left alone, a process finishes

  /** Steps of one process. */
  ghost predicate Alone(states: seq<State>, p: Pid, steps: seq<Step>) {
    |states| == |steps| + 1 && forall i | 0 <= i < |steps| :: Next(states[i], p, steps[i], states[i + 1])
  }

  lemma AloneOn(states: seq<State>, p: Pid, steps: seq<Step>, step: Step, s': State)
    requires Alone(states, p, steps) && Next(states[|steps|], p, step, s')
    ensures Alone(states + [s'], p, steps + [step])
  {
    var all, done := states + [s'], steps + [step];
    forall i | 0 <= i < |done| ensures Next(all[i], p, done[i], all[i + 1]) {
      if i < |steps| {
        assert all[i] == states[i] && all[i + 1] == states[i + 1];
      }
    }
  }

  /** What taking the lock and cleaning up leave: the target with its one link. */
  function Swept(s: State): State {
    if s.target.None? then s else s.(temps := s.temps - s.TempLinks(s.target.value))
  }

  lemma SweptLinks(s: State)
    ensures Swept(s).target.Some? ==> Swept(s).TempLinks(s.target.value) == {}
    ensures s.target.Some? && s.TempLinks(s.target.value) == {} ==> Swept(s) == s
  {
    if s.target.Some? && s.TempLinks(s.target.value) == {} {
      assert s.temps - {} == s.temps;
    }
  }

  /** Whatever was left behind, an initializer left alone cleans up and takes the lock to load or install. */
  lemma LockAndClean(s: State, p: Pid) returns (states: seq<State>, steps: seq<Step>)
    requires Inv(s) && s.lock == None && s.Phase(p) == Idle
    ensures Alone(states, p, steps) && |steps| == 2 && states[0] == s
    ensures states[2] == Swept(s).At(p, Cleaned).(lock := Some(p))
  {
    var locked := s.At(p, Locked).(lock := Some(p));
    var cleaned := Swept(s).At(p, Cleaned).(lock := Some(p));
    SweptLinks(s);
    assert locked.At(p, Cleaned) == s.At(p, Cleaned).(lock := Some(p));
    assert forall i :: locked.TempLinks(i) == s.TempLinks(i);
    states, steps := [s], [];
    AloneOn(states, p, steps, Acquire, locked);
    states, steps := states + [locked], steps + [Acquire];
    AloneOn(states, p, steps, Clean(true), cleaned);
    states, steps := states + [cleaned], steps + [Clean(true)];
  }

  /** An initializer left alone finishes: with the identity installed, or else with its own. */
  lemma InitializerFinishes(s: State, p: Pid, temp: Temp, inode: Inode, payload: string)
    returns (states: seq<State>, steps: seq<Step>)
    requires Inv(s) && s.lock == None && s.Phase(p) == Idle && temp !in s.temps && inode !in s.data
    ensures Alone(states, p, steps) && states[0] == s
    ensures s.target.Some? ==> Installed(states[|steps|], p, s.target.value, s.data[s.target.value])
    ensures s.target.None? ==> Installed(states[|steps|], p, inode, payload)
  {
    states, steps := LockAndClean(s, p);
    SweptLinks(s);
    var at := states[2];
    if s.target.Some? {
      assert at.TempLinks(s.target.value) == {};
      var loaded := at.At(p, Loaded(s.data[s.target.value]));
      AloneOn(states, p, steps, Load, loaded);
      states, steps := states + [loaded], steps + [Load];
      var last := loaded.At(p, Finished(s.data[s.target.value])).(lock := None);
      AloneOn(states, p, steps, Confirm(true), last);
      states, steps := states + [last], steps + [Confirm(true)];
    } else {
      states, steps := Installs(states, steps, p, temp, inode, payload);
    }
  }

  /** Cleaned up, with nothing installed and new names for what is. */
  ghost predicate ReadyToInstall(s: State, p: Pid, temp: Temp, inode: Inode) {
    && s.Phase(p) == Cleaned && s.target == None && temp !in s.temps && inode !in s.data
    && forall t | t in s.temps :: s.temps[t] in s.data
  }

  /** The process finished with the identity, which is there with its one link, and the lock is free. */
  ghost predicate Installed(s: State, p: Pid, inode: Inode, identity: string) {
    s.lock == None && s.target == Some(inode) && s.Phase(p) == Finished(identity) && s.TempLinks(inode) == {}
  }

  lemma Installs(states0: seq<State>, steps0: seq<Step>, p: Pid, temp: Temp, inode: Inode, payload: string)
    returns (states: seq<State>, steps: seq<Step>)
    requires Alone(states0, p, steps0) && ReadyToInstall(states0[|steps0|], p, temp, inode)
    ensures Alone(states, p, steps) && states[0] == states0[0]
    ensures Installed(states[|steps|], p, inode, payload)
  {
    states, steps := states0, steps0;
    var at := states[|steps|];
    var absent := at.At(p, Absent);
    AloneOn(states, p, steps, Load, absent);
    states, steps := states + [absent], steps + [Load];
    var ready := absent.At(p, Prepared(temp, inode)).(
      temps := at.temps[temp := inode], data := at.data[inode := payload]);
    AloneOn(states, p, steps, Prepare(temp, inode, payload), ready);
    states, steps := states + [ready], steps + [Prepare(temp, inode, payload)];
    var linked := ready.At(p, Linked(temp, inode)).(target := Some(inode));
    AloneOn(states, p, steps, Link, linked);
    states, steps := states + [linked], steps + [Link];
    var last := linked.At(p, Finished(payload)).(temps := linked.temps - {temp}, lock := None);
    AloneOn(states, p, steps, Confirm(true), last);
    states, steps := states + [last], steps + [Confirm(true)];
  }

  /** A reader left alone, the lock free and the target there, finishes with its content, links or not. */
  lemma ReaderFinishes(s: State, p: Pid) returns (states: seq<State>, steps: seq<Step>)
    requires Inv(s) && s.lock == None && s.Phase(p) == Idle && s.target.Some?
    ensures Alone(states, p, steps) && states[0] == s
    ensures states[|steps|].Phase(p) == Finished(s.data[s.target.value]) && states[|steps|].lock == None
  {
    var i := s.target.value;
    states, steps := [s], [];
    SweptLinks(s);
    if s.TempLinks(i) == {} {
      var looked := s.At(p, Looked(false));
      AloneOn(states, p, steps, Look, looked);
      states, steps := states + [looked], steps + [Look];
    } else {
      states, steps := ReaderSweeps(s, p);
    }
    var at := states[|steps|];
    assert at.TempLinks(i) == {};
    var found := at.At(p, Opened(false, i));
    AloneOn(states, p, steps, Open, found);
    states, steps := states + [found], steps + [Open];
    assert found.TempLinks(i) == {};
    var last := found.At(p, Finished(s.data[i]));
    AloneOn(states, p, steps, Read, last);
    states, steps := states + [last], steps + [Read];
  }

  /** A reader that finds a second link waits for the lock, removes the link and gives the lock back. */
  lemma ReaderSweeps(s: State, p: Pid) returns (states: seq<State>, steps: seq<Step>)
    requires Inv(s) && s.lock == None && s.Phase(p) == Idle && s.target.Some? && s.TempLinks(s.target.value) != {}
    ensures Alone(states, p, steps) && states[0] == s && states[|steps|] == Swept(s).At(p, Looked(false))
  {
    var waiting := s.At(p, Waiting);
    states, steps := [s], [];
    AloneOn(states, p, steps, Look, waiting);
    states, steps := states + [waiting], steps + [Look];
    var sweeping := s.At(p, Sweeping).(lock := Some(p));
    assert waiting.At(p, Sweeping) == s.At(p, Sweeping);
    AloneOn(states, p, steps, Acquire, sweeping);
    states, steps := states + [sweeping], steps + [Acquire];
    assert forall i :: sweeping.TempLinks(i) == s.TempLinks(i);
    var swept := Swept(s).At(p, Looked(false));
    assert sweeping.At(p, Looked(false)).(lock := None) == s.At(p, Looked(false));
    AloneOn(states, p, steps, Clean(true), swept);
    states, steps := states + [swept], steps + [Clean(true)];
  }

  /** A directory that cannot be synced: what was done stays done, the process gives up and frees the lock. */
  lemma FailedSync(s: State, p: Pid, step: Step, s': State)
    requires Next(s, p, step, s') && (step == Confirm(false) || step == Clean(false))
    ensures s'.target == s.target && s'.data == s.data
    ensures step == Confirm(false) ==> s'.Phase(p) == Idle && s'.lock == None
    ensures step == Clean(false) && s.target.Some? && |s.TempLinks(s.target.value)| == 1 ==>
            s'.Phase(p) == Idle && s'.lock == None && s'.temps == s.temps - s.TempLinks(s.target.value)
    ensures step == Clean(false) && s.target.Some? && |s.TempLinks(s.target.value)| > 1 ==>
            s'.Phase(p) == Refused && s'.lock == None && s'.temps == s.temps
  {
  }
}
