/**
 The background host: one tick settles control commands, reaps finished drivers, then admits
 new ones under a concurrency bound with one driver per workspace. Stopping may be observed
 at any of the checks. Between ticks, and wherever a tick waits for the store, commands arrive and
 drivers end.
 */
module HostTick {
  import opened Paths
  import opened HostQueue
  import opened HostLog

  // ----- Drivers

  /** What others do while the tick waits. */
  datatype Happening =
    | Arrives(id: string, command: Command)
    | Ends(id: string, end: DriverEnd, turn: Option<TurnState>)

  /** What one happening makes of the queue and the drivers; a known command's arrival changes nothing. */
  function Happened(q: Queue, drivers: map<string, bool>, e: Happening): (Queue, map<string, bool>) {
    match e
    case Arrives(id, command) => (if id in q.commands then q else q.Add(id, command), drivers)
    case Ends(id, end, turn) =>
      if id !in drivers || drivers[id] then (q, drivers)
      else (if id in q.status && q.status[id] == Claimed then q.Set(id, Acknowledged(end, turn)) else q,
            drivers[id := true])
  }

  function AllHappened(q: Queue, drivers: map<string, bool>, events: seq<Happening>): (Queue, map<string, bool>) {
    if events == [] then (q, drivers)
    else
      var before := AllHappened(q, drivers, events[..|events| - 1]);
      Happened(before.0, before.1, events[|events| - 1])
  }

  lemma OneMoreHappened(q: Queue, drivers: map<string, bool>, events: seq<Happening>, i: nat)
    requires i < |events|
    ensures var before := AllHappened(q, drivers, events[..i]);
            AllHappened(q, drivers, events[..i + 1]) == Happened(before.0, before.1, events[i])
  {
    assert events[..i + 1][..i] == events[..i];
  }

  ghost predicate Apart(workspaces: map<string, Path>) {
    forall a, b | a in workspaces && b in workspaces && workspaces[a] == workspaces[b] :: a == b
  }

  /** At most so many drivers, each for a queued command, in distinct workspaces. */
  ghost predicate Roster(commands: map<string, Command>, drivers: map<string, bool>, workspaces: map<string, Path>,
                         bound: nat) {
    && drivers.Keys == workspaces.Keys
    && (forall d | d in drivers :: d in commands && !IsControl(commands[d]) && workspaces[d] == commands[d].workspace)
    && |drivers| <= bound
    && Apart(workspaces)
  }

  /** Every claimed command but the one in hand has a driver that is not done. */
  ghost predicate ClaimsDriven(status: map<string, Status>, drivers: map<string, bool>, claim: Option<string>) {
    forall c | c in status && status[c] == Claimed && claim != Some(c) :: c in drivers && !drivers[c]
  }

  ghost predicate Sound(q: Queue, drivers: map<string, bool>, workspaces: map<string, Path>, bound: nat,
                        claim: Option<string>) {
    && q.Sound() && Roster(q.commands, drivers, workspaces, bound) && ClaimsDriven(q.status, drivers, claim)
    && (claim.Some? ==> claim.value in q.commands && claim.value !in drivers)
  }

  /** Others add commands and end drivers; commands without a driver stay as they are. */
  ghost predicate Elapsed(q0: Queue, drivers0: map<string, bool>, q: Queue, drivers: map<string, bool>) {
    && SameDrivers(drivers0, drivers)
    && (forall c | c in q0.commands :: c in q.commands && q.commands[c] == q0.commands[c])
    && (forall c | c in q0.status :: c in q.status && (c !in drivers ==> q.status[c] == q0.status[c]))
    && q.cancelled == q0.cancelled && q.delivered == q0.delivered
  }

  lemma ElapsedMore(q0: Queue, drivers0: map<string, bool>, q1: Queue, drivers1: map<string, bool>,
                    q: Queue, drivers: map<string, bool>)
    requires Elapsed(q0, drivers0, q1, drivers1) && Elapsed(q1, drivers1, q, drivers)
    ensures Elapsed(q0, drivers0, q, drivers)
  {
    assert forall d :: d in drivers <==> d in drivers1;
  }

  lemma ArrivalElapses(q: Queue, drivers: map<string, bool>, workspaces: map<string, Path>, bound: nat,
                       claim: Option<string>, id: string, command: Command)
    requires Sound(q, drivers, workspaces, bound, claim)
    ensures Elapsed(q, drivers, q, drivers)
    ensures id !in q.commands ==>
            Elapsed(q, drivers, q.Add(id, command), drivers)
  {
  }

  lemma EndElapses(q: Queue, drivers: map<string, bool>, workspaces: map<string, Path>, bound: nat,
                   claim: Option<string>, id: string, to: Status)
    requires Sound(q, drivers, workspaces, bound, claim) && id in drivers
    ensures id in q.status
    ensures Elapsed(q, drivers, if q.status[id] == Claimed then q.Set(id, to) else q, drivers[id := true])
  {
    var after, ended := if q.status[id] == Claimed then q.Set(id, to) else q, drivers[id := true];
    assert ended.Keys == drivers.Keys;
    assert SameDrivers(drivers, ended);
    assert after.commands == q.commands;
    forall c | c in q.status ensures c in after.status && (c !in ended ==> after.status[c] == q.status[c]) {
    }
  }

  /** The same drivers, some of them done by now. */
  ghost predicate SameDrivers(before: map<string, bool>, after: map<string, bool>) {
    after.Keys == before.Keys && forall d | d in before :: before[d] ==> after[d]
  }

  lemma SameDriversOn(before: map<string, bool>, middle: map<string, bool>, after: map<string, bool>)
    requires SameDrivers(before, middle) && SameDrivers(middle, after)
    ensures SameDrivers(before, after)
  {
  }

  /** The drivers whose task is not done. */
  function Live(drivers: map<string, bool>): map<string, bool> {
    drivers - set d | d in drivers && drivers[d]
  }

  lemma LiveAre(drivers: map<string, bool>, d: string)
    ensures d in Live(drivers) <==> d in drivers && !drivers[d]
  {
  }

  /** Drivers are kept, and the log shows each new one starting. */
  ghost predicate Grown(before: map<string, bool>, after: map<string, bool>, log: seq<Event>) {
    && (forall d | d in before :: d in after && (before[d] ==> after[d]))
    && forall d | d in after && d !in before :: Started(d) in log
  }

  lemma GrownMore(before: map<string, bool>, middle: map<string, bool>, earlier: seq<Event>, after: map<string, bool>,
                  log: seq<Event>)
    requires Grown(before, middle, earlier) && Grown(middle, after, log) && earlier <= log
    ensures Grown(before, after, log)
  {
    assert forall e | e in earlier :: e in log;
  }

  lemma SameIsGrown(before: map<string, bool>, after: map<string, bool>, log: seq<Event>)
    requires SameDrivers(before, after)
    ensures Grown(before, after, log) && |after| == |before|
  {
    assert |after.Keys| == |before.Keys|;
  }

  lemma SoundAfterArrival(q: Queue, drivers: map<string, bool>, workspaces: map<string, Path>, bound: nat,
                          claim: Option<string>, id: string, command: Command)
    requires Sound(q, drivers, workspaces, bound, claim) && id !in q.commands
    ensures Sound(q.Add(id, command), drivers, workspaces, bound, claim)
  {
  }

  /** A driver's end takes its claim along. */
  lemma SoundAfterEnd(q: Queue, drivers: map<string, bool>, workspaces: map<string, Path>, bound: nat,
                      claim: Option<string>, id: string, to: Status)
    requires Sound(q, drivers, workspaces, bound, claim) && id in drivers && to != Claimed
    ensures Sound(if q.status[id] == Claimed then q.Set(id, to) else q, drivers[id := true], workspaces, bound, claim)
  {
    RosterEnds(q.commands, drivers, workspaces, bound, id);
    var after := if q.status[id] == Claimed then q.Set(id, to) else q;
    assert after.Sound() && after.commands == q.commands;
    assert ClaimsDriven(after.status, drivers[id := true], claim);
  }

  lemma RosterEnds(commands: map<string, Command>, drivers: map<string, bool>, workspaces: map<string, Path>,
                   bound: nat,
                   id: string)
    requires Roster(commands, drivers, workspaces, bound) && id in drivers
    ensures Roster(commands, drivers[id := true], workspaces, bound)
  {
    assert drivers[id := true].Keys == drivers.Keys;
  }

  lemma SoundAfterClaim(q: Queue, drivers: map<string, bool>, workspaces: map<string, Path>, bound: nat, id: string)
    requires Sound(q, drivers, workspaces, bound, None) && id in q.commands && id !in drivers
    ensures Sound(q.Set(id, Claimed), drivers, workspaces, bound, Some(id))
  {
  }

  lemma SoundAfterSettling(q: Queue, drivers: map<string, bool>, workspaces: map<string, Path>, bound: nat,
                           id: string, to: Status)
    requires Sound(q, drivers, workspaces, bound, Some(id)) && to != Claimed
    ensures Sound(q.Set(id, to), drivers, workspaces, bound, None)
  {
  }

  lemma SoundAfterControl(q: Queue, drivers: map<string, bool>, workspaces: map<string, Path>, bound: nat, id: string,
                          after: Queue)
    requires Sound(q, drivers, workspaces, bound, Some(id)) && GivesUp(q, after, id)
    ensures Sound(after, drivers, workspaces, bound, None)
  {
  }

  lemma SoundAfterStart(q: Queue, drivers: map<string, bool>, workspaces: map<string, Path>, bound: nat, id: string)
    requires Sound(q, drivers, workspaces, bound, Some(id)) && !IsControl(q.commands[id]) && |drivers| < bound
    requires q.commands[id].workspace !in workspaces.Values
    ensures Sound(q, drivers[id := false], workspaces[id := q.commands[id].workspace], bound, None)
  {
    RosterGrows(q.commands, drivers, workspaces, bound, id);
  }

  lemma RosterGrows(commands: map<string, Command>, drivers: map<string, bool>, workspaces: map<string, Path>,
                    bound: nat,
                    id: string)
    requires Roster(commands, drivers, workspaces, bound) && id in commands && !IsControl(commands[id])
    requires id !in drivers && |drivers| < bound && commands[id].workspace !in workspaces.Values
    ensures Roster(commands, drivers[id := false], workspaces[id := commands[id].workspace], bound)
  {
    assert drivers[id := false].Keys == drivers.Keys + {id};
    StillApart(workspaces, id, commands[id].workspace);
  }

  lemma StillApart(workspaces: map<string, Path>, id: string, workspace: Path)
    requires Apart(workspaces) && workspace !in workspaces.Values
    ensures Apart(workspaces[id := workspace])
  {
    forall a | a in workspaces ensures workspaces[a] != workspace {
      assert workspaces[a] in workspaces.Values;
    }
  }

  lemma SoundAfterReaping(q: Queue, drivers: map<string, bool>, workspaces: map<string, Path>, bound: nat,
                          done: set<string>)
    requires Sound(q, drivers, workspaces, bound, None) && done == set d | d in drivers && drivers[d]
    ensures Sound(q, drivers - done, workspaces - done, bound, None) && drivers - done == Live(drivers)
  {
    assert (drivers - done).Keys == drivers.Keys - done;
    SubsetSize((drivers - done).Keys, drivers.Keys);
  }

  lemma SubsetSize<T>(a: set<T>, b: set<T>)
    requires a <= b
    ensures |a| <= |b|
  {
    if a != {} {
      var x :| x in a;
      SubsetSize(a - {x}, b - {x});
    }
  }

  /** What the control commands applied so far have left on record. */
  function RecordsOf(q: Queue, interrupted: set<string>, halted: set<string>): Records {
    Records(interrupted, halted, q.cancelled, q.delivered)
  }

  /** Applying a control command adds to the records what its event says. */
  lemma ControlRecorded(q: Queue, drivers: map<string, bool>, sessions: seq<Session>, id: string, finish: string,
                        f: Facts, interrupted: set<string>, halted: set<string>)
    requires id in q.commands
    ensures Noted(Controlled(id, finish, f, q, drivers, AfterControl(q, id, finish, f)), sessions,
                  RecordsOf(q, interrupted, halted))
         == RecordsOf(AfterControl(q, id, finish, f), interrupted + Driving(q, drivers, id, finish, f),
                      halted + Halting(q, sessions, id, finish, f))
  {
    ControlOnlyAdds(q, id, finish, f);
  }

  lemma ControlOnlyAdds(q: Queue, id: string, finish: string, f: Facts)
    requires id in q.commands
    ensures q.cancelled <= AfterControl(q, id, finish, f).cancelled
    ensures q.delivered <= AfterControl(q, id, finish, f).delivered
  {
  }

  class Host {
    const concurrency: nat
    /** The observations of the stop flag, in order. */
    const stops: nat -> bool
    var checks: nat
    /** What others do at each wait, in order. */
    const others: nat -> seq<Happening>
    var waits: nat
    var queue: Queue
    var drivers: map<string, bool>     // drivers, and whether their task is done
    var workspaces: map<string, Path>
    var interrupted: set<string>       // drivers asked to stop
    var sessions: seq<Session>
    var halted: set<string>            // sessions whose task for a turn was asked to stop
    ghost var log: seq<Event>

    constructor (concurrency: nat, stops: nat -> bool, others: nat -> seq<Happening>)
      ensures Valid() && drivers == map[] && queue == Queue(map[], map[], {}, {})
      ensures this.concurrency == concurrency && this.stops == stops && this.others == others
    {
      this.concurrency, this.stops, this.others, checks, waits := concurrency, stops, others, 0, 0;
      queue, drivers, workspaces := Queue(map[], map[], {}, {}), map[], map[];
      interrupted, sessions, halted, log := {}, [], {}, [];
    }

    /** Bounded drivers in distinct workspaces, and every claim has a live driver. */
    ghost predicate Valid()
      reads this`queue, this`drivers, this`workspaces
    {
      ValidBut(None)
    }

    /** Valid but for the claim in hand. */
    ghost predicate ValidBut(claim: Option<string>)
      reads this`queue, this`drivers, this`workspaces
    {
      Sound(queue, drivers, workspaces, concurrency, claim)
    }

    function Marks(): Records
      reads this`queue, this`interrupted, this`halted
    {
      RecordsOf(queue, interrupted, halted)
    }

    // ----- What others do

    /** `receive_command`: a known id is left alone. */
    method Receive(id: string, command: Command, ghost claim: Option<string>)
      requires ValidBut(claim)
      modifies this`queue
      ensures ValidBut(claim)
      ensures queue == if id in old(queue).commands then old(queue) else old(queue).Add(id, command)
    {
      if id !in queue.commands {
        SoundAfterArrival(queue, drivers, workspaces, concurrency, claim, id, command);
        queue := queue.Add(id, command);
      }
    }

    /** A driver's task ends; its claim is settled unless it was settled for it. */
    method Finish(id: string, end: DriverEnd, turn: Option<TurnState>, ghost claim: Option<string>)
      requires ValidBut(claim) && id in drivers && !drivers[id]
      modifies this`queue, this`drivers
      ensures ValidBut(claim) && drivers == old(drivers)[id := true] && id in old(queue).status
      ensures queue == if old(queue).status[id] == Claimed
                       then old(queue).Set(id, Acknowledged(end, turn)) else old(queue)
      ensures old(queue).status[id] == Claimed ==>
              && (queue.status[id] == Applied <==> end.Driven? && turn.Some? && turn.value != Running)
              && (queue.status[id] == Pending <==>
                  end.Offline? || end.Busy? || (end.Driven? && (turn.None? || turn.value == Running)))
              && (queue.status[id] == Rejected <==> end.Unsubmitted?)
              && (queue.status[id] == Blocked <==> end.Unaccepted? || end.Broken?)
    {
      SoundAfterEnd(queue, drivers, workspaces, concurrency, claim, id, Acknowledged(end, turn));
      if queue.status[id] == Claimed {
        queue := queue.Set(id, Acknowledged(end, turn));
      }
      drivers := drivers[id := true];
    }

    method Happen(event: Happening, ghost claim: Option<string>)
      requires ValidBut(claim)
      modifies this`queue, this`drivers
      ensures ValidBut(claim) && Elapsed(old(queue), old(drivers), queue, drivers)
      ensures (queue, drivers) == Happened(old(queue), old(drivers), event)
    {
      ghost var q := queue;
      match event
      case Arrives(id, command) =>
        Receive(id, command, claim);
        ArrivalElapses(q, drivers, workspaces, concurrency, claim, id, command);
      case Ends(id, end, turn) =>
        ArrivalElapses(q, drivers, workspaces, concurrency, claim, id, Command(Start, "", []));
        if id in drivers && !drivers[id] {
          EndElapses(q, drivers, workspaces, concurrency, claim, id, Acknowledged(end, turn));
          Finish(id, end, turn, claim);
        }
    }

    /** Anything may happen while the tick waits for the store, but for what the tick itself decides. */
    method Elsewhere(ghost claim: Option<string>)
      requires ValidBut(claim)
      modifies this`waits, this`queue, this`drivers
      ensures ValidBut(claim) && Elapsed(old(queue), old(drivers), queue, drivers)
      ensures SameDrivers(old(drivers), drivers)
      ensures claim.Some? && claim.value in old(queue).commands ==>
              claim.value in queue.commands && queue.commands[claim.value] == old(queue).commands[claim.value]
      ensures claim.Some? && claim.value in old(queue).status ==>
              claim.value in queue.status && queue.status[claim.value] == old(queue).status[claim.value]
      ensures Marks() == old(Marks())
      ensures (queue, drivers) == AllHappened(old(queue), old(drivers), others(old(waits))) && waits == old(waits) + 1
    {
      HappenAll(others(waits), claim);
      waits := waits + 1;
    }

    method HappenAll(events: seq<Happening>, ghost claim: Option<string>)
      requires ValidBut(claim)
      modifies this`queue, this`drivers
      ensures ValidBut(claim) && Elapsed(old(queue), old(drivers), queue, drivers)
      ensures (queue, drivers) == AllHappened(old(queue), old(drivers), events)
    {
      for i := 0 to |events|
        invariant ValidBut(claim) && Elapsed(old(queue), old(drivers), queue, drivers)
        invariant (queue, drivers) == AllHappened(old(queue), old(drivers), events[..i])
      {
        ghost var q, d := queue, drivers;
        Happen(events[i], claim);
        ElapsedMore(old(queue), old(drivers), q, d, queue, drivers);
        OneMoreHappened(old(queue), old(drivers), events, i);
      }
      assert events[..|events|] == events;
    }

    // ----- Stopping and claiming

    /** `_stop_admission`; a claim in hand goes back to the queue. */
    method StopAdmission(claim: Option<string>) returns (stopped: bool)
      requires ValidBut(claim) && Going(log)
      modifies this`checks, this`queue, this`log
      ensures ValidBut(if stopped then None else claim) && Obedient(log) && old(log) <= log
      ensures stopped == stops(old(checks)) && checks == old(checks) + 1
      ensures if stopped then Checked(true) in log else Going(log) && log == old(log) + [Checked(false)]
      ensures queue == if stopped && claim.Some? then old(queue).Set(claim.value, Pending) else old(queue)
      ensures stopped ==>
              log == old(log) + ([Checked(true)] + if claim.Some? then [Released(claim.value, Pending)] else [])
      ensures Drives(old(log), log) && Marks() == old(Marks()) && Admitted(log) == Admitted(old(log))
    {
      stopped := stops(checks);
      checks := checks + 1;
      if stopped {
        StopFits(log, claim);
        log := log + Stop(claim);
        if claim.Some? {
          SoundAfterSettling(queue, drivers, workspaces, concurrency, claim.value, Pending);
          queue := queue.Set(claim.value, Pending);
        }
      } else {
        GoFits(log);
        log := log + [Checked(false)];
      }
    }

    method Settle(id: string, to: Status)
      requires ValidBut(Some(id)) && to != Claimed && Going(log)
      modifies this`queue, this`log
      ensures Valid() && queue == old(queue).Set(id, to) && log == old(log) + [Released(id, to)] && Going(log)
      ensures Marks() == old(Marks()) && Drives(old(log), log) && Admitted(log) == Admitted(old(log))
    {
      AdmittedOne(log, Released(id, to));
      DrivesOne(log, Released(id, to));
      GoingOn(log, Released(id, to));
      SoundAfterSettling(queue, drivers, workspaces, concurrency, id, to);
      queue := queue.Set(id, to);
      log := log + [Released(id, to)];
    }

    /** `claim_next`: the store's choice, which is arbitrary, or none. */
    method ClaimNext(control: bool, choice: Option<string>) returns (id: Option<string>)
      requires Valid() && Going(log) && log != [] && log[|log| - 1] == Checked(false)
      modifies this`queue, this`log
      ensures ValidBut(id) && Going(log) && Marks() == old(Marks())
      ensures id.None? <==> NothingFor(old(queue), drivers, control, choice)
      ensures id == if Claimable(old(queue), drivers, control, choice) then choice else None
      ensures queue == if id.Some? then old(queue).Set(id.value, Claimed) else old(queue)
      ensures log == old(log) + [if id.Some? then Took(id.value, control) else Nothing(control, queue, drivers)]
    {
      id := None;
      NothingClaimable(queue, drivers, control, choice);
      if Claimable(queue, drivers, control, choice) {
        id := choice;
        SoundAfterClaim(queue, drivers, workspaces, concurrency, choice.value);
        queue := queue.Set(choice.value, Claimed);
        GoingOn(log, Took(choice.value, control));
        log := log + [Took(choice.value, control)];
      } else {
        GoingOn(log, Nothing(control, queue, drivers));
        log := log + [Nothing(control, queue, drivers)];
      }
    }

    /** Claiming, and waiting for the store before and after. */
    method Claim(control: bool, choice: Option<string>) returns (id: Option<string>)
      requires Valid() && Going(log) && log != [] && log[|log| - 1] == Checked(false)
      modifies this`waits, this`queue, this`drivers, this`log
      ensures ValidBut(id) && Going(log) && Marks() == old(Marks())
      ensures log == old(log) + [if id.Some? then Took(id.value, control) else Nothing(control, queue, drivers)]
      ensures Admitted(log) == Admitted(old(log)) + if id.Some? && !control then 1 else 0
      ensures waits == old(waits) + if id.Some? then 2 else 1
      ensures SameDrivers(old(drivers), drivers)
      ensures if id.None? then NothingFor(queue, drivers, control, choice)
              else && id == choice && id.value in queue.commands && IsControl(queue.commands[id.value]) == control
                   && id.value in queue.status && queue.status[id.value] == Claimed
    {
      ghost var start := log;
      Elsewhere(None);
      id := ClaimNext(control, choice);
      AdmittedOne(start, log[|log| - 1]);
      if id.Some? {
        Elsewhere(id);
      }
    }

    // ----- Control commands

    /**
     `_control`, one transaction and then the tasks: a cancellation is put on record and queues the
     finishing command, or rejects the starts of a turn that never began; it interrupts the drivers
     of the turn and, in any live session or descendant of one, its task.
     */
    method Control(id: string, finish: string, f: Facts)
      requires ValidBut(Some(id)) && id in queue.commands && IsControl(queue.commands[id]) && Going(log)
      modifies this`queue, this`interrupted, this`halted, this`log
      ensures Valid() && Going(log) && id in old(queue).commands && queue == AfterControl(old(queue), id, finish, f)
      ensures log == old(log) + [Controlled(id, finish, f, old(queue), drivers, queue)]
      ensures interrupted == old(interrupted) + Driving(old(queue), drivers, id, finish, f)
      ensures halted == old(halted) + Halting(old(queue), sessions, id, finish, f)
    {
      var before, live := queue, drivers;
      SettleControl(id, finish, f);
      Interrupt(before, live, id, finish, f);
    }

    /** The tasks of a cancelled turn, in this host's drivers and in live sessions. */
    method Interrupt(q: Queue, live: map<string, bool>, id: string, finish: string, f: Facts)
      requires id in q.commands
      modifies this`interrupted, this`halted
      ensures interrupted == old(interrupted) + Driving(q, live, id, finish, f)
      ensures halted == old(halted) + Halting(q, sessions, id, finish, f)
    {
      if Cancels(q, id, finish, f) {
        var reached := InterruptChildren(sessions, q.commands[id].turn);
        interrupted, halted := interrupted + Driving(q, live, id, finish, f), halted + reached;
      }
    }

    method SettleControl(id: string, finish: string, f: Facts)
      requires ValidBut(Some(id)) && id in queue.commands && Going(log)
      modifies this`queue, this`log
      ensures Valid() && Going(log) && queue == AfterControl(old(queue), id, finish, f)
      ensures log == old(log) + [Controlled(id, finish, f, old(queue), drivers, queue)]
    {
      ControlGivesUp(queue, id, finish, f);
      var after := ApplyControl(queue, id, finish, f);
      SoundAfterControl(queue, drivers, workspaces, concurrency, id, after);
      GoingOn(log, Controlled(id, finish, f, queue, drivers, after));
      log := log + [Controlled(id, finish, f, queue, drivers, after)];
      queue := after;
    }

    /** One round of the control loop; returns whether another may follow, and whether stopping was observed. */
    method ControlOne(choice: Option<string>, finish: string, f: Facts)
      returns (more: bool, stopped: bool, ghost tail: seq<Event>)
      requires Valid() && Going(log)
      modifies this`checks, this`waits, this`queue, this`interrupted, this`halted, this`drivers, this`log
      ensures Valid() && Obedient(log) && SameDrivers(old(drivers), drivers)
      ensures if stopped then Checked(true) in log else Going(log)
      ensures log == old(log) + tail && Round(tail, choice, more, stopped)
      ensures Adds(tail, old(Marks()))
    {
      ghost var start, before := log, drivers;
      stopped := WaitAndLook();
      if stopped {
        more, tail := false, [Checked(true)];
        RoundStops(choice);
      } else {
        ghost var middle := drivers;
        more, stopped, tail := TakeAndApply(choice, finish, f);
        SameDriversOn(before, middle, drivers);
        EventFirst(start, Checked(false), tail);
        RoundFrom(tail, choice, more, stopped);
        tail := [Checked(false)] + tail;
      }
    }

    method WaitAndLook() returns (stopped: bool)
      requires Valid() && Going(log)
      modifies this`checks, this`waits, this`queue, this`drivers, this`log
      ensures Valid() && Obedient(log) && SameDrivers(old(drivers), drivers)
      ensures if stopped then Checked(true) in log else Going(log)
      ensures log == old(log) + [Checked(stopped)] && Marks() == old(Marks()) && Admitted(log) == Admitted(old(log))
      ensures waits == old(waits) + 1
    {
      Elsewhere(None);
      stopped := StopAdmission(None);
    }

    /** The last event of the log's tail says what is new on record. */
    ghost predicate Adds(tail: seq<Event>, before: Records)
      reads this`queue, this`interrupted, this`halted, this`sessions
    {
      tail != [] && Marks() == Noted(tail[|tail| - 1], sessions, before)
    }

    /** The rest of a round that did not begin stopped. */
    method TakeAndApply(choice: Option<string>, finish: string, f: Facts)
      returns (more: bool, stopped: bool, ghost tail: seq<Event>)
      requires Valid() && Going(log) && log != [] && log[|log| - 1] == Checked(false)
      modifies this`checks, this`waits, this`queue, this`interrupted, this`halted, this`drivers, this`log
      ensures Valid() && Obedient(log) && SameDrivers(old(drivers), drivers)
      ensures if stopped then Checked(true) in log else Going(log)
      ensures log == old(log) + tail && Taking(tail, choice, more, stopped)
      ensures Adds(tail, old(Marks()))
    {
      more, stopped := false, false;
      ghost var start := log;
      var id := Claim(true, choice);
      if id.Some? {
        ghost var rest;
        stopped, rest := Apply(id.value, finish, f);
        more := !stopped;
        TakingTook(id.value, rest, stopped);
        EventFirst(start, Took(id.value, true), rest);
        tail := [Took(id.value, true)] + rest;
      } else {
        GoingIsObedient(log);
        tail := [Nothing(true, queue, drivers)];
      }
    }

    /** A control command in hand: back to the queue when stopping, else applied. */
    method Apply(id: string, finish: string, f: Facts) returns (stopped: bool, ghost tail: seq<Event>)
      requires ValidBut(Some(id)) && id in queue.commands && IsControl(queue.commands[id]) && Going(log)
      requires id in queue.status && queue.status[id] == Claimed
      modifies this`checks, this`waits, this`queue, this`interrupted, this`halted, this`drivers, this`log
      ensures Valid() && Obedient(log) && SameDrivers(old(drivers), drivers)
      ensures if stopped then Checked(true) in log else Going(log)
      ensures log == old(log) + tail && Answer(tail, id, stopped)
      ensures !stopped ==> tail[1].finish == finish && tail[1].facts == f && queue == tail[1].after
      ensures Adds(tail, old(Marks()))
    {
      stopped := StopAdmission(Some(id));
      if stopped {
        tail := [Checked(true), Released(id, Pending)];
        assert tail[1] == Released(id, Pending) && Marks() == old(Marks());
      } else {
        ghost var marks := Marks();
        ghost var event := WaitAndControl(id, finish, f);
        tail := [Checked(false), event];
        assert tail[1] == event && Marks() == Noted(event, sessions, marks);
      }
    }

    method WaitAndControl(id: string, finish: string, f: Facts) returns (ghost event: Event)
      requires ValidBut(Some(id)) && id in queue.commands && IsControl(queue.commands[id]) && Going(log)
      requires id in queue.status && queue.status[id] == Claimed
      modifies this`waits, this`queue, this`interrupted, this`halted, this`drivers, this`log
      ensures Valid() && Going(log) && Obedient(log) && SameDrivers(old(drivers), drivers)
      ensures log == old(log) + [event] && Applies(event, id)
      ensures event.finish == finish && event.facts == f && queue == event.after && waits == old(waits) + 1
      ensures Marks() == Noted(event, sessions, old(Marks()))
    {
      Elsewhere(Some(id));
      ControlRecorded(queue, drivers, sessions, id, finish, f, interrupted, halted);
      event := Controlled(id, finish, f, queue, drivers, AfterControl(queue, id, finish, f));
      Control(id, finish, f);
      GoingIsObedient(log);
    }

    /** Up to 64 control commands, ending early only when stopping is observed or none is left. */
    method Controls(choices: nat -> Option<string>, finishes: nat -> string, facts: nat -> Facts)
      returns (stopped: bool)
      requires Valid() && Going(log) && log == [Checked(false)]
      modifies this`checks, this`waits, this`queue, this`interrupted, this`halted, this`drivers, this`log
      ensures Valid() && Obedient(log) && SameDrivers(old(drivers), drivers)
      ensures if stopped then Checked(true) in log else Going(log)
      ensures Served(log, choices, stopped)
      ensures Marks() == Recorded(log, sessions, old(Marks()))
    {
      GoingIsObedient(log);
      NoRounds(log, choices, sessions, Marks());
      var i, more := 0, true;
      stopped := false;
      while i < 64 && more
        invariant i <= 64 && Valid() && Obedient(log) && SameDrivers(old(drivers), drivers)
        invariant if stopped then Checked(true) in log else Going(log)
        invariant Rounds(log, choices, i, more, stopped) && (more ==> !stopped)
        invariant Marks() == Recorded(log, sessions, old(Marks()))
        decreases 64 - i, more
      {
        ghost var before, tail := log, [];
        more, stopped, tail := ControlOne(choices(i), finishes(i), facts(i));
        RoundAdds(before, tail, choices, i, more, stopped);
        RoundRecorded(before, tail, choices(i), more, stopped, sessions, old(Marks()));
        if more { i := i + 1; }
      }
    }

    // ----- Drivers

    /** Drops the drivers whose task is done, from both maps. */
    method Reap()
      requires Valid()
      modifies this`drivers, this`workspaces
      ensures Valid() && drivers == Live(old(drivers))
    {
      var done := set d | d in drivers && drivers[d];
      SoundAfterReaping(queue, drivers, workspaces, concurrency, done);
      drivers, workspaces := drivers - done, workspaces - done;
    }

    /** One try at admitting a driver; returns whether another may follow. */
    method AdmitOne(choice: Option<string>) returns (more: bool)
      requires Valid() && Going(log)
      modifies this`checks, this`waits, this`queue, this`log, this`drivers, this`workspaces
      ensures Valid() && Obedient(log) && Drives(old(log), log) && Grown(old(drivers), drivers, log)
      ensures Marks() == old(Marks())
      ensures Admitted(log) >= Admitted(old(log)) + if more then 1 else 0
      ensures if more then Going(log) else
              Checked(true) in log || |drivers| >= concurrency || NothingFor(queue, drivers, false, choice)
    {
      GoingIsObedient(log);
      more := false;
      if |drivers| < concurrency {
        ghost var before := drivers;
        var id := Take(choice);
        if id.Some? {
          ghost var middle, earlier := drivers, log;
          more := AdmitClaim(id.value);
          GrownMore(before, middle, earlier, drivers, log);
        }
      }
    }

    /** A last look for a stop, and the next command to drive. */
    method Take(choice: Option<string>) returns (id: Option<string>)
      requires Valid() && Going(log) && |drivers| < concurrency
      modifies this`checks, this`waits, this`queue, this`log, this`drivers
      ensures ValidBut(id) && Obedient(log) && Drives(old(log), log) && Grown(old(drivers), drivers, log)
      ensures Marks() == old(Marks())
      ensures id.None? ==> Checked(true) in log || NothingFor(queue, drivers, false, choice)
      ensures Admitted(log) == Admitted(old(log)) + if id.Some? then 1 else 0
      ensures id.Some? ==>
              && id == choice && Going(log) && id.value in queue.commands && !IsControl(queue.commands[id.value])
              && |drivers| < concurrency
    {
      id := None;
      ghost var start := log;
      var stopped := StopAdmission(None);
      if !stopped {
        ghost var before, checked := drivers, log;
        id := Claim(false, choice);
        DrivesOne(checked, log[|log| - 1]);
        DrivesOn(start, checked, log);
        GoingIsObedient(log);
        SameIsGrown(before, drivers, log);
      }
    }

    /** A claim in hand: back to the queue when stopping or when its workspace is busy, else a driver. */
    method AdmitClaim(id: string) returns (more: bool)
      requires ValidBut(Some(id)) && !IsControl(queue.commands[id]) && |drivers| < concurrency && Going(log)
      modifies this`checks, this`queue, this`log, this`drivers, this`workspaces
      ensures Valid() && Obedient(log) && Drives(old(log), log) && Grown(old(drivers), drivers, log)
      ensures Marks() == old(Marks()) && Admitted(log) == Admitted(old(log))
      ensures more == !stops(old(checks)) && if more then Going(log) else Checked(true) in log
      ensures id in old(queue).commands
      ensures if more && old(queue).commands[id].workspace !in old(workspaces).Values
              then drivers == old(drivers)[id := false] && queue == old(queue)
              else drivers == old(drivers) && queue == old(queue).Set(id, Pending)
    {
      ghost var start := log;
      var stopped := StopAdmission(Some(id));
      more := !stopped;
      if !stopped {
        ghost var checked := log;
        StartOrSettle(id);
        DrivesOn(start, checked, log);
        GoingIsObedient(log);
      }
    }

    method StartOrSettle(id: string)
      requires ValidBut(Some(id)) && !IsControl(queue.commands[id]) && |drivers| < concurrency && Going(log)
      requires log != [] && log[|log| - 1] == Checked(false)
      modifies this`queue, this`log, this`drivers, this`workspaces
      ensures Valid() && Going(log) && Drives(old(log), log) && Grown(old(drivers), drivers, log)
      ensures Marks() == old(Marks()) && id in old(queue).commands && Admitted(log) == Admitted(old(log))
      ensures if old(queue).commands[id].workspace !in old(workspaces).Values
              then drivers == old(drivers)[id := false] && queue == old(queue)
              else drivers == old(drivers) && queue == old(queue).Set(id, Pending)
    {
      if queue.commands[id].workspace in workspaces.Values {
        Settle(id, Pending);
      } else {
        StartDriver(id);
      }
    }

    method StartDriver(id: string)
      requires ValidBut(Some(id)) && !IsControl(queue.commands[id]) && |drivers| < concurrency && Going(log)
      requires queue.commands[id].workspace !in workspaces.Values
      requires log != [] && log[|log| - 1] == Checked(false)
      modifies this`log, this`drivers, this`workspaces
      ensures Valid() && Going(log) && log == old(log) + [Started(id)] && Drives(old(log), log)
      ensures Admitted(log) == Admitted(old(log))
      ensures drivers == old(drivers)[id := false] && Started(id) in log
      ensures workspaces == old(workspaces)[id := queue.commands[id].workspace]
    {
      AdmittedOne(log, Started(id));
      DrivesOne(log, Started(id));
      GoingOn(log, Started(id));
      log := log + [Started(id)];
      assert log[|log| - 1] in log;
      SoundAfterStart(queue, drivers, workspaces, concurrency, id);
      drivers, workspaces := drivers[id := false], workspaces[id := queue.commands[id].workspace];
    }

    /** Each try took a command, and no more could be admitted: stopping, full, out of tries, or nothing to claim. */
    ghost predicate Exhausted(choices: nat -> Option<string>, tries: nat)
      reads this`queue, this`drivers, this`log
    {
      && tries <= Admitted(log)
      && (|| Checked(true) in log || |drivers| >= concurrency || tries == concurrency * 2
          || NothingFor(queue, drivers, false, choices(tries)))
    }

    /** Admission of drivers: twice the bound in tries, never more than the bound at once. */
    method Admit(choices: nat -> Option<string>) returns (ghost tries: nat)
      requires Valid() && Going(log)
      modifies this`checks, this`waits, this`queue, this`log, this`drivers, this`workspaces
      ensures Valid() && Obedient(log) && Drives(old(log), log) && Grown(old(drivers), drivers, log)
      ensures Marks() == old(Marks())
      ensures Exhausted(choices, tries)
    {
      GoingIsObedient(log);
      var i, more := 0, true;
      while i < concurrency * 2 && more
        invariant i <= concurrency * 2 && Valid() && Obedient(log) && Drives(old(log), log) && Marks() == old(Marks())
        invariant if more then Going(log) else Exhausted(choices, i)
        invariant Grown(old(drivers), drivers, log) && i <= Admitted(log)
        decreases concurrency * 2 - i, more
      {
        ghost var middle, earlier := drivers, log;
        more := AdmitOne(choices(i));
        GrownMore(old(drivers), middle, earlier, drivers, log);
        if more { i := i + 1; }
      }
      tries := i;
    }

    method ReapAndAdmit(choices: nat -> Option<string>) returns (ghost tries: nat)
      requires Valid() && Going(log)
      modifies this`checks, this`waits, this`queue, this`log, this`drivers, this`workspaces
      ensures Valid() && Obedient(log) && Drives(old(log), log) && Grown(Live(old(drivers)), drivers, log)
      ensures Marks() == old(Marks())
      ensures Exhausted(choices, tries)
    {
      Reap();
      tries := WaitAndAdmit(choices);
    }

    method WaitAndAdmit(choices: nat -> Option<string>) returns (ghost tries: nat)
      requires Valid() && Going(log)
      modifies this`checks, this`waits, this`queue, this`log, this`drivers, this`workspaces
      ensures Valid() && Obedient(log) && Drives(old(log), log) && Grown(old(drivers), drivers, log)
      ensures Marks() == old(Marks())
      ensures Exhausted(choices, tries)
    {
      ghost var kept, start := drivers, log;
      tries := 0;
      var stopped := WaitAndLook();
      SameIsGrown(kept, drivers, log);
      DrivesOne(start, Checked(stopped));
      if !stopped {
        ghost var checked := log;
        tries := WakeAndAdmit(choices, kept);
        DrivesOn(start, checked, log);
      }
    }

    /** The wake-ups are commands that arrive. */
    method WakeAndAdmit(choices: nat -> Option<string>, ghost kept: map<string, bool>) returns (ghost tries: nat)
      requires Valid() && Going(log) && SameDrivers(kept, drivers)
      modifies this`checks, this`waits, this`queue, this`log, this`drivers, this`workspaces
      ensures Valid() && Obedient(log) && Drives(old(log), log) && Grown(kept, drivers, log)
      ensures Marks() == old(Marks())
      ensures Exhausted(choices, tries)
    {
      Elsewhere(None);
      SameIsGrown(kept, drivers, log);
      ghost var middle, earlier := drivers, log;
      tries := Admit(choices);
      GrownMore(kept, middle, earlier, drivers, log);
    }

    /**
     One whole tick. Whatever the store hands out, whatever others do meanwhile, and whenever stopping
     is observed: the bound and the one driver a workspace hold, every claim is driven or given back,
     only drivers that were done are dropped, and nothing is taken or started unless the check just
     before found no stop. First up to 64 control commands are served, and a driver is taken only when
     none was left; what they leave on record is all that is left there. `seen`: the drivers when they
     were reaped, or at the end; `first`: the log up to there, about control commands.
     */
    method Tick(controls: nat -> Option<string>, finishes: nat -> string, facts: nat -> Facts,
                choices: nat -> Option<string>)
      returns (ghost tries: nat, ghost seen: map<string, bool>, ghost first: seq<Event>)
      requires Valid()
      modifies this`checks, this`waits, this`queue, this`interrupted, this`halted
      modifies this`drivers, this`workspaces, this`log
      ensures Valid() && Obedient(log) && SameDrivers(old(drivers), seen)
      ensures Grown(Live(seen), drivers, log) || (drivers == seen && Checked(true) in log)
      ensures Exhausted(choices, tries)
      ensures stops(old(checks)) ==> log == [Checked(true)] && drivers == old(drivers) && queue == old(queue)
      ensures Serves(first, controls, old(Marks()))
    {
      tries, seen := 0, drivers;
      var stopped := Begin();
      first := log;
      if stopped {
        ServesNone(controls);
      } else {
        tries, seen, first := Serve(controls, finishes, facts, choices);
      }
    }

    method Begin() returns (stopped: bool)
      requires Valid()
      modifies this`checks, this`queue, this`log
      ensures Valid() && log == [Checked(stopped)] && Obedient(log) && (!stopped ==> Going(log))
      ensures stopped == stops(old(checks)) && queue == old(queue)
    {
      log := [];
      stopped := StopAdmission(None);
    }

    /**
     `first` is all of the log that is about control commands: up to 64 are served, ending early only on a
     stop or with none left, and what they left on record is all that came on record.
     */
    ghost predicate Serves(first: seq<Event>, controls: nat -> Option<string>, before: Records)
      reads this`queue, this`interrupted, this`halted, this`sessions, this`log
    {
      && Drives(first, log) && Served(first, controls, Checked(true) in first)
      && Marks() == Recorded(first, sessions, before)
    }

    lemma ServesNone(controls: nat -> Option<string>)
      requires log == [Checked(true)]
      ensures Serves(log, controls, Marks())
    {
      StoppedAtOnce(log, controls, sessions, Marks());
    }

    /** The rest of a tick that did not begin stopped. */
    method Serve(controls: nat -> Option<string>, finishes: nat -> string, facts: nat -> Facts,
                 choices: nat -> Option<string>)
      returns (ghost tries: nat, ghost seen: map<string, bool>, ghost first: seq<Event>)
      requires Valid() && Going(log) && log == [Checked(false)]
      modifies this`checks, this`waits, this`queue, this`interrupted, this`halted
      modifies this`drivers, this`workspaces, this`log
      ensures Valid() && Obedient(log) && SameDrivers(old(drivers), seen)
      ensures Grown(Live(seen), drivers, log) || (drivers == seen && Checked(true) in log)
      ensures Exhausted(choices, tries)
      ensures Serves(first, controls, old(Marks()))
    {
      tries := 0;
      var stopped := Controls(controls, finishes, facts);
      seen, first := drivers, log;
      if !stopped {
        tries := ReapAndAdmit(choices);
      }
    }
  }
}
