/** What a tick does, in order, and what its log shows of the control commands it served. */
module HostLog {
  import opened Paths
  import opened HostQueue

  /**
   What the tick does: it looks for a stop, takes a command or finds none to take, starts a driver,
   gives a claim back, and applies a control command to the queue and the drivers of that moment, with
   the queue it leaves.
   */
  datatype Event =
    | Checked(stopped: bool)
    | Took(id: string, control: bool)
    | Nothing(control: bool, queue: Queue, drivers: map<string, bool>)
    | Started(id: string)
    | Released(id: string, to: Status)
    | Controlled(id: string, finish: string, facts: Facts, queue: Queue, drivers: map<string, bool>, after: Queue)

  /** The store's choice can be claimed: a queued command of the kind that no driver holds. */
  predicate Claimable(q: Queue, drivers: map<string, bool>, control: bool, choice: Option<string>) {
    && choice.Some? && choice.value in q.commands && IsControl(q.commands[choice.value]) == control
    && choice.value !in drivers && choice.value in q.status
    && (q.status[choice.value] == Pending || q.status[choice.value] == Claimed)
  }

  /** The store's choice is no command to take: none of the kind waits or was left claimed without a driver. */
  ghost predicate NothingFor(q: Queue, drivers: map<string, bool>, control: bool, choice: Option<string>) {
    forall id | choice == Some(id) && id in q.commands && id in q.status && id !in drivers
                && control == (q.commands[id].kind == Input || q.commands[id].kind == Cancel) ::
      q.status[id] != Pending && q.status[id] != Claimed
  }

  lemma NothingClaimable(q: Queue, drivers: map<string, bool>, control: bool, choice: Option<string>)
    ensures Claimable(q, drivers, control, choice) <==> !NothingFor(q, drivers, control, choice)
  {
  }

  // ----- Stopping

  /** Commands are taken and drivers started only right after a check that found no stop. */
  ghost predicate Careful(log: seq<Event>) {
    forall i | 0 <= i < |log| && (log[i].Started? || log[i].Took?) :: i > 0 && log[i - 1] == Checked(false)
  }

  /** Careful, and after a check that found the host stopping only releases and checks follow. */
  ghost predicate Obedient(log: seq<Event>) {
    && Careful(log)
    && forall i, j | 0 <= i < j < |log| && log[i] == Checked(true) :: log[j].Released? || log[j].Checked?
  }

  ghost predicate Going(log: seq<Event>) { Careful(log) && Checked(true) !in log }

  lemma GoingOn(log: seq<Event>, e: Event)
    requires Going(log) && e != Checked(true)
    requires e.Started? || e.Took? ==> log != [] && log[|log| - 1] == Checked(false)
    ensures Going(log + [e])
  {
    var next := log + [e];
    forall i | 0 <= i < |next| && (next[i].Started? || next[i].Took?) ensures i > 0 && next[i - 1] == Checked(false) {
      if i < |log| {
        assert next[i] == log[i];
      }
    }
  }

  lemma GoingIsObedient(log: seq<Event>)
    requires Going(log)
    ensures Obedient(log)
  {
    forall i | 0 <= i < |log| ensures log[i] != Checked(true) {
      assert log[i] in log;
    }
  }

  lemma Stopping(log: seq<Event>, tail: seq<Event>)
    requires Going(log) && forall e | e in tail :: e.Released? || e.Checked?
    ensures Obedient(log + tail)
  {
    var all := log + tail;
    forall i | 0 <= i < |log| ensures log[i] != Checked(true) {
      assert log[i] in log;
    }
    forall i | 0 <= i < |all| ensures (i < |log| && all[i] == log[i]) || all[i].Released? || all[i].Checked? {
      if i >= |log| {
        assert all[i] == tail[i - |log|] && tail[i - |log|] in tail;
      }
    }
  }

  // ----- Serving control commands

  predicate TakesControl(e: Event) { e.Took? && e.control }

  /** How many control commands the first `n` events take. */
  function TakenTo(log: seq<Event>, n: nat): nat
    requires n <= |log|
  {
    if n == 0 then 0 else TakenTo(log, n - 1) + if TakesControl(log[n - 1]) then 1 else 0
  }

  function Taken(log: seq<Event>): nat { TakenTo(log, |log|) }

  lemma {:induction false} TakenJoins(a: seq<Event>, b: seq<Event>, n: nat)
    requires n <= |a + b|
    ensures TakenTo(a + b, n) == if n <= |a| then TakenTo(a, n) else Taken(a) + TakenTo(b, n - |a|)
  {
    if n > 0 {
      TakenJoins(a, b, n - 1);
    }
  }

  /** A control command taken is given back to the queue on a stop, and otherwise applied while it is claimed. */
  ghost predicate AnsweredAt(log: seq<Event>, i: nat) {
    && i + 2 < |log| && TakesControl(log[i])
    && if log[i + 1] == Checked(true) then log[i + 2] == Released(log[i].id, Pending)
       else log[i + 1] == Checked(false) && Applies(log[i + 2], log[i].id)
  }

  /** The command was claimed, and the queue is left as control commands leave it. */
  ghost predicate Applies(e: Event, id: string) {
    && e.Controlled? && e.id == id && id in e.queue.commands
    && id in e.queue.status && e.queue.status[id] == Claimed
    && e.after == AfterControl(e.queue, id, e.finish, e.facts)
  }

  ghost predicate Answered(log: seq<Event>) {
    forall i: nat | i < |log| && TakesControl(log[i]) :: AnsweredAt(log, i)
  }

  lemma AnsweredJoins(a: seq<Event>, b: seq<Event>)
    requires Answered(a) && Answered(b)
    ensures Answered(a + b)
  {
    forall i: nat | i < |a + b| && TakesControl((a + b)[i]) ensures AnsweredAt(a + b, i) {
      if i < |a| {
        assert AnsweredAt(a, i);
      } else {
        assert AnsweredAt(b, i - |a|);
      }
    }
  }

  /** No driver is taken or started yet. */
  ghost predicate OnlyControls(log: seq<Event>) {
    forall i | 0 <= i < |log| :: !log[i].Started? && (log[i].Took? ==> log[i].control)
  }

  /** From here on no control command is taken or applied. */
  ghost predicate Drives(before: seq<Event>, log: seq<Event>) {
    before <= log && forall i | |before| <= i < |log| :: !TakesControl(log[i]) && !log[i].Controlled?
  }

  lemma DrivesOne(log: seq<Event>, e: Event)
    requires !TakesControl(e) && !e.Controlled?
    ensures Drives(log, log + [e])
  {
  }

  lemma DrivesOn(a: seq<Event>, b: seq<Event>, c: seq<Event>)
    requires Drives(a, b) && Drives(b, c)
    ensures Drives(a, c)
  {
  }

  /** The `k`th control command taken is the store's choice of that round. */
  ghost predicate InOrder(log: seq<Event>, choices: nat -> Option<string>) {
    forall i: nat | i < |log| && TakesControl(log[i]) :: ChosenAt(log, choices, 0, i)
  }

  ghost predicate ChosenAt(log: seq<Event>, choices: nat -> Option<string>, before: nat, i: nat) {
    i < |log| && TakesControl(log[i]) && choices(before + TakenTo(log, i)) == Some(log[i].id)
  }

  lemma InOrderJoins(a: seq<Event>, b: seq<Event>, choices: nat -> Option<string>)
    requires InOrder(a, choices)
    requires forall i: nat | i < |b| && TakesControl(b[i]) :: ChosenAt(b, choices, Taken(a), i)
    ensures InOrder(a + b, choices)
  {
    forall i: nat | i < |a + b| && TakesControl((a + b)[i]) ensures ChosenAt(a + b, choices, 0, i) {
      TakenJoins(a, b, i);
      if i < |a| {
        assert ChosenAt(a, choices, 0, i);
      } else {
        assert ChosenAt(b, choices, Taken(a), i - |a|);
      }
    }
  }

  // ----- What control commands leave on record

  /** The drivers and sessions asked to stop, the turns with a cancellation on record, the inputs delivered. */
  datatype Records = Records(
    interrupted: set<string>, halted: set<string>, cancelled: set<string>, delivered: set<string>)

  /** What an event adds to the records. */
  function Noted(e: Event, sessions: seq<Session>, r: Records): Records {
    if !e.Controlled? || e.id !in e.queue.commands then r
    else
      Records(r.interrupted + Driving(e.queue, e.drivers, e.id, e.finish, e.facts),
              r.halted + Halting(e.queue, sessions, e.id, e.finish, e.facts),
              r.cancelled + e.after.cancelled, r.delivered + e.after.delivered)
  }

  function Recorded(log: seq<Event>, sessions: seq<Session>, r: Records): Records {
    if log == [] then r else Noted(log[|log| - 1], sessions, Recorded(log[..|log| - 1], sessions, r))
  }

  lemma {:induction false} RecordedJoins(a: seq<Event>, b: seq<Event>, sessions: seq<Session>, r: Records)
    ensures Recorded(a + b, sessions, r) == Recorded(b, sessions, Recorded(a, sessions, r))
    decreases |b|
  {
    if b == [] {
      assert a + b == a;
    } else {
      var init := b[..|b| - 1];
      assert (a + b)[..|a + b| - 1] == a + init && (a + b)[|a + b| - 1] == b[|b| - 1];
      RecordedJoins(a, init, sessions, r);
    }
  }

  // ----- Admitting drivers

  /** How many commands the first `n` events take for a driver. */
  function AdmittedTo(log: seq<Event>, n: nat): nat
    requires n <= |log|
  {
    if n == 0 then 0 else AdmittedTo(log, n - 1) + if log[n - 1].Took? && !log[n - 1].control then 1 else 0
  }

  function Admitted(log: seq<Event>): nat { AdmittedTo(log, |log|) }

  lemma {:induction false} AdmittedPrefix(log: seq<Event>, more: seq<Event>, n: nat)
    requires n <= |log| && log <= more
    ensures AdmittedTo(more, n) == AdmittedTo(log, n)
  {
    if n > 0 {
      AdmittedPrefix(log, more, n - 1);
    }
  }

  lemma AdmittedOne(log: seq<Event>, e: Event)
    ensures Admitted(log + [e]) == Admitted(log) + if e.Took? && !e.control then 1 else 0
  {
    AdmittedPrefix(log, log + [e], |log|);
  }

  lemma {:induction false} NoneAdmitted(log: seq<Event>, n: nat)
    requires OnlyControls(log) && n <= |log|
    ensures AdmittedTo(log, n) == 0
  {
    if n > 0 {
      NoneAdmitted(log, n - 1);
    }
  }

  /** Stopping is seen, and a claim in hand given back. */
  function Stop(claim: Option<string>): seq<Event> {
    [Checked(true)] + if claim.Some? then [Released(claim.value, Pending)] else []
  }

  lemma StopFits(log: seq<Event>, claim: Option<string>)
    requires Going(log)
    ensures Obedient(log + Stop(claim)) && Checked(true) in log + Stop(claim)
    ensures Drives(log, log + Stop(claim)) && Admitted(log + Stop(claim)) == Admitted(log)
  {
    var tail := Stop(claim);
    Stopping(log, tail);
    assert (log + tail)[|log|] == Checked(true);
    AdmittedOne(log, Checked(true));
    if claim.Some? {
      AdmittedOne(log + [Checked(true)], Released(claim.value, Pending));
      assert log + tail == log + [Checked(true)] + [Released(claim.value, Pending)];
    } else {
      assert log + tail == log + [Checked(true)];
    }
  }

  /** No stop is seen. */
  lemma GoFits(log: seq<Event>)
    requires Going(log)
    ensures Going(log + [Checked(false)]) && Obedient(log + [Checked(false)])
    ensures Drives(log, log + [Checked(false)]) && Admitted(log + [Checked(false)]) == Admitted(log)
  {
    GoingOn(log, Checked(false));
    GoingIsObedient(log + [Checked(false)]);
    AdmittedOne(log, Checked(false));
  }

  // ----- One round, and all of them

  /** A round of the control loop: a stop, nothing to take, or a command taken and answered. */
  ghost predicate Round(tail: seq<Event>, choice: Option<string>, more: bool, stopped: bool) {
    || (stopped && !more && tail == [Checked(true)])
    || (!stopped && !more && |tail| == 2 && tail[0] == Checked(false) && tail[1].Nothing?
        && NothingFor(tail[1].queue, tail[1].drivers, true, choice))
    || (more == !stopped && choice.Some? && |tail| == 4
        && tail[0] == Checked(false) && tail[1] == Took(choice.value, true) && tail[2] == Checked(stopped)
        && AnsweredAt(tail, 1) && (tail[3].Released? || tail[3].Controlled?))
  }

  /** So many rounds: all the commands taken are control commands, answered, and chosen by the store in order. */
  ghost predicate Rounds(log: seq<Event>, choices: nat -> Option<string>, k: nat, more: bool, stopped: bool) {
    && OnlyControls(log) && Answered(log) && InOrder(log, choices)
    && (!stopped ==> Taken(log) == k)
    && (!more && !stopped ==>
          && log != [] && log[|log| - 1].Nothing?
          && NothingFor(log[|log| - 1].queue, log[|log| - 1].drivers, true, choices(k)))
  }

  lemma RoundCounts(tail: seq<Event>, choice: Option<string>, more: bool, stopped: bool)
    requires Round(tail, choice, more, stopped)
    ensures OnlyControls(tail) && Answered(tail)
    ensures forall i: nat | i < |tail| && TakesControl(tail[i]) :: choice == Some(tail[i].id) && TakenTo(tail, i) == 0
    ensures !stopped ==> Taken(tail) == if more then 1 else 0
  {
    assert TakenTo(tail, 1) == 0;
    if |tail| > 1 {
      assert TakenTo(tail, 2) == if |tail| == 4 then 1 else 0;
    }
    if |tail| == 4 {
      assert TakenTo(tail, 3) == 1;
    }
  }

  lemma RoundAdds(log: seq<Event>, tail: seq<Event>, choices: nat -> Option<string>, k: nat, more: bool, stopped: bool)
    requires Rounds(log, choices, k, true, false) && Round(tail, choices(k), more, stopped)
    ensures Rounds(log + tail, choices, if more then k + 1 else k, more, stopped)
  {
    RoundCounts(tail, choices(k), more, stopped);
    TakenJoins(log, tail, |log + tail|);
    AnsweredJoins(log, tail);
    forall i: nat | i < |tail| && TakesControl(tail[i]) ensures ChosenAt(tail, choices, Taken(log), i) {
    }
    InOrderJoins(log, tail, choices);
    assert !more && !stopped ==> (log + tail)[|log + tail| - 1] == tail[1];
  }

  /** The answer to a control command in hand. */
  ghost predicate Answer(tail: seq<Event>, id: string, stopped: bool) {
    if stopped then tail == [Checked(true), Released(id, Pending)]
    else |tail| == 2 && tail[0] == Checked(false) && Applies(tail[1], id)
  }

  lemma {:induction false} NothingRecorded(tail: seq<Event>, sessions: seq<Session>, r: Records)
    requires forall i | 0 <= i < |tail| :: !tail[i].Controlled?
    ensures Recorded(tail, sessions, r) == r
    decreases |tail|
  {
    if tail != [] {
      NothingRecorded(tail[..|tail| - 1], sessions, r);
    }
  }

  /** A round after its first check: nothing to take, or a command taken and answered. */
  ghost predicate Taking(tail: seq<Event>, choice: Option<string>, more: bool, stopped: bool) {
    || (!stopped && !more && |tail| == 1 && tail[0].Nothing?
        && NothingFor(tail[0].queue, tail[0].drivers, true, choice))
    || (more == !stopped && choice.Some? && |tail| == 3 && tail[0] == Took(choice.value, true)
        && Answer(tail[1..], choice.value, stopped))
  }

  /** An event before some others: the log grows by all of them, and the last one stays the last. */
  lemma EventFirst(log: seq<Event>, e: Event, rest: seq<Event>)
    requires rest != []
    ensures log + [e] + rest == log + ([e] + rest)
    ensures ([e] + rest)[|[e] + rest| - 1] == rest[|rest| - 1]
  {
  }

  lemma TakingTook(id: string, rest: seq<Event>, stopped: bool)
    requires Answer(rest, id, stopped)
    ensures Taking([Took(id, true)] + rest, Some(id), !stopped, stopped)
  {
    assert ([Took(id, true)] + rest)[1..] == rest;
  }

  lemma RoundStops(choice: Option<string>)
    ensures Round([Checked(true)], choice, false, true)
  {
  }

  lemma RoundFrom(tail: seq<Event>, choice: Option<string>, more: bool, stopped: bool)
    requires Taking(tail, choice, more, stopped)
    ensures Round([Checked(false)] + tail, choice, more, stopped)
  {
    var round := [Checked(false)] + tail;
    if |tail| == 3 {
      assert round[1] == tail[0] && round[2] == tail[1..][0] && round[3] == tail[1..][1];
      assert AnsweredAt(round, 1);
    }
  }

  /** Of a round only the last event can add to the records. */
  lemma RoundRecorded(log: seq<Event>, tail: seq<Event>, choice: Option<string>, more: bool, stopped: bool,
                      sessions: seq<Session>, r: Records)
    requires Round(tail, choice, more, stopped)
    ensures tail != []
    ensures Recorded(log + tail, sessions, r) == Noted(tail[|tail| - 1], sessions, Recorded(log, sessions, r))
  {
    var init, last := tail[..|tail| - 1], tail[|tail| - 1];
    assert (log + tail)[..|log + tail| - 1] == log + init;
    RecordedJoins(log, init, sessions, r);
    NothingRecorded(init, sessions, Recorded(log, sessions, r));
  }

  lemma StoppedAtOnce(log: seq<Event>, choices: nat -> Option<string>, sessions: seq<Session>, r: Records)
    requires log == [Checked(true)]
    ensures Drives(log, log) && Checked(true) in log
    ensures Served(log, choices, true) && Recorded(log, sessions, r) == r
  {
    NoRounds(log, choices, sessions, r);
    assert log[0] in log;
  }

  /** The control commands served before the first driver: 64, or until a stop, or until none is left. */
  ghost predicate Served(log: seq<Event>, choices: nat -> Option<string>, stopped: bool) {
    && OnlyControls(log) && Answered(log) && InOrder(log, choices)
    && (|| stopped || Taken(log) == 64
        || (log != [] && log[|log| - 1].Nothing?
            && NothingFor(log[|log| - 1].queue, log[|log| - 1].drivers, true, choices(Taken(log)))))
  }

  lemma NoRounds(log: seq<Event>, choices: nat -> Option<string>, sessions: seq<Session>, r: Records)
    requires |log| == 1 && log[0].Checked?
    ensures Rounds(log, choices, 0, true, false) && Recorded(log, sessions, r) == r
  {
    assert TakenTo(log, 1) == 0;
    NothingRecorded(log, sessions, r);
  }
}
