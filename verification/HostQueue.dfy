/**
 The store of host commands as a tick sees it: the queue with its claims, how commands are settled,
 and what a cancellation does to the queue and to the live sessions.
 */
module HostQueue {
  import opened Paths

  datatype Status = Pending | Claimed | Applied | Rejected | Blocked
  datatype Kind = Start | Resume | Input | Cancel

  /** A queued command. Inputs and cancellations are settled in the tick; the others get a driver. */
  datatype Command = Command(kind: Kind, turn: string, workspace: Path)

  predicate IsControl(c: Command) { c.kind.Input? || c.kind.Cancel? }

  /** The queue, the turns with a cancellation on record, and the inputs handed to their turn. */
  datatype Queue = Queue(
    commands: map<string, Command>, status: map<string, Status>, cancelled: set<string>, delivered: set<string>)
  {
    ghost predicate Sound() { status.Keys == commands.Keys }

    function Add(id: string, command: Command): Queue {
      this.(commands := commands[id := command], status := status[id := Pending])
    }

    function Set(id: string, to: Status): Queue { this.(status := status[id := to]) }
  }

  datatype TurnState = Running | Waiting | Terminal

  // ----- Settling

  /** What the store says when a control command is applied; failing covers every guard and store error. */
  datatype Facts = Facts(fails: bool, turn: Option<TurnState>, submission: Option<Status>)

  predicate LiveTurn(f: Facts) { f.turn.Some? && !f.turn.value.Terminal? }

  /** The command that aborts a cancelled turn. */
  function Finishing(c: Command): Command { Command(Resume, c.turn, c.workspace) }

  /** The finishing command's id is taken by another command. */
  predicate Conflicts(q: Queue, id: string, finish: string)
    requires id in q.commands
  {
    finish in q.commands && q.commands[finish] != Finishing(q.commands[id])
  }

  /** How a control command is settled. */
  function Verdict(q: Queue, id: string, finish: string, f: Facts): (to: Status)
    requires id in q.commands
    ensures to != Claimed
  {
    if f.fails then Rejected
    else if q.commands[id].kind.Cancel? then
      if LiveTurn(f) && Conflicts(q, id, finish) then Rejected else Applied
    else if f.turn.Some? then Applied
    else if f.submission.None? || f.submission.value.Rejected? || f.submission.value.Blocked? then Rejected
    else Pending
  }

  predicate Cancels(q: Queue, id: string, finish: string, f: Facts)
    requires id in q.commands
  {
    q.commands[id].kind.Cancel? && Verdict(q, id, finish, f) == Applied
  }

  /**
   How a driver's task ends: its turn was driven, was over already or was cancelled; its submission
   had been rejected; its workspace is missing; its conversation is busy; its turn does not accept
   the action; or with an error.
   */
  datatype DriverEnd = Driven | Unsubmitted | Offline | Busy | Unaccepted | Broken

  /** What a driver's end makes of its claim: acknowledged only when its turn has stopped running. */
  function Acknowledged(end: DriverEnd, turn: Option<TurnState>): (to: Status)
    ensures to != Claimed
  {
    match end
    case Driven => if turn.None? || turn.value.Running? then Pending else Applied
    case Unsubmitted => Rejected
    case Offline => Pending
    case Busy => Pending
    case Unaccepted => Blocked
    case Broken => Blocked
  }

  // ----- Cancelling

  /** A start of `turn` still in the queue, claimed or not. */
  predicate QueuedStart(q: Queue, c: string, turn: string) {
    && c in q.commands && q.commands[c].kind.Start? && q.commands[c].turn == turn
    && c in q.status && (q.status[c] == Pending || q.status[c] == Claimed)
  }

  function WithoutStarts(q: Queue, turn: string): map<string, Status> {
    map c | c in q.status :: if QueuedStart(q, c, turn) then Rejected else q.status[c]
  }

  /** The queue after an applied cancellation: the turn is to be aborted, or will never begin. */
  function AfterCancel(q: Queue, id: string, finish: string, f: Facts): Queue
    requires id in q.commands
  {
    var c := q.commands[id];
    if f.turn.None? then q.(status := WithoutStarts(q, c.turn)[id := Applied])
    else if !LiveTurn(f) then q.Set(id, Applied)
    else
      var recorded := q.(cancelled := q.cancelled + {c.turn});
      if finish in q.commands then recorded.Set(id, Applied)
      else
        recorded.(commands := q.commands[finish := Finishing(c)], status := q.status[finish := Pending][id := Applied])
  }

  /** The starts of a turn that never began are rejected one by one, driven or not. */
  method RejectStarts(q: Queue, turn: string) returns (status: map<string, Status>)
    ensures status == WithoutStarts(q, turn)
  {
    var queued := set c | c in q.status && QueuedStart(q, c, turn);
    var todo := queued;
    status := q.status;
    while todo != {}
      invariant todo <= queued && status.Keys == q.status.Keys
      invariant forall c | c in q.status :: status[c] == if c in queued - todo then Rejected else q.status[c]
      decreases |todo|
    {
      var c :| c in todo;
      todo := todo - {c};
      status := status[c := Rejected];
    }
  }

  method CancelTurn(q: Queue, id: string, finish: string, f: Facts) returns (after: Queue)
    requires id in q.commands
    ensures after == AfterCancel(q, id, finish, f)
  {
    var turn := q.commands[id].turn;
    after := q;
    if f.turn.None? {
      var status := RejectStarts(q, turn);
      after := after.(status := status);
    } else if LiveTurn(f) {
      after := after.(cancelled := after.cancelled + {turn});
      if finish !in after.commands {
        after := after.(commands := after.commands[finish := Finishing(after.commands[id])],
                        status := after.status[finish := Pending]);
      }
    }
    after := after.Set(id, Applied);
  }

  /** Commands are only added, and nothing is newly claimed. */
  ghost predicate GivesUp(q: Queue, after: Queue, id: string) {
    && after.Sound()
    && (forall c | c in q.commands :: c in after.commands && after.commands[c] == q.commands[c])
    && (forall c | c in after.status && after.status[c] == Claimed ::
          c != id && c in q.status && q.status[c] == Claimed)
  }

  lemma CancelGivesUp(q: Queue, id: string, finish: string, f: Facts)
    requires q.Sound() && id in q.commands
    ensures GivesUp(q, AfterCancel(q, id, finish, f), id)
  {
    var after := AfterCancel(q, id, finish, f);
    if f.turn.None? {
      StartsGivenUp(q, q.commands[id].turn);
      assert after.status.Keys == q.status.Keys + {id};
    } else if LiveTurn(f) && finish !in q.commands {
      assert after.status.Keys == q.status.Keys + {finish, id};
    }
    assert after.Sound();
  }

  lemma StartsGivenUp(q: Queue, turn: string)
    ensures WithoutStarts(q, turn).Keys == q.status.Keys
    ensures forall c | c in q.status && WithoutStarts(q, turn)[c] == Claimed :: q.status[c] == Claimed
  {
  }

  /** The queue after a control command was applied. */
  function AfterControl(q: Queue, id: string, finish: string, f: Facts): Queue
    requires id in q.commands
  {
    var to := Verdict(q, id, finish, f);
    if Cancels(q, id, finish, f) then AfterCancel(q, id, finish, f)
    else if to == Applied then q.(delivered := q.delivered + {id}).Set(id, Applied)
    else q.Set(id, to)
  }

  lemma ControlGivesUp(q: Queue, id: string, finish: string, f: Facts)
    requires q.Sound() && id in q.commands
    ensures GivesUp(q, AfterControl(q, id, finish, f), id)
  {
    CancelGivesUp(q, id, finish, f);
  }

  /**
   What a control command does. Without an error: cancelling a turn that never began rejects its queued
   starts; a turn that is over is left alone; of a live one the cancellation is put on record and its
   finishing command queued, unless that command's id is taken. Input to a turn is delivered once the
   turn is there, waits for it, or is rejected with its submission.
   */
  lemma ControlDecides(q: Queue, id: string, finish: string, f: Facts)
    requires id in q.commands && id in q.status && IsControl(q.commands[id])
    ensures var c, after := q.commands[id], AfterControl(q, id, finish, f);
            var over, live := f.turn == Some(Terminal), f.turn.Some? && f.turn != Some(Terminal);
            var aborts := Command(Resume, c.turn, c.workspace);
            && after.status.Keys
               == q.status.Keys + (if finish in after.commands && finish !in q.commands then {finish} else {})
            && (f.fails ==> after == q.(status := q.status[id := Rejected]))
            && (!f.fails && c.kind == Cancel ==>
                  && (over ==> after == q.(status := q.status[id := Applied]))
                  && (live && finish in q.commands && q.commands[finish] != aborts ==>
                        after == q.(status := q.status[id := Rejected]))
                  && (live && finish in q.commands && q.commands[finish] == aborts ==>
                        after == q.(status := q.status[id := Applied], cancelled := q.cancelled + {c.turn}))
                  && (live && finish !in q.commands ==>
                        after == Queue(q.commands[finish := aborts], q.status[finish := Pending][id := Applied],
                                       q.cancelled + {c.turn}, q.delivered))
                  && (f.turn == None ==>
                        && after == q.(status := after.status) && after.status[id] == Applied
                        && forall x | x in q.status && x != id ::
                             after.status[x] ==
                               if x in q.commands && q.commands[x].kind == Start && q.commands[x].turn == c.turn
                                  && (q.status[x] == Pending || q.status[x] == Claimed)
                               then Rejected else q.status[x]))
            && (!f.fails && c.kind == Input ==>
                  && (f.turn.Some? ==>
                        after == q.(status := q.status[id := Applied], delivered := q.delivered + {id}))
                  && (f.turn == None ==>
                        after == q.(status := q.status[id :=
                          if f.submission in {None, Some(Rejected), Some(Blocked)} then Rejected else Pending])))
  {
  }

  /** One transaction: a cancellation, an input delivered to its turn, or a mere settlement. */
  method ApplyControl(q: Queue, id: string, finish: string, f: Facts) returns (after: Queue)
    requires id in q.commands
    ensures after == AfterControl(q, id, finish, f)
  {
    var to := Verdict(q, id, finish, f);
    if Cancels(q, id, finish, f) {
      after := CancelTurn(q, id, finish, f);
    } else {
      after := if to == Applied then q.(delivered := q.delivered + {id}) else q;
      after := after.Set(id, to);
    }
  }

  // ----- Sessions and their children

  /** A live session: the tasks of its child turns, and whether they are done, and the sessions of its children. */
  datatype Session = Session(name: string, tasks: map<string, bool>, children: seq<Session>)

  predicate Runs(session: Session, turn: string) { turn in session.tasks && !session.tasks[turn] }

  /** The sessions anywhere in the forest in which the turn runs. */
  function Reached(sessions: seq<Session>, turn: string): set<string> {
    if sessions == [] then {}
    else
      (if Runs(sessions[0], turn) then {sessions[0].name} else {})
      + Reached(sessions[0].children, turn) + Reached(sessions[1..], turn)
  }

  function Weight(sessions: seq<Session>): nat {
    if sessions == [] then 0 else 1 + Weight(sessions[0].children) + Weight(sessions[1..])
  }

  lemma {:induction false} ForestSplits(a: seq<Session>, b: seq<Session>, turn: string)
    ensures Weight(a + b) == Weight(a) + Weight(b)
    ensures Reached(a + b, turn) == Reached(a, turn) + Reached(b, turn)
    decreases |a|
  {
    if a == [] {
      assert a + b == b;
    } else {
      assert (a + b)[1..] == a[1..] + b;
      ForestSplits(a[1..], b, turn);
    }
  }

  /** The worklist over live sessions interrupts the turn in every descendant that runs it. */
  method InterruptChildren(sessions: seq<Session>, turn: string) returns (reached: set<string>)
    ensures reached == Reached(sessions, turn)
  {
    var todo := sessions;
    reached := {};
    while todo != []
      invariant reached + Reached(todo, turn) == Reached(sessions, turn)
      decreases Weight(todo)
    {
      var rest, session := todo[..|todo| - 1], todo[|todo| - 1];
      assert todo == rest + [session];
      ForestSplits(rest, [session], turn);
      ForestSplits(rest, session.children, turn);
      if Runs(session, turn) {
        reached := reached + {session.name};
      }
      todo := rest + session.children;
    }
  }

  /** The drivers a cancellation interrupts: those of its turn. */
  function Driving(q: Queue, drivers: map<string, bool>, id: string, finish: string, f: Facts): set<string>
    requires id in q.commands
  {
    if !Cancels(q, id, finish, f) then {}
    else set d | d in drivers && d in q.commands && q.commands[d].turn == q.commands[id].turn
  }

  /** And the sessions in which it interrupts the task of its turn. */
  function Halting(q: Queue, sessions: seq<Session>, id: string, finish: string, f: Facts): set<string>
    requires id in q.commands
  {
    if !Cancels(q, id, finish, f) then {} else Reached(sessions, q.commands[id].turn)
  }

  /** The session is in the forest, at any depth. */
  ghost predicate Descends(session: Session, sessions: seq<Session>) {
    exists top :: top in sessions && (session == top || Descends(session, top.children))
  }

  lemma {:induction false} ReachedMeans(sessions: seq<Session>, turn: string, name: string)
    ensures name in Reached(sessions, turn) <==>
            exists session :: Descends(session, sessions) && session.name == name
                              && turn in session.tasks && !session.tasks[turn]
    decreases sessions
  {
    if sessions != [] {
      ReachedMeans(sessions[0].children, turn, name);
      ReachedMeans(sessions[1..], turn, name);
      assert forall session :: Descends(session, sessions) <==>
               session == sessions[0] || Descends(session, sessions[0].children) || Descends(session, sessions[1..]);
    }
  }

  /** A cancellation that takes effect interrupts every driver of its turn and every session running it. */
  lemma CancellationReaches(q: Queue, drivers: map<string, bool>, sessions: seq<Session>, id: string, finish: string,
                            f: Facts)
    requires id in q.commands
    ensures var turn := q.commands[id].turn;
            if q.commands[id].kind == Cancel && AfterControl(q, id, finish, f).status[id] == Applied
            then && Driving(q, drivers, id, finish, f)
                    == (set d | d in drivers && d in q.commands && q.commands[d].turn == turn)
                 && Halting(q, sessions, id, finish, f) == Reached(sessions, turn)
            else Driving(q, drivers, id, finish, f) == {} && Halting(q, sessions, id, finish, f) == {}
  {
  }
}
