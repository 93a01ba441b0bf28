/** The gateway's daily reservations: one row, against the history of everything accepted. */
module DailyBudget {
  import opened Paths

  datatype Row = Row(day: int, calls: nat, tokens: nat)
  datatype Reservation = Reservation(day: int, tokens: nat)

  function Calls(history: seq<Reservation>, day: int): nat {
    if history == [] then 0
    else Calls(history[..|history| - 1], day) + if history[|history| - 1].day == day then 1 else 0
  }

  function Tokens(history: seq<Reservation>, day: int): nat {
    if history == [] then 0
    else
      var last := history[|history| - 1];
      Tokens(history[..|history| - 1], day) + if last.day == day then last.tokens else 0
  }

  /** The rule, read off the accepted history alone. */
  predicate Accepts(history: seq<Reservation>, r: Reservation, dailyCalls: nat, dailyTokens: nat) {
    && (history != [] ==> history[|history| - 1].day <= r.day)
    && Calls(history, r.day) < dailyCalls
    && Tokens(history, r.day) + r.tokens <= dailyTokens
  }

  /** Each reservation was acceptable when it was made. */
  ghost predicate Lawful(history: seq<Reservation>, dailyCalls: nat, dailyTokens: nat) {
    forall i | 0 <= i < |history| :: Accepts(history[..i], history[i], dailyCalls, dailyTokens)
  }

  lemma {:induction false} LaterDaysEmpty(history: seq<Reservation>, dailyCalls: nat, dailyTokens: nat, day: int)
    requires Lawful(history, dailyCalls, dailyTokens) && history != [] && history[|history| - 1].day < day
    ensures Calls(history, day) == 0 && Tokens(history, day) == 0
  {
    var n := |history|;
    var init := history[..n - 1];
    assert Accepts(init, history[n - 1], dailyCalls, dailyTokens);
    if n > 1 {
      assert forall i | 0 <= i < n - 1 :: init[..i] == history[..i];
      LaterDaysEmpty(init, dailyCalls, dailyTokens, day);
    }
  }

  /** No day ever exceeds either limit, whatever the clock did. */
  lemma {:induction false} LimitsHold(history: seq<Reservation>, dailyCalls: nat, dailyTokens: nat, day: int)
    requires Lawful(history, dailyCalls, dailyTokens)
    ensures Calls(history, day) <= dailyCalls && Tokens(history, day) <= dailyTokens
  {
    if history != [] {
      var n := |history|;
      var init := history[..n - 1];
      assert Accepts(init, history[n - 1], dailyCalls, dailyTokens);
      assert forall i | 0 <= i < n - 1 :: init[..i] == history[..i];
      LimitsHold(init, dailyCalls, dailyTokens, day);
    }
  }

  lemma Extend(history: seq<Reservation>, r: Reservation, dailyCalls: nat, dailyTokens: nat)
    requires Lawful(history, dailyCalls, dailyTokens) && Accepts(history, r, dailyCalls, dailyTokens)
    ensures Lawful(history + [r], dailyCalls, dailyTokens)
    ensures Calls(history + [r], r.day) == Calls(history, r.day) + 1
    ensures Tokens(history + [r], r.day) == Tokens(history, r.day) + r.tokens
  {
    var next := history + [r];
    assert next[..|history|] == history;
    assert forall i | 0 <= i < |history| :: next[..i] == history[..i] && next[i] == history[i];
  }

  /** The row holds the totals of the last accepted day of a lawful history. */
  ghost predicate Summary(row: Option<Row>, history: seq<Reservation>, dailyCalls: nat, dailyTokens: nat) {
    && Lawful(history, dailyCalls, dailyTokens)
    && (row.None? <==> history == [])
    && (row.Some? ==> RowOf(row.value, history))
  }

  ghost predicate RowOf(row: Row, history: seq<Reservation>)
    requires history != []
  {
    && row.day == history[|history| - 1].day
    && row.calls == Calls(history, row.day)
    && row.tokens == Tokens(history, row.day)
  }

  function CallsToday(row: Option<Row>, day: int): nat {
    if row.None? || day > row.value.day then 0 else row.value.calls
  }

  function TokensToday(row: Option<Row>, day: int): nat {
    if row.None? || day > row.value.day then 0 else row.value.tokens
  }

  lemma RowSuffices(row: Option<Row>, history: seq<Reservation>, day: int, dailyCalls: nat, dailyTokens: nat)
    requires Summary(row, history, dailyCalls, dailyTokens)
    requires row.Some? ==> row.value.day <= day
    ensures history != [] ==> history[|history| - 1].day <= day
    ensures Calls(history, day) == CallsToday(row, day)
    ensures Tokens(history, day) == TokensToday(row, day)
  {
    if row.Some? && day > row.value.day {
      LaterDaysEmpty(history, dailyCalls, dailyTokens, day);
    }
  }

  class Budget {
    const dailyCalls: nat
    const dailyTokens: nat
    var row: Option<Row>
    ghost var history: seq<Reservation>

    ghost predicate Valid()
      reads this
    {
      Summary(row, history, dailyCalls, dailyTokens)
    }

    constructor (dailyCalls: nat, dailyTokens: nat)
      ensures Valid() && history == [] && this.dailyCalls == dailyCalls && this.dailyTokens == dailyTokens
    {
      this.dailyCalls, this.dailyTokens, row, history := dailyCalls, dailyTokens, None, [];
    }

    method Reserve(tokens: nat, day: int) returns (accepted: bool)
      requires Valid()
      modifies this
      ensures Valid()
      ensures accepted <==> Accepts(old(history), Reservation(day, tokens), dailyCalls, dailyTokens)
      ensures history == if accepted then old(history) + [Reservation(day, tokens)] else old(history)
    {
      if row.Some? && day < row.value.day {
        return false;
      }
      RowSuffices(row, history, day, dailyCalls, dailyTokens);
      var calls, used := CallsToday(row, day), TokensToday(row, day);
      if calls >= dailyCalls || used + tokens > dailyTokens {
        return false;
      }
      Extend(history, Reservation(day, tokens), dailyCalls, dailyTokens);
      row := Some(Row(day, calls + 1, used + tokens));
      history := history + [Reservation(day, tokens)];
      accepted := true;
    }
  }
}
