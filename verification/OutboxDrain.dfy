/** Draining the outbox: handlers enqueue rows, and still the work ends. */
module OutboxDrain {
  import opened Wrappers
  import opened OutboxTable

  /** Rows whose handlers may enqueue further rows. */
  predicate Front(kind: Kind) { kind.GraphDispatch? || kind.Resume? || kind.TaskConfirmationPrepare? }

  /** What a handler may enqueue: cards and writes from a run of the graph, whether it is
      dispatched or resumed, cards from the task preparation, nothing from the card and
      write handlers. */
  predicate MayEnqueue(from: Kind, to: Kind) {
    match from
    case GraphDispatch => to.CardSend? || to.CardUpdate? || to.BitableWrite?
    case Resume => to.CardSend? || to.CardUpdate? || to.BitableWrite?
    case TaskConfirmationPrepare => to.CardSend?
    case _ => false
  }

  predicate Lawful(kind: Kind, h: Handling) {
    h.Returned? ==> (Front(kind) || h.writes == []) && forall i :: 0 <= i < |h.writes| ==>
      MayEnqueue(kind, h.writes[i].kind) && h.writes[i].status.Pending? && h.writes[i].attempts == 0
  }

  predicate Live(row: Row) { !Terminal(row) }

  /** Every claim has an expiry, so that no row is stuck. */
  predicate Recoverable(rows: seq<Row>) {
    forall i :: 0 <= i < |rows| && rows[i].status.Claimed? ==> rows[i].expiresAt.Some?
  }

  /** Dispatches a row can still take. */
  function Remaining(config: Config, row: Row): nat {
    if Terminal(row) then 0
    else if config.maxAttempts - row.attempts < 1 then 1
    else config.maxAttempts - row.attempts
  }

  function Share(config: Config, row: Row, front: bool): nat {
    if Front(row.kind) == front then Remaining(config, row) else 0
  }

  function Left(config: Config, rows: seq<Row>, front: bool): nat
    decreases |rows|
  {
    if rows == [] then 0 else Share(config, rows[0], front) + Left(config, rows[1..], front)
  }

  lemma {:induction false} LeftConcat(config: Config, a: seq<Row>, b: seq<Row>, front: bool)
    ensures Left(config, a + b, front) == Left(config, a, front) + Left(config, b, front)
    decreases |a|
  {
    if a == [] {
      assert a + b == b;
    } else {
      assert (a + b)[1..] == a[1..] + b;
      LeftConcat(config, a[1..], b, front);
    }
  }

  lemma LeftUpdate(config: Config, rows: seq<Row>, i: nat, row: Row, front: bool)
    requires i < |rows|
    ensures Left(config, rows[i := row], front)
      == Left(config, rows, front) - Share(config, rows[i], front) + Share(config, row, front)
  {
    var a, b := rows[..i], rows[i + 1..];
    assert rows == a + ([rows[i]] + b) && rows[i := row] == a + ([row] + b);
    LeftConcat(config, a, [rows[i]] + b, front);
    LeftConcat(config, a, [row] + b, front);
  }

  lemma {:induction false} NothingLeft(config: Config, rows: seq<Row>)
    requires forall i :: 0 <= i < |rows| ==> !Front(rows[i].kind)
    ensures Left(config, rows, true) == 0
    decreases |rows|
  {
    if rows != [] {
      NothingLeft(config, rows[1..]);
    }
  }

  /** Each dispatch takes from the front rows, or leaves them and takes from the others. */
  lemma DispatchDecreases(config: Config, rows: seq<Row>, i: nat, worker: string, now: int, handler: Row -> Handling)
    requires i < |rows| && Claimable(rows[i], now)
    requires Lawful(rows[i].kind, handler(ClaimRow(rows[i], worker, now, config.leaseSeconds)))
    ensures var after := DispatchRow(rows, i, worker, now, config, handler);
      Left(config, after, true) < Left(config, rows, true)
      || (Left(config, after, true) == Left(config, rows, true)
          && Left(config, after, false) < Left(config, rows, false))
  {
    var claimed := ClaimRow(rows[i], worker, now, config.leaseSeconds);
    var after := DispatchRow(rows, i, worker, now, config, handler);
    LeftUpdate(config, rows, i, after[i], true);
    LeftUpdate(config, rows, i, after[i], false);
    match handler(claimed)
    case Returned(writes) =>
      var updated := rows[i := SucceedRow(claimed)];
      assert after[i] == SucceedRow(claimed) && after == updated + writes;
      LeftConcat(config, updated, writes, true);
      LeftConcat(config, updated, writes, false);
      NothingLeft(config, writes);
      if !Front(rows[i].kind) {
        assert writes == [];
      }
    case Raised(_, _, _) => assert after == rows[i := after[i]];
  }

  function Due(row: Row): int
    requires Live(row) && (row.status.Claimed? ==> row.expiresAt.Some?)
  {
    if row.status.Pending? then row.nextAttemptAt else row.expiresAt.value
  }

  predicate AllTerminal(rows: seq<Row>) { forall i :: 0 <= i < |rows| ==> Terminal(rows[i]) }

  function Larger(a: int, b: int): int { if a >= b then a else b }

  function Base(before: seq<Row>, i: nat): nat { if i < |before| then before[i].attempts else 0 }

  /** What holds of a row all through a drain that began with the rows `before`. */
  predicate Drained(config: Config, before: seq<Row>, i: nat, row: Row) {
    && row.attempts <= Larger(Base(before, i) + 1, config.maxAttempts)
    && (Live(row) ==> row.attempts < config.maxAttempts || row.attempts == Base(before, i))
    && (row.status.Claimed? ==> row.expiresAt.Some?)
    && (i < |before| ==> row.kind == before[i].kind && row.payloadRef == before[i].payloadRef
                         && (Terminal(before[i]) ==> row == before[i]))
  }

  predicate AllDrained(config: Config, before: seq<Row>, rows: seq<Row>) {
    |before| <= |rows| && forall i :: 0 <= i < |rows| ==> Drained(config, before, i, rows[i])
  }

  lemma DispatchKeepsDrained(config: Config, before: seq<Row>, rows: seq<Row>, i: nat, worker: string, now: int,
                             handler: Row -> Handling)
    requires AllDrained(config, before, rows)
    requires i < |rows| && Claimable(rows[i], now)
    requires Lawful(rows[i].kind, handler(ClaimRow(rows[i], worker, now, config.leaseSeconds)))
    ensures AllDrained(config, before, DispatchRow(rows, i, worker, now, config, handler))
  {
    var after := DispatchRow(rows, i, worker, now, config, handler);
    forall j | 0 <= j < |after| ensures Drained(config, before, j, after[j]) {
      if j < |rows| {
        assert Drained(config, before, j, rows[j]);
      }
    }
  }

  method FindLive(rows: seq<Row>) returns (found: Option<nat>)
    ensures found.None? ==> AllTerminal(rows)
    ensures found.Some? ==> found.value < |rows| && Live(rows[found.value])
  {
    for i := 0 to |rows|
      invariant AllTerminal(rows[..i])
    {
      if Live(rows[i]) {
        return Some(i);
      }
      assert rows[..i + 1] == rows[..i] + [rows[i]];
    }
    assert rows[..|rows|] == rows;
    found := None;
  }

  /** Dispatching for as long as some row is unfinished, and waiting for the next due
      time when nothing is due, comes to an end, whatever the handlers answer: then
      every row has succeeded or is a dead letter, no row was handled more than
      `maxAttempts` times (or once more, if it had had that many before), and finished
      rows, kinds and payloads are as they were. */
  method Drain(dispatcher: OutboxDispatcher, start: int, handler: (nat, Row) -> Handling)
    requires dispatcher.repository.rows == dispatcher.repository.committed
    requires Recoverable(dispatcher.repository.committed)
    requires forall n: nat, row: Row :: Lawful(row.kind, handler(n, row))
    modifies dispatcher.repository
    ensures AllTerminal(dispatcher.repository.committed)
    ensures AllDrained(dispatcher.config, old(dispatcher.repository.committed), dispatcher.repository.committed)
  {
    var repository := dispatcher.repository;
    var config := dispatcher.config;
    ghost var before := repository.committed;
    var now, n := start, 0;
    var unfinished := FindLive(repository.committed);
    while unfinished.Some?
      invariant repository.rows == repository.committed
      invariant AllDrained(config, before, repository.committed)
      invariant unfinished.None? ==> AllTerminal(repository.committed)
      invariant unfinished.Some? ==> 0 <= unfinished.value < |repository.committed|
      invariant unfinished.Some? ==> Live(repository.committed[unfinished.value])
      decreases Left(config, repository.committed, true), Left(config, repository.committed, false)
    {
      ghost var rows := repository.committed;
      assert Drained(config, before, unfinished.value, rows[unfinished.value]);
      now := Larger(now, Due(repository.committed[unfinished.value]));
      assert Claimable(rows[unfinished.value], now);
      var result := dispatcher.DispatchOnce(now, row => handler(n, row));
      ghost var claimed := ClaimRow(rows[result.id], dispatcher.workerId, now, config.leaseSeconds);
      assert Lawful(rows[result.id].kind, handler(n, claimed));
      DispatchKeepsDrained(config, before, rows, result.id, dispatcher.workerId, now, row => handler(n, row));
      DispatchDecreases(config, rows, result.id, dispatcher.workerId, now, row => handler(n, row));
      n := n + 1;
      unfinished := FindLive(repository.committed);
    }
  }

  // ------------------------------------------------- the retry schedule

  /** A row whose handler keeps failing without a hint, claimed each time it is due. */
  function Failing(config: Config, row: Row, worker: string, error: string, n: nat): Row
    decreases n
  {
    if n == 0 then row
    else
      var r := Failing(config, row, worker, error, n - 1);
      var claimed := ClaimRow(r, worker, r.nextAttemptAt, config.leaseSeconds);
      FailRow(claimed, claimed.attempts, r.nextAttemptAt, config, None, error)
  }

  /** The delays so far and one of `b * p` more. */
  lemma DelaysAdd(b: int, p: int)
    ensures b * (p - 1) + b * p == b * (2 * p - 1)
  {
  }

  /** The n-th failure pushes the row `base * (2^n - 1)` seconds past its first due
      time; it is pending before `maxAttempts` failures and dead at that many. */
  lemma {:induction false} RetrySchedule(config: Config, row: Row, worker: string, error: string, n: nat)
    requires row.status.Pending? && row.attempts == 0 && 1 <= n <= config.maxAttempts
    ensures var r := Failing(config, row, worker, error, n);
      r.attempts == n && r.lastError == Some(error)
      && (if n == config.maxAttempts then
            r.status.DeadLetter?
            && r.nextAttemptAt == row.nextAttemptAt + config.baseRetrySeconds * (Pow2(n - 1) - 1)
          else
            r.status.Pending?
            && r.nextAttemptAt == row.nextAttemptAt + config.baseRetrySeconds * (Pow2(n) - 1))
    decreases n
  {
    if n > 1 {
      RetrySchedule(config, row, worker, error, n - 1);
    }
    assert Failing(config, row, worker, error, 0) == row;
    DelaysAdd(config.baseRetrySeconds, Pow2(n - 1));
  }
}
