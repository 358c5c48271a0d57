/** The outbox table, the repository that claims and completes its rows
    (app/storage/repositories.py) and one dispatch (app/feishu/dispatcher.py). */
module OutboxTable {
  import opened Wrappers

  datatype Kind = GraphDispatch | Resume | TaskConfirmationPrepare | CardSend | CardUpdate | BitableWrite

  datatype Status = Pending | Claimed | Succeeded | DeadLetter

  /** Times are seconds. A row is known by its position: rows are only ever added. */
  datatype Row = Row(
    kind: Kind,
    status: Status,
    attempts: nat,
    nextAttemptAt: int,
    claimedBy: Option<string>,
    claimedAt: Option<int>,
    expiresAt: Option<int>,
    createdAt: int,
    lastError: Option<string>,
    payloadRef: string)

  predicate Terminal(row: Row) { row.status.Succeeded? || row.status.DeadLetter? }

  // ----------------------------------------------------- updates of one row

  function ClaimRow(row: Row, worker: string, now: int, lease: int): Row {
    row.(status := Claimed, claimedBy := Some(worker), claimedAt := Some(now),
         expiresAt := Some(now + lease), attempts := row.attempts + 1)
  }

  function Unclaimed(row: Row): Row { row.(claimedBy := None, claimedAt := None, expiresAt := None) }

  function SucceedRow(row: Row): Row { Unclaimed(row).(status := Succeeded, lastError := None) }

  function ReleaseRow(row: Row, nextAttemptAt: int, error: string): Row {
    Unclaimed(row).(status := Pending, nextAttemptAt := nextAttemptAt, lastError := Some(error))
  }

  function DeadLetterRow(row: Row, error: string): Row {
    Unclaimed(row).(status := DeadLetter, lastError := Some(error))
  }

  // ----------------------------------------------- which row is claimed next

  predicate Claimable(row: Row, now: int) {
    || (row.status.Pending? && row.nextAttemptAt <= now)
    || (row.status.Claimed? && row.expiresAt.Some? && row.expiresAt.value <= now)
  }

  function Priority(kind: Kind): int {
    match kind
    case CardSend => 0
    case CardUpdate => 0
    case TaskConfirmationPrepare => 0
    case BitableWrite => 1
    case Resume => 1
    case GraphDispatch => 2
  }

  /** Cards and task preparations; writes and resumes; dispatches. */
  predicate SameClass(a: Kind, b: Kind) {
    || (a in {CardSend, CardUpdate, TaskConfirmationPrepare} && b in {CardSend, CardUpdate, TaskConfirmationPrepare})
    || (a in {BitableWrite, Resume} && b in {BitableWrite, Resume})
    || (a == GraphDispatch && b == GraphDispatch)
  }

  /** Strictly earlier in the order of the claim query; no expiry sorts last. */
  predicate Before(a: Row, b: Row) {
    if Priority(a.kind) != Priority(b.kind) then Priority(a.kind) < Priority(b.kind)
    else if a.nextAttemptAt != b.nextAttemptAt then a.nextAttemptAt < b.nextAttemptAt
    else if a.expiresAt != b.expiresAt then
      a.expiresAt.Some? && (b.expiresAt.None? || a.expiresAt.value < b.expiresAt.value)
    else a.createdAt < b.createdAt
  }

  /** Row `i` may be returned by the claim query at time `now`. */
  predicate NextToClaim(rows: seq<Row>, i: nat, now: int) {
    && i < |rows| && Claimable(rows[i], now)
    && forall j :: 0 <= j < |rows| && Claimable(rows[j], now) ==> !Before(rows[j], rows[i])
  }

  // ------------------------------------------------------- after a failure

  function Pow2(n: nat): (p: nat)
    ensures p >= 1
  {
    if n == 0 then 1 else 2 * Pow2(n - 1)
  }

  datatype Config = Config(maxAttempts: int, baseRetrySeconds: int, leaseSeconds: int)

  /** `retry_after or base * 2 ** (attempts - 1)`: a hint of zero counts as none. */
  function RetryDelay(config: Config, attempts: nat, retryAfter: Option<int>): int
    requires attempts >= 1
  {
    if retryAfter.Some? && retryAfter.value != 0 then retryAfter.value
    else config.baseRetrySeconds * Pow2(attempts - 1)
  }

  /** The row after a failed handler, with the attempt count that was read. */
  function FailRow(row: Row, read: nat, now: int, config: Config, retryAfter: Option<int>, error: string): Row
    requires read >= 1
  {
    if read >= config.maxAttempts then DeadLetterRow(row, error)
    else ReleaseRow(row, now + RetryDelay(config, read, retryAfter), error)
  }

  // ------------------------------------------------------ the repository

  /** One session: `rows` is what it sees, `committed` what others see. */
  class OutboxRepository {
    var rows: seq<Row>
    var committed: seq<Row>

    constructor (committed: seq<Row>)
      ensures this.rows == this.committed == committed
    {
      this.rows, this.committed := committed, committed;
    }

    method ClaimNext(worker: string, lease: int, now: int) returns (item: Option<nat>)
      modifies this`rows
      ensures item.None? ==> rows == old(rows) && forall i :: 0 <= i < |rows| ==> !Claimable(rows[i], now)
      ensures item.Some? ==> NextToClaim(old(rows), item.value, now)
      ensures item.Some? ==> rows == old(rows)[item.value := ClaimRow(old(rows)[item.value], worker, now, lease)]
      ensures item.None? ==> forall row :: row in rows ==>
        || row.status in {Succeeded, DeadLetter}
        || (row.status == Pending && now < row.nextAttemptAt)
        || (row.status == Claimed && (row.expiresAt.None? || now < row.expiresAt.value))
      ensures item.Some? ==> var row := old(rows)[item.value];
        || (row.status == Pending && row.nextAttemptAt <= now)
        || (row.status == Claimed && row.expiresAt.Some? && row.expiresAt.value <= now)
      ensures item.Some? ==> var row := old(rows)[item.value];
        rows[item.value] == row.(status := Claimed, claimedBy := Some(worker), claimedAt := Some(now),
                                 expiresAt := Some(now + lease), attempts := row.attempts + 1)
      ensures item.Some? ==> var row := old(rows)[item.value];
        forall other | other in old(rows)
          && ((other.status == Pending && other.nextAttemptAt <= now)
              || (other.status == Claimed && other.expiresAt.Some? && other.expiresAt.value <= now)) ::
          && (other.kind in {CardSend, CardUpdate, TaskConfirmationPrepare} ==>
                row.kind in {CardSend, CardUpdate, TaskConfirmationPrepare})
          && (row.kind == GraphDispatch ==> other.kind == GraphDispatch)
          && (SameClass(row.kind, other.kind) ==>
                && row.nextAttemptAt <= other.nextAttemptAt
                && (row.nextAttemptAt == other.nextAttemptAt ==>
                      && (other.expiresAt.Some? ==>
                            row.expiresAt.Some? && row.expiresAt.value <= other.expiresAt.value)
                      && (row.expiresAt == other.expiresAt ==> row.createdAt <= other.createdAt)))
    {
      item := None;
      for i := 0 to |rows|
        invariant rows == old(rows)
        invariant item.None? ==> forall j :: 0 <= j < i ==> !Claimable(rows[j], now)
        invariant item.Some? ==> item.value < i && Claimable(rows[item.value], now)
        invariant item.Some? ==>
          forall j :: 0 <= j < i && Claimable(rows[j], now) ==> !Before(rows[j], rows[item.value])
      {
        if Claimable(rows[i], now) && (item.None? || Before(rows[i], rows[item.value])) {
          item := Some(i);
        }
      }
      if item.Some? {
        rows := rows[item.value := ClaimRow(rows[item.value], worker, now, lease)];
      }
    }

    method MarkSucceeded(id: nat)
      requires id < |rows|
      modifies this`rows
      ensures rows == old(rows)[id := old(rows)[id].(status := Succeeded, claimedBy := None, claimedAt := None,
                                                     expiresAt := None, lastError := None)]
    {
      rows := rows[id := SucceedRow(rows[id])];
    }

    method ReleaseForRetry(id: nat, nextAttemptAt: int, error: string)
      requires id < |rows|
      modifies this`rows
      ensures rows == old(rows)[id := old(rows)[id].(status := Pending, claimedBy := None, claimedAt := None,
        expiresAt := None, nextAttemptAt := nextAttemptAt, lastError := Some(error))]
    {
      rows := rows[id := ReleaseRow(rows[id], nextAttemptAt, error)];
    }

    method MarkDeadLetter(id: nat, error: string)
      requires id < |rows|
      modifies this`rows
      ensures rows == old(rows)[id := old(rows)[id].(status := DeadLetter, claimedBy := None, claimedAt := None,
                                                     expiresAt := None, lastError := Some(error))]
    {
      rows := rows[id := DeadLetterRow(rows[id], error)];
    }

    method Commit()
      modifies this`committed
      ensures committed == rows
    {
      committed := rows;
    }

    method Rollback()
      modifies this`rows
      ensures rows == committed
    {
      rows := committed;
    }
  }

  // ------------------------------------------------------- one dispatch

  /** What the handler does: it writes rows in the session, then returns or raises. */
  datatype Handling =
    | Returned(writes: seq<Row>)
    | Raised(writes: seq<Row>, error: string, retryAfter: Option<int>)

  datatype Dispatched = Idle | Done(id: nat) | Retrying(id: nat) | Dead(id: nat)

  /** The committed table after row `i` was claimed and handled at `now`. */
  function DispatchRow(rows: seq<Row>, i: nat, worker: string, now: int, config: Config, handler: Row -> Handling)
    : (r: seq<Row>)
    requires i < |rows|
  {
    var claimed := ClaimRow(rows[i], worker, now, config.leaseSeconds);
    match handler(claimed)
    case Returned(writes) => rows[i := SucceedRow(claimed)] + writes
    case Raised(_, error, retryAfter) =>
      rows[i := FailRow(claimed, claimed.attempts, now, config, retryAfter, error)]
  }

  function Outcome(rows: seq<Row>, i: nat, worker: string, now: int, config: Config, handler: Row -> Handling)
    : Dispatched
    requires i < |rows|
  {
    if handler(ClaimRow(rows[i], worker, now, config.leaseSeconds)).Returned? then Done(i)
    else if rows[i].attempts + 1 >= config.maxAttempts then Dead(i)
    else Retrying(i)
  }

  class OutboxDispatcher {
    const repository: OutboxRepository
    const workerId: string
    const config: Config

    constructor (repository: OutboxRepository, workerId: string, config: Config)
      ensures this.repository == repository && this.workerId == workerId && this.config == config
    {
      this.repository, this.workerId, this.config := repository, workerId, config;
    }

    /** A claim transaction, the handler, and a completion transaction: a handler
        that raises leaves nothing behind but the row's own failure. */
    method DispatchOnce(now: int, handler: Row -> Handling) returns (result: Dispatched)
      requires repository.rows == repository.committed
      modifies repository
      ensures repository.rows == repository.committed
      ensures result.Idle? ==> repository.committed == old(repository.committed)
      ensures result.Idle? ==>
        forall i :: 0 <= i < |old(repository.committed)| ==> !Claimable(old(repository.committed)[i], now)
      ensures !result.Idle? ==> NextToClaim(old(repository.committed), result.id, now)
      ensures !result.Idle? ==>
        repository.committed == DispatchRow(old(repository.committed), result.id, workerId, now, config, handler)
      ensures !result.Idle? ==> result == Outcome(old(repository.committed), result.id, workerId, now, config, handler)
      ensures !result.Idle? ==> var row := old(repository.committed)[result.id];
        var claimed := row.(status := Claimed, claimedBy := Some(workerId), claimedAt := Some(now),
                            expiresAt := Some(now + config.leaseSeconds), attempts := row.attempts + 1);
        var free := claimed.(claimedBy := None, claimedAt := None, expiresAt := None);
        match handler(claimed)
        case Returned(writes) =>
          result == Done(result.id)
          && repository.committed == old(repository.committed)[result.id :=
               free.(status := Succeeded, lastError := None)] + writes
        case Raised(_, error, retryAfter) =>
          if row.attempts + 1 >= config.maxAttempts then
            result == Dead(result.id)
            && repository.committed == old(repository.committed)[result.id :=
                 free.(status := DeadLetter, lastError := Some(error))]
          else
            result == Retrying(result.id)
            && repository.committed == old(repository.committed)[result.id :=
                 free.(status := Pending, lastError := Some(error), nextAttemptAt :=
                   now + if retryAfter.Some? && retryAfter.value != 0 then retryAfter.value
                         else config.baseRetrySeconds * Pow2(row.attempts))]
    {
      var item := repository.ClaimNext(workerId, config.leaseSeconds, now);
      if item.None? {
        return Idle;
      }
      var id := item.value;
      repository.Commit();
      var h := handler(repository.rows[id]);
      repository.rows := repository.rows + h.writes;
      if h.Raised? {
        repository.Rollback();
        var attempts := if repository.rows[id].attempts == 0 then 1 else repository.rows[id].attempts;
        if attempts >= config.maxAttempts {
          repository.MarkDeadLetter(id, h.error);
          repository.Commit();
          return Dead(id);
        }
        repository.ReleaseForRetry(id, now + RetryDelay(config, attempts, h.retryAfter), h.error);
        repository.Commit();
        return Retrying(id);
      }
      repository.MarkSucceeded(id);
      repository.Commit();
      result := Done(id);
    }
  }
}
