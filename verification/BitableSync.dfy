/** The tables that remember external Bitable writes (app/storage/repositories.py)
    and the write handler that fills them (app/feishu/outbox_handlers.py). */
module BitableSync {
  import opened Wrappers

  datatype ChunkStatus = Succeeded | Failed | Conflict

  /** The digest given by the caller, or the one of the records. */
  datatype Digest = Given(hash: string) | OfRecords(records: seq<string>)

  datatype Chunk = Chunk(
    actionId: Option<string>,
    outboxId: Option<nat>,
    appToken: string,
    tableId: string,
    chunkIndex: int,
    payloadHash: Digest,
    status: ChunkStatus,
    recordIds: seq<string>,
    lastError: Option<string>)

  datatype EntityRef = EntityRef(entityType: string, entityId: string)

  datatype RecordKey = RecordKey(entity: EntityRef, appToken: string, tableId: string)

  datatype Db = Db(chunks: map<string, Chunk>, records: map<RecordKey, string>)

  /** One write as the outbox payload describes it. */
  datatype Write = Write(
    clientToken: string,
    appToken: string,
    tableId: string,
    records: seq<string>,
    outboxId: Option<nat>,
    actionId: Option<string>,
    chunkIndex: int,
    payloadHash: Option<string>,
    entityRefs: seq<EntityRef>)

  datatype Error = BadLengths | BadEntityRef | TokenConflict(reason: string) | UniqueViolation

  const OTHER_HASH := "Bitable client_token already exists with a different payload_hash"
  const OTHER_IDS := "Bitable client_token already exists with different record_ids"

  function HashOf(w: Write): Digest {
    match w.payloadHash
    case Some(h) => if h != "" then Given(h) else OfRecords(w.records)
    case None => OfRecords(w.records)
  }

  // ------------------------------------------------ constraints of the tables

  predicate SamePlace(chunk: Chunk, w: Write) {
    && chunk.actionId == w.actionId && chunk.tableId == w.tableId
    && chunk.chunkIndex == w.chunkIndex && chunk.payloadHash == HashOf(w)
  }

  /** Another chunk has the same action, table, index and digest. */
  predicate ChunkClash(chunks: map<string, Chunk>, w: Write) {
    w.actionId.Some? && exists t :: t in chunks && t != w.clientToken && SamePlace(chunks[t], w)
  }

  /** Another entity of the same table has that record. */
  predicate RecordClash(records: map<RecordKey, string>, key: RecordKey, id: string) {
    exists k :: k in records && k != key && k.appToken == key.appToken && k.tableId == key.tableId && records[k] == id
  }

  // ----------------------------------------------------------- the operations

  function KeyOf(w: Write, i: nat): RecordKey
    requires i < |w.entityRefs|
  {
    RecordKey(w.entityRefs[i], w.appToken, w.tableId)
  }

  /** The record map after entities `i` and later were written, unless one clashes. */
  function Upsert(records: map<RecordKey, string>, w: Write, ids: seq<string>, i: nat): Option<map<RecordKey, string>>
    requires |ids| == |w.entityRefs|
    decreases |ids| - i
  {
    if i >= |ids| then Some(records)
    else if RecordClash(records, KeyOf(w, i), ids[i]) then None
    else Upsert(records[KeyOf(w, i) := ids[i]], w, ids, i + 1)
  }

  function CheckLengths(w: Write, ids: seq<string>): Option<Error> {
    if |ids| != |w.records| then Some(BadLengths)
    else if w.entityRefs != [] && |w.entityRefs| != |w.records| then Some(BadLengths)
    else if exists i :: 0 <= i < |w.entityRefs|
                 && (w.entityRefs[i].entityType == "" || w.entityRefs[i].entityId == "") then
      Some(BadEntityRef)
    else None
  }

  function ConflictReason(db: Db, w: Write, ids: seq<string>): Option<string> {
    if w.clientToken !in db.chunks then None
    else
      var existing := db.chunks[w.clientToken];
      if existing.payloadHash != HashOf(w) then Some(OTHER_HASH)
      else if existing.recordIds != [] && existing.recordIds != ids then Some(OTHER_IDS)
      else None
  }

  function NewChunk(w: Write, status: ChunkStatus, ids: seq<string>, error: Option<string>): Chunk {
    Chunk(w.actionId, w.outboxId, w.appToken, w.tableId, w.chunkIndex, HashOf(w), status, ids, error)
  }

  function SetFailed(chunks: map<string, Chunk>, w: Write, status: ChunkStatus, error: string): map<string, Chunk> {
    chunks[w.clientToken :=
      if w.clientToken in chunks then chunks[w.clientToken].(status := status, lastError := Some(error))
      else NewChunk(w, status, [], Some(error))]
  }

  function SetSucceeded(chunks: map<string, Chunk>, w: Write, ids: seq<string>): map<string, Chunk> {
    chunks[w.clientToken :=
      if w.clientToken in chunks then
        chunks[w.clientToken].(status := Succeeded, payloadHash := HashOf(w), recordIds := ids, lastError := None)
      else NewChunk(w, Succeeded, ids, None)]
  }

  function RecordFailure(db: Db, w: Write, error: string, status: ChunkStatus): Result<Db, Error> {
    if w.clientToken !in db.chunks && ChunkClash(db.chunks, w) then Err(UniqueViolation)
    else Ok(db.(chunks := SetFailed(db.chunks, w, status, error)))
  }

  /** The tables after a success, or why it is refused. */
  function RecordSuccess(db: Db, w: Write, ids: seq<string>): Result<Db, Error> {
    if CheckLengths(w, ids).Some? then Err(CheckLengths(w, ids).value)
    else if ConflictReason(db, w, ids).Some? then Err(TokenConflict(ConflictReason(db, w, ids).value))
    else if w.clientToken !in db.chunks && ChunkClash(db.chunks, w) then Err(UniqueViolation)
    else
      var chunks := SetSucceeded(db.chunks, w, ids);
      if w.entityRefs == [] then Ok(Db(chunks, db.records))
      else match Upsert(db.records, w, ids, 0)
        case Some(records) => Ok(Db(chunks, records))
        case None => Err(UniqueViolation)
  }

  class BitableSyncRepository {
    var chunks: map<string, Chunk>
    var records: map<RecordKey, string>

    constructor (db: Db)
      ensures View() == db
    {
      chunks, records := db.chunks, db.records;
    }

    function View(): Db
      reads this
    {
      Db(chunks, records)
    }

    method RecordChunkFailure(w: Write, error: string, status: ChunkStatus) returns (r: Option<Error>)
      modifies this`chunks
      ensures match RecordFailure(old(View()), w, error, status)
        case Ok(after) => r == None && View() == after
        case Err(e) => r == Some(e) && View() == old(View())
      ensures w.clientToken in old(chunks) ==>
        r == None && chunks == old(chunks)[w.clientToken :=
          old(chunks)[w.clientToken].(status := status, lastError := Some(error))]
      ensures w.clientToken !in old(chunks) && r == None ==>
        chunks == old(chunks)[w.clientToken :=
          Chunk(w.actionId, w.outboxId, w.appToken, w.tableId, w.chunkIndex, HashOf(w), status, [], Some(error))]
    {
      if w.clientToken in chunks {
        var existing := chunks[w.clientToken];
        chunks := chunks[w.clientToken := existing.(status := status, lastError := Some(error))];
      } else if ChunkClash(chunks, w) {
        return Some(UniqueViolation);
      } else {
        chunks := chunks[w.clientToken := NewChunk(w, status, [], Some(error))];
      }
      r := None;
    }

    /** A refused write leaves the tables as they were, but for the conflict mark of
        a reused token, which lives until the caller rolls back. */
    method RecordChunkSuccess(w: Write, ids: seq<string>) returns (r: Option<Error>)
      modifies this
      ensures match RecordSuccess(old(View()), w, ids)
        case Ok(after) => r == None && View() == after
        case Err(TokenConflict(reason)) => r == Some(TokenConflict(reason))
          && View() == old(View()).(chunks := SetFailed(old(chunks), w, Conflict, reason))
        case Err(e) => r == Some(e) && View() == old(View())
      ensures r == Some(BadLengths) <==>
        |ids| != |w.records| || (w.entityRefs != [] && |w.entityRefs| != |w.records|)
      ensures r != Some(BadLengths) ==>
        (r == Some(BadEntityRef) <==>
           exists ref :: ref in w.entityRefs && (ref.entityType == "" || ref.entityId == ""))
      ensures r !in {Some(BadLengths), Some(BadEntityRef)} && w.clientToken in old(chunks) ==>
        var before := old(chunks)[w.clientToken];
        && (before.payloadHash != HashOf(w) ==> r == Some(TokenConflict(OTHER_HASH)))
        && (before.payloadHash == HashOf(w) && before.recordIds !in {[], ids} ==>
              r == Some(TokenConflict(OTHER_IDS)))
        && (before.payloadHash == HashOf(w) && before.recordIds in {[], ids} ==>
              r in {None, Some(UniqueViolation)})
      ensures r == None && w.clientToken in old(chunks) ==>
        chunks == old(chunks)[w.clientToken :=
          old(chunks)[w.clientToken].(status := Succeeded, recordIds := ids, lastError := None)]
      ensures r == None && w.clientToken !in old(chunks) ==>
        chunks == old(chunks)[w.clientToken :=
          Chunk(w.actionId, w.outboxId, w.appToken, w.tableId, w.chunkIndex, HashOf(w), Succeeded, ids, None)]
    {
      CheckExists(w);
      var bad := CheckLengths(w, ids);
      if bad.Some? {
        return bad;
      }
      var reason := ConflictReason(View(), w, ids);
      if reason.Some? {
        var _ := RecordChunkFailure(w, reason.value, Conflict);
        return Some(TokenConflict(reason.value));
      }
      if w.clientToken !in chunks && ChunkClash(chunks, w) {
        return Some(UniqueViolation);
      }
      var chunksBefore, recordsBefore := chunks, records;
      chunks := SetSucceeded(chunks, w, ids);
      if w.entityRefs != [] {
        for i := 0 to |ids|
          invariant Upsert(records, w, ids, i) == Upsert(recordsBefore, w, ids, 0)
          invariant chunks == SetSucceeded(chunksBefore, w, ids)
        {
          if RecordClash(records, KeyOf(w, i), ids[i]) {
            chunks, records := chunksBefore, recordsBefore;
            return Some(UniqueViolation);
          }
          records := records[KeyOf(w, i) := ids[i]];
        }
      }
      r := None;
    }
  }

  lemma CheckExists(w: Write)
    ensures (exists i :: 0 <= i < |w.entityRefs|
               && (w.entityRefs[i].entityType == "" || w.entityRefs[i].entityId == ""))
      <==> (exists ref :: ref in w.entityRefs && (ref.entityType == "" || ref.entityId == ""))
  {
    if ref :| ref in w.entityRefs && (ref.entityType == "" || ref.entityId == "") {
      var i :| 0 <= i < |w.entityRefs| && w.entityRefs[i] == ref;
      assert w.entityRefs[i].entityType == "" || w.entityRefs[i].entityId == "";
    }
  }

  // -------------------------------- what no sequence of operations can change

  datatype Operation =
    | Success(write: Write, ids: seq<string>)
    | Failure(write: Write, error: string, status: ChunkStatus)

  /** The tables after an operation of the session, conflict marks included. */
  function Perform(db: Db, op: Operation): Db {
    match op
    case Success(w, ids) =>
      (match RecordSuccess(db, w, ids)
       case Ok(after) => after
       case Err(TokenConflict(reason)) => db.(chunks := SetFailed(db.chunks, w, Conflict, reason))
       case Err(_) => db)
    case Failure(w, error, status) =>
      (match RecordFailure(db, w, error, status)
       case Ok(after) => after
       case Err(_) => db)
  }

  function PerformAll(db: Db, ops: seq<Operation>): Db
    decreases |ops|
  {
    if ops == [] then db else PerformAll(Perform(db, ops[0]), ops[1..])
  }

  /** Once bound, a client token keeps its digest, its place and its record ids. */
  lemma {:induction false} TokenBindingsKept(db: Db, ops: seq<Operation>, token: string)
    requires token in db.chunks
    ensures var after := PerformAll(db, ops);
      token in after.chunks
      && after.chunks[token].payloadHash == db.chunks[token].payloadHash
      && after.chunks[token].actionId == db.chunks[token].actionId
      && after.chunks[token].tableId == db.chunks[token].tableId
      && (db.chunks[token].recordIds != [] ==> after.chunks[token].recordIds == db.chunks[token].recordIds)
    decreases |ops|
  {
    if ops != [] {
      TokenBindingsKept(Perform(db, ops[0]), ops[1..], token);
    }
  }

  /** The unique constraints: no two chunks of one action have the same table, index and
      digest, and no two entities of a table have the same record. */
  ghost predicate Unique(db: Db) {
    && (forall s, t :: s in db.chunks && t in db.chunks && s != t ==> ChunksDiffer(db.chunks[s], db.chunks[t]))
    && (forall j, k :: j in db.records && k in db.records && j != k ==>
          j.appToken != k.appToken || j.tableId != k.tableId || db.records[j] != db.records[k])
  }

  predicate ChunksDiffer(a: Chunk, b: Chunk) {
    a.actionId.None? || a.actionId != b.actionId || a.tableId != b.tableId || a.chunkIndex != b.chunkIndex
    || a.payloadHash != b.payloadHash
  }

  lemma {:induction false} UpsertUnique(records: map<RecordKey, string>, w: Write, ids: seq<string>, i: nat)
    requires |ids| == |w.entityRefs| && Upsert(records, w, ids, i).Some? && Unique(Db(map[], records))
    ensures Unique(Db(map[], Upsert(records, w, ids, i).value))
    decreases |ids| - i
  {
    if i < |ids| {
      UpsertUnique(records[KeyOf(w, i) := ids[i]], w, ids, i + 1);
    }
  }

  lemma ChunkPut(chunks: map<string, Chunk>, w: Write, chunk: Chunk)
    requires Unique(Db(chunks, map[]))
    requires if w.clientToken in chunks then
               chunk.actionId == chunks[w.clientToken].actionId && chunk.tableId == chunks[w.clientToken].tableId
               && chunk.chunkIndex == chunks[w.clientToken].chunkIndex
               && chunk.payloadHash == chunks[w.clientToken].payloadHash
             else !ChunkClash(chunks, w) && SamePlace(chunk, w)
    ensures Unique(Db(chunks[w.clientToken := chunk], map[]))
  {
    forall t | t in chunks && t != w.clientToken
      ensures ChunksDiffer(chunk, chunks[t]) && ChunksDiffer(chunks[t], chunk)
    {
      if w.clientToken in chunks {
        assert ChunksDiffer(chunks[w.clientToken], chunks[t]) && ChunksDiffer(chunks[t], chunks[w.clientToken]);
      }
    }
  }

  lemma UniqueParts(db: Db)
    ensures Unique(db) <==> Unique(Db(db.chunks, map[])) && Unique(Db(map[], db.records))
  {
  }

  lemma FailureUnique(db: Db, w: Write, error: string, status: ChunkStatus)
    requires Unique(db) && (w.clientToken in db.chunks || !ChunkClash(db.chunks, w))
    ensures Unique(db.(chunks := SetFailed(db.chunks, w, status, error)))
  {
    var after := SetFailed(db.chunks, w, status, error);
    UniqueParts(db);
    ChunkPut(db.chunks, w, after[w.clientToken]);
    UniqueParts(db.(chunks := after));
  }

  lemma SuccessUnique(db: Db, w: Write, ids: seq<string>)
    requires Unique(db) && RecordSuccess(db, w, ids).Ok?
    ensures Unique(RecordSuccess(db, w, ids).value)
  {
    var after := RecordSuccess(db, w, ids).value;
    UniqueParts(db);
    ChunkPut(db.chunks, w, after.chunks[w.clientToken]);
    if w.entityRefs != [] {
      UpsertUnique(db.records, w, ids, 0);
    }
    UniqueParts(after);
  }

  /** No sequence of operations breaks the constraints. */
  lemma {:induction false} UniqueKept(db: Db, ops: seq<Operation>)
    requires Unique(db)
    ensures Unique(PerformAll(db, ops))
    decreases |ops|
  {
    if ops != [] {
      match ops[0] {
        case Success(w, ids) =>
          if RecordSuccess(db, w, ids).Ok? {
            SuccessUnique(db, w, ids);
          } else if ConflictReason(db, w, ids).Some? {
            FailureUnique(db, w, ConflictReason(db, w, ids).value, Conflict);
          }
        case Failure(w, error, status) =>
          if RecordFailure(db, w, error, status).Ok? {
            FailureUnique(db, w, error, status);
          }
      }
      UniqueKept(Perform(db, ops[0]), ops[1..]);
    }
  }

  // --------------------------------------- crashes around the external call

  /** The external service: what it created for each client token. */
  type Service = map<string, seq<string>>

  /** `batch_create`: a known token answers with the records created before. */
  function Created(service: Service, token: string, newIds: seq<string>): seq<string> {
    if token in service then service[token] else newIds
  }

  function BatchCreate(service: Service, token: string, newIds: seq<string>): Service {
    service[token := Created(service, token, newIds)]
  }

  /** How one handling of the row ends. */
  datatype Attempt =
    | NotSent
    | SentThenLost(newIds: seq<string>)
    | SentAndRecorded(newIds: seq<string>)

  datatype World = World(db: Db, service: Service)

  /** The committed tables and the service after one attempt; a refusal is rolled back. */
  function Handle(world: World, w: Write, attempt: Attempt): World {
    match attempt
    case NotSent => world
    case SentThenLost(newIds) => world.(service := BatchCreate(world.service, w.clientToken, newIds))
    case SentAndRecorded(newIds) =>
      var ids := Created(world.service, w.clientToken, newIds);
      World(match RecordSuccess(world.db, w, ids) case Ok(after) => after case Err(_) => world.db,
            BatchCreate(world.service, w.clientToken, newIds))
  }

  function HandleAll(world: World, w: Write, attempts: seq<Attempt>): World
    decreases |attempts|
  {
    if attempts == [] then world else HandleAll(Handle(world, w, attempts[0]), w, attempts[1..])
  }

  predicate Distinct(ids: seq<string>) { forall i, j :: 0 <= i < j < |ids| ==> ids[i] != ids[j] }

  ghost predicate SetLater(w: Write, ids: seq<string>, i: nat, key: RecordKey, id: string)
    requires |ids| == |w.entityRefs|
  {
    exists j :: i <= j < |ids| && KeyOf(w, j) == key && ids[j] == id
  }

  lemma ReplayDoesNotClash(w: Write, ids: seq<string>, i: nat, records: map<RecordKey, string>,
                           again: map<RecordKey, string>)
    requires |ids| == |w.entityRefs| && Distinct(ids) && i < |ids|
    requires !RecordClash(records, KeyOf(w, i), ids[i])
    requires forall k :: k in again ==> (k in records && again[k] == records[k]) || SetLater(w, ids, i, k, again[k])
    ensures !RecordClash(again, KeyOf(w, i), ids[i])
  {
    var key := KeyOf(w, i);
    forall k | k in again && k != key && k.appToken == key.appToken && k.tableId == key.tableId
      ensures again[k] != ids[i]
    {
      if k in records && again[k] == records[k] {
      } else {
        var j :| i <= j < |ids| && KeyOf(w, j) == k && ids[j] == again[k];
        assert j > i;
      }
    }
  }

  /** Upserting once more what was just upserted: `done` was reached from `records`
      by the entities from `i` on, and `again` replays them. */
  lemma {:induction false} UpsertAgain(w: Write, ids: seq<string>, i: nat, records: map<RecordKey, string>,
                                       done: map<RecordKey, string>, again: map<RecordKey, string>)
    requires |ids| == |w.entityRefs| && Distinct(ids) && i <= |ids|
    requires Upsert(records, w, ids, i) == Some(done)
    requires forall k :: k in again <==> k in done
    requires forall k :: k in records ==> k in again
    requires forall k :: k in again ==> (k in records && again[k] == records[k]) || SetLater(w, ids, i, k, again[k])
    ensures Upsert(again, w, ids, i) == Some(done)
    decreases |ids| - i
  {
    if i < |ids| {
      var key := KeyOf(w, i);
      UpsertKeepsKeys(records[key := ids[i]], w, ids, i + 1);
      ReplayDoesNotClash(w, ids, i, records, again);
      forall k | k in again && k != key
        ensures (k in records && again[k] == records[k]) || SetLater(w, ids, i + 1, k, again[k])
      {
        if !(k in records && again[k] == records[k]) {
          var j :| i <= j < |ids| && KeyOf(w, j) == k && ids[j] == again[k];
          assert j >= i + 1;
        }
      }
      UpsertAgain(w, ids, i + 1, records[key := ids[i]], done, again[key := ids[i]]);
    } else {
      assert again == done;
    }
  }

  lemma {:induction false} UpsertKeepsKeys(records: map<RecordKey, string>, w: Write, ids: seq<string>, i: nat)
    requires |ids| == |w.entityRefs| && Upsert(records, w, ids, i).Some?
    ensures forall k :: k in records ==> k in Upsert(records, w, ids, i).value
    decreases |ids| - i
  {
    if i < |ids| {
      UpsertKeepsKeys(records[KeyOf(w, i) := ids[i]], w, ids, i + 1);
    }
  }

  /** Recording the same success twice is recording it once. */
  lemma RecordAgain(db: Db, w: Write, ids: seq<string>)
    requires Distinct(ids) && RecordSuccess(db, w, ids).Ok?
    ensures RecordSuccess(RecordSuccess(db, w, ids).value, w, ids) == RecordSuccess(db, w, ids)
  {
    var after := RecordSuccess(db, w, ids).value;
    assert SetSucceeded(after.chunks, w, ids) == after.chunks;
    if w.entityRefs != [] {
      UpsertKeepsKeys(db.records, w, ids, 0);
      forall k | k in after.records && !(k in db.records && after.records[k] == db.records[k])
        ensures SetLater(w, ids, 0, k, after.records[k])
      {
        UpsertOrigin(db.records, w, ids, 0, k);
      }
      UpsertAgain(w, ids, 0, db.records, after.records, after.records);
    }
  }

  lemma {:induction false} UpsertOrigin(
    records: map<RecordKey, string>, w: Write, ids: seq<string>, i: nat, key: RecordKey)
    requires |ids| == |w.entityRefs| && Upsert(records, w, ids, i).Some? && key in Upsert(records, w, ids, i).value
    ensures var done := Upsert(records, w, ids, i).value;
      (key in records && done[key] == records[key]) || SetLater(w, ids, i, key, done[key])
    decreases |ids| - i
  {
    if i < |ids| {
      var done := Upsert(records, w, ids, i).value;
      UpsertOrigin(records[KeyOf(w, i) := ids[i]], w, ids, i + 1, key);
      if key == KeyOf(w, i) && done[key] == ids[i] {
        assert SetLater(w, ids, i, key, ids[i]);
      }
    }
  }

  /** No record of the table has one of these ids. */
  predicate Unused(records: map<RecordKey, string>, w: Write, ids: seq<string>) {
    forall k :: k in records && k.appToken == w.appToken && k.tableId == w.tableId ==> records[k] !in ids
  }

  lemma {:induction false} NewIdsUpsert(records: map<RecordKey, string>, w: Write, ids: seq<string>, i: nat)
    requires |ids| == |w.entityRefs| && Distinct(ids) && i <= |ids|
    requires Unused(records, w, ids[i..])
    ensures Upsert(records, w, ids, i).Some?
    decreases |ids| - i
  {
    if i < |ids| {
      assert ids[i] in ids[i..];
      NewIdsUpsert(records[KeyOf(w, i) := ids[i]], w, ids, i + 1);
    }
  }

  /** The first answer of the service is accepted: a write under a new token, of as many
      entities as records, whose new record ids no other entity has. */
  lemma NewWriteAccepted(db: Db, w: Write, ids: seq<string>)
    requires w.clientToken !in db.chunks && !ChunkClash(db.chunks, w)
    requires CheckLengths(w, ids).None? && Distinct(ids) && Unused(db.records, w, ids)
    ensures var after := RecordSuccess(db, w, ids);
      after.Ok? && w.clientToken in after.value.chunks && after.value.chunks[w.clientToken].recordIds == ids
      && after.value.chunks[w.clientToken].status.Succeeded?
      && after.value.chunks[w.clientToken].payloadHash
         == if w.payloadHash.Some? && w.payloadHash.value != "" then Given(w.payloadHash.value)
            else OfRecords(w.records)
  {
    if w.entityRefs != [] {
      assert ids[0..] == ids;
      NewIdsUpsert(db.records, w, ids, 0);
    }
  }

  /** No later entity of the write is the same. */
  predicate LastOfEntity(w: Write, i: nat) {
    i < |w.entityRefs| && forall j :: i < j < |w.entityRefs| ==> w.entityRefs[j] != w.entityRefs[i]
  }

  lemma {:induction false} UpsertSets(records: map<RecordKey, string>, w: Write, ids: seq<string>, i: nat)
    requires |ids| == |w.entityRefs| && i <= |ids| && Upsert(records, w, ids, i).Some?
    ensures var done := Upsert(records, w, ids, i).value;
      && (forall j :: i <= j < |ids| && LastOfEntity(w, j) ==>
            RecordKey(w.entityRefs[j], w.appToken, w.tableId) in done
            && done[RecordKey(w.entityRefs[j], w.appToken, w.tableId)] == ids[j])
      && (forall k | k in done.Keys + records.Keys
            && (k.entity !in w.entityRefs[i..] || k.appToken != w.appToken || k.tableId != w.tableId) ::
            k in done && k in records && done[k] == records[k])
    decreases |ids| - i
  {
    if i < |ids| {
      assert w.entityRefs[i..] == [w.entityRefs[i]] + w.entityRefs[i + 1..];
      UpsertSets(records[KeyOf(w, i) := ids[i]], w, ids, i + 1);
      if LastOfEntity(w, i) {
        assert w.entityRefs[i] !in w.entityRefs[i + 1..];
      }
    }
  }

  /** After a success each entity of the write has its record, the last one if it is there
      twice, and the records of all others are as before. */
  lemma EntitiesHaveRecords(db: Db, w: Write, ids: seq<string>)
    requires RecordSuccess(db, w, ids).Ok?
    ensures var before, after := db.records, RecordSuccess(db, w, ids).value.records;
      && (forall j :: 0 <= j < |w.entityRefs| && LastOfEntity(w, j) ==>
            j < |ids| && RecordKey(w.entityRefs[j], w.appToken, w.tableId) in after
            && after[RecordKey(w.entityRefs[j], w.appToken, w.tableId)] == ids[j])
      && (forall k | k in after.Keys + before.Keys
            && (k.entity !in w.entityRefs || k.appToken != w.appToken || k.tableId != w.tableId) ::
            k in after && k in before && after[k] == before[k])
  {
    if w.entityRefs != [] {
      assert w.entityRefs[0..] == w.entityRefs;
      UpsertSets(db.records, w, ids, 0);
    }
  }

  function Recorded(db: Db, w: Write, ids: seq<string>): Db {
    match RecordSuccess(db, w, ids) case Ok(after) => after case Err(_) => db
  }

  /** The records the first request that got through created. */
  function FirstSent(attempts: seq<Attempt>): Option<seq<string>>
    decreases |attempts|
  {
    if attempts == [] then None
    else match attempts[0]
      case NotSent => FirstSent(attempts[1..])
      case SentThenLost(newIds) => Some(newIds)
      case SentAndRecorded(newIds) => Some(newIds)
  }

  predicate SomeRecorded(attempts: seq<Attempt>)
    decreases |attempts|
  {
    attempts != [] && (attempts[0].SentAndRecorded? || SomeRecorded(attempts[1..]))
  }

  /** Once the service has the token, further attempts only record its answer. */
  lemma {:induction false} AfterSent(
    db: Db, service: Service, w: Write, ids: seq<string>, done: bool, attempts: seq<Attempt>)
    requires w.clientToken in service && service[w.clientToken] == ids && Distinct(ids)
    ensures HandleAll(World(if done then Recorded(db, w, ids) else db, service), w, attempts)
      == World(if done || SomeRecorded(attempts) then Recorded(db, w, ids) else db, service)
    decreases |attempts|
  {
    if attempts != [] {
      if RecordSuccess(db, w, ids).Ok? {
        RecordAgain(db, w, ids);
      }
      assert BatchCreate(service, w.clientToken, []) == service;
      AfterSent(db, service, w, ids, done || attempts[0].SentAndRecorded?, attempts[1..]);
    }
  }

  /** However often the write is lost before the request, lost after it, or refused,
      the service creates the records once, and the tables end as they would after a
      single success, or untouched when no attempt got as far as recording. */
  lemma {:induction false} LostWritesEndAsOne(world: World, w: Write, attempts: seq<Attempt>)
    requires w.clientToken !in world.service
    requires forall i :: 0 <= i < |attempts| && !attempts[i].NotSent? ==> Distinct(attempts[i].newIds)
    ensures HandleAll(world, w, attempts) ==
      match FirstSent(attempts)
      case None => world
      case Some(ids) =>
        World(if SomeRecorded(attempts) then Recorded(world.db, w, ids) else world.db,
              world.service[w.clientToken := ids])
    decreases |attempts|
  {
    if attempts != [] {
      match attempts[0]
      case NotSent => LostWritesEndAsOne(world, w, attempts[1..]);
      case SentThenLost(ids) =>
        AfterSent(world.db, world.service[w.clientToken := ids], w, ids, false, attempts[1..]);
      case SentAndRecorded(ids) =>
        AfterSent(world.db, world.service[w.clientToken := ids], w, ids, true, attempts[1..]);
    }
  }
}
