/** Approval, external write and record keeping together: every interleaving of the
    approval protocol with a service that deduplicates client tokens and the tables that
    remember its answers (app/feishu/outbox_handlers.py, app/storage/repositories.py). */
module ApprovedDelivery {
  import opened Wrappers
  import A = Approvals
  import B = BitableSync
  import F = CallbackFidelity
  import P = ApprovalProtocol

  /** `created` has the writes for which the service made new records. */
  datatype State = State(protocol: P.State, world: B.World, created: seq<A.Write>)

  /** A step of the protocol, or the delivery of a claimed write: the request gets through,
      and its answer is recorded and committed or lost. */
  datatype Event =
    | Step(e: P.Event)
    | Deliver(worker: string, newIds: seq<string>, recorded: bool)

  /** How a queued write becomes a request: the client token is passed on. */
  type Render = A.Write -> B.Write

  ghost predicate PassesToken(render: Render) { forall w :: render(w).clientToken == w.clientToken }

  predicate Enabled(s: State, e: Event) {
    match e
    case Step(e) => !e.Send? && P.Enabled(s.protocol, e)
    case Deliver(worker, _, _) => P.Enabled(s.protocol, P.Send(worker))
  }

  function Attempt(e: Event): B.Attempt
    requires e.Deliver?
  {
    if e.recorded then B.SentAndRecorded(e.newIds) else B.SentThenLost(e.newIds)
  }

  /** The request of `w` and what follows from it. */
  function Sent(render: Render, s: State, w: A.Write, attempt: B.Attempt): State {
    State(s.protocol.(sent := s.protocol.sent + [w]), B.Handle(s.world, render(w), attempt),
          if w.clientToken in s.world.service then s.created else s.created + [w])
  }

  function Apply(tables: A.Tables, render: Render, s: State, e: Event): State
    requires Enabled(s, e)
  {
    match e
    case Step(e) => s.(protocol := P.Apply(tables, s.protocol, e))
    case Deliver(worker, _, _) =>
      var row := s.protocol.db.outbox[s.protocol.held[worker]];
      if row.ToWrite? && A.MaySend(s.protocol.db, row.write) then Sent(render, s, row.write, Attempt(e)) else s
  }

  function Run(tables: A.Tables, render: Render, s: State, events: seq<Event>): Option<State>
    decreases |events|
  {
    if events == [] then Some(s)
    else if Enabled(s, events[0]) then Run(tables, render, Apply(tables, render, s, events[0]), events[1..])
    else None
  }

  function Start(records: map<B.RecordKey, string>): State {
    State(P.START, B.World(B.Db(map[], records), map[]), [])
  }

  // ------------------------------------------------------------ the invariant

  predicate TokenSent(sent: seq<A.Write>, token: string) {
    exists i :: 0 <= i < |sent| && sent[i].clientToken == token
  }

  /** The service knows exactly the tokens that were sent, and each was created once. */
  ghost predicate ServiceOk(s: State) {
    && (forall token :: token in s.world.service <==> TokenSent(s.protocol.sent, token))
    && (forall token :: token in s.world.service <==> TokenSent(s.created, token))
    && (forall i, j :: 0 <= i < j < |s.created| ==> s.created[i].clientToken != s.created[j].clientToken)
    && (forall i :: 0 <= i < |s.created| ==> s.created[i] in s.protocol.sent)
  }

  /** The chunk of a token is that of a single success of a write that was sent under it. */
  predicate ChunkOf(render: Render, chunk: B.Chunk, w: A.Write, token: string, ids: seq<string>) {
    w.clientToken == token && chunk == B.NewChunk(render(w), B.Succeeded, ids, None)
  }

  ghost predicate ChunkIsSent(render: Render, s: State, token: string)
    requires token in s.world.db.chunks && token in s.world.service
  {
    exists i :: 0 <= i < |s.protocol.sent|
      && ChunkOf(render, s.world.db.chunks[token], s.protocol.sent[i], token, s.world.service[token])
  }

  ghost predicate ChunksOk(render: Render, s: State) {
    forall token :: token in s.world.db.chunks ==> token in s.world.service && ChunkIsSent(render, s, token)
  }

  ghost predicate Inv(render: Render, s: State) { P.Inv(s.protocol) && ServiceOk(s) && ChunksOk(render, s) }

  lemma TokenSentMore(sent: seq<A.Write>, w: A.Write)
    ensures forall token :: TokenSent(sent + [w], token) <==> TokenSent(sent, token) || token == w.clientToken
  {
    var more := sent + [w];
    forall token ensures TokenSent(more, token) <==> TokenSent(sent, token) || token == w.clientToken {
      if i :| 0 <= i < |sent| && sent[i].clientToken == token {
        assert more[i].clientToken == token;
      }
      if i :| 0 <= i < |more| && more[i].clientToken == token {
        assert i < |sent| ==> sent[i].clientToken == token;
      }
      assert more[|sent|] == w;
    }
  }

  lemma SentKeepsService(render: Render, s: State, w: A.Write, attempt: B.Attempt)
    requires PassesToken(render) && ServiceOk(s) && !attempt.NotSent?
    ensures ServiceOk(Sent(render, s, w, attempt))
  {
    var t := Sent(render, s, w, attempt);
    TokenSentMore(s.protocol.sent, w);
    TokenSentMore(s.created, w);
    assert t.world.service == B.BatchCreate(s.world.service, w.clientToken, attempt.newIds);
    if w.clientToken !in s.world.service {
      assert !TokenSent(s.created, w.clientToken);
    }
  }

  lemma SuccessKeepsChunk(db: B.Db, w: B.Write, ids: seq<string>)
    requires B.RecordSuccess(db, w, ids).Ok?
    requires w.clientToken in db.chunks && db.chunks[w.clientToken].recordIds == ids
    requires db.chunks[w.clientToken].status.Succeeded? && db.chunks[w.clientToken].lastError == None
    ensures B.RecordSuccess(db, w, ids).value.chunks == db.chunks
  {
    assert db.chunks[w.clientToken].payloadHash == B.HashOf(w);
  }

  lemma SuccessChunks(db: B.Db, w: B.Write, ids: seq<string>)
    requires B.RecordSuccess(db, w, ids).Ok? && w.clientToken !in db.chunks
    ensures B.RecordSuccess(db, w, ids).value.chunks
      == db.chunks[w.clientToken := B.NewChunk(w, B.Succeeded, ids, None)]
  {
  }

  /** The chunk table changes at most by the chunk of a first success. */
  lemma HandledChunks(world: B.World, w: B.Write, attempt: B.Attempt)
    requires !attempt.NotSent?
    requires w.clientToken in world.db.chunks ==>
      w.clientToken in world.service && world.db.chunks[w.clientToken].recordIds == world.service[w.clientToken]
      && world.db.chunks[w.clientToken].status.Succeeded? && world.db.chunks[w.clientToken].lastError == None
    ensures var chunks := B.Handle(world, w, attempt).db.chunks;
      var ids := B.Created(world.service, w.clientToken, attempt.newIds);
      chunks == world.db.chunks
      || (w.clientToken !in world.db.chunks
          && chunks == world.db.chunks[w.clientToken := B.NewChunk(w, B.Succeeded, ids, None)])
  {
    var ids := B.Created(world.service, w.clientToken, attempt.newIds);
    if attempt.SentAndRecorded? && B.RecordSuccess(world.db, w, ids).Ok? {
      if w.clientToken in world.db.chunks {
        SuccessKeepsChunk(world.db, w, ids);
      } else {
        SuccessChunks(world.db, w, ids);
      }
    }
  }

  lemma ChunkStaysSent(render: Render, s: State, t: State, token: string)
    requires token in s.world.db.chunks && token in s.world.service && ChunkIsSent(render, s, token)
    requires token in t.world.db.chunks && t.world.db.chunks[token] == s.world.db.chunks[token]
    requires token in t.world.service && t.world.service[token] == s.world.service[token]
    requires s.protocol.sent <= t.protocol.sent
    ensures ChunkIsSent(render, t, token)
  {
    var i :| 0 <= i < |s.protocol.sent|
      && ChunkOf(render, s.world.db.chunks[token], s.protocol.sent[i], token, s.world.service[token]);
    assert t.protocol.sent[i] == s.protocol.sent[i];
  }

  lemma SentKeepsChunks(render: Render, s: State, w: A.Write, attempt: B.Attempt)
    requires PassesToken(render) && ServiceOk(s) && ChunksOk(render, s) && !attempt.NotSent?
    ensures ChunksOk(render, Sent(render, s, w, attempt))
  {
    var t := Sent(render, s, w, attempt);
    var token, ids := w.clientToken, B.Created(s.world.service, w.clientToken, attempt.newIds);
    if token in s.world.db.chunks {
      assert ChunkIsSent(render, s, token);
    }
    HandledChunks(s.world, render(w), attempt);
    forall k | k in t.world.db.chunks ensures k in t.world.service && ChunkIsSent(render, t, k) {
      if k in s.world.db.chunks {
        ChunkStaysSent(render, s, t, k);
      } else {
        assert ChunkOf(render, t.world.db.chunks[k], t.protocol.sent[|s.protocol.sent|], k, ids);
      }
    }
  }

  lemma InvStep(tables: A.Tables, render: Render, s: State, e: Event)
    requires PassesToken(render) && Inv(render, s) && Enabled(s, e)
    ensures Inv(render, Apply(tables, render, s, e))
  {
    match e
    case Step(e) =>
      P.InvStep(tables, s.protocol, e);
      assert P.Apply(tables, s.protocol, e).sent == s.protocol.sent;
    case Deliver(worker, _, _) =>
      P.InvStep(tables, s.protocol, P.Send(worker));
      var row := s.protocol.db.outbox[s.protocol.held[worker]];
      if row.ToWrite? && A.MaySend(s.protocol.db, row.write) {
        SentKeepsService(render, s, row.write, Attempt(e));
        SentKeepsChunks(render, s, row.write, Attempt(e));
      }
  }

  lemma {:induction false} InvRun(tables: A.Tables, render: Render, s: State, events: seq<Event>)
    requires PassesToken(render) && Inv(render, s) && Run(tables, render, s, events).Some?
    ensures Inv(render, Run(tables, render, s, events).value)
    decreases |events|
  {
    if events != [] {
      InvStep(tables, render, s, events[0]);
      InvRun(tables, render, Apply(tables, render, s, events[0]), events[1..]);
    }
  }

  lemma StartHolds(render: Render, records: map<B.RecordKey, string>)
    ensures Inv(render, Start(records))
  {
  }

  // ------------------------------------------------------------ what it gives

  /** Over every interleaving with crashes, lost answers and whatever callbacks: all requests
      for one proposal are the same, with its fields and one token; the proposal is
      approved, and its records are created at most once. */
  lemma DeliveredOnce(
    tables: A.Tables, render: Render, records: map<B.RecordKey, string>, events: seq<Event>, i: nat)
    requires PassesToken(render) && Run(tables, render, Start(records), events).Some?
    requires i < |Run(tables, render, Start(records), events).value.protocol.sent|
    ensures var s := Run(tables, render, Start(records), events).value;
      var w, db := s.protocol.sent[i], s.protocol.db;
      w.actionId < |db.proposals| && db.proposals[w.actionId].status == A.Approved
      && P.Carries(db.proposals[w.actionId], w.actionId, w)
      && (forall j :: 0 <= j < |s.protocol.sent| && s.protocol.sent[j].actionId == w.actionId ==>
            s.protocol.sent[j] == w)
      && (forall j, k :: 0 <= j < k < |s.created| && s.created[j].actionId == w.actionId ==>
            s.created[k].actionId != w.actionId)
      && w.clientToken in s.world.service && TokenSent(s.created, w.clientToken)
  {
    StartHolds(render, records);
    InvRun(tables, render, Start(records), events);
    var s := Run(tables, render, Start(records), events).value;
    var db := s.protocol.db;
    assert P.SentOk(db, s.protocol.sent[i]) && P.StatusOk(db, s.protocol.sent[i].actionId);
    forall j | 0 <= j < |s.protocol.sent| && s.protocol.sent[j].actionId == s.protocol.sent[i].actionId
      ensures s.protocol.sent[j] == s.protocol.sent[i]
    {
      SameAction(s, s.protocol.sent[j], s.protocol.sent[i]);
    }
    forall j, k | 0 <= j < k < |s.created| && s.created[j].actionId == s.protocol.sent[i].actionId
      ensures s.created[k].actionId != s.protocol.sent[i].actionId
    {
      if s.created[k].actionId == s.protocol.sent[i].actionId {
        assert s.created[j] in s.protocol.sent && s.created[k] in s.protocol.sent;
        assert s.created[j].clientToken != s.created[k].clientToken;
        SameAction(s, s.created[j], s.created[k]);
      }
    }
    assert TokenSent(s.protocol.sent, s.protocol.sent[i].clientToken);
  }

  predicate AllPlain(events: seq<Event>) {
    forall i :: 0 <= i < |events| && events[i].Step? ==> F.Plain(events[i].e)
  }

  lemma {:induction false} FaithfulRun(tables: A.Tables, render: Render, s: State, events: seq<Event>)
    requires F.FaithfulInv(s.protocol) && AllPlain(events) && Run(tables, render, s, events).Some?
    ensures F.FaithfulInv(Run(tables, render, s, events).value.protocol)
    decreases |events|
  {
    if events != [] {
      var e := events[0];
      F.FaithfulStep(tables, s.protocol, if e.Step? then e.e else P.Send(e.worker));
      FaithfulRun(tables, render, Apply(tables, render, s, e), events[1..]);
    }
  }

  /** And if the callbacks are faithful, each request is for a recorded approval or edit,
      with exactly the approved edit. */
  lemma DeliveredAsApproved(
    tables: A.Tables, render: Render, records: map<B.RecordKey, string>, events: seq<Event>, i: nat)
    requires PassesToken(render) && AllPlain(events) && Run(tables, render, Start(records), events).Some?
    requires i < |Run(tables, render, Start(records), events).value.protocol.sent|
    ensures var s := Run(tables, render, Start(records), events).value;
      var w, db := s.protocol.sent[i], s.protocol.db;
      w.actionId < |db.proposals| && db.proposals[w.actionId].key in db.approvals
      && db.approvals[db.proposals[w.actionId].key].decision in {A.Approve, A.Edit}
      && w.edited == F.ApprovedEdit(db.approvals[db.proposals[w.actionId].key])
  {
    DeliveredOnce(tables, render, records, events, i);
    FaithfulRun(tables, render, Start(records), events);
    var s := Run(tables, render, Start(records), events).value;
    assert P.SentOk(s.protocol.db, s.protocol.sent[i]);
    assert F.ExecutedAsApproved(s.protocol.db, s.protocol.sent[i].actionId);
  }

  lemma SameAction(s: State, v: A.Write, w: A.Write)
    requires P.Inv(s.protocol) && v in s.protocol.sent && w in s.protocol.sent && v.actionId == w.actionId
    ensures v == w
  {
    var i :| 0 <= i < |s.protocol.sent| && s.protocol.sent[i] == v;
    var j :| 0 <= j < |s.protocol.sent| && s.protocol.sent[j] == w;
    assert P.SentOk(s.protocol.db, s.protocol.sent[i]) && P.SentOk(s.protocol.db, s.protocol.sent[j]);
  }

  /** And the chunk recorded for its token, if no other proposal shares the token, is the
      one that a single success with the service's first answer leaves. */
  lemma RecordedAsCreated(
    tables: A.Tables, render: Render, records: map<B.RecordKey, string>, events: seq<Event>, i: nat)
    requires PassesToken(render) && Run(tables, render, Start(records), events).Some?
    requires var s := Run(tables, render, Start(records), events).value;
      i < |s.protocol.sent| && s.protocol.sent[i].clientToken in s.world.db.chunks
      && forall j :: 0 <= j < |s.protocol.sent| && s.protocol.sent[j].clientToken == s.protocol.sent[i].clientToken ==>
           s.protocol.sent[j].actionId == s.protocol.sent[i].actionId
    ensures var s := Run(tables, render, Start(records), events).value;
      var w := s.protocol.sent[i];
      w.clientToken in s.world.service
      && s.world.db.chunks[w.clientToken]
         == B.NewChunk(render(w), B.Succeeded, s.world.service[w.clientToken], None)
  {
    StartHolds(render, records);
    InvRun(tables, render, Start(records), events);
    var s := Run(tables, render, Start(records), events).value;
    var w := s.protocol.sent[i];
    var j :| 0 <= j < |s.protocol.sent|
      && ChunkOf(render, s.world.db.chunks[w.clientToken], s.protocol.sent[j], w.clientToken,
                 s.world.service[w.clientToken]);
    SameAction(s, s.protocol.sent[j], w);
  }
}
