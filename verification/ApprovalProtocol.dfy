/** Every interleaving of proposals, decisions from both channels, claims, resumed
    executions, external writes and crashes. */
module ApprovalProtocol {
  import opened Wrappers
  import opened Approvals

  /** The committed tables, the row each live worker holds, and every external
      write that was sent, whether or not its transaction committed afterwards. */
  datatype State = State(db: Db, held: map<string, RowKey>, sent: seq<Write>)

  datatype Event =
    | Proposing(threadId: string, interruptId: string, key: string, draft: Option<Draft>)
    | CardDecision(callback: Callback)
    | AdminDecision(interrupt: string, request: Request)
    | Claim(worker: string, row: RowKey)
    | Resume(worker: string, newToken: string)
    | Send(worker: string)
    | Drop(worker: string)

  /** Interrupt ids are fresh when a proposal is new. A claim may come at any time and
      any number of workers may hold a row: leases are not relied upon here. */
  predicate Enabled(s: State, e: Event) {
    match e
    case Proposing(_, interruptId, key, _) =>
      FindKey(s.db.proposals, key).Some? || FindInterrupt(s.db.proposals, interruptId).None?
    case Claim(w, row) => w !in s.held && row in s.db.outbox
    case Resume(w, _) => w in s.held && s.held[w].ResumeRow? && s.held[w] in s.db.outbox
    case Send(w) => w in s.held && s.held[w].WriteRow? && s.held[w] in s.db.outbox
    case Drop(w) => w in s.held
    case _ => true
  }

  /** A resumed graph may run the executor, once or again; a write is sent only after
      the approval check. `Drop` is a completion, a rollback or a crash: what a rolled
      back transaction did is not in `db`, and what it sent stays sent. */
  function Apply(tables: Tables, s: State, e: Event): State
    requires Enabled(s, e)
  {
    match e
    case Proposing(threadId, interruptId, key, draft) => s.(db := Propose(s.db, threadId, interruptId, key, draft))
    case CardDecision(c) => s.(db := CardDecide(s.db, c))
    case AdminDecision(interrupt, q) => s.(db := AdminDecide(s.db, interrupt, q))
    case Claim(w, row) => s.(held := s.held[w := row])
    case Resume(w, newToken) =>
      (match s.db.outbox[s.held[w]]
       case ToResume(payload) =>
         (match Decode(payload)
          case Some(ap) => s.(db := Execute(s.db, ap, tables, newToken))
          case None => s)
       case ToWrite(_) => s)
    case Send(w) =>
      (match s.db.outbox[s.held[w]]
       case ToWrite(write) => if MaySend(s.db, write) then s.(sent := s.sent + [write]) else s
       case ToResume(_) => s)
    case Drop(w) => s.(held := s.held - {w})
  }

  function Run(tables: Tables, s: State, events: seq<Event>): Option<State>
    decreases |events|
  {
    if events == [] then Some(s)
    else if Enabled(s, events[0]) then Run(tables, Apply(tables, s, events[0]), events[1..])
    else None
  }

  const START := State(Db([], {}, map[], map[], map[]), map[], [])

  // -------------------------------------------------------- the invariant

  /** The recorded approval is that of the stored event. */
  predicate Agree(db: Db, key: string)
    requires key in db.approvals && ResumeRow(key) in db.outbox
  {
    var h := db.approvals[key];
    && h.actionId < |db.proposals|
    && Matches(db.proposals[h.actionId], h.threadId, h.interruptId, key)
    && !h.decision.Other?
    && db.outbox[ResumeRow(key)].ToResume?
    && Records(db.outbox[ResumeRow(key)].resume, h, key)
  }

  /** `h` has the action, key and decision of the card's event or of the admin's document. */
  predicate Records(payload: ResumePayload, h: HumanApproval, key: string) {
    var doc := match payload case FromAdmin(doc) => doc case FromCard(c) => c.value;
    && (payload.FromCard? ==> ValidCallback(payload.callback))
    && doc.actionId == h.actionId && doc.threadId == h.threadId && doc.interruptId == h.interruptId
    && doc.key == key && doc.decision == h.decision
    && (h.decision.Edit? ==> h.editedRef == Some(payload))
  }

  /** What the row of a proposal must be, for its status. */
  predicate StatusOk(db: Db, a: nat)
    requires a < |db.proposals|
  {
    var p := db.proposals[a];
    var row := WriteRow(p.key, a);
    && p.status != Executed
    && (p.status == Approved <==> row in db.outbox)
    && (p.status == Approved ==> db.outbox[row].ToWrite? && Carries(p, a, db.outbox[row].write))
  }

  /** The write has the fields and the token of the proposal. */
  predicate Carries(p: Proposal, a: nat, w: Write) {
    && w.actionId == a && p.draft.Some? && w.fields == p.draft.value.fields
    && (p.draft.value.clientToken != "" ==> w.clientToken == p.draft.value.clientToken)
  }

  ghost predicate Inv(s: State) {
    var db := s.db;
    && (forall i, j :: 0 <= i < j < |db.proposals| ==>
          db.proposals[i].key != db.proposals[j].key && db.proposals[i].interruptId != db.proposals[j].interruptId)
    && (forall key :: key in db.approvals <==> ResumeRow(key) in db.outbox)
    && (forall key :: key in db.approvals ==> Agree(db, key))
    && (forall a :: 0 <= a < |db.proposals| ==> StatusOk(db, a))
    && (forall key: string, a: nat :: WriteRow(key, a) in db.outbox ==>
          a < |db.proposals| && db.proposals[a].key == key)
    && (forall i :: 0 <= i < |s.sent| ==> SentOk(db, s.sent[i]))
  }

  predicate SentOk(db: Db, w: Write) {
    && w.actionId < |db.proposals|
    && WriteRow(db.proposals[w.actionId].key, w.actionId) in db.outbox
    && db.outbox[WriteRow(db.proposals[w.actionId].key, w.actionId)] == ToWrite(w)
  }

  lemma InvStep(tables: Tables, s: State, e: Event)
    requires Inv(s) && Enabled(s, e)
    ensures Inv(Apply(tables, s, e))
  {
    match e
    case Proposing(threadId, interruptId, key, draft) => ProposingKeepsInv(s, threadId, interruptId, key, draft);
    case CardDecision(c) => CardKeepsInv(s, c);
    case AdminDecision(interrupt, q) => AdminKeepsInv(s, interrupt, q);
    case Resume(w, newToken) => ResumeKeepsInv(tables, s, w, newToken);
    case Send(w) => SendKeepsInv(tables, s, w);
    case _ =>
  }

  lemma ResumeKeepsInv(tables: Tables, s: State, w: string, newToken: string)
    requires Inv(s) && Enabled(s, Resume(w, newToken))
    ensures Inv(Apply(tables, s, Resume(w, newToken)))
  {
    var payload := s.db.outbox[s.held[w]];
    if payload.ToResume? && Decode(payload.resume).Some? {
      ExecuteKeepsInv(tables, s, Decode(payload.resume).value, newToken);
    }
  }

  lemma SendKeepsInv(tables: Tables, s: State, w: string)
    requires Inv(s) && Enabled(s, Send(w))
    ensures Inv(Apply(tables, s, Send(w)))
  {
    assert StatusOk(s.db, s.held[w].actionId);
  }

  lemma SentKept(s: State, after: Db)
    requires forall i :: 0 <= i < |s.sent| ==> SentOk(s.db, s.sent[i])
    requires |s.db.proposals| <= |after.proposals|
    requires forall a :: 0 <= a < |s.db.proposals| ==> after.proposals[a].key == s.db.proposals[a].key
    requires forall row: RowKey :: row.WriteRow? && row in s.db.outbox ==>
      row in after.outbox && after.outbox[row] == s.db.outbox[row]
    ensures forall i :: 0 <= i < |s.sent| ==> SentOk(after, s.sent[i])
  {
    forall i | 0 <= i < |s.sent| ensures SentOk(after, s.sent[i]) {
      assert SentOk(s.db, s.sent[i]);
    }
  }

  lemma ProposingKeepsInv(s: State, threadId: string, interruptId: string, key: string, draft: Option<Draft>)
    requires Inv(s) && Enabled(s, Proposing(threadId, interruptId, key, draft))
    ensures Inv(s.(db := Propose(s.db, threadId, interruptId, key, draft)))
  {
    var t := s.(db := Propose(s.db, threadId, interruptId, key, draft));
    if FindKey(s.db.proposals, key).None? {
      forall k | k in t.db.approvals ensures Agree(t.db, k) {
        assert Agree(s.db, k);
      }
      forall a | 0 <= a < |t.db.proposals| ensures StatusOk(t.db, a) {
        if a < |s.db.proposals| {
          assert StatusOk(s.db, a);
        }
      }
      forall i | 0 <= i < |t.sent| ensures SentOk(t.db, t.sent[i]) {
        assert SentOk(s.db, s.sent[i]);
      }
    }
  }

  /** The status of a proposal stays right when its row stays. */
  lemma StatusKept(db: Db, after: Db, a: nat)
    requires a < |db.proposals| && a < |after.proposals| && after.proposals[a] == db.proposals[a] && StatusOk(db, a)
    requires Same(db, after, WriteRow(db.proposals[a].key, a))
    ensures StatusOk(after, a)
  {
  }

  predicate Same(db: Db, after: Db, row: RowKey) {
    (row in db.outbox <==> row in after.outbox) && (row in db.outbox ==> after.outbox[row] == db.outbox[row])
  }

  lemma AgreeKept(db: Db, after: Db, key: string)
    requires key in db.approvals && ResumeRow(key) in db.outbox && Agree(db, key)
    requires after.proposals == db.proposals && key in after.approvals && after.approvals[key] == db.approvals[key]
    requires Same(db, after, ResumeRow(key))
    ensures Agree(after, key)
  {
  }

  /** `t` is `s` with a decision added for an undecided pending proposal. */
  predicate DecisionAdded(s: State, t: State, key: string, h: HumanApproval, payload: ResumePayload) {
    && t.sent == s.sent && t.db.proposals == s.db.proposals
    && key !in s.db.approvals && h.actionId < |s.db.proposals|
    && s.db.proposals[h.actionId].status == Pending
    && Matches(s.db.proposals[h.actionId], h.threadId, h.interruptId, key)
    && !h.decision.Other? && Records(payload, h, key)
    && t.db.approvals == s.db.approvals[key := h]
    && t.db.outbox == s.db.outbox[ResumeRow(key) := ToResume(payload)]
  }

  lemma DecisionKeepsApprovals(s: State, t: State, key: string, h: HumanApproval, payload: ResumePayload)
    requires Inv(s) && DecisionAdded(s, t, key, h, payload)
    ensures forall k :: k in t.db.approvals <==> ResumeRow(k) in t.db.outbox
    ensures forall k :: k in t.db.approvals ==> Agree(t.db, k)
  {
    forall k | k in t.db.approvals ensures ResumeRow(k) in t.db.outbox && Agree(t.db, k) {
      if k != key {
        AgreeKept(s.db, t.db, k);
      }
    }
  }

  lemma DecisionKeepsStatus(s: State, t: State, key: string, h: HumanApproval, payload: ResumePayload)
    requires Inv(s) && DecisionAdded(s, t, key, h, payload)
    ensures forall a :: 0 <= a < |t.db.proposals| ==> StatusOk(t.db, a)
  {
    forall a | 0 <= a < |t.db.proposals| ensures StatusOk(t.db, a) {
      StatusKept(s.db, t.db, a);
    }
  }

  lemma DecisionKeepsInv(s: State, t: State, key: string, h: HumanApproval, payload: ResumePayload)
    requires Inv(s) && DecisionAdded(s, t, key, h, payload)
    ensures Inv(t)
  {
    DecisionKeepsApprovals(s, t, key, h, payload);
    DecisionKeepsStatus(s, t, key, h, payload);
    SentKept(s, t.db);
  }

  lemma CardKeepsInv(s: State, c: Callback)
    requires Inv(s)
    ensures Inv(s.(db := CardDecide(s.db, c)))
  {
    if CardReply(s.db, c) == Queued {
      var t := s.(db := CardDecide(s.db, c));
      DecisionKeepsInv(s, t, c.value.key, t.db.approvals[c.value.key], FromCard(c));
    }
  }

  lemma AdminKeepsInv(s: State, interrupt: string, q: Request)
    requires Inv(s)
    ensures Inv(s.(db := AdminDecide(s.db, interrupt, q)))
  {
    if AdminReply(s.db, interrupt, q) == Queued {
      var t := s.(db := AdminDecide(s.db, interrupt, q));
      var a := FindInterrupt(s.db.proposals, interrupt).value;
      var p := s.db.proposals[a];
      DecisionKeepsInv(s, t, p.key, t.db.approvals[p.key], FromAdmin(AdminDoc(a, p, q)));
    }
  }

  /** Deciding one proposal, and perhaps queueing its write, leaves the rest alone. */
  lemma OthersKept(db: Db, after: Db, a: nat)
    requires forall key :: key in db.approvals <==> ResumeRow(key) in db.outbox
    requires forall key :: key in db.approvals ==> Agree(db, key)
    requires a < |db.proposals| == |after.proposals| && after.approvals == db.approvals
    requires after.proposals == db.proposals[a := after.proposals[a]]
    requires after.proposals[a].(status := db.proposals[a].status) == db.proposals[a]
    requires forall row :: row != WriteRow(db.proposals[a].key, a) ==> Same(db, after, row)
    ensures forall key :: key in after.approvals <==> ResumeRow(key) in after.outbox
    ensures forall key :: key in after.approvals ==> Agree(after, key)
    ensures forall b :: 0 <= b < |db.proposals| && b != a && StatusOk(db, b) ==> StatusOk(after, b)
  {
    forall key ensures key in after.approvals <==> ResumeRow(key) in after.outbox {
      assert Same(db, after, ResumeRow(key));
    }
    forall key | key in after.approvals ensures Agree(after, key) {
      assert Agree(db, key) && Same(db, after, ResumeRow(key));
    }
    forall b | 0 <= b < |db.proposals| && b != a && StatusOk(db, b) ensures StatusOk(after, b) {
      assert Same(db, after, WriteRow(db.proposals[b].key, b));
      StatusKept(db, after, b);
    }
  }

  /** Whatever was read from a row, executing it keeps the invariant. */
  lemma ExecuteKeepsInv(tables: Tables, s: State, ap: Approval, newToken: string)
    requires Inv(s)
    ensures Inv(s.(db := Execute(s.db, ap, tables, newToken)))
  {
    match Outcome(s.db, ap, tables, newToken)
    case Rejecting => RejectKeepsInv(s, ap.actionId);
    case QueuedWrite(write) => ApproveKeepsInv(s, ap.actionId, write);
    case _ =>
  }

  lemma RejectKeepsInv(s: State, a: nat)
    requires Inv(s) && a < |s.db.proposals| && s.db.proposals[a].status == Pending
    ensures Inv(s.(db := Mark(s.db, a, Rejected)))
  {
    assert StatusOk(s.db, a);
    assert StatusOk(Mark(s.db, a, Rejected), a);
    StatusesKept(s, Mark(s.db, a, Rejected), a);
  }

  /** Changing the status of one proposal, and perhaps queueing its write. */
  lemma StatusesKept(s: State, after: Db, a: nat)
    requires Inv(s) && a < |s.db.proposals| == |after.proposals| && after.approvals == s.db.approvals
    requires after.proposals == s.db.proposals[a := after.proposals[a]]
    requires after.proposals[a].(status := s.db.proposals[a].status) == s.db.proposals[a]
    requires forall row :: row != WriteRow(s.db.proposals[a].key, a) ==> Same(s.db, after, row)
    requires s.db.proposals[a].status == Pending && StatusOk(after, a)
    ensures Inv(s.(db := after))
  {
    OthersKept(s.db, after, a);
    assert StatusOk(s.db, a);
    forall row: RowKey | row.WriteRow? && row in s.db.outbox
      ensures row in after.outbox && after.outbox[row] == s.db.outbox[row]
    {
      assert Same(s.db, after, row);
    }
    SentKept(s, after);
    forall b | 0 <= b < |after.proposals| ensures StatusOk(after, b) {
      assert StatusOk(s.db, b);
    }
    forall key: string, b: nat | WriteRow(key, b) in after.outbox
      ensures b < |after.proposals| && after.proposals[b].key == key
    {
      assert WriteRow(key, b) != WriteRow(s.db.proposals[a].key, a) ==> Same(s.db, after, WriteRow(key, b));
    }
  }

  /** The table after the write of proposal `a` was queued. */
  function WithWrite(db: Db, a: nat, write: Write): Db
    requires a < |db.proposals|
  {
    Mark(db.(outbox := db.outbox[WriteRow(db.proposals[a].key, a) := ToWrite(write)]), a, Approved)
  }

  lemma ApproveKeepsInv(s: State, a: nat, write: Write)
    requires Inv(s) && a < |s.db.proposals| && s.db.proposals[a].status == Pending
    requires Carries(s.db.proposals[a], a, write)
    ensures Inv(s.(db := WithWrite(s.db, a, write)))
  {
    assert StatusOk(WithWrite(s.db, a, write), a);
    StatusesKept(s, WithWrite(s.db, a, write), a);
  }

  lemma {:induction false} InvRun(tables: Tables, s: State, events: seq<Event>)
    requires Inv(s) && Run(tables, s, events).Some?
    ensures Inv(Run(tables, s, events).value)
    decreases |events|
  {
    if events != [] {
      InvStep(tables, s, events[0]);
      InvRun(tables, Apply(tables, s, events[0]), events[1..]);
    }
  }

  // ------------------------------------------------------ what it gives

  /** Over every interleaving, and for whatever callbacks: what was sent outside is the
      queued write of an approved proposal, with its fields and token, and all that was
      sent for one proposal is the same. */
  lemma SentWritesAreQueued(tables: Tables, events: seq<Event>, i: nat)
    requires Run(tables, START, events).Some? && i < |Run(tables, START, events).value.sent|
    ensures var s := Run(tables, START, events).value; var w := s.sent[i];
      w.actionId < |s.db.proposals|
      && var p := s.db.proposals[w.actionId];
      p.status == Approved && Carries(p, w.actionId, w)
      && WriteRow(p.key, w.actionId) in s.db.outbox && s.db.outbox[WriteRow(p.key, w.actionId)] == ToWrite(w)
      && forall j :: 0 <= j < |s.sent| && s.sent[j].actionId == w.actionId ==> s.sent[j] == w
  {
    InvRun(tables, START, events);
    var s := Run(tables, START, events).value;
    assert SentOk(s.db, s.sent[i]);
    assert StatusOk(s.db, s.sent[i].actionId);
    forall j | 0 <= j < |s.sent| && s.sent[j].actionId == s.sent[i].actionId ensures s.sent[j] == s.sent[i] {
      assert SentOk(s.db, s.sent[j]);
    }
  }

  /** A write row exists exactly for the approved proposals, one for each, and nothing was
      sent for any other. */
  lemma WriteRowsAreTheApproved(tables: Tables, events: seq<Event>, a: nat)
    requires Run(tables, START, events).Some? && a < |Run(tables, START, events).value.db.proposals|
    ensures var s := Run(tables, START, events).value;
      var p := s.db.proposals[a];
      (p.status == Approved <==> exists key :: WriteRow(key, a) in s.db.outbox)
      && (forall key :: WriteRow(key, a) in s.db.outbox ==> key == p.key)
      && p.status != Executed
      && (p.status != Approved ==> forall i :: 0 <= i < |s.sent| ==> s.sent[i].actionId != a)
  {
    InvRun(tables, START, events);
    var s := Run(tables, START, events).value;
    assert StatusOk(s.db, a);
    forall i | 0 <= i < |s.sent| && s.sent[i].actionId == a ensures s.db.proposals[a].status == Approved {
      assert SentOk(s.db, s.sent[i]);
    }
  }

  /** An approval is recorded for a key exactly when its resume row exists, and it is for
      the action and has the decision of the event stored there. */
  lemma ApprovalIffResumeRow(tables: Tables, events: seq<Event>, key: string)
    requires Run(tables, START, events).Some?
    ensures var db := Run(tables, START, events).value.db;
      (key in db.approvals <==> ResumeRow(key) in db.outbox)
      && (key in db.approvals ==>
            db.outbox[ResumeRow(key)].ToResume?
            && Records(db.outbox[ResumeRow(key)].resume, db.approvals[key], key))
  {
    InvRun(tables, START, events);
    var db := Run(tables, START, events).value.db;
    if key in db.approvals {
      assert Agree(db, key);
    }
  }

  /** The decision that `e` would make, if it is one, is about proposal `a`. */
  predicate Decides(db: Db, e: Event, a: nat) {
    match e
    case CardDecision(c) => c.value.actionId == a
    case AdminDecision(interrupt, _) => FindInterrupt(db.proposals, interrupt) == Some(a)
    case _ => false
  }

  /** Later events keep every recorded approval, every stored row and every status
      that is no longer pending. */
  predicate Keeps(s: State, t: State) {
    && |s.db.proposals| <= |t.db.proposals|
    && (forall a :: 0 <= a < |s.db.proposals| ==>
          t.db.proposals[a].(status := s.db.proposals[a].status) == s.db.proposals[a])
    && (forall a :: 0 <= a < |s.db.proposals| && s.db.proposals[a].status != Pending ==>
          t.db.proposals[a].status == s.db.proposals[a].status)
    && (forall key :: key in s.db.approvals ==> key in t.db.approvals && t.db.approvals[key] == s.db.approvals[key])
    && (forall row :: row in s.db.outbox ==> row in t.db.outbox && t.db.outbox[row] == s.db.outbox[row])
    && s.sent <= t.sent
  }

  lemma {:induction false} DecisionsAreFinal(tables: Tables, s: State, events: seq<Event>)
    requires Run(tables, s, events).Some?
    ensures Keeps(s, Run(tables, s, events).value)
    decreases |events|
  {
    if events != [] {
      var t := Apply(tables, s, events[0]);
      StepKeeps(tables, s, events[0]);
      DecisionsAreFinal(tables, t, events[1..]);
    }
  }

  lemma ProposeKeeps(s: State, threadId: string, interruptId: string, key: string, draft: Option<Draft>)
    ensures Keeps(s, s.(db := Propose(s.db, threadId, interruptId, key, draft)))
  {
  }

  lemma CardKeeps(s: State, c: Callback)
    ensures Keeps(s, s.(db := CardDecide(s.db, c)))
  {
  }

  lemma AdminKeeps(s: State, interrupt: string, q: Request)
    ensures Keeps(s, s.(db := AdminDecide(s.db, interrupt, q)))
  {
  }

  lemma ResumeKeeps(tables: Tables, s: State, w: string, newToken: string)
    requires Enabled(s, Resume(w, newToken))
    ensures Keeps(s, Apply(tables, s, Resume(w, newToken)))
  {
    var row := s.db.outbox[s.held[w]];
    if row.ToResume? && Decode(row.resume).Some? {
      ExecuteKeeps(tables, s, Decode(row.resume).value, newToken);
    }
  }

  lemma StepKeeps(tables: Tables, s: State, e: Event)
    requires Enabled(s, e)
    ensures Keeps(s, Apply(tables, s, e))
  {
    match e
    case Proposing(threadId, interruptId, key, draft) => ProposeKeeps(s, threadId, interruptId, key, draft);
    case CardDecision(c) => CardKeeps(s, c);
    case AdminDecision(interrupt, q) => AdminKeeps(s, interrupt, q);
    case Resume(w, newToken) => ResumeKeeps(tables, s, w, newToken);
    case Claim(_, _) =>
    case Send(_) =>
    case Drop(_) =>
  }

  lemma ExecuteKeeps(tables: Tables, s: State, ap: Approval, newToken: string)
    ensures Keeps(s, s.(db := Execute(s.db, ap, tables, newToken)))
  {
  }

  /** Card actions are only recorded together with an approval. */
  ghost predicate ActionsDecided(db: Db) { forall key :: key in db.cardActions ==> key in db.approvals }

  lemma ActionsDecidedStep(tables: Tables, s: State, e: Event)
    requires ActionsDecided(s.db) && Enabled(s, e)
    ensures ActionsDecided(Apply(tables, s, e).db)
  {
    StepKeeps(tables, s, e);
    if e.Resume? {
      var row := s.db.outbox[s.held[e.worker]];
      if row.ToResume? && Decode(row.resume).Some? {
        assert Execute(s.db, Decode(row.resume).value, tables, e.newToken).cardActions == s.db.cardActions;
      }
    }
  }

  lemma {:induction false} ActionsDecidedRun(tables: Tables, s: State, events: seq<Event>)
    requires ActionsDecided(s.db) && Run(tables, s, events).Some?
    ensures ActionsDecided(Run(tables, s, events).value.db)
    decreases |events|
  {
    if events != [] {
      ActionsDecidedStep(tables, s, events[0]);
      ActionsDecidedRun(tables, Apply(tables, s, events[0]), events[1..]);
    }
  }

  predicate Names(c: Callback, a: nat, p: Proposal) {
    c.value.actionId == a && Matches(p, c.value.threadId, c.value.interruptId, c.value.key)
  }

  /** In every run an undecided pending proposal is open for a decision: the first valid
      callback under an event id not seen before, or the first valid admin request, is
      queued. */
  lemma UndecidedIsOpen(tables: Tables, events: seq<Event>, a: nat, c: Callback, q: Request)
    requires Run(tables, START, events).Some?
    requires var db := Run(tables, START, events).value.db;
      a < |db.proposals| && db.proposals[a].status == Pending && db.proposals[a].key !in db.approvals
    ensures var db := Run(tables, START, events).value.db; var p := db.proposals[a];
      && (Names(c, a, p) && ValidCallback(c) && c.eventId !in db.cardEvents ==> CardReply(db, c) == Queued)
      && (ValidRequest(q) ==>
            AdminReply(db, p.interruptId, q) == Queued && FindInterrupt(db.proposals, p.interruptId) == Some(a))
  {
    InvRun(tables, START, events);
    ActionsDecidedRun(tables, START, events);
  }

  /** First decision wins: from the moment a proposal has an approval, in whatever way
      the run goes on, that approval and its resume row stay and no submission about the
      proposal through either channel changes anything. */
  lemma FirstDecisionWins(tables: Tables, events: seq<Event>, more: seq<Event>, a: nat, e: Event)
    requires Run(tables, START, events).Some?
    requires Run(tables, Run(tables, START, events).value, more).Some?
    requires var db := Run(tables, START, events).value.db;
      a < |db.proposals| && db.proposals[a].key in db.approvals
    requires Decides(Run(tables, Run(tables, START, events).value, more).value.db, e, a)
    ensures var s := Run(tables, START, events).value; var t := Run(tables, s, more).value;
      var key := s.db.proposals[a].key;
      key in t.db.approvals && t.db.approvals[key] == s.db.approvals[key]
      && ResumeRow(key) in t.db.outbox && ResumeRow(key) in s.db.outbox
      && t.db.outbox[ResumeRow(key)] == s.db.outbox[ResumeRow(key)]
      && Apply(tables, t, e) == t
  {
    InvRun(tables, START, events);
    DecisionsAreFinal(tables, Run(tables, START, events).value, more);
  }
}
