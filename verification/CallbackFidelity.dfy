/** A card callback may carry a second approval beside its event: exactly when what is
    executed is what was recorded, and what happens when it is not
    (app/runtime/outbox.py, app/feishu/callbacks.py). */
module CallbackFidelity {
  import opened Wrappers
  import opened Approvals
  import opened ApprovalProtocol

  // ---------------------------------------------- what a decision records

  /** The edit that was accepted with a decision: what the callback parser took from the
      card, or what the admin request had. */
  function AcceptedEdit(payload: ResumePayload): Option<string> {
    match payload
    case FromCard(c) => EditedOf(c.value, c.formValue)
    case FromAdmin(doc) => if doc.edited.Object? then Some(doc.edited.fields) else None
  }

  /** The edit of a recorded approval. */
  function ApprovedEdit(h: HumanApproval): Option<string> {
    if h.decision.Edit? && h.editedRef.Some? then AcceptedEdit(h.editedRef.value) else None
  }

  /** The edit on record is the one the callback parser accepted from the card. */
  lemma CardRecordsEdit(db: Db, c: Callback)
    requires CardReply(db, c) == Queued
    ensures var h := CardDecide(db, c).approvals[c.value.key];
      h.decision == c.value.decision && h.actionId == c.value.actionId
      && ApprovedEdit(h) == if c.value.decision.Edit? then EditedOf(c.value, c.formValue) else None
  {
  }

  /** Or the one in the admin request. */
  lemma AdminRecordsEdit(db: Db, interruptId: string, q: Request)
    requires AdminReply(db, interruptId, q) == Queued
    ensures var a := FindInterrupt(db.proposals, interruptId).value;
      var h := AdminDecide(db, interruptId, q).approvals[db.proposals[a].key];
      h.decision == q.decision && h.actionId == a && ApprovedEdit(h) == if q.decision.Edit? then q.edited else None
  {
  }

  // ------------------------------------------------- faithful callbacks

  predicate Filled(form: Form) { form.Object? && form.fields != "" }

  /** A stored callback that the resume handler refuses: an approval beside the event that
      lacks a member, or an edit without an object. */
  predicate Unreadable(c: Callback) {
    if c.direct.Some? then
      var doc := c.direct.value.doc;
      !c.direct.value.hasActionId || doc.threadId == "" || doc.interruptId == "" || doc.key == ""
      || doc.decision == Other("") || (doc.decision == Edit && !Filled(doc.edited))
    else c.value.decision.Edit? && c.value.edited == NotObject(true)
  }

  /** No approval beside the event, or one that names the same action, decision and edit,
      or one that cannot be read. */
  predicate Faithful(c: Callback) {
    || c.direct.None?
    || Unreadable(c)
    || (c.direct.value.doc.(edited := Absent) == c.value.(edited := Absent)
        && (c.value.decision.Edit? ==> Some(c.direct.value.doc.edited.fields) == EditedOf(c.value, c.formValue)))
  }

  /** For every callback that the parser accepts: it is refused when its row is handled
      exactly when it is unreadable. */
  lemma RefusedIffUnreadable(c: Callback)
    requires ValidCallback(c)
    ensures Decode(FromCard(c)).None? <==> Unreadable(c)
  {
  }

  /** What the handler reads is the recorded action and decision, with the accepted edit. */
  predicate ReadsBack(c: Callback, ap: Approval) {
    && ap.threadId == c.value.threadId && ap.actionId == c.value.actionId
    && ap.interruptId == c.value.interruptId && ap.key == c.value.key && ap.decision == c.value.decision
    && (c.value.decision.Edit? ==> ap.edited == EditedOf(c.value, c.formValue))
  }

  /** And the handler reads nothing else than what was recorded exactly when the callback
      is faithful. */
  lemma ReadBackIffFaithful(c: Callback)
    requires ValidCallback(c)
    ensures Faithful(c) <==> (Decode(FromCard(c)).Some? ==> ReadsBack(c, Decode(FromCard(c)).value))
  {
    RefusedIffUnreadable(c);
  }

  /** The approval recorded under a key and the one that is read from its row disagree. */
  predicate Diverges(key: string, h: HumanApproval, ap: Approval) {
    || ap.key != key || ap.threadId != h.threadId || ap.actionId != h.actionId || ap.interruptId != h.interruptId
    || ap.decision != h.decision || (h.decision.Edit? && ap.edited != ApprovedEdit(h))
  }

  // ------------------------------------------- runs with faithful callbacks

  predicate Plain(e: Event) { e.CardDecision? ==> Faithful(e.callback) }

  predicate AllPlain(events: seq<Event>) { forall i :: 0 <= i < |events| ==> Plain(events[i]) }

  predicate StoredFaithfully(db: Db, key: string)
    requires key in db.approvals && ResumeRow(key) in db.outbox && db.outbox[ResumeRow(key)].ToResume?
  {
    var payload := db.outbox[ResumeRow(key)].resume;
    payload.FromCard? ==> Faithful(payload.callback)
  }

  /** A proposal was executed as its recorded approval says. */
  predicate ExecutedAsApproved(db: Db, a: nat)
    requires a < |db.proposals| && StatusOk(db, a)
  {
    var p := db.proposals[a];
    && (p.status != Pending ==> p.key in db.approvals && db.approvals[p.key].actionId == a)
    && (p.status == Rejected ==> db.approvals[p.key].decision == Reject)
    && (p.status == Approved ==>
          db.approvals[p.key].decision in {Approve, Edit}
          && db.outbox[WriteRow(p.key, a)].write.edited == ApprovedEdit(db.approvals[p.key]))
  }

  ghost predicate FaithfulInv(s: State) {
    && Inv(s)
    && (forall key :: key in s.db.approvals ==> Agree(s.db, key) && StoredFaithfully(s.db, key))
    && (forall a :: 0 <= a < |s.db.proposals| ==> StatusOk(s.db, a) && ExecutedAsApproved(s.db, a))
  }

  /** The handler reads what was recorded: the action, the decision and the edit. */
  lemma ReadsWhatWasRecorded(payload: ResumePayload, h: HumanApproval, key: string)
    requires Records(payload, h, key) && Decode(payload).Some?
    requires payload.FromCard? ==> Faithful(payload.callback)
    ensures !Diverges(key, h, Decode(payload).value)
  {
  }

  lemma ExecutedKept(s: State, t: State, a: nat)
    requires Keeps(s, t) && a < |s.db.proposals| && t.db.proposals[a].status == s.db.proposals[a].status
    requires StatusOk(s.db, a) && ExecutedAsApproved(s.db, a) && StatusOk(t.db, a)
    ensures ExecutedAsApproved(t.db, a)
  {
  }

  /** What the executor does to the one proposal whose status it changes. */
  lemma ExecuteChanges(db: Db, ap: Approval, tables: Tables, newToken: string, a: nat)
    requires a < |db.proposals| && Execute(db, ap, tables, newToken).proposals[a].status != db.proposals[a].status
    ensures var after := Execute(db, ap, tables, newToken); var p := after.proposals[a];
      a == ap.actionId && p.key == ap.key
      && ((p.status == Rejected && ap.decision == Reject)
          || (p.status == Approved && ap.decision in {Approve, Edit}
              && WriteRow(p.key, a) in after.outbox && after.outbox[WriteRow(p.key, a)].ToWrite?
              && after.outbox[WriteRow(p.key, a)].write.edited == if ap.decision.Edit? then ap.edited else None))
  {
  }

  /** A changed status is the one that the recorded approval asks for. */
  lemma ChangedAsApproved(after: Db, ap: Approval, a: nat, h: HumanApproval)
    requires a < |after.proposals| && StatusOk(after, a) && ap.key in after.approvals && h == after.approvals[ap.key]
    requires a == ap.actionId && after.proposals[a].key == ap.key && !Diverges(ap.key, h, ap)
    requires var p := after.proposals[a];
      (p.status == Rejected && ap.decision == Reject)
      || (p.status == Approved && ap.decision in {Approve, Edit}
          && after.outbox[WriteRow(p.key, a)].write.edited == if ap.decision.Edit? then ap.edited else None)
    ensures ExecutedAsApproved(after, a)
  {
  }

  /** The executor acts on what it read, and on nothing else. */
  lemma ExecutedAsRead(tables: Tables, s: State, key: string, ap: Approval, newToken: string)
    requires FaithfulInv(s) && key in s.db.approvals && !Diverges(key, s.db.approvals[key], ap)
    requires Inv(s.(db := Execute(s.db, ap, tables, newToken)))
    ensures var after := Execute(s.db, ap, tables, newToken);
      forall a :: 0 <= a < |after.proposals| ==> StatusOk(after, a) && ExecutedAsApproved(after, a)
  {
    var after := Execute(s.db, ap, tables, newToken);
    var t := s.(db := after);
    ExecuteKeeps(tables, s, ap, newToken);
    ExecuteApprovals(tables, s.db, ap, newToken);
    forall a | 0 <= a < |after.proposals| ensures StatusOk(after, a) && ExecutedAsApproved(after, a) {
      assert StatusOk(t.db, a);
      if after.proposals[a].status == s.db.proposals[a].status {
        assert StatusOk(s.db, a) && ExecutedAsApproved(s.db, a);
        ExecutedKept(s, t, a);
      } else {
        ExecuteChanges(s.db, ap, tables, newToken, a);
        ChangedAsApproved(after, ap, a, s.db.approvals[key]);
      }
    }
  }

  lemma ExecuteApprovals(tables: Tables, db: Db, ap: Approval, newToken: string)
    ensures var after := Execute(db, ap, tables, newToken);
      after.approvals == db.approvals && |after.proposals| == |db.proposals|
  {
  }

  lemma StoredKept(s: State, t: State, key: string)
    requires Keeps(s, t) && key in s.db.approvals && ResumeRow(key) in s.db.outbox
    requires Agree(s.db, key) && StoredFaithfully(s.db, key)
    requires key in t.db.approvals && ResumeRow(key) in t.db.outbox && Agree(t.db, key)
    ensures StoredFaithfully(t.db, key)
  {
  }

  lemma StepStoresFaithfully(tables: Tables, s: State, e: Event, key: string)
    requires FaithfulInv(s) && Enabled(s, e) && Plain(e) && Inv(Apply(tables, s, e))
    requires key in Apply(tables, s, e).db.approvals
    ensures var t := Apply(tables, s, e); Agree(t.db, key) && StoredFaithfully(t.db, key)
  {
    var t := Apply(tables, s, e);
    StepKeeps(tables, s, e);
    assert Agree(t.db, key);
    if key in s.db.approvals {
      assert Agree(s.db, key);
      StoredKept(s, t, key);
    } else {
      NewApproval(tables, s, e, key);
    }
  }

  /** Only a decision adds an approval, and it stores its own payload. */
  lemma NewApproval(tables: Tables, s: State, e: Event, key: string)
    requires Enabled(s, e) && key !in s.db.approvals && key in Apply(tables, s, e).db.approvals
    requires ResumeRow(key) in s.db.outbox ==> key in s.db.approvals
    ensures var row := ResumeRow(key); var t := Apply(tables, s, e);
      row in t.db.outbox
      && ((e.CardDecision? && t.db.outbox[row] == ToResume(FromCard(e.callback)))
          || (t.db.outbox[row].ToResume? && t.db.outbox[row].resume.FromAdmin?))
  {
    if e.Resume? {
      var row := s.db.outbox[s.held[e.worker]];
      if row.ToResume? && Decode(row.resume).Some? {
        ExecuteApprovals(tables, s.db, Decode(row.resume).value, e.newToken);
      }
    }
  }

  lemma StepExecutes(tables: Tables, s: State, e: Event)
    requires FaithfulInv(s) && Enabled(s, e) && Inv(Apply(tables, s, e))
    ensures var t := Apply(tables, s, e);
      forall a :: 0 <= a < |t.db.proposals| ==> StatusOk(t.db, a) && ExecutedAsApproved(t.db, a)
  {
    var t := Apply(tables, s, e);
    if e.Resume? {
      var key := s.held[e.worker].key;
      assert Agree(s.db, key) && StoredFaithfully(s.db, key);
      var payload := s.db.outbox[ResumeRow(key)].resume;
      if Decode(payload).Some? {
        ReadsWhatWasRecorded(payload, s.db.approvals[key], key);
        ExecutedAsRead(tables, s, key, Decode(payload).value, e.newToken);
      }
    } else {
      StepKeeps(tables, s, e);
      forall a | 0 <= a < |t.db.proposals| ensures StatusOk(t.db, a) && ExecutedAsApproved(t.db, a) {
        assert StatusOk(t.db, a);
        if a < |s.db.proposals| {
          assert StatusOk(s.db, a) && ExecutedAsApproved(s.db, a);
          StatusesStay(tables, s, e, a);
          ExecutedKept(s, t, a);
        } else {
          NewIsPending(tables, s, e, a);
        }
      }
    }
  }

  lemma StatusesStay(tables: Tables, s: State, e: Event, a: nat)
    requires Enabled(s, e) && !e.Resume? && a < |s.db.proposals|
    ensures var t := Apply(tables, s, e); a < |t.db.proposals| && t.db.proposals[a] == s.db.proposals[a]
  {
  }

  lemma NewIsPending(tables: Tables, s: State, e: Event, a: nat)
    requires Enabled(s, e) && !e.Resume? && |s.db.proposals| <= a < |Apply(tables, s, e).db.proposals|
    ensures Apply(tables, s, e).db.proposals[a].status == Pending
  {
  }

  lemma FaithfulStep(tables: Tables, s: State, e: Event)
    requires FaithfulInv(s) && Enabled(s, e) && Plain(e)
    ensures FaithfulInv(Apply(tables, s, e))
  {
    var t := Apply(tables, s, e);
    InvStep(tables, s, e);
    StepExecutes(tables, s, e);
    forall key | key in t.db.approvals ensures Agree(t.db, key) && StoredFaithfully(t.db, key) {
      StepStoresFaithfully(tables, s, e, key);
    }
  }

  lemma {:induction false} FaithfulRun(tables: Tables, s: State, events: seq<Event>)
    requires FaithfulInv(s) && AllPlain(events) && Run(tables, s, events).Some?
    ensures FaithfulInv(Run(tables, s, events).value)
    decreases |events|
  {
    if events != [] {
      FaithfulStep(tables, s, events[0]);
      FaithfulRun(tables, Apply(tables, s, events[0]), events[1..]);
    }
  }

  /** Over every interleaving of faithful callbacks with everything else: what was sent
      outside is the write of a proposal whose one recorded approval says approve or
      edit, with exactly the approved edit. */
  lemma SentWritesAreApproved(tables: Tables, events: seq<Event>, i: nat)
    requires AllPlain(events) && Run(tables, START, events).Some? && i < |Run(tables, START, events).value.sent|
    ensures var s := Run(tables, START, events).value; var w := s.sent[i];
      w.actionId < |s.db.proposals|
      && var p := s.db.proposals[w.actionId];
      p.status == Approved && Carries(p, w.actionId, w) && p.key in s.db.approvals
      && s.db.approvals[p.key].actionId == w.actionId && s.db.approvals[p.key].decision in {Approve, Edit}
      && w.edited == ApprovedEdit(s.db.approvals[p.key])
  {
    FaithfulRun(tables, START, events);
    SentWritesAreQueued(tables, events, i);
    var s := Run(tables, START, events).value;
    assert ExecutedAsApproved(s.db, s.sent[i].actionId);
  }

  /** A rejected proposal's recorded decision is to reject, and what is read from the row
      of a recorded approval is that approval. */
  lemma StatusesAreDecided(tables: Tables, events: seq<Event>)
    requires AllPlain(events) && Run(tables, START, events).Some?
    ensures var db := Run(tables, START, events).value.db;
      (forall a :: 0 <= a < |db.proposals| && db.proposals[a].status == Rejected ==>
         db.proposals[a].key in db.approvals && db.approvals[db.proposals[a].key].decision == Reject)
      && (forall key :: key in db.approvals ==>
            ResumeRow(key) in db.outbox && db.outbox[ResumeRow(key)].ToResume?
            && (Decode(db.outbox[ResumeRow(key)].resume).Some? ==>
                  !Diverges(key, db.approvals[key], Decode(db.outbox[ResumeRow(key)].resume).value)))
  {
    FaithfulRun(tables, START, events);
    var db := Run(tables, START, events).value.db;
    forall a | 0 <= a < |db.proposals| && db.proposals[a].status == Rejected
      ensures db.proposals[a].key in db.approvals && db.approvals[db.proposals[a].key].decision == Reject
    {
      assert ExecutedAsApproved(db, a);
    }
    forall key | key in db.approvals && Decode(db.outbox[ResumeRow(key)].resume).Some?
      ensures !Diverges(key, db.approvals[key], Decode(db.outbox[ResumeRow(key)].resume).value)
    {
      assert Agree(db, key) && StoredFaithfully(db, key);
      ReadsWhatWasRecorded(db.outbox[ResumeRow(key)].resume, db.approvals[key], key);
    }
  }

  // ----------------------------------------------- decisions take effect

  /** Worker `w` holds the row of a recorded approval that can be read, and its proposal
      is pending. */
  predicate Resuming(s: State, w: string) {
    && w in s.held && s.held[w].ResumeRow? && s.held[w] in s.db.outbox && s.db.outbox[s.held[w]].ToResume?
    && Decode(s.db.outbox[s.held[w]].resume).Some?
    && s.held[w].key in s.db.approvals && s.db.approvals[s.held[w].key].actionId < |s.db.proposals|
    && s.db.proposals[s.db.approvals[s.held[w].key].actionId].status == Pending
  }

  /** The draft is there and its kind has a table. */
  predicate Writable(p: Proposal, tables: Tables) { p.draft.Some? && p.draft.value.businessKind in tables }

  lemma ResumeDecides(tables: Tables, s: State, w: string, newToken: string)
    requires FaithfulInv(s) && Resuming(s, w)
    ensures var t := Apply(tables, s, Resume(w, newToken));
      var h := s.db.approvals[s.held[w].key]; var a := h.actionId;
      var row := WriteRow(s.held[w].key, a);
      && t.sent == s.sent && t.held == s.held && |t.db.proposals| == |s.db.proposals|
      && t.db.proposals[a].key == s.held[w].key && t.db.proposals[a].draft == s.db.proposals[a].draft
      && (h.decision == Reject ==> t.db.proposals[a].status == Rejected && t.db.outbox == s.db.outbox)
      && (h.decision != Reject && Writable(s.db.proposals[a], tables) ==>
            t.db.proposals[a].status == Approved && row in t.db.outbox && t.db.outbox[row].ToWrite?
            && Carries(s.db.proposals[a], a, t.db.outbox[row].write)
            && t.db.outbox[row].write.edited == ApprovedEdit(h))
      && (h.decision != Reject && !Writable(s.db.proposals[a], tables) ==> t == s)
  {
    var key := s.held[w].key;
    var h := s.db.approvals[key];
    var payload := s.db.outbox[ResumeRow(key)].resume;
    assert Agree(s.db, key) && StoredFaithfully(s.db, key) && StatusOk(s.db, h.actionId);
    ReadsWhatWasRecorded(payload, h, key);
    ReadIsFilled(payload, h, key);
    ExecuteDecides(tables, s.db, Decode(payload).value, newToken);
  }

  /** An edit that can be read is not empty. */
  lemma ReadIsFilled(payload: ResumePayload, h: HumanApproval, key: string)
    requires Decode(payload).Some?
    ensures var ap := Decode(payload).value;
      ap.decision == Edit ==> ap.edited.Some? && ap.edited.value != ""
  {
  }

  /** The executor on a pending proposal that the approval names and whose write is not
      queued yet. */
  lemma ExecuteDecides(tables: Tables, db: Db, ap: Approval, newToken: string)
    requires Named(db.proposals, ap) && db.proposals[ap.actionId].status == Pending && !ap.decision.Other?
    requires ap.decision == Edit ==> ap.edited.Some? && ap.edited.value != ""
    requires WriteRow(ap.key, ap.actionId) !in db.outbox
    ensures var a := ap.actionId; var p := db.proposals[a]; var row := WriteRow(ap.key, a);
      var after := Execute(db, ap, tables, newToken);
      && (ap.decision == Reject ==> after == db.(proposals := db.proposals[a := p.(status := Rejected)]))
      && (ap.decision != Reject && !Writable(p, tables) ==> after == db)
      && (ap.decision != Reject && Writable(p, tables) ==>
            after.proposals == db.proposals[a := p.(status := Approved)]
            && row in after.outbox && after.outbox[row].ToWrite? && Carries(p, a, after.outbox[row].write)
            && after.outbox[row].write.edited == if ap.decision == Edit then ap.edited else None)
  {
  }

  /** Over every run with faithful callbacks, the resume of a readable approval does what
      the recorded decision says, and for good: a rejected proposal is rejected and never
      sent; an approved or edited one, if it can be written, is approved, with the row of
      its write and the edit on record; one that cannot be written stays as it is. */
  lemma DecisionsTakeEffect(
    tables: Tables, events: seq<Event>, w: string, newToken: string, more: seq<Event>)
    requires AllPlain(events) && Run(tables, START, events).Some? && Resuming(Run(tables, START, events).value, w)
    requires Run(tables, Apply(tables, Run(tables, START, events).value, Resume(w, newToken)), more).Some?
    ensures var s := Run(tables, START, events).value; var t := Apply(tables, s, Resume(w, newToken));
      var u := Run(tables, t, more).value;
      var h := s.db.approvals[s.held[w].key]; var a := h.actionId; var row := WriteRow(s.held[w].key, a);
      && h.decision in {Approve, Edit, Reject} && a < |u.db.proposals|
      && (h.decision == Reject ==>
            u.db.proposals[a].status == Rejected && row !in u.db.outbox && t.db.outbox == s.db.outbox
            && forall i :: 0 <= i < |u.sent| ==> u.sent[i].actionId != a)
      && (h.decision != Reject && Writable(s.db.proposals[a], tables) ==>
            u.db.proposals[a].status == Approved && row in u.db.outbox && u.db.outbox[row].ToWrite?
            && Carries(s.db.proposals[a], a, u.db.outbox[row].write)
            && u.db.outbox[row].write.edited == ApprovedEdit(h))
      && (h.decision != Reject && !Writable(s.db.proposals[a], tables) ==> t == s)
  {
    FaithfulRun(tables, START, events);
    var s := Run(tables, START, events).value;
    var t := Apply(tables, s, Resume(w, newToken));
    var a := s.db.approvals[s.held[w].key].actionId;
    assert Agree(s.db, s.held[w].key);
    ResumeDecides(tables, s, w, newToken);
    DecisionsAreFinal(tables, t, more);
    InvStep(tables, s, Resume(w, newToken));
    InvRun(tables, t, more);
    RejectedIsNotSent(Run(tables, t, more).value, a);
  }

  lemma RejectedIsNotSent(s: State, a: nat)
    requires Inv(s) && a < |s.db.proposals|
    ensures s.db.proposals[a].status == Rejected ==>
      WriteRow(s.db.proposals[a].key, a) !in s.db.outbox && forall i :: 0 <= i < |s.sent| ==> s.sent[i].actionId != a
  {
    assert StatusOk(s.db, a);
    forall i | 0 <= i < |s.sent| ensures s.sent[i].actionId == a ==> s.db.proposals[a].status != Rejected {
      assert SentOk(s.db, s.sent[i]);
    }
  }

  /** What an admin decision stores is always read back as it was requested. */
  lemma AdminIsReadBack(db: Db, interruptId: string, a: nat, q: Request)
    requires AdminReply(db, interruptId, q) == Queued && LatestOf(db.proposals, a, interruptId)
    requires var p := db.proposals[a]; p.threadId != "" && p.interruptId != "" && p.key != ""
    ensures var p := db.proposals[a];
      var row := ResumeRow(p.key); var after := AdminDecide(db, interruptId, q);
      row in after.outbox && after.outbox[row].ToResume? && Decode(after.outbox[row].resume).Some?
      && var ap := Decode(after.outbox[row].resume).value;
      ap.threadId == p.threadId && ap.actionId == a && ap.interruptId == p.interruptId && ap.key == p.key
      && ap.decision == q.decision && (q.decision == Edit ==> ap.edited == q.edited)
  {
  }

  /** The edit that a new admin request is compared with is the one on record, for an earlier
      admin decision and for a card without a second approval or edit beside its event. */
  lemma EarlierEditIsOnRecord(payload: ResumePayload, h: HumanApproval, key: string)
    requires Records(payload, h, key) && h.decision == Edit && Decode(payload).Some?
    requires payload.FromCard? ==> payload.callback.direct.None? && !payload.callback.topEdited.Object?
    ensures EditBefore(h) == ApprovedEdit(h) && EditBefore(h).Some?
  {
  }

  /** But a card that carries another edit at its top level is compared by that one: after
      it is accepted, an admin request with the recorded edit is refused as a conflict, and
      one with the other edit counts as the same. */
  lemma TopEditIsCompared(db: Db, c: Callback, interruptId: string, q: Request)
    requires CardReply(db, c) == Queued && c.value.decision == Edit && c.topEdited.Object?
    requires LatestOf(db.proposals, c.value.actionId, interruptId)
    requires q.decision == Edit && q.edited.Some? && q.edited.value != ""
    ensures AdminReply(CardDecide(db, c), interruptId, q)
      == if q.edited.value == c.topEdited.fields then Duplicate else Conflicting
    ensures ApprovedEdit(CardDecide(db, c).approvals[c.value.key]) == EditedOf(c.value, c.formValue)
  {
  }

  // ----------------------------------------------- unfaithful callbacks

  /** In whatever state an unfaithful callback is accepted, the recorded approval and the
      stored one differ from then on. */
  lemma UnfaithfulDiverges(tables: Tables, s: State, c: Callback)
    requires CardReply(s.db, c) == Queued && !Faithful(c)
    ensures var t := Apply(tables, s, CardDecision(c)); var key := c.value.key;
      key in t.db.approvals && ResumeRow(key) in t.db.outbox
      && t.db.outbox[ResumeRow(key)] == ToResume(FromCard(c)) && Decode(FromCard(c)).Some?
      && Diverges(key, t.db.approvals[key], Decode(FromCard(c)).value)
  {
    CardRecordsEdit(s.db, c);
    RefusedIffUnreadable(c);
    ReadBackIffFaithful(c);
  }

  lemma RunStep(tables: Tables, s: State, events: seq<Event>, i: nat)
    requires i < |events| && Enabled(s, events[i])
    ensures Run(tables, s, events[i..]) == Run(tables, Apply(tables, s, events[i]), events[i + 1..])
  {
    assert events[i..][1..] == events[i + 1..];
  }

  /** The callback is handled, and then the write that it led to. */
  function Handling(c: Callback, row: RowKey, w: string, v: string, newToken: string): seq<Event> {
    [CardDecision(c), Claim(w, ResumeRow(c.value.key)), Resume(w, newToken), Claim(v, row), Send(v)]
  }

  /** The approval beside the event names proposal `b`, pending and with a write that can
      be built and is not queued yet, to be approved or readably edited. */
  predicate NamesToSend(db: Db, tables: Tables, c: Callback, b: nat) {
    && c.direct.Some? && !Unreadable(c) && c.direct.value.doc.decision in {Approve, Edit}
    && c.direct.value.doc.actionId == b < |db.proposals| && db.proposals[b].status == Pending
    && Matches(db.proposals[b], c.direct.value.doc.threadId, c.direct.value.doc.interruptId, c.direct.value.doc.key)
    && db.proposals[b].draft.Some? && db.proposals[b].draft.value.businessKind in tables
    && WriteRow(db.proposals[b].key, b) !in db.outbox
  }

  /** The write of `b` that comes of it. */
  predicate SendsFor(db: Db, c: Callback, b: nat, write: Write)
    requires b < |db.proposals| && db.proposals[b].draft.Some? && c.direct.Some? && !Unreadable(c)
  {
    && write.actionId == b && write.fields == db.proposals[b].draft.value.fields
    && write.edited == if c.direct.value.doc.decision.Edit? then Some(c.direct.value.doc.edited.fields) else None
  }

  lemma ResumedSends(tables: Tables, s: State, t: State, c: Callback, b: nat, w: string, newToken: string)
    requires CardReply(s.db, c) == Queued && NamesToSend(s.db, tables, c, b)
    requires t.db == CardDecide(s.db, c) && w in t.held && t.held[w] == ResumeRow(c.value.key)
    ensures var u := Apply(tables, t, Resume(w, newToken)); var row := WriteRow(s.db.proposals[b].key, b);
      u.held == t.held && u.sent == t.sent && u.db.approvals == t.db.approvals
      && |u.db.proposals| == |t.db.proposals| && u.db.proposals[b].status == Approved
      && row in u.db.outbox && u.db.outbox[row].ToWrite?
      && SendsFor(s.db, c, b, u.db.outbox[row].write)
  {
    assert t.db.outbox[ResumeRow(c.value.key)] == ToResume(FromCard(c));
  }

  lemma SendApproved(tables: Tables, s: State, events: seq<Event>, i: nat, v: string, row: RowKey)
    requires i + 2 == |events| && events[i] == Claim(v, row) && events[i + 1] == Send(v)
    requires v !in s.held && row.WriteRow? && row in s.db.outbox && s.db.outbox[row].ToWrite?
    requires MaySend(s.db, s.db.outbox[row].write)
    ensures Run(tables, s, events[i..])
      == Some(s.(held := s.held[v := row], sent := s.sent + [s.db.outbox[row].write]))
  {
    var t := Apply(tables, s, events[i]);
    RunStep(tables, s, events, i);
    RunStep(tables, t, events, i + 1);
    assert events[i + 2..] == [];
  }

  /** In every run an approved proposal's write is there to be claimed, and a worker that
      claims it sends it, with the proposal's fields and token. */
  lemma ApprovedIsSent(tables: Tables, events: seq<Event>, a: nat, v: string)
    requires Run(tables, START, events).Some?
    requires var s := Run(tables, START, events).value;
      a < |s.db.proposals| && s.db.proposals[a].status == Approved && v !in s.held
    ensures var s := Run(tables, START, events).value; var p := s.db.proposals[a];
      var end := Run(tables, s, [Claim(v, WriteRow(p.key, a)), Send(v)]);
      end.Some? && |end.value.sent| == |s.sent| + 1 && Carries(p, a, end.value.sent[|s.sent|])
  {
    InvRun(tables, START, events);
    var s := Run(tables, START, events).value;
    assert StatusOk(s.db, a);
    var row := WriteRow(s.db.proposals[a].key, a);
    var both := [Claim(v, row), Send(v)];
    assert both[0..] == both;
    SendApproved(tables, s, both, 0, v, row);
  }

  /** In whatever state such a callback is accepted, the run that handles it sends the
      write of the proposal that is named beside the event. */
  lemma NamedIsSent(tables: Tables, s: State, c: Callback, b: nat, w: string, v: string, newToken: string)
    requires CardReply(s.db, c) == Queued && NamesToSend(s.db, tables, c, b)
    requires w != v && w !in s.held && v !in s.held
    ensures var end := Run(tables, s, Handling(c, WriteRow(s.db.proposals[b].key, b), w, v, newToken));
      end.Some? && |end.value.sent| == |s.sent| + 1 && SendsFor(s.db, c, b, end.value.sent[|s.sent|])
      && end.value.db.approvals == CardDecide(s.db, c).approvals
  {
    var row := WriteRow(s.db.proposals[b].key, b);
    var events := Handling(c, row, w, v, newToken);
    assert events[0..] == events;
    var s1 := Apply(tables, s, events[0]);
    RunStep(tables, s, events, 0);
    var s2 := Apply(tables, s1, events[1]);
    RunStep(tables, s1, events, 1);
    ResumedSends(tables, s, s2, c, b, w, newToken);
    var s3 := Apply(tables, s2, events[2]);
    RunStep(tables, s2, events, 2);
    SendApproved(tables, s3, events, 3, v, row);
  }

  /** The same action named again, unfaithfully: its write is sent although the recorded
      decision is to reject, or with another edit than the recorded one. */
  lemma UnfaithfulIsSent(tables: Tables, s: State, c: Callback, w: string, v: string, newToken: string)
    requires CardReply(s.db, c) == Queued && !Faithful(c) && NamesToSend(s.db, tables, c, c.value.actionId)
    requires w != v && w !in s.held && v !in s.held
    ensures var row := WriteRow(c.value.key, c.value.actionId);
      var end := Run(tables, s, Handling(c, row, w, v, newToken));
      end.Some? && |end.value.sent| == |s.sent| + 1 && c.value.key in end.value.db.approvals
      && var h := end.value.db.approvals[c.value.key]; var write := end.value.sent[|s.sent|];
      h.decision == c.value.decision && write.actionId == c.value.actionId
      && (h.decision == Reject || write.edited != ApprovedEdit(h))
  {
    NamedIsSent(tables, s, c, c.value.actionId, w, v, newToken);
    CardRecordsEdit(s.db, c);
  }

  /** Another pending proposal named, on which nobody has decided: its write is sent with
      no approval recorded for it at all. */
  lemma UndecidedIsSent(tables: Tables, s: State, c: Callback, b: nat, w: string, v: string, newToken: string)
    requires CardReply(s.db, c) == Queued && NamesToSend(s.db, tables, c, b)
    requires s.db.proposals[b].key != c.value.key && s.db.proposals[b].key !in s.db.approvals
    requires w != v && w !in s.held && v !in s.held
    ensures var key := s.db.proposals[b].key;
      var end := Run(tables, s, Handling(c, WriteRow(key, b), w, v, newToken));
      end.Some? && |end.value.sent| == |s.sent| + 1 && end.value.sent[|s.sent|].actionId == b
      && key !in end.value.db.approvals
  {
    NamedIsSent(tables, s, c, b, w, v, newToken);
  }
}
