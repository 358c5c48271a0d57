/** One decision per business action: the card channel (app/storage/repositories.py),
    the admin channel (app/runtime/approvals.py), the proposal gate
    (app/runtime/action_gate.py), the executor (app/runtime/action_executor.py) and
    the approval check before the external write (app/feishu/outbox_handlers.py). */
module Approvals {
  import opened Wrappers

  // ------------------------------------------------------------- messages

  datatype Decision = Approve | Edit | Reject | Other(word: string)

  /** A member of a payload that should be an object: `Object("")` is the empty one. */
  datatype Form = Absent | NotObject(truthy: bool) | Object(fields: string)

  predicate Truthy(f: Form) { match f case Absent => false case NotObject(t) => t case Object(s) => s != "" }

  datatype Doc = Doc(threadId: string, actionId: nat, interruptId: string, key: string, decision: Decision,
                     edited: Form)

  /** A `human_approval` object; a text that it lacks is "". */
  datatype Direct = Direct(doc: Doc, hasActionId: bool)

  /** A card callback: the action value with its form, and the `human_approval` and
      `edited_payload` that the payload may also have at its top level. */
  datatype Callback = Callback(eventId: string, value: Doc, formValue: Form, direct: Option<Direct>, topEdited: Form)

  /** The payload a resume row points to. */
  datatype ResumePayload = FromCard(callback: Callback) | FromAdmin(doc: Doc)

  /** What the graph is resumed with. */
  datatype Approval = Approval(threadId: string, actionId: nat, interruptId: string, key: string,
                               decision: Decision, edited: Option<string>)

  // --------------------------------------------------------------- tables

  datatype ProposalStatus = Pending | Approved | Rejected | Executed

  datatype Draft = Draft(businessKind: string, fields: string, clientToken: string)

  /** The payload of a proposal; `None` when it is not the object the executor expects. */
  datatype Proposal = Proposal(threadId: string, interruptId: string, key: string, draft: Option<Draft>,
                               status: ProposalStatus)

  datatype HumanApproval = HumanApproval(interruptId: string, actionId: nat, threadId: string, decision: Decision,
                                         editedRef: Option<ResumePayload>)

  datatype Write = Write(actionId: nat, clientToken: string, fields: string, edited: Option<string>)

  /** `resume:<key>` and `bitable:<key>:<action id>`. */
  datatype RowKey = ResumeRow(key: string) | WriteRow(key: string, actionId: nat)

  datatype RowPayload = ToResume(resume: ResumePayload) | ToWrite(write: Write)

  /** Action ids are positions: proposals are only ever added. */
  datatype Db = Db(
    proposals: seq<Proposal>,
    cardEvents: set<string>,
    cardActions: map<string, Decision>,
    approvals: map<string, HumanApproval>,
    outbox: map<RowKey, RowPayload>)

  // ------------------------------------------------------------- decoding

  /** The edited payload the callback parser accepts. */
  function EditedOf(value: Doc, formValue: Form): Option<string> {
    if value.edited.Object? then Some(value.edited.fields)
    else if formValue.Object? then Some(formValue.fields)
    else None
  }

  /** All the texts that are required of an approval. */
  predicate HasTexts(doc: Doc) {
    doc.threadId != "" && doc.interruptId != "" && doc.key != "" && doc.decision != Other("")
  }

  predicate Lacks(d: Direct) { !d.hasActionId || !HasTexts(d.doc) }

  /** Callbacks that the parser turns into a command. */
  predicate ValidCallback(c: Callback) {
    && HasTexts(c.value) && !c.value.decision.Other?
    && (c.value.decision.Edit? ==> EditedOf(c.value, c.formValue).Some? && EditedOf(c.value, c.formValue).value != "")
  }

  function ToApproval(doc: Doc, edited: Form): Option<Approval> {
    if !HasTexts(doc) then None
    else if doc.decision.Edit? && !(edited.Object? && edited.fields != "") then None
    else Some(Approval(doc.threadId, doc.actionId, doc.interruptId, doc.key, doc.decision,
                       if edited.Object? then Some(edited.fields) else None))
  }

  /** The stored payload read back when the row is handled. */
  function Decode(p: ResumePayload): Option<Approval> {
    match p
    case FromAdmin(doc) => ToApproval(doc, doc.edited)
    case FromCard(c) =>
      if c.direct.Some? then
        if Lacks(c.direct.value) then None else ToApproval(c.direct.value.doc, c.direct.value.doc.edited)
      else ToApproval(c.value, if Truthy(c.value.edited) then c.value.edited else c.formValue)
  }

  /** The edited payload of an earlier decision, for comparison. */
  function ExtractEdited(p: ResumePayload): Option<string> {
    match p
    case FromAdmin(doc) => if doc.edited.Object? then Some(doc.edited.fields) else None
    case FromCard(c) =>
      if c.topEdited.Object? then Some(c.topEdited.fields)
      else if c.direct.Some? && c.direct.value.doc.edited.Object? then Some(c.direct.value.doc.edited.fields)
      else
        var f := if Truthy(c.value.edited) then c.value.edited else c.formValue;
        if f.Object? then Some(f.fields) else None
  }

  // ------------------------------------------------------- the transactions

  function FindKey(ps: seq<Proposal>, key: string): (r: Option<nat>)
    ensures r.Some? ==> r.value < |ps| && ps[r.value].key == key
    ensures r.None? ==> forall i :: 0 <= i < |ps| ==> ps[i].key != key
    decreases |ps|
  {
    if ps == [] then None
    else if ps[|ps| - 1].key == key then Some(|ps| - 1)
    else FindKey(ps[..|ps| - 1], key)
  }

  /** Proposal `a` is the latest of the interrupt. */
  predicate LatestOf(ps: seq<Proposal>, a: nat, interruptId: string) {
    a < |ps| && ps[a].interruptId == interruptId && forall b :: a < b < |ps| ==> ps[b].interruptId != interruptId
  }

  /** The latest proposal of an interrupt. */
  function FindInterrupt(ps: seq<Proposal>, interruptId: string): (r: Option<nat>)
    ensures r.Some? ==> LatestOf(ps, r.value, interruptId)
    ensures r.None? ==> forall i :: 0 <= i < |ps| ==> ps[i].interruptId != interruptId
    decreases |ps|
  {
    if ps == [] then None
    else if ps[|ps| - 1].interruptId == interruptId then Some(|ps| - 1)
    else FindInterrupt(ps[..|ps| - 1], interruptId)
  }

  /** A proposal is created once per key; proposing again finds it. */
  function Propose(db: Db, threadId: string, interruptId: string, key: string, draft: Option<Draft>): Db {
    if FindKey(db.proposals, key).Some? then db
    else db.(proposals := db.proposals + [Proposal(threadId, interruptId, key, draft, Pending)])
  }

  datatype Reply = Queued | Duplicate | AlreadyHandled | Conflicting | NotFound | Invalid

  predicate Matches(p: Proposal, threadId: string, interruptId: string, key: string) {
    p.threadId == threadId && p.interruptId == interruptId && p.key == key
  }

  function CardReply(db: Db, c: Callback): Reply {
    var v := c.value;
    if !ValidCallback(c) || v.actionId >= |db.proposals| then Invalid
    else if !Matches(db.proposals[v.actionId], v.threadId, v.interruptId, v.key) then Invalid
    else if db.proposals[v.actionId].status != Pending then Duplicate
    else if c.eventId in db.cardEvents || v.key in db.cardActions then Duplicate
    else if v.key in db.approvals || ResumeRow(v.key) in db.outbox then Duplicate
    else Queued
  }

  /** The three inserts of the card channel, or none of them. */
  function CardDecide(db: Db, c: Callback): Db {
    var v := c.value;
    if CardReply(db, c) != Queued then db
    else
      var edited := EditedOf(v, c.formValue);
      var ref := if edited.Some? && edited.value != "" then Some(FromCard(c)) else None;
      db.(cardEvents := db.cardEvents + {c.eventId},
          cardActions := db.cardActions[v.key := v.decision],
          approvals := db.approvals[v.key := HumanApproval(v.interruptId, v.actionId, v.threadId, v.decision, ref)],
          outbox := db.outbox[ResumeRow(v.key) := ToResume(FromCard(c))])
  }

  /** An admin request; the request schema refuses other decisions and empty edits. */
  datatype Request = Request(decision: Decision, edited: Option<string>)

  predicate ValidRequest(q: Request) {
    !q.decision.Other? && (q.decision.Edit? ==> q.edited.Some? && q.edited.value != "")
  }

  function AdminDoc(a: nat, p: Proposal, q: Request): Doc {
    Doc(p.threadId, a, p.interruptId, p.key, q.decision,
        if q.edited.Some? && q.edited.value != "" then Object(q.edited.value) else Absent)
  }

  /** The edit that an earlier approval points to. */
  function EditBefore(h: HumanApproval): Option<string> {
    if h.editedRef.Some? then ExtractEdited(h.editedRef.value) else None
  }

  function AdminReply(db: Db, interruptId: string, q: Request): Reply {
    var found := FindInterrupt(db.proposals, interruptId);
    if !ValidRequest(q) then Invalid
    else if found.None? then NotFound
    else
      var p := db.proposals[found.value];
      if p.status != Pending then AlreadyHandled
      else if p.key in db.approvals then
        var existing := db.approvals[p.key];
        if existing.decision != q.decision then Conflicting
        else if q.decision.Edit? && EditBefore(existing) != q.edited then Conflicting
        else Duplicate
      else if ResumeRow(p.key) in db.outbox
           && db.outbox[ResumeRow(p.key)] != ToResume(FromAdmin(AdminDoc(found.value, p, q))) then Conflicting
      else Queued
  }

  function AdminDecide(db: Db, interruptId: string, q: Request): Db {
    if AdminReply(db, interruptId, q) != Queued then db
    else
      var a := FindInterrupt(db.proposals, interruptId).value;
      var p := db.proposals[a];
      var payload := FromAdmin(AdminDoc(a, p, q));
      db.(approvals := db.approvals[p.key :=
            HumanApproval(p.interruptId, a, p.threadId, q.decision, if q.decision.Edit? then Some(payload) else None)],
          outbox := if ResumeRow(p.key) in db.outbox then db.outbox
                    else db.outbox[ResumeRow(p.key) := ToResume(payload)])
  }

  /** A request is answered by its words, by the interrupt's latest proposal and by what is
      recorded for it. */
  lemma AdminIsAnswered(db: Db, interruptId: string, q: Request)
    ensures var reply := AdminReply(db, interruptId, q);
      && (reply == Invalid <==> q.decision !in {Approve, Edit, Reject}
                                || (q.decision == Edit && (q.edited == None || q.edited == Some(""))))
      && (reply != Invalid ==>
            (reply == NotFound <==> forall p :: p in db.proposals ==> p.interruptId != interruptId))
      && (forall a: nat :: reply != Invalid && LatestOf(db.proposals, a, interruptId) ==>
            var p := db.proposals[a];
            if p.status != Pending then reply == AlreadyHandled
            else if p.key in db.approvals then
              reply == if db.approvals[p.key].decision == q.decision
                          && (q.decision == Edit ==> EditBefore(db.approvals[p.key]) == q.edited) then Duplicate
                       else Conflicting
            else if ResumeRow(p.key) in db.outbox then
              reply == if db.outbox[ResumeRow(p.key)] == ToResume(FromAdmin(AdminDoc(a, p, q))) then Queued
                       else Conflicting
            else reply == Queued)
  {
  }

  /** A queued one adds the approval and the resume row, any other adds nothing. */
  lemma AdminIsRecorded(db: Db, interruptId: string, q: Request)
    ensures var after := AdminDecide(db, interruptId, q);
      if AdminReply(db, interruptId, q) == Queued then
        forall a: nat :: LatestOf(db.proposals, a, interruptId) ==>
          var p := db.proposals[a];
          var doc := Doc(p.threadId, a, p.interruptId, p.key, q.decision,
                         if q.edited == None || q.edited == Some("") then Absent else Object(q.edited.value));
          after == db.(outbox := db.outbox[ResumeRow(p.key) := ToResume(FromAdmin(doc))],
                       approvals := db.approvals[p.key :=
                         HumanApproval(p.interruptId, a, p.threadId, q.decision,
                                       if q.decision == Edit then Some(FromAdmin(doc)) else None)])
      else after == db
  {
  }

  // ---------------------------------------------------------- the executor

  /** Business kinds with a configured table. */
  type Tables = set<string>

  function BuildWrite(a: nat, draft: Option<Draft>, ap: Approval, tables: Tables, newToken: string): Option<Write> {
    if draft.None? || draft.value.businessKind !in tables then None
    else
      var token := if draft.value.clientToken == "" then newToken else draft.value.clientToken;
      Some(Write(a, token, draft.value.fields, if ap.decision.Edit? then ap.edited else None))
  }

  /** The approval names a proposal, by its thread, its key and perhaps its interrupt. */
  predicate Named(ps: seq<Proposal>, ap: Approval) {
    && ap.actionId < |ps| && ps[ap.actionId].threadId == ap.threadId && ps[ap.actionId].key == ap.key
    && (ap.interruptId == "" || ps[ap.actionId].interruptId == ap.interruptId)
  }

  datatype Execution = Rejecting | QueuedWrite(write: Write) | Already | Failed

  function Outcome(db: Db, ap: Approval, tables: Tables, newToken: string): Execution {
    if ap.actionId >= |db.proposals| then Failed
    else
      var p := db.proposals[ap.actionId];
      if p.threadId != ap.threadId || (ap.interruptId != "" && p.interruptId != ap.interruptId)
         || p.key != ap.key then Failed
      else if p.status != Pending then Already
      else if ap.decision.Reject? then Rejecting
      else if ap.decision.Other? then Failed
      else if ap.decision.Edit? && (ap.edited.None? || ap.edited.value == "") then Failed
      else
        var write := BuildWrite(ap.actionId, p.draft, ap, tables, newToken);
        var row := WriteRow(p.key, ap.actionId);
        if write.None? then Failed
        else if row in db.outbox && db.outbox[row] != ToWrite(write.value) then Failed
        else QueuedWrite(write.value)
  }

  function Mark(db: Db, a: nat, status: ProposalStatus): Db
    requires a < |db.proposals|
  {
    db.(proposals := db.proposals[a := db.proposals[a].(status := status)])
  }

  function Execute(db: Db, ap: Approval, tables: Tables, newToken: string): Db {
    match Outcome(db, ap, tables, newToken)
    case Rejecting => Mark(db, ap.actionId, Rejected)
    case QueuedWrite(write) =>
      var row := WriteRow(db.proposals[ap.actionId].key, ap.actionId);
      Mark(db.(outbox := db.outbox[row := ToWrite(write)]), ap.actionId, Approved)
    case Already => db
    case Failed => db
  }

  /** The check made before the external call. */
  predicate MaySend(db: Db, w: Write) {
    w.actionId < |db.proposals| && db.proposals[w.actionId].status in {Approved, Executed}
  }

  // ----------------------------------------------------- the same, in place

  class ApprovalSession {
    var proposals: seq<Proposal>
    var cardEvents: set<string>
    var cardActions: map<string, Decision>
    var approvals: map<string, HumanApproval>
    var outbox: map<RowKey, RowPayload>

    constructor (db: Db)
      ensures View() == db
    {
      proposals, cardEvents, cardActions := db.proposals, db.cardEvents, db.cardActions;
      approvals, outbox := db.approvals, db.outbox;
    }

    function View(): Db
      reads this
    {
      Db(proposals, cardEvents, cardActions, approvals, outbox)
    }

    method Restore(db: Db)
      modifies this
      ensures View() == db
    {
      proposals, cardEvents, cardActions := db.proposals, db.cardEvents, db.cardActions;
      approvals, outbox := db.approvals, db.outbox;
    }

    method ProposeAction(threadId: string, interruptId: string, key: string, draft: Option<Draft>) returns (a: nat)
      modifies this
      ensures View() == Propose(old(View()), threadId, interruptId, key, draft)
      ensures a < |proposals| && proposals[a].key == key
      ensures cardEvents == old(cardEvents) && cardActions == old(cardActions)
      ensures approvals == old(approvals) && outbox == old(outbox)
      ensures (exists p :: p in old(proposals) && p.key == key) ==> proposals == old(proposals)
      ensures (forall p :: p in old(proposals) ==> p.key != key) ==>
        a == |old(proposals)|
        && proposals == old(proposals) + [Proposal(threadId, interruptId, key, draft, Pending)]
    {
      var existing := FindKey(proposals, key);
      if existing.Some? {
        return existing.value;
      }
      a := |proposals|;
      proposals := proposals + [Proposal(threadId, interruptId, key, draft, Pending)];
    }

    /** The inserts one after the other; a broken unique constraint undoes them all. */
    method RecordActionAndEnqueueResume(c: Callback) returns (reply: Reply)
      modifies this
      ensures View() == CardDecide(old(View()), c)
      ensures reply == CardReply(old(View()), c)
      ensures var v := c.value;
        reply == Queued <==>
          && v.decision in {Approve, Edit, Reject}
          && v.threadId != "" && v.interruptId != "" && v.key != ""
          && (v.decision == Edit ==>
                (v.edited.Object? && v.edited.fields != "")
                || (!v.edited.Object? && c.formValue.Object? && c.formValue.fields != ""))
          && v.actionId < |proposals| && old(proposals)[v.actionId].status == Pending
          && old(proposals)[v.actionId].threadId == v.threadId && old(proposals)[v.actionId].key == v.key
          && old(proposals)[v.actionId].interruptId == v.interruptId
          && c.eventId !in old(cardEvents) && v.key !in old(cardActions)
          && v.key !in old(approvals) && ResumeRow(v.key) !in old(outbox)
      ensures reply == Queued ==> var v := c.value;
        && cardEvents == old(cardEvents) + {c.eventId} && cardActions == old(cardActions)[v.key := v.decision]
        && outbox == old(outbox)[ResumeRow(v.key) := ToResume(FromCard(c))]
        && v.key in approvals && approvals == old(approvals)[v.key := approvals[v.key]]
        && approvals[v.key].(editedRef := None)
           == HumanApproval(v.interruptId, v.actionId, v.threadId, v.decision, None)
        && (v.decision == Edit ==> approvals[v.key].editedRef == Some(FromCard(c)))
      ensures proposals == old(proposals)
      ensures reply != Queued ==> View() == old(View()) && reply in {Invalid, Duplicate}
    {
      var v := c.value;
      if !ValidCallback(c) || v.actionId >= |proposals| {
        return Invalid;
      }
      var p := proposals[v.actionId];
      if p.threadId != v.threadId || p.interruptId != v.interruptId || p.key != v.key {
        return Invalid;
      }
      if p.status != Pending {
        return Duplicate;
      }
      var start := View();
      var edited := EditedOf(v, c.formValue);
      var ref := if edited.Some? && edited.value != "" then Some(FromCard(c)) else None;
      if c.eventId in cardEvents || v.key in cardActions {
        return Duplicate;
      }
      cardEvents := cardEvents + {c.eventId};
      cardActions := cardActions[v.key := v.decision];
      if v.key in approvals {
        Restore(start);
        return Duplicate;
      }
      approvals := approvals[v.key := HumanApproval(v.interruptId, v.actionId, v.threadId, v.decision, ref)];
      if ResumeRow(v.key) in outbox {
        Restore(start);
        return Duplicate;
      }
      outbox := outbox[ResumeRow(v.key) := ToResume(FromCard(c))];
      reply := Queued;
    }

    method SubmitDecision(interruptId: string, q: Request) returns (reply: Reply)
      modifies this
      ensures View() == AdminDecide(old(View()), interruptId, q)
      ensures reply == AdminReply(old(View()), interruptId, q)
    {
      if !ValidRequest(q) {
        return Invalid;
      }
      var found := FindInterrupt(proposals, interruptId);
      if found.None? {
        return NotFound;
      }
      var a := found.value;
      var p := proposals[a];
      if p.status != Pending {
        return AlreadyHandled;
      }
      var payload := FromAdmin(AdminDoc(a, p, q));
      if p.key in approvals {
        var existing := approvals[p.key];
        if existing.decision != q.decision {
          return Conflicting;
        }
        if q.decision.Edit? {
          var before := if existing.editedRef.Some? then ExtractEdited(existing.editedRef.value) else None;
          if before != q.edited {
            return Conflicting;
          }
        }
        return Duplicate;
      }
      if ResumeRow(p.key) in outbox {
        if outbox[ResumeRow(p.key)] != ToResume(payload) {
          return Conflicting;
        }
      } else {
        outbox := outbox[ResumeRow(p.key) := ToResume(payload)];
      }
      approvals := approvals[p.key :=
        HumanApproval(p.interruptId, a, p.threadId, q.decision, if q.decision.Edit? then Some(payload) else None)];
      reply := Queued;
    }

    method ExecuteApproval(ap: Approval, tables: Tables, newToken: string) returns (outcome: Execution)
      modifies this
      ensures View() == Execute(old(View()), ap, tables, newToken)
      ensures outcome == Outcome(old(View()), ap, tables, newToken)
      ensures approvals == old(approvals) && cardEvents == old(cardEvents) && cardActions == old(cardActions)
      ensures !Named(old(proposals), ap) ==> outcome == Failed && View() == old(View())
      ensures Named(old(proposals), ap) && old(proposals)[ap.actionId].status != Pending ==>
        outcome == Already && View() == old(View())
      ensures Named(old(proposals), ap) && old(proposals)[ap.actionId].status == Pending ==>
        var a := ap.actionId;
        var p, row := old(proposals)[a], WriteRow(ap.key, a);
        match ap.decision
        case Reject =>
          outcome == Rejecting && proposals == old(proposals)[a := p.(status := Rejected)] && outbox == old(outbox)
        case Other(_) => outcome == Failed && View() == old(View())
        case _ =>
          if p.draft.None? || p.draft.value.businessKind !in tables
             || (ap.decision == Edit && (ap.edited == None || ap.edited == Some(""))) then
            outcome == Failed && View() == old(View())
          else
            var write := Write(a, if p.draft.value.clientToken != "" then p.draft.value.clientToken else newToken,
                               p.draft.value.fields, if ap.decision == Edit then ap.edited else None);
            if row in old(outbox) && old(outbox)[row] != ToWrite(write) then
              outcome == Failed && View() == old(View())
            else
              outcome == QueuedWrite(write) && outbox == old(outbox)[row := ToWrite(write)]
              && proposals == old(proposals)[a := p.(status := Approved)]
    {
      if ap.actionId >= |proposals| {
        return Failed;
      }
      var a := ap.actionId;
      var p := proposals[a];
      if p.threadId != ap.threadId || (ap.interruptId != "" && p.interruptId != ap.interruptId) || p.key != ap.key {
        return Failed;
      }
      if p.status in {Approved, Executed, Rejected} {
        return Already;
      }
      if ap.decision == Reject {
        MarkProposal(a, Rejected);
        return Rejecting;
      }
      if ap.decision != Approve && ap.decision != Edit {
        return Failed;
      }
      if ap.decision == Edit && (ap.edited.None? || ap.edited.value == "") {
        return Failed;
      }
      var write := BuildWrite(a, p.draft, ap, tables, newToken);
      if write.None? {
        return Failed;
      }
      var row := WriteRow(p.key, a);
      if row in outbox && outbox[row] != ToWrite(write.value) {
        return Failed;
      }
      outbox := outbox[row := ToWrite(write.value)];
      MarkProposal(a, Approved);
      outcome := QueuedWrite(write.value);
    }

    method MarkProposal(a: nat, status: ProposalStatus)
      requires a < |proposals|
      modifies this`proposals
      ensures proposals == old(proposals)[a := old(proposals)[a].(status := status)]
    {
      proposals := proposals[a := proposals[a].(status := status)];
    }

    method EnsureActionApproved(w: Write) returns (ok: bool)
      ensures ok <==> MaySend(View(), w)
      ensures ok <==> w.actionId < |proposals| && proposals[w.actionId].status in {Approved, Executed}
    {
      ok := w.actionId < |proposals|
        && (proposals[w.actionId].status == Approved || proposals[w.actionId].status == Executed);
    }

    /** The write handler up to its request: what it sends for a claimed row, if anything. */
    method WriteToSend(row: RowKey) returns (w: Option<Write>)
      ensures w == if row in outbox && outbox[row].ToWrite? && MaySend(View(), outbox[row].write)
                   then Some(outbox[row].write) else None
    {
      if row !in outbox || !outbox[row].ToWrite? {
        return None;
      }
      var ok := EnsureActionApproved(outbox[row].write);
      w := if ok then Some(outbox[row].write) else None;
    }
  }
}
