/** Messages and task confirmations coming in from Feishu, each handled in one
    transaction (app/feishu/service.py, app/storage/repositories.py). */
module Intake {
  import opened OutboxStores
  import opened Wrappers

  // ------------------------------------------------------------- what comes in

  /** What the request text was read as; `profile` is the usable default model, if any. */
  datatype TaskIntake = TaskIntake(sourceRef: string, threadId: string, summary: string, profile: Option<string>)

  /** A verified callback: an absent member is "". `payload` is the text of the card or
      of the prepare payload that is built from it. */
  datatype Delivery = Delivery(
    tenant: string, eventType: string, messageId: string, eventId: string, body: string,
    intake: Option<TaskIntake>, payload: string)

  datatype Decision = Approve | Edit | Reject

  datatype Confirmation = Confirmation(
    eventId: string, threadId: string, key: string, decision: Decision, taskRef: Name, body: string)

  datatype Reply = Queued | Rejected | Duplicate | Refused

  // ------------------------------------------------------------------- tables

  datatype EventRow = EventRow(eventId: string, payloadRef: Ref)

  /** A card action; `task` marks a task confirmation. */
  datatype Card = Card(task: bool, decision: Decision)

  datatype Tables = Tables(
    store: Db, threads: map<string, string>, events: map<string, EventRow>,
    cardEvents: set<string>, cards: map<string, Card>)

  function DedupeKey(d: Delivery): string {
    (if d.tenant == "" then "unknown_tenant" else d.tenant) + ":" + d.eventType + ":"
    + (if d.messageId != "" then d.messageId else if d.eventId != "" then d.eventId else d.body)
  }

  function PayloadRef(intake: TaskIntake): Ref {
    match intake.profile
    case None => Named(SetupCard(intake.sourceRef))
    case Some(profile) => Named(Prepare(intake.sourceRef, profile))
  }

  /** The payload hash stands for the payload: equal exactly when the bodies are. */
  function CallbackRef(body: string): Ref { Named(Callback(body)) }

  function Kind(intake: TaskIntake): string {
    if intake.profile.None? then "card_send" else "task_confirmation_prepare"
  }

  function EventId(d: Delivery): string { if d.eventId != "" then d.eventId else d.body }

  /** A unique column already has the value. The unique index on tenant, type and message
      adds nothing: equal messages have equal dedupe keys. */
  predicate Taken(t: Tables, d: Delivery) {
    || DedupeKey(d) in t.events
    || (exists key :: key in t.events && t.events[key].eventId == EventId(d))
    || EventKey(DedupeKey(d)) in t.store.outbox
  }

  // --------------------------------------------------------- the transactions

  class FeishuCallbackService {
    const writer: OutboxWriter
    var threads: map<string, string>
    var events: map<string, EventRow>
    var cardEvents: set<string>
    var cards: map<string, Card>

    constructor (t: Tables)
      ensures fresh(writer) && View() == t
    {
      writer := new OutboxWriter(t.store);
      threads, events, cardEvents, cards := t.threads, t.events, t.cardEvents, t.cards;
    }

    function View(): Tables
      reads this, writer
    {
      Tables(writer.View(), threads, events, cardEvents, cards)
    }

    method Rollback(t: Tables)
      modifies this, writer
      ensures View() == t
    {
      writer.blobs, writer.outbox := t.store.blobs, t.store.outbox;
      threads, events, cardEvents, cards := t.threads, t.events, t.cardEvents, t.cards;
    }

    method EnqueueEvent(d: Delivery) returns (reply: Reply)
      modifies this, writer
      ensures reply == DeliverReply(old(View()), d)
      ensures View() == Deliver(old(View()), d)
      ensures reply in {Queued, Duplicate, Refused} && (reply == Queued <==> View() != old(View()))
      ensures d.intake.None? ==> reply == Refused
    {
      var before := View();
      if d.intake.None? {
        return Refused;
      }
      var intake := d.intake.value;
      var stored := writer.StoreJsonPayload(CallbackRef(d.body), d.body);
      if stored.Err? {
        Rollback(before);
        return Refused;
      }
      stored := writer.StoreJsonPayload(PayloadRef(intake), d.payload);
      if stored.Err? {
        Rollback(before);
        return Refused;
      }
      threads := threads[intake.threadId := intake.summary];
      var dedupe := DedupeKey(d);
      if dedupe in events || (exists key :: key in events && events[key].eventId == EventId(d))
         || EventKey(dedupe) in writer.outbox {
        Rollback(before);
        return Duplicate;
      }
      events := events[dedupe := EventRow(EventId(d), CallbackRef(d.body))];
      writer.outbox := writer.outbox[EventKey(dedupe) := Entry(Kind(intake), PayloadRef(intake))];
      reply := Queued;
    }

    /** `valid` is the check of the stored task against the command, `authorized` the
        payload that the task becomes at this time. */
    method ConfirmTask(c: Confirmation, valid: string -> bool, authorized: string -> string) returns (reply: Reply)
      requires !c.decision.Edit?
      modifies this, writer
      ensures reply == ConfirmReply(old(View()), c, valid, authorized)
      ensures View() == Confirm(old(View()), c, valid, authorized)
      ensures reply in {Queued, Rejected, Duplicate, Refused}
      ensures reply in {Duplicate, Refused} ==> View() == old(View())
      ensures reply in {Queued, Rejected} ==>
        && TaskOf(old(View()), c).Some? && valid(TaskOf(old(View()), c).value)
        && c.eventId !in old(cardEvents) && c.key !in old(cards)
    {
      var before := View();
      var stored := writer.StoreJsonPayload(CallbackRef(c.body), c.body);
      if stored.Err? {
        Rollback(before);
        return Refused;
      }
      if Named(c.taskRef) !in writer.blobs || !valid(writer.blobs[Named(c.taskRef)]) {
        Rollback(before);
        return Refused;
      }
      var task := writer.blobs[Named(c.taskRef)];
      if c.eventId in cardEvents || c.key in cards {
        Rollback(before);
        return Duplicate;
      }
      cardEvents := cardEvents + {c.eventId};
      cards := cards[c.key := Card(true, c.decision)];
      if c.decision.Reject? {
        return Rejected;
      }
      threads := threads[c.threadId := authorized(task)];
      var sent := writer.EnqueueJson(DispatchCall(c, authorized(task)));
      if sent.Err? {
        Rollback(before);
        return Refused;
      }
      reply := Queued;
    }
  }

  // ---------------------------------------------------- what they amount to

  function DispatchCall(c: Confirmation, text: string): Call {
    Call("graph_dispatch", DispatchKey(c.key), text, Some(Approved(c.taskRef)))
  }

  predicate Storable(blobs: map<Ref, string>, ref: Ref, text: string) { ref in blobs ==> blobs[ref] == text }

  function DeliverReply(t: Tables, d: Delivery): Reply {
    if d.intake.None? then Refused
    else
      var first := t.store.blobs[CallbackRef(d.body) := d.body];
      if !Storable(t.store.blobs, CallbackRef(d.body), d.body)
         || !Storable(first, PayloadRef(d.intake.value), d.payload) then Refused
      else if Taken(t, d) then Duplicate
      else Queued
  }

  /** A delivery changes the tables only when it is queued, and then all of them. */
  function Deliver(t: Tables, d: Delivery): Tables {
    if DeliverReply(t, d) != Queued then t
    else
      var intake, dedupe := d.intake.value, DedupeKey(d);
      t.(store := Db(t.store.blobs[CallbackRef(d.body) := d.body][PayloadRef(intake) := d.payload],
                     t.store.outbox[EventKey(dedupe) := Entry(Kind(intake), PayloadRef(intake))]),
         threads := t.threads[intake.threadId := intake.summary],
         events := t.events[dedupe := EventRow(EventId(d), CallbackRef(d.body))])
  }

  function WithBody(t: Tables, body: string): Db { t.store.(blobs := t.store.blobs[CallbackRef(body) := body]) }

  function ConfirmReply(t: Tables, c: Confirmation, valid: string -> bool, authorized: string -> string): Reply {
    var store := WithBody(t, c.body);
    if !Storable(t.store.blobs, CallbackRef(c.body), c.body) then Refused
    else if Named(c.taskRef) !in store.blobs || !valid(store.blobs[Named(c.taskRef)]) then Refused
    else if c.eventId in t.cardEvents || c.key in t.cards then Duplicate
    else if c.decision.Reject? then Rejected
    else if Answer(store, DispatchCall(c, authorized(store.blobs[Named(c.taskRef)]))).Err? then Refused
    else Queued
  }

  function Confirm(t: Tables, c: Confirmation, valid: string -> bool, authorized: string -> string): Tables {
    var reply := ConfirmReply(t, c, valid, authorized);
    if reply != Queued && reply != Rejected then t
    else
      var store := WithBody(t, c.body);
      var decided := t.(store := store, cardEvents := t.cardEvents + {c.eventId},
                        cards := t.cards[c.key := Card(true, c.decision)]);
      if reply == Rejected then decided
      else
        var text := authorized(store.blobs[Named(c.taskRef)]);
        decided.(threads := t.threads[c.threadId := text], store := Enqueue(store, DispatchCall(c, text)))
  }

  // ------------------------------------------------------------ all runs

  /** A transaction on the tables; the last three are those of other parts, which store
      write-once payloads, enqueue under keys of their own and record card actions. */
  datatype Event =
    | Message(d: Delivery)
    | Confirmed(c: Confirmation, valid: string -> bool, authorized: string -> string)
    | OtherPayload(ref: Ref, text: string)
    | OtherCall(call: Call)
    | OtherCard(eventId: string, key: string, decision: Decision)

  predicate Enabled(e: Event) {
    match e
    case Message(_) => true
    case Confirmed(c, _, _) => !c.decision.Edit?
    case OtherPayload(_, _) => true
    case OtherCall(call) => call.key.OtherKey?
    case OtherCard(_, _, _) => true
  }

  function Apply(t: Tables, e: Event): Tables {
    match e
    case Message(d) => Deliver(t, d)
    case Confirmed(c, valid, authorized) => Confirm(t, c, valid, authorized)
    case OtherPayload(ref, text) =>
      if ref in t.store.blobs then t else t.(store := t.store.(blobs := t.store.blobs[ref := text]))
    case OtherCall(call) => t.(store := Enqueue(t.store, call))
    case OtherCard(eventId, key, decision) =>
      if eventId in t.cardEvents || key in t.cards then t
      else t.(cardEvents := t.cardEvents + {eventId}, cards := t.cards[key := Card(false, decision)])
  }

  function Run(t: Tables, events: seq<Event>): Tables
    decreases |events|
  {
    if events == [] then t else Run(Apply(t, events[0]), events[1..])
  }

  const EMPTY := Tables(Db(map[], map[]), map[], map[], {}, map[])

  predicate AllEnabled(events: seq<Event>) { forall i :: 0 <= i < |events| ==> Enabled(events[i]) }

  ghost predicate EventsMatch(t: Tables) {
    forall key :: EventKey(key) in t.store.outbox <==> key in t.events
  }

  ghost predicate DispatchesMatch(t: Tables) {
    forall key :: DispatchKey(key) in t.store.outbox <==> key in t.cards && t.cards[key] == Card(true, Approve)
  }

  ghost predicate PayloadsStored(t: Tables) {
    && (forall key :: key in t.store.outbox ==> t.store.outbox[key].payloadRef in t.store.blobs)
    && (forall key :: key in t.events ==> t.events[key].payloadRef in t.store.blobs)
  }

  ghost predicate EventIdsDiffer(t: Tables) {
    forall a, b :: a in t.events && b in t.events && a != b ==> t.events[a].eventId != t.events[b].eventId
  }

  /** A message has an event row exactly when it has an outbox row; a graph is dispatched
      exactly for the confirmation keys whose recorded decision is to approve; and what
      a row points to is stored. */
  ghost predicate Inv(t: Tables) {
    EventsMatch(t) && DispatchesMatch(t) && PayloadsStored(t) && EventIdsDiffer(t)
  }

  lemma DeliverKeepsMatch(t: Tables, d: Delivery)
    requires EventsMatch(t) && DispatchesMatch(t) && DeliverReply(t, d).Queued?
    ensures EventsMatch(Deliver(t, d)) && DispatchesMatch(Deliver(t, d))
  {
  }

  lemma DeliverKeeps(t: Tables, d: Delivery)
    requires Inv(t)
    ensures Inv(Deliver(t, d))
  {
    if DeliverReply(t, d).Queued? {
      DeliverKeepsMatch(t, d);
    }
  }

  /** A confirmation's new rows: the card, and for an approval the dispatch. */
  lemma ConfirmTables(t: Tables, c: Confirmation, valid: string -> bool, authorized: string -> string)
    requires DispatchesMatch(t) && !c.decision.Edit?
    ensures var after := Confirm(t, c, valid, authorized);
      || after == t
      || (c.key !in t.cards && after.cards == t.cards[c.key := Card(true, c.decision)] && after.events == t.events
          && (forall key :: key in after.store.outbox <==>
                key in t.store.outbox || (c.decision.Approve? && key == DispatchKey(c.key))))
  {
    assert c.key !in t.cards ==> DispatchKey(c.key) !in t.store.outbox;
  }

  lemma ConfirmKeepsMatch(t: Tables, c: Confirmation, valid: string -> bool, authorized: string -> string)
    requires EventsMatch(t) && DispatchesMatch(t) && !c.decision.Edit?
    ensures EventsMatch(Confirm(t, c, valid, authorized)) && DispatchesMatch(Confirm(t, c, valid, authorized))
  {
    ConfirmTables(t, c, valid, authorized);
  }

  lemma EnqueueKeepsStored(db: Db, call: Call)
    requires forall key :: key in db.outbox ==> db.outbox[key].payloadRef in db.blobs
    ensures var after := Enqueue(db, call);
      forall key :: key in after.outbox ==> after.outbox[key].payloadRef in after.blobs
    ensures forall ref :: ref in db.blobs ==> ref in Enqueue(db, call).blobs
  {
  }

  lemma ConfirmKeepsStored(t: Tables, c: Confirmation, valid: string -> bool, authorized: string -> string)
    requires PayloadsStored(t)
    ensures PayloadsStored(Confirm(t, c, valid, authorized))
  {
    var store := WithBody(t, c.body);
    if ConfirmReply(t, c, valid, authorized).Queued? {
      EnqueueKeepsStored(store, DispatchCall(c, authorized(store.blobs[Named(c.taskRef)])));
    }
  }

  lemma ConfirmKeeps(t: Tables, c: Confirmation, valid: string -> bool, authorized: string -> string)
    requires Inv(t) && !c.decision.Edit?
    ensures Inv(Confirm(t, c, valid, authorized))
  {
    ConfirmKeepsMatch(t, c, valid, authorized);
    ConfirmKeepsStored(t, c, valid, authorized);
    ConfirmTables(t, c, valid, authorized);
  }

  lemma OtherCallKeeps(t: Tables, call: Call)
    requires Inv(t) && Enabled(OtherCall(call))
    ensures Inv(Apply(t, OtherCall(call)))
  {
    EnqueueKeepsStored(t.store, call);
  }

  lemma StepKeeps(t: Tables, e: Event)
    requires Inv(t) && Enabled(e)
    ensures Inv(Apply(t, e))
  {
    match e
    case Message(d) => DeliverKeeps(t, d);
    case Confirmed(c, valid, authorized) => ConfirmKeeps(t, c, valid, authorized);
    case OtherPayload(_, _) =>
    case OtherCall(call) => OtherCallKeeps(t, call);
    case OtherCard(_, _, _) =>
  }

  /** Every run keeps the invariant, which holds of empty tables. */
  lemma {:induction false} RunKeeps(t: Tables, events: seq<Event>)
    requires Inv(t) && AllEnabled(events)
    ensures Inv(Run(t, events))
    decreases |events|
  {
    if events != [] {
      StepKeeps(t, events[0]);
      RunKeeps(Apply(t, events[0]), events[1..]);
    }
  }

  lemma DispatchedIffApproved(events: seq<Event>, key: string)
    requires AllEnabled(events)
    ensures var t := Run(EMPTY, events);
      (DispatchKey(key) in t.store.outbox <==> key in t.cards && t.cards[key] == Card(true, Approve))
      && (EventKey(key) in t.store.outbox <==> key in t.events)
  {
    RunKeeps(EMPTY, events);
  }

  // ------------------------------------------------ the first one is recorded

  /** Rows of `t` are still there, unchanged. */
  ghost predicate Grown(t: Tables, later: Tables) {
    && (forall key :: key in t.events ==> key in later.events && later.events[key] == t.events[key])
    && (forall key :: key in t.cards ==> key in later.cards && later.cards[key] == t.cards[key])
    && Extends(t.store, later.store)
  }

  lemma ConfirmGrows(t: Tables, c: Confirmation, valid: string -> bool, authorized: string -> string)
    ensures Grown(t, Confirm(t, c, valid, authorized))
  {
    var store := WithBody(t, c.body);
    var reply := ConfirmReply(t, c, valid, authorized);
    if reply.Queued? || reply.Rejected? {
      assert Extends(t.store, store);
    }
  }

  lemma StepGrows(t: Tables, e: Event)
    ensures Grown(t, Apply(t, e))
  {
    match e
    case Message(d) =>
      assert Extends(t.store, Deliver(t, d).store);
    case Confirmed(c, valid, authorized) => ConfirmGrows(t, c, valid, authorized);
    case OtherPayload(_, _) =>
    case OtherCall(call) =>
      assert Extends(t.store, Enqueue(t.store, call));
    case OtherCard(_, _, _) =>
  }

  lemma GrownTrans(t: Tables, u: Tables, v: Tables)
    requires Grown(t, u) && Grown(u, v)
    ensures Grown(t, v)
  {
  }

  lemma {:induction false} RunGrows(t: Tables, events: seq<Event>)
    ensures Grown(t, Run(t, events))
    decreases |events|
  {
    if events != [] {
      var next := Apply(t, events[0]);
      StepGrows(t, events[0]);
      RunGrows(next, events[1..]);
      GrownTrans(t, next, Run(next, events[1..]));
    }
  }

  /** The same message of the same tenant, whatever the body of the callback. */
  predicate SameMessage(d: Delivery, e: Event) {
    && e.Message? && d.messageId != ""
    && e.d.messageId == d.messageId && e.d.tenant == d.tenant && e.d.eventType == d.eventType
  }

  function Without(events: seq<Event>, d: Delivery): seq<Event>
    decreases |events|
  {
    if events == [] then []
    else (if SameMessage(d, events[0]) then [] else [events[0]]) + Without(events[1..], d)
  }

  /** Once a delivery is queued, redeliveries of its message, any number of them and
      anywhere among other transactions, leave no trace. */
  lemma {:induction false} RedeliveriesVanish(t: Tables, d: Delivery, events: seq<Event>)
    requires DedupeKey(d) in t.events
    ensures Run(t, events) == Run(t, Without(events, d))
    decreases |events|
  {
    if events != [] {
      var next := Apply(t, events[0]);
      StepGrows(t, events[0]);
      RedeliveriesVanish(next, d, events[1..]);
      if SameMessage(d, events[0]) {
        assert DedupeKey(events[0].d) == DedupeKey(d);
        assert next == t && Without(events, d) == Without(events[1..], d);
      } else {
        assert ([events[0]] + Without(events[1..], d))[1..] == Without(events[1..], d);
      }
    }
  }

  // --------------------------------------------- a new message is never lost

  /** What makes a message the same: tenant, type and the id it goes by. */
  predicate SameIdentity(a: Delivery, b: Delivery) {
    && (if a.tenant == "" then "unknown_tenant" else a.tenant)
       == (if b.tenant == "" then "unknown_tenant" else b.tenant)
    && a.eventType == b.eventType && Identity(a) == Identity(b)
  }

  /** The message id, or else the event id, or else the hash of the body. */
  function Identity(d: Delivery): string {
    if d.messageId != "" then d.messageId else if d.eventId != "" then d.eventId else d.body
  }

  predicate SameEventId(a: Delivery, b: Delivery) {
    (if a.eventId == "" then a.body else a.eventId) == (if b.eventId == "" then b.body else b.eventId)
  }

  /** Neither the tenant nor the type has the separator of the key in it. */
  predicate Separable(d: Delivery) { ':' !in d.tenant && ':' !in d.eventType }

  lemma FirstColon(a: string, b: string, x: string, y: string)
    requires ':' !in a && ':' !in b && a + ":" + x == b + ":" + y
    ensures a == b && x == y
  {
    var s := a + ":" + x;
    assert s[|a|] == ':' && s[|b|] == ':';
    if |a| != |b| {
      assert false;
    }
    assert s[..|a|] == a && s[..|a|] == b && s[|a| + 1..] == x && s[|a| + 1..] == y;
  }

  /** Separable messages have one key only if they are the same. */
  lemma KeysTellApart(a: Delivery, b: Delivery)
    requires Separable(a) && Separable(b) && DedupeKey(a) == DedupeKey(b)
    ensures SameIdentity(a, b)
  {
    var s := if a.tenant == "" then "unknown_tenant" else a.tenant;
    var t := if b.tenant == "" then "unknown_tenant" else b.tenant;
    assert ':' !in "unknown_tenant";
    assert DedupeKey(a) == s + ":" + (a.eventType + ":" + Identity(a));
    assert DedupeKey(b) == t + ":" + (b.eventType + ":" + Identity(b));
    FirstColon(s, t, a.eventType + ":" + Identity(a), b.eventType + ":" + Identity(b));
    FirstColon(a.eventType, b.eventType, Identity(a), Identity(b));
  }

  /** With the separator in a type, different messages do get one key. */
  lemma ColonsMixMessages(a: Delivery, x: string, y: string)
    requires a.tenant != "" && x != "" && y != ""
    ensures var b, c := a.(eventType := x + ":" + y, messageId := "m"), a.(eventType := x, messageId := y + ":" + "m");
      DedupeKey(b) == DedupeKey(c) && !SameIdentity(b, c)
  {
    var b, c := a.(eventType := x + ":" + y, messageId := "m"), a.(eventType := x, messageId := y + ":" + "m");
    assert DedupeKey(b) == DedupeKey(c);
    assert |b.eventType| > |c.eventType|;
  }

  /** The tables after the first `n` events. */
  function After(events: seq<Event>, n: nat): Tables
    requires n <= |events|
  {
    Run(EMPTY, events[..n])
  }

  lemma {:induction false} RunLast(t: Tables, events: seq<Event>)
    requires events != []
    ensures Run(t, events) == Apply(Run(t, events[..|events| - 1]), events[|events| - 1])
    decreases |events|
  {
    if |events| == 1 {
      assert events[1..] == [] && events[..0] == [];
    } else {
      RunLast(Apply(t, events[0]), events[1..]);
      assert events[1..][..|events| - 2] == events[..|events| - 1][1..];
    }
  }

  lemma AfterNext(events: seq<Event>, n: nat)
    requires n < |events|
    ensures After(events, n + 1) == Apply(After(events, n), events[n])
  {
    RunLast(EMPTY, events[..n + 1]);
    assert events[..n + 1][..n] == events[..n];
  }

  /** Event `i` is a message that was queued: it left a trace. */
  predicate QueuedAt(events: seq<Event>, i: nat)
    requires i < |events|
  {
    events[i].Message? && After(events, i + 1) != After(events, i)
  }

  /** The event row of `key` is that of a message queued before. */
  ghost predicate FromMessage(events: seq<Event>, n: nat, key: string, row: EventRow)
    requires n <= |events|
  {
    exists i :: 0 <= i < n && QueuedAt(events, i)
      && key == DedupeKey(events[i].d) && row.eventId == EventId(events[i].d)
  }

  lemma FromMessageNext(events: seq<Event>, n: nat, key: string, row: EventRow)
    requires n < |events| && FromMessage(events, n, key, row)
    ensures FromMessage(events, n + 1, key, row)
  {
  }

  lemma {:induction false} EventsAreMessages(events: seq<Event>, n: nat)
    requires n <= |events|
    ensures var t := After(events, n); forall key :: key in t.events ==> FromMessage(events, n, key, t.events[key])
    decreases n
  {
    if n > 0 {
      var before, after := After(events, n - 1), After(events, n);
      AfterNext(events, n - 1);
      EventsAreMessages(events, n - 1);
      EventsOfStep(before, events[n - 1]);
      forall key | key in after.events ensures FromMessage(events, n, key, after.events[key]) {
        if key in before.events && after.events[key] == before.events[key] {
          FromMessageNext(events, n - 1, key, after.events[key]);
        } else {
          assert QueuedAt(events, n - 1);
        }
      }
    }
  }

  /** Only a message adds an event row, its own. */
  lemma EventsOfStep(t: Tables, e: Event)
    ensures var after := Apply(t, e);
      after.events == t.events
      || (e.Message? && after.events == t.events[DedupeKey(e.d) := EventRow(EventId(e.d), CallbackRef(e.d.body))])
  {
  }

  /** What a queued message adds: its event, its callback and its payload, under the
      reference and kind that depend on the default model, and the thread's summary. */
  predicate Adds(t: Tables, after: Tables, d: Delivery, intake: TaskIntake, key: string) {
    var ref := Named(match intake.profile
      case None => SetupCard(intake.sourceRef)
      case Some(profile) => Prepare(intake.sourceRef, profile));
    && key !in t.events && EventKey(key) !in t.store.outbox
    && after.events == t.events[key :=
         EventRow(if d.eventId == "" then d.body else d.eventId, Named(Callback(d.body)))]
    && after.store.outbox == t.store.outbox[EventKey(key) :=
         Entry(if intake.profile == None then "card_send" else "task_confirmation_prepare", ref)]
    && after.store.blobs == t.store.blobs[Named(Callback(d.body)) := d.body][ref := d.payload]
    && after.threads == t.threads[intake.threadId := intake.summary]
    && after.cards == t.cards && after.cardEvents == t.cardEvents
  }

  /** No message queued before is the same as `d` or has its event id. */
  ghost predicate IsNew(events: seq<Event>, d: Delivery) {
    forall i :: 0 <= i < |events| && QueuedAt(events, i) ==>
      !SameIdentity(events[i].d, d) && !SameEventId(events[i].d, d)
  }

  predicate AllSeparable(events: seq<Event>) {
    forall i :: 0 <= i < |events| && events[i].Message? ==> Separable(events[i].d)
  }

  /** After any run, a message with a task in it whose texts can be stored is queued, with
      all its rows, unless a message queued before is the same or has the same event id. */
  lemma NewMessageIsQueued(events: seq<Event>, d: Delivery)
    requires AllEnabled(events) && d.intake.Some? && Separable(d) && AllSeparable(events) && IsNew(events, d)
    requires Storable(Run(EMPTY, events).store.blobs, Named(Callback(d.body)), d.body)
    requires Storable(Run(EMPTY, events).store.blobs, PayloadRef(d.intake.value), d.payload)
    ensures var t := Run(EMPTY, events);
      exists key :: Adds(t, Apply(t, Message(d)), d, d.intake.value, key)
  {
    var t := RunToNew(events, d);
    NotTakenAdds(t, d);
    assert Apply(t, Message(d)) == Deliver(t, d);
  }

  lemma RunToNew(events: seq<Event>, d: Delivery) returns (t: Tables)
    requires AllEnabled(events) && Separable(d) && AllSeparable(events) && IsNew(events, d)
    ensures t == Run(EMPTY, events) && !Taken(t, d)
  {
    t := After(events, |events|);
    assert events[..|events|] == events;
    DispatchedIffApproved(events, DedupeKey(d));
    EventsAreMessages(events, |events|);
    NewIsNotTaken(events, t, d);
  }

  lemma NewIsNotTaken(events: seq<Event>, t: Tables, d: Delivery)
    requires Separable(d) && AllSeparable(events) && IsNew(events, d)
    requires forall key :: key in t.events ==> FromMessage(events, |events|, key, t.events[key])
    requires EventKey(DedupeKey(d)) in t.store.outbox ==> DedupeKey(d) in t.events
    ensures !Taken(t, d)
  {
    forall key | key in t.events ensures key != DedupeKey(d) && t.events[key].eventId != EventId(d) {
      OtherMessage(events, key, t.events[key], d);
    }
  }

  lemma OtherMessage(events: seq<Event>, key: string, row: EventRow, d: Delivery)
    requires Separable(d) && AllSeparable(events) && IsNew(events, d) && FromMessage(events, |events|, key, row)
    ensures key != DedupeKey(d) && row.eventId != EventId(d)
  {
    var i :| 0 <= i < |events| && QueuedAt(events, i)
      && key == DedupeKey(events[i].d) && row.eventId == EventId(events[i].d);
    if key == DedupeKey(d) {
      KeysTellApart(events[i].d, d);
    }
  }

  lemma NotTakenAdds(t: Tables, d: Delivery)
    requires d.intake.Some? && !Taken(t, d)
    requires Storable(t.store.blobs, Named(Callback(d.body)), d.body)
    requires Storable(t.store.blobs, PayloadRef(d.intake.value), d.payload)
    ensures Adds(t, Deliver(t, d), d, d.intake.value, DedupeKey(d))
  {
  }

  lemma RedeliveryIsAnswered(t: Tables, d: Delivery, between: seq<Event>, again: Delivery)
    requires DeliverReply(t, d).Queued? && SameMessage(d, Message(again))
    ensures DedupeKey(d) in Deliver(t, d).events
    ensures DeliverReply(Run(Deliver(t, d), between), again) in {Duplicate, Refused}
  {
    RunGrows(Deliver(t, d), between);
  }

  /** The first recorded decision on a key stays, and a later confirmation of that key,
      with whatever decision, changes nothing. */
  lemma FirstConfirmationStays(
    t: Tables, between: seq<Event>, c: Confirmation, valid: string -> bool, authorized: string -> string)
    requires c.key in t.cards
    ensures var later := Run(t, between);
      c.key in later.cards && later.cards[c.key] == t.cards[c.key]
      && Confirm(later, c, valid, authorized) == later
      && ConfirmReply(later, c, valid, authorized) in {Duplicate, Refused}
  {
    RunGrows(t, between);
  }

  /** The task of a confirmation, among the stored payloads with its own callback. */
  function TaskOf(t: Tables, c: Confirmation): Option<string> {
    var blobs := t.store.blobs[Named(Callback(c.body)) := c.body];
    if Named(c.taskRef) in blobs then Some(blobs[Named(c.taskRef)]) else None
  }

  /** Each decision on a stored, valid task under a new event id and key is recorded. A
      rejection adds no row; an approval adds the dispatch of the authorized task, unless
      another text was authorized for the task before. */
  lemma NewDecisionIsRecorded(t: Tables, c: Confirmation, valid: string -> bool, authorized: string -> string)
    requires Inv(t) && c.decision in {Approve, Reject} && c.eventId !in t.cardEvents && c.key !in t.cards
    requires Storable(t.store.blobs, Named(Callback(c.body)), c.body)
    requires TaskOf(t, c).Some? && valid(TaskOf(t, c).value)
    ensures var after := Confirm(t, c, valid, authorized); var text := authorized(TaskOf(t, c).value);
      var ref := Named(Approved(c.taskRef)); var blobs := t.store.blobs[Named(Callback(c.body)) := c.body];
      if c.decision == Reject then
        after == t.(store := Db(blobs, t.store.outbox), cardEvents := t.cardEvents + {c.eventId},
                    cards := t.cards[c.key := Card(true, Reject)])
      else if ref in blobs && blobs[ref] != text then after == t
      else
        after == t.(store := Db(blobs[ref := text],
                                t.store.outbox[DispatchKey(c.key) := Entry("graph_dispatch", ref)]),
                    threads := t.threads[c.threadId := text], cardEvents := t.cardEvents + {c.eventId},
                    cards := t.cards[c.key := Card(true, Approve)])
    ensures var reply := ConfirmReply(t, c, valid, authorized);
      reply == if c.decision == Reject then Rejected
               else if Confirm(t, c, valid, authorized) == t then Refused else Queued
  {
    assert DispatchKey(c.key) !in t.store.outbox;
    assert c.key in Confirm(t, c, valid, authorized).cards || Confirm(t, c, valid, authorized) == t;
  }

  /** Another approval of the same task, once it passes the other checks. */
  predicate MayApprove(t: Tables, c: Confirmation, valid: string -> bool) {
    && c.decision.Approve? && Storable(t.store.blobs, CallbackRef(c.body), c.body)
    && Named(c.taskRef) in t.store.blobs && valid(t.store.blobs[Named(c.taskRef)])
    && c.eventId !in t.cardEvents && c.key !in t.cards
  }

  /** A task that was approved, approved again through another card, however much later:
      it is queued exactly when the payload authorized then is the very same text, and
      refused otherwise. */
  lemma SecondApprovalConflicts(
    t: Tables, c: Confirmation, valid: string -> bool, authorized: string -> string, between: seq<Event>,
    again: Confirmation, valid2: string -> bool, authorized2: string -> string)
    requires Inv(t) && AllEnabled(between)
    requires c.decision.Approve? && ConfirmReply(t, c, valid, authorized).Queued?
    requires again.taskRef == c.taskRef && MayApprove(Run(Confirm(t, c, valid, authorized), between), again, valid2)
    ensures var later := Run(Confirm(t, c, valid, authorized), between);
      var task := WithBody(t, c.body).blobs[Named(c.taskRef)];
      ConfirmReply(later, again, valid2, authorized2)
        == if authorized2(task) == authorized(task) then Queued else Refused
  {
    var first := Confirm(t, c, valid, authorized);
    var later := Run(first, between);
    ConfirmKeeps(t, c, valid, authorized);
    RunKeeps(first, between);
    RunGrows(first, between);
    ApprovedIsStored(t, c, valid, authorized);
    ApprovalMeets(later, again, valid2, authorized2);
  }

  lemma ApprovedIsStored(t: Tables, c: Confirmation, valid: string -> bool, authorized: string -> string)
    requires Inv(t) && c.decision.Approve? && ConfirmReply(t, c, valid, authorized).Queued?
    ensures var task := WithBody(t, c.body).blobs[Named(c.taskRef)]; var after := Confirm(t, c, valid, authorized);
      Storable(after.store.blobs, Named(c.taskRef), task) && Named(c.taskRef) in after.store.blobs
      && Named(Approved(c.taskRef)) in after.store.blobs
      && after.store.blobs[Named(Approved(c.taskRef))] == authorized(task)
  {
    assert DispatchKey(c.key) !in t.store.outbox;
    assert c.taskRef < Approved(c.taskRef);
  }

  lemma ApprovalMeets(t: Tables, c: Confirmation, valid: string -> bool, authorized: string -> string)
    requires Inv(t) && MayApprove(t, c, valid) && Named(Approved(c.taskRef)) in t.store.blobs
    ensures ConfirmReply(t, c, valid, authorized)
      == if t.store.blobs[Named(Approved(c.taskRef))] == authorized(t.store.blobs[Named(c.taskRef)]) then Queued
         else Refused
  {
    var store := WithBody(t, c.body);
    assert DispatchKey(c.key) !in store.outbox;
    assert forall ref :: ref in t.store.blobs ==> store.blobs[ref] == t.store.blobs[ref];
  }
}
