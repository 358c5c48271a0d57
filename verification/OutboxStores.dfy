/** The write-once payload store and the enqueue by idempotency key
    (app/storage/repositories.py). A payload is its canonical text, and two
    payloads have the same digest exactly when they have the same text. */
module OutboxStores {
  import opened Wrappers

  /** References that callers choose, by their form: a Feishu callback by its body, the
      cards and prepare payloads of a task, an approved task, and any other. */
  datatype Name =
    | Callback(body: string) | SetupCard(sourceRef: string) | Prepare(sourceRef: string, profile: string)
    | Approved(task: Name) | OtherName(text: string)

  /** `artifact://outbox/<digest>`, or a reference the caller chose. */
  datatype Ref = Hashed(text: string) | Named(name: Name)

  /** Idempotency keys by their form: `feishu:event:...`, `graph_dispatch:...` and others. */
  datatype Key = EventKey(dedupe: string) | DispatchKey(confirmation: string) | OtherKey(text: string)

  datatype Entry = Entry(kind: string, payloadRef: Ref)

  datatype Db = Db(blobs: map<Ref, string>, outbox: map<Key, Entry>)

  datatype Call = Call(kind: string, key: Key, text: string, contentRef: Option<Name>)

  datatype Conflict = PayloadConflict

  function ResolvedRef(call: Call): Ref {
    match call.contentRef
    case Some(name) => Named(name)
    case None => Hashed(call.text)
  }

  // ------------------------------------------------------- the two tables

  class OutboxWriter {
    var blobs: map<Ref, string>
    var outbox: map<Key, Entry>

    constructor (db: Db)
      ensures View() == db
    {
      blobs, outbox := db.blobs, db.outbox;
    }

    function View(): Db
      reads this
    {
      Db(blobs, outbox)
    }

    /** An existing payload is never replaced; a different one is refused. */
    method StoreJsonPayload(ref: Ref, text: string) returns (r: Result<Ref, Conflict>)
      modifies this`blobs
      ensures r.Ok? <==> ref !in old(blobs) || old(blobs)[ref] == text
      ensures r.Ok? ==> r.value == ref && blobs == old(blobs)[ref := text]
      ensures r.Err? ==> blobs == old(blobs)
    {
      if ref in blobs {
        if blobs[ref] != text {
          return Err(PayloadConflict);
        }
        return Ok(ref);
      }
      blobs := blobs[ref := text];
      r := Ok(ref);
    }

    method EnqueueJson(call: Call) returns (r: Result<Ref, Conflict>)
      modifies this
      ensures View() == Enqueue(old(View()), call)
      ensures r == Answer(old(View()), call)
      ensures call.key in old(outbox) ==> var ref := old(outbox)[call.key].payloadRef;
        View() == old(View()) && r == if ref in blobs && blobs[ref] == call.text then Ok(ref) else Err(PayloadConflict)
      ensures call.key !in old(outbox) ==>
        var ref := match call.contentRef case None => Hashed(call.text) case Some(name) => Named(name);
        if ref in old(blobs) && old(blobs)[ref] != call.text then r == Err(PayloadConflict) && View() == old(View())
        else
          r == Ok(ref) && blobs == old(blobs)[ref := call.text]
          && outbox == old(outbox)[call.key := Entry(call.kind, ref)]
    {
      var ref := ResolvedRef(call);
      if call.key in outbox {
        var existing := outbox[call.key].payloadRef;
        if existing !in blobs || blobs[existing] != call.text {
          return Err(PayloadConflict);
        }
        return Ok(existing);
      }
      var stored := StoreJsonPayload(ref, call.text);
      if stored.Err? {
        return Err(PayloadConflict);
      }
      outbox := outbox[call.key := Entry(call.kind, ref)];
      r := Ok(ref);
    }
  }

  // ------------------------------------------------- what a call amounts to

  function Enqueue(db: Db, call: Call): Db {
    if Answer(db, call).Err? || call.key in db.outbox then db
    else
      var ref := ResolvedRef(call);
      Db(db.blobs[ref := call.text], db.outbox[call.key := Entry(call.kind, ref)])
  }

  function Answer(db: Db, call: Call): Result<Ref, Conflict> {
    if call.key in db.outbox then
      var ref := db.outbox[call.key].payloadRef;
      if ref in db.blobs && db.blobs[ref] == call.text then Ok(ref) else Err(PayloadConflict)
    else
      var ref := ResolvedRef(call);
      if ref in db.blobs && db.blobs[ref] != call.text then Err(PayloadConflict) else Ok(ref)
  }

  function EnqueueAll(db: Db, calls: seq<Call>): Db
    decreases |calls|
  {
    if calls == [] then db else EnqueueAll(Enqueue(db, calls[0]), calls[1..])
  }

  // ------------------------------------- first writer wins, for all sequences

  /** Every row has its payload, and a hashed reference has the payload it names. */
  ghost predicate Consistent(db: Db) {
    && (forall key :: key in db.outbox ==> db.outbox[key].payloadRef in db.blobs)
    && (forall text :: Hashed(text) in db.blobs ==> db.blobs[Hashed(text)] == text)
  }

  /** What the two tables mean together: the payload of each key. */
  function Bindings(db: Db): map<Key, string>
    requires Consistent(db)
  {
    map key | key in db.outbox :: db.blobs[db.outbox[key].payloadRef]
  }

  /** The simple form: a key takes the first payload it is given. */
  function FirstWriter(bound: map<Key, string>, calls: seq<Call>): map<Key, string>
    decreases |calls|
  {
    if calls == [] then bound
    else FirstWriter(if calls[0].key in bound then bound else bound[calls[0].key := calls[0].text], calls[1..])
  }

  function Accepted(db: Db, calls: seq<Call>): seq<Call>
    decreases |calls|
  {
    if calls == [] then []
    else (if Answer(db, calls[0]).Ok? then [calls[0]] else []) + Accepted(Enqueue(db, calls[0]), calls[1..])
  }

  /** One call: the same payload again changes nothing and answers with the first
      reference, another payload is refused, and a new key is bound to its payload
      unless a reference the caller chose is taken by other content. */
  lemma EnqueueOnce(db: Db, call: Call)
    requires Consistent(db)
    ensures var after := Enqueue(db, call); var answer := Answer(db, call);
      Consistent(after)
      && (call.key in Bindings(db) ==> after == db)
      && (call.key in Bindings(db) ==> (answer.Ok? <==> Bindings(db)[call.key] == call.text))
      && (call.key in Bindings(db) && answer.Ok? ==> answer.value == db.outbox[call.key].payloadRef)
      && (call.key !in Bindings(db) && answer.Ok? ==> Bindings(after) == Bindings(db)[call.key := call.text])
      && (answer.Err? ==> after == db)
      && (call.contentRef.None? && call.key !in Bindings(db) ==> answer.Ok?)
      && (forall ref :: ref in db.blobs ==> ref in after.blobs && after.blobs[ref] == db.blobs[ref])
  {
    var after := Enqueue(db, call);
    if call.key !in db.outbox && Answer(db, call).Ok? {
      forall key | key in after.outbox ensures after.outbox[key].payloadRef in after.blobs {
      }
    }
  }

  /** Any sequence of calls binds keys as the simple form does with the accepted ones. */
  lemma {:induction false} EnqueueRefinesFirstWriter(db: Db, calls: seq<Call>)
    requires Consistent(db)
    ensures Consistent(EnqueueAll(db, calls))
    ensures Bindings(EnqueueAll(db, calls)) == FirstWriter(Bindings(db), Accepted(db, calls))
    decreases |calls|
  {
    if calls != [] {
      EnqueueOnce(db, calls[0]);
      EnqueueRefinesFirstWriter(Enqueue(db, calls[0]), calls[1..]);
      var rest := Accepted(Enqueue(db, calls[0]), calls[1..]);
      if Answer(db, calls[0]).Ok? {
        assert ([calls[0]] + rest)[1..] == rest;
      } else {
        assert [] + rest == rest;
      }
    }
  }

  /** With no chosen references nothing but a differing payload is ever refused, so
      the keys are bound as the simple form does with all the calls. */
  lemma {:induction false} UnnamedCallsAreFirstWriter(db: Db, calls: seq<Call>)
    requires Consistent(db) && forall i :: 0 <= i < |calls| ==> calls[i].contentRef.None?
    ensures Consistent(EnqueueAll(db, calls))
    ensures Bindings(EnqueueAll(db, calls)) == FirstWriter(Bindings(db), calls)
    decreases |calls|
  {
    if calls != [] {
      EnqueueOnce(db, calls[0]);
      UnnamedCallsAreFirstWriter(Enqueue(db, calls[0]), calls[1..]);
    }
  }

  ghost predicate Extends(db: Db, later: Db) {
    && (forall ref :: ref in db.blobs ==> ref in later.blobs && later.blobs[ref] == db.blobs[ref])
    && (forall key :: key in db.outbox ==> key in later.outbox && later.outbox[key] == db.outbox[key])
  }

  /** Stored payloads and rows are never changed, only added to. */
  lemma {:induction false} EnqueueExtends(db: Db, calls: seq<Call>)
    ensures Extends(db, EnqueueAll(db, calls))
    decreases |calls|
  {
    if calls != [] {
      EnqueueExtends(Enqueue(db, calls[0]), calls[1..]);
    }
  }

  lemma SettledStays(db: Db, later: Db, call: Call)
    requires Extends(Enqueue(db, call), later)
    ensures Enqueue(later, call) == later
  {
  }

  lemma {:induction false} EnqueueAllConcat(db: Db, a: seq<Call>, b: seq<Call>)
    ensures EnqueueAll(db, a + b) == EnqueueAll(EnqueueAll(db, a), b)
    decreases |a|
  {
    if a == [] {
      assert a + b == b;
    } else {
      assert (a + b)[1..] == a[1..] + b;
      EnqueueAllConcat(Enqueue(db, a[0]), a[1..], b);
    }
  }

  /** Replaying any part of the calls already made, in any order, changes nothing. */
  lemma {:induction false} ReplayChangesNothing(db: Db, calls: seq<Call>, again: seq<Call>)
    requires forall call :: call in again ==> call in calls
    ensures EnqueueAll(EnqueueAll(db, calls), again) == EnqueueAll(db, calls)
    decreases |again|
  {
    if again != [] {
      assert again[0] in calls;
      var i :| 0 <= i < |calls| && calls[i] == again[0];
      var before := EnqueueAll(db, calls[..i]);
      assert calls == calls[..i] + calls[i..];
      EnqueueAllConcat(db, calls[..i], calls[i..]);
      assert calls[i..][1..] == calls[i + 1..];
      EnqueueExtends(Enqueue(before, again[0]), calls[i + 1..]);
      SettledStays(before, EnqueueAll(db, calls), again[0]);
      ReplayChangesNothing(db, calls, again[1..]);
    }
  }
}
