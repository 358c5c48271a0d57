/** The retention pass over memory items (app/memory/retention.py) and the expiry
    test of the search query (app/memory/vector_store.py). Times are in seconds. */
module MemoryRetention {
  import opened Text
  import opened Wrappers

  datatype Status = Draft | PendingReview | Active | Revoked | Expired

  /** A row of `memory_items`; `policy` is the text under `retention_policy` in its metadata. */
  datatype Item = Item(
    scope: string, createdAt: int, policy: Option<string>,
    status: Status, expiresAt: Option<int>, updatedAt: int)

  const DAY := 86400

  predicate Managed(item: Item) { item.status.Active? || item.status.PendingReview? }

  function RetentionPolicy(raw: Option<string>): Option<string> {
    if raw.None? then None
    else
      var value := Lower(Strip(raw.value));
      if value == "" then None else Some(value)
  }

  predicate IsPermanent(raw: Option<string>) {
    RetentionPolicy(raw) in {Some("permanent"), Some("forever")}
  }

  function RetentionWindow(scope: string, policy: Option<string>): Option<int> {
    if policy == Some("30d") then Some(30 * DAY)
    else if policy == Some("90d") then Some(90 * DAY)
    else if scope == "RunMemory" then Some(30 * DAY)
    else if scope in {"ProjectMemory", "AgentMemory", "CaseMemory", "UserCorrectionMemory"} then Some(90 * DAY)
    else None
  }

  function DefaultExpiry(scope: string, createdAt: int, raw: Option<string>): Option<int> {
    if IsPermanent(raw) then None
    else
      match RetentionWindow(scope, RetentionPolicy(raw))
      case None => None
      case Some(ttl) => Some(createdAt + ttl)
  }

  // ------------------------------------------------------------------ the pass

  datatype Summary = Summary(scanned: nat, defaulted: nat, expired: nat, permanent: nat, skipped: nat)

  class MemoryItem {
    const scope: string
    const createdAt: int
    const policy: Option<string>
    var status: Status
    var expiresAt: Option<int>
    var updatedAt: int

    constructor (item: Item)
      ensures View() == item
    {
      scope, createdAt, policy := item.scope, item.createdAt, item.policy;
      status, expiresAt, updatedAt := item.status, item.expiresAt, item.updatedAt;
    }

    function View(): Item
      reads this
    {
      Item(scope, createdAt, policy, status, expiresAt, updatedAt)
    }
  }

  class MemoryRetentionService {
    var table: seq<MemoryItem>

    constructor (rows: seq<MemoryItem>)
      ensures table == rows
    {
      table := rows;
    }

    /** Rows of a table are distinct objects. */
    ghost predicate Valid()
      reads this
    {
      forall i, j :: 0 <= i < j < |table| ==> table[i] != table[j]
    }

    function Views(): (v: seq<Item>)
      reads this, table
      ensures |v| == |table|
    {
      seq(|table|, i requires 0 <= i < |table| reads this, table => table[i].View())
    }

    /** One pass. A dry run counts the same and changes nothing. */
    method Run(now: int, dryRun: bool) returns (summary: Summary)
      requires Valid()
      modifies set row | row in table
      ensures Valid() && table == old(table)
      ensures Views() == if dryRun then old(Views()) else RetainAll(old(Views()), now)
      ensures summary == Summarise(old(Views()), now)
    {
      ghost var before := Views();
      var scanned, defaulted, expired, permanent, skipped := 0, 0, 0, 0, 0;
      for n := 0 to |table|
        invariant table == old(table) && Valid()
        invariant forall i :: 0 <= i < n ==> table[i].View() == if dryRun then before[i] else Retain(before[i], now)
        invariant forall i :: n <= i < |table| ==> table[i].View() == before[i]
        invariant Summary(scanned, defaulted, expired, permanent, skipped) == Summarise(before[..n], now)
      {
        var memory := table[n];
        SummariseNext(before, n, now);
        assert memory.View() == before[n];
        assert forall i :: 0 <= i < |table| && i != n ==> table[i] != memory;
        // The query's condition; the others are not fetched.
        if !(memory.status.Active? || memory.status.PendingReview?) {
          continue;
        }
        scanned := scanned + 1;
        if IsPermanent(memory.policy) {
          permanent := permanent + 1;
          if memory.expiresAt.Some? && !dryRun {
            memory.expiresAt := None;
            memory.updatedAt := now;
          }
          continue;
        }
        var expiresAt := memory.expiresAt;
        if expiresAt.None? {
          expiresAt := DefaultExpiry(memory.scope, memory.createdAt, memory.policy);
          if expiresAt.Some? {
            defaulted := defaulted + 1;
            if !dryRun {
              memory.expiresAt := expiresAt;
              memory.updatedAt := now;
            }
          }
        }
        if expiresAt.None? {
          skipped := skipped + 1;
          continue;
        }
        if expiresAt.value <= now {
          expired := expired + 1;
          if !dryRun {
            memory.status := Expired;
            memory.updatedAt := now;
          }
        }
      }
      assert before[..|table|] == before;
      summary := Summary(scanned, defaulted, expired, permanent, skipped);
    }
  }

  // ------------------------------------------------------ what a pass amounts to

  /** When an item ends: never if permanent, else as set, else by its window. */
  function Deadline(item: Item): Option<int> {
    if IsPermanent(item.policy) then None
    else if item.expiresAt.Some? then item.expiresAt
    else DefaultExpiry(item.scope, item.createdAt, item.policy)
  }

  predicate Due(item: Item, now: int) {
    var deadline := Deadline(item);
    deadline.Some? && deadline.value <= now
  }

  function Retain(item: Item, now: int): Item {
    if !Managed(item) then item
    else
      var after := item.(status := if Due(item, now) then Expired else item.status, expiresAt := Deadline(item));
      if after == item then item else after.(updatedAt := now)
  }

  function RetainAll(items: seq<Item>, now: int): (after: seq<Item>)
    ensures |after| == |items|
  {
    seq(|items|, i requires 0 <= i < |items| => Retain(items[i], now))
  }

  function Count(items: seq<Item>, p: Item -> bool): nat
    decreases |items|
  {
    if items == [] then 0
    else Count(items[..|items| - 1], p) + if p(items[|items| - 1]) then 1 else 0
  }

  function Summarise(items: seq<Item>, now: int): Summary {
    Summary(
      Count(items, (i: Item) => Managed(i)),
      Count(items, (i: Item) => Managed(i) && !IsPermanent(i.policy) && i.expiresAt.None? && Deadline(i).Some?),
      Count(items, (i: Item) => Managed(i) && Due(i, now)),
      Count(items, (i: Item) => Managed(i) && IsPermanent(i.policy)),
      Count(items, (i: Item) => Managed(i) && !IsPermanent(i.policy) && Deadline(i).None?))
  }

  function Mark(p: bool): nat { if p then 1 else 0 }

  /** One row more. */
  lemma SummariseNext(items: seq<Item>, n: nat, now: int)
    requires n < |items|
    ensures var i := items[n]; var s := Summarise(items[..n], now); var managed := Managed(i);
      Summarise(items[..n + 1], now) == Summary(
        s.scanned + Mark(managed),
        s.defaulted + Mark(managed && !IsPermanent(i.policy) && i.expiresAt.None? && Deadline(i).Some?),
        s.expired + Mark(managed && Due(i, now)),
        s.permanent + Mark(managed && IsPermanent(i.policy)),
        s.skipped + Mark(managed && !IsPermanent(i.policy) && Deadline(i).None?))
  {
    assert items[..n + 1][..n] == items[..n];
  }

  // -------------------------------------------------------------- over all times

  /** The same, but for the time of the last update. */
  predicate SameLife(a: Item, b: Item) { a.(updatedAt := 0) == b.(updatedAt := 0) }

  predicate AllSameLife(a: seq<Item>, b: seq<Item>) {
    |a| == |b| && forall i :: 0 <= i < |a| ==> SameLife(a[i], b[i])
  }

  function Latest(times: seq<int>): int
    requires times != []
  {
    if |times| == 1 then times[0]
    else
      var rest := Latest(times[1..]);
      if times[0] < rest then rest else times[0]
  }

  function RetainOver(items: seq<Item>, times: seq<int>): seq<Item>
    decreases |times|
  {
    if times == [] then items else RetainOver(RetainAll(items, times[0]), times[1..])
  }

  /** What a pass does to a row, in seconds: permanent rows never end; an expiry that is set
      is kept; else the row's policy gives it 30 or 90 days from its creation, and else its
      scope does. */
  lemma RowAfterPass(items: seq<Item>, now: int, i: nat)
    requires i < |items| && items[i].status in {Active, PendingReview}
    ensures var item, after := items[i], RetainAll(items, now)[i];
      var policy := if item.policy.None? then "" else Lower(Strip(item.policy.value));
      var life := if policy == "30d" then 2592000 else if policy == "90d" then 7776000
                  else if item.scope == "RunMemory" then 2592000 else 7776000;
      && after.(status := item.status, expiresAt := item.expiresAt, updatedAt := item.updatedAt) == item
      && after.expiresAt == (
           if policy in {"permanent", "forever"} then None
           else if item.expiresAt.Some? then item.expiresAt
           else if policy in {"30d", "90d"}
                   || item.scope in {"RunMemory", "ProjectMemory", "AgentMemory", "CaseMemory", "UserCorrectionMemory"}
           then Some(item.createdAt + life)
           else None)
      && after.status == (if after.expiresAt.Some? && after.expiresAt.value <= now then Expired else item.status)
      && after.updatedAt == if after.status == item.status && after.expiresAt == item.expiresAt then item.updatedAt
                            else now
  {
  }

  /** And rows in any other status are left alone. */
  lemma OthersAfterPass(items: seq<Item>, now: int, i: nat)
    requires i < |items| && items[i].status in {Draft, Revoked, Expired}
    ensures RetainAll(items, now)[i] == items[i]
  {
  }

  /** Two passes, in either order of time, are one pass at the later time. */
  lemma PassesCompose(item: Item, t1: int, t2: int)
    ensures SameLife(Retain(Retain(item, t1), t2), Retain(item, if t1 < t2 then t2 else t1))
  {
    if Managed(item) && !Due(item, t1) {
      var once := Retain(item, t1);
      assert Deadline(once) == Deadline(item);
    }
  }

  lemma SameLifeKept(a: Item, b: Item, now: int)
    requires SameLife(a, b)
    ensures SameLife(Retain(a, now), Retain(b, now))
  {
  }

  lemma {:induction false} AllSameLifeKept(a: seq<Item>, b: seq<Item>, times: seq<int>)
    requires AllSameLife(a, b)
    ensures AllSameLife(RetainOver(a, times), RetainOver(b, times))
    decreases |times|
  {
    if times != [] {
      forall i | 0 <= i < |a| ensures SameLife(Retain(a[i], times[0]), Retain(b[i], times[0])) {
        SameLifeKept(a[i], b[i], times[0]);
      }
      AllSameLifeKept(RetainAll(a, times[0]), RetainAll(b, times[0]), times[1..]);
    }
  }

  lemma {:induction false} RunsAreOneRun(items: seq<Item>, times: seq<int>)
    requires times != []
    ensures AllSameLife(RetainOver(items, times), RetainAll(items, Latest(times)))
    decreases |times|
  {
    var once := RetainAll(items, times[0]);
    if |times| == 1 {
      assert RetainOver(once, times[1..]) == once;
    } else {
      var last := Latest(times[1..]);
      RunsAreOneRun(once, times[1..]);
      forall i | 0 <= i < |items|
        ensures SameLife(RetainAll(once, last)[i], RetainAll(items, Latest(times))[i])
      {
        PassesCompose(items[i], times[0], last);
      }
    }
  }

  /** A second pass at the same time changes nothing, not even the update times. */
  lemma RunAgainChangesNothing(items: seq<Item>, now: int)
    ensures RetainAll(RetainAll(items, now), now) == RetainAll(items, now)
  {
    forall i | 0 <= i < |items| ensures Retain(Retain(items[i], now), now) == Retain(items[i], now) {
      var once := Retain(items[i], now);
      if Managed(once) {
        assert Deadline(once) == Deadline(items[i]);
      }
    }
  }

  // -------------------------------------------------------------------- counting

  lemma {:induction false} CountSame(a: seq<Item>, b: seq<Item>, p: Item -> bool, q: Item -> bool)
    requires |a| == |b| && forall i :: 0 <= i < |a| ==> p(a[i]) == q(b[i])
    ensures Count(a, p) == Count(b, q)
    decreases |a|
  {
    if a != [] {
      CountSame(a[..|a| - 1], b[..|b| - 1], p, q);
    }
  }

  lemma {:induction false} CountNone(a: seq<Item>, p: Item -> bool)
    requires forall i :: 0 <= i < |a| ==> !p(a[i])
    ensures Count(a, p) == 0
    decreases |a|
  {
    if a != [] {
      CountNone(a[..|a| - 1], p);
    }
  }

  /** Rows whose column satisfies `p` after the pass but did not before. */
  function Turned(before: seq<Item>, after: seq<Item>, p: Item -> bool): nat
    requires |before| == |after|
    decreases |before|
  {
    if before == [] then 0
    else
      var n := |before| - 1;
      Turned(before[..n], after[..n], p) + if p(after[n]) && !p(before[n]) then 1 else 0
  }

  lemma {:induction false} TurnedIsCount(items: seq<Item>, now: int, p: Item -> bool, q: Item -> bool)
    requires forall i :: 0 <= i < |items| ==> (q(items[i]) <==> p(Retain(items[i], now)) && !p(items[i]))
    ensures Turned(items, RetainAll(items, now), p) == Count(items, q)
    decreases |items|
  {
    if items != [] {
      var n := |items| - 1;
      TurnedIsCount(items[..n], now, p, q);
      assert RetainAll(items, now)[..n] == RetainAll(items[..n], now);
    }
  }

  /** The reported counts, which a dry run shares, are the changes a real run makes:
      as many rows become expired, and get an expiry they did not have, as it says. */
  lemma CountsAreChanges(items: seq<Item>, now: int)
    ensures Turned(items, RetainAll(items, now), (i: Item) => i.status.Expired?) == Summarise(items, now).expired
    ensures Turned(items, RetainAll(items, now), (i: Item) => i.expiresAt.Some?) == Summarise(items, now).defaulted
  {
    TurnedIsCount(items, now, (i: Item) => i.status.Expired?, (i: Item) => Managed(i) && Due(i, now));
    TurnedIsCount(items, now, (i: Item) => i.expiresAt.Some?,
      (i: Item) => Managed(i) && !IsPermanent(i.policy) && i.expiresAt.None? && Deadline(i).Some?);
  }

  /** Nothing is left to default or to expire right after a pass. */
  lemma NothingLeft(items: seq<Item>, now: int)
    ensures var next := Summarise(RetainAll(items, now), now); next.expired == 0 && next.defaulted == 0
  {
    var after := RetainAll(items, now);
    CountNone(after, (i: Item) => Managed(i) && Due(i, now));
    CountNone(after, (i: Item) => Managed(i) && !IsPermanent(i.policy) && i.expiresAt.None? && Deadline(i).Some?);
  }

  /** With the scopes the table's check constraint allows, no row is ever skipped. */
  lemma NoneSkipped(items: seq<Item>, now: int)
    requires forall item :: item in items ==>
      item.scope in {"RunMemory", "ProjectMemory", "AgentMemory", "CaseMemory", "UserCorrectionMemory"}
    ensures Summarise(items, now).skipped == 0
  {
    CountNone(items, (i: Item) => Managed(i) && !IsPermanent(i.policy) && Deadline(i).None?);
  }

  // --------------------------------------------------- agreement with the search

  /** The search query's conditions on status and expiry. */
  predicate Searchable(status: Status, expiresAt: Option<int>, now: int) {
    status.Active? && (expiresAt.None? || expiresAt.value > now)
  }

  predicate Found(item: Item, now: int) { Searchable(item.status, item.expiresAt, now) }

  /** Right after a pass the expiry test holds of every active row. */
  lemma ActiveIsFound(items: seq<Item>, now: int)
    ensures forall item :: item in RetainAll(items, now) ==> (item.status.Active? <==> Found(item, now))
  {
  }

  /** Between passes the search already sees what a pass now would leave. */
  lemma SearchAnticipatesRun(item: Item, ran: int, now: int)
    requires ran <= now
    ensures Found(Retain(item, ran), now) <==> Found(Retain(item, now), now)
  {
    PassesCompose(item, ran, now);
  }

  /** Without any pass the search sees too much exactly when a row's expiry was never
      written, and too little exactly when a permanent row still carries one. */
  lemma SearchWithoutRun(item: Item, now: int)
    ensures Found(item, now) && !Found(Retain(item, now), now)
      <==> item.status.Active? && item.expiresAt.None? && Due(item, now)
    ensures !Found(item, now) && Found(Retain(item, now), now)
      <==> (item.status.Active? && IsPermanent(item.policy) && item.expiresAt.Some? && item.expiresAt.value <= now)
  {
  }
}
