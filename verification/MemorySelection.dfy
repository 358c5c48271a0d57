/** Retrieval of memory references: the scope checks and greedy selection of the
    gateway (app/memory/gateway.py) over the rows its search query admits
    (app/memory/vector_store.py). */
module MemorySelection {
  import opened Wrappers
  import Retention = MemoryRetention

  datatype Field = TenantId | GuildId | UserId | ProjectId | RequisitionId | CandidateId

  const LONG_TERM_FIELDS: seq<Field> := [TenantId, GuildId, UserId, ProjectId, RequisitionId, CandidateId]

  /** A JSON value, its scalars as texts. */
  datatype Json = Scalar(text: string) | List(items: seq<Json>) | Dict(fields: map<string, Json>)

  /** JSONB containment: every entry of `b` is in `a`, at any depth. */
  predicate Contains(a: Json, b: Json)
    decreases b, 0
  {
    match b
    case Scalar(_) => a == b
    case List(items) => a.List? && forall i :: 0 <= i < |items| ==> OneContains(a.items, items[i])
    case Dict(fields) =>
      a.Dict? && forall key :: key in fields ==> key in a.fields && Contains(a.fields[key], fields[key])
  }

  predicate OneContains(items: seq<Json>, b: Json)
    decreases b, 1
  {
    exists j :: 0 <= j < |items| && Contains(items[j], b)
  }

  lemma {:induction false} ContainsItself(a: Json)
    ensures Contains(a, a)
    decreases a
  {
    match a
    case Scalar(_) =>
    case List(items) =>
      forall i | 0 <= i < |items| ensures OneContains(items, items[i]) {
        ContainsItself(items[i]);
      }
    case Dict(fields) =>
      forall key | key in fields ensures Contains(fields[key], fields[key]) {
        ContainsItself(fields[key]);
      }
  }

  lemma {:induction false} ContainsTrans(a: Json, b: Json, c: Json)
    requires Contains(a, b) && Contains(b, c)
    ensures Contains(a, c)
    decreases c
  {
    match c
    case Scalar(_) =>
    case List(items) =>
      forall i | 0 <= i < |items| ensures OneContains(a.items, items[i]) {
        assert OneContains(b.items, items[i]);
        var k :| 0 <= k < |b.items| && Contains(b.items[k], items[i]);
        assert OneContains(a.items, b.items[k]);
        var j :| 0 <= j < |a.items| && Contains(a.items[j], b.items[k]);
        ContainsTrans(a.items[j], b.items[k], items[i]);
      }
    case Dict(fields) =>
      forall key | key in fields ensures key in a.fields && Contains(a.fields[key], fields[key]) {
        ContainsTrans(a.fields[key], b.fields[key], fields[key]);
      }
  }

  /** A filter of plain values asks for exactly these values under these keys. */
  lemma PlainFilter(row: map<string, Json>, filter: map<string, Json>)
    requires forall key :: key in filter ==> filter[key].Scalar?
    ensures Contains(Dict(row), Dict(filter)) <==>
      forall key :: key in filter ==> key in row && row[key] == filter[key]
  {
  }

  /** A row of `memory_items`; a boundary column that is null has no entry. */
  datatype Row = Row(
    id: nat, scope: string, ownerAgent: Option<string>, summary: string, contentRef: string,
    boundary: map<Field, string>, threadId: Option<string>, pii: string,
    status: Retention.Status, confidence: Option<real>, expiresAt: Option<int>, metadata: map<string, Json>)

  datatype Filters = Filters(
    boundary: map<Field, string>, threadId: Option<string>, ownerAgent: string,
    minConfidence: Option<real>, metadata: map<string, Json>, now: int)

  /** An absent or empty text is "". A limit that is present but empty is `Some(0)`. */
  datatype Policy = Policy(
    allowedScopes: seq<string>, maxItems: Option<int>, maxTokens: Option<int>,
    piiAccessLevel: string, maxPiiLevel: string, agentName: string)

  datatype MemoryRef = MemoryRef(id: nat, scope: string, contentRef: string, tokens: nat, pii: string, score: real)

  // ------------------------------------------------------------ the query's rows

  const PII_ORDER: seq<string> := ["none", "low", "medium", "high"]

  function PiiRank(level: string): nat {
    if level == "none" then 0 else if level == "low" then 1 else if level == "medium" then 2
    else if level == "high" then 3 else 4
  }

  function AllowedPiiLevels(maxLevel: string): seq<string> {
    if maxLevel !in PII_ORDER then ["none"] else PII_ORDER[..PiiRank(maxLevel) + 1]
  }

  predicate PiiAllowed(actual: string, maxLevel: string) {
    if actual !in PII_ORDER || maxLevel !in PII_ORDER then actual == "none"
    else PiiRank(actual) <= PiiRank(maxLevel)
  }

  predicate WithinBoundary(row: Row, filters: Filters) {
    && (forall field :: field in LONG_TERM_FIELDS && field in row.boundary ==>
          field in filters.boundary && filters.boundary[field] == row.boundary[field])
    && (if filters.threadId.Some? then
          row.threadId == filters.threadId || (row.scope != "RunMemory" && row.threadId.None?)
        else row.threadId.None?)
  }

  /** The conditions of the search statement for one row. */
  predicate Matches(row: Row, filters: Filters, scopes: seq<string>, maxPii: string, memoryOwner: string) {
    && Retention.Searchable(row.status, row.expiresAt, filters.now)
    && (scopes != [] ==> row.scope in scopes)
    && (maxPii != "" ==> row.pii in AllowedPiiLevels(maxPii))
    && (filters.ownerAgent != "" ==> row.ownerAgent in {None, Some(filters.ownerAgent)})
    && (memoryOwner != "" ==> row.scope != "AgentMemory" || row.ownerAgent in {None, Some(memoryOwner)})
    && (filters.minConfidence.Some? ==> row.confidence.Some? && row.confidence.value >= filters.minConfidence.value)
    && (filters.metadata != map[] ==> Contains(Dict(row.metadata), Dict(filters.metadata)))
    && WithinBoundary(row, filters)
  }

  /** A row with its similarity to the query. */
  datatype Scored = Scored(row: Row, similarity: real)

  function RefOf(hit: Scored): MemoryRef {
    var score := if hit.similarity < 0.0 then 0.0 else if hit.similarity > 1.0 then 1.0 else hit.similarity;
    var tokens := if |hit.row.summary| / 4 < 1 then 1 else |hit.row.summary| / 4;
    MemoryRef(hit.row.id, hit.row.scope, hit.row.contentRef, tokens, hit.row.pii, score)
  }

  /** The gateway's question to the store. */
  datatype Query = Query(filters: Filters, scopes: seq<string>, maxPii: string, memoryOwner: string)
  {
    predicate Admits(row: Row) { Matches(row, filters, scopes, maxPii, memoryOwner) }
  }

  function Admitted(ranked: seq<Scored>, query: Query): seq<Scored>
    decreases |ranked|
  {
    if ranked == [] then []
    else
      var n := |ranked| - 1;
      Admitted(ranked[..n], query) + if query.Admits(ranked[n].row) then [ranked[n]] else []
  }

  /** The table in order of distance, restricted to the admitted rows and limited;
      every hit becomes a reference. */
  method Search(ranked: seq<Scored>, query: Query, topK: nat) returns (refs: seq<MemoryRef>)
    ensures var hits := Admitted(ranked, query);
      |refs| == (if |hits| < topK then |hits| else topK)
      && forall i :: 0 <= i < |refs| ==> refs[i] == RefOf(hits[i])
  {
    var hits := Admitted(ranked, query);
    var rows := if |hits| < topK then hits else hits[..topK];
    refs := [];
    for i := 0 to |rows|
      invariant |refs| == i && forall j :: 0 <= j < i ==> refs[j] == RefOf(hits[j])
    {
      refs := refs + [RefOf(rows[i])];
    }
  }

  lemma {:induction false} AdmittedHits(ranked: seq<Scored>, query: Query, hit: Scored)
    ensures hit in Admitted(ranked, query) <==> hit in ranked && query.Admits(hit.row)
    decreases |ranked|
  {
    if ranked != [] {
      AdmittedHits(ranked[..|ranked| - 1], query, hit);
      assert ranked == ranked[..|ranked| - 1] + [ranked[|ranked| - 1]];
    }
  }

  /** A longer ranking adds its admitted rows after the nearer ones. */
  lemma {:induction false} AdmittedConcat(near: seq<Scored>, far: seq<Scored>, query: Query)
    ensures Admitted(near + far, query) == Admitted(near, query) + Admitted(far, query)
    decreases |far|
  {
    if far == [] {
      assert near + far == near;
    } else {
      assert (near + far)[..|near + far| - 1] == near + far[..|far| - 1];
      AdmittedConcat(near, far[..|far| - 1], query);
    }
  }

  /** The store's PII filter and the gateway's second check are the same. */
  lemma PiiFiltersAgree(actual: string, maxLevel: string)
    ensures actual in AllowedPiiLevels(maxLevel) <==> PiiAllowed(actual, maxLevel)
  {
    assert forall i :: 0 <= i < 4 ==> PiiRank(PII_ORDER[i]) == i;
    if maxLevel in PII_ORDER && actual in PII_ORDER {
      assert PII_ORDER[PiiRank(actual)] == actual;
      if PiiRank(actual) <= PiiRank(maxLevel) {
        assert AllowedPiiLevels(maxLevel)[PiiRank(actual)] == actual;
      }
    }
  }

  // ----------------------------------------------------------- scopes and filters

  function IntersectScopes(requested: seq<string>, allowed: seq<string>): (scopes: seq<string>)
    ensures forall scope :: scope in scopes <==> scope in requested && scope in allowed
    decreases |requested|
  {
    if requested == [] then []
    else
      var n := |requested| - 1;
      assert requested == requested[..n] + [requested[n]];
      IntersectScopes(requested[..n], allowed) + if requested[n] in allowed then [requested[n]] else []
  }

  predicate HasLongTermBoundary(filters: Filters) {
    exists field :: field in LONG_TERM_FIELDS && field in filters.boundary && filters.boundary[field] != ""
  }

  lemma AllFields(field: Field)
    ensures field in LONG_TERM_FIELDS
  {
    assert LONG_TERM_FIELDS[0] == TenantId && LONG_TERM_FIELDS[1] == GuildId && LONG_TERM_FIELDS[2] == UserId;
    assert LONG_TERM_FIELDS[3] == ProjectId && LONG_TERM_FIELDS[4] == RequisitionId;
    assert LONG_TERM_FIELDS[5] == CandidateId;
  }

  lemma LongTermBoundary(filters: Filters)
    ensures HasLongTermBoundary(filters) <==> exists field :: field in filters.boundary && filters.boundary[field] != ""
  {
    if field :| field in filters.boundary && filters.boundary[field] != "" {
      AllFields(field);
    }
  }

  predicate HasThreadBoundary(filters: Filters) { filters.threadId.Some? && filters.threadId.value != "" }

  predicate ScopeAllowed(scope: string, filters: Filters) {
    if scope == "RunMemory" then HasThreadBoundary(filters) else HasLongTermBoundary(filters)
  }

  /** The scopes, in order, that the filters let in (or, for `kept == false`, shut out). */
  function ScopedBy(allowed: seq<string>, filters: Filters, kept: bool): (scoped: seq<string>)
    ensures forall scope :: scope in scoped <==> scope in allowed && ScopeAllowed(scope, filters) == kept
    decreases |allowed|
  {
    if allowed == [] then []
    else
      var n := |allowed| - 1;
      assert allowed == allowed[..n] + [allowed[n]];
      ScopedBy(allowed[..n], filters, kept) + if ScopeAllowed(allowed[n], filters) == kept then [allowed[n]] else []
  }

  method ScopesAllowedByFilters(allowed: seq<string>, filters: Filters)
    returns (scoped: seq<string>, excluded: seq<string>)
    ensures scoped == ScopedBy(allowed, filters, true)
    ensures excluded == ScopedBy(allowed, filters, false)
    ensures forall scope :: scope in scoped <==>
      scope in allowed
      && if scope == "RunMemory" then filters.threadId !in {None, Some("")}
         else exists field :: field in filters.boundary && filters.boundary[field] != ""
  {
    scoped, excluded := [], [];
    var hasLongTerm := HasLongTermBoundary(filters);
    var hasThread := HasThreadBoundary(filters);
    for i := 0 to |allowed|
      invariant scoped == ScopedBy(allowed[..i], filters, true)
      invariant excluded == ScopedBy(allowed[..i], filters, false)
    {
      var scope := allowed[i];
      assert allowed[..i + 1][..i] == allowed[..i];
      if scope == "RunMemory" {
        if hasThread { scoped := scoped + [scope]; } else { excluded := excluded + [scope]; }
        continue;
      }
      if hasLongTerm { scoped := scoped + [scope]; } else { excluded := excluded + [scope]; }
    }
    assert allowed[..|allowed|] == allowed;
    LongTermBoundary(filters);
  }

  /** The allowed ones of the requested scopes keep their order. */
  lemma {:induction false} IntersectInOrder(a: seq<string>, b: seq<string>, allowed: seq<string>)
    ensures IntersectScopes(a + b, allowed) == IntersectScopes(a, allowed) + IntersectScopes(b, allowed)
    decreases |b|
  {
    if b == [] {
      assert a + b == a;
    } else {
      assert (a + b)[..|a + b| - 1] == a + b[..|b| - 1];
      IntersectInOrder(a, b[..|b| - 1], allowed);
    }
  }

  /** So do those that the filters let in, and those that they shut out. */
  lemma {:induction false} ScopesInOrder(a: seq<string>, b: seq<string>, filters: Filters, kept: bool)
    ensures ScopedBy(a + b, filters, kept) == ScopedBy(a, filters, kept) + ScopedBy(b, filters, kept)
    decreases |b|
  {
    if b == [] {
      assert a + b == a;
    } else {
      assert (a + b)[..|a + b| - 1] == a + b[..|b| - 1];
      ScopesInOrder(a, b[..|b| - 1], filters, kept);
    }
  }

  // ------------------------------------------------- sorting by falling relevance

  predicate Falling(refs: seq<MemoryRef>) {
    forall i, j :: 0 <= i < j < |refs| ==> refs[i].score >= refs[j].score
  }

  /** The references with one score, in order. */
  function OfScore(refs: seq<MemoryRef>, score: real): seq<MemoryRef>
    decreases |refs|
  {
    if refs == [] then []
    else
      var n := |refs| - 1;
      OfScore(refs[..n], score) + if refs[n].score == score then [refs[n]] else []
  }

  ghost predicate StableSort(refs: seq<MemoryRef>, sorted: seq<MemoryRef>) {
    Falling(sorted) && forall score :: OfScore(sorted, score) == OfScore(refs, score)
  }

  function Insert(sorted: seq<MemoryRef>, ref: MemoryRef): seq<MemoryRef>
    decreases |sorted|
  {
    var n := |sorted| - 1;
    if sorted == [] || sorted[n].score >= ref.score then sorted + [ref]
    else Insert(sorted[..n], ref) + [sorted[n]]
  }

  function Sorted(refs: seq<MemoryRef>): seq<MemoryRef>
    decreases |refs|
  {
    if refs == [] then [] else Insert(Sorted(refs[..|refs| - 1]), refs[|refs| - 1])
  }

  lemma {:induction false} InsertFalls(sorted: seq<MemoryRef>, ref: MemoryRef)
    requires Falling(sorted)
    ensures Falling(Insert(sorted, ref))
    ensures forall x :: x in Insert(sorted, ref) ==> x == ref || x in sorted
    decreases |sorted|
  {
    var n := |sorted| - 1;
    if sorted != [] && sorted[n].score < ref.score {
      var init := Insert(sorted[..n], ref);
      InsertFalls(sorted[..n], ref);
      forall i | 0 <= i < |init| ensures init[i].score >= sorted[n].score {
        assert init[i] in init;
      }
    }
  }

  lemma OfScoreLast(refs: seq<MemoryRef>, ref: MemoryRef, score: real)
    ensures OfScore(refs + [ref], score) == OfScore(refs, score) + if ref.score == score then [ref] else []
  {
    assert (refs + [ref])[..|refs|] == refs;
  }

  lemma {:induction false} InsertOfScore(sorted: seq<MemoryRef>, ref: MemoryRef, score: real)
    ensures OfScore(Insert(sorted, ref), score)
      == OfScore(sorted, score) + if ref.score == score then [ref] else []
    decreases |sorted|
  {
    var n := |sorted| - 1;
    if sorted == [] || sorted[n].score >= ref.score {
      OfScoreLast(sorted, ref, score);
    } else {
      var init, last := sorted[..n], sorted[n];
      assert sorted == init + [last];
      InsertOfScore(init, ref, score);
      OfScoreLast(Insert(init, ref), last, score);
      OfScoreLast(init, last, score);
      assert last.score != score || ref.score != score;
    }
  }

  lemma {:induction false} SortedIsStableSort(refs: seq<MemoryRef>)
    ensures StableSort(refs, Sorted(refs))
    decreases |refs|
  {
    if refs != [] {
      var n := |refs| - 1;
      SortedIsStableSort(refs[..n]);
      InsertFalls(Sorted(refs[..n]), refs[n]);
      assert refs == refs[..n] + [refs[n]];
      forall score ensures OfScore(Sorted(refs), score) == OfScore(refs, score) {
        InsertOfScore(Sorted(refs[..n]), refs[n], score);
      }
    }
  }

  lemma {:induction false} OfScoreMembers(refs: seq<MemoryRef>, score: real)
    ensures forall ref :: ref in OfScore(refs, score) <==> ref in refs && ref.score == score
    decreases |refs|
  {
    if refs != [] {
      var n := |refs| - 1;
      OfScoreMembers(refs[..n], score);
      assert refs == refs[..n] + [refs[n]];
    }
  }

  lemma LastIsLowest(a: seq<MemoryRef>, b: seq<MemoryRef>)
    requires a != [] && Falling(b) && forall score :: OfScore(a, score) == OfScore(b, score)
    ensures b != [] && b[|b| - 1].score <= a[|a| - 1].score
  {
    var last := a[|a| - 1];
    OfScoreMembers(a, last.score);
    OfScoreMembers(b, last.score);
    assert last in OfScore(b, last.score);
  }

  lemma {:induction false} FallingUnique(a: seq<MemoryRef>, b: seq<MemoryRef>)
    requires Falling(a) && Falling(b) && forall score :: OfScore(a, score) == OfScore(b, score)
    ensures a == b
    decreases |a|
  {
    if a != [] || b != [] {
      if a == [] { LastIsLowest(b, a); } else { LastIsLowest(a, b); }
      LastIsLowest(b, a);
      var m, n := |a| - 1, |b| - 1;
      var score := a[m].score;
      assert OfScore(a, score)[|OfScore(a, score)| - 1] == a[m];
      assert OfScore(b, score)[|OfScore(b, score)| - 1] == b[n];
      forall s ensures OfScore(a[..m], s) == OfScore(b[..n], s) {
        var tail := if s == score then [a[m]] else [];
        assert OfScore(a, s) == OfScore(a[..m], s) + tail;
        assert OfScore(b, s) == OfScore(b[..n], s) + tail;
        assert OfScore(a[..m], s) == OfScore(a, s)[..|OfScore(a, s)| - |tail|];
      }
      FallingUnique(a[..m], b[..n]);
      assert a == a[..m] + [a[m]] && b == b[..n] + [b[n]];
    }
  }

  lemma SortedMembers(refs: seq<MemoryRef>, ref: MemoryRef)
    ensures ref in Sorted(refs) <==> ref in refs
  {
    SortedIsStableSort(refs);
    OfScoreMembers(refs, ref.score);
    OfScoreMembers(Sorted(refs), ref.score);
    assert OfScore(Sorted(refs), ref.score) == OfScore(refs, ref.score);
  }

  /** A stable sort by falling relevance is unique, so every such sort gives `Sorted`. */
  lemma StableSortUnique(refs: seq<MemoryRef>, sorted: seq<MemoryRef>)
    requires StableSort(refs, sorted)
    ensures sorted == Sorted(refs)
  {
    SortedIsStableSort(refs);
    FallingUnique(sorted, Sorted(refs));
  }
}
