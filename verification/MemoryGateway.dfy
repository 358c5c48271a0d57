/** Greedy selection under a budget, and what a retrieval may return
    (app/memory/gateway.py). */
module MemoryGateway {
  import opened MemorySelection
  import opened Wrappers
  import Retention = MemoryRetention

  datatype Limits = Limits(scopes: seq<string>, maxPii: string, topK: nat, maxTokens: nat)

  datatype Reason = ScopeNotAllowed | PiiNotAllowed | Duplicate | TokenBudgetExceeded

  datatype Exclusion = Exclusion(ref: MemoryRef, reason: Reason)

  /** What a pass over the candidates produced, and how many it looked at. */
  datatype Pass = Pass(selected: seq<MemoryRef>, excluded: seq<Exclusion>, visited: nat)

  function Tokens(refs: seq<MemoryRef>): nat
    decreases |refs|
  {
    if refs == [] then 0 else Tokens(refs[..|refs| - 1]) + refs[|refs| - 1].tokens
  }

  predicate Names(refs: seq<MemoryRef>, contentRef: string) {
    exists i :: 0 <= i < |refs| && refs[i].contentRef == contentRef
  }

  // --------------------------------------------------------------- the selection

  method SelectRefs(candidates: seq<MemoryRef>, limits: Limits)
    returns (selected: seq<MemoryRef>, excluded: seq<Exclusion>)
    ensures selected == Select(Sorted(candidates), limits).selected
    ensures excluded == Select(Sorted(candidates), limits).excluded
  {
    var sorted := Sorted(candidates);
    selected, excluded := [], [];
    var seen: set<string> := {};
    var tokenTotal := 0;
    assert sorted[..0] == [];
    for i := 0 to |sorted|
      invariant Pass(selected, excluded, i) == Select(sorted[..i], limits)
      invariant !Full(selected, limits)
      invariant SeenNames(selected, seen)
      invariant tokenTotal == Tokens(selected)
    {
      var ref := sorted[i];
      SelectNext(sorted, i, limits);
      var refusal := Refuse(ref, selected, seen, tokenTotal, limits);
      if refusal.Some? {
        excluded := excluded + [Exclusion(ref, refusal.value)];
        continue;
      }
      NamesExtends(selected, ref);
      TokensExtend(selected, ref);
      selected := selected + [ref];
      seen := seen + {ref.contentRef};
      tokenTotal := tokenTotal + ref.tokens;
      if |selected| >= limits.topK {
        FullStops(sorted, i + 1, limits);
        return;
      }
    }
    assert sorted[..|sorted|] == sorted;
  }

  predicate SeenNames(selected: seq<MemoryRef>, seen: set<string>) {
    && (forall name :: name in seen ==> Names(selected, name))
    && (forall ref :: ref in selected ==> ref.contentRef in seen)
  }

  /** The four checks of one candidate, in order. */
  method Refuse(ref: MemoryRef, ghost selected: seq<MemoryRef>, seen: set<string>, tokenTotal: nat, limits: Limits)
    returns (refusal: Option<Reason>)
    requires SeenNames(selected, seen) && tokenTotal == Tokens(selected)
    ensures refusal == Refusal(selected, ref, limits)
  {
    if ref.scope !in limits.scopes {
      return Some(ScopeNotAllowed);
    }
    if !PiiAllowed(ref.pii, limits.maxPii) {
      return Some(PiiNotAllowed);
    }
    assert ref.contentRef in seen <==> Names(selected, ref.contentRef);
    if ref.contentRef in seen {
      return Some(Duplicate);
    }
    if tokenTotal + ref.tokens > limits.maxTokens {
      return Some(TokenBudgetExceeded);
    }
    refusal := None;
  }

  lemma TokensExtend(refs: seq<MemoryRef>, ref: MemoryRef)
    ensures Tokens(refs + [ref]) == Tokens(refs) + ref.tokens
  {
    assert (refs + [ref])[..|refs|] == refs;
  }

  lemma NamesExtends(refs: seq<MemoryRef>, ref: MemoryRef)
    ensures forall name :: Names(refs + [ref], name) <==> Names(refs, name) || name == ref.contentRef
  {
    forall name | Names(refs, name) || name == ref.contentRef ensures Names(refs + [ref], name) {
      if Names(refs, name) {
        var i :| 0 <= i < |refs| && refs[i].contentRef == name;
        assert (refs + [ref])[i].contentRef == name;
      } else {
        assert (refs + [ref])[|refs|].contentRef == name;
      }
    }
  }

  /** The pass ends after a selection that reaches the limit. */
  predicate Full(selected: seq<MemoryRef>, limits: Limits) { selected != [] && |selected| >= limits.topK }

  /** Why a reference is passed over, given those selected before it. */
  function Refusal(selected: seq<MemoryRef>, ref: MemoryRef, limits: Limits): Option<Reason> {
    if ref.scope !in limits.scopes then Some(ScopeNotAllowed)
    else if !PiiAllowed(ref.pii, limits.maxPii) then Some(PiiNotAllowed)
    else if Names(selected, ref.contentRef) then Some(Duplicate)
    else if Tokens(selected) + ref.tokens > limits.maxTokens then Some(TokenBudgetExceeded)
    else None
  }

  /** One candidate more. */
  function Step(pass: Pass, ref: MemoryRef, limits: Limits): Pass {
    if Full(pass.selected, limits) then pass
    else
      match Refusal(pass.selected, ref, limits)
      case None => Pass(pass.selected + [ref], pass.excluded, pass.visited + 1)
      case Some(reason) => Pass(pass.selected, pass.excluded + [Exclusion(ref, reason)], pass.visited + 1)
  }

  function Select(sorted: seq<MemoryRef>, limits: Limits): Pass
    decreases |sorted|
  {
    if sorted == [] then Pass([], [], 0)
    else Step(Select(sorted[..|sorted| - 1], limits), sorted[|sorted| - 1], limits)
  }

  lemma SelectNext(sorted: seq<MemoryRef>, i: nat, limits: Limits)
    requires i < |sorted|
    ensures Select(sorted[..i + 1], limits) == Step(Select(sorted[..i], limits), sorted[i], limits)
  {
    assert sorted[..i + 1][..i] == sorted[..i];
  }

  lemma {:induction false} FullStops(sorted: seq<MemoryRef>, m: nat, limits: Limits)
    requires m <= |sorted| && Full(Select(sorted[..m], limits).selected, limits)
    ensures Select(sorted, limits) == Select(sorted[..m], limits)
    decreases |sorted|
  {
    var n := |sorted| - 1;
    if m == |sorted| {
      assert sorted[..m] == sorted;
    } else {
      assert sorted[..n][..m] == sorted[..m];
      FullStops(sorted[..n], m, limits);
    }
  }

  /** `visited` is `selected` and the excluded references, each in order, merged. */
  ghost predicate Merges(visited: seq<MemoryRef>, selected: seq<MemoryRef>, excluded: seq<Exclusion>)
    decreases |visited|
  {
    var n, s, e := |visited| - 1, |selected| - 1, |excluded| - 1;
    if visited == [] then selected == [] && excluded == []
    else
      || (s >= 0 && selected[s] == visited[n] && Merges(visited[..n], selected[..s], excluded))
      || (e >= 0 && excluded[e].ref == visited[n] && Merges(visited[..n], selected, excluded[..e]))
  }

  lemma {:induction false} MergedMembers(
    visited: seq<MemoryRef>, selected: seq<MemoryRef>, excluded: seq<Exclusion>, ref: MemoryRef)
    requires Merges(visited, selected, excluded) && ref in visited
    ensures ref in selected || exists e :: e in excluded && e.ref == ref
    decreases |visited|
  {
    var n, s, e := |visited| - 1, |selected| - 1, |excluded| - 1;
    assert visited == visited[..n] + [visited[n]];
    if visited[n] != ref {
      if s >= 0 && selected[s] == visited[n] && Merges(visited[..n], selected[..s], excluded) {
        MergedMembers(visited[..n], selected[..s], excluded, ref);
      } else {
        MergedMembers(visited[..n], selected, excluded[..e], ref);
      }
    } else if !(s >= 0 && selected[s] == ref) {
      assert excluded[e] in excluded;
    }
  }

  /** A refusal that the final selection still bears out. */
  ghost predicate Justified(e: Exclusion, selected: seq<MemoryRef>, limits: Limits) {
    match e.reason
    case ScopeNotAllowed => e.ref.scope !in limits.scopes
    case PiiNotAllowed => !PiiAllowed(e.ref.pii, limits.maxPii)
    case Duplicate => Names(selected, e.ref.contentRef)
    case TokenBudgetExceeded => Tokens(selected) + e.ref.tokens > limits.maxTokens
  }

  ghost predicate Distinct(refs: seq<MemoryRef>) {
    forall i, j :: 0 <= i < j < |refs| ==> refs[i].contentRef != refs[j].contentRef
  }

  /** What was looked at is divided into selected and excluded; the rest follows a stop. */
  ghost predicate Divided(sorted: seq<MemoryRef>, pass: Pass, limits: Limits) {
    && pass.visited <= |sorted|
    && (pass.visited < |sorted| ==> Full(pass.selected, limits))
    && Merges(sorted[..pass.visited], pass.selected, pass.excluded)
  }

  ghost predicate Fits(selected: seq<MemoryRef>, limits: Limits) {
    && |selected| <= (if limits.topK == 0 then 1 else limits.topK)
    && Distinct(selected)
    && Tokens(selected) <= limits.maxTokens
    && (forall ref :: ref in selected ==> ref.scope in limits.scopes && PiiAllowed(ref.pii, limits.maxPii))
  }

  ghost predicate AllJustified(pass: Pass, limits: Limits) {
    forall e :: e in pass.excluded ==> Justified(e, pass.selected, limits)
  }

  lemma MergesWith(pass: Pass, visited: seq<MemoryRef>, ref: MemoryRef, limits: Limits)
    requires Merges(visited, pass.selected, pass.excluded)
    ensures var next := Step(pass, ref, limits);
      next == pass || Merges(visited + [ref], next.selected, next.excluded)
  {
    var next := Step(pass, ref, limits);
    assert (visited + [ref])[..|visited|] == visited;
    if |next.selected| > |pass.selected| {
      assert next.selected[..|pass.selected|] == pass.selected;
    } else if |next.excluded| > |pass.excluded| {
      assert next.excluded[..|pass.excluded|] == pass.excluded;
    }
  }

  lemma DividedNext(sorted: seq<MemoryRef>, before: Pass, limits: Limits)
    requires sorted != [] && before == Select(sorted[..|sorted| - 1], limits)
    requires Divided(sorted[..|sorted| - 1], before, limits) && !Full(before.selected, limits)
    ensures Divided(sorted, Step(before, sorted[|sorted| - 1], limits), limits)
  {
    var n := |sorted| - 1;
    assert sorted[..n][..n] == sorted[..n] && sorted[..n + 1] == sorted[..n] + [sorted[n]];
    MergesWith(before, sorted[..n], sorted[n], limits);
  }

  lemma {:induction false} SelectDivides(sorted: seq<MemoryRef>, limits: Limits)
    ensures Divided(sorted, Select(sorted, limits), limits)
    decreases |sorted|
  {
    if sorted != [] {
      var n := |sorted| - 1;
      var before := Select(sorted[..n], limits);
      SelectDivides(sorted[..n], limits);
      if Full(before.selected, limits) {
        assert sorted[..n][..before.visited] == sorted[..before.visited];
      } else {
        DividedNext(sorted, before, limits);
      }
    }
  }

  lemma FitsWith(selected: seq<MemoryRef>, ref: MemoryRef, limits: Limits)
    requires Fits(selected, limits) && !Full(selected, limits) && Refusal(selected, ref, limits).None?
    ensures Fits(selected + [ref], limits)
  {
    var after := selected + [ref];
    assert after[..|selected|] == selected;
    forall i, j | 0 <= i < j < |after| ensures after[i].contentRef != after[j].contentRef {
      if j == |selected| {
        assert !Names(selected, ref.contentRef) && selected[i].contentRef != ref.contentRef;
      }
    }
  }

  lemma JustifiedWith(e: Exclusion, selected: seq<MemoryRef>, ref: MemoryRef, limits: Limits)
    requires Justified(e, selected, limits)
    ensures Justified(e, selected + [ref], limits)
  {
    NamesExtends(selected, ref);
    assert (selected + [ref])[..|selected|] == selected;
  }

  lemma {:induction false} SelectFits(sorted: seq<MemoryRef>, limits: Limits)
    ensures Fits(Select(sorted, limits).selected, limits)
    ensures AllJustified(Select(sorted, limits), limits)
    decreases |sorted|
  {
    if sorted != [] {
      var n := |sorted| - 1;
      var before := Select(sorted[..n], limits);
      SelectFits(sorted[..n], limits);
      if !Full(before.selected, limits) && Refusal(before.selected, sorted[n], limits).None? {
        FitsWith(before.selected, sorted[n], limits);
        forall e | e in before.excluded ensures Justified(e, before.selected + [sorted[n]], limits) {
          JustifiedWith(e, before.selected, sorted[n], limits);
        }
      }
    }
  }

  lemma FallsWith(selected: seq<MemoryRef>, sorted: seq<MemoryRef>, ref: MemoryRef)
    requires Falling(selected) && Falling(sorted + [ref]) && forall x :: x in selected ==> x in sorted
    ensures Falling(selected + [ref])
  {
    forall i | 0 <= i < |selected| ensures selected[i].score >= ref.score {
      assert selected[i] in sorted;
      var j :| 0 <= j < |sorted| && sorted[j] == selected[i];
      assert (sorted + [ref])[j] == sorted[j] && (sorted + [ref])[|sorted|] == ref;
    }
  }

  lemma {:induction false} SelectFalls(sorted: seq<MemoryRef>, limits: Limits)
    requires Falling(sorted)
    ensures Falling(Select(sorted, limits).selected)
    ensures forall ref :: ref in Select(sorted, limits).selected ==> ref in sorted
    decreases |sorted|
  {
    if sorted != [] {
      var n := |sorted| - 1;
      SelectFalls(sorted[..n], limits);
      assert sorted == sorted[..n] + [sorted[n]];
      FallsWith(Select(sorted[..n], limits).selected, sorted[..n], sorted[n]);
    }
  }

  /** `ref` is selected, or could not be added to what is. */
  ghost predicate Covered(ref: MemoryRef, selected: seq<MemoryRef>, maxTokens: int) {
    ref in selected || Names(selected, ref.contentRef) || Tokens(selected) + ref.tokens > maxTokens
  }

  /** For any candidates: a bounded, affordable, duplicate-free selection in falling
      relevance, and the stably sorted candidates are divided into selected, excluded
      (each for a reason that still holds) and unvisited. */
  lemma SelectionIsGreedy(candidates: seq<MemoryRef>, limits: Limits)
    requires limits.topK >= 1
    ensures var sorted := Sorted(candidates); var pass := Select(sorted, limits);
      StableSort(candidates, sorted) && Divided(sorted, pass, limits)
      && |pass.selected| <= limits.topK && Fits(pass.selected, limits) && Falling(pass.selected)
      && AllJustified(pass, limits)
      && (forall ref :: ref in pass.selected ==> ref in candidates)
  {
    var sorted := Sorted(candidates);
    SortedIsStableSort(candidates);
    SelectDivides(sorted, limits);
    SelectFits(sorted, limits);
    SelectFalls(sorted, limits);
    forall ref | ref in sorted ensures ref in candidates {
      SortedMembers(candidates, ref);
    }
  }

  /** Unless the limit was reached, nothing eligible could still be added. */
  lemma SelectionIsMaximal(candidates: seq<MemoryRef>, limits: Limits, ref: MemoryRef)
    requires |Select(Sorted(candidates), limits).selected| < limits.topK
    requires ref in candidates && ref.scope in limits.scopes && PiiAllowed(ref.pii, limits.maxPii)
    ensures Covered(ref, Select(Sorted(candidates), limits).selected, limits.maxTokens)
  {
    var sorted := Sorted(candidates);
    var pass := Select(sorted, limits);
    SelectDivides(sorted, limits);
    SelectFits(sorted, limits);
    SortedMembers(candidates, ref);
    assert sorted[..pass.visited] == sorted;
    MergedMembers(sorted, pass.selected, pass.excluded, ref);
  }

  // --------------------------------------------------------------- the retrieval

  datatype Request = Request(
    agentName: string, scopes: seq<string>, filters: Filters, topK: int, maxTokens: int, policy: Policy)
  {
    function Clamp(asked: int, limit: Option<int>): nat {
      var bound := if limit.Some? && limit.value < asked then limit.value else asked;
      if bound < 0 then 0 else bound
    }

    function EffectiveTopK(): nat { Clamp(topK, policy.maxItems) }

    function EffectiveMaxTokens(): nat { Clamp(maxTokens, policy.maxTokens) }

    function PiiLevel(): string {
      if policy.piiAccessLevel != "" then policy.piiAccessLevel
      else if policy.maxPiiLevel != "" then policy.maxPiiLevel
      else "none"
    }

    function MemoryOwner(): string { if policy.agentName != "" then policy.agentName else agentName }

    function AllowedScopes(): seq<string> { IntersectScopes(scopes, policy.allowedScopes) }

    function StoreQuery(): Query {
      Query(filters, ScopedBy(AllowedScopes(), filters, true), PiiLevel(), MemoryOwner())
    }
  }

  /** What may be shown for a request, on the fields of the row, the filters and the policy. */
  ghost predicate Isolated(row: Row, request: Request) {
    var filters, policy := request.filters, request.policy;
    var level := if policy.piiAccessLevel != "" then policy.piiAccessLevel else policy.maxPiiLevel;
    var owner := if policy.agentName != "" then policy.agentName else request.agentName;
    && row.status.Active? && (row.expiresAt.None? || row.expiresAt.value > filters.now)
    && row.scope in request.scopes && row.scope in policy.allowedScopes
    && row.pii in (if level == "high" then {"none", "low", "medium", "high"}
                   else if level == "medium" then {"none", "low", "medium"}
                   else if level == "low" then {"none", "low"} else {"none"})
    && (forall field :: field in row.boundary ==>
          field in filters.boundary && filters.boundary[field] == row.boundary[field])
    && (row.threadId.Some? ==> row.threadId == filters.threadId)
    && (row.scope == "RunMemory" ==> row.threadId.Some? && row.threadId.value != "")
    && (row.scope != "RunMemory" ==> exists field :: field in filters.boundary && filters.boundary[field] != "")
    && (row.scope == "AgentMemory" && owner != "" ==> row.ownerAgent in {None, Some(owner)})
    && (filters.ownerAgent != "" ==> row.ownerAgent in {None, Some(filters.ownerAgent)})
    && (filters.minConfidence.Some? ==> row.confidence.Some? && row.confidence.value >= filters.minConfidence.value)
    && (forall key :: key in filters.metadata ==>
          key in row.metadata && Contains(row.metadata[key], filters.metadata[key]))
  }

  lemma PiiWithin(pii: string, level: string)
    ensures pii in AllowedPiiLevels(level) <==>
      pii in (if level == "high" then {"none", "low", "medium", "high"}
              else if level == "medium" then {"none", "low", "medium"}
              else if level == "low" then {"none", "low"} else {"none"})
  {
    assert PII_ORDER[..1] == ["none"] && PII_ORDER[..2] == ["none", "low"];
    assert PII_ORDER[..3] == ["none", "low", "medium"] && PII_ORDER[..4] == ["none", "low", "medium", "high"];
  }

  lemma ScopesOfQuery(request: Request, scope: string)
    ensures var filters := request.filters;
      scope in request.StoreQuery().scopes <==>
        scope in request.scopes && scope in request.policy.allowedScopes
        && if scope == "RunMemory" then filters.threadId !in {None, Some("")}
           else exists field :: field in filters.boundary && filters.boundary[field] != ""
  {
    LongTermBoundary(request.filters);
  }

  /** The conditions of the search on scope, thread, boundaries and metadata. */
  lemma BoundariesOfQuery(row: Row, filters: Filters)
    ensures WithinBoundary(row, filters) <==>
      && (forall field :: field in row.boundary ==>
            field in filters.boundary && filters.boundary[field] == row.boundary[field])
      && (if filters.threadId.Some? then
            row.threadId == filters.threadId || (row.scope != "RunMemory" && row.threadId.None?)
          else row.threadId.None?)
    ensures (filters.metadata != map[] ==> Contains(Dict(row.metadata), Dict(filters.metadata))) <==>
      forall key :: key in filters.metadata ==>
        key in row.metadata && Contains(row.metadata[key], filters.metadata[key])
  {
    forall field: Field ensures field in LONG_TERM_FIELDS {
      AllFields(field);
    }
  }

  /** The gateway's query admits exactly what may be shown. */
  lemma AdmitsIsolated(row: Row, request: Request)
    ensures request.StoreQuery().scopes != [] ==> (request.StoreQuery().Admits(row) <==> Isolated(row, request))
    ensures request.StoreQuery().scopes == [] ==> !Isolated(row, request)
  {
    PiiWithin(row.pii, request.PiiLevel());
    ScopesOfQuery(request, row.scope);
    BoundariesOfQuery(row, request.filters);
  }

  /** The rows of a ranking that may be shown. */
  ghost function Visible(ranked: seq<Scored>, request: Request): seq<Scored>
    decreases |ranked|
  {
    if ranked == [] then []
    else
      var n := |ranked| - 1;
      Visible(ranked[..n], request) + if Isolated(ranked[n].row, request) then [ranked[n]] else []
  }

  lemma {:induction false} AdmittedIsVisible(ranked: seq<Scored>, request: Request)
    requires request.StoreQuery().scopes != []
    ensures Admitted(ranked, request.StoreQuery()) == Visible(ranked, request)
    decreases |ranked|
  {
    if ranked != [] {
      AdmittedIsVisible(ranked[..|ranked| - 1], request);
      AdmitsIsolated(ranked[|ranked| - 1].row, request);
    }
  }

  /** The reference of a row. */
  ghost predicate Refers(ref: MemoryRef, hit: Scored) {
    && ref.id == hit.row.id && ref.scope == hit.row.scope && ref.contentRef == hit.row.contentRef
    && ref.pii == hit.row.pii && ref.tokens == (if |hit.row.summary| < 4 then 1 else |hit.row.summary| / 4)
    && ref.score == (if hit.similarity < 0.0 then 0.0 else if 1.0 < hit.similarity then 1.0 else hit.similarity)
  }

  /** `ref` stands for a row that may be shown. */
  ghost predicate Shown(ref: MemoryRef, ranked: seq<Scored>, request: Request) {
    exists hit :: hit in ranked && Refers(ref, hit) && Isolated(hit.row, request)
  }

  /** Whatever the table holds and however it ranks, only rows that may be shown come
      back, within the limits of the request and of the policy, by falling relevance; and
      when neither limit of the search nor of the selection was reached, every row that
      may be shown is covered. */
  method Retrieve(request: Request, ranked: seq<Scored>) returns (selected: seq<MemoryRef>)
    ensures forall ref :: ref in selected ==> Shown(ref, ranked, request)
    ensures selected != [] ==>
      && |selected| <= request.topK && (request.policy.maxItems.Some? ==> |selected| <= request.policy.maxItems.value)
      && Tokens(selected) <= request.maxTokens
      && (request.policy.maxTokens.Some? ==> Tokens(selected) <= request.policy.maxTokens.value)
    ensures Distinct(selected) && Falling(selected)
    ensures
      var most := Least(request.topK, request.policy.maxItems);
      |selected| < most && |Visible(ranked, request)| <= 3 * most ==>
        forall hit, ref :: hit in ranked && Isolated(hit.row, request) && Refers(ref, hit) ==>
          Covered(ref, selected, Least(request.maxTokens, request.policy.maxTokens))
  {
    var allowed := request.AllowedScopes();
    var topK, maxTokens := request.EffectiveTopK(), request.EffectiveMaxTokens();
    if allowed == [] || topK == 0 || maxTokens == 0 {
      NothingToShow(request, ranked);
      return [];
    }
    var scoped, exclusions := ScopesAllowedByFilters(allowed, request.filters);
    if scoped == [] {
      NothingToShow(request, ranked);
      return [];
    }
    var query := Query(request.filters, scoped, request.PiiLevel(), request.MemoryOwner());
    var candidates := Search(ranked, query, if topK * 3 > topK then topK * 3 else topK);
    var limits := Limits(scoped, request.PiiLevel(), topK, maxTokens);
    var excluded;
    selected, excluded := SelectRefs(candidates, limits);
    SelectionIsGreedy(candidates, limits);
    AdmittedIsVisible(ranked, request);
    CandidatesAreShown(request, ranked, query, candidates);
    if |selected| < topK && |Admitted(ranked, query)| <= 3 * topK {
      forall hit, ref | hit in ranked && Isolated(hit.row, request) && Refers(ref, hit)
        ensures Covered(ref, selected, maxTokens)
      {
        HitIsCovered(request, ranked, query, candidates, limits, hit, ref);
      }
    }
  }

  /** The asked number, or the policy's if that is less. */
  function Least(asked: int, limit: Option<int>): int {
    if limit.Some? && limit.value < asked then limit.value else asked
  }

  /** Without a scope nothing may be shown, and without a budget nothing fits. */
  lemma NothingToShow(request: Request, ranked: seq<Scored>)
    requires request.StoreQuery().scopes == [] || request.EffectiveTopK() == 0 || request.EffectiveMaxTokens() == 0
    ensures 0 < Least(request.topK, request.policy.maxItems) ==>
      forall hit, ref :: hit in ranked && Isolated(hit.row, request) && Refers(ref, hit) ==>
        Covered(ref, [], Least(request.maxTokens, request.policy.maxTokens))
  {
    forall hit | hit in ranked && request.StoreQuery().scopes == [] ensures !Isolated(hit.row, request) {
      AdmitsIsolated(hit.row, request);
    }
  }

  lemma CandidatesAreShown(request: Request, ranked: seq<Scored>, query: Query, candidates: seq<MemoryRef>)
    requires query == request.StoreQuery() && query.scopes != []
    requires |candidates| <= |Admitted(ranked, query)|
    requires forall i :: 0 <= i < |candidates| ==> candidates[i] == RefOf(Admitted(ranked, query)[i])
    ensures forall ref :: ref in candidates ==> Shown(ref, ranked, request)
  {
    forall ref | ref in candidates ensures Shown(ref, ranked, request) {
      var i :| 0 <= i < |candidates| && candidates[i] == ref;
      var hit := Admitted(ranked, query)[i];
      AdmittedHits(ranked, query, hit);
      AdmitsIsolated(hit.row, request);
      assert Refers(ref, hit);
    }
  }

  lemma HitIsCovered(
    request: Request, ranked: seq<Scored>, query: Query, candidates: seq<MemoryRef>, limits: Limits, hit: Scored,
    ref: MemoryRef)
    requires query == request.StoreQuery() && query.scopes != []
    requires limits == Limits(query.scopes, query.maxPii, request.EffectiveTopK(), request.EffectiveMaxTokens())
    requires |candidates| == |Admitted(ranked, query)|
    requires forall i :: 0 <= i < |candidates| ==> candidates[i] == RefOf(Admitted(ranked, query)[i])
    requires |Select(Sorted(candidates), limits).selected| < limits.topK
    requires hit in ranked && Isolated(hit.row, request) && Refers(ref, hit)
    ensures Covered(ref, Select(Sorted(candidates), limits).selected, limits.maxTokens)
  {
    AdmitsIsolated(hit.row, request);
    AdmittedHits(ranked, query, hit);
    var i :| 0 <= i < |Admitted(ranked, query)| && Admitted(ranked, query)[i] == hit;
    assert candidates[i] == RefOf(hit) == ref;
    PiiFiltersAgree(hit.row.pii, request.PiiLevel());
    SelectionIsMaximal(candidates, limits, ref);
  }
}
