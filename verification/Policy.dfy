/** How a request text becomes a task plan (app/policy/engine.py). */
module Policy {
  import opened Text

  datatype CouncilMode = Triage | Lite | Standard | FullCouncil

  /** Task types name the business subgraphs. */
  datatype Subgraph =
    | RequisitionCalibration | TalentMapping | CandidateScreening | ReportDraft | FollowupReview
    | SaveAsCaseData | OtherSubgraph(name: string)

  datatype TaskPlan = TaskPlan(requestText: string, taskType: Subgraph, mode: CouncilMode)

  const FULL_COUNCIL_TRIGGERS: seq<string> := ["三省六部", "完整会审", "全量会审", "full council"]

  const HIGH_RISK_TERMS: seq<string> := ["外部触达", "推荐结论", "批量", "敏感", "联系方式"]

  predicate ContainsAny(text: string, parts: seq<string>) {
    exists i :: 0 <= i < |parts| && Contains(text, parts[i])
  }

  function ModeOf(text: string): CouncilMode {
    if ContainsAny(text, FULL_COUNCIL_TRIGGERS) then FullCouncil
    else if |Strip(text)| < 20 then Triage
    else if ContainsAny(text, HIGH_RISK_TERMS) then Standard
    else Lite
  }

  function ClassifyTask(text: string): Subgraph {
    if ContainsAny(text, ["人才地图", "Mapping", "mapping"]) then TalentMapping
    else if ContainsAny(text, ["新建岗位", "岗位校准"]) then RequisitionCalibration
    else if ContainsAny(text, ["候选人", "筛选"]) then CandidateScreening
    else if ContainsAny(text, ["报告", "话术"]) then ReportDraft
    else if ContainsAny(text, ["复盘", "记忆"]) then FollowupReview
    else RequisitionCalibration
  }

  lemma AnyOfTwo(text: string, a: string, b: string)
    ensures ContainsAny(text, [a, b]) <==> Contains(text, a) || Contains(text, b)
  {
    assert [a, b][0] == a && [a, b][1] == b;
  }

  lemma AnyOfThree(text: string, a: string, b: string, c: string)
    ensures ContainsAny(text, [a, b, c]) <==> Contains(text, a) || Contains(text, b) || Contains(text, c)
  {
    assert [a, b, c][0] == a && [a, b, c][1] == b && [a, b, c][2] == c;
  }

  /** The first group of words that the text mentions decides. */
  lemma FirstMentionDecides(text: string)
    ensures ClassifyTask(text) ==
      if Contains(text, "人才地图") || Contains(text, "Mapping") || Contains(text, "mapping") then TalentMapping
      else if Contains(text, "新建岗位") || Contains(text, "岗位校准") then RequisitionCalibration
      else if Contains(text, "候选人") || Contains(text, "筛选") then CandidateScreening
      else if Contains(text, "报告") || Contains(text, "话术") then ReportDraft
      else if Contains(text, "复盘") || Contains(text, "记忆") then FollowupReview
      else RequisitionCalibration
  {
    AnyOfThree(text, "人才地图", "Mapping", "mapping");
    AnyOfTwo(text, "新建岗位", "岗位校准");
    AnyOfTwo(text, "候选人", "筛选");
    AnyOfTwo(text, "报告", "话术");
    AnyOfTwo(text, "复盘", "记忆");
  }

  lemma AnyConcat(text: string, a: seq<string>, b: seq<string>)
    ensures ContainsAny(text, a + b) <==> ContainsAny(text, a) || ContainsAny(text, b)
  {
    if i :| 0 <= i < |a| && Contains(text, a[i]) {
      assert (a + b)[i] == a[i];
    }
    if i :| 0 <= i < |b| && Contains(text, b[i]) {
      assert (a + b)[|a| + i] == b[i];
    }
  }

  /** A full council if it is asked for; else triage for short texts; else a standard
      council for texts with a risk in them. */
  lemma ModeFollowsText(text: string)
    ensures ModeOf(text) ==
      if Contains(text, "三省六部") || Contains(text, "完整会审") || Contains(text, "全量会审")
         || Contains(text, "full council") then FullCouncil
      else if |Strip(text)| < 20 then Triage
      else if Contains(text, "外部触达") || Contains(text, "推荐结论") || Contains(text, "批量")
              || Contains(text, "敏感") || Contains(text, "联系方式") then Standard
      else Lite
  {
    AnyOfTwo(text, "三省六部", "完整会审");
    AnyOfTwo(text, "全量会审", "full council");
    AnyConcat(text, ["三省六部", "完整会审"], ["全量会审", "full council"]);
    AnyOfTwo(text, "外部触达", "推荐结论");
    AnyOfThree(text, "批量", "敏感", "联系方式");
    AnyConcat(text, ["外部触达", "推荐结论"], ["批量", "敏感", "联系方式"]);
    assert FULL_COUNCIL_TRIGGERS == ["三省六部", "完整会审"] + ["全量会审", "full council"];
    assert HIGH_RISK_TERMS == ["外部触达", "推荐结论"] + ["批量", "敏感", "联系方式"];
  }

  function CreateTaskPlan(text: string): TaskPlan { TaskPlan(text, ClassifyTask(text), ModeOf(text)) }
}
