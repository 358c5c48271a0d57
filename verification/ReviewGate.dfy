/** The review of one artifact before an action is proposed, and the one repair
    it may get (app/runtime/review_gate.py). */
module ReviewGate {
  import opened Text

  datatype Kind =
    | RequisitionCalibrationDraft | TalentMapDraft | CandidateMatchDraft
    | ReportDraft | FollowupReviewDraft | CaseDataDraft
    | CouncilDecision | CouncilOpinion | OtherKind(name: string)

  datatype Pii = Unset | NonePii | LowPii | MediumPii | HighPii

  /** A stored artifact reference; `wellFormed` says whether the schema accepts it. */
  datatype Artifact = Artifact(
    id: string, kind: Kind, summary: string, evidence: seq<string>, sources: seq<string>,
    pii: Pii, version: int, sizeTokens: int, wellFormed: bool)

  /** `rawKeys` are the keys of raw conversation or state that the context carries. */
  datatype Context = Context(rawKeys: set<string>, memoryRefs: int, totalTokens: int, pii: Pii)

  datatype Reviewer = SchemaValidator | EvidenceConsistency | Practicality | ContextBudget | Safety

  datatype Severity = Fix | Human

  datatype Finding = Finding(reviewer: Reviewer, severity: Severity, path: string)

  datatype Status = Pass | NeedsFix | NeedsHuman

  datatype Result = Result(status: Status, findings: seq<Finding>, attempts: nat)

  predicate IsBusinessKind(kind: Kind) {
    !kind.CouncilDecision? && !kind.CouncilOpinion? && !kind.OtherKind?
  }

  const SIDE_EFFECT_PHRASES: seq<string> := [
    "已发送", "已经发送", "已触达", "已经触达", "已联系", "已经联系", "已写入", "已经写入",
    "sent to candidate", "contacted candidate", "wrote to bitable"]

  const REPAIR_NOTE := "ReviewGate 已补充可执行摘要，需人工确认后落库。"

  // ------------------------------------------------------------------ the review

  /** The findings, one reviewer after the other, and the status they add up to. */
  method ReviewArtifact(artifact: Artifact, context: Context, attempts: nat) returns (result: Result)
    ensures result.status == Verdict(artifact, context, attempts) && result.attempts == attempts
    ensures SchemaError(result) <==> !artifact.wellFormed
    ensures result.findings == [] <==> result.status.Pass?
    ensures result.status != NeedsHuman <==>
      && artifact.wellFormed
      && (artifact.evidence != [] || artifact.sources != []
          || artifact.kind !in {RequisitionCalibrationDraft, TalentMapDraft, CandidateMatchDraft, ReportDraft,
                                FollowupReviewDraft, CaseDataDraft})
      && context.rawKeys == {} && context.memoryRefs <= 10 && context.totalTokens <= 3500
      && artifact.pii != HighPii && (artifact.pii == Unset ==> context.pii != HighPii)
      && !ClaimsSideEffect(artifact.summary)
      && (|Strip(artifact.summary)| < 12 ==> attempts == 0)
    ensures result.status != NeedsHuman ==> (result.status == NeedsFix <==> |Strip(artifact.summary)| < 12)
  {
    var own := ArtifactFindings(artifact);
    var budget := ContextBudgetFindings(context);
    var safety := SafetyFindings(artifact, context);
    var findings := own + budget + safety;
    SeverityConcat(own, budget, Human);
    SeverityConcat(own + budget, safety, Human);
    SeverityConcat(own, budget, Fix);
    SeverityConcat(own + budget, safety, Fix);
    var status :=
      if HasSeverity(findings, Human) || (HasSeverity(findings, Fix) && attempts >= 1) then NeedsHuman
      else if HasSeverity(findings, Fix) then NeedsFix
      else Pass;
    result := Result(status, findings, attempts);
    if findings != [] {
      assert findings[0].severity.Human? || findings[0].severity.Fix?;
      assert HasSeverity(findings, findings[0].severity);
    }
  }

  method ArtifactFindings(artifact: Artifact) returns (findings: seq<Finding>)
    ensures HasSeverity(findings, Human) <==> !artifact.wellFormed || !Supported(artifact)
    ensures HasSeverity(findings, Fix) <==> artifact.wellFormed && TooShort(artifact)
    ensures forall f :: f in findings && f.reviewer.SchemaValidator? ==> !artifact.wellFormed
    ensures !artifact.wellFormed ==> findings != [] && findings[0].reviewer.SchemaValidator?
  {
    findings := [];
    if !artifact.wellFormed {
      return [Finding(SchemaValidator, Human, "artifact")];
    }
    if IsBusinessKind(artifact.kind) && artifact.evidence == [] && artifact.sources == [] {
      findings := findings + [Finding(EvidenceConsistency, Human, "evidence_refs")];
    }
    if |Strip(artifact.summary)| < 12 {
      findings := findings + [Finding(Practicality, Fix, "summary")];
    }
  }

  method ContextBudgetFindings(context: Context) returns (findings: seq<Finding>)
    ensures forall f :: f in findings ==> f.reviewer.ContextBudget? && f.severity.Human?
    ensures HasSeverity(findings, Human) <==> !InBudget(context)
    ensures findings == [] <==> context.rawKeys == {} && context.memoryRefs <= 10 && context.totalTokens <= 3500
  {
    findings := [];
    if context.rawKeys != {} {
      findings := findings + [Finding(ContextBudget, Human, "review_context")];
    }
    if context.memoryRefs > 10 {
      findings := findings + [Finding(ContextBudget, Human, "review_context.memory_ref_count")];
    }
    if context.totalTokens > 3500 {
      findings := findings + [Finding(ContextBudget, Human, "review_context.total_tokens_estimate")];
    }
  }

  method SafetyFindings(artifact: Artifact, context: Context) returns (findings: seq<Finding>)
    ensures forall f :: f in findings ==> f.reviewer.Safety? && f.severity.Human?
    ensures HasSeverity(findings, Human) <==> !Safe(artifact, context)
    ensures findings == [] <==>
      (if artifact.pii == Unset then context.pii else artifact.pii) != HighPii && !ClaimsSideEffect(artifact.summary)
  {
    findings := [];
    var pii := if !artifact.pii.Unset? then artifact.pii else context.pii;
    if pii.HighPii? {
      findings := findings + [Finding(Safety, Human, "pii_level")];
    }
    if ClaimsSideEffect(artifact.summary) {
      findings := findings + [Finding(Safety, Human, "summary")];
    }
  }

  // ---------------------------------------------------------- what it amounts to

  predicate Supported(artifact: Artifact) {
    IsBusinessKind(artifact.kind) ==> artifact.evidence != [] || artifact.sources != []
  }

  predicate TooShort(artifact: Artifact) { |Strip(artifact.summary)| < 12 }

  predicate InBudget(context: Context) {
    context.rawKeys == {} && context.memoryRefs <= 10 && context.totalTokens <= 3500
  }

  predicate ClaimsSideEffect(summary: string) {
    exists i :: 0 <= i < |SIDE_EFFECT_PHRASES| && Contains(Lower(summary), SIDE_EFFECT_PHRASES[i])
  }

  predicate Safe(artifact: Artifact, context: Context) {
    && !artifact.pii.HighPii? && (artifact.pii.Unset? ==> !context.pii.HighPii?)
    && !ClaimsSideEffect(artifact.summary)
  }

  lemma LoweredPart(summary: string, i: nat, j: nat)
    requires i <= j <= |summary|
    ensures Lower(summary[i..j]) == Lower(summary)[i..j]
  {
  }

  /** A part of the summary is, in any case, the phrase. */
  predicate Says(summary: string, phrase: string) {
    exists i: nat, j: nat :: i <= j <= |summary| && Lower(summary[i..j]) == phrase
  }

  lemma SaysContained(summary: string, phrase: string)
    ensures Says(summary, phrase) <==> Contains(Lower(summary), phrase)
  {
    if i: nat, j: nat :| i <= j <= |summary| && Lower(summary[i..j]) == phrase {
      LoweredPart(summary, i, j);
      assert OccursAt(Lower(summary), phrase, i);
    }
    if i :| 0 <= i <= |Lower(summary)| && OccursAt(Lower(summary), phrase, i) {
      LoweredPart(summary, i, i + |phrase|);
      assert Lower(summary[i..i + |phrase|]) == phrase;
    }
  }

  /** Each of these phrases is found, in any case and anywhere, and no other claim is. */
  lemma ClaimsAreFound(summary: string)
    ensures ClaimsSideEffect(summary) <==>
      exists phrase :: Says(summary, phrase) && phrase in {
        "已发送", "已经发送", "已触达", "已经触达", "已联系", "已经联系", "已写入", "已经写入",
        "sent to candidate", "contacted candidate", "wrote to bitable"}
  {
    forall phrase ensures Says(summary, phrase) <==> Contains(Lower(summary), phrase) {
      SaysContained(summary, phrase);
    }
    if phrase :| Says(summary, phrase) && phrase in SIDE_EFFECT_PHRASES {
      var k :| 0 <= k < |SIDE_EFFECT_PHRASES| && SIDE_EFFECT_PHRASES[k] == phrase;
      assert Contains(Lower(summary), SIDE_EFFECT_PHRASES[k]);
    }
  }

  /** Nothing here that only a person may wave through. */
  predicate Harmless(artifact: Artifact, context: Context) {
    artifact.wellFormed && Supported(artifact) && InBudget(context) && Safe(artifact, context)
  }

  function Verdict(artifact: Artifact, context: Context, attempts: nat): Status {
    if !Harmless(artifact, context) then NeedsHuman
    else if !TooShort(artifact) then Pass
    else if attempts == 0 then NeedsFix
    else NeedsHuman
  }

  predicate SchemaError(result: Result) {
    exists f :: f in result.findings && f.reviewer.SchemaValidator?
  }

  predicate HasSeverity(findings: seq<Finding>, severity: Severity) {
    exists f :: f in findings && f.severity == severity
  }

  lemma SeverityConcat(a: seq<Finding>, b: seq<Finding>, severity: Severity)
    ensures HasSeverity(a + b, severity) <==> HasSeverity(a, severity) || HasSeverity(b, severity)
  {
    forall f ensures f in a + b <==> f in a || f in b {
    }
  }

  // ------------------------------------------------------------------- the repair

  function Repair(artifact: Artifact): Artifact {
    var summary := Strip(artifact.summary);
    artifact.(
      summary := if |summary| < 12 then summary + ['；'] + REPAIR_NOTE else artifact.summary,
      version := (if artifact.version == 0 then 1 else artifact.version) + 1,
      sources := artifact.sources + ["review://artifact-review-gate/"
                   + (if artifact.id == "" then "unknown" else artifact.id) + "/repair"])
  }

  /** A repaired draft is the same draft in a later version, with its summary completed and
      the repair among its sources. */
  lemma RepairKeepsDraft(artifact: Artifact)
    ensures var after := Repair(artifact);
      && after.id == artifact.id && after.kind == artifact.kind && after.evidence == artifact.evidence
      && after.pii == artifact.pii && after.sizeTokens == artifact.sizeTokens
      && after.version == (if artifact.version == 0 then 2 else artifact.version + 1)
      && after.sources == artifact.sources
           + ["review://artifact-review-gate/" + (if |artifact.id| > 0 then artifact.id else "unknown") + "/repair"]
      && (|Strip(artifact.summary)| >= 12 ==> after.summary == artifact.summary)
      && (|Strip(artifact.summary)| < 12 ==> Strip(artifact.summary) < after.summary)
  {
  }

  predicate Starts(part: string) {
    && |part| >= 2
    && (part[0] in {'s', 'c'} || (part[0] == 'w' && part[1] != 'g') || (part[0] == '已' && part[1] != '补'))
  }

  lemma PhrasesStart(part: string)
    requires part in SIDE_EFFECT_PHRASES
    ensures '；' !in part && Starts(part)
  {
  }

  lemma NoteDoesNotStart(note: string)
    requires note == Lower(REPAIR_NOTE)
    ensures forall i :: 0 <= i < |note| - 1 ==> !Starts([note[i], note[i + 1]])
  {
  }

  lemma StartsThere(note: string, part: string, i: nat)
    requires Starts(part) && OccursAt(note, part, i)
    ensures Starts([note[i], note[i + 1]])
  {
    OccursStart(note, part, i);
  }

  /** Neither the separator nor the note brings in a side-effect phrase: each phrase
      starts with two characters that never stand next to each other in the note. */
  lemma NoteIsHarmless(note: string, part: string)
    requires Starts(part) && forall i :: 0 <= i < |note| - 1 ==> !Starts([note[i], note[i + 1]])
    ensures !Contains(note, part)
  {
    forall i | 0 <= i <= |note| ensures !OccursAt(note, part, i) {
      if OccursAt(note, part, i) {
        StartsThere(note, part, i);
      }
    }
  }

  lemma StaysClean(summary: string, sep: char, note: string, phrase: string)
    requires !Contains(Lower(summary), phrase) && !Contains(Lower(note), phrase)
    requires LowerChar(sep) == sep && sep !in phrase
    ensures !Contains(Lower(Strip(summary) + [sep] + note), phrase)
  {
    var text := Strip(summary);
    var pre, post := StripParts(summary);
    LowerConcat(pre + text, post);
    LowerConcat(pre, text);
    LowerConcat(text + [sep], note);
    LowerConcat(text, [sep]);
    assert Lower(text + [sep] + note) == Lower(text) + [sep] + Lower(note);
    if Contains(Lower(text + [sep] + note), phrase) {
      ContainsApart(Lower(text), sep, Lower(note), phrase);
      ContainsTrans(phrase, Lower(text), Lower(pre), Lower(post));
    }
  }

  lemma RepairedIsTrimmed(text: string, sep: char, note: string)
    requires Trimmed(text) && !IsSpace(sep) && note != "" && !IsSpace(note[|note| - 1])
    ensures Strip(text + [sep] + note) == text + [sep] + note
  {
    assert "" + (text + [sep] + note) + "" == text + [sep] + note;
    StripMiddle("", text + [sep] + note, "");
  }

  lemma RepairedSummary(summary: string)
    requires |Strip(summary)| < 12 && !ClaimsSideEffect(summary)
    ensures var repaired := Strip(summary) + ['；'] + REPAIR_NOTE;
      |Strip(repaired)| >= 12 && !ClaimsSideEffect(repaired)
  {
    var pre, post := StripParts(summary);
    assert |REPAIR_NOTE| == 29 && REPAIR_NOTE[28] == '。';
    RepairedIsTrimmed(Strip(summary), '；', REPAIR_NOTE);
    NoteDoesNotStart(Lower(REPAIR_NOTE));
    forall i | 0 <= i < |SIDE_EFFECT_PHRASES|
      ensures !Contains(Lower(Strip(summary) + ['；'] + REPAIR_NOTE), SIDE_EFFECT_PHRASES[i])
    {
      PhrasesStart(SIDE_EFFECT_PHRASES[i]);
      NoteIsHarmless(Lower(REPAIR_NOTE), SIDE_EFFECT_PHRASES[i]);
      StaysClean(summary, '；', REPAIR_NOTE, SIDE_EFFECT_PHRASES[i]);
    }
  }

  /** What a repair asked for by the review achieves: the second review passes the
      artifact, unless counting its tokens once more goes over the budget, and then it
      asks a person. It never asks for another repair. */
  lemma RepairSettles(artifact: Artifact, before: Context, after: Context, attempts: nat)
    requires Verdict(artifact, before, 0).NeedsFix? && attempts >= 1
    requires after == before.(totalTokens := before.totalTokens + artifact.sizeTokens)
    ensures Verdict(Repair(artifact), after, attempts)
      == if before.totalTokens + artifact.sizeTokens <= 3500 then Pass else NeedsHuman
    ensures Repair(artifact).wellFormed
  {
    RepairedSummary(artifact.summary);
    assert |Repair(artifact).sources| == |artifact.sources| + 1;
  }
}
