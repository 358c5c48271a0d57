/** The war-room graph: planning, one business draft, a review with at most one
    repair, a person's decision and its execution (app/graphs/war_room.py). */
module WarRoom {
  import opened Policy
  import Text
  import opened Wrappers
  import R = ReviewGate

  datatype Node =
    | Receive | Plan | Council | Dispatch
    | AskUser | RejectWithReason | SaveCase | Business(graph: Subgraph)
    | Review | Repair | RejectReview | Approval | Execute | Record | Done

  /** The key names the action type, which stands for the draft's kind; all other
      kinds share one. */
  datatype ActionKey = ActionKey(thread: string, kind: R.Kind, artifactId: string, version: int)

  datatype Decision = Approve | Edit | Reject | OtherDecision(text: string)

  /** What a person's answer says; `Decided` is the answer once it is accepted. */
  datatype Resume = Resume(thread: string, action: ActionKey, decision: Decision, edited: bool)

  datatype Decided = Decided(action: ActionKey, decision: Decision)

  datatype Reviewed = Reviewed(status: R.Status, schemaError: bool)

  /** The checkpointed state, the proposals by key and the calls of the executor. */
  datatype State = State(
    thread: string, userInput: string, plan: TaskPlan, questions: nat, route: Subgraph,
    artifacts: seq<R.Artifact>, memoryRefs: nat, attempts: nat, review: Option<Reviewed>,
    approval: Option<Decided>, proposed: map<ActionKey, R.Artifact>, executed: seq<Decided>)

  /** What the graph was built with: a policy engine, a review gate, and perhaps an action
      gate and an executor. */
  datatype Wiring = Wiring(
    gate: bool, executor: bool, plan: string -> TaskPlan, review: (R.Artifact, R.Context, nat) -> R.Status)

  /** What a node gets from outside: agents' drafts and a person's answer. */
  datatype Input = Input(decisionId: string, opinions: seq<R.Artifact>, draft: R.Artifact, resume: Option<Resume>)

  // ------------------------------------------------------------------- the nodes

  predicate IsBusiness(artifact: R.Artifact) { !artifact.kind.CouncilDecision? && !artifact.kind.CouncilOpinion? }

  function StandIn(): R.Artifact {
    R.Artifact("action", R.CaseDataDraft, "业务动作草稿", [], [], R.Unset, 1, 0, true)
  }

  /** The last artifact that is not the council's, or a stand-in. */
  function Latest(artifacts: seq<R.Artifact>): (r: R.Artifact)
    ensures IsBusiness(r)
    decreases |artifacts|
  {
    if artifacts == [] then StandIn()
    else if IsBusiness(artifacts[|artifacts| - 1]) then artifacts[|artifacts| - 1]
    else Latest(artifacts[..|artifacts| - 1])
  }

  function TotalTokens(artifacts: seq<R.Artifact>): int
    decreases |artifacts|
  {
    if artifacts == [] then 0
    else TotalTokens(artifacts[..|artifacts| - 1]) + artifacts[|artifacts| - 1].sizeTokens
  }

  /** None of the eight keys that this context has is a raw one. */
  function ReviewContext(artifacts: seq<R.Artifact>, memoryRefs: nat): R.Context {
    var pii := Latest(artifacts).pii;
    R.Context({}, memoryRefs, TotalTokens(artifacts), if pii.Unset? then R.NonePii else pii)
  }

  /** The answer of the review gate for the latest draft. */
  function ReviewLatest(w: Wiring, artifacts: seq<R.Artifact>, memoryRefs: nat, attempts: nat): Reviewed {
    var latest := Latest(artifacts);
    Reviewed(w.review(latest, ReviewContext(artifacts, memoryRefs), attempts), !latest.wellFormed)
  }

  function ActionKind(kind: R.Kind): R.Kind { if kind.OtherKind? then R.OtherKind("business_write") else kind }

  function KeyOf(s: State): ActionKey {
    var latest := Latest(s.artifacts);
    ActionKey(s.thread, ActionKind(latest.kind), latest.id, latest.version)
  }

  function Propose(s: State): State {
    if KeyOf(s) in s.proposed then s else s.(proposed := s.proposed[KeyOf(s) := Latest(s.artifacts)])
  }

  function NormalizeHumanApproval(resume: Resume, s: State): Option<Decided> {
    if resume.thread != s.thread || resume.action != KeyOf(s) then None
    else if resume.decision.OtherDecision? then None
    else if resume.decision.Edit? && !resume.edited then None
    else Some(Decided(resume.action, resume.decision))
  }

  function DecisionArtifact(id: string, text: string): R.Artifact {
    var summary := if |text| <= 240 then text else text[..240];
    var tokens := if |summary| / 4 < 1 then 1 else |summary| / 4;
    R.Artifact(id, R.CouncilDecision, summary, [], [], R.NonePii, 1, tokens, true)
  }

  function RequestText(userInput: string): string { if userInput == "" then "空任务" else userInput }

  function RouteFromCouncil(s: State): Node {
    if s.questions > 0 then AskUser
    else if s.route.SaveAsCaseData? then SaveCase
    else if s.route.OtherSubgraph? then RejectWithReason
    else Business(s.route)
  }

  function RouteFromReviewGate(s: State): Node {
    if s.review.None? then Approval
    else if s.review.value.schemaError then RejectReview
    else if s.review.value.status.NeedsFix? && s.attempts < 1 then Repair
    else Approval
  }

  function CaseDraft(): R.Artifact {
    R.Artifact("case_data", R.CaseDataDraft, "保存为案例数据草稿，等待人工确认后写入业务数据底座。",
      [], [], R.NonePii, 1, 20, true)
  }

  /** A node's effect and the node that follows. A graph that waits for a person, or
      gets an answer it does not accept, stays where it is. */
  function Step(w: Wiring, s: State, node: Node, input: Input): (State, Node) {
    match node
    case Receive => (s, Plan)
    case Plan =>
      (s.(plan := w.plan(RequestText(s.userInput))), Council)
    case Council =>
      (s.(questions := if s.plan.mode.Triage? then 1 else 0, route := s.plan.taskType,
          artifacts := s.artifacts + input.opinions + [DecisionArtifact(input.decisionId, s.plan.requestText)]),
       Dispatch)
    case Dispatch => (s, RouteFromCouncil(s))
    case AskUser => (s, Record)
    case RejectWithReason => (s, Record)
    case SaveCase =>
      (s.(artifacts := s.artifacts + [CaseDraft()]),
       Review)
    case Business(_) => (s.(artifacts := s.artifacts + [input.draft], review := None, attempts := 0), Review)
    case Review =>
      var after := s.(review := Some(ReviewLatest(w, s.artifacts, s.memoryRefs, s.attempts)));
      (after, RouteFromReviewGate(after))
    case Repair =>
      (s.(artifacts := s.artifacts + [R.Repair(Latest(s.artifacts))], attempts := s.attempts + 1), Review)
    case RejectReview => (s, Record)
    case Approval =>
      if !w.gate then (s, Execute)
      else
        var after := Propose(s);
        if input.resume.None? then (after, Approval)
        else
          var decided := NormalizeHumanApproval(input.resume.value, s);
          if decided.None? then (after, Approval) else (after.(approval := decided), Execute)
    case Execute =>
      if s.approval.None? || !w.executor then (s, Record)
      else (s.(executed := s.executed + [s.approval.value]), Record)
    case Record => (s, Done)
    case Done => (s, Done)
  }

  // -------------------------------------------------------------------- the runs

  /** A run: where it is and the nodes it has completed. */
  datatype Run = Run(state: State, node: Node, trace: seq<Node>)

  function Advance(w: Wiring, run: Run, input: Input): Run {
    var (s, next) := Step(w, run.state, run.node, input);
    Run(s, next, if next == run.node then run.trace else run.trace + [run.node])
  }

  function RunAll(w: Wiring, run: Run, inputs: seq<Input>): Run
    decreases |inputs|
  {
    if inputs == [] then run else RunAll(w, Advance(w, run, inputs[0]), inputs[1..])
  }

  /** A new run on a thread, whatever its checkpoint holds. */
  function Start(s: State): Run { Run(s, Receive, []) }

  datatype Outcome = Asked | Rejected | Decidable | Repaired

  /** The only four ways through the graph: the node at each place of one. */
  function NodeAt(outcome: Outcome, graph: Subgraph, k: nat): Node {
    if k == 0 then Receive
    else if k == 1 then Plan
    else if k == 2 then Council
    else if k == 3 then Dispatch
    else if outcome.Asked? then (if k == 4 then AskUser else if k == 5 then Record else Done)
    else if k == 4 then Business(graph)
    else if k == 5 then Review
    else
      match outcome
      case Rejected => if k == 6 then RejectReview else if k == 7 then Record else Done
      case Decidable => if k == 6 then Approval else if k == 7 then Execute else if k == 8 then Record else Done
      case Repaired =>
        if k == 6 then Repair else if k == 7 then Review else if k == 8 then Approval
        else if k == 9 then Execute else if k == 10 then Record else Done
      case Asked => Done
  }

  /** How many nodes a way has before it is done. */
  function Length(outcome: Outcome): nat {
    match outcome
    case Asked => 6
    case Rejected => 8
    case Decidable => 9
    case Repaired => 11
  }

  predicate OnPath(run: Run, outcome: Outcome, graph: Subgraph) {
    && |run.trace| <= Length(outcome)
    && run.node == NodeAt(outcome, graph, |run.trace|)
    && (forall i :: 0 <= i < |run.trace| ==> run.trace[i] == NodeAt(outcome, graph, i))
  }

  lemma PathStep(run: Run, after: Run, graph: Subgraph, outcome: Outcome, next: Outcome)
    requires OnPath(run, outcome, graph) && !run.node.Done?
    requires next == outcome || (|run.trace| == 5 && !outcome.Asked? && !next.Asked?)
    requires after.trace == run.trace + [run.node] && after.node == NodeAt(next, graph, |after.trace|)
    ensures OnPath(after, next, graph)
  {
    forall i | 0 <= i < |after.trace| ensures after.trace[i] == NodeAt(next, graph, i) {
      if i < |run.trace| {
        assert after.trace[i] == run.trace[i] == NodeAt(outcome, graph, i);
      }
    }
  }

  // ------------------------------------------------ what holds all along a run

  /** The draft was repaired because the first review asked for it. */
  predicate AfterRepair(w: Wiring, s: State) {
    var n := |s.artifacts| - 1;
    && n >= 0 && s.attempts == 1
    && s.artifacts[n] == R.Repair(Latest(s.artifacts[..n]))
    && ReviewLatest(w, s.artifacts[..n], s.memoryRefs, 0).status.NeedsFix?
  }

  /** The latest draft is well formed and its review leaves nothing to repair. */
  predicate Settled(w: Wiring, s: State) {
    && s.review == Some(ReviewLatest(w, s.artifacts, s.memoryRefs, s.attempts))
    && !s.review.value.schemaError
    && !s.review.value.status.NeedsFix?
  }

  /** At most this run's draft was added to the proposals, under its own key. */
  predicate ProposesDraft(s0: State, s: State) {
    || s.proposed == s0.proposed
    || (KeyOf(s) !in s0.proposed && s.proposed == s0.proposed[KeyOf(s) := Latest(s.artifacts)])
  }

  /** An answer accepted in this run for the draft that was proposed. */
  predicate Answered(s: State) {
    && KeyOf(s) in s.proposed
    && s.approval.Some? && s.approval.value.action == KeyOf(s)
    && s.approval.value.decision in {Approve, Edit, Reject}
  }

  predicate Late(node: Node) { node.Approval? || node.Execute? || node.Record? || node.Done? }

  /** What is known where a draft goes to a person, and from there on. */
  predicate Decides(w: Wiring, s0: State, run: Run, outcome: Outcome) {
    var s := run.state;
    && Settled(w, s)
    && s.attempts == (if outcome.Repaired? then 1 else 0)
    && (outcome.Repaired? ==> AfterRepair(w, s))
    && ProposesDraft(s0, s)
    && (w.gate && !run.node.Approval? ==> Answered(s))
    && (w.gate || s.approval == s0.approval)
    && (s.executed == s0.executed
          + if (run.node.Record? || run.node.Done?) && w.executor && s.approval.Some? then [s.approval.value] else [])
  }

  predicate Reached(outcome: Outcome, node: Node) { Late(node) && (outcome.Decidable? || outcome.Repaired?) }

  /** What is known at each place of a way. */
  predicate Facts(w: Wiring, s0: State, run: Run, outcome: Outcome) {
    var s, node := run.state, run.node;
    && s.thread == s0.thread
    && (node.Receive? || node.Plan? ==> s.userInput == s0.userInput)
    && (node.Council? ==> s.plan == w.plan(RequestText(s0.userInput)))
    && (node.Dispatch? ==> (
          s.route == w.plan(RequestText(s0.userInput)).taskType && s.questions == if outcome.Asked? then 1 else 0))
    && (node.Review? ==> if |run.trace| == 5 then s.attempts == 0 else AfterRepair(w, s))
    && (node.Repair? ==> (
          s.attempts == 0 && s.review == Some(ReviewLatest(w, s.artifacts, s.memoryRefs, s.attempts))
          && s.review.value.status.NeedsFix?))
    && ((node.RejectReview? || node.Record? || node.Done?) && outcome.Rejected? ==> !Latest(s.artifacts).wellFormed)
    && (if Reached(outcome, node) then Decides(w, s0, run, outcome)
        else s.proposed == s0.proposed && s.executed == s0.executed && s.approval == s0.approval)
  }

  predicate Holds(w: Wiring, s0: State, run: Run, outcome: Outcome) {
    var plan := w.plan(RequestText(s0.userInput));
    && OnPath(run, outcome, plan.taskType)
    && (outcome.Asked? <==> plan.mode.Triage?)
    && Facts(w, s0, run, outcome)
  }

  lemma LatestOfRepaired(artifacts: seq<R.Artifact>)
    ensures Latest(artifacts + [R.Repair(Latest(artifacts))]) == R.Repair(Latest(artifacts))
    ensures TotalTokens(artifacts + [R.Repair(Latest(artifacts))])
      == TotalTokens(artifacts) + Latest(artifacts).sizeTokens
  {
    assert (artifacts + [R.Repair(Latest(artifacts))])[..|artifacts|] == artifacts;
  }

  /** A review gate that asks for a fix only of a well-formed draft, and only once. */
  ghost predicate FixesOnce(w: Wiring) {
    forall draft, context, attempts: nat :: w.review(draft, context, attempts).NeedsFix? ==>
      draft.wellFormed && attempts == 0
  }

  lemma RepairedIsWellFormed(w: Wiring, s: State)
    requires FixesOnce(w) && AfterRepair(w, s)
    ensures Latest(s.artifacts).wellFormed
  {
    var n := |s.artifacts| - 1;
    assert s.artifacts == s.artifacts[..n] + [R.Repair(Latest(s.artifacts[..n]))];
    LatestOfRepaired(s.artifacts[..n]);
  }

  /** A policy engine that plans no task without a business subgraph. */
  ghost predicate PlansKnownTasks(w: Wiring) {
    forall text :: !w.plan(text).taskType.SaveAsCaseData? && !w.plan(text).taskType.OtherSubgraph?
  }

  ghost predicate Sound(w: Wiring) { FixesOnce(w) && PlansKnownTasks(w) }

  lemma PlanningFacts(w: Wiring, s0: State, run: Run, input: Input, outcome: Outcome, graph: Subgraph)
    requires OnPath(run, outcome, graph) && Facts(w, s0, run, outcome)
    requires |run.trace| < 2
    ensures var after := Advance(w, run, input);
      after.node == NodeAt(outcome, graph, |run.trace| + 1) && Facts(w, s0, after, outcome)
  {
    assert run.node.Receive? || run.node.Plan?;
  }

  lemma CouncilFacts(w: Wiring, s0: State, run: Run, input: Input, outcome: Outcome, graph: Subgraph)
    requires OnPath(run, outcome, graph) && Facts(w, s0, run, outcome)
    requires outcome.Asked? <==> w.plan(RequestText(s0.userInput)).mode.Triage?
    requires |run.trace| == 2
    ensures var after := Advance(w, run, input);
      after.node == NodeAt(outcome, graph, 3) && Facts(w, s0, after, outcome)
  {
    assert run.node.Council?;
  }

  lemma DispatchFacts(w: Wiring, s0: State, run: Run, input: Input, outcome: Outcome, graph: Subgraph)
    requires OnPath(run, outcome, graph) && Facts(w, s0, run, outcome)
    requires graph == w.plan(RequestText(s0.userInput)).taskType && !graph.SaveAsCaseData? && !graph.OtherSubgraph?
    requires |run.trace| == 3
    ensures var after := Advance(w, run, input);
      after.node == NodeAt(outcome, graph, 4) && Facts(w, s0, after, outcome)
  {
    assert run.node.Dispatch?;
  }

  lemma DraftFacts(w: Wiring, s0: State, run: Run, input: Input, outcome: Outcome, graph: Subgraph)
    requires OnPath(run, outcome, graph) && Facts(w, s0, run, outcome)
    requires |run.trace| == 4
    ensures var after := Advance(w, run, input);
      after.node == NodeAt(outcome, graph, 5) && Facts(w, s0, after, outcome)
  {
    assert run.node.AskUser? || run.node.Business?;
  }

  function AfterReview(w: Wiring, s: State): State {
    s.(review := Some(ReviewLatest(w, s.artifacts, s.memoryRefs, s.attempts)))
  }

  lemma AdvanceReview(w: Wiring, run: Run, input: Input)
    requires run.node.Review?
    ensures Advance(w, run, input)
      == Run(AfterReview(w, run.state), RouteFromReviewGate(AfterReview(w, run.state)), run.trace + [Review])
  {
  }

  lemma FirstReviewFacts(w: Wiring, s0: State, run: Run, after: Run, outcome: Outcome, graph: Subgraph)
    returns (next: Outcome)
    requires FixesOnce(w) && OnPath(run, outcome, graph) && Facts(w, s0, run, outcome)
    requires run.node.Review? && |run.trace| == 5
    requires after
      == Run(AfterReview(w, run.state), RouteFromReviewGate(AfterReview(w, run.state)), run.trace + [Review])
    ensures !outcome.Asked? && !next.Asked?
    ensures after.node == NodeAt(next, graph, 6) && Facts(w, s0, after, next)
  {
    var review := after.state.review.value;
    next := if review.schemaError then Rejected else if review.status.NeedsFix? then Repaired else Decidable;
  }

  lemma SecondReviewFacts(w: Wiring, s0: State, run: Run, after: Run, outcome: Outcome, graph: Subgraph)
    requires FixesOnce(w) && OnPath(run, outcome, graph) && Facts(w, s0, run, outcome)
    requires run.node.Review? && |run.trace| != 5
    requires after
      == Run(AfterReview(w, run.state), RouteFromReviewGate(AfterReview(w, run.state)), run.trace + [Review])
    ensures after.node == NodeAt(outcome, graph, |run.trace| + 1) && Facts(w, s0, after, outcome)
  {
    RepairedIsWellFormed(w, run.state);
  }

  lemma RepairedState(w: Wiring, s: State, after: State, repaired: R.Artifact)
    requires s.attempts == 0 && repaired == R.Repair(Latest(s.artifacts))
    requires ReviewLatest(w, s.artifacts, s.memoryRefs, s.attempts).status.NeedsFix?
    requires after == s.(artifacts := s.artifacts + [repaired], attempts := 1)
    ensures AfterRepair(w, after)
  {
    assert after.artifacts[..|s.artifacts|] == s.artifacts;
  }

  lemma AdvanceRepair(w: Wiring, run: Run, input: Input) returns (repaired: R.Artifact)
    requires run.node.Repair?
    ensures var s := run.state;
      repaired == R.Repair(Latest(s.artifacts))
      && Advance(w, run, input)
         == Run(s.(artifacts := s.artifacts + [repaired], attempts := s.attempts + 1), Review, run.trace + [Repair])
  {
    repaired := R.Repair(Latest(run.state.artifacts));
  }

  lemma RepairFacts(w: Wiring, s0: State, run: Run, after: Run, repaired: R.Artifact, outcome: Outcome, graph: Subgraph)
    requires OnPath(run, outcome, graph) && Facts(w, s0, run, outcome) && run.node.Repair?
    requires repaired == R.Repair(Latest(run.state.artifacts))
    requires after == Run(run.state.(artifacts := run.state.artifacts + [repaired], attempts := run.state.attempts + 1),
                          Review, run.trace + [Repair])
    ensures after.node == NodeAt(outcome, graph, |run.trace| + 1) && Facts(w, s0, after, outcome)
  {
    assert |run.trace| == 6 && outcome.Repaired?;
    RepairedState(w, run.state, after.state, repaired);
  }

  /** Proposing, answering and executing leave the draft and its review alone. */
  lemma DraftKept(w: Wiring, s: State, after: State)
    requires Settled(w, s)
    requires after.artifacts == s.artifacts && after.memoryRefs == s.memoryRefs && after.thread == s.thread
    requires after.attempts == s.attempts && after.review == s.review
    ensures Settled(w, after) && KeyOf(after) == KeyOf(s) && (AfterRepair(w, s) ==> AfterRepair(w, after))
  {
  }

  lemma ProposeKeeps(s0: State, s: State)
    requires ProposesDraft(s0, s)
    ensures ProposesDraft(s0, Propose(s)) && KeyOf(s) in Propose(s).proposed
  {
    assert KeyOf(Propose(s)) == KeyOf(s);
  }

  /** What the approval node does: nothing without a gate; else it proposes, and goes on
      with an accepted answer or stays. */
  predicate Resolves(w: Wiring, run: Run, after: Run) {
    var s, t := run.state, after.state;
    if !w.gate then after == Run(s, Execute, run.trace + [Approval])
    else if after.node.Approval? then t == Propose(s) && after.trace == run.trace
    else
      && after.node.Execute? && after.trace == run.trace + [Approval]
      && t.approval.Some? && t.approval.value.action == KeyOf(s) && !t.approval.value.decision.OtherDecision?
      && t == Propose(s).(approval := t.approval)
  }

  lemma AdvanceApproval(w: Wiring, run: Run, input: Input)
    requires run.node.Approval?
    ensures Resolves(w, run, Advance(w, run, input))
  {
  }

  lemma ApprovalDecides(w: Wiring, s0: State, run: Run, after: Run, outcome: Outcome)
    requires Decides(w, s0, run, outcome) && run.node.Approval? && Resolves(w, run, after)
    ensures Decides(w, s0, after, outcome)
  {
    var s := run.state;
    DraftKept(w, s, after.state);
    if w.gate {
      ProposeKeeps(s0, s);
      assert after.state.proposed == Propose(s).proposed;
    }
  }

  lemma ApprovalFacts(w: Wiring, s0: State, run: Run, after: Run, outcome: Outcome, graph: Subgraph)
    requires OnPath(run, outcome, graph) && Facts(w, s0, run, outcome) && run.node.Approval?
    requires Resolves(w, run, after)
    ensures Facts(w, s0, after, outcome)
    ensures after.node == run.node || after.node == NodeAt(outcome, graph, |run.trace| + 1)
  {
    assert Reached(outcome, run.node);
    ApprovalDecides(w, s0, run, after, outcome);
  }

  function AfterExecute(w: Wiring, s: State): State {
    if s.approval.None? || !w.executor then s else s.(executed := s.executed + [s.approval.value])
  }

  lemma AdvanceExecute(w: Wiring, run: Run, input: Input)
    requires run.node.Execute?
    ensures Advance(w, run, input) == Run(AfterExecute(w, run.state), Record, run.trace + [Execute])
  {
  }

  lemma ExecuteFacts(w: Wiring, s0: State, run: Run, after: Run, outcome: Outcome, graph: Subgraph)
    requires OnPath(run, outcome, graph) && Facts(w, s0, run, outcome) && run.node.Execute?
    requires after == Run(AfterExecute(w, run.state), Record, run.trace + [Execute])
    ensures after.node == NodeAt(outcome, graph, |run.trace| + 1) && Facts(w, s0, after, outcome)
  {
    assert Reached(outcome, run.node);
    DraftKept(w, run.state, after.state);
    assert Decides(w, s0, after, outcome);
  }

  lemma AdvanceClosing(w: Wiring, run: Run, input: Input)
    requires run.node.Record? || run.node.RejectReview?
    ensures Advance(w, run, input)
      == Run(run.state, if run.node.Record? then Done else Record, run.trace + [run.node])
  {
  }

  lemma ClosingFacts(w: Wiring, s0: State, run: Run, after: Run, outcome: Outcome, graph: Subgraph)
    requires OnPath(run, outcome, graph) && Facts(w, s0, run, outcome)
    requires (run.node.Record? || run.node.RejectReview?) && |run.trace| >= 5
    requires after == Run(run.state, if run.node.Record? then Done else Record, run.trace + [run.node])
    ensures after.node == NodeAt(outcome, graph, |run.trace| + 1) && Facts(w, s0, after, outcome)
  {
  }

  lemma StepBeforeReview(w: Wiring, s0: State, run: Run, input: Input, outcome: Outcome)
    requires Sound(w) && Holds(w, s0, run, outcome) && |run.trace| < 5
    ensures var after := Advance(w, run, input); var graph := w.plan(RequestText(s0.userInput)).taskType;
      after.node == NodeAt(outcome, graph, |run.trace| + 1) && Facts(w, s0, after, outcome)
  {
    var graph := w.plan(RequestText(s0.userInput)).taskType;
    if |run.trace| < 2 {
      PlanningFacts(w, s0, run, input, outcome, graph);
    } else if |run.trace| == 2 {
      CouncilFacts(w, s0, run, input, outcome, graph);
    } else if |run.trace| == 3 {
      DispatchFacts(w, s0, run, input, outcome, graph);
    } else {
      DraftFacts(w, s0, run, input, outcome, graph);
    }
  }

  lemma StepFromReview(w: Wiring, s0: State, run: Run, input: Input, outcome: Outcome) returns (next: Outcome)
    requires Sound(w) && Holds(w, s0, run, outcome) && |run.trace| >= 5
    ensures next == outcome || (|run.trace| == 5 && !outcome.Asked? && !next.Asked?)
    ensures var after := Advance(w, run, input); var graph := w.plan(RequestText(s0.userInput)).taskType;
      Facts(w, s0, after, next) && (after.node == run.node || after.node == NodeAt(next, graph, |run.trace| + 1))
  {
    var graph := w.plan(RequestText(s0.userInput)).taskType;
    var after := Advance(w, run, input);
    next := outcome;
    if run.node.Review? {
      AdvanceReview(w, run, input);
      if |run.trace| == 5 {
        next := FirstReviewFacts(w, s0, run, after, outcome, graph);
      } else {
        SecondReviewFacts(w, s0, run, after, outcome, graph);
      }
    } else if run.node.Repair? {
      var repaired := AdvanceRepair(w, run, input);
      RepairFacts(w, s0, run, after, repaired, outcome, graph);
    } else if run.node.Approval? {
      AdvanceApproval(w, run, input);
      ApprovalFacts(w, s0, run, after, outcome, graph);
    } else if run.node.Execute? {
      AdvanceExecute(w, run, input);
      ExecuteFacts(w, s0, run, after, outcome, graph);
    } else if !run.node.Done? {
      AdvanceClosing(w, run, input);
      ClosingFacts(w, s0, run, after, outcome, graph);
    }
  }

  lemma AdvanceTrace(w: Wiring, run: Run, input: Input)
    ensures var after := Advance(w, run, input);
      after.trace == if after.node == run.node then run.trace else run.trace + [run.node]
    ensures run.node.Done? ==> Advance(w, run, input) == run
  {
  }

  lemma HoldsAfter(w: Wiring, s0: State, run: Run, after: Run, outcome: Outcome, next: Outcome)
    requires Holds(w, s0, run, outcome) && Facts(w, s0, after, next)
    requires next == outcome || (|run.trace| == 5 && !outcome.Asked? && !next.Asked?)
    requires after.trace == run.trace + [run.node] && !run.node.Done?
    requires after.node == NodeAt(next, w.plan(RequestText(s0.userInput)).taskType, |run.trace| + 1)
    ensures Holds(w, s0, after, next)
  {
    PathStep(run, after, w.plan(RequestText(s0.userInput)).taskType, outcome, next);
  }

  lemma StepHolds(w: Wiring, s0: State, run: Run, input: Input, outcome: Outcome) returns (next: Outcome)
    requires Sound(w) && Holds(w, s0, run, outcome)
    ensures Holds(w, s0, Advance(w, run, input), next)
    ensures next == outcome || (|run.trace| == 5 && !outcome.Asked? && !next.Asked?)
  {
    AdvanceTrace(w, run, input);
    if |run.trace| < 5 {
      next := outcome;
      StepBeforeReview(w, s0, run, input, outcome);
    } else {
      next := StepFromReview(w, s0, run, input, outcome);
    }
    if Advance(w, run, input).node != run.node {
      HoldsAfter(w, s0, run, Advance(w, run, input), outcome, next);
    }
  }

  lemma {:induction false} RunHolds(w: Wiring, s0: State, run: Run, inputs: seq<Input>, outcome: Outcome)
    returns (last: Outcome)
    requires Sound(w) && Holds(w, s0, run, outcome)
    ensures Holds(w, s0, RunAll(w, run, inputs), last)
    decreases |inputs|
  {
    last := outcome;
    if inputs != [] {
      var next := StepHolds(w, s0, run, inputs[0], outcome);
      last := RunHolds(w, s0, Advance(w, run, inputs[0]), inputs[1..], next);
    }
  }

  // ------------------------------------------------------------- main results

  /** Whatever the thread's checkpoint holds, whatever agents and people send: the run
      is at some place of one of the four ways, and asks the user exactly for a triage. */
  lemma EveryRunIsAWay(w: Wiring, s0: State, inputs: seq<Input>) returns (outcome: Outcome)
    requires Sound(w)
    ensures var plan := w.plan(RequestText(s0.userInput)); var run := RunAll(w, Start(s0), inputs);
      Holds(w, s0, run, outcome) && OnPath(run, outcome, plan.taskType) && (outcome.Asked? <==> plan.mode.Triage?)
  {
    outcome := if w.plan(RequestText(s0.userInput)).mode.Triage? then Asked else Decidable;
    outcome := RunHolds(w, s0, Start(s0), inputs, outcome);
  }

  /** The policy engine and the review gate of the program. */
  ghost predicate Program(w: Wiring) {
    && (forall text :: w.plan(text) == CreateTaskPlan(text))
    && (forall a, c, n: nat :: w.review(a, c, n) == R.Verdict(a, c, n))
  }

  /** With them no text is left without a subgraph, and no draft is repaired twice. */
  lemma ProgramIsSound(w: Wiring)
    requires Program(w)
    ensures Sound(w)
  {
  }

  /** The program asks the user exactly when the text names no full council and is
      shorter than twenty characters. */
  lemma ProgramAsksForShortTexts(w: Wiring, s0: State, inputs: seq<Input>) returns (outcome: Outcome)
    requires Program(w)
    ensures var text := if s0.userInput == "" then "空任务" else s0.userInput;
      OnPath(RunAll(w, Start(s0), inputs), outcome, ClassifyTask(text))
      && (outcome.Asked? <==>
            !ContainsAny(text, ["三省六部", "完整会审", "全量会审", "full council"]) && |Text.Strip(text)| < 20)
  {
    ProgramIsSound(w);
    outcome := EveryRunIsAWay(w, s0, inputs);
  }

  /** No run completes more than eleven nodes, repairs twice, or is turned away for an
      unsupported task; every step completes a node unless the run is over or waits for
      an answer it can accept. */
  lemma EveryRunEnds(w: Wiring, s0: State, inputs: seq<Input>, input: Input)
    requires Sound(w)
    ensures var run := RunAll(w, Start(s0), inputs);
      |run.trace| <= 11
      && (forall i, j :: 0 <= i < j < |run.trace| && run.trace[i].Repair? ==> !run.trace[j].Repair?)
      && !run.node.RejectWithReason? && !run.node.SaveCase?
      && RejectWithReason !in run.trace && SaveCase !in run.trace
    ensures var run := RunAll(w, Start(s0), inputs);
      || run.node.Done?
      || Advance(w, run, input).trace == run.trace + [run.node]
      || (run.node.Approval? && w.gate
          && (input.resume.None? || NormalizeHumanApproval(input.resume.value, run.state).None?))
  {
    var run := RunAll(w, Start(s0), inputs);
    var graph := w.plan(RequestText(s0.userInput)).taskType;
    var outcome := EveryRunIsAWay(w, s0, inputs);
    var next := StepHolds(w, s0, run, input, outcome);
    NodesOfAWay(outcome, graph);
    NodesOfAWay(next, graph);
  }

  function Repairs(trace: seq<Node>): nat
    decreases |trace|
  {
    if trace == [] then 0
    else Repairs(trace[..|trace| - 1]) + if trace[|trace| - 1].Repair? then 1 else 0
  }

  /** Repairs are counted by the attempts, and none is asked for after the first. */
  predicate CountsRepairs(run: Run) {
    var n := Repairs(run.trace);
    && n <= 1 && (n == 1 ==> run.state.attempts >= 1)
    && (run.node.Repair? ==> run.state.attempts == 0)
    && (BeforeReview(run.node) ==> n == 0)
  }

  /** Attempts change only where a draft is made or repaired, and a repair follows only a
      review without one. */
  lemma AttemptsOfStep(w: Wiring, run: Run, input: Input)
    ensures var s, after := run.state, Advance(w, run, input);
      && (after.node.Repair? ==> run.node.Review? && after.state.attempts == 0)
      && (!run.node.Repair? && !run.node.Business? ==> after.state.attempts == s.attempts)
      && (run.node.Repair? ==> after.state.attempts == s.attempts + 1 && after.node.Review?)
  {
  }

  predicate BeforeReview(node: Node) {
    node.Receive? || node.Plan? || node.Council? || node.Dispatch? || node.SaveCase? || node.Business?
  }

  lemma BeforeReviewStep(w: Wiring, run: Run, input: Input)
    requires BeforeReview(Advance(w, run, input).node)
    ensures BeforeReview(run.node) && !run.node.Business?
  {
  }

  lemma StepCountsRepairs(w: Wiring, run: Run, input: Input)
    requires CountsRepairs(run)
    ensures CountsRepairs(Advance(w, run, input))
  {
    var after := Advance(w, run, input);
    AdvanceTrace(w, run, input);
    AttemptsOfStep(w, run, input);
    assert (run.trace + [run.node])[..|run.trace|] == run.trace;
    if BeforeReview(after.node) {
      BeforeReviewStep(w, run, input);
    }
  }

  /** At most one repair, whatever the policy engine plans and whatever the review gate
      answers. */
  lemma {:induction false} OneRepair(w: Wiring, run: Run, inputs: seq<Input>)
    requires CountsRepairs(run)
    ensures CountsRepairs(RunAll(w, run, inputs))
    decreases |inputs|
  {
    if inputs != [] {
      StepCountsRepairs(w, run, inputs[0]);
      OneRepair(w, Advance(w, run, inputs[0]), inputs[1..]);
    }
  }

  lemma NodesOfAWay(outcome: Outcome, graph: Subgraph)
    ensures forall k: nat :: !NodeAt(outcome, graph, k).RejectWithReason? && !NodeAt(outcome, graph, k).SaveCase?
    ensures forall k: nat :: NodeAt(outcome, graph, k).Repair? ==> k == 6
    ensures forall k: nat ::
      NodeAt(outcome, graph, k) == NodeAt(outcome, graph, k + 1) ==> NodeAt(outcome, graph, k).Done?
  {
  }

  /** A run adds at most one proposal: its latest draft, well formed and reviewed, and
      the review did not ask for a repair. It reached the person only past the review. */
  lemma ProposalsAreReviewed(w: Wiring, s0: State, inputs: seq<Input>)
    requires Sound(w)
    ensures var run := RunAll(w, Start(s0), inputs); var s := run.state;
      s.proposed != s0.proposed ==>
        KeyOf(s) !in s0.proposed && s.proposed == s0.proposed[KeyOf(s) := Latest(s.artifacts)]
        && Latest(s.artifacts).wellFormed && Settled(w, s) && Review in run.trace
  {
    var run := RunAll(w, Start(s0), inputs);
    var outcome := EveryRunIsAWay(w, s0, inputs);
    if run.state.proposed != s0.proposed {
      assert run.trace[5] == Review;
    }
  }

  /** Some execution in the trace directly follows an approval that follows a review. */
  predicate ExecutedInOrder(trace: seq<Node>) {
    exists i :: 1 <= i < |trace| && trace[i].Execute? && InOrder(trace, i)
  }

  predicate InOrder(trace: seq<Node>, i: nat)
    requires i < |trace|
  {
    i >= 2 && trace[i - 2].Review? && trace[i - 1].Approval?
  }

  lemma ExecutedWay(run: Run, outcome: Outcome, graph: Subgraph)
    requires OnPath(run, outcome, graph) && (run.node.Record? || run.node.Done?)
    requires outcome.Decidable? || outcome.Repaired?
    ensures ExecutedInOrder(run.trace)
  {
    var i := if outcome.Repaired? then 9 else 7;
    assert run.trace[i] == NodeAt(outcome, graph, i);
    assert run.trace[i - 1] == NodeAt(outcome, graph, i - 1);
    assert run.trace[i - 2] == NodeAt(outcome, graph, i - 2);
  }

  /** With an action gate, a run calls the executor at most once, past the review and the
      approval node, with an answer accepted in this run for the draft it proposed. */
  lemma ExecutionIsDecided(w: Wiring, s0: State, inputs: seq<Input>)
    requires Sound(w) && w.gate
    ensures var run := RunAll(w, Start(s0), inputs); var s := run.state;
      s.executed != s0.executed ==>
        Answered(s) && s.executed == s0.executed + [s.approval.value] && ExecutedInOrder(run.trace)
  {
    var run := RunAll(w, Start(s0), inputs);
    var outcome := EveryRunIsAWay(w, s0, inputs);
    if run.state.executed != s0.executed {
      assert Reached(outcome, run.node);
      assert run.node.Record? || run.node.Done?;
      ExecutedWay(run, outcome, w.plan(RequestText(s0.userInput)).taskType);
    }
  }

  // ------------------------------------------------- whose draft is proposed

  /** Agents draft business artifacts, and nothing the council keeps for itself. */
  predicate DraftsOnly(inputs: seq<Input>) { forall i :: 0 <= i < |inputs| ==> IsBusiness(inputs[i].draft) }

  /** What the council leaves: what was there, its opinions and its decision, which has the
      first 240 characters of the request and a quarter as many tokens. */
  function CouncilArtifacts(w: Wiring, s0: State, input: Input): seq<R.Artifact> {
    var text := w.plan(if s0.userInput == "" then "空任务" else s0.userInput).requestText;
    var summary := if |text| <= 240 then text else text[..240];
    s0.artifacts + input.opinions
    + [R.Artifact(input.decisionId, R.CouncilDecision, summary, [], [], R.NonePii, 1,
                  if |summary| < 4 then 1 else |summary| / 4, true)]
  }

  /** The artifacts at each place: those of the checkpoint, then `base` of the council, then
      also `draft`, and its repair after the repair node. */
  predicate Drafted(run: Run, outcome: Outcome, s0: State, base: seq<R.Artifact>, draft: R.Artifact) {
    if |run.trace| <= 2 then run.state.artifacts == s0.artifacts
    else if |run.trace| <= 4 then run.state.artifacts == base
    else
      outcome.Asked?
      || (IsBusiness(draft)
          && run.state.artifacts == if outcome.Repaired? && |run.trace| >= 7 then base + [draft, R.Repair(draft)]
                                    else base + [draft])
  }

  lemma DraftingIsOver(run: Run, outcome: Outcome, graph: Subgraph)
    requires OnPath(run, outcome, graph) && |run.trace| >= 5
    ensures !run.node.Council? && !run.node.SaveCase? && !run.node.Business?
    ensures run.node.Repair? <==> outcome.Repaired? && |run.trace| == 6
  {
  }

  lemma ArtifactsKept(w: Wiring, run: Run, input: Input)
    requires !run.node.Council? && !run.node.SaveCase? && !run.node.Business? && !run.node.Repair?
    ensures Advance(w, run, input).state.artifacts == run.state.artifacts
  {
  }

  lemma LatestIsLast(base: seq<R.Artifact>, draft: R.Artifact)
    requires IsBusiness(draft)
    ensures Latest(base + [draft]) == draft
  {
    assert (base + [draft])[|base|] == draft;
  }

  lemma StepDrafts(
    w: Wiring, s0: State, run: Run, input: Input, outcome: Outcome, next: Outcome, graph: Subgraph,
    base: seq<R.Artifact>, draft: R.Artifact)
    requires OnPath(run, outcome, graph) && Drafted(run, outcome, s0, base, draft) && |run.trace| >= 5
    requires next == outcome || |run.trace| == 5
    requires outcome.Asked? <==> next.Asked?
    ensures Drafted(Advance(w, run, input), next, s0, base, draft)
  {
    DraftingIsOver(run, outcome, graph);
    AdvanceTrace(w, run, input);
    if run.node.Repair? {
      var repaired := AdvanceRepair(w, run, input);
      LatestIsLast(base, draft);
    } else {
      ArtifactsKept(w, run, input);
    }
  }

  lemma FirstDrafts(
    w: Wiring, s0: State, run: Run, input: Input, outcome: Outcome, graph: Subgraph, base: seq<R.Artifact>,
    draft: R.Artifact)
    requires OnPath(run, outcome, graph) && Drafted(run, outcome, s0, base, draft) && |run.trace| < 5
    requires run.node.Council? ==> run.state.plan == w.plan(RequestText(s0.userInput))
    requires IsBusiness(input.draft)
    ensures Drafted(Advance(w, run, input), outcome, s0,
      if |run.trace| == 2 then CouncilArtifacts(w, s0, input) else base,
      if |run.trace| == 4 then input.draft else draft)
  {
    AdvanceTrace(w, run, input);
    if !run.node.Council? && !run.node.Business? {
      ArtifactsKept(w, run, input);
    }
  }

  lemma {:induction false} RunDrafts(
    w: Wiring, s0: State, run: Run, inputs: seq<Input>, outcome: Outcome, base: seq<R.Artifact>, draft: R.Artifact)
    returns (last: Outcome, base': seq<R.Artifact>, i: nat, draft': R.Artifact, j: nat)
    requires Sound(w) && DraftsOnly(inputs)
    requires Holds(w, s0, run, outcome) && Drafted(run, outcome, s0, base, draft)
    ensures var after := RunAll(w, run, inputs);
      && Holds(w, s0, after, last) && Drafted(after, last, s0, base', draft')
      && (|run.trace| >= 3 ==> base' == base) && (|run.trace| >= 5 ==> draft' == draft)
      && (|run.trace| < 3 <= |after.trace| ==> i < |inputs| && base' == CouncilArtifacts(w, s0, inputs[i]))
      && (|run.trace| < 5 <= |after.trace| ==> j < |inputs| && draft' == inputs[j].draft)
    decreases |inputs|
  {
    last, base', i, draft', j := outcome, base, 0, draft, 0;
    if inputs != [] {
      var graph, n := w.plan(RequestText(s0.userInput)).taskType, |run.trace|;
      var after := Advance(w, run, inputs[0]);
      var next := StepHolds(w, s0, run, inputs[0], outcome);
      AdvanceTrace(w, run, inputs[0]);
      if n >= 5 {
        StepDrafts(w, s0, run, inputs[0], outcome, next, graph, base, draft);
      } else {
        FirstDrafts(w, s0, run, inputs[0], outcome, graph, base, draft);
      }
      last, base', i, draft', j := RunDrafts(w, s0, after, inputs[1..], next,
        if n == 2 then CouncilArtifacts(w, s0, inputs[0]) else base, if n == 4 then inputs[0].draft else draft);
      i := if n == 2 && |after.trace| == 3 then 0 else i + 1;
      j := if n == 4 && |after.trace| == 5 then 0 else j + 1;
    }
  }

  /** What a person is asked about: the run's artifacts are those of the checkpoint, what the
      council added to them, and what an agent drafted in the run, and after a repair its
      repaired version, too. */
  lemma DraftsOfRun(w: Wiring, s0: State, inputs: seq<Input>) returns (i: nat, j: nat)
    requires Sound(w) && DraftsOnly(inputs)
    ensures var run := RunAll(w, Start(s0), inputs);
      run.node.Approval? || Approval in run.trace ==>
        i < |inputs| && j < |inputs|
        && var council, draft := CouncilArtifacts(w, s0, inputs[i]), inputs[j].draft;
        if Repair in run.trace then
          run.state.artifacts == council + [draft, R.Repair(draft)] && Latest(run.state.artifacts) == R.Repair(draft)
        else run.state.artifacts == council + [draft] && Latest(run.state.artifacts) == draft
  {
    var run := RunAll(w, Start(s0), inputs);
    var outcome, base, draft;
    outcome, base, i, draft, j := DraftsSoFar(w, s0, inputs);
    if run.node.Approval? || Approval in run.trace {
      LastDraft(run, outcome, w.plan(RequestText(s0.userInput)).taskType, s0, base, draft);
    }
  }

  lemma DraftsSoFar(w: Wiring, s0: State, inputs: seq<Input>)
    returns (outcome: Outcome, base: seq<R.Artifact>, i: nat, draft: R.Artifact, j: nat)
    requires Sound(w) && DraftsOnly(inputs)
    ensures var run := RunAll(w, Start(s0), inputs);
      && OnPath(run, outcome, w.plan(RequestText(s0.userInput)).taskType) && Drafted(run, outcome, s0, base, draft)
      && (|run.trace| >= 5 ==>
            i < |inputs| && base == CouncilArtifacts(w, s0, inputs[i]) && j < |inputs| && draft == inputs[j].draft)
  {
    var asked := w.plan(RequestText(s0.userInput)).mode.Triage?;
    outcome, base, i, draft, j :=
      RunDrafts(w, s0, Start(s0), inputs, if asked then Asked else Decidable, [], StandIn());
  }

  lemma LastDraft(
    run: Run, outcome: Outcome, graph: Subgraph, s0: State, base: seq<R.Artifact>, draft: R.Artifact)
    requires OnPath(run, outcome, graph) && Drafted(run, outcome, s0, base, draft)
    requires run.node.Approval? || Approval in run.trace
    ensures |run.trace| >= 5
    ensures if Repair in run.trace then
              run.state.artifacts == base + [draft, R.Repair(draft)]
              && Latest(run.state.artifacts) == R.Repair(draft)
            else run.state.artifacts == base + [draft] && Latest(run.state.artifacts) == draft
  {
    ApprovalIsLate(run, outcome, graph);
    RepairIsSeventh(run, outcome, graph);
    LatestIsLast(base, draft);
    LatestIsLast(base + [draft], R.Repair(draft));
    assert base + [draft] + [R.Repair(draft)] == base + [draft, R.Repair(draft)];
  }

  lemma ApprovalIsLate(run: Run, outcome: Outcome, graph: Subgraph)
    requires OnPath(run, outcome, graph) && (run.node.Approval? || Approval in run.trace)
    ensures Reached(outcome, run.node)
  {
    if Approval in run.trace {
      var i :| 0 <= i < |run.trace| && run.trace[i] == Approval;
      assert run.trace[i] == NodeAt(outcome, graph, i);
    }
  }

  lemma RepairIsSeventh(run: Run, outcome: Outcome, graph: Subgraph)
    requires OnPath(run, outcome, graph) && Reached(outcome, run.node)
    ensures |run.trace| >= 6
    ensures Repair in run.trace <==> outcome.Repaired?
    ensures outcome.Repaired? ==> |run.trace| >= 7
  {
    NodesOfAWay(outcome, graph);
    if outcome.Repaired? {
      assert run.trace[6] == NodeAt(outcome, graph, 6);
    }
  }

  /** What a run proposes is what an agent drafted in it, as it was or repaired once, under
      a key of its thread, its kind, its id and its version. */
  lemma ProposedIsTheDraft(w: Wiring, s0: State, inputs: seq<Input>) returns (j: nat)
    requires Sound(w) && DraftsOnly(inputs)
    ensures var run := RunAll(w, Start(s0), inputs); var s := run.state;
      s.proposed != s0.proposed ==>
        j < |inputs|
        && var d := if Repair in run.trace then R.Repair(inputs[j].draft) else inputs[j].draft;
        var kind := if d.kind.OtherKind? then R.OtherKind("business_write") else d.kind;
        s.proposed == s0.proposed[ActionKey(s0.thread, kind, d.id, d.version) := d]
  {
    var run := RunAll(w, Start(s0), inputs);
    var i;
    i, j := DraftsOfRun(w, s0, inputs);
    var outcome := EveryRunIsAWay(w, s0, inputs);
    if run.state.proposed != s0.proposed {
      ProposalsAreReviewed(w, s0, inputs);
      ProposesLate(w, s0, run, outcome);
    }
  }

  lemma ProposesLate(w: Wiring, s0: State, run: Run, outcome: Outcome)
    requires Holds(w, s0, run, outcome) && run.state.proposed != s0.proposed
    ensures run.state.thread == s0.thread && (run.node.Approval? || Approval in run.trace)
  {
    var graph := w.plan(RequestText(s0.userInput)).taskType;
    assert Reached(outcome, run.node);
    var i := if outcome.Repaired? then 8 else 6;
    if !run.node.Approval? {
      assert run.trace[i] == NodeAt(outcome, graph, i);
    }
  }

  // ------------------------------------------- answers and what is executed

  /** The answer is about this thread and this action, and decides something. */
  predicate Decisive(input: Input, thread: string, action: ActionKey) {
    && input.resume.Some? && input.resume.value.thread == thread && input.resume.value.action == action
    && (input.resume.value.decision in {Approve, Reject}
        || (input.resume.value.decision == Edit && input.resume.value.edited))
  }

  /** `d` is what such an answer says. */
  predicate Says(input: Input, thread: string, d: Decided) {
    Decisive(input, thread, d.action) && d.decision == input.resume.value.decision
  }

  lemma {:induction false} ClosedRun(w: Wiring, run: Run, inputs: seq<Input>)
    requires run.node.Record? || run.node.Done?
    ensures RunAll(w, run, inputs).state == run.state
    decreases |inputs|
  {
    if inputs != [] {
      ClosedRun(w, Advance(w, run, inputs[0]), inputs[1..]);
    }
  }

  lemma ExecutedFrom(w: Wiring, run: Run, inputs: seq<Input>)
    requires run.node.Execute?
    ensures var executed := RunAll(w, run, inputs).state.executed;
      executed == run.state.executed
      || (run.state.approval.Some? && executed == run.state.executed + [run.state.approval.value])
  {
    if inputs != [] {
      ClosedRun(w, Advance(w, run, inputs[0]), inputs[1..]);
    }
  }

  /** The execution is reached only by an answer that says what is to be executed. */
  lemma ReachedBySaying(w: Wiring, run: Run, input: Input)
    requires w.gate && !run.node.Execute?
    ensures var next := Advance(w, run, input);
      && next.state.thread == run.state.thread && next.state.executed == run.state.executed
      && (next.node.Execute? ==>
            next.state.approval.Some? && Says(input, run.state.thread, next.state.approval.value))
  {
  }

  /** With a gate nothing is executed but what some answer said, whatever node the run
      starts from and however the graph is wired. */
  lemma {:induction false} ExecutedWasSaid(w: Wiring, run: Run, inputs: seq<Input>) returns (i: nat)
    requires w.gate && !run.node.Execute?
    ensures var executed := RunAll(w, run, inputs).state.executed;
      executed == run.state.executed
      || (i < |inputs| && |executed| == |run.state.executed| + 1 && run.state.executed < executed
          && Says(inputs[i], run.state.thread, executed[|run.state.executed|]))
    decreases |inputs|
  {
    i := 0;
    if inputs != [] {
      var next := Advance(w, run, inputs[0]);
      ReachedBySaying(w, run, inputs[0]);
      if next.node.Execute? {
        ExecutedFrom(w, next, inputs[1..]);
      } else {
        var j := ExecutedWasSaid(w, next, inputs[1..]);
        i := j + 1;
      }
    }
  }

  /** With a gate: whatever a run executes was said by one of its answers, about this
      thread and the proposed draft, and is exactly the decision of that answer. */
  lemma ExecutedAsAnswered(w: Wiring, s0: State, inputs: seq<Input>) returns (i: nat)
    requires Sound(w) && w.gate
    ensures var s := RunAll(w, Start(s0), inputs).state;
      s.executed != s0.executed ==>
        i < |inputs| && inputs[i].resume.Some?
        && var r := inputs[i].resume.value;
        r.thread == s0.thread && r.action == KeyOf(s) && r.action in s.proposed
        && (r.decision in {Approve, Reject} || (r.decision == Edit && r.edited))
        && s.executed == s0.executed + [Decided(r.action, r.decision)]
  {
    ExecutionIsDecided(w, s0, inputs);
    i := ExecutedWasSaid(w, Start(s0), inputs);
  }

  /** And where a run waits for a person, an answer is executed, as it is, exactly when it
      names this thread and the proposed draft and decides; with any other it waits on. */
  lemma AnswerIsExecuted(w: Wiring, run: Run, answer: Input, next: Input)
    requires w.gate && w.executor && run.node.Approval?
    ensures Decisive(answer, run.state.thread, KeyOf(run.state)) ==>
      RunAll(w, run, [answer, next]).state.executed
        == run.state.executed + [Decided(KeyOf(run.state), answer.resume.value.decision)]
    ensures !Decisive(answer, run.state.thread, KeyOf(run.state)) ==>
      RunAll(w, run, [answer]).node == Approval && RunAll(w, run, [answer]).state.executed == run.state.executed
  {
    assert [answer, next][1..] == [next] && [answer][1..] == [] && [next][1..] == [];
    var once := Advance(w, run, answer);
    assert RunAll(w, run, [answer]) == once;
    assert RunAll(w, once, [next]) == Advance(w, once, next);
  }

  /** Without an action gate a completed draft is executed exactly when the checkpoint
      still holds an approval of an earlier run, which is then used again. */
  lemma UngatedRunReusesApproval(w: Wiring, s0: State, inputs: seq<Input>)
    requires Sound(w) && !w.gate && w.executor
    ensures var run := RunAll(w, Start(s0), inputs);
      run.node.Done? && Execute in run.trace ==>
        run.state.executed == s0.executed + if s0.approval.Some? then [s0.approval.value] else []
  {
    var run := RunAll(w, Start(s0), inputs);
    var outcome := EveryRunIsAWay(w, s0, inputs);
  }

  /** In the program a repaired draft reaches the person with a passing review unless its
      tokens, counted for both versions, exceed the budget. */
  lemma RepairedDraftPasses(w: Wiring, s0: State, inputs: seq<Input>)
    requires Program(w)
    ensures var run := RunAll(w, Start(s0), inputs); var s := run.state;
      Late(run.node) && Repair in run.trace ==>
        s.review == Some(Reviewed(if TotalTokens(s.artifacts) <= 3500 then R.Pass else R.NeedsHuman, false))
  {
    ProgramIsSound(w);
    var run := RunAll(w, Start(s0), inputs);
    var outcome := EveryRunIsAWay(w, s0, inputs);
    if Late(run.node) && Repair in run.trace {
      NodesOfAWay(outcome, w.plan(RequestText(s0.userInput)).taskType);
      assert outcome.Repaired?;
      SecondReview(w, run.state);
    }
  }

  lemma {:induction false} TokensAdd(a: seq<R.Artifact>, b: seq<R.Artifact>)
    ensures TotalTokens(a + b) == TotalTokens(a) + TotalTokens(b)
    ensures |b| == 1 ==> TotalTokens(b) == b[0].sizeTokens
    decreases |b|
  {
    if b == [] {
      assert a + b == a;
    } else {
      assert (a + b)[..|a + b| - 1] == a + b[..|b| - 1];
      TokensAdd(a, b[..|b| - 1]);
    }
  }

  /** In the program a draft comes before a person well formed, and with a pass exactly
      when it has support, is safe, is not too short and keeps to the budget. */
  lemma DraftsComeReviewed(w: Wiring, s0: State, inputs: seq<Input>)
    requires Program(w)
    ensures var run := RunAll(w, Start(s0), inputs); var s := run.state; var draft := Latest(s.artifacts);
      run.node.Approval? || Approval in run.trace ==>
        draft.wellFormed
        && s.review == Some(Reviewed(
             if (draft.kind.OtherKind? || draft.evidence != [] || draft.sources != [])
                && s.memoryRefs <= 10 && TotalTokens(s.artifacts) <= 3500 && draft.pii != R.HighPii
                && !R.ClaimsSideEffect(draft.summary) && |Text.Strip(draft.summary)| >= 12 then R.Pass
             else R.NeedsHuman, false))
  {
    ProgramIsSound(w);
    var run := RunAll(w, Start(s0), inputs);
    var outcome := EveryRunIsAWay(w, s0, inputs);
    if run.node.Approval? || Approval in run.trace {
      ApprovalIsLate(run, outcome, w.plan(RequestText(s0.userInput)).taskType);
      assert Decides(w, s0, run, outcome);
    }
  }

  /** The tokens that count against the budget in the program: those of the checkpoint, the
      opinions, the decision on the first 240 characters of the request, and the draft,
      twice after a repair. */
  lemma BudgetOfRun(w: Wiring, s0: State, inputs: seq<Input>) returns (i: nat, j: nat)
    requires Program(w) && DraftsOnly(inputs)
    ensures var run := RunAll(w, Start(s0), inputs);
      var text := if s0.userInput == "" then "空任务" else s0.userInput;
      var shown := if |text| <= 240 then |text| else 240;
      run.node.Approval? || Approval in run.trace ==>
        i < |inputs| && j < |inputs|
        && TotalTokens(run.state.artifacts)
           == TotalTokens(s0.artifacts) + TotalTokens(inputs[i].opinions) + (if shown < 4 then 1 else shown / 4)
              + inputs[j].draft.sizeTokens * if Repair in run.trace then 2 else 1
  {
    ProgramIsSound(w);
    i, j := DraftsOfRun(w, s0, inputs);
    var run := RunAll(w, Start(s0), inputs);
    if run.node.Approval? || Approval in run.trace {
      CouncilTokens(w, s0, inputs[i]);
      DraftTokens(CouncilArtifacts(w, s0, inputs[i]), inputs[j].draft);
    }
  }

  lemma CouncilTokens(w: Wiring, s0: State, input: Input)
    ensures var text := w.plan(RequestText(s0.userInput)).requestText;
      var shown := if |text| <= 240 then |text| else 240;
      TotalTokens(CouncilArtifacts(w, s0, input))
      == TotalTokens(s0.artifacts) + TotalTokens(input.opinions) + if shown < 4 then 1 else shown / 4
  {
    var council := CouncilArtifacts(w, s0, input);
    TokensAdd(s0.artifacts, input.opinions);
    TokensAdd(s0.artifacts + input.opinions, [council[|council| - 1]]);
  }

  lemma DraftTokens(base: seq<R.Artifact>, draft: R.Artifact)
    ensures TotalTokens(base + [draft]) == TotalTokens(base) + draft.sizeTokens
    ensures TotalTokens(base + [draft, R.Repair(draft)]) == TotalTokens(base) + 2 * draft.sizeTokens
  {
    TokensAdd(base, [draft]);
    TokensAdd(base + [draft], [R.Repair(draft)]);
    assert base + [draft] + [R.Repair(draft)] == base + [draft, R.Repair(draft)];
  }

  /** Which subgraph drafts: the first group of words that the text mentions decides. */
  lemma GraphFollowsText(w: Wiring, s0: State, inputs: seq<Input>, graph: Subgraph)
    requires Program(w) && Business(graph) in RunAll(w, Start(s0), inputs).trace
    ensures var text := if s0.userInput == "" then "空任务" else s0.userInput;
      if Text.Contains(text, "人才地图") || Text.Contains(text, "Mapping") || Text.Contains(text, "mapping") then
        graph == TalentMapping
      else if Text.Contains(text, "新建岗位") || Text.Contains(text, "岗位校准") then graph == RequisitionCalibration
      else if Text.Contains(text, "候选人") || Text.Contains(text, "筛选") then graph == CandidateScreening
      else if Text.Contains(text, "报告") || Text.Contains(text, "话术") then graph == ReportDraft
      else if Text.Contains(text, "复盘") || Text.Contains(text, "记忆") then graph == FollowupReview
      else graph == RequisitionCalibration
  {
    ProgramIsSound(w);
    var run := RunAll(w, Start(s0), inputs);
    var text := RequestText(s0.userInput);
    var outcome := EveryRunIsAWay(w, s0, inputs);
    var i :| 0 <= i < |run.trace| && run.trace[i] == Business(graph);
    BusinessNode(outcome, ClassifyTask(text), i, graph);
    FirstMentionDecides(text);
  }

  lemma BusinessNode(outcome: Outcome, graph: Subgraph, k: nat, other: Subgraph)
    requires NodeAt(outcome, graph, k) == Business(other)
    ensures other == graph
  {
  }

  lemma SecondReview(w: Wiring, s: State)
    requires Program(w)
    requires AfterRepair(w, s)
    ensures ReviewLatest(w, s.artifacts, s.memoryRefs, s.attempts)
      == Reviewed(if TotalTokens(s.artifacts) <= 3500 then R.Pass else R.NeedsHuman, false)
  {
    var before := s.artifacts[..|s.artifacts| - 1];
    var latest := Latest(before);
    assert s.artifacts == before + [R.Repair(latest)];
    LatestOfRepaired(before);
    R.RepairSettles(latest, ReviewContext(before, s.memoryRefs), ReviewContext(s.artifacts, s.memoryRefs), 1);
  }
}
