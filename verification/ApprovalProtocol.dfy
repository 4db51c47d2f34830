/**
 The whole human-gated workflow as a transition system: workflow runs, the approvals table,
 racing Managers, recovery workers that may crash or go stale, executors that may outlive their
 state, and a clock. A step is labelled with every choice the environment makes, so a sequence
 of steps is one interleaving and the theorems quantify over all of them.
 */
module ApprovalProtocol {
  import opened Common
  import opened ApprovalModel
  import opened ApprovalStore
  import opened WorkflowGraph

  const LEASE_SECONDS := 300

  /**
   One workflow run, its approval row, and what has been done on its behalf so far. A run that
   is stopped from outside is one that takes no further step.
   */
  datatype Run = Run(
    node: Node,
    token: Option<nat>,
    reviewerPassed: Option<bool>,
    resumed: Option<Payload>,
    executing: bool,
    row: Option<Row>,
    reviews: seq<SecurityReview>,
    sent: seq<Payload>,
    wins: seq<Recorded>)

  datatype Worker =
    | Idle
    | Scanning(staleBefore: int)
    | Claimed(staleBefore: int, e: ExecutionId, claimId: nat, payload: Payload)
    | Sent(staleBefore: int, e: ExecutionId, claimId: nat)
    | SendRefused(staleBefore: int, e: ExecutionId, claimId: nat)

  datatype Manager = Looking | SawPending(e: ExecutionId)

  datatype Sys = Sys(
    clock: int,
    nextToken: nat,
    runs: map<ExecutionId, Run>,
    workers: map<nat, Worker>,
    managers: map<nat, Manager>,
    claimIds: set<nat>)

  datatype Step =
    | Tick(seconds: nat)
    | StartRun(e: ExecutionId)
    /** A plain task finished; the reviewer's task records its verdict. */
    | TaskDone(e: ExecutionId, reviewerPassed: bool)
    | TaskFailed(e: ExecutionId)
    | ChooseBranch(e: ExecutionId)
    | CreateApproval(e: ExecutionId, evidence: seq<EvidenceReference>)
    | ReadApproval(m: nat, e: ExecutionId)
    | Decide(m: nat, request: DecisionRequest)
    | StartScan(w: nat)
    | Claim(w: nat, e: ExecutionId, claimId: nat)
    /** The call to the paused workflow: whether it resumed a run, and which reply came back. */
    | Send(w: nat, resumes: Option<ExecutionId>, replyOk: bool)
    | Mark(w: nat)
    | Release(w: nat)
    | Crash(w: nat)
    /** One execution transaction; `reported` when its result reached the workflow. */
    | Execute(e: ExecutionId, reported: bool)

  function Init(): Sys {
    Sys(0, 0, map[], map[], map[], {})
  }

  function WorkerOf(s: Sys, w: nat): Worker {
    if w in s.workers then s.workers[w] else Idle
  }

  function ManagerOf(s: Sys, m: nat): Manager {
    if m in s.managers then s.managers[m] else Looking
  }

  predicate HasRow(s: Sys, e: ExecutionId) {
    e in s.runs && s.runs[e].row.Some?
  }

  function RowOf(s: Sys, e: ExecutionId): Row
    requires HasRow(s, e)
  {
    s.runs[e].row.value
  }

  predicate IsTask(n: Node) {
    n in {ResearchAgent, RiskAgent, ReviewerAgent, WaitForManagerApproval, ExecuteApprovedAction}
  }

  function FactsOf(x: Run): Facts {
    Facts(x.reviewerPassed == Some(true), if x.resumed.Some? then x.resumed.value.decision else Rejected)
  }

  predicate Enabled(s: Sys, st: Step) {
    match st
    case Tick(_) => true
    case StartRun(e) => e !in s.runs
    case TaskDone(e, _) =>
      e in s.runs && s.runs[e].node in {NormalizeWorkflowInput, ResearchAgent, RiskAgent, ReviewerAgent}
    case TaskFailed(e) => e in s.runs && IsTask(s.runs[e].node)
    case ChooseBranch(e) => e in s.runs && s.runs[e].node in {ReviewerDecision, ApprovalDecision}
    // The creation function may still be running after its state has been left.
    case CreateApproval(e, _) => e in s.runs && s.runs[e].token.Some? && e.uuid.Some?
    case ReadApproval(m, e) => HasRow(s, e)
    case Decide(m, request) => ManagerOf(s, m).SawPending? && CheckRequest(request).Ok?
    case StartScan(w) => WorkerOf(s, w).Idle? || WorkerOf(s, w).Scanning?
    case Claim(w, e, claimId) => WorkerOf(s, w).Scanning? && claimId !in s.claimIds
    case Send(w, resumes, _) =>
      && WorkerOf(s, w).Claimed?
      && (resumes.Some? ==>
            && resumes.value in s.runs
            && s.runs[resumes.value].node == WaitForManagerApproval
            && s.runs[resumes.value].token == Some(WorkerOf(s, w).payload.token))
    case Mark(w) => WorkerOf(s, w).Sent?
    case Release(w) => WorkerOf(s, w).SendRefused?
    case Crash(w) => !WorkerOf(s, w).Idle?
    // So may the execution function.
    case Execute(e, reported) =>
      e in s.runs && s.runs[e].executing && (reported ==> s.runs[e].node == ExecuteApprovedAction)
  }

  function PutRun(s: Sys, e: ExecutionId, x: Run): Sys {
    s.(runs := s.runs[e := x])
  }

  function PutWorker(s: Sys, w: nat, pc: Worker): Sys {
    s.(workers := s.workers[w := pc])
  }

  // ---------------------------------------------------------------- steps on one run

  function NewRun(): Run {
    Run(NormalizeWorkflowInput, None, None, None, false, None, [], [], [])
  }

  function FinishTask(x: Run, reviewerPassed: bool): Run
    requires NextOf(x.node).Some?
  {
    x.(node := NextOf(x.node).value,
       reviewerPassed := if x.node == ReviewerAgent then Some(reviewerPassed) else x.reviewerPassed)
  }

  function FailTask(x: Run): Run
    requires HandlerOf(x.node).Some?
  {
    x.(node := HandlerOf(x.node).value)
  }

  /** Entering the wait state hands out a token; entering the action state starts its function. */
  function Branched(x: Run, nextToken: nat): Run
    requires BranchesOf(x.node).Some? && DefaultOf(x.node).Some?
  {
    var target := FirstBranch(BranchesOf(x.node).value, FactsOf(x), DefaultOf(x.node).value);
    x.(node := target,
       token := if target == WaitForManagerApproval then Some(nextToken) else x.token,
       executing := x.executing || target == ExecuteApprovedAction)
  }

  function Created(x: Run, e: ExecutionId, evidence: seq<EvidenceReference>): Run
    requires x.token.Some? && e.uuid.Some?
  {
    var row := InsertOrKeep(x.row, NewRow(e, evidence, x.token.value));
    if row.Some? then x.(row := row) else x
  }

  function DecidedRun(x: Run, recorded: Recorded): Run {
    if x.row.Some? && Decidable(x.row.value)
    then x.(row := Some(DecideRow(x.row.value, recorded)), wins := x.wins + [recorded])
    else x
  }

  function Resumed(x: Run, payload: Payload): Run {
    x.(node := ApprovalDecision, resumed := Some(payload))
  }

  function ExecutedRun(x: Run, reported: bool): Run
    requires x.row.Some?
  {
    var done := ExecuteRow(x.row.value, x.reviews);
    var node :=
      if !reported then x.node
      else if done.outcome.Succeeded? || done.outcome.Replayed? || done.outcome.Skipped? then WorkflowExecuted
      else ApprovedActionExecutionFailed;
    x.(row := Some(done.row), reviews := done.reviews, node := node)
  }

  function Apply(s: Sys, st: Step): Sys
    requires Enabled(s, st)
  {
    match st
    case Tick(n) => s.(clock := s.clock + n)
    case StartRun(e) => PutRun(s, e, NewRun())
    case TaskDone(e, passed) => PutRun(s, e, FinishTask(s.runs[e], passed))
    case TaskFailed(e) => PutRun(s, e, FailTask(s.runs[e]))
    case ChooseBranch(e) => PutRun(s, e, Branched(s.runs[e], s.nextToken)).(nextToken := s.nextToken + 1)
    case CreateApproval(e, evidence) => PutRun(s, e, Created(s.runs[e], e, evidence))
    case ReadApproval(m, e) =>
      s.(managers := s.managers[m := if RowOf(s, e).status == Pending then SawPending(e) else Looking])
    case Decide(m, request) =>
      var e := ManagerOf(s, m).e;
      var s1 := s.(managers := s.managers[m := Looking]);
      if e in s.runs then PutRun(s1, e, DecidedRun(s.runs[e], Recorded(request, m, s.clock))) else s1
    case StartScan(w) => PutWorker(s, w, Scanning(s.clock - LEASE_SECONDS))
    case Claim(w, e, claimId) =>
      var sb := WorkerOf(s, w).staleBefore;
      var s1 := s.(claimIds := s.claimIds + {claimId});
      if HasRow(s, e) && Claimable(RowOf(s, e), sb) then
        PutWorker(
          PutRun(s1, e, s.runs[e].(row := Some(ClaimRow(RowOf(s, e), claimId, s.clock)))),
          w, Claimed(sb, e, claimId, PayloadOf(RowOf(s, e))))
      else s1
    case Send(w, resumes, replyOk) =>
      var pc := WorkerOf(s, w);
      var s1 := if pc.e in s.runs
                then PutRun(s, pc.e, s.runs[pc.e].(sent := s.runs[pc.e].sent + [pc.payload])) else s;
      var s2 := if resumes.Some? && resumes.value in s1.runs
                then PutRun(s1, resumes.value, Resumed(s1.runs[resumes.value], pc.payload)) else s1;
      PutWorker(s2, w, if replyOk then Sent(pc.staleBefore, pc.e, pc.claimId)
                       else SendRefused(pc.staleBefore, pc.e, pc.claimId))
    case Mark(w) =>
      var pc := WorkerOf(s, w);
      var s1 := if HasRow(s, pc.e)
                then PutRun(s, pc.e, s.runs[pc.e].(row := Some(MarkRow(RowOf(s, pc.e), pc.claimId)))) else s;
      PutWorker(s1, w, Scanning(pc.staleBefore))
    case Release(w) =>
      var pc := WorkerOf(s, w);
      var s1 := if HasRow(s, pc.e)
                then PutRun(s, pc.e, s.runs[pc.e].(row := Some(ReleaseRow(RowOf(s, pc.e), pc.claimId)))) else s;
      PutWorker(s1, w, Scanning(pc.staleBefore))
    case Crash(w) => PutWorker(s, w, Idle)
    case Execute(e, reported) =>
      if s.runs[e].row.Some? then PutRun(s, e, ExecutedRun(s.runs[e], reported)) else s
  }

  // ---------------------------------------------------------------- interleavings

  predicate Interleaving(s: Sys, steps: seq<Step>)
    decreases |steps|
  {
    steps == [] || (Enabled(s, steps[0]) && Interleaving(Apply(s, steps[0]), steps[1..]))
  }

  function After(s: Sys, steps: seq<Step>): Sys
    requires Interleaving(s, steps)
    decreases |steps|
  {
    if steps == [] then s else After(Apply(s, steps[0]), steps[1..])
  }

  // ---------------------------------------------------------------- the invariant

  ghost predicate RowOk(row: Row) {
    && (row.status == Pending <==> row.recorded.None?)
    && (row.recorded.Some? ==> CheckRequest(row.recorded.value.request).Ok?)
    && (row.status == Pending ==> row.lease.None? && !row.delivered)
    && (row.delivered ==> row.lease.None?)
    && (row.status == ExecutionSucceeded || row.status == ExecutionFailed ==>
          row.delivered && row.executionKey.Some? && row.recorded.value.request.decision != Rejected)
    && (row.status == ExecutionFailed ==>
          row.errorCode.Some? && row.recorded.value.request.decision == Modified)
  }

  /** The review an executed row leaves behind: the projected action, under the projection's key. */
  function ReviewOf(row: Row): SecurityReview
    requires row.recorded.Some? && RowOk(row) && row.recorded.value.request.decision != Rejected
  {
    var request := row.recorded.value.request;
    var action := EffectiveAction(row.proposed, request);
    SecurityReview(row.execution, action.value, IdempotencyKey(row.execution, request.decision, action))
  }

  ghost predicate AllAre(sent: seq<Payload>, p: Payload) {
    forall i :: 0 <= i < |sent| ==> sent[i] == p
  }

  ghost predicate RowBelongs(e: ExecutionId, x: Run) {
    x.row.Some? ==>
      var row := x.row.value;
      && x.token == Some(row.token)
      && row.execution == e
      && e.uuid.Some?
      && row.proposed == RecommendedAction(e.uuid.value)
      && RowOk(row)
      && x.wins == (if row.recorded.Some? then [row.recorded.value] else [])
      && (x.sent != [] ==> row.recorded.Some? && AllAre(x.sent, PayloadOf(row)))
      && (row.delivered ==> x.sent != [])
      && (row.status == ExecutionSucceeded || row.status == ExecutionFailed ==> x.executing)
      && x.reviews == if row.status == ExecutionSucceeded then [ReviewOf(row)] else []
  }

  ghost predicate RunOk(e: ExecutionId, x: Run, nextToken: nat) {
    && RowBelongs(e, x)
    && (x.row.None? ==> x.sent == [] && x.wins == [] && x.reviews == [])
    && (x.token.Some? ==> x.reviewerPassed == Some(true) && x.token.value < nextToken)
    && (x.row.Some? ==> x.token.Some?)
    && (x.resumed.Some? ==> x.row.Some? && x.row.value.recorded.Some? && x.resumed.value == PayloadOf(x.row.value))
    && (x.executing ==> x.resumed.Some? && x.resumed.value.decision != Rejected)
    && NodeOk(x)
  }

  ghost predicate NodeOk(x: Run) {
    match x.node
    case ReviewerDecision => x.reviewerPassed.Some? && x.token.None? && x.resumed.None?
    case WaitForManagerApproval => x.token.Some? && x.resumed.None?
    case ApprovalDecision => x.resumed.Some?
    case ExecuteApprovedAction => x.executing
    case ApprovedActionExecutionFailed => x.executing
    case WorkflowExecuted => x.executing && x.row.Some? && x.row.value.status == ExecutionSucceeded
    case WorkflowRejected => x.resumed.Some? && x.resumed.value.decision == Rejected
    case NormalizeWorkflowInput => x.token.None?
    case ResearchAgent => x.token.None?
    case RiskAgent => x.token.None?
    case ReviewerAgent => x.token.None?
    case _ => true
  }

  ghost predicate TokensUnique(s: Sys) {
    forall e1, e2 ::
      e1 in s.runs && e2 in s.runs && s.runs[e1].token.Some? && s.runs[e1].token == s.runs[e2].token ==> e1 == e2
  }

  ghost predicate Busy(pc: Worker) {
    pc.Claimed? || pc.Sent? || pc.SendRefused?
  }

  ghost predicate WorkerOk(s: Sys, pc: Worker) {
    && (!pc.Idle? ==> pc.staleBefore + LEASE_SECONDS <= s.clock)
    && (Busy(pc) ==> pc.claimId in s.claimIds && HasRow(s, pc.e) && RowOf(s, pc.e).recorded.Some?)
    && (pc.Claimed? ==> pc.payload == PayloadOf(RowOf(s, pc.e)))
    && (pc.Sent? || pc.SendRefused? ==> s.runs[pc.e].sent != [])
  }

  ghost predicate ClaimsExclusive(s: Sys) {
    forall w1, w2 ::
      && w1 in s.workers && w2 in s.workers
      && Busy(s.workers[w1]) && Busy(s.workers[w2])
      && s.workers[w1].claimId == s.workers[w2].claimId
      ==> w1 == w2
  }

  ghost predicate LeaseOk(s: Sys, row: Row) {
    row.lease.Some? ==> row.lease.value.claimId in s.claimIds && row.lease.value.claimedAt <= s.clock
  }

  ghost predicate Inv(s: Sys) {
    && (forall e :: e in s.runs ==> RunOk(e, s.runs[e], s.nextToken))
    && (forall e :: HasRow(s, e) ==> LeaseOk(s, RowOf(s, e)))
    && (forall w :: w in s.workers ==> WorkerOk(s, s.workers[w]))
    && TokensUnique(s)
    && ClaimsExclusive(s)
  }
}
