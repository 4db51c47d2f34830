/**
 What the steps of the human-gated workflow do, stated on the rows' and requests' own fields: how an
 execution ends, along which edges a run moves, and where a recorded decision comes from.
 */
module ApprovalOutcomes {
  import opened Common
  import opened ApprovalModel
  import opened ApprovalStore
  import opened WorkflowGraph
  import opened ApprovalProtocol
  import opened ApprovalSafety
  import opened ApprovalLeases
  import opened ApprovalTheorems

  // ---------------------------------------------------------------- how an execution ends

  /** The action of the recommendation, field by field. */
  function Proposal(uuid: Uuid): Action {
    Action("create_security_review", "workflow_execution", uuid,
           "Create a bounded security review for this workflow execution.")
  }

  /** The decision lets something run: the proposal, or a replacement that changes only its summary. */
  predicate Authorises(request: DecisionRequest, uuid: Uuid) {
    || request.decision == Approved
    || (request.decision == Modified && request.modifiedAction.Some?
        && request.modifiedAction.value == Proposal(uuid).(summary := request.modifiedAction.value.summary))
  }

  /** An execution that is about to decide: the run is executing on a delivered, still decided row. */
  ghost predicate AboutToExecute(s: Sys, e: ExecutionId) {
    && e in s.runs && s.runs[e].executing && HasRow(s, e)
    && RowOf(s, e).status == Decided && RowOf(s, e).delivered && RowOf(s, e).recorded.Some?
  }

  /** The one review that was inserted: the proposal, or the Manager's replacement of it. */
  predicate ReviewsWhatWasDecided(review: SecurityReview, e: ExecutionId, uuid: Uuid, request: DecisionRequest) {
    && review.execution == e
    && (request.decision == Approved ==> review.action == Proposal(uuid))
    && (request.decision == Modified ==> request.modifiedAction == Some(review.action))
  }

  /** Which rule a replacement breaks first. */
  predicate BrokenRule(code: PolicyError, action: Action, uuid: Uuid) {
    if action.actionType != "create_security_review" || action.resourceType != "workflow_execution"
    then code == ActionNotAllowed
    else action.resourceId != uuid && code == ResourceMismatch
  }

  /**
   In every reachable state the transaction on a delivered decision succeeds with one review if and
   only if the decision is approved or its replacement equals the proposal apart from the summary;
   otherwise it fails with the code of the rule the replacement's own fields break.
   */
  lemma ExecutionEndsAsDecided(steps: seq<Step>, e: ExecutionId, reported: bool)
    requires Interleaving(Init(), steps) && AboutToExecute(After(Init(), steps), e)
    requires Enabled(After(Init(), steps), Execute(e, reported))
    ensures e.uuid.Some?
    ensures var s := After(Init(), steps);
            var t := Apply(s, Execute(e, reported));
            var request, uuid := RowOf(s, e).recorded.value.request, e.uuid.value;
            && HasRow(t, e) && RowOf(t, e).recorded == RowOf(s, e).recorded
            && if Authorises(request, uuid) then
                 && RowOf(t, e).status == ExecutionSucceeded && RowOf(t, e).errorCode.None?
                 && |t.runs[e].reviews| == 1 && ReviewsWhatWasDecided(t.runs[e].reviews[0], e, uuid, request)
                 && (reported ==> t.runs[e].node == WorkflowExecuted)
               else
                 && RowOf(t, e).status == ExecutionFailed && RowOf(t, e).errorCode.Some?
                 && request.modifiedAction.Some?
                 && BrokenRule(RowOf(t, e).errorCode.value, request.modifiedAction.value, uuid)
                 && t.runs[e].reviews == []
                 && (reported ==> t.runs[e].node == ApprovedActionExecutionFailed)
  {
    Reached(steps);
    var s := After(Init(), steps);
    ReadyToExecute(s, e);
    var row := RowOf(s, e);
    ExecutionIsExact(row, s.runs[e].reviews, e.uuid.value);
    RunsFromOutcome(s.runs[e], e, reported, ExecuteRow(row, s.runs[e].reviews));
  }

  lemma ReadyToExecute(s: Sys, e: ExecutionId)
    requires Inv(s) && AboutToExecute(s, e)
    ensures var row := RowOf(s, e);
            && e.uuid.Some? && row.execution == e && row.proposed == Proposal(e.uuid.value)
            && CheckRequest(row.recorded.value.request).Ok? && row.recorded.value.request.decision != Rejected
            && s.runs[e].reviews == []
  {
    assert RunOk(e, s.runs[e], s.nextToken);
  }

  /** From the transaction's result to the run. */
  lemma RunsFromOutcome(x: Run, e: ExecutionId, reported: bool, done: Executed)
    requires x.row.Some? && e.uuid.Some? && done == ExecuteRow(x.row.value, x.reviews)
    requires var row := x.row.value;
             && row.recorded.Some? && row.execution == e && row.proposed == Proposal(e.uuid.value)
             && CheckRequest(row.recorded.value.request).Ok? && row.recorded.value.request.decision != Rejected
             && x.reviews == []
             && ExecutedAsDecided(row, x.reviews, e.uuid.value, done)
    ensures var y := ExecutedRun(x, reported);
            var request, uuid := x.row.value.recorded.value.request, e.uuid.value;
            && y.row == Some(done.row) && done.row.recorded == x.row.value.recorded
            && if Authorises(request, uuid) then
                 && done.row.status == ExecutionSucceeded && done.row.errorCode.None?
                 && |y.reviews| == 1 && ReviewsWhatWasDecided(y.reviews[0], e, uuid, request)
                 && (reported ==> y.node == WorkflowExecuted)
               else
                 && done.row.status == ExecutionFailed && done.row.errorCode.Some?
                 && request.modifiedAction.Some?
                 && BrokenRule(done.row.errorCode.value, request.modifiedAction.value, uuid)
                 && y.reviews == [] && (reported ==> y.node == ApprovedActionExecutionFailed)
  {
  }

  /** The run once more at its action: an earlier outcome is answered again and nothing is done twice. */
  ghost predicate AnsweredAgain(x: Run, y: Run, reported: bool) {
    && y == x.(node := y.node)
    && (!reported ==> y.node == x.node)
    && (reported ==> y.node == if x.row.Some? && x.row.value.status == ExecutionSucceeded then WorkflowExecuted
                               else ApprovedActionExecutionFailed)
  }

  /**
   In every reachable state another transaction on a row that is terminal or not yet delivered
   changes neither row nor reviews: a success is reported as one again, all else as a failure.
   */
  lemma ExecutionsAreAnsweredAgain(steps: seq<Step>, e: ExecutionId, reported: bool)
    requires Interleaving(Init(), steps) && Enabled(After(Init(), steps), Execute(e, reported))
    requires HasRow(After(Init(), steps), e)
    requires RowOf(After(Init(), steps), e).status != Decided || !RowOf(After(Init(), steps), e).delivered
    ensures var s := After(Init(), steps);
            AnsweredAgain(s.runs[e], Apply(s, Execute(e, reported)).runs[e], reported)
  {
    Reached(steps);
    var s := After(Init(), steps);
    assert RunOk(e, s.runs[e], s.nextToken);
    AnswersFromOutcome(s.runs[e], reported);
  }

  lemma AnswersFromOutcome(x: Run, reported: bool)
    requires x.row.Some? && RowOk(x.row.value) && (x.row.value.status != Decided || !x.row.value.delivered)
    ensures AnsweredAgain(x, ExecutedRun(x, reported), reported)
  {
    ExecutionLeavesOtherRows(x.row.value, x.reviews);
  }

  // ---------------------------------------------------------------- along which edges a run moves

  /** Where a run went, or stayed, in one step: an edge of the workflow under the run's own data. */
  ghost predicate FollowsAnEdge(x: Run, y: Run) {
    || y.node == x.node
    || Successor(x.node, y.node, Facts(x.reviewerPassed == Some(true),
                                       if y.resumed.Some? then y.resumed.value.decision else Rejected))
  }

  /** The only step that changes the recorded verdict is the Reviewer task finishing, with that verdict. */
  ghost predicate VerdictFromReviewer(x: Run, y: Run, st: Step) {
    y.reviewerPassed == x.reviewerPassed
    || (st.TaskDone? && x.node == ReviewerAgent && y.reviewerPassed == Some(st.reviewerPassed))
  }

  /** The Reviewer's verdict is recorded as it is given. */
  lemma VerdictIsRecorded(s: Sys, e: ExecutionId, passed: bool)
    requires Enabled(s, TaskDone(e, passed)) && s.runs[e].node == ReviewerAgent
    ensures Apply(s, TaskDone(e, passed)).runs[e].reviewerPassed == Some(passed)
    ensures Apply(s, TaskDone(e, passed)).runs[e].node == ReviewerDecision
  {
  }

  /** A finished task goes on, and a failed one ends the run in the failure that names its kind. */
  lemma TasksGoOnOrFail(s: Sys, st: Step)
    requires Enabled(s, st) && (st.TaskDone? || st.TaskFailed?)
    ensures var before, after := s.runs[st.e].node, Apply(s, st).runs[st.e].node;
            if st.TaskDone? then !Terminal(after) && after != before
            else
              && (after == AgentExecutionFailed <==> before in {ResearchAgent, RiskAgent, ReviewerAgent})
              && (after == ApprovalWaitFailed <==> before == WaitForManagerApproval)
              && (after == ApprovedActionExecutionFailed <==> before == ExecuteApprovedAction)
  {
  }

  /** A run whose Reviewer passed waits for a Manager under a token of its own; any other ends there. */
  lemma ReviewersVerdictDecides(s: Sys, e: ExecutionId)
    requires Inv(s) && Enabled(s, ChooseBranch(e)) && s.runs[e].node == ReviewerDecision
    ensures var x, y := s.runs[e], Apply(s, ChooseBranch(e)).runs[e];
            if x.reviewerPassed == Some(true) then y.node == WaitForManagerApproval && y.token == Some(s.nextToken)
            else y.node == ReviewerFailed && y.token.None?
  {
    assert RunOk(e, s.runs[e], s.nextToken);
    assert BranchesOf(ReviewerDecision).value[1..] == [];
  }

  /** A resumed run executes unless its decision is a rejection. */
  lemma ManagersDecisionDecides(s: Sys, e: ExecutionId)
    requires Inv(s) && Enabled(s, ChooseBranch(e)) && s.runs[e].node == ApprovalDecision
    ensures s.runs[e].resumed.Some?
    ensures var x, y := s.runs[e], Apply(s, ChooseBranch(e)).runs[e];
            if x.resumed.value.decision == Rejected then y.node == WorkflowRejected && y.executing == x.executing
            else y.node == ExecuteApprovedAction && y.executing
  {
    assert RunOk(e, s.runs[e], s.nextToken);
    var branches := BranchesOf(ApprovalDecision).value;
    assert branches[1..] == [branches[1]] && branches[1..][1..] == [];
  }

  ghost predicate MovesAlong(s: Sys, t: Sys, st: Step, e: ExecutionId)
    requires e in s.runs
  {
    e in t.runs && FollowsAnEdge(s.runs[e], t.runs[e]) && VerdictFromReviewer(s.runs[e], t.runs[e], st)
  }

  /** In every reachable state every step moves every run along the workflow's own edges, or not at all. */
  lemma RunsFollowTheWorkflow(s: Sys, st: Step, e: ExecutionId)
    requires Inv(s) && Enabled(s, st) && e in s.runs
    ensures MovesAlong(s, Apply(s, st), st, e)
  {
    assert RunOk(e, s.runs[e], s.nextToken);
    if st.Tick? || st.ReadApproval? || st.StartScan? || st.Crash? {
      RunlessStepsLeaveTheRuns(s, st);
    } else if st.TaskDone? || st.TaskFailed? || st.StartRun? {
      TasksFollowTheWorkflow(s, st, e);
    } else if st.ChooseBranch? {
      BranchesFollowTheWorkflow(s, st.e, e);
    } else if st.Execute? {
      ExecutionsFollowTheWorkflow(s, st.e, st.reported, e);
    } else if st.Send? {
      SendsFollowTheWorkflow(s, st.w, st.resumes, st.replyOk, e);
    } else {
      RowStepsLeaveTheNode(s, st, e);
    }
  }

  lemma TasksFollowTheWorkflow(s: Sys, st: Step, e: ExecutionId)
    requires Enabled(s, st) && (st.TaskDone? || st.TaskFailed? || st.StartRun?) && e in s.runs
    ensures MovesAlong(s, Apply(s, st), st, e)
  {
  }

  lemma BranchesFollowTheWorkflow(s: Sys, d: ExecutionId, e: ExecutionId)
    requires Enabled(s, ChooseBranch(d)) && e in s.runs
    ensures MovesAlong(s, Apply(s, ChooseBranch(d)), ChooseBranch(d), e)
  {
    var branches := BranchesOf(s.runs[d].node).value;
    assert branches[1..] == [] || (branches[1..] == [branches[1]] && branches[1..][1..] == []);
  }

  lemma ExecutionsFollowTheWorkflow(s: Sys, d: ExecutionId, reported: bool, e: ExecutionId)
    requires Enabled(s, Execute(d, reported)) && e in s.runs
    ensures MovesAlong(s, Apply(s, Execute(d, reported)), Execute(d, reported), e)
  {
  }

  lemma SendsFollowTheWorkflow(s: Sys, w: nat, resumes: Option<ExecutionId>, replyOk: bool, e: ExecutionId)
    requires Enabled(s, Send(w, resumes, replyOk)) && e in s.runs
    ensures MovesAlong(s, Apply(s, Send(w, resumes, replyOk)), Send(w, resumes, replyOk), e)
  {
  }

  lemma RowStepsLeaveTheNode(s: Sys, st: Step, e: ExecutionId)
    requires Enabled(s, st) && e in s.runs
    requires st.CreateApproval? || st.Decide? || st.Claim? || st.Mark? || st.Release?
    ensures MovesAlong(s, Apply(s, st), st, e)
  {
  }

  // ---------------------------------------------------------------- where a decision comes from

  /** A decision appears as the given request, by a Manager who read the approval pending, at this time. */
  ghost predicate DecidedBy(s: Sys, st: Step, e: ExecutionId, r: Recorded) {
    && st.Decide? && ManagerOf(s, st.m) == SawPending(e)
    && r == Recorded(st.request, st.m, s.clock)
  }

  /** In every reachable state a decision is recorded by a Manager's write alone, and as that Manager gave it. */
  lemma DecisionsAreRecordedAsGiven(s: Sys, st: Step, e: ExecutionId)
    requires Inv(s) && Enabled(s, st) && HasRow(s, e) && HasRow(Apply(s, st), e)
    requires RowOf(s, e).recorded.None? && RowOf(Apply(s, st), e).recorded.Some?
    ensures DecidedBy(s, st, e, RowOf(Apply(s, st), e).recorded.value)
  {
    if !st.Decide? {
      OtherStepsRecordNothing(s, st, e);
    }
  }

  lemma OtherStepsRecordNothing(s: Sys, st: Step, e: ExecutionId)
    requires Inv(s) && Enabled(s, st) && HasRow(s, e) && !st.Decide?
    ensures HasRow(Apply(s, st), e) && RowOf(Apply(s, st), e).recorded == RowOf(s, e).recorded
  {
    if st.Tick? || st.ReadApproval? || st.StartScan? || st.Crash? {
      RunlessStepsLeaveTheRuns(s, st);
    } else if st.Execute? {
      ExecutionsRecordNothing(s, st.e, st.reported, e);
    } else if st.Send? {
      SendsRecordNothing(s, st.w, st.resumes, st.replyOk, e);
    } else if st.StartRun? || st.TaskDone? || st.TaskFailed? || st.ChooseBranch? {
      NodeStepsRecordNothing(s, st, e);
    } else {
      RowStepsRecordNothing(s, st, e);
    }
  }

  lemma ExecutionsRecordNothing(s: Sys, d: ExecutionId, reported: bool, e: ExecutionId)
    requires Inv(s) && Enabled(s, Execute(d, reported)) && HasRow(s, e)
    ensures HasRow(Apply(s, Execute(d, reported)), e)
    ensures RowOf(Apply(s, Execute(d, reported)), e).recorded == RowOf(s, e).recorded
  {
    ExecutionTransaction(d, s.runs[d], s.nextToken);
  }

  lemma SendsRecordNothing(s: Sys, w: nat, resumes: Option<ExecutionId>, replyOk: bool, e: ExecutionId)
    requires Enabled(s, Send(w, resumes, replyOk)) && HasRow(s, e)
    ensures HasRow(Apply(s, Send(w, resumes, replyOk)), e)
    ensures RowOf(Apply(s, Send(w, resumes, replyOk)), e).recorded == RowOf(s, e).recorded
  {
  }

  lemma NodeStepsRecordNothing(s: Sys, st: Step, e: ExecutionId)
    requires Enabled(s, st) && HasRow(s, e) && (st.StartRun? || st.TaskDone? || st.TaskFailed? || st.ChooseBranch?)
    ensures HasRow(Apply(s, st), e) && RowOf(Apply(s, st), e).recorded == RowOf(s, e).recorded
  {
  }

  lemma RowStepsRecordNothing(s: Sys, st: Step, e: ExecutionId)
    requires Enabled(s, st) && HasRow(s, e) && (st.CreateApproval? || st.Claim? || st.Mark? || st.Release?)
    ensures HasRow(Apply(s, st), e) && RowOf(Apply(s, st), e).recorded == RowOf(s, e).recorded
  {
  }

  /** A Manager goes on to decide exactly what it read as pending. */
  lemma ReadsSeeTheStatus(s: Sys, m: nat, e: ExecutionId)
    requires Enabled(s, ReadApproval(m, e))
    ensures ManagerOf(Apply(s, ReadApproval(m, e)), m) ==
            if RowOf(s, e).status == Pending then SawPending(e) else Looking
  {
  }

  /** The reply decides whether a worker goes on to mark or to release, under its claim; the send is recorded. */
  lemma RepliesDecideTheWorker(s: Sys, w: nat, resumes: Option<ExecutionId>, replyOk: bool)
    requires Enabled(s, Send(w, resumes, replyOk)) && HasRow(s, WorkerOf(s, w).e)
    ensures var pc, after := WorkerOf(s, w), WorkerOf(Apply(s, Send(w, resumes, replyOk)), w);
            && (after.Sent? <==> replyOk) && (after.SendRefused? <==> !replyOk)
            && after.e == pc.e && after.claimId == pc.claimId
            && Apply(s, Send(w, resumes, replyOk)).runs[pc.e].sent == s.runs[pc.e].sent + [pc.payload]
  {
  }

  /** Under the lease it still holds, a worker's mark delivers and its release only frees the row. */
  lemma HoldersMarkAndRelease(s: Sys, st: Step)
    requires Enabled(s, st) && (st.Mark? || st.Release?) && HasRow(s, WorkerOf(s, st.w).e)
    requires IsLeasedTo(RowOf(s, WorkerOf(s, st.w).e), WorkerOf(s, st.w).claimId)
    ensures var e := WorkerOf(s, st.w).e;
            && HasRow(Apply(s, st), e)
            && RowOf(Apply(s, st), e) == RowOf(s, e).(lease := None, delivered := st.Mark?)
  {
  }

  /** A crashed worker starts over, and its lease is left to go stale. */
  lemma CrashesForgetTheClaim(s: Sys, w: nat)
    requires Enabled(s, Crash(w))
    ensures WorkerOf(Apply(s, Crash(w)), w) == Idle && Apply(s, Crash(w)).runs == s.runs
  {
  }

  /** A Manager's write on an approval still pending does record the decision. */
  lemma PendingDecisionsAreRecorded(s: Sys, m: nat, request: DecisionRequest, e: ExecutionId)
    requires Inv(s) && Enabled(s, Decide(m, request)) && ManagerOf(s, m) == SawPending(e)
    requires HasRow(s, e) && RowOf(s, e).status == Pending
    ensures var t := Apply(s, Decide(m, request));
            && HasRow(t, e) && RowOf(t, e).status == Decided
            && RowOf(t, e).recorded == Some(Recorded(request, m, s.clock))
  {
    assert RunOk(e, s.runs[e], s.nextToken);
  }

  /** Whatever was sent for an approval, by whichever worker, says what was decided on it. */
  lemma SentPayloadsSayWhatWasDecided(steps: seq<Step>, e: ExecutionId, i: nat)
    requires Interleaving(Init(), steps) && e in After(Init(), steps).runs && i < |After(Init(), steps).runs[e].sent|
    ensures var x := After(Init(), steps).runs[e];
            x.row.Some? && SaysWhatWasDecided(x.sent[i], x.row.value) && x.token == Some(x.sent[i].token)
  {
    PayloadsNeverDiffer(steps, e, i, i);
  }
}
