/** What each kind of step does to the delivery marker and the lease of a row, and over whole runs. */
module ApprovalLeases {
  import opened Common
  import opened ApprovalModel
  import opened ApprovalStore
  import opened WorkflowGraph
  import opened ApprovalProtocol
  import opened ApprovalSafety

  /** The row of `e` is still there, and its marker and lease are what they were. */
  ghost predicate MarkerAndLeaseKept(s: Sys, t: Sys, e: ExecutionId)
    requires HasRow(s, e)
  {
    HasRow(t, e) && RowOf(t, e).delivered == RowOf(s, e).delivered && RowOf(t, e).lease == RowOf(s, e).lease
  }

  // ---------------------------------------------------------------- step by step

  lemma RunlessStepsLeaveTheRuns(s: Sys, st: Step)
    requires Enabled(s, st) && (st.Tick? || st.ReadApproval? || st.StartScan? || st.Crash?)
    ensures Apply(s, st).runs == s.runs
  {
  }

  lemma NodeStepsLeaveTheMarker(s: Sys, st: Step, e: ExecutionId)
    requires Enabled(s, st) && (st.StartRun? || st.TaskDone? || st.TaskFailed? || st.ChooseBranch?) && HasRow(s, e)
    ensures MarkerAndLeaseKept(s, Apply(s, st), e)
  {
  }

  lemma CreationLeavesTheMarker(s: Sys, d: ExecutionId, evidence: seq<EvidenceReference>, e: ExecutionId)
    requires Enabled(s, CreateApproval(d, evidence)) && HasRow(s, e)
    ensures MarkerAndLeaseKept(s, Apply(s, CreateApproval(d, evidence)), e)
  {
  }

  lemma DecisionLeavesTheMarker(s: Sys, m: nat, request: DecisionRequest, e: ExecutionId)
    requires Enabled(s, Decide(m, request)) && HasRow(s, e)
    ensures MarkerAndLeaseKept(s, Apply(s, Decide(m, request)), e)
  {
  }

  lemma SendLeavesTheMarker(s: Sys, w: nat, resumes: Option<ExecutionId>, replyOk: bool, e: ExecutionId)
    requires Enabled(s, Send(w, resumes, replyOk)) && HasRow(s, e)
    ensures MarkerAndLeaseKept(s, Apply(s, Send(w, resumes, replyOk)), e)
  {
  }

  lemma ExecutionLeavesTheMarker(s: Sys, d: ExecutionId, reported: bool, e: ExecutionId)
    requires Inv(s) && Enabled(s, Execute(d, reported)) && HasRow(s, e)
    ensures MarkerAndLeaseKept(s, Apply(s, Execute(d, reported)), e)
  {
    ExecutionTransaction(d, s.runs[d], s.nextToken);
  }

  lemma ReleaseLeavesTheMarker(s: Sys, w: nat, e: ExecutionId)
    requires Enabled(s, Release(w)) && HasRow(s, e)
    ensures HasRow(Apply(s, Release(w)), e)
    ensures RowOf(Apply(s, Release(w)), e).delivered == RowOf(s, e).delivered
    ensures RowOf(Apply(s, Release(w)), e).lease in {RowOf(s, e).lease, None}
  {
  }

  /** A claim leases a row to its own fresh claim id, or does nothing to it. */
  lemma ClaimLeavesTheMarker(s: Sys, w: nat, d: ExecutionId, claimId: nat, e: ExecutionId)
    requires Enabled(s, Claim(w, d, claimId)) && HasRow(s, e)
    ensures HasRow(Apply(s, Claim(w, d, claimId)), e)
    ensures RowOf(Apply(s, Claim(w, d, claimId)), e).delivered == RowOf(s, e).delivered
    ensures RowOf(Apply(s, Claim(w, d, claimId)), e).lease in {RowOf(s, e).lease, Some(Lease(claimId, s.clock))}
  {
  }

  lemma MarkDropsTheLease(s: Sys, w: nat, e: ExecutionId)
    requires Enabled(s, Mark(w)) && HasRow(s, e)
    ensures HasRow(Apply(s, Mark(w)), e)
    ensures RowOf(Apply(s, Mark(w)), e).lease in {RowOf(s, e).lease, None}
  {
  }

  /** The steps that neither claim, mark nor release keep marker and lease. */
  lemma QuietStepsLeaveTheMarker(s: Sys, st: Step, e: ExecutionId)
    requires Inv(s) && Enabled(s, st) && HasRow(s, e) && !st.Claim? && !st.Mark? && !st.Release?
    ensures MarkerAndLeaseKept(s, Apply(s, st), e)
  {
    if st.Tick? || st.ReadApproval? || st.StartScan? || st.Crash? {
      RunlessStepsLeaveTheRuns(s, st);
    } else if st.StartRun? || st.TaskDone? || st.TaskFailed? || st.ChooseBranch? {
      NodeStepsLeaveTheMarker(s, st, e);
    } else {
      match st
      case CreateApproval(d, evidence) => CreationLeavesTheMarker(s, d, evidence, e);
      case Decide(m, request) => DecisionLeavesTheMarker(s, m, request, e);
      case Send(w, resumes, replyOk) => SendLeavesTheMarker(s, w, resumes, replyOk, e);
      case Execute(d, reported) => ExecutionLeavesTheMarker(s, d, reported, e);
    }
  }

  /** Only a delivery mark turns the marker on. */
  lemma OthersLeaveTheMarker(s: Sys, st: Step, e: ExecutionId)
    requires Inv(s) && Enabled(s, st) && !st.Mark? && HasRow(s, e)
    ensures HasRow(Apply(s, st), e) && RowOf(Apply(s, st), e).delivered == RowOf(s, e).delivered
  {
    if st.Claim? {
      ClaimLeavesTheMarker(s, st.w, st.e, st.claimId, e);
    } else if st.Release? {
      ReleaseLeavesTheMarker(s, st.w, e);
    } else {
      QuietStepsLeaveTheMarker(s, st, e);
    }
  }

  // ---------------------------------------------------------------- a lost lease stays lost

  /** An issued claim that does not lease the row of `e`. */
  ghost predicate Superseded(s: Sys, e: ExecutionId, claimId: nat) {
    && claimId in s.claimIds && HasRow(s, e)
    && (RowOf(s, e).lease.Some? ==> RowOf(s, e).lease.value.claimId != claimId)
  }

  /** No step leases a row except to a claim id that was never issued before. */
  ghost predicate LeaseStep(s: Sys, t: Sys, e: ExecutionId)
    requires HasRow(s, e)
  {
    && s.claimIds <= t.claimIds && HasRow(t, e)
    && (RowOf(t, e).lease.Some? ==>
          RowOf(t, e).lease == RowOf(s, e).lease || RowOf(t, e).lease.value.claimId !in s.claimIds)
  }

  lemma ClaimIdsGrow(s: Sys, st: Step)
    requires Enabled(s, st)
    ensures s.claimIds <= Apply(s, st).claimIds
  {
  }

  lemma StepsLeaseFreshly(s: Sys, st: Step, e: ExecutionId)
    requires Inv(s) && Enabled(s, st) && HasRow(s, e)
    ensures LeaseStep(s, Apply(s, st), e)
  {
    ClaimIdsGrow(s, st);
    if st.Claim? {
      ClaimLeavesTheMarker(s, st.w, st.e, st.claimId, e);
    } else if st.Release? {
      ReleaseLeavesTheMarker(s, st.w, e);
    } else if st.Mark? {
      MarkDropsTheLease(s, st.w, e);
    } else {
      QuietStepsLeaveTheMarker(s, st, e);
    }
  }

  lemma SupersededByLeaseStep(s: Sys, t: Sys, e: ExecutionId, claimId: nat)
    requires Superseded(s, e, claimId) && LeaseStep(s, t, e)
    ensures Superseded(t, e, claimId)
  {
  }

  /** A claim id is issued once, so a claim that lost its row never leases it again. */
  lemma {:induction false} SupersededForGood(s: Sys, steps: seq<Step>, e: ExecutionId, claimId: nat)
    requires Inv(s) && Interleaving(s, steps) && Superseded(s, e, claimId)
    ensures Superseded(After(s, steps), e, claimId)
    decreases |steps|
  {
    if steps != [] {
      StepKeeps(s, steps[0]);
      StepsLeaseFreshly(s, steps[0], e);
      SupersededByLeaseStep(s, Apply(s, steps[0]), e, claimId);
      SupersededForGood(Apply(s, steps[0]), steps[1..], e, claimId);
    }
  }

  /** The statements of a worker whose claim does not lease the row change no run. */
  lemma SupersededStatementIsEmpty(s: Sys, st: Step)
    requires Enabled(s, st) && (st.Mark? || st.Release?)
    requires Superseded(s, WorkerOf(s, st.w).e, WorkerOf(s, st.w).claimId)
    ensures Apply(s, st).runs == s.runs
  {
    var e := WorkerOf(s, st.w).e;
    assert s.runs[e].(row := Some(RowOf(s, e))) == s.runs[e];
  }

  /** A successful claim supersedes every claim issued before it. */
  lemma ClaimSupersedesOthers(s: Sys, v: nat, e: ExecutionId, claimId: nat, other: nat)
    requires Inv(s) && Enabled(s, Claim(v, e, claimId)) && other in s.claimIds
    requires WorkerOf(Apply(s, Claim(v, e, claimId)), v).Claimed?
    ensures Superseded(Apply(s, Claim(v, e, claimId)), e, other)
  {
  }

  lemma SupersededStaysEmpty(s: Sys, more: seq<Step>, st: Step)
    requires Inv(s) && Interleaving(s, more) && Enabled(After(s, more), st) && (st.Mark? || st.Release?)
    requires var pc := WorkerOf(After(s, more), st.w); Superseded(s, pc.e, pc.claimId)
    ensures Apply(After(s, more), st).runs == After(s, more).runs
  {
    var pc := WorkerOf(After(s, more), st.w);
    SupersededForGood(s, more, pc.e, pc.claimId);
    SupersededStatementIsEmpty(After(s, more), st);
  }
}
