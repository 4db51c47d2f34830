/** What holds in every interleaving of the human-gated workflow. */
module ApprovalTheorems {
  import opened Common
  import opened ApprovalModel
  import opened ApprovalStore
  import opened WorkflowGraph
  import opened ApprovalProtocol
  import opened ApprovalSafety
  import opened ApprovalLeases

  /** `Extends` without the single-transition clause, so that it survives any number of steps. */
  ghost predicate HistoryKept(a: Run, b: Run) {
    && (a.token.Some? ==> b.token == a.token)
    && (a.row.Some? ==>
          && b.row.Some?
          && b.row.value.execution == a.row.value.execution
          && b.row.value.proposed == a.row.value.proposed
          && b.row.value.evidence == a.row.value.evidence
          && (a.row.value.recorded.Some? ==> b.row.value.recorded == a.row.value.recorded)
          && (a.row.value.delivered ==> b.row.value.delivered)
          && (a.row.value.status in {ExecutionSucceeded, ExecutionFailed} ==> b.row.value.status == a.row.value.status))
    && (a.resumed.Some? ==> b.resumed == a.resumed)
    && a.reviews <= b.reviews && a.sent <= b.sent && a.wins <= b.wins
  }

  ghost predicate SysHistoryKept(s: Sys, t: Sys) {
    && s.clock <= t.clock
    && forall e :: e in s.runs ==> e in t.runs && HistoryKept(s.runs[e], t.runs[e])
  }

  lemma HistoryTransitive(a: Sys, b: Sys, c: Sys)
    requires SysExtends(a, b) && SysHistoryKept(b, c)
    ensures SysHistoryKept(a, c)
  {
    forall e | e in a.runs ensures e in c.runs && HistoryKept(a.runs[e], c.runs[e]) {
      assert Extends(a.runs[e], b.runs[e]) && HistoryKept(b.runs[e], c.runs[e]);
    }
  }

  /** The invariant and the growing history, over any number of steps. */
  lemma {:induction false} InterleavingsKeep(s: Sys, steps: seq<Step>)
    requires Inv(s) && Interleaving(s, steps)
    ensures Inv(After(s, steps)) && SysHistoryKept(s, After(s, steps))
    decreases |steps|
  {
    if steps != [] {
      StepKeeps(s, steps[0]);
      InterleavingsKeep(Apply(s, steps[0]), steps[1..]);
      HistoryTransitive(s, Apply(s, steps[0]), After(s, steps));
    }
  }

  lemma Reached(steps: seq<Step>)
    requires Interleaving(Init(), steps)
    ensures Inv(After(Init(), steps))
  {
    InterleavingsKeep(Init(), steps);
  }

  // ---------------------------------------------------------------- the action

  /**
   Nothing executes but the action a person authorised: at most one review exists per workflow,
   and it exists only behind a Reviewer PASS and one recorded decision that is not a rejection,
   with exactly the action that decision projects to.
   */
  lemma OnlyAuthorisedActionsExecute(steps: seq<Step>, e: ExecutionId)
    requires Interleaving(Init(), steps) && e in After(Init(), steps).runs
    ensures var x := After(Init(), steps).runs[e];
            && |x.reviews| <= 1
            && (x.reviews != [] ==>
                  && x.reviewerPassed == Some(true)
                  && e.uuid.Some? && x.row.Some? && x.row.value.recorded.Some?
                  && x.wins == [x.row.value.recorded.value]
                  && x.row.value.proposed == RecommendedAction(e.uuid.value)
                  && x.row.value.recorded.value.request.decision != Rejected
                  && Some(x.reviews[0].action) == EffectiveAction(x.row.value.proposed, x.row.value.recorded.value.request)
                  && x.row.value.status == ExecutionSucceeded
                  && x.row.value.delivered)
            && (x.node == WorkflowExecuted ==> |x.reviews| == 1)
            && (x.node == WorkflowRejected ==> x.reviews == [])
  {
    Reached(steps);
    var x := After(Init(), steps).runs[e];
    assert RunOk(e, x, After(Init(), steps).nextToken);
    if x.node == WorkflowRejected {
      assert x.row.value.recorded.value.request.decision == Rejected;
    }
  }

  /** Whatever happens later, a rejected run never executes and an executed one never again. */
  lemma OutcomesAreFinal(steps: seq<Step>, more: seq<Step>, e: ExecutionId)
    requires Interleaving(Init(), steps) && Interleaving(After(Init(), steps), more)
    requires e in After(Init(), steps).runs
    ensures var x := After(Init(), steps).runs[e];
            var t := After(After(Init(), steps), more);
            && e in t.runs
            && (x.row.Some? && x.row.value.recorded.Some? ==>
                  t.runs[e].row.Some? && t.runs[e].row.value.recorded == x.row.value.recorded
                  && t.runs[e].wins == x.wins == [x.row.value.recorded.value])
            && (x.node == WorkflowRejected ==> t.runs[e].reviews == [])
            && (x.reviews != [] ==> t.runs[e].reviews == x.reviews)
            && (x.row.Some? && x.row.value.status == ExecutionFailed ==> t.runs[e].reviews == [])
  {
    Reached(steps);
    var s := After(Init(), steps);
    InterleavingsKeep(s, more);
    var t := After(s, more);
    assert RunOk(e, s.runs[e], s.nextToken) && RunOk(e, t.runs[e], t.nextToken);
    assert HistoryKept(s.runs[e], t.runs[e]);
    if s.runs[e].node == WorkflowRejected {
      assert t.runs[e].row.value.recorded.value.request.decision == Rejected;
    }
  }

  /** Executing a delivered approval that was accepted unmodified succeeds or replays, never refuses. */
  lemma UnmodifiedApprovalsAreNeverRefused(steps: seq<Step>, e: ExecutionId)
    requires Interleaving(Init(), steps)
    requires var s := After(Init(), steps);
             && e in s.runs && s.runs[e].executing
             && s.runs[e].row.Some? && s.runs[e].row.value.delivered
             && s.runs[e].row.value.recorded.Some?
             && s.runs[e].row.value.recorded.value.request.decision == Approved
    ensures var x := After(Init(), steps).runs[e];
            var done := ExecuteRow(x.row.value, x.reviews);
            && (done.outcome.Succeeded? || done.outcome.Replayed?)
            && |done.reviews| == 1
            && done.reviews[0].action == x.row.value.proposed
  {
    Reached(steps);
    var s := After(Init(), steps);
    ExecutionTransaction(e, s.runs[e], s.nextToken);
  }

  // ---------------------------------------------------------------- the decision

  /** Racing Managers: one decision at most is ever recorded, and it is the one that stays. */
  lemma OneManagerWins(steps: seq<Step>, e: ExecutionId)
    requires Interleaving(Init(), steps) && e in After(Init(), steps).runs
    ensures var x := After(Init(), steps).runs[e];
            && |x.wins| <= 1
            && (x.wins != [] ==> x.row.Some? && x.row.value.recorded == Some(x.wins[0]))
  {
    Reached(steps);
    assert RunOk(e, After(Init(), steps).runs[e], After(Init(), steps).nextToken);
  }

  /**
   A Manager whose pending read was overtaken stays too late: once any decision is recorded, then
   after any further steps a write based on an earlier read changes no run.
   */
  lemma LateManagersChangeNothing(steps: seq<Step>, more: seq<Step>, m: nat, request: DecisionRequest, e: ExecutionId)
    requires Interleaving(Init(), steps) && Interleaving(After(Init(), steps), more)
    requires HasRow(After(Init(), steps), e) && RowOf(After(Init(), steps), e).recorded.Some?
    requires var t := After(After(Init(), steps), more); Enabled(t, Decide(m, request)) && ManagerOf(t, m).e == e
    ensures var t := After(After(Init(), steps), more); Apply(t, Decide(m, request)).runs == t.runs
  {
    Reached(steps);
    var s := After(Init(), steps);
    InterleavingsKeep(s, more);
    var t := After(s, more);
    assert HistoryKept(s.runs[e], t.runs[e]);
    assert t.runs[e := DecidedRun(t.runs[e], Recorded(request, m, t.clock))] == t.runs;
  }

  // ---------------------------------------------------------------- the callback lease

  lemma MarkNeedsTheLease(s: Sys, w: nat, e: ExecutionId)
    requires Inv(s) && Enabled(s, Mark(w)) && HasRow(s, e) && HasRow(Apply(s, Mark(w)), e)
    requires !RowOf(s, e).delivered && RowOf(Apply(s, Mark(w)), e).delivered
    ensures WorkerOf(s, w).e == e && Holds(RowOf(s, e), WorkerOf(s, w).claimId)
    ensures RowOf(s, e).recorded.Some? && PayloadOf(RowOf(s, e)) in s.runs[e].sent
    ensures ClaimFreeExcept(s, w, WorkerOf(s, w).claimId)
  {
    assert RunOk(e, s.runs[e], s.nextToken);
    assert WorkerOk(s, WorkerOf(s, w));
    assert s.runs[e].sent[0] in s.runs[e].sent;
  }

  /**
   The delivery marker appears in one way only: a worker whose own send was accepted, and whose
   claim is the row's current lease and nobody else's, marks it.
   */
  lemma OnlyTheHolderMarksDelivery(steps: seq<Step>, st: Step, e: ExecutionId)
    requires Interleaving(Init(), steps) && Enabled(After(Init(), steps), st)
    requires var s := After(Init(), steps);
             HasRow(s, e) && !RowOf(s, e).delivered && HasRow(Apply(s, st), e) && RowOf(Apply(s, st), e).delivered
    ensures var s := After(Init(), steps);
            && st.Mark?
            && WorkerOf(s, st.w).Sent?
            && WorkerOf(s, st.w).e == e
            && Holds(RowOf(s, e), WorkerOf(s, st.w).claimId)
            && RowOf(s, e).recorded.Some?
            && PayloadOf(RowOf(s, e)) in s.runs[e].sent
            && ClaimFreeExcept(s, st.w, WorkerOf(s, st.w).claimId)
  {
    Reached(steps);
    var s := After(Init(), steps);
    if st.Mark? {
      MarkNeedsTheLease(s, st.w, e);
    } else {
      OthersLeaveTheMarker(s, st, e);
    }
  }

  /**
   A worker that lost its lease has lost it for good: once another worker's claim succeeds, then
   over any further interleaving a mark or release under any claim issued before, whoever presents
   it and whenever, changes no run.
   */
  lemma StaleWorkersChangeNothing(steps: seq<Step>, v: nat, e: ExecutionId, claimId: nat, more: seq<Step>, st: Step)
    requires Interleaving(Init(), steps) && Enabled(After(Init(), steps), Claim(v, e, claimId))
    requires WorkerOf(Apply(After(Init(), steps), Claim(v, e, claimId)), v).Claimed?
    requires Interleaving(Apply(After(Init(), steps), Claim(v, e, claimId)), more)
    requires var t := After(Apply(After(Init(), steps), Claim(v, e, claimId)), more);
             && Enabled(t, st) && (st.Mark? || st.Release?) && WorkerOf(t, st.w).e == e
             && WorkerOf(t, st.w).claimId in After(Init(), steps).claimIds
    ensures var t := After(Apply(After(Init(), steps), Claim(v, e, claimId)), more);
            Apply(t, st).runs == t.runs
  {
    Reached(steps);
    var s := After(Init(), steps);
    var s1 := Apply(s, Claim(v, e, claimId));
    StepKeeps(s, Claim(v, e, claimId));
    ClaimSupersedesOthers(s, v, e, claimId, WorkerOf(After(s1, more), st.w).claimId);
    SupersededStaysEmpty(s1, more, st);
  }

  /** Every payload ever sent for an approval is the same, and says what was decided. */
  lemma PayloadsNeverDiffer(steps: seq<Step>, e: ExecutionId, i: nat, j: nat)
    requires Interleaving(Init(), steps) && e in After(Init(), steps).runs
    requires i < |After(Init(), steps).runs[e].sent| && j < |After(Init(), steps).runs[e].sent|
    ensures var x := After(Init(), steps).runs[e];
            && x.sent[i] == x.sent[j]
            && x.row.Some? && x.row.value.recorded.Some?
            && x.sent[i] == PayloadOf(x.row.value)
            && x.token == Some(x.sent[i].token)
            && (x.resumed.Some? ==> x.resumed.value == x.sent[i])
  {
    Reached(steps);
    var x := After(Init(), steps).runs[e];
    assert RunOk(e, x, After(Init(), steps).nextToken);
    assert AllAre(x.sent, PayloadOf(x.row.value));
  }

  /** A lease is taken over only when it is more than the lease time old. */
  lemma LeasesAreRespected(steps: seq<Step>, w: nat, e: ExecutionId, claimId: nat)
    requires Interleaving(Init(), steps) && Enabled(After(Init(), steps), Claim(w, e, claimId))
    requires HasRow(After(Init(), steps), e) && RowOf(After(Init(), steps), e).lease.Some?
    requires WorkerOf(Apply(After(Init(), steps), Claim(w, e, claimId)), w).Claimed?
    ensures var s := After(Init(), steps);
            s.clock - RowOf(s, e).lease.value.claimedAt > 300
  {
    Reached(steps);
    var s := After(Init(), steps);
    assert WorkerOk(s, WorkerOf(s, w));
  }

  /** Wait the lease time, scan, claim, send, mark. */
  function TakeOver(s: Sys, w: nat, e: ExecutionId, claimId: nat): seq<Step> {
    [Tick(LEASE_SECONDS + 1), StartScan(w), Claim(w, e, claimId), Send(w, None, true), Mark(w)]
  }

  /** Waiting out the lease and starting a scan. */
  lemma WaitAndScan(s: Sys, w: nat)
    requires WorkerOf(s, w).Idle?
    ensures var s1 := Apply(s, Tick(LEASE_SECONDS + 1));
            && Enabled(s, Tick(LEASE_SECONDS + 1)) && Enabled(s1, StartScan(w))
            && var s2 := Apply(s1, StartScan(w));
               && s2.runs == s.runs && s2.claimIds == s.claimIds && s2.clock == s.clock + LEASE_SECONDS + 1
               && WorkerOf(s2, w) == Scanning(s.clock + 1)
  {
  }

  lemma ScanAndClaim(s: Sys, w: nat, e: ExecutionId, claimId: nat)
    requires WorkerOf(s, w).Scanning? && claimId !in s.claimIds
    requires HasRow(s, e) && Claimable(RowOf(s, e), WorkerOf(s, w).staleBefore)
    ensures Enabled(s, Claim(w, e, claimId))
    ensures var t := Apply(s, Claim(w, e, claimId));
            && t.runs == s.runs[e := s.runs[e].(row := Some(ClaimRow(RowOf(s, e), claimId, s.clock)))]
            && WorkerOf(t, w) == Claimed(WorkerOf(s, w).staleBefore, e, claimId, PayloadOf(RowOf(s, e)))
  {
  }

  lemma TakeOverClaims(s: Sys, w: nat, e: ExecutionId, claimId: nat)
    requires Inv(s) && HasRow(s, e) && RowOf(s, e).status == Decided && !RowOf(s, e).delivered
    requires WorkerOf(s, w).Idle? && claimId !in s.claimIds
    ensures RowOf(s, e).recorded.Some?
    ensures var r := TakeOver(s, w, e, claimId);
            && Enabled(s, r[0])
            && Enabled(Apply(s, r[0]), r[1])
            && Enabled(Apply(Apply(s, r[0]), r[1]), r[2])
            && var t := Apply(Apply(Apply(s, r[0]), r[1]), r[2]);
               && HasRow(t, e) && Holds(RowOf(t, e), claimId)
               && t.runs[e].sent == s.runs[e].sent
               && WorkerOf(t, w).Claimed? && WorkerOf(t, w).e == e && WorkerOf(t, w).claimId == claimId
               && WorkerOf(t, w).payload == PayloadOf(RowOf(s, e))
  {
    assert RunOk(e, s.runs[e], s.nextToken) && LeaseOk(s, RowOf(s, e));
    WaitAndScan(s, w);
    var s2 := Apply(Apply(s, Tick(LEASE_SECONDS + 1)), StartScan(w));
    ScanAndClaim(s2, w, e, claimId);
  }

  lemma SendAndMarkDeliver(s: Sys, w: nat, e: ExecutionId, claimId: nat)
    requires WorkerOf(s, w).Claimed? && WorkerOf(s, w).e == e && WorkerOf(s, w).claimId == claimId
    requires HasRow(s, e) && Holds(RowOf(s, e), claimId)
    ensures Enabled(s, Send(w, None, true))
    ensures Enabled(Apply(s, Send(w, None, true)), Mark(w))
    ensures var t := Apply(Apply(s, Send(w, None, true)), Mark(w));
            && HasRow(t, e) && RowOf(t, e).delivered
            && t.runs[e].sent == s.runs[e].sent + [WorkerOf(s, w).payload]
  {
  }

  /**
   No crash strands a decision: from every reachable state, once the lease time has passed, any
   idle recovery worker can claim a decided undelivered approval; if its send is then accepted,
   it marks the delivery.
   */
  lemma DecisionsStayRecoverable(steps: seq<Step>, w: nat, e: ExecutionId, claimId: nat)
    requires Interleaving(Init(), steps)
    requires var s := After(Init(), steps);
             && HasRow(s, e) && RowOf(s, e).status == Decided && !RowOf(s, e).delivered
             && WorkerOf(s, w).Idle? && claimId !in s.claimIds
    ensures var s := After(Init(), steps);
            var recovery := TakeOver(s, w, e, claimId);
            && Interleaving(s, recovery)
            && HasRow(After(s, recovery), e)
            && RowOf(After(s, recovery), e).delivered
            && RowOf(s, e).recorded.Some?
            && PayloadOf(RowOf(s, e)) in After(s, recovery).runs[e].sent
  {
    Reached(steps);
    var s := After(Init(), steps);
    var r := TakeOver(s, w, e, claimId);
    TakeOverClaims(s, w, e, claimId);
    SendAndMarkDeliver(Apply(Apply(Apply(s, r[0]), r[1]), r[2]), w, e, claimId);
    Unroll5(s, r);
  }

  lemma Unroll5(s: Sys, r: seq<Step>)
    requires |r| == 5
    requires Enabled(s, r[0])
    requires Enabled(Apply(s, r[0]), r[1])
    requires Enabled(Apply(Apply(s, r[0]), r[1]), r[2])
    requires Enabled(Apply(Apply(Apply(s, r[0]), r[1]), r[2]), r[3])
    requires Enabled(Apply(Apply(Apply(Apply(s, r[0]), r[1]), r[2]), r[3]), r[4])
    ensures Interleaving(s, r)
    ensures After(s, r) == Apply(Apply(Apply(Apply(Apply(s, r[0]), r[1]), r[2]), r[3]), r[4])
  {
    var s1 := Apply(s, r[0]);
    var s2 := Apply(s1, r[1]);
    var s3 := Apply(s2, r[2]);
    var s4 := Apply(s3, r[3]);
    var s5 := Apply(s4, r[4]);
    assert r[1..][1..] == r[2..] && r[2..][1..] == r[3..] && r[3..][1..] == r[4..] && r[4..][1..] == [];
    assert Interleaving(s5, []) && After(s5, []) == s5;
    assert r[4..][0] == r[4];
    assert Interleaving(s4, r[4..]) && After(s4, r[4..]) == s5;
    assert Interleaving(s3, r[3..]) && After(s3, r[3..]) == s5;
    assert Interleaving(s2, r[2..]) && After(s2, r[2..]) == s5;
    assert Interleaving(s1, r[1..]) && After(s1, r[1..]) == s5;
  }

  // ---------------------------------------------------------------- the end is reachable

  lemma {:induction false} Extend(s: Sys, steps: seq<Step>, st: Step)
    requires Interleaving(s, steps) && Enabled(After(s, steps), st)
    ensures Interleaving(s, steps + [st]) && After(s, steps + [st]) == Apply(After(s, steps), st)
    decreases |steps|
  {
    if steps == [] {
      assert (steps + [st])[1..] == [];
    } else {
      Extend(Apply(s, steps[0]), steps[1..], st);
      assert (steps + [st])[1..] == steps[1..] + [st];
    }
  }

  /** From the start to the human wait, with the approval created. */
  lemma ApprovalIsCreated(e: ExecutionId, evidence: seq<EvidenceReference>) returns (steps: seq<Step>)
    requires e.uuid.Some?
    ensures Interleaving(Init(), steps)
    ensures var s := After(Init(), steps);
            && s.runs.Keys == {e} && s.workers == map[] && s.managers == map[] && s.claimIds == {}
            && s.runs[e] == NewRun().(node := WaitForManagerApproval, token := Some(0), reviewerPassed := Some(true),
                                      row := Some(NewRow(e, evidence, 0)))
  {
    steps := ReviewPasses(e);
    var s := After(Init(), steps);
    assert BranchesOf(ReviewerDecision).value[1..] == [];
    Extend(Init(), steps, ChooseBranch(e));
    steps := steps + [ChooseBranch(e)];
    Extend(Init(), steps, CreateApproval(e, evidence));
    steps := steps + [CreateApproval(e, evidence)];
  }

  lemma ReviewPasses(e: ExecutionId) returns (steps: seq<Step>)
    ensures Interleaving(Init(), steps)
    ensures After(Init(), steps) ==
            Init().(runs := map[e := NewRun().(node := ReviewerDecision, reviewerPassed := Some(true))])
  {
    steps := [];
    Extend(Init(), steps, StartRun(e));
    steps := steps + [StartRun(e)];
    for k := 0 to 4
      invariant Interleaving(Init(), steps)
      invariant After(Init(), steps) == Init().(runs := map[e := NewRun().(node := ROAD[k])])
      invariant k < 4
    {
      if k == 3 {
        Extend(Init(), steps, TaskDone(e, true));
        steps := steps + [TaskDone(e, true)];
        return;
      }
      Extend(Init(), steps, TaskDone(e, true));
      steps := steps + [TaskDone(e, true)];
    }
  }

  /** A Manager reads the pending approval and decides it. */
  lemma ApprovalIsDecided(steps: seq<Step>, e: ExecutionId, m: nat, request: DecisionRequest)
    requires Interleaving(Init(), steps) && CheckRequest(request).Ok?
    requires HasRow(After(Init(), steps), e) && Decidable(RowOf(After(Init(), steps), e))
    ensures var next := steps + [ReadApproval(m, e)] + [Decide(m, request)];
            && Interleaving(Init(), next)
            && var s, t := After(Init(), steps), After(Init(), next);
               && t.runs == s.runs[e := DecidedRun(s.runs[e], Recorded(request, m, s.clock))]
               && t.workers == s.workers && t.claimIds == s.claimIds
  {
    Extend(Init(), steps, ReadApproval(m, e));
    Extend(Init(), steps + [ReadApproval(m, e)], Decide(m, request));
  }

  /** A recovery worker claims, resumes the waiting run, and marks the delivery. */
  lemma DecisionIsDelivered(steps: seq<Step>, e: ExecutionId, w: nat, claimId: nat)
    requires Interleaving(Init(), steps)
    requires var s := After(Init(), steps);
             && WorkerOf(s, w).Idle? && claimId !in s.claimIds
             && HasRow(s, e) && RowOf(s, e).lease.None? && Claimable(RowOf(s, e), s.clock)
             && s.runs[e].node == WaitForManagerApproval && s.runs[e].token == Some(RowOf(s, e).token)
    ensures var next := steps + [StartScan(w)] + [Claim(w, e, claimId)] + [Send(w, Some(e), true)] + [Mark(w)];
            && Interleaving(Init(), next)
            && var s, t := After(Init(), steps), After(Init(), next);
               var payload := PayloadOf(RowOf(s, e));
               && HasRow(t, e) && RowOf(t, e).delivered
               && RowOf(t, e).(lease := None, attempts := 0, delivered := false) ==
                  RowOf(s, e).(lease := None, attempts := 0, delivered := false)
               && t.runs[e].node == ApprovalDecision && t.runs[e].resumed == Some(payload)
               && t.runs[e].reviews == s.runs[e].reviews
               && t.runs[e].reviewerPassed == s.runs[e].reviewerPassed && t.runs[e].executing == s.runs[e].executing
  {
    var s := After(Init(), steps);
    Extend(Init(), steps, StartScan(w));
    var s1 := Apply(s, StartScan(w));
    ScanAndClaim(s1, w, e, claimId);
    Extend(Init(), steps + [StartScan(w)], Claim(w, e, claimId));
    var s2 := Apply(s1, Claim(w, e, claimId));
    SendResumes(s2, w, e);
    Extend(Init(), steps + [StartScan(w)] + [Claim(w, e, claimId)], Send(w, Some(e), true));
    Extend(Init(), steps + [StartScan(w)] + [Claim(w, e, claimId)] + [Send(w, Some(e), true)], Mark(w));
  }

  lemma SendResumes(s: Sys, w: nat, e: ExecutionId)
    requires WorkerOf(s, w).Claimed? && WorkerOf(s, w).e == e && HasRow(s, e)
    requires Holds(RowOf(s, e), WorkerOf(s, w).claimId)
    requires s.runs[e].node == WaitForManagerApproval && s.runs[e].token == Some(WorkerOf(s, w).payload.token)
    ensures Enabled(s, Send(w, Some(e), true))
    ensures var t := Apply(s, Send(w, Some(e), true));
            && Enabled(t, Mark(w)) && WorkerOf(t, w).claimId == WorkerOf(s, w).claimId && WorkerOf(t, w).e == e
            && HasRow(t, e) && RowOf(t, e) == RowOf(s, e)
            && t.runs[e] == Resumed(s.runs[e].(sent := s.runs[e].sent + [WorkerOf(s, w).payload]), WorkerOf(s, w).payload)
  {
  }

  /**
   The protected end is not empty: for every workflow with a UUID and every evidence, some
   interleaving runs it to its end, with its proposed action executed.
   */
  lemma ExecutionIsReachable(e: ExecutionId, evidence: seq<EvidenceReference>) returns (steps: seq<Step>)
    requires e.uuid.Some?
    ensures Interleaving(Init(), steps) && e in After(Init(), steps).runs
    ensures var x := After(Init(), steps).runs[e];
            x.node == WorkflowExecuted && |x.reviews| == 1 && x.reviews[0].action == RecommendedAction(e.uuid.value)
  {
    var request := DecisionRequest(Approved, None, None, None);
    var created := ApprovalIsCreated(e, evidence);
    ApprovalIsDecided(created, e, 0, request);
    var decided := created + [ReadApproval(0, e)] + [Decide(0, request)];
    DecisionIsDelivered(decided, e, 0, 0);
    var delivered := decided + [StartScan(0)] + [Claim(0, e, 0)] + [Send(0, Some(e), true)] + [Mark(0)];
    ApprovedRunExecutes(delivered, e);
    steps := delivered + [ChooseBranch(e)] + [Execute(e, true)];
  }

  lemma ApprovedRunExecutes(steps: seq<Step>, e: ExecutionId)
    requires Interleaving(Init(), steps)
    requires var s := After(Init(), steps);
             && HasRow(s, e) && RowOf(s, e).delivered && RowOf(s, e).status == Decided
             && RowOf(s, e).recorded.Some? && RowOf(s, e).recorded.value.request.decision == Approved
             && s.runs[e].node == ApprovalDecision && s.runs[e].reviews == []
    ensures var next := steps + [ChooseBranch(e)] + [Execute(e, true)];
            && Interleaving(Init(), next) && e in After(Init(), next).runs
            && var x := After(Init(), next).runs[e];
               && x.node == WorkflowExecuted && |x.reviews| == 1
               && e.uuid.Some? && x.reviews[0].action == RecommendedAction(e.uuid.value)
  {
    Reached(steps);
    var s := After(Init(), steps);
    assert RunOk(e, s.runs[e], s.nextToken);
    BranchToAction(s, e);
    Extend(Init(), steps, ChooseBranch(e));
    var s1 := Apply(s, ChooseBranch(e));
    Reached(steps + [ChooseBranch(e)]);
    ExecutionTransaction(e, s1.runs[e], s1.nextToken);
    Extend(Init(), steps + [ChooseBranch(e)], Execute(e, true));
  }

  lemma BranchToAction(s: Sys, e: ExecutionId)
    requires e in s.runs && s.runs[e].node == ApprovalDecision
    requires s.runs[e].resumed.Some? && s.runs[e].resumed.value.decision == Approved
    ensures Enabled(s, ChooseBranch(e))
    ensures Apply(s, ChooseBranch(e)).runs[e] == s.runs[e].(node := ExecuteApprovedAction, executing := true)
  {
    var branches := BranchesOf(ApprovalDecision).value;
    assert branches[1..] == [branches[1]];
  }
}
