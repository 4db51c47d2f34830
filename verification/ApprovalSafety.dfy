/** The protocol's invariant is kept by every step of every interleaving, and what follows. */
module ApprovalSafety {
  import opened Common
  import opened ApprovalModel
  import opened ApprovalStore
  import opened WorkflowGraph
  import opened ApprovalProtocol

  // ---------------------------------------------------------------- history only grows

  ghost predicate RowExtends(a: Row, b: Row) {
    && b.execution == a.execution && b.proposed == a.proposed && b.evidence == a.evidence && b.token == a.token
    && (a.recorded.Some? ==> b.recorded == a.recorded)
    && (a.delivered ==> b.delivered)
    && (b.status == a.status || AllowedTransition(a.status, b.status))
  }

  /** What one step may change in a run: everything already decided, sent or done stays. */
  ghost predicate Extends(a: Run, b: Run) {
    && (a.token.Some? ==> b.token == a.token)
    && (a.row.Some? ==> b.row.Some? && RowExtends(a.row.value, b.row.value))
    && (a.resumed.Some? ==> b.resumed == a.resumed)
    && (a.executing ==> b.executing)
    && a.reviews <= b.reviews && a.sent <= b.sent && a.wins <= b.wins
  }

  ghost predicate SysExtends(s: Sys, t: Sys) {
    && s.clock <= t.clock
    && forall e :: e in s.runs ==> e in t.runs && Extends(s.runs[e], t.runs[e])
  }

  // ---------------------------------------------------------------- steps on one run

  lemma FinishTaskOk(e: ExecutionId, x: Run, passed: bool, n: nat)
    requires RunOk(e, x, n)
    requires x.node in {NormalizeWorkflowInput, ResearchAgent, RiskAgent, ReviewerAgent}
    ensures RunOk(e, FinishTask(x, passed), n) && Extends(x, FinishTask(x, passed))
  {
  }

  lemma FailTaskOk(e: ExecutionId, x: Run, n: nat)
    requires RunOk(e, x, n) && IsTask(x.node)
    ensures RunOk(e, FailTask(x), n) && Extends(x, FailTask(x))
  {
  }

  /** What a branch may do to a run: keep its row, and keep its token or take the next one. */
  ghost predicate MovesOn(e: ExecutionId, x: Run, y: Run, n: nat) {
    && RunOk(e, y, n + 1) && Extends(x, y) && y.row == x.row
    && (y.token == x.token || y.token == Some(n))
  }

  lemma BranchedOk(e: ExecutionId, x: Run, n: nat)
    requires RunOk(e, x, n) && x.node in {ReviewerDecision, ApprovalDecision}
    ensures MovesOn(e, x, Branched(x, n), n)
  {
    var branches := BranchesOf(x.node).value;
    assert branches[1..] == [] || (branches[1..] == [branches[1]] && branches[1..][1..] == []);
  }

  lemma CreatedOk(e: ExecutionId, x: Run, evidence: seq<EvidenceReference>, n: nat)
    requires RunOk(e, x, n) && x.token.Some? && e.uuid.Some?
    ensures RunOk(e, Created(x, e, evidence), n) && Extends(x, Created(x, e, evidence))
  {
  }

  lemma DecidedOk(e: ExecutionId, x: Run, recorded: Recorded, n: nat)
    requires RunOk(e, x, n) && CheckRequest(recorded.request).Ok?
    ensures RunOk(e, DecidedRun(x, recorded), n) && Extends(x, DecidedRun(x, recorded))
  {
  }

  ghost predicate LeaseOnly(a: Row, b: Row) {
    b == a.(lease := b.lease, attempts := b.attempts)
  }

  lemma LeaseChangeOk(e: ExecutionId, x: Run, row: Row, n: nat)
    requires RunOk(e, x, n) && x.row.Some? && LeaseOnly(x.row.value, row)
    requires row.lease.Some? ==> row.status == Decided && !row.delivered
    ensures RunOk(e, x.(row := Some(row)), n) && Extends(x, x.(row := Some(row)))
  {
    if row.recorded.Some? {
      assert PayloadOf(row) == PayloadOf(x.row.value);
    }
  }

  lemma MarkedOk(e: ExecutionId, x: Run, claimId: nat, n: nat)
    requires RunOk(e, x, n) && x.row.Some? && x.sent != []
    ensures RunOk(e, x.(row := Some(MarkRow(x.row.value, claimId))), n)
    ensures Extends(x, x.(row := Some(MarkRow(x.row.value, claimId))))
  {
    var row := MarkRow(x.row.value, claimId);
    if row.recorded.Some? {
      assert PayloadOf(row) == PayloadOf(x.row.value);
    }
  }

  lemma SentOk(e: ExecutionId, x: Run, payload: Payload, n: nat)
    requires RunOk(e, x, n) && x.row.Some? && x.row.value.recorded.Some? && payload == PayloadOf(x.row.value)
    ensures RunOk(e, x.(sent := x.sent + [payload]), n) && Extends(x, x.(sent := x.sent + [payload]))
  {
  }

  lemma ResumedOk(e: ExecutionId, x: Run, payload: Payload, n: nat)
    requires RunOk(e, x, n) && x.node == WaitForManagerApproval
    requires x.row.Some? && x.row.value.recorded.Some? && payload == PayloadOf(x.row.value)
    ensures RunOk(e, Resumed(x, payload), n) && Extends(x, Resumed(x, payload))
  {
  }

  /**
   The execution transaction in a reachable row: it inserts at most one review, the one the
   projection names; the reconciliation and inconsistency branches are never taken, and a
   decision accepted unmodified is never refused.
   */
  lemma ExecutionTransaction(e: ExecutionId, x: Run, n: nat)
    requires RunOk(e, x, n) && x.executing
    ensures x.row.Some? && x.row.value.recorded.Some?
    ensures var row := x.row.value;
            var done := ExecuteRow(row, x.reviews);
            && RowOk(done.row)
            && LeaseOnly(row, done.row.(status := row.status, executionKey := row.executionKey,
                                        errorCode := row.errorCode))
            && done.row.lease == row.lease
            && (done.row.status == row.status || AllowedTransition(row.status, done.row.status))
            && !done.outcome.Inconsistent? && !done.outcome.NotDecidedYet? && !done.outcome.Skipped?
            && (done.outcome.NotDelivered? <==> !row.delivered)
            && (done.outcome.NotDelivered? ==> done.row == row)
            && (done.outcome.Succeeded? || done.outcome.Replayed? <==>
                row.delivered && done.row.status == ExecutionSucceeded)
            && done.reviews == (if done.row.status == ExecutionSucceeded then [ReviewOf(row)] else [])
            && (row.recorded.value.request.decision == Approved && row.delivered ==> done.row.status == ExecutionSucceeded)
  {
    var row := x.row.value;
    PolicyAcceptsOnlySummaryEdits(e, row.recorded.value.request);
    assert x.reviews == [] || x.reviews == [ReviewOf(row)];
    if row.status == Decided {
      assert !KnowsReview(x.reviews, row.execution);
    }
  }

  lemma ExecutedOk(e: ExecutionId, x: Run, reported: bool, n: nat)
    requires RunOk(e, x, n) && x.executing && (reported ==> x.node == ExecuteApprovedAction)
    ensures x.row.Some? && RunOk(e, ExecutedRun(x, reported), n) && Extends(x, ExecutedRun(x, reported))
    ensures ExecutedRun(x, reported).row.value.lease == x.row.value.lease
  {
    ExecutionTransaction(e, x, n);
    var y := ExecutedRun(x, reported);
    assert PayloadOf(y.row.value) == PayloadOf(x.row.value);
    assert y.row.value.status == ExecutionSucceeded ==> ReviewOf(y.row.value) == ReviewOf(x.row.value);
  }

  // ---------------------------------------------------------------- lifting to the system

  lemma PutRunKeeps(s: Sys, e: ExecutionId, x: Run, n: nat)
    requires Inv(s) && n >= s.nextToken
    requires RunOk(e, x, n)
    requires e in s.runs ==> Extends(s.runs[e], x)
    requires x.token.Some? ==> (e in s.runs && s.runs[e].token == x.token) || x.token.value >= s.nextToken
    requires x.row.Some? ==> LeaseOk(s, x.row.value)
    ensures var t := PutRun(s, e, x).(nextToken := n); Inv(t) && SysExtends(s, t)
  {
    PutRunKeepsRuns(s, e, x, n);
    PutRunKeepsLeases(s, e, x, n);
    PutRunKeepsWorkers(s, e, x, n);
    PutRunKeepsTokens(s, e, x, n);
  }

  lemma PutRunKeepsRuns(s: Sys, e: ExecutionId, x: Run, n: nat)
    requires Inv(s) && n >= s.nextToken && RunOk(e, x, n) && (e in s.runs ==> Extends(s.runs[e], x))
    ensures var t := PutRun(s, e, x).(nextToken := n);
            (forall d :: d in t.runs ==> RunOk(d, t.runs[d], n)) && SysExtends(s, t)
  {
    var t := PutRun(s, e, x).(nextToken := n);
    forall d | d in t.runs ensures RunOk(d, t.runs[d], n) {
      if d != e {
        LaterTokensAreFine(d, s.runs[d], s.nextToken, n);
      }
    }
  }

  lemma LaterTokensAreFine(e: ExecutionId, x: Run, m: nat, n: nat)
    requires RunOk(e, x, m) && m <= n
    ensures RunOk(e, x, n)
  {
  }

  lemma PutRunKeepsLeases(s: Sys, e: ExecutionId, x: Run, n: nat)
    requires Inv(s) && (x.row.Some? ==> LeaseOk(s, x.row.value))
    ensures var t := PutRun(s, e, x).(nextToken := n);
            forall d :: HasRow(t, d) ==> LeaseOk(t, RowOf(t, d))
  {
    var t := PutRun(s, e, x).(nextToken := n);
    forall d | HasRow(t, d) ensures LeaseOk(t, RowOf(t, d)) {
      if d != e {
        assert HasRow(s, d);
      }
    }
  }

  lemma PutRunKeepsWorkers(s: Sys, e: ExecutionId, x: Run, n: nat)
    requires Inv(s) && (e in s.runs ==> Extends(s.runs[e], x))
    ensures var t := PutRun(s, e, x).(nextToken := n);
            forall w :: w in t.workers ==> WorkerOk(t, t.workers[w])
  {
    var t := PutRun(s, e, x).(nextToken := n);
    forall w | w in t.workers ensures WorkerOk(t, t.workers[w]) {
      assert WorkerOk(s, s.workers[w]);
    }
  }

  lemma PutRunKeepsTokens(s: Sys, e: ExecutionId, x: Run, n: nat)
    requires Inv(s)
    requires x.token.Some? ==> (e in s.runs && s.runs[e].token == x.token) || x.token.value >= s.nextToken
    ensures TokensUnique(PutRun(s, e, x).(nextToken := n))
  {
    forall d | d in s.runs && s.runs[d].token.Some? ensures s.runs[d].token.value < s.nextToken {
      assert RunOk(d, s.runs[d], s.nextToken);
    }
  }

  ghost predicate ClaimFreeExcept(s: Sys, w: nat, claimId: nat) {
    forall v :: v in s.workers && v != w && Busy(s.workers[v]) ==> s.workers[v].claimId != claimId
  }

  /** A worker that moves on, holding either no claim or one no other worker holds. */
  lemma PutWorkerKeeps(s: Sys, w: nat, pc: Worker)
    requires Inv(s) && WorkerOk(s, pc)
    requires Busy(pc) ==> ClaimFreeExcept(s, w, pc.claimId)
    ensures Inv(PutWorker(s, w, pc)) && SysExtends(s, PutWorker(s, w, pc))
  {
    var t := PutWorker(s, w, pc);
    forall v | v in t.workers ensures WorkerOk(t, t.workers[v]) {
      if v != w {
        assert WorkerOk(s, s.workers[v]);
      }
    }
    forall d | HasRow(t, d) ensures LeaseOk(t, RowOf(t, d)) {
      assert HasRow(s, d);
    }
  }

  lemma TickKeeps(s: Sys, n: nat)
    requires Inv(s)
    ensures Inv(s.(clock := s.clock + n)) && SysExtends(s, s.(clock := s.clock + n))
  {
    var t := s.(clock := s.clock + n);
    forall d | HasRow(t, d) ensures LeaseOk(t, RowOf(t, d)) {
      assert HasRow(s, d);
    }
    forall w | w in t.workers ensures WorkerOk(t, t.workers[w]) {
      assert WorkerOk(s, s.workers[w]);
    }
  }

  lemma ManagersDoNotMatter(s: Sys, managers: map<nat, Manager>)
    requires Inv(s)
    ensures Inv(s.(managers := managers)) && SysExtends(s, s.(managers := managers))
  {
    var t := s.(managers := managers);
    forall d | HasRow(t, d) ensures LeaseOk(t, RowOf(t, d)) {
      assert HasRow(s, d);
    }
    forall w | w in t.workers ensures WorkerOk(t, t.workers[w]) {
      assert WorkerOk(s, s.workers[w]);
    }
  }

  lemma FreshClaimIdKeeps(s: Sys, claimId: nat)
    requires Inv(s)
    ensures Inv(s.(claimIds := s.claimIds + {claimId}))
  {
    var t := s.(claimIds := s.claimIds + {claimId});
    forall d | HasRow(t, d) ensures LeaseOk(t, RowOf(t, d)) {
      assert HasRow(s, d);
    }
    forall w | w in t.workers ensures WorkerOk(t, t.workers[w]) {
      assert WorkerOk(s, s.workers[w]);
    }
  }

  lemma ClaimInTwoParts(s: Sys, w: nat, e: ExecutionId, claimId: nat)
    requires Enabled(s, Claim(w, e, claimId)) && HasRow(s, e) && Claimable(RowOf(s, e), WorkerOf(s, w).staleBefore)
    ensures Apply(s, Claim(w, e, claimId)) ==
            PutWorker(
              PutRun(s.(claimIds := s.claimIds + {claimId}), e,
                     s.runs[e].(row := Some(ClaimRow(RowOf(s, e), claimId, s.clock)))),
              w, Claimed(WorkerOf(s, w).staleBefore, e, claimId, PayloadOf(RowOf(s, e))))
  {
  }

  lemma LeasedRunKeeps(s: Sys, e: ExecutionId, claimId: nat)
    requires Inv(s) && claimId in s.claimIds && HasRow(s, e)
    requires RowOf(s, e).status == Decided && !RowOf(s, e).delivered
    ensures var t := PutRun(s, e, s.runs[e].(row := Some(ClaimRow(RowOf(s, e), claimId, s.clock))));
            Inv(t) && SysExtends(s, t)
  {
    var row := ClaimRow(RowOf(s, e), claimId, s.clock);
    LeaseChangeOk(e, s.runs[e], row, s.nextToken);
    PutRunKeeps(s, e, s.runs[e].(row := Some(row)), s.nextToken);
  }

  lemma ClaimKeeps(s: Sys, w: nat, e: ExecutionId, claimId: nat)
    requires Inv(s) && Enabled(s, Claim(w, e, claimId))
    ensures Inv(Apply(s, Claim(w, e, claimId))) && SysExtends(s, Apply(s, Claim(w, e, claimId)))
  {
    var sb := WorkerOf(s, w).staleBefore;
    var s1 := s.(claimIds := s.claimIds + {claimId});
    FreshClaimIdKeeps(s, claimId);
    if HasRow(s, e) && Claimable(RowOf(s, e), sb) {
      ClaimInTwoParts(s, w, e, claimId);
      LeasedRunKeeps(s1, e, claimId);
      var t := PutRun(s1, e, s.runs[e].(row := Some(ClaimRow(RowOf(s, e), claimId, s.clock))));
      assert WorkerOk(s, WorkerOf(s, w));
      ClaimIdsWereFree(s, claimId);
      NewClaimKeeps(t, w, Claimed(sb, e, claimId, PayloadOf(RowOf(s, e))));
    }
  }

  lemma ClaimIdsWereFree(s: Sys, claimId: nat)
    requires Inv(s) && claimId !in s.claimIds
    ensures forall v :: v in s.workers && Busy(s.workers[v]) ==> s.workers[v].claimId != claimId
  {
    forall v | v in s.workers && Busy(s.workers[v]) ensures s.workers[v].claimId != claimId {
      assert WorkerOk(s, s.workers[v]);
    }
  }

  lemma NewClaimKeeps(t: Sys, w: nat, pc: Worker)
    requires Inv(t) && pc.Claimed? && pc.staleBefore + LEASE_SECONDS <= t.clock
    requires pc.claimId in t.claimIds && HasRow(t, pc.e) && RowOf(t, pc.e).recorded.Some?
    requires pc.payload == PayloadOf(RowOf(t, pc.e))
    requires forall v :: v in t.workers && Busy(t.workers[v]) ==> t.workers[v].claimId != pc.claimId
    ensures Inv(PutWorker(t, w, pc)) && SysExtends(t, PutWorker(t, w, pc))
  {
    PutWorkerKeeps(t, w, pc);
  }

  /** The run a delivered token resumes is the very run whose approval carried it. */
  lemma TokenFindsItsRun(s: Sys, w: nat, target: ExecutionId)
    requires Inv(s) && WorkerOf(s, w).Claimed?
    requires target in s.runs && s.runs[target].token == Some(WorkerOf(s, w).payload.token)
    ensures target == WorkerOf(s, w).e
  {
    var pc := WorkerOf(s, w);
    assert WorkerOk(s, pc);
    assert RunOk(pc.e, s.runs[pc.e], s.nextToken);
  }

  function AfterSend(s: Sys, w: nat, resumed: bool): Sys
    requires WorkerOf(s, w).Claimed? && HasRow(s, WorkerOf(s, w).e)
  {
    var pc := WorkerOf(s, w);
    var y := s.runs[pc.e].(sent := s.runs[pc.e].sent + [pc.payload]);
    PutRun(s, pc.e, if resumed then Resumed(y, pc.payload) else y)
  }

  lemma AfterSendKeeps(s: Sys, w: nat, resumed: bool)
    requires Inv(s) && WorkerOf(s, w).Claimed? && HasRow(s, WorkerOf(s, w).e)
    requires resumed ==> s.runs[WorkerOf(s, w).e].node == WaitForManagerApproval
    ensures Inv(AfterSend(s, w, resumed)) && SysExtends(s, AfterSend(s, w, resumed))
  {
    var pc := WorkerOf(s, w);
    assert WorkerOk(s, pc);
    assert LeaseOk(s, RowOf(s, pc.e));
    var x := s.runs[pc.e];
    var y := x.(sent := x.sent + [pc.payload]);
    SentOk(pc.e, x, pc.payload, s.nextToken);
    if resumed {
      ResumedOk(pc.e, y, pc.payload, s.nextToken);
      PutRunKeeps(s, pc.e, Resumed(y, pc.payload), s.nextToken);
    } else {
      PutRunKeeps(s, pc.e, y, s.nextToken);
    }
  }

  function AfterReply(pc: Worker, replyOk: bool): Worker
    requires pc.Claimed?
  {
    if replyOk then Sent(pc.staleBefore, pc.e, pc.claimId) else SendRefused(pc.staleBefore, pc.e, pc.claimId)
  }

  lemma SendInTwoParts(s: Sys, w: nat, resumes: Option<ExecutionId>, replyOk: bool)
    requires Enabled(s, Send(w, resumes, replyOk)) && HasRow(s, WorkerOf(s, w).e)
    requires resumes.Some? ==> resumes.value == WorkerOf(s, w).e
    ensures Apply(s, Send(w, resumes, replyOk)) ==
            PutWorker(AfterSend(s, w, resumes.Some?), w, AfterReply(WorkerOf(s, w), replyOk))
  {
    var pc := WorkerOf(s, w);
    var y := s.runs[pc.e].(sent := s.runs[pc.e].sent + [pc.payload]);
    assert s.runs[pc.e := y][pc.e := Resumed(y, pc.payload)] == s.runs[pc.e := Resumed(y, pc.payload)];
  }

  lemma SendKeeps(s: Sys, w: nat, resumes: Option<ExecutionId>, replyOk: bool)
    requires Inv(s) && Enabled(s, Send(w, resumes, replyOk))
    ensures Inv(Apply(s, Send(w, resumes, replyOk))) && SysExtends(s, Apply(s, Send(w, resumes, replyOk)))
  {
    var pc := WorkerOf(s, w);
    assert WorkerOk(s, pc);
    if resumes.Some? {
      TokenFindsItsRun(s, w, resumes.value);
    }
    SendInTwoParts(s, w, resumes, replyOk);
    AfterSendKeeps(s, w, resumes.Some?);
    ReplyKeeps(s, AfterSend(s, w, resumes.Some?), w, replyOk);
  }

  lemma ReplyKeeps(s: Sys, t: Sys, w: nat, replyOk: bool)
    requires Inv(s) && Inv(t) && SysExtends(s, t) && t.workers == s.workers && t.claimIds == s.claimIds
    requires WorkerOf(s, w).Claimed? && WorkerOf(s, w).e in t.runs && t.runs[WorkerOf(s, w).e].sent != []
    ensures var u := PutWorker(t, w, AfterReply(WorkerOf(s, w), replyOk)); Inv(u) && SysExtends(s, u)
  {
    assert WorkerOk(t, WorkerOf(t, w));
    PutWorkerKeeps(t, w, AfterReply(WorkerOf(s, w), replyOk));
  }

  lemma MarkKeeps(s: Sys, w: nat)
    requires Inv(s) && Enabled(s, Mark(w))
    ensures Inv(Apply(s, Mark(w))) && SysExtends(s, Apply(s, Mark(w)))
  {
    var pc := WorkerOf(s, w);
    assert WorkerOk(s, pc);
    var x := s.runs[pc.e];
    MarkedOk(pc.e, x, pc.claimId, s.nextToken);
    var row := MarkRow(x.row.value, pc.claimId);
    assert LeaseOk(s, RowOf(s, pc.e));
    PutRunKeeps(s, pc.e, x.(row := Some(row)), s.nextToken);
    PutWorkerKeeps(PutRun(s, pc.e, x.(row := Some(row))), w, Scanning(pc.staleBefore));
  }

  lemma ReleasedRunKeeps(s: Sys, e: ExecutionId, claimId: nat)
    requires Inv(s) && HasRow(s, e)
    ensures var t := PutRun(s, e, s.runs[e].(row := Some(ReleaseRow(RowOf(s, e), claimId))));
            Inv(t) && SysExtends(s, t)
  {
    var x := s.runs[e];
    var row := ReleaseRow(RowOf(s, e), claimId);
    assert LeaseOk(s, RowOf(s, e));
    LeaseChangeOk(e, x, row, s.nextToken);
    PutRunKeeps(s, e, x.(row := Some(row)), s.nextToken);
  }

  lemma ReleaseKeeps(s: Sys, w: nat)
    requires Inv(s) && Enabled(s, Release(w))
    ensures Inv(Apply(s, Release(w))) && SysExtends(s, Apply(s, Release(w)))
  {
    var pc := WorkerOf(s, w);
    assert WorkerOk(s, pc);
    ReleasedRunKeeps(s, pc.e, pc.claimId);
    PutWorkerKeeps(PutRun(s, pc.e, s.runs[pc.e].(row := Some(ReleaseRow(RowOf(s, pc.e), pc.claimId)))),
                   w, Scanning(pc.staleBefore));
  }

  lemma DecideKeeps(s: Sys, m: nat, request: DecisionRequest)
    requires Inv(s) && Enabled(s, Decide(m, request))
    ensures Inv(Apply(s, Decide(m, request))) && SysExtends(s, Apply(s, Decide(m, request)))
  {
    var e := ManagerOf(s, m).e;
    var managers := s.managers[m := Looking];
    ManagersDoNotMatter(s, managers);
    var s1 := s.(managers := managers);
    if e in s.runs {
      DecidedOk(e, s.runs[e], Recorded(request, m, s.clock), s.nextToken);
      if HasRow(s, e) {
        assert LeaseOk(s, RowOf(s, e));
      }
      PutRunKeeps(s1, e, DecidedRun(s.runs[e], Recorded(request, m, s.clock)), s.nextToken);
    }
  }

  lemma TaskDoneKeeps(s: Sys, e: ExecutionId, passed: bool)
    requires Inv(s) && Enabled(s, TaskDone(e, passed))
    ensures Inv(Apply(s, TaskDone(e, passed))) && SysExtends(s, Apply(s, TaskDone(e, passed)))
  {
    FinishTaskOk(e, s.runs[e], passed, s.nextToken);
    PutRunKeeps(s, e, FinishTask(s.runs[e], passed), s.nextToken);
  }

  lemma TaskFailedKeeps(s: Sys, e: ExecutionId)
    requires Inv(s) && Enabled(s, TaskFailed(e))
    ensures Inv(Apply(s, TaskFailed(e))) && SysExtends(s, Apply(s, TaskFailed(e)))
  {
    assert HasRow(s, e) ==> LeaseOk(s, RowOf(s, e));
    FailTaskOk(e, s.runs[e], s.nextToken);
    PutRunKeeps(s, e, FailTask(s.runs[e]), s.nextToken);
  }

  lemma ChooseBranchKeeps(s: Sys, e: ExecutionId)
    requires Inv(s) && Enabled(s, ChooseBranch(e))
    ensures Inv(Apply(s, ChooseBranch(e))) && SysExtends(s, Apply(s, ChooseBranch(e)))
  {
    BranchedRunKeeps(s, e);
    ChooseBranchPutsTheRun(s, e);
  }

  lemma ChooseBranchPutsTheRun(s: Sys, e: ExecutionId)
    requires Enabled(s, ChooseBranch(e))
    ensures Apply(s, ChooseBranch(e)) ==
            PutRun(s, e, Branched(s.runs[e], s.nextToken)).(nextToken := s.nextToken + 1)
  {
  }

  lemma BranchedRunKeeps(s: Sys, e: ExecutionId)
    requires Inv(s) && e in s.runs && s.runs[e].node in {ReviewerDecision, ApprovalDecision}
    ensures var t := PutRun(s, e, Branched(s.runs[e], s.nextToken)).(nextToken := s.nextToken + 1);
            Inv(t) && SysExtends(s, t)
  {
    BranchedOk(e, s.runs[e], s.nextToken);
    MovedRunKeeps(s, e, Branched(s.runs[e], s.nextToken));
  }

  lemma MovedRunKeeps(s: Sys, e: ExecutionId, y: Run)
    requires Inv(s) && e in s.runs && MovesOn(e, s.runs[e], y, s.nextToken)
    ensures var t := PutRun(s, e, y).(nextToken := s.nextToken + 1); Inv(t) && SysExtends(s, t)
  {
    if HasRow(s, e) {
      assert LeaseOk(s, RowOf(s, e));
    }
    PutRunKeeps(s, e, y, s.nextToken + 1);
  }

  lemma CreateApprovalKeeps(s: Sys, e: ExecutionId, evidence: seq<EvidenceReference>)
    requires Inv(s) && Enabled(s, CreateApproval(e, evidence))
    ensures Inv(Apply(s, CreateApproval(e, evidence))) && SysExtends(s, Apply(s, CreateApproval(e, evidence)))
  {
    assert HasRow(s, e) ==> LeaseOk(s, RowOf(s, e));
    CreatedOk(e, s.runs[e], evidence, s.nextToken);
    PutRunKeeps(s, e, Created(s.runs[e], e, evidence), s.nextToken);
  }

  lemma ExecuteKeeps(s: Sys, e: ExecutionId, reported: bool)
    requires Inv(s) && Enabled(s, Execute(e, reported))
    ensures Inv(Apply(s, Execute(e, reported))) && SysExtends(s, Apply(s, Execute(e, reported)))
  {
    ExecutedOk(e, s.runs[e], reported, s.nextToken);
    assert LeaseOk(s, RowOf(s, e));
    PutRunKeeps(s, e, ExecutedRun(s.runs[e], reported), s.nextToken);
  }

  lemma ScanOrCrashKeeps(s: Sys, st: Step)
    requires Inv(s) && Enabled(s, st) && (st.StartScan? || st.Crash?)
    ensures Inv(Apply(s, st)) && SysExtends(s, Apply(s, st))
  {
    PutWorkerKeeps(s, st.w, if st.Crash? then Idle else Scanning(s.clock - LEASE_SECONDS));
  }

  lemma WorkerStepKeeps(s: Sys, st: Step)
    requires Inv(s) && Enabled(s, st)
    requires st.StartScan? || st.Claim? || st.Send? || st.Mark? || st.Release? || st.Crash?
    ensures Inv(Apply(s, st)) && SysExtends(s, Apply(s, st))
  {
    if st.StartScan? || st.Crash? {
      ScanOrCrashKeeps(s, st);
    } else {
      match st
      case Claim(w, e, claimId) => ClaimKeeps(s, w, e, claimId);
      case Send(w, resumes, replyOk) => SendKeeps(s, w, resumes, replyOk);
      case Mark(w) => MarkKeeps(s, w);
      case Release(w) => ReleaseKeeps(s, w);
    }
  }

  lemma ManagerStepKeeps(s: Sys, st: Step)
    requires Inv(s) && Enabled(s, st)
    requires st.Tick? || st.ReadApproval? || st.Decide?
    ensures Inv(Apply(s, st)) && SysExtends(s, Apply(s, st))
  {
    match st
    case Tick(n) => TickKeeps(s, n);
    case ReadApproval(m, e) => ManagersDoNotMatter(s, Apply(s, st).managers);
    case Decide(m, request) => DecideKeeps(s, m, request);
  }

  lemma WorkflowStepKeeps(s: Sys, st: Step)
    requires Inv(s) && Enabled(s, st)
    requires st.StartRun? || st.TaskDone? || st.TaskFailed? || st.ChooseBranch? || st.CreateApproval? || st.Execute?
    ensures Inv(Apply(s, st)) && SysExtends(s, Apply(s, st))
  {
    match st
    case StartRun(e) => PutRunKeeps(s, e, NewRun(), s.nextToken);
    case TaskDone(e, passed) => TaskDoneKeeps(s, e, passed);
    case TaskFailed(e) => TaskFailedKeeps(s, e);
    case ChooseBranch(e) => ChooseBranchKeeps(s, e);
    case CreateApproval(e, evidence) => CreateApprovalKeeps(s, e, evidence);
    case Execute(e, reported) => ExecuteKeeps(s, e, reported);
  }

  lemma StepKeeps(s: Sys, st: Step)
    requires Inv(s) && Enabled(s, st)
    ensures Inv(Apply(s, st)) && SysExtends(s, Apply(s, st))
  {
    if st.Tick? || st.ReadApproval? || st.Decide? {
      ManagerStepKeeps(s, st);
    } else if st.StartScan? || st.Claim? || st.Send? || st.Mark? || st.Release? || st.Crash? {
      WorkerStepKeeps(s, st);
    } else {
      WorkflowStepKeeps(s, st);
    }
  }
}
