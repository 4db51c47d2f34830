/**
 The approvals table and the services that write it. Each conditional UPDATE is a function on
 one row; the table methods apply it to the addressed row and touch no other.
 */
module ApprovalStore {
  import opened Common
  import opened ApprovalModel

  datatype Lease = Lease(claimId: nat, claimedAt: int)

  /** One approvals row. A (tenant, workflow execution) pair has at most one, so it keys the table. */
  datatype Row = Row(
    execution: ExecutionId,
    proposed: Action,
    evidence: seq<EvidenceReference>,
    token: nat,
    status: Status,
    recorded: Option<Recorded>,
    lease: Option<Lease>,
    attempts: nat,
    delivered: bool,
    executionKey: Option<IdempotencyKey>,
    errorCode: Option<PolicyError>)

  datatype SecurityReview = SecurityReview(
    execution: ExecutionId,
    action: Action,
    key: IdempotencyKey)

  /** What resuming the paused workflow sends. */
  datatype Payload = Payload(token: nat, decision: Decision, action: Option<Action>)

  function PayloadOf(row: Row): Payload
    requires row.recorded.Some?
  {
    var request := row.recorded.value.request;
    Payload(row.token, request.decision, EffectiveAction(row.proposed, request))
  }

  function NewRow(e: ExecutionId, evidence: seq<EvidenceReference>, token: nat): Row
    requires e.uuid.Some?
  {
    Row(e, RecommendedAction(e.uuid.value), evidence, token, Pending, None, None, 0, false, None, None)
  }

  // ---------------------------------------------------------------- one-row statements

  /** INSERT ... ON CONFLICT: a pending identical row is kept as it is, any other one refuses. */
  function InsertOrKeep(existing: Option<Row>, incoming: Row): Option<Row> {
    if existing.None? then Some(incoming)
    else if
      && existing.value.status == Pending
      && existing.value.recorded.None?
      && existing.value.proposed == incoming.proposed
      && existing.value.evidence == incoming.evidence
      && existing.value.token == incoming.token
    then existing
    else None
  }

  predicate Decidable(row: Row) {
    row.status == Pending && row.recorded.None?
  }

  function DecideRow(row: Row, recorded: Recorded): Row
    requires Decidable(row)
  {
    row.(status := Decided, recorded := Some(recorded))
  }

  predicate Claimable(row: Row, staleBefore: int) {
    && row.status == Decided
    && row.recorded.Some?
    && !row.delivered
    && (row.lease.None? || row.lease.value.claimedAt < staleBefore)
  }

  function ClaimRow(row: Row, claimId: nat, now: int): Row {
    row.(lease := Some(Lease(claimId, now)), attempts := row.attempts + 1)
  }

  /** The predicate both the delivery marker and the release check before they write. */
  predicate Holds(row: Row, claimId: nat) {
    && row.status == Decided
    && !row.delivered
    && row.lease.Some?
    && row.lease.value.claimId == claimId
  }

  function MarkRow(row: Row, claimId: nat): Row {
    if Holds(row, claimId) then row.(lease := None, delivered := true) else row
  }

  function ReleaseRow(row: Row, claimId: nat): Row {
    if Holds(row, claimId) then row.(lease := None) else row
  }

  // ---------------------------------------------------------------- the execution transaction

  datatype Outcome =
    | NotDecidedYet
    | NotDelivered
    | Replayed(key: IdempotencyKey)
    | FailedEarlier(code: PolicyError)
    | Skipped
    | Refused(code: PolicyError)
    | Succeeded(action: Action, key: IdempotencyKey)
    | Inconsistent

  datatype Executed = Executed(row: Row, reviews: seq<SecurityReview>, outcome: Outcome)

  predicate KnowsReview(reviews: seq<SecurityReview>, e: ExecutionId) {
    exists i :: 0 <= i < |reviews| && reviews[i].execution == e
  }

  /** The whole locked transaction, as one atomic step on the row and the reviews table. */
  function ExecuteRow(row: Row, reviews: seq<SecurityReview>): Executed {
    if row.status == Pending || row.recorded.None? then Executed(row, reviews, NotDecidedYet)
    else if !row.delivered then Executed(row, reviews, NotDelivered)
    else if row.status == ExecutionSucceeded then
      if row.executionKey.None? then Executed(row, reviews, Inconsistent)
      else Executed(row, reviews, Replayed(row.executionKey.value))
    else if row.status == ExecutionFailed then
      if row.executionKey.None? || row.errorCode.None? then Executed(row, reviews, Inconsistent)
      else Executed(row, reviews, FailedEarlier(row.errorCode.value))
    else
      var projected := Project(row.execution, row.status, row.proposed, row.recorded.value.request);
      if projected.Err? then Executed(row, reviews, Inconsistent)
      else if projected.value.action.None? then Executed(row, reviews, Skipped)
      else
        var key := projected.value.key;
        var checked := ValidateDemoAction(projected.value);
        if checked.Err? then
          Executed(
            row.(status := ExecutionFailed, executionKey := Some(key), errorCode := Some(checked.error)),
            reviews, Refused(checked.error))
        else
          var review := SecurityReview(row.execution, checked.value, key);
          if KnowsReview(reviews, row.execution) && review !in reviews then Executed(row, reviews, Inconsistent)
          else
            Executed(
              row.(status := ExecutionSucceeded, executionKey := Some(key), errorCode := None),
              if KnowsReview(reviews, row.execution) then reviews else reviews + [review],
              Succeeded(checked.value, key))
  }

  /** The action may run: its type, its resource type, and the workflow's own identifier. */
  predicate MayRun(action: Action, uuid: Uuid) {
    action.actionType == "create_security_review" && action.resourceType == "workflow_execution"
    && action.resourceId == uuid
  }

  /** The transaction on a delivered decision, stated on the recorded request and the action's own fields. */
  ghost predicate ExecutedAsDecided(row: Row, reviews: seq<SecurityReview>, uuid: Uuid, done: Executed)
    requires row.recorded.Some? && CheckRequest(row.recorded.value.request).Ok?
  {
    var request := row.recorded.value.request;
    if request.decision == Rejected then done == Executed(row, reviews, Skipped)
    else
      var action := if request.decision == Approved then row.proposed else request.modifiedAction.value;
      var key := IdempotencyKey(row.execution, request.decision, Some(action));
      if MayRun(action, uuid) then
        && done.row == row.(status := ExecutionSucceeded, executionKey := Some(key), errorCode := None)
        && done.reviews == reviews + [SecurityReview(row.execution, action, key)]
        && done.outcome == Succeeded(action, key)
      else
        var code := if action.actionType != "create_security_review" || action.resourceType != "workflow_execution"
                    then ActionNotAllowed else ResourceMismatch;
        && done.row == row.(status := ExecutionFailed, executionKey := Some(key), errorCode := Some(code))
        && done.reviews == reviews
        && done.outcome == Refused(code)
  }

  /**
   A delivered decision without a review yet is executed exactly as decided: a rejection does
   nothing, an allowed action inserts its one review, any other fails with the rule it breaks.
   */
  lemma ExecutionIsExact(row: Row, reviews: seq<SecurityReview>, uuid: Uuid)
    requires row.status == Decided && row.recorded.Some? && row.delivered
    requires CheckRequest(row.recorded.value.request).Ok? && row.execution.uuid == Some(uuid)
    requires forall i :: 0 <= i < |reviews| ==> reviews[i].execution != row.execution
    ensures ExecutedAsDecided(row, reviews, uuid, ExecuteRow(row, reviews))
  {
    var request := row.recorded.value.request;
    var projected := Project(row.execution, row.status, row.proposed, request);
    assert projected.value.action == EffectiveAction(row.proposed, request);
    assert projected.value.key == IdempotencyKey(row.execution, request.decision, projected.value.action);
  }

  /** A terminal row answers with the key or the code it stored. */
  predicate TerminalAnswer(row: Row, outcome: Outcome) {
    && (row.status == ExecutionSucceeded && row.executionKey.Some? ==> outcome == Replayed(row.executionKey.value))
    && (row.status == ExecutionFailed && row.executionKey.Some? && row.errorCode.Some? ==>
          outcome == FailedEarlier(row.errorCode.value))
  }

  /** A row that is undecided, undelivered or already terminal is left as it is, and so are the reviews. */
  lemma ExecutionLeavesOtherRows(row: Row, reviews: seq<SecurityReview>)
    requires row.status != Decided || row.recorded.None? || !row.delivered
    ensures var done := ExecuteRow(row, reviews);
            && done.row == row && done.reviews == reviews
            && (done.outcome.NotDecidedYet? <==> row.status == Pending || row.recorded.None?)
            && (done.outcome.NotDelivered? <==> row.status != Pending && row.recorded.Some? && !row.delivered)
            && (row.recorded.Some? && row.delivered ==> TerminalAnswer(row, done.outcome))
  {
  }

  // ---------------------------------------------------------------- what other sessions may do meanwhile

  /** What one approval's statements read and write: its row and the reviews table. */
  datatype Shared = Shared(row: Row, reviews: seq<SecurityReview>)

  /** A statement another session commits between two of ours: a recovery session's, or the executor's. */
  datatype RowEvent =
    | OtherClaim(claimId: nat, now: int, staleBefore: int)
    | OtherMark(claimId: nat)
    | OtherRelease(claimId: nat)
    | OtherExecute

  function ApplyEvent(x: Shared, ev: RowEvent): Shared {
    match ev
    case OtherClaim(c, now, staleBefore) =>
      if Claimable(x.row, staleBefore) then x.(row := ClaimRow(x.row, c, now)) else x
    case OtherMark(c) => x.(row := MarkRow(x.row, c))
    case OtherRelease(c) => x.(row := ReleaseRow(x.row, c))
    case OtherExecute => var done := ExecuteRow(x.row, x.reviews); Shared(done.row, done.reviews)
  }

  function ApplyEvents(x: Shared, evs: seq<RowEvent>): Shared
    decreases |evs|
  {
    if evs == [] then x else ApplyEvents(ApplyEvent(x, evs[0]), evs[1..])
  }

  /** Claim ids are fresh UUIDs, so another session never presents ours. */
  predicate Foreign(evs: seq<RowEvent>, claimId: nat) {
    forall i :: 0 <= i < |evs| ==>
      match evs[i]
      case OtherClaim(c, _, _) => c != claimId
      case OtherMark(c) => c != claimId
      case OtherRelease(c) => c != claimId
      case OtherExecute => true
  }

  /** Some foreign claim found the lease stale while the events ran. */
  predicate StolenDuring(x: Shared, evs: seq<RowEvent>)
    decreases |evs|
  {
    evs != [] &&
    ((evs[0].OtherClaim? && Claimable(x.row, evs[0].staleBefore)) ||
     StolenDuring(ApplyEvent(x, evs[0]), evs[1..]))
  }

  /**
   While we hold the lease, the only way other sessions can take it from us is to claim it after
   it went stale; unless they do, neither the row nor the reviews change at all.
   */
  lemma {:induction false} OnlyStalenessStealsALease(x: Shared, evs: seq<RowEvent>, claimId: nat)
    requires Holds(x.row, claimId) && Foreign(evs, claimId)
    ensures Holds(ApplyEvents(x, evs).row, claimId) <==> !StolenDuring(x, evs)
    ensures !StolenDuring(x, evs) ==> ApplyEvents(x, evs) == x
    decreases |evs|
  {
    if evs != [] {
      var next := ApplyEvent(x, evs[0]);
      if evs[0].OtherClaim? && Claimable(x.row, evs[0].staleBefore) {
        NeverHeldAgain(next, evs[1..], claimId);
      } else {
        assert next == x;
        OnlyStalenessStealsALease(next, evs[1..], claimId);
      }
    }
  }

  lemma {:induction false} NeverHeldAgain(x: Shared, evs: seq<RowEvent>, claimId: nat)
    requires Foreign(evs, claimId)
    requires x.row.lease.Some? ==> x.row.lease.value.claimId != claimId
    ensures !Holds(ApplyEvents(x, evs).row, claimId)
    decreases |evs|
  {
    if evs != [] {
      ForeignEventsLeaseToOthers(x, evs[0], claimId);
      NeverHeldAgain(ApplyEvent(x, evs[0]), evs[1..], claimId);
    }
  }

  lemma ForeignEventsLeaseToOthers(x: Shared, ev: RowEvent, claimId: nat)
    requires Foreign([ev], claimId) && (x.row.lease.Some? ==> x.row.lease.value.claimId != claimId)
    ensures var y := ApplyEvent(x, ev); y.row.lease.Some? ==> y.row.lease.value.claimId != claimId
  {
    assert [ev][0] == ev;
    if ev.OtherExecute? {
      ExecutionKeepsTheLease(x);
    }
  }

  lemma ExecutionKeepsTheLease(x: Shared)
    ensures ExecuteRow(x.row, x.reviews).row.lease == x.row.lease
  {
  }

  /** A poll is repeated only while a decided row is not marked delivered. */
  predicate Polls(row: Row) {
    row.status != Pending && row.recorded.Some? && !row.delivered
  }

  function AfterPolls(x: Shared, waits: seq<seq<RowEvent>>): Shared
    decreases |waits|
  {
    if waits == [] || !Polls(x.row) then x else AfterPolls(ApplyEvents(x, waits[0]), waits[1..])
  }

  /** The state after the first k waits. */
  function AfterWaits(x: Shared, waits: seq<seq<RowEvent>>, k: nat): Shared
    requires k <= |waits|
    decreases k
  {
    if k == 0 then x else ApplyEvents(AfterWaits(x, waits, k - 1), waits[k - 1])
  }

  predicate AwaitsDelivery(row: Row) {
    (row.status == Decided || row.status == ExecutionSucceeded || row.status == ExecutionFailed)
    && row.recorded.Some? && !row.delivered
  }

  /** Polling waits exactly as long as a decision is undelivered, and while waits are left. */
  lemma {:induction false} PollsUntilDelivery(x: Shared, waits: seq<seq<RowEvent>>) returns (k: nat)
    ensures k <= |waits| && AfterPolls(x, waits) == AfterWaits(x, waits, k)
    ensures forall j :: 0 <= j < k ==> AwaitsDelivery(AfterWaits(x, waits, j).row)
    ensures k < |waits| ==> !AwaitsDelivery(AfterWaits(x, waits, k).row)
    decreases |waits|
  {
    k := 0;
    if waits != [] && Polls(x.row) {
      var next := ApplyEvents(x, waits[0]);
      var rest := PollsUntilDelivery(next, waits[1..]);
      forall j: nat | j <= rest ensures AfterWaits(next, waits[1..], j) == AfterWaits(x, waits, j + 1) {
        WaitsShift(x, waits, j);
      }
      k := rest + 1;
      forall j | 0 <= j < k ensures AwaitsDelivery(AfterWaits(x, waits, j).row) {
        if j > 0 {
          assert AfterWaits(next, waits[1..], j - 1) == AfterWaits(x, waits, j);
        }
      }
    }
  }

  lemma {:induction false} WaitsShift(x: Shared, waits: seq<seq<RowEvent>>, j: nat)
    requires waits != [] && j < |waits|
    ensures AfterWaits(ApplyEvents(x, waits[0]), waits[1..], j) == AfterWaits(x, waits, j + 1)
    decreases j
  {
    if j > 0 {
      WaitsShift(x, waits, j - 1);
    } else {
      assert AfterWaits(x, waits, 1) == ApplyEvents(AfterWaits(x, waits, 0), waits[0]);
    }
  }

  // ---------------------------------------------------------------- the table

  /** An undecided row that is the one this creation would insert. */
  predicate PendingTwin(row: Row, e: ExecutionId, evidence: seq<EvidenceReference>, token: nat)
    requires e.uuid.Some?
  {
    && row.status == Pending && row.recorded.None? && row.evidence == evidence && row.token == token
    && row.proposed == Action("create_security_review", "workflow_execution", e.uuid.value,
                              "Create a bounded security review for this workflow execution.")
  }

  /** The decided, undelivered row of this very lease. */
  predicate IsLeasedTo(row: Row, claimId: nat) {
    row.status == Decided && !row.delivered && row.lease.Some? && row.lease.value.claimId == claimId
  }

  /** The token of the approval, its decision, and the action that decision leaves: none for a rejection. */
  predicate SaysWhatWasDecided(p: Payload, row: Row) {
    && row.recorded.Some? && p.token == row.token && p.decision == row.recorded.value.request.decision
    && p.action == match p.decision
                   case Approved => Some(row.proposed)
                   case Modified => row.recorded.value.request.modifiedAction
                   case Rejected => None
  }

  class ApprovalTable {
    var rows: map<ExecutionId, Row>
    var reviews: seq<SecurityReview>

    constructor ()
      ensures rows == map[] && reviews == []
    {
      rows := map[];
      reviews := [];
    }

    method CreatePending(e: ExecutionId, evidence: seq<EvidenceReference>, token: nat) returns (created: Option<Row>)
      requires e.uuid.Some?
      modifies this`rows
      ensures created == InsertOrKeep(if e in old(rows) then Some(old(rows)[e]) else None, NewRow(e, evidence, token))
      ensures rows == if created.Some? then old(rows)[e := created.value] else old(rows)
      ensures created.Some? <==> (e in old(rows) ==> PendingTwin(old(rows)[e], e, evidence, token))
      ensures created.Some? && e in old(rows) ==> created.value == old(rows)[e]
      ensures created.Some? && e !in old(rows) ==>
                PendingTwin(created.value, e, evidence, token) && created.value.execution == e
                && created.value.lease.None? && created.value.attempts == 0 && !created.value.delivered
                && created.value.executionKey.None? && created.value.errorCode.None?
    {
      var incoming := NewRow(e, evidence, token);
      if e !in rows {
        rows := rows[e := incoming];
        return Some(incoming);
      }
      created := InsertOrKeep(Some(rows[e]), incoming);
      assert created.Some? ==> rows[e := created.value] == rows;
    }

    method DecidePending(e: ExecutionId, recorded: Recorded) returns (decided: Option<Row>)
      modifies this`rows
      ensures decided.Some? <==> e in old(rows) && old(rows)[e].status == Pending && old(rows)[e].recorded.None?
      ensures decided.Some? ==> decided.value == old(rows)[e].(status := Decided, recorded := Some(recorded))
      ensures rows == if decided.Some? then old(rows)[e := decided.value] else old(rows)
    {
      if e !in rows || !Decidable(rows[e]) {
        return None;
      }
      decided := Some(DecideRow(rows[e], recorded));
      rows := rows[e := decided.value];
    }

    method Claim(e: ExecutionId, staleBefore: int, claimId: nat, now: int) returns (payload: Option<Payload>)
      modifies this`rows
      ensures payload.Some? <==>
              && e in old(rows) && old(rows)[e].status == Decided && old(rows)[e].recorded.Some?
              && !old(rows)[e].delivered
              && (old(rows)[e].lease.Some? ==> old(rows)[e].lease.value.claimedAt < staleBefore)
      ensures payload.Some? ==> SaysWhatWasDecided(payload.value, old(rows)[e])
      ensures rows == if payload.None? then old(rows)
                      else old(rows)[e := old(rows)[e].(lease := Some(Lease(claimId, now)),
                                                        attempts := old(rows)[e].attempts + 1)]
    {
      if e !in rows || !Claimable(rows[e], staleBefore) {
        return None;
      }
      payload := Some(PayloadOf(rows[e]));
      rows := rows[e := ClaimRow(rows[e], claimId, now)];
    }

    method MarkDelivered(e: ExecutionId, claimId: nat) returns (marked: bool)
      modifies this`rows
      ensures marked <==> e in old(rows) && IsLeasedTo(old(rows)[e], claimId)
      ensures rows == if marked then old(rows)[e := old(rows)[e].(lease := None, delivered := true)] else old(rows)
    {
      marked := e in rows && Holds(rows[e], claimId);
      if marked {
        rows := rows[e := rows[e].(lease := None, delivered := true)];
      }
    }

    method ReleaseClaim(e: ExecutionId, claimId: nat) returns (released: bool)
      modifies this`rows
      ensures released <==> e in old(rows) && IsLeasedTo(old(rows)[e], claimId)
      ensures rows == if released then old(rows)[e := old(rows)[e].(lease := None)] else old(rows)
    {
      released := e in rows && Holds(rows[e], claimId);
      if released {
        rows := rows[e := rows[e].(lease := None)];
      }
    }

    /**
     The execution transaction behind its bounded readiness polls: each poll that finds the
     callback not yet marked delivered rolls back and waits, and `waits[k]` is what other
     sessions commit during the k-th wait.
     */
    method ExecuteForWorkflow(e: ExecutionId, waits: seq<seq<RowEvent>>) returns (outcome: Outcome)
      modifies this`rows, this`reviews
      ensures e !in old(rows) ==> outcome == NotDecidedYet && rows == old(rows) && reviews == old(reviews)
      ensures e in old(rows) ==>
                var found := AfterPolls(Shared(old(rows)[e], old(reviews)), waits);
                var done := ExecuteRow(found.row, found.reviews);
                && outcome == done.outcome
                && rows == old(rows)[e := done.row]
                && reviews == done.reviews
    {
      if e !in rows {
        return NotDecidedYet;
      }
      var attempt := 0;
      while attempt < |waits| && Polls(rows[e])
        invariant 0 <= attempt <= |waits|
        invariant e in rows && rows == old(rows)[e := rows[e]]
        invariant AfterPolls(Shared(rows[e], reviews), waits[attempt..]) ==
                  AfterPolls(Shared(old(rows)[e], old(reviews)), waits)
      {
        assert waits[attempt..][1..] == waits[attempt + 1..];
        Interfere(e, waits[attempt]);
        attempt := attempt + 1;
      }
      var row := rows[e];
      if row.status == Pending || row.recorded.None? {
        return NotDecidedYet;
      }
      if !row.delivered {
        return NotDelivered;
      }
      var done := ExecuteRow(row, reviews);
      rows := rows[e := done.row];
      reviews := done.reviews;
      return done.outcome;
    }

    /** One statement of another session. */
    method Commit(e: ExecutionId, ev: RowEvent)
      modifies this`rows, this`reviews
      ensures e !in old(rows) ==> rows == old(rows) && reviews == old(reviews)
      ensures e in old(rows) ==>
                var after := ApplyEvent(Shared(old(rows)[e], old(reviews)), ev);
                rows == old(rows)[e := after.row] && reviews == after.reviews
    {
      if e in rows {
        match ev {
          case OtherClaim(claimId, now, staleBefore) =>
            var payload := Claim(e, staleBefore, claimId, now);
          case OtherMark(claimId) =>
            var marked := MarkDelivered(e, claimId);
          case OtherRelease(claimId) =>
            var released := ReleaseClaim(e, claimId);
          case OtherExecute =>
            var done := ExecuteRow(rows[e], reviews);
            rows, reviews := rows[e := done.row], done.reviews;
        }
      }
    }

    /** Other sessions commit `evs` on row `e`. */
    method Interfere(e: ExecutionId, evs: seq<RowEvent>)
      modifies this`rows, this`reviews
      ensures e !in old(rows) ==> rows == old(rows) && reviews == old(reviews)
      ensures e in old(rows) ==>
                var after := ApplyEvents(Shared(old(rows)[e], old(reviews)), evs);
                rows == old(rows)[e := after.row] && reviews == after.reviews
    {
      for k := 0 to |evs|
        invariant e !in old(rows) ==> rows == old(rows) && reviews == old(reviews)
        invariant e in old(rows) ==>
                    && e in rows && rows == old(rows)[e := rows[e]]
                    && ApplyEvents(Shared(rows[e], reviews), evs[k..]) ==
                       ApplyEvents(Shared(old(rows)[e], old(reviews)), evs)
      {
        assert evs[k..][0] == evs[k] && evs[k..][1..] == evs[k + 1..];
        Commit(e, evs[k]);
      }
    }
  }

  // ---------------------------------------------------------------- services over the table

  datatype DecideError = NotFound | AlreadyDecided

  /** Reads, then compares and sets; `between` is what other Managers commit after our read. */
  class ApprovalService {
    const table: ApprovalTable

    constructor (table: ApprovalTable)
      ensures this.table == table
    {
      this.table := table;
    }

    method Decide(e: ExecutionId, request: DecisionRequest, approver: nat, now: int, between: Option<Recorded>)
      returns (r: Result<Row, DecideError>)
      requires CheckRequest(request).Ok?
      modifies table`rows
      ensures r.Err? && r.error == NotFound <==> e !in old(table.rows)
      ensures var open := e in old(table.rows) && old(table.rows)[e].status == Pending
                          && old(table.rows)[e].recorded.None?;
              && (r.Ok? <==> open && between.None?)
              && (r.Ok? ==> r.value == old(table.rows)[e].(status := Decided,
                                                           recorded := Some(Recorded(request, approver, now)))
                            && table.rows == old(table.rows)[e := r.value])
              && (r.Err? ==> table.rows ==
                             if open && between.Some?
                             then old(table.rows)[e := old(table.rows)[e].(status := Decided, recorded := between)]
                             else old(table.rows))
    {
      if e !in table.rows {
        return Err(NotFound);
      }
      var seen := table.rows[e];
      if between.Some? {
        var _ := table.DecidePending(e, between.value);
      }
      if seen.status != Pending {
        return Err(AlreadyDecided);
      }
      var decided := table.DecidePending(e, Recorded(request, approver, now));
      if decided.None? {
        return Err(AlreadyDecided);
      }
      return Ok(decided.value);
    }
  }

  datatype CallbackError = SendFailed | MarkerNotPersisted

  class ApprovalCallbackService {
    const table: ApprovalTable

    constructor (table: ApprovalTable)
      ensures this.table == table
    {
      this.table := table;
    }

    /**
     One recovery attempt. `sendOk` is the reply of the paused workflow's service; `between` is
     everything other recovery sessions and the executor commit on the row from our claim until
     our mark or release.
     */
    method ResumeDecided(e: ExecutionId, staleBefore: int, claimId: nat, now: int,
                         sendOk: bool, between: seq<RowEvent>)
      returns (r: Result<bool, CallbackError>, sent: Option<Payload>)
      requires Foreign(between, claimId)
      modifies table`rows, table`reviews
      ensures sent.Some? <==>
              && e in old(table.rows) && old(table.rows)[e].status == Decided && old(table.rows)[e].recorded.Some?
              && !old(table.rows)[e].delivered
              && (old(table.rows)[e].lease.Some? ==> old(table.rows)[e].lease.value.claimedAt < staleBefore)
      ensures sent.None? ==> r == Ok(false) && table.rows == old(table.rows) && table.reviews == old(table.reviews)
      ensures sent.Some? ==>
                var claimed := Shared(old(table.rows)[e].(lease := Some(Lease(claimId, now)),
                                                          attempts := old(table.rows)[e].attempts + 1),
                                      old(table.reviews));
                var stolen := StolenDuring(claimed, between);
                && SaysWhatWasDecided(sent.value, old(table.rows)[e])
                && (r == Ok(true) <==> sendOk && !stolen)
                && (r == Err(SendFailed) <==> !sendOk)
                && (r == Err(MarkerNotPersisted) <==> sendOk && stolen)
                && table.rows == old(table.rows)[e :=
                     if stolen then ApplyEvents(claimed, between).row
                     else claimed.row.(lease := None, delivered := sendOk)]
                && table.reviews == if stolen then ApplyEvents(claimed, between).reviews else old(table.reviews)
    {
      sent := table.Claim(e, staleBefore, claimId, now);
      if sent.None? {
        return Ok(false), sent;
      }
      ghost var claimed := Shared(table.rows[e], table.reviews);
      table.Interfere(e, between);
      OnlyStalenessStealsALease(claimed, between, claimId);
      if !sendOk {
        var _ := table.ReleaseClaim(e, claimId);
        return Err(SendFailed), sent;
      }
      var marked := table.MarkDelivered(e, claimId);
      if !marked {
        return Err(MarkerNotPersisted), sent;
      }
      return Ok(true), sent;
    }
  }

  /** Why creating an approval is refused, the first reason that applies. */
  function CreationRefusal(rows: map<ExecutionId, Row>, e: ExecutionId, items: seq<EvidenceItem>,
                           reviewerPassed: bool, token: nat): Option<CreationError>
  {
    if !reviewerPassed then Some(ReviewerDidNotPass)
    else if e.uuid.None? then Some(ExecutionIdNotUuid)
    else if !AllParsed(items) then Some(EvidenceNotUuid)
    else if |items| > 10 then Some(TooMuchEvidence)
    else if !DistinctChunks(EvidenceOf(items)) then Some(DuplicateEvidence)
    else if InsertOrKeep(if e in rows then Some(rows[e]) else None, NewRow(e, EvidenceOf(items), token)).None? then
      Some(ConflictingApproval)
    else None
  }

  /** At most ten references, in the items' order, each with its item's two ids, no chunk twice. */
  ghost predicate EvidenceTakenOver(items: seq<EvidenceItem>, evidence: seq<EvidenceReference>) {
    && |evidence| == |items| <= 10
    && (forall i :: 0 <= i < |items| ==>
          items[i].chunkId == Some(evidence[i].chunkId) && items[i].documentId == Some(evidence[i].documentId))
    && forall i, j :: 0 <= i < j < |evidence| ==> evidence[i].chunkId != evidence[j].chunkId
  }

  /** Some two items name the same chunk. */
  predicate RepeatsAChunk(items: seq<EvidenceItem>) {
    exists i, j :: 0 <= i < j < |items| && items[i].chunkId == items[j].chunkId
  }

  /** The reasons in their order, on the request's own fields and the stored row. */
  lemma RefusalsInOrder(rows: map<ExecutionId, Row>, e: ExecutionId, items: seq<EvidenceItem>,
                        reviewerPassed: bool, token: nat)
    ensures var refusal := CreationRefusal(rows, e, items, reviewerPassed, token);
            var parsed := forall i :: 0 <= i < |items| ==> items[i].chunkId.Some? && items[i].documentId.Some?;
            && (refusal == Some(ReviewerDidNotPass) <==> !reviewerPassed)
            && (refusal == Some(ExecutionIdNotUuid) <==> reviewerPassed && e.uuid.None?)
            && (refusal == Some(EvidenceNotUuid) <==> reviewerPassed && e.uuid.Some? && !parsed)
            && (refusal == Some(TooMuchEvidence) <==> reviewerPassed && e.uuid.Some? && parsed && |items| > 10)
            && (refusal == Some(DuplicateEvidence) <==>
                reviewerPassed && e.uuid.Some? && parsed && |items| <= 10 && RepeatsAChunk(items))
            && (refusal == Some(ConflictingApproval) <==>
                && reviewerPassed && e.uuid.Some? && parsed && |items| <= 10 && !RepeatsAChunk(items)
                && e in rows && !PendingTwin(rows[e], e, EvidenceOf(items), token))
  {
    if AllParsed(items) {
      RepetitionShows(items);
    }
  }

  lemma RepetitionShows(items: seq<EvidenceItem>)
    requires AllParsed(items)
    ensures DistinctChunks(EvidenceOf(items)) <==> !RepeatsAChunk(items)
  {
    var refs := EvidenceOf(items);
    assert forall i :: 0 <= i < |items| ==> Some(refs[i].chunkId) == items[i].chunkId;
    if RepeatsAChunk(items) {
      var i, j :| 0 <= i < j < |items| && items[i].chunkId == items[j].chunkId;
      assert refs[i].chunkId == refs[j].chunkId;
    } else {
      forall i, j | 0 <= i < j < |refs| ensures refs[i].chunkId != refs[j].chunkId {
        assert items[i].chunkId != items[j].chunkId;
      }
    }
  }

  class ApprovalCreationService {
    const table: ApprovalTable

    constructor (table: ApprovalTable)
      ensures this.table == table
    {
      this.table := table;
    }

    method CreateFromWorkflow(e: ExecutionId, items: seq<EvidenceItem>, reviewerPassed: bool, token: nat)
      returns (r: Result<Row, CreationError>)
      modifies table`rows
      ensures r.Ok? ==>
                && reviewerPassed && e.uuid.Some?
                && PendingTwin(r.value, e, r.value.evidence, token)
                && table.rows == old(table.rows)[e := r.value]
                && (e in old(table.rows) ==> old(table.rows)[e] == r.value)
      ensures r.Ok? ==> EvidenceTakenOver(items, r.value.evidence)
      ensures r.Err? ==> table.rows == old(table.rows)
      ensures CreationRefusal(old(table.rows), e, items, reviewerPassed, token) ==
              if r.Err? then Some(r.error) else None
    {
      if !reviewerPassed {
        return Err(ReviewerDidNotPass);
      }
      if e.uuid.None? {
        return Err(ExecutionIdNotUuid);
      }
      var evidence := BuildEvidence(items);
      if evidence.Err? {
        return Err(evidence.error);
      }
      if |evidence.value| > 10 {
        return Err(TooMuchEvidence);
      }
      if !DistinctChunks(evidence.value) {
        return Err(DuplicateEvidence);
      }
      var created := table.CreatePending(e, evidence.value, token);
      if created.None? {
        return Err(ConflictingApproval);
      }
      return Ok(created.value);
    }
  }
}
