/**
 The values of the human-approval subsystem: requests, decisions, the projection of a
 decision to the only action that may execute, and the allowlist that action must pass.
 */
module ApprovalModel {
  import opened Common

  /** Only equality of identifiers matters, so a UUID is a number. */
  type Uuid = nat

  /** The text of a workflow execution id, together with what parsing it as a UUID yields. */
  datatype ExecutionId = ExecutionId(text: string, uuid: Option<Uuid>)

  datatype Action = Action(actionType: string, resourceType: string, resourceId: Uuid, summary: string)

  datatype Decision = Approved | Rejected | Modified

  datatype Status = Pending | Decided | ExecutionSucceeded | ExecutionFailed

  /** A Manager's decision body; `justification` and `comment` are None when absent. */
  datatype DecisionRequest = DecisionRequest(
    decision: Decision,
    justification: Option<string>,
    comment: Option<string>,
    modifiedAction: Option<Action>)

  datatype RequestError =
    | ApprovedWithAction
    | RejectedWithoutJustification
    | RejectedWithAction
    | ModifiedWithoutJustification
    | ModifiedWithoutAction

  /** The decision-payload validator: the first rule that is broken is the one reported. */
  function CheckRequest(r: DecisionRequest): (res: Result<DecisionRequest, RequestError>)
    ensures res.Ok? ==> res.value == r
    ensures res.Ok? <==>
            && (r.modifiedAction.Some? <==> r.decision == Modified)
            && (r.decision != Approved ==> r.justification.Some?)
    ensures res == Err(ApprovedWithAction) <==> r.decision == Approved && r.modifiedAction.Some?
    ensures res == Err(RejectedWithAction) <==>
            r.decision == Rejected && r.justification.Some? && r.modifiedAction.Some?
    ensures res == Err(RejectedWithoutJustification) <==> r.decision == Rejected && r.justification.None?
    ensures res == Err(ModifiedWithoutJustification) <==> r.decision == Modified && r.justification.None?
  {
    match r.decision
    case Approved =>
      if r.modifiedAction.Some? then Err(ApprovedWithAction) else Ok(r)
    case Rejected =>
      if r.justification.None? then Err(RejectedWithoutJustification)
      else if r.modifiedAction.Some? then Err(RejectedWithAction)
      else Ok(r)
    case Modified =>
      if r.justification.None? then Err(ModifiedWithoutJustification)
      else if r.modifiedAction.None? then Err(ModifiedWithoutAction)
      else Ok(r)
  }

  /** A decision as it is recorded: who decided what, and when. */
  datatype Recorded = Recorded(request: DecisionRequest, approver: nat, decidedAt: int)

  /** The lifecycle transitions an approval may take. */
  const ALLOWED_TRANSITIONS: set<(Status, Status)> :=
    {(Pending, Decided), (Decided, ExecutionSucceeded), (Decided, ExecutionFailed)}

  predicate AllowedTransition(current: Status, target: Status) {
    (current, target) in ALLOWED_TRANSITIONS
  }

  // ---------------------------------------------------------------- recommendation

  datatype EvidenceReference = EvidenceReference(chunkId: Uuid, documentId: Uuid)

  /** One retrieved item; its two ids are texts that may or may not parse as UUIDs. */
  datatype EvidenceItem = EvidenceItem(chunkId: Option<Uuid>, documentId: Option<Uuid>)

  const REVIEW_ACTION := "create_security_review"
  const REVIEW_RESOURCE := "workflow_execution"
  const REVIEW_SUMMARY := "Create a bounded security review for this workflow execution."

  function RecommendedAction(execution: Uuid): Action {
    Action(REVIEW_ACTION, REVIEW_RESOURCE, execution, REVIEW_SUMMARY)
  }

  datatype CreationError =
    | ReviewerDidNotPass | ExecutionIdNotUuid | EvidenceNotUuid
    | DuplicateEvidence | TooMuchEvidence | ConflictingApproval

  predicate AllParsed(items: seq<EvidenceItem>) {
    forall i :: 0 <= i < |items| ==> items[i].chunkId.Some? && items[i].documentId.Some?
  }

  predicate DistinctChunks(refs: seq<EvidenceReference>) {
    forall i, j :: 0 <= i < j < |refs| ==> refs[i].chunkId != refs[j].chunkId
  }

  /** The references of a list whose ids all parse. */
  function EvidenceOf(items: seq<EvidenceItem>): (refs: seq<EvidenceReference>)
    requires AllParsed(items)
    ensures |refs| == |items|
  {
    seq(|items|, i requires 0 <= i < |items| =>
      EvidenceReference(items[i].chunkId.value, items[i].documentId.value))
  }

  /** The loop of the recommendation builder: evidence in order, one bad id refuses it all. */
  method BuildEvidence(items: seq<EvidenceItem>) returns (r: Result<seq<EvidenceReference>, CreationError>)
    ensures r.Ok? <==> AllParsed(items)
    ensures r.Err? ==> r.error == EvidenceNotUuid
    ensures r.Ok? ==> r.value == EvidenceOf(items)
    ensures r.Ok? ==> |r.value| == |items| && forall i :: 0 <= i < |items| ==>
                        && items[i].chunkId == Some(r.value[i].chunkId)
                        && items[i].documentId == Some(r.value[i].documentId)
  {
    var evidence: seq<EvidenceReference> := [];
    for k := 0 to |items|
      invariant |evidence| == k
      invariant AllParsed(items[..k])
      invariant forall i :: 0 <= i < k ==>
                  evidence[i] == EvidenceReference(items[i].chunkId.value, items[i].documentId.value)
    {
      if items[k].chunkId.None? || items[k].documentId.None? {
        return Err(EvidenceNotUuid);
      }
      evidence := evidence + [EvidenceReference(items[k].chunkId.value, items[k].documentId.value)];
    }
    return Ok(evidence);
  }

  // ---------------------------------------------------------------- projection and policy

  /** What the idempotency key is a digest of; equal keys mean equal contents. */
  datatype IdempotencyKey = IdempotencyKey(execution: ExecutionId, decision: Decision, action: Option<Action>)

  datatype Projection = Projection(
    execution: ExecutionId,
    decision: Decision,
    action: Option<Action>,
    key: IdempotencyKey)

  datatype ProjectionError = NotDecided | MissingReplacement

  /** The only action the recorded decision authorises; a rejection authorises none. */
  function Project(execution: ExecutionId, status: Status, proposed: Action, request: DecisionRequest)
    : (r: Result<Projection, ProjectionError>)
    ensures r.Ok? ==> status == Decided && r.value.execution == execution
    ensures r.Ok? ==> (r.value.action.None? <==> request.decision == Rejected)
    ensures CheckRequest(request).Ok? ==> (r.Ok? <==> status == Decided)
    ensures r.Ok? && request.decision == Approved ==> r.value.action == Some(proposed)
    ensures r.Ok? && request.decision == Modified ==> r.value.action == request.modifiedAction
    ensures r.Ok? ==> r.value.decision == request.decision
  {
    if status != Decided then Err(NotDecided)
    else if request.decision == Modified && request.modifiedAction.None? then Err(MissingReplacement)
    else
      var action := EffectiveAction(proposed, request);
      Ok(Projection(execution, request.decision, action, IdempotencyKey(execution, request.decision, action)))
  }

  /** Two projections carry the same key exactly when they are the same projection. */
  lemma KeysIdentifyProjections(e: ExecutionId, f: ExecutionId, proposed: Action, other: Action,
                                request: DecisionRequest, second: DecisionRequest)
    requires Project(e, Decided, proposed, request).Ok? && Project(f, Decided, other, second).Ok?
    ensures var p, q := Project(e, Decided, proposed, request).value, Project(f, Decided, other, second).value;
            p.key == q.key <==> p == q
  {
    assert Project(e, Decided, proposed, request).value.key ==
           IdempotencyKey(e, request.decision, EffectiveAction(proposed, request));
    assert Project(f, Decided, other, second).value.key ==
           IdempotencyKey(f, second.decision, EffectiveAction(other, second));
  }

  /** Approved keeps the proposal, modified takes the replacement, rejected takes nothing. */
  function EffectiveAction(proposed: Action, request: DecisionRequest): Option<Action> {
    match request.decision
    case Approved => Some(proposed)
    case Modified => request.modifiedAction
    case Rejected => None
  }

  datatype PolicyError = EmptyAction | ActionNotAllowed | InvalidWorkflowExecution | ResourceMismatch

  function ValidateDemoAction(p: Projection): Result<Action, PolicyError> {
    if p.action.None? then Err(EmptyAction)
    else if p.action.value.actionType != REVIEW_ACTION || p.action.value.resourceType != REVIEW_RESOURCE then
      Err(ActionNotAllowed)
    else if p.execution.uuid.None? then Err(InvalidWorkflowExecution)
    else if p.action.value.resourceId != p.execution.uuid.value then Err(ResourceMismatch)
    else Ok(p.action.value)
  }

  /**
   For an approval created from workflow `e`: accepted unmodified it is never refused, and a
   Manager's replacement is accepted exactly when it differs from the proposal in nothing but
   its summary.
   */
  lemma PolicyAcceptsOnlySummaryEdits(e: ExecutionId, request: DecisionRequest)
    requires e.uuid.Some?
    requires CheckRequest(request).Ok? && request.decision != Rejected
    ensures var proposed := RecommendedAction(e.uuid.value);
            var projected := Project(e, Decided, proposed, request);
            && projected.Ok?
            && (request.decision == Approved ==> ValidateDemoAction(projected.value) == Ok(proposed))
            && (ValidateDemoAction(projected.value).Ok? <==>
                request.decision == Approved ||
                request.modifiedAction.value == proposed.(summary := request.modifiedAction.value.summary))
  {
    var proposed := RecommendedAction(e.uuid.value);
    var projected := Project(e, Decided, proposed, request);
    assert projected.value.action == EffectiveAction(proposed, request);
  }
}
