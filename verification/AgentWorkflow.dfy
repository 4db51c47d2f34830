/**
 The Risk and Reviewer agents over the same packed evidence, and the workflow that composes them.
 */
module AgentWorkflow {
  import opened Common
  import opened ContextPacking

  const MAX_EVIDENCE := 10

  datatype Match = Match(chunkId: string, documentId: string, content: string)

  datatype Estimate = Estimate(chunkId: string, likelihood: real, impact: real, rationale: string)

  datatype AgentError = UpstreamError

  function EvidenceItem(m: Match): Item {
    Item("[chunk_id=" + m.chunkId + "] [document_id=" + m.documentId + "]\n", m.content)
  }

  function Items(evidence: seq<Match>): (items: seq<Item>)
    ensures |items| == |evidence|
  {
    seq(|evidence|, i requires 0 <= i < |evidence| => EvidenceItem(evidence[i]))
  }

  function IdsOf(evidence: seq<Match>): set<string> {
    set i | 0 <= i < |evidence| :: evidence[i].chunkId
  }

  /** The evidence identifiers that reach the model under a budget. */
  function ContextIds(evidence: seq<Match>, budget: int): set<string> {
    IdsOf(evidence[..AdmittedCount(Items(evidence), budget)])
  }

  predicate UniqueMatches(evidence: seq<Match>) {
    forall i, j :: 0 <= i < j < |evidence| ==> evidence[i].chunkId != evidence[j].chunkId
  }

  predicate UniqueEstimates(estimates: seq<Estimate>) {
    forall i, j :: 0 <= i < j < |estimates| ==> estimates[i].chunkId != estimates[j].chunkId
  }

  predicate AllWithin(estimates: seq<Estimate>, ids: set<string>) {
    forall i :: 0 <= i < |estimates| ==> estimates[i].chunkId in ids
  }

  predicate RepeatsAChunk(evidence: seq<Match>) {
    exists i, j :: 0 <= i < j < |evidence| && evidence[i].chunkId == evidence[j].chunkId
  }

  /** What the Risk request accepts. */
  predicate RiskRequestValid(evidence: seq<Match>) {
    |evidence| <= MAX_EVIDENCE && UniqueMatches(evidence)
  }

  /** What the Reviewer request accepts. */
  predicate ReviewRequestValid(evidence: seq<Match>, estimates: seq<Estimate>) {
    && |evidence| <= MAX_EVIDENCE && |estimates| <= MAX_EVIDENCE && UniqueMatches(evidence)
    && UniqueEstimates(estimates) && AllWithin(estimates, IdsOf(evidence))
  }

  // ---------------------------------------------------------------- the shown evidence

  /** The evidence identifiers are those of the longest prefix whose headers fit, and of nothing else. */
  lemma ContextIdsAreThePrefix(evidence: seq<Match>, budget: int, id: string)
    ensures id in ContextIds(evidence, budget) <==>
            exists k :: 0 <= k < AdmittedCount(Items(evidence), budget) && evidence[k].chunkId == id
  {
    var n := AdmittedCount(Items(evidence), budget);
    if k :| 0 <= k < n && evidence[k].chunkId == id {
      assert evidence[..n][k].chunkId == id;
    }
  }

  /**
   The text printed for admitted evidence names its chunk and document and goes on with its
   content, cut only when it is the last and the text is full.
   */
  lemma ContextNamesItsEvidence(evidence: seq<Match>, budget: int, k: nat) returns (content: string)
    requires k < AdmittedCount(Items(evidence), budget)
    ensures var blocks := PackedBlocks(Items(evidence), budget);
            var text := Join(blocks, SEPARATOR);
            && StandsIn(text, BeforeBlock(blocks, k),
                        "[chunk_id=" + evidence[k].chunkId + "] [document_id=" + evidence[k].documentId + "]\n" + content)
            && content <= evidence[k].content
            && (content == evidence[k].content || (k + 1 == |blocks| && |text| == budget && content != ""))
    ensures evidence[k].chunkId in ContextIds(evidence, budget)
  {
    var items := Items(evidence);
    BlockStandsInText(PackedBlocks(items, budget), k);
    PackedBlocksAreTheirItems(items, budget, k);
    ContextIdsAreThePrefix(evidence, budget, evidence[k].chunkId);
    if PackedBlocks(items, budget)[k] == items[k].header + items[k].content {
      content := evidence[k].content;
    } else {
      var c :| 0 < c < |items[k].content| && PackedBlocks(items, budget)[k] == items[k].header + items[k].content[..c];
      content := evidence[k].content[..c];
    }
  }

  // ---------------------------------------------------------------- risk

  datatype RiskResult = RiskResult(estimates: seq<Estimate>, evidenceCount: nat)

  /** The estimates the Risk agent lets through. */
  predicate RiskAccepts(evidence: seq<Match>, budget: int, estimates: seq<Estimate>) {
    |estimates| <= MAX_EVIDENCE && AllWithin(estimates, ContextIds(evidence, budget)) && UniqueEstimates(estimates)
  }

  method PackEvidence(evidence: seq<Match>, budget: int) returns (text: string, ids: set<string>, any: bool)
    ensures text == Join(PackedBlocks(Items(evidence), budget), SEPARATOR) && |text| <= Max(budget, 0)
    ensures ids == ContextIds(evidence, budget)
    ensures any <==> AdmittedCount(Items(evidence), budget) > 0
  {
    var blocks, length := PackTruncating(Items(evidence), budget);
    ids := {};
    for k := 0 to |blocks|
      invariant ids == IdsOf(evidence[..k])
    {
      ids := ids + {evidence[k].chunkId};
    }
    return Join(blocks, SEPARATOR), ids, blocks != [];
  }

  /** `reply` is None when the model call or its structured output fails. */
  method Assess(evidence: seq<Match>, budget: int, reply: Option<seq<Estimate>>)
    returns (r: Result<RiskResult, AgentError>)
    requires budget >= 100
    ensures AdmittedCount(Items(evidence), budget) == 0 ==> r == Ok(RiskResult([], 0))
    ensures AdmittedCount(Items(evidence), budget) > 0 ==>
              if reply.Some? && |reply.value| <= 10 && AllWithin(reply.value, ContextIds(evidence, budget))
                 && UniqueEstimates(reply.value)
              then r == Ok(RiskResult(reply.value, |ContextIds(evidence, budget)|))
              else r.Err?
  {
    var text, ids, any := PackEvidence(evidence, budget);
    if !any {
      return Ok(RiskResult([], 0));
    }
    if reply.None? || |reply.value| > MAX_EVIDENCE {
      return Err(UpstreamError);
    }
    var estimates := reply.value;
    var validated: seq<Estimate> := [];
    var seen: set<string> := {};
    for k := 0 to |estimates|
      invariant validated == estimates[..k]
      invariant seen == set i | 0 <= i < k :: estimates[i].chunkId
      invariant AllWithin(estimates[..k], ids) && UniqueEstimates(estimates[..k])
    {
      if estimates[k].chunkId !in ids {
        return Err(UpstreamError);
      }
      if estimates[k].chunkId in seen {
        return Err(UpstreamError);
      }
      seen := seen + {estimates[k].chunkId};
      validated := validated + [estimates[k]];
    }
    assert estimates[..|estimates|] == estimates;
    return Ok(RiskResult(validated, |ids|));
  }

  // ---------------------------------------------------------------- reviewer

  datatype ReviewDecision = Pass | Fail

  datatype Verdict = Verdict(decision: ReviewDecision, reasonIds: seq<seq<string>>)

  /** Where a review decision came from: three checks made before the model, or the model. */
  datatype Origin = NoTrustedEvidence | OutsideTrusted | OutsideContext | ModelVerdict(reasonIds: seq<seq<string>>)

  datatype ReviewResult = ReviewResult(decision: ReviewDecision, origin: Origin, evidenceCount: nat)

  predicate ReasonsWithin(reasonIds: seq<seq<string>>, ids: set<string>) {
    forall i, j :: 0 <= i < |reasonIds| && 0 <= j < |reasonIds[i]| ==> reasonIds[i][j] in ids
  }

  method FindOutside(estimates: seq<Estimate>, ids: set<string>) returns (outside: bool)
    ensures outside <==> !AllWithin(estimates, ids)
  {
    for k := 0 to |estimates|
      invariant AllWithin(estimates[..k], ids)
    {
      if estimates[k].chunkId !in ids {
        return true;
      }
    }
    return false;
  }

  method Review(evidence: seq<Match>, estimates: seq<Estimate>, budget: int, reply: Option<Verdict>)
    returns (r: Result<ReviewResult, AgentError>)
    requires budget >= 100
    ensures r.Ok? && r.value.origin.NoTrustedEvidence? <==> evidence == []
    ensures r.Ok? && r.value.origin.OutsideTrusted? <==> evidence != [] && !AllWithin(estimates, IdsOf(evidence))
    ensures r.Ok? && r.value.origin.OutsideContext? <==>
            evidence != [] && AllWithin(estimates, IdsOf(evidence))
            && !AllWithin(estimates, ContextIds(evidence, budget))
    ensures r.Ok? && !r.value.origin.ModelVerdict? ==> r.value.decision == Fail
    ensures r.Ok? && !r.value.origin.ModelVerdict? ==>
              r.value.evidenceCount == match r.value.origin
                                       case NoTrustedEvidence => 0
                                       case OutsideTrusted => |IdsOf(evidence)|
                                       case _ => |ContextIds(evidence, budget)|
    ensures evidence != [] && AllWithin(estimates, ContextIds(evidence, budget)) ==>
              if reply.Some? && forall i, j :: 0 <= i < |reply.value.reasonIds| && 0 <= j < |reply.value.reasonIds[i]| ==>
                                  reply.value.reasonIds[i][j] in ContextIds(evidence, budget)
              then r == Ok(ReviewResult(reply.value.decision, ModelVerdict(reply.value.reasonIds),
                                        |ContextIds(evidence, budget)|))
              else r.Err?
  {
    var trusted := IdsOf(evidence);
    NoIdsMeansNoEvidence(evidence);
    ContextIsEvidence(evidence, budget);
    if trusted == {} {
      return Ok(ReviewResult(Fail, NoTrustedEvidence, 0));
    }
    var outside := FindOutside(estimates, trusted);
    if outside {
      return Ok(ReviewResult(Fail, OutsideTrusted, |trusted|));
    }
    var text, ids, any := PackEvidence(evidence, budget);
    var excluded := FindOutside(estimates, ids);
    if excluded {
      return Ok(ReviewResult(Fail, OutsideContext, |ids|));
    }
    if reply.None? {
      return Err(UpstreamError);
    }
    var invented := FindInvented(reply.value.reasonIds, ids);
    if invented {
      return Err(UpstreamError);
    }
    return Ok(ReviewResult(reply.value.decision, ModelVerdict(reply.value.reasonIds), |ids|));
  }

  method FindInvented(reasons: seq<seq<string>>, ids: set<string>) returns (invented: bool)
    ensures invented <==> !ReasonsWithin(reasons, ids)
  {
    for i := 0 to |reasons|
      invariant ReasonsWithin(reasons[..i], ids)
    {
      for j := 0 to |reasons[i]|
        invariant forall q :: 0 <= q < j ==> reasons[i][q] in ids
      {
        if reasons[i][j] !in ids {
          return true;
        }
      }
    }
    assert reasons[..|reasons|] == reasons;
    return false;
  }

  lemma NoIdsMeansNoEvidence(evidence: seq<Match>)
    ensures IdsOf(evidence) == {} <==> evidence == []
  {
    if evidence != [] {
      assert evidence[0].chunkId in IdsOf(evidence);
    }
  }

  // ---------------------------------------------------------------- composition

  datatype WorkflowOutcome =
    | RequestRejected
    | AgentFailed
    | Finished(succeeded: bool, risk: RiskResult, review: ReviewResult)

  predicate RiskFails(evidence: seq<Match>, budget: int, reply: Option<seq<Estimate>>) {
    AdmittedCount(Items(evidence), budget) > 0 && !(reply.Some? && RiskAccepts(evidence, budget, reply.value))
  }

  /** The estimates that reach the Reviewer: the model's, or none when nothing was packed. */
  function Estimates(evidence: seq<Match>, budget: int, reply: Option<seq<Estimate>>): seq<Estimate> {
    if AdmittedCount(Items(evidence), budget) == 0 || reply.None? then [] else reply.value
  }

  /** The Reviewer model is asked and its reply is unusable. */
  predicate ReviewFails(evidence: seq<Match>, estimates: seq<Estimate>, budget: int, reply: Option<Verdict>) {
    && evidence != [] && AllWithin(estimates, ContextIds(evidence, budget))
    && !(reply.Some? && ReasonsWithin(reply.value.reasonIds, ContextIds(evidence, budget)))
  }

  /**
   The three steps in order over one evidence list. With the Reviewer budget at least the Risk
   budget no request is ever rejected after research, and with evidence every decision is the
   Reviewer model's own: neither check made before the model can fire.
   */
  method RunSteps(evidence: seq<Match>, riskBudget: int, reviewerBudget: int,
                  riskReply: Option<seq<Estimate>>, reviewReply: Option<Verdict>)
    returns (r: WorkflowOutcome)
    requires riskBudget >= 100 && reviewerBudget >= 100
    ensures r.RequestRejected? <==> |evidence| > 10 || RepeatsAChunk(evidence)
    ensures riskBudget <= reviewerBudget && r.Finished? && evidence != [] ==> r.review.origin.ModelVerdict?
    ensures r.AgentFailed? <==>
            && RiskRequestValid(evidence)
            && (RiskFails(evidence, riskBudget, riskReply)
                || ReviewFails(evidence, Estimates(evidence, riskBudget, riskReply), reviewerBudget, reviewReply))
    ensures r.Finished? ==>
              && (r.succeeded <==> r.review.decision == Pass)
              && (r.succeeded ==> evidence != [] && r.review.origin.ModelVerdict?)
              && (r.review.origin.ModelVerdict? ==> reviewReply.Some? && r.review.decision == reviewReply.value.decision)
              && r.risk.estimates == Estimates(evidence, riskBudget, riskReply)
              && AllWithin(r.risk.estimates, ContextIds(evidence, riskBudget))
  {
    if !RiskRequestValid(evidence) {
      return RequestRejected;
    }
    var risk := Assess(evidence, riskBudget, riskReply);
    if risk.Err? {
      return AgentFailed;
    }
    ContextIsEvidence(evidence, riskBudget);
    if !ReviewRequestValid(evidence, risk.value.estimates) {
      return RequestRejected;
    }
    if riskBudget <= reviewerBudget {
      LargerBudgetSeesMore(evidence, riskBudget, reviewerBudget);
    }
    var review := Review(evidence, risk.value.estimates, reviewerBudget, reviewReply);
    if review.Err? {
      return AgentFailed;
    }
    return Finished(review.value.decision == Pass, risk.value, review.value);
  }

  lemma ContextIsEvidence(evidence: seq<Match>, budget: int)
    ensures ContextIds(evidence, budget) <= IdsOf(evidence)
  {
  }

  lemma LargerBudgetSeesMore(evidence: seq<Match>, small: int, large: int)
    requires small <= large
    ensures ContextIds(evidence, small) <= ContextIds(evidence, large)
  {
    AdmissionIsMonotone(Items(evidence), small, large);
  }

  lemma {:induction false} WholeIsPrefix(items: seq<Item>, j: nat, k: nat)
    requires j <= k <= |items|
    ensures Whole(items, j) <= Whole(items, k)
    decreases k
  {
    if j < k {
      WholeIsPrefix(items, j, k - 1);
      WholeGrows(items, k - 1);
    }
  }

  /** The text shown to the Risk model is a prefix of the text shown to a Reviewer with a larger budget. */
  lemma ReviewerReadsWhatRiskRead(evidence: seq<Match>, small: int, large: int)
    requires small <= large
    ensures Join(PackedBlocks(Items(evidence), small), SEPARATOR) <=
            Join(PackedBlocks(Items(evidence), large), SEPARATOR)
  {
    var items := Items(evidence);
    PackedTextIsATruncation(items, small);
    PackedTextIsATruncation(items, large);
    AdmissionIsMonotone(items, small, large);
    WholeIsPrefix(items, AdmittedCount(items, small), AdmittedCount(items, large));
  }

  /**
   Exactly when the two contexts are compatible: every estimate list the Risk agent can accept is
   inside the Reviewer context if and only if the Reviewer admits at least as many items.
   */
  lemma ContextsAgreeExactly(evidence: seq<Match>, riskBudget: int, reviewerBudget: int)
    requires RiskRequestValid(evidence)
    ensures (forall estimates: seq<Estimate> :: RiskAccepts(evidence, riskBudget, estimates) ==>
               AllWithin(estimates, ContextIds(evidence, reviewerBudget))) <==>
            AdmittedCount(Items(evidence), riskBudget) <= AdmittedCount(Items(evidence), reviewerBudget)
  {
    var n, m := AdmittedCount(Items(evidence), riskBudget), AdmittedCount(Items(evidence), reviewerBudget);
    if m < n {
      var estimates := [Estimate(evidence[m].chunkId, 0.0, 0.0, "x")];
      assert evidence[..n][m].chunkId in ContextIds(evidence, riskBudget);
      assert RiskAccepts(evidence, riskBudget, estimates);
      assert estimates[0].chunkId !in ContextIds(evidence, reviewerBudget);
      assert !AllWithin(estimates, ContextIds(evidence, reviewerBudget));
    } else {
      assert ContextIds(evidence, riskBudget) <= ContextIds(evidence, reviewerBudget);
    }
  }
}
