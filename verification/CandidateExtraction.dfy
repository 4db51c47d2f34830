/**
 Candidate extraction: the even division of the control-description budget, the validation of
 proposed findings and their source labels, and the run that composes them with the packed context.
 */
module CandidateExtraction {
  import opened Common
  import opened ContextPacking
  import opened RagAnswer
  import Scoring

  const MAX_RATIONALE_CHARS := 4000
  const MAX_EVIDENCE_QUOTE_CHARS := 500

  datatype Control = Control(id: nat, header: string, description: string)

  function SumLengths(parts: seq<string>): nat {
    if parts == [] then 0 else SumLengths(parts[..|parts| - 1]) + |parts[|parts| - 1]|
  }

  lemma {:induction false} JoinLength(blocks: seq<string>, separator: string)
    requires |separator| == 1
    ensures |Join(blocks, separator)| == if blocks == [] then 0 else SumLengths(blocks) + (|blocks| - 1)
    decreases |blocks|
  {
    if |blocks| > 1 {
      JoinLength(blocks[..|blocks| - 1], separator);
    } else if |blocks| == 1 {
      assert SumLengths(blocks[..0]) == 0;
    }
  }

  function Headers(controls: seq<Control>): (hs: seq<string>)
    ensures |hs| == |controls| && forall i :: 0 <= i < |hs| ==> hs[i] == controls[i].header
  {
    seq(|controls|, i requires 0 <= i < |controls| => controls[i].header)
  }

  function Descriptions(controls: seq<Control>): (ds: seq<string>)
    ensures |ds| == |controls| && forall i :: 0 <= i < |ds| ==> ds[i] == controls[i].description
  {
    seq(|controls|, i requires 0 <= i < |controls| => controls[i].description)
  }

  /** The whole header and at most `cap` characters of the description. */
  function Shown(c: Control, cap: nat): string {
    c.header + c.description[..Min(|c.description|, cap)]
  }

  predicate AllShown(blocks: seq<string>, controls: seq<Control>, cap: nat) {
    |blocks| == |controls| && forall i :: 0 <= i < |blocks| ==> blocks[i] == Shown(controls[i], cap)
  }

  lemma {:induction false} CappedLengths(blocks: seq<string>, controls: seq<Control>, cap: nat)
    requires AllShown(blocks, controls, cap)
    ensures SumLengths(blocks) <= SumLengths(Headers(controls)) + Times(|controls|, cap)
    decreases |blocks|
  {
    if blocks != [] {
      var n := |blocks| - 1;
      CappedLengths(blocks[..n], controls[..n], cap);
      assert Headers(controls)[..n] == Headers(controls[..n]);
    }
  }

  lemma {:induction false} FullLengths(blocks: seq<string>, controls: seq<Control>, cap: nat)
    requires AllShown(blocks, controls, cap)
    ensures SumLengths(blocks) <= SumLengths(Headers(controls)) + SumLengths(Descriptions(controls))
    decreases |blocks|
  {
    if blocks != [] {
      var n := |blocks| - 1;
      FullLengths(blocks[..n], controls[..n], cap);
      assert Headers(controls)[..n] == Headers(controls[..n]);
      assert Descriptions(controls)[..n] == Descriptions(controls[..n]);
    }
  }

  function Times(n: nat, cap: nat): nat {
    if n == 0 then 0 else Times(n - 1, cap) + cap
  }

  lemma {:induction false} EqualShares(total: nat, n: nat, k: nat)
    requires n > 0
    ensures Times(k, total / n) == k * (total / n)
    ensures Times(n, total / n) <= total
    decreases k
  {
    if k > 0 {
      EqualShares(total, n, k - 1);
      assert k * (total / n) == (k - 1) * (total / n) + total / n;
    } else if n > 0 {
      TimesIsProduct(n, total / n);
    }
  }

  lemma {:induction false} TimesIsProduct(n: nat, cap: nat)
    ensures Times(n, cap) == n * cap
    decreases n
  {
    if n > 0 {
      TimesIsProduct(n - 1, cap);
      assert n * cap == (n - 1) * cap + cap;
    }
  }

  datatype ControlTextError = HeadersExceedBudget

  /** The length of the identities alone, joined. */
  function Mandatory(controls: seq<Control>): nat {
    SumLengths(Headers(controls)) + (if |controls| > 1 then |controls| - 1 else 0)
  }

  /** The cap a description gets: enough for all of them when they fit, else an equal share. */
  function DescriptionCap(controls: seq<Control>, budget: int): nat
    requires controls != [] && Mandatory(controls) <= budget
  {
    var left := budget - Mandatory(controls);
    if SumLengths(Descriptions(controls)) <= left then SumLengths(Descriptions(controls)) else left / |controls|
  }

  /**
   The cap is the greatest that is fair: when everything fits no description is cut, and otherwise
   one more character for each would no longer fit.
   */
  lemma CapIsTheFairShare(controls: seq<Control>, budget: int)
    requires controls != [] && Mandatory(controls) <= budget
    ensures var cap := DescriptionCap(controls, budget);
            if Mandatory(controls) + SumLengths(Descriptions(controls)) <= budget then
              forall i :: 0 <= i < |controls| ==> Shown(controls[i], cap) == controls[i].header + controls[i].description
            else
              Mandatory(controls) + |controls| * cap <= budget < Mandatory(controls) + |controls| * (cap + 1)
  {
    if Mandatory(controls) + SumLengths(Descriptions(controls)) <= budget {
      forall i | 0 <= i < |controls|
        ensures Shown(controls[i], DescriptionCap(controls, budget)) == controls[i].header + controls[i].description
      {
        DescriptionIsPart(controls, i);
      }
    } else {
      ShareOf(budget - Mandatory(controls), |controls|);
    }
  }

  lemma ShareOf(left: nat, n: nat)
    requires n > 0
    ensures n * (left / n) <= left < n * (left / n + 1)
  {
  }

  /** Refused exactly when the identities alone do not fit; otherwise never above the ceiling. */
  method ControlText(controls: seq<Control>, budget: int) returns (r: Result<seq<string>, ControlTextError>)
    requires controls != []
    ensures r.Err? <==> Mandatory(controls) > budget
    ensures r.Ok? ==> AllShown(r.value, controls, DescriptionCap(controls, budget)) && |Join(r.value, "\n")| <= budget
  {
    if Mandatory(controls) > budget {
      return Err(HeadersExceedBudget);
    }
    var remaining := budget - Mandatory(controls);
    var total := SumLengths(Descriptions(controls));
    var blocks: seq<string>;
    if total <= remaining {
      blocks := WholeDescriptions(controls, total);
      WholeTextFits(blocks, controls, budget);
    } else {
      blocks := CutDescriptions(controls, remaining / |controls|);
      CutTextFits(blocks, controls, budget);
    }
    return Ok(blocks);
  }

  lemma WholeTextFits(blocks: seq<string>, controls: seq<Control>, budget: int)
    requires controls != [] && Mandatory(controls) + SumLengths(Descriptions(controls)) <= budget
    requires AllShown(blocks, controls, SumLengths(Descriptions(controls)))
    ensures |Join(blocks, "\n")| <= budget
  {
    FullLengths(blocks, controls, SumLengths(Descriptions(controls)));
    JoinLength(blocks, "\n");
  }

  lemma CutTextFits(blocks: seq<string>, controls: seq<Control>, budget: int)
    requires controls != [] && Mandatory(controls) <= budget
    requires AllShown(blocks, controls, (budget - Mandatory(controls)) / |controls|)
    ensures |Join(blocks, "\n")| <= budget
  {
    var remaining := budget - Mandatory(controls);
    CappedLengths(blocks, controls, remaining / |controls|);
    EqualShares(remaining, |controls|, 0);
    JoinLength(blocks, "\n");
  }

  method WholeDescriptions(controls: seq<Control>, total: nat) returns (blocks: seq<string>)
    requires total == SumLengths(Descriptions(controls))
    ensures AllShown(blocks, controls, total)
  {
    blocks := [];
    for i := 0 to |controls|
      invariant |blocks| == i && forall k :: 0 <= k < i ==> blocks[k] == Shown(controls[k], total)
    {
      DescriptionIsPart(controls, i);
      assert controls[i].description[..|controls[i].description|] == controls[i].description;
      blocks := blocks + [controls[i].header + controls[i].description];
    }
  }

  method CutDescriptions(controls: seq<Control>, cap: nat) returns (blocks: seq<string>)
    ensures AllShown(blocks, controls, cap)
  {
    blocks := [];
    for i := 0 to |controls|
      invariant |blocks| == i && forall k :: 0 <= k < i ==> blocks[k] == Shown(controls[k], cap)
    {
      blocks := blocks + [controls[i].header + controls[i].description[..Min(|controls[i].description|, cap)]];
    }
  }

  lemma {:induction false} DescriptionIsPart(controls: seq<Control>, i: nat)
    requires i < |controls|
    ensures |controls[i].description| <= SumLengths(Descriptions(controls))
    decreases |controls|
  {
    var n := |controls| - 1;
    assert Descriptions(controls)[..n] == Descriptions(controls[..n]);
    if i < n {
      DescriptionIsPart(controls[..n], i);
    }
  }

  // ---------------------------------------------------------------- findings

  datatype RawConfidence = NoConfidence | NotANumber | Confidence(value: real)

  /** Normalised labels; a source without a text label stands as the empty label, which names no match. */
  datatype RawSources = NoSources | NotAList | Listed(labels: seq<string>)

  /** A finding as the model proposed it; None where a field is missing or malformed. */
  datatype RawFinding =
    | NotAnObject
    | RawFinding(control: Option<nat>, status: Option<Scoring.ControlStatus>, rationale: Option<string>,
                 confidence: RawConfidence, sources: RawSources)

  /** A validated finding; a reference is the index of an admitted match. */
  datatype Candidate = Candidate(control: nat, status: Scoring.ControlStatus, rationale: string,
                                 confidence: Option<real>, references: seq<nat>)

  predicate ConfidenceOk(c: RawConfidence) {
    c.NoConfidence? || (c.Confidence? && 0.0 <= c.value <= 1.0)
  }

  /** Every field is there and well formed, apart from what its identifiers name. */
  predicate FieldsOk(f: RawFinding) {
    && f.RawFinding? && f.control.Some? && f.status.Some?
    && f.rationale.Some? && Strip(f.rationale.value) != ""
    && ConfidenceOk(f.confidence) && !f.sources.NotAList?
  }

  function ControlOf(f: RawFinding): Option<nat> {
    if f.RawFinding? then f.control else None
  }

  function CitedBy(f: RawFinding): seq<string> {
    if f.RawFinding? && f.sources.Listed? then f.sources.labels else []
  }

  function CandidateOf(f: RawFinding, references: seq<nat>): Candidate
    requires FieldsOk(f)
  {
    var rationale := Strip(f.rationale.value);
    Candidate(f.control.value, f.status.value, rationale[..Min(|rationale|, MAX_RATIONALE_CHARS)],
              if f.confidence.Confidence? then Some(f.confidence.value) else None, references)
  }

  predicate Distinct(s: seq<nat>) {
    forall i, j :: 0 <= i < j < |s| ==> s[i] != s[j]
  }

  /** The labels of some references, in their order. */
  function LabelSeq(references: seq<nat>): (names: seq<string>)
    ensures |names| == |references| && forall i :: 0 <= i < |names| ==> names[i] == Label(references[i])
  {
    seq(|references|, i requires 0 <= i < |references| => Label(references[i]))
  }

  /** The distinct labels, in the order of their first citation. */
  function FirstCited(labels: seq<string>): seq<string> {
    if labels == [] then []
    else
      var rest := FirstCited(labels[..|labels| - 1]);
      if labels[|labels| - 1] in rest then rest else rest + [labels[|labels| - 1]]
  }

  lemma {:induction false} FirstCitedGrows(labels: seq<string>, k: nat)
    requires k <= |labels|
    ensures FirstCited(labels[..k]) <= FirstCited(labels)
    decreases |labels|
  {
    if k < |labels| {
      FirstCitedGrows(labels[..|labels| - 1], k);
      assert labels[..|labels| - 1][..k] == labels[..k];
    } else {
      assert labels[..k] == labels;
    }
  }

  /** Distinct references have distinct labels. */
  lemma NewLabelNewReference(references: seq<nat>, k: nat)
    requires Distinct(references) && Label(k) !in LabelSeq(references)
    ensures Distinct(references + [k])
    ensures LabelSeq(references + [k]) == LabelSeq(references) + [Label(k)]
  {
    forall i | 0 <= i < |references| ensures references[i] != k {
      assert LabelSeq(references)[i] in LabelSeq(references);
    }
  }

  predicate AllBelow(references: seq<nat>, m: nat) {
    forall k :: 0 <= k < |references| ==> references[k] < m
  }

  function IndexOf(m: nat, name: string): (k: Option<nat>)
    ensures k.Some? ==> k.value < m && Label(k.value) == name
    ensures k.None? ==> name !in LabelsUpTo(m)
  {
    if m == 0 then None else if Label(m - 1) == name then Some(m - 1) else IndexOf(m - 1, name)
  }

  /** The first cited labels, at most `cap` of them, resolved to admitted matches. */
  predicate Resolved(references: seq<nat>, labels: seq<string>, m: nat, cap: nat) {
    && Distinct(references) && AllBelow(references, m)
    && LabelSeq(references) == FirstCited(labels)[..Min(|FirstCited(labels)|, cap)]
  }

  /** Some label that is reached before the cap names no admitted match. */
  predicate ReachesUnknown(labels: seq<string>, m: nat, cap: nat) {
    exists k :: 0 <= k < |labels| && labels[k] !in LabelsUpTo(m) && |FirstCited(labels[..k])| < cap
  }

  /**
   The references are the first `cap` distinct labels in citation order; an unknown label refuses
   exactly when it is reached. The loop stops at the cap, so labels after it are not looked at.
   */
  method CheckSources(labels: seq<string>, m: nat, cap: nat) returns (r: Result<seq<nat>, RagError>)
    requires cap >= 1
    ensures r.Ok? ==> Resolved(r.value, labels, m, cap)
    ensures r.Err? <==> ReachesUnknown(labels, m, cap)
  {
    var references: seq<nat> := [];
    for k := 0 to |labels|
      invariant |references| < cap
      invariant Scanned(references, labels, k, m)
    {
      var found := IndexOf(m, labels[k]);
      if found.None? {
        assert |FirstCited(labels[..k])| < cap;
        return Err(UntrustedCitation);
      }
      ScanOneMore(references, labels, k, m, found.value);
      if labels[k] !in LabelSeq(references) {
        references := references + [found.value];
        if |references| >= cap {
          ScanIsResolved(references, labels, k + 1, m, cap);
          return Ok(references);
        }
      }
    }
    ScanIsResolved(references, labels, |labels|, m, cap);
    return Ok(references);
  }

  /** The first k labels are all admitted, and these are their references. */
  predicate Scanned(references: seq<nat>, labels: seq<string>, k: nat, m: nat) {
    && k <= |labels| && Distinct(references) && AllBelow(references, m)
    && LabelSeq(references) == FirstCited(labels[..k])
    && forall j :: 0 <= j < k ==> labels[j] in LabelsUpTo(m)
  }

  lemma ScanOneMore(references: seq<nat>, labels: seq<string>, k: nat, m: nat, found: nat)
    requires k < |labels| && Scanned(references, labels, k, m) && found < m && Label(found) == labels[k]
    ensures Scanned(if labels[k] in LabelSeq(references) then references else references + [found], labels, k + 1, m)
  {
    NextLabel(labels, k);
    assert Label(found) in LabelsUpTo(m);
    if labels[k] !in LabelSeq(references) {
      NewLabelNewReference(references, found);
    }
  }

  lemma ScanIsResolved(references: seq<nat>, labels: seq<string>, k: nat, m: nat, cap: nat)
    requires Scanned(references, labels, k, m)
    requires |references| == cap || (k == |labels| && |references| < cap)
    ensures Resolved(references, labels, m, cap) && !ReachesUnknown(labels, m, cap)
  {
    FirstCitedGrows(labels, k);
    assert labels[..|labels|] == labels;
    forall j | k <= j < |labels| ensures |FirstCited(labels[..j])| >= cap {
      FirstCitedGrows(labels[..j], k);
      assert labels[..j][..k] == labels[..k];
    }
  }

  lemma NextLabel(labels: seq<string>, k: nat)
    requires k < |labels|
    ensures FirstCited(labels[..k + 1]) ==
            if labels[k] in FirstCited(labels[..k]) then FirstCited(labels[..k]) else FirstCited(labels[..k]) + [labels[k]]
  {
    assert labels[..k + 1][..k] == labels[..k];
  }

  /** One candidate for each finding, in order, with its fields and its references resolved. */
  predicate Validated(cs: seq<Candidate>, findings: seq<RawFinding>, m: nat, cap: nat) {
    ValidatedUpTo(cs, findings, |findings|, m, cap)
  }

  predicate ValidatedUpTo(cs: seq<Candidate>, findings: seq<RawFinding>, n: nat, m: nat, cap: nat) {
    |cs| == n <= |findings| && forall i :: 0 <= i < n ==> ValidatedAs(cs[i], findings[i], m, cap)
  }

  predicate ValidatedAs(c: Candidate, f: RawFinding, m: nat, cap: nat) {
    FieldsOk(f) && c == CandidateOf(f, c.references) && Resolved(c.references, CitedBy(f), m, cap)
  }

  /** One finding by itself: well formed, of a target control, reaching no unknown label. */
  predicate FindingOk(f: RawFinding, targets: set<nat>, m: nat, cap: nat) {
    FieldsOk(f) && f.control.value in targets && !ReachesUnknown(CitedBy(f), m, cap)
  }

  /** The first n findings: each one fine by itself, no control named twice. */
  predicate AcceptableUpTo(findings: seq<RawFinding>, n: nat, targets: set<nat>, m: nat, cap: nat)
    requires n <= |findings|
  {
    OkUpTo(findings, n, targets, m, cap) && DistinctUpTo(findings, n)
  }

  predicate OkUpTo(findings: seq<RawFinding>, n: nat, targets: set<nat>, m: nat, cap: nat)
    requires n <= |findings|
  {
    forall i :: 0 <= i < n ==> FindingOk(findings[i], targets, m, cap)
  }

  predicate DistinctUpTo(findings: seq<RawFinding>, n: nat)
    requires n <= |findings|
  {
    forall i, j :: 0 <= i < j < n ==> ControlOf(findings[i]) != ControlOf(findings[j])
  }

  predicate Acceptable(findings: seq<RawFinding>, targets: set<nat>, m: nat, cap: nat) {
    AcceptableUpTo(findings, |findings|, targets, m, cap)
  }

  /** A list of findings passes when each one does and no two are about the same control. */
  lemma AcceptableMeans(findings: seq<RawFinding>, targets: set<nat>, m: nat, cap: nat)
    ensures Acceptable(findings, targets, m, cap) <==>
            && (forall i :: 0 <= i < |findings| ==> FindingOk(findings[i], targets, m, cap))
            && forall i, j :: 0 <= i < j < |findings| && findings[i].RawFinding? && findings[j].RawFinding? ==>
                 findings[i].control != findings[j].control
  {
    if forall i :: 0 <= i < |findings| ==> FindingOk(findings[i], targets, m, cap) {
      forall i | 0 <= i < |findings| ensures findings[i].RawFinding? && ControlOf(findings[i]) == findings[i].control {
        FindingRules(findings[i], targets, m, cap);
      }
    }
  }

  method CheckFields(f: RawFinding) returns (ok: bool)
    ensures ok <==> FieldsOk(f)
  {
    if f.NotAnObject? || f.control.None? || f.status.None? || f.rationale.None? {
      return false;
    }
    if Strip(f.rationale.value) == "" {
      return false;
    }
    return ConfidenceOk(f.confidence) && !f.sources.NotAList?;
  }

  /** All the checks on one finding; each refusal is the same error to the caller. */
  method CheckFinding(f: RawFinding, targets: set<nat>, m: nat, cap: nat) returns (r: Result<Candidate, RagError>)
    requires cap >= 1
    ensures r.Ok? <==> FindingOk(f, targets, m, cap)
    ensures r.Ok? ==> ValidatedAs(r.value, f, m, cap)
  {
    var ok := CheckFields(f);
    if !ok {
      return Err(UntrustedCitation);
    }
    if f.control.value !in targets {
      return Err(UntrustedCitation);
    }
    var references := CheckSources(CitedBy(f), m, cap);
    if references.Err? {
      return Err(UntrustedCitation);
    }
    return Ok(CandidateOf(f, references.value));
  }

  /** The rules, field by field, and what becomes of each field. */
  lemma FindingRules(f: RawFinding, targets: set<nat>, m: nat, cap: nat)
    ensures FindingOk(f, targets, m, cap) <==>
            && f.RawFinding? && f.control.Some? && f.control.value in targets && f.status.Some?
            && f.rationale.Some? && Strip(f.rationale.value) != ""
            && (f.confidence.NoConfidence? || (f.confidence.Confidence? && 0.0 <= f.confidence.value <= 1.0))
            && (f.sources.NoSources? || (f.sources.Listed? && !ReachesUnknown(f.sources.labels, m, cap)))
  {
  }

  lemma FieldsAreKept(f: RawFinding, c: Candidate)
    requires FieldsOk(f) && c == CandidateOf(f, c.references)
    ensures f.RawFinding? && Some(c.control) == f.control && Some(c.status) == f.status && f.rationale.Some?
    ensures c.rationale <= Strip(f.rationale.value) && |c.rationale| == Min(|Strip(f.rationale.value)|, 4000)
    ensures c.confidence == if f.confidence.Confidence? then Some(f.confidence.value) else None
  {
  }

  /**
   Any malformed finding, unknown or repeated control, or unknown label reached refuses the whole
   response; otherwise every finding comes back validated.
   */
  method ValidateFindings(findings: seq<RawFinding>, targets: set<nat>, m: nat, maxCandidates: nat, cap: nat)
    returns (r: Result<seq<Candidate>, RagError>)
    requires cap >= 1
    ensures r.Ok? <==> |findings| <= maxCandidates && Acceptable(findings, targets, m, cap)
    ensures r.Ok? ==> Validated(r.value, findings, m, cap)
    ensures r.Err? ==> r.error == UntrustedCitation
  {
    if |findings| > maxCandidates {
      return Err(UntrustedCitation);
    }
    var candidates: seq<Candidate> := [];
    var seen: set<Option<nat>> := {};
    for i := 0 to |findings|
      invariant ValidatedUpTo(candidates, findings, i, m, cap)
      invariant seen == ControlsUpTo(findings, i)
      invariant AcceptableUpTo(findings, i, targets, m, cap)
    {
      OneMoreFinding(findings, i, targets, m, cap);
      var checked := CheckFinding(findings[i], targets, m, cap);
      if checked.Err? || ControlOf(findings[i]) in seen {
        return Err(UntrustedCitation);
      }
      seen := seen + {ControlOf(findings[i])};
      OneMoreValidated(candidates, findings, i, m, cap, checked.value);
      candidates := candidates + [checked.value];
    }
    return Ok(candidates);
  }

  function ControlsUpTo(findings: seq<RawFinding>, n: nat): set<Option<nat>>
    requires n <= |findings|
  {
    set j | 0 <= j < n :: ControlOf(findings[j])
  }

  lemma OneMoreFinding(findings: seq<RawFinding>, i: nat, targets: set<nat>, m: nat, cap: nat)
    requires i < |findings| && AcceptableUpTo(findings, i, targets, m, cap)
    ensures ControlsUpTo(findings, i + 1) == ControlsUpTo(findings, i) + {ControlOf(findings[i])}
    ensures AcceptableUpTo(findings, i + 1, targets, m, cap) <==>
            FindingOk(findings[i], targets, m, cap) && ControlOf(findings[i]) !in ControlsUpTo(findings, i)
    ensures Acceptable(findings, targets, m, cap) ==> AcceptableUpTo(findings, i + 1, targets, m, cap)
  {
    OneMoreOk(findings, i, targets, m, cap);
    OneMoreDistinct(findings, i);
  }

  lemma OneMoreOk(findings: seq<RawFinding>, i: nat, targets: set<nat>, m: nat, cap: nat)
    requires i < |findings| && OkUpTo(findings, i, targets, m, cap)
    ensures OkUpTo(findings, i + 1, targets, m, cap) <==> FindingOk(findings[i], targets, m, cap)
    ensures OkUpTo(findings, |findings|, targets, m, cap) ==> OkUpTo(findings, i + 1, targets, m, cap)
  {
  }

  lemma OneMoreDistinct(findings: seq<RawFinding>, i: nat)
    requires i < |findings| && DistinctUpTo(findings, i)
    ensures DistinctUpTo(findings, i + 1) <==> ControlOf(findings[i]) !in ControlsUpTo(findings, i)
    ensures ControlsUpTo(findings, i + 1) == ControlsUpTo(findings, i) + {ControlOf(findings[i])}
    ensures DistinctUpTo(findings, |findings|) ==> DistinctUpTo(findings, i + 1)
  {
  }

  lemma OneMoreValidated(cs: seq<Candidate>, findings: seq<RawFinding>, i: nat, m: nat, cap: nat, c: Candidate)
    requires i < |findings| && ValidatedUpTo(cs, findings, i, m, cap) && ValidatedAs(c, findings[i], m, cap)
    ensures ValidatedUpTo(cs + [c], findings, i + 1, m, cap)
  {
    forall j | 0 <= j < i + 1 ensures ValidatedAs((cs + [c])[j], findings[j], m, cap) {
      ValidatedStays(cs, findings, i, m, cap, c, j);
    }
  }

  lemma ValidatedStays(cs: seq<Candidate>, findings: seq<RawFinding>, i: nat, m: nat, cap: nat, c: Candidate, j: nat)
    requires i < |findings| && ValidatedUpTo(cs, findings, i, m, cap) && ValidatedAs(c, findings[i], m, cap) && j <= i
    ensures ValidatedAs((cs + [c])[j], findings[j], m, cap)
  {
    assert (cs + [c])[j] == if j < i then cs[j] else c;
  }

  /** These are the places of the distinct labels: where each first stands, in ascending order. */
  predicate FirstPlaces(places: seq<nat>, cited: seq<string>, labels: seq<string>) {
    && |places| == |cited|
    && (forall i :: 0 <= i < |places| ==> places[i] < |labels| && cited[i] == labels[places[i]])
    && (forall i, j :: 0 <= i < j < |places| ==> places[i] < places[j])
    && (forall i, j :: 0 <= i < j < |cited| ==> cited[i] != cited[j])
    && (forall k :: 0 <= k < |labels| ==> CitedBefore(places, cited, labels, k))
  }

  /** Label k is a cited one, whose first place is not after k. */
  predicate CitedBefore(places: seq<nat>, cited: seq<string>, labels: seq<string>, k: nat)
    requires k < |labels| && |places| == |cited|
  {
    exists i :: 0 <= i < |places| && cited[i] == labels[k] && places[i] <= k
  }

  lemma OnePlaceMore(places: seq<nat>, cited: seq<string>, labels: seq<string>, name: string)
    requires FirstPlaces(places, cited, labels)
    ensures name in cited ==> FirstPlaces(places, cited, labels + [name])
    ensures name !in cited ==> FirstPlaces(places + [|labels|], cited + [name], labels + [name])
  {
    var all := labels + [name];
    forall k | 0 <= k < |all| && name in cited ensures CitedBefore(places, cited, all, k) {
      if k < |labels| {
        assert CitedBefore(places, cited, labels, k);
      }
    }
    var more, names := places + [|labels|], cited + [name];
    forall k | 0 <= k < |all| ensures CitedBefore(more, names, all, k) {
      if k < |labels| {
        assert CitedBefore(places, cited, labels, k);
        var i :| 0 <= i < |places| && cited[i] == labels[k] && places[i] <= k;
        assert more[i] == places[i] && names[i] == cited[i];
      } else {
        assert more[|places|] == |labels| && names[|places|] == name;
      }
    }
  }

  /** FirstCited keeps each label once, in the order of their first places. */
  lemma {:induction false} FirstCitedIsInOrder(labels: seq<string>) returns (places: seq<nat>)
    ensures FirstPlaces(places, FirstCited(labels), labels)
    decreases |labels|
  {
    places := [];
    if labels != [] {
      var n := |labels| - 1;
      places := FirstCitedIsInOrder(labels[..n]);
      OnePlaceMore(places, FirstCited(labels[..n]), labels[..n], labels[n]);
      assert labels[..n] + [labels[n]] == labels;
      if labels[n] !in FirstCited(labels[..n]) {
        places := places + [n];
      }
    }
  }

  // ---------------------------------------------------------------- the whole run

  function CandidateItem(m: SearchMatch, i: nat): Item {
    Item("[" + Label(i) + "] chunk_id=" + m.chunkId + " document_id=" + m.documentId + "\n", m.content)
  }

  /** The retrieved chunks as they are offered to the packer, each under its label. */
  function CandidateItems(matches: seq<SearchMatch>): (items: seq<Item>)
    ensures |items| == |matches|
  {
    seq(|matches|, i requires 0 <= i < |matches| => CandidateItem(matches[i], i))
  }

  /** Identifiers and quote come from the retrieved chunk, never from the model. */
  datatype Evidence = Evidence(chunkId: string, documentId: string, quote: string)

  function EvidenceFrom(m: SearchMatch): Evidence {
    Evidence(m.chunkId, m.documentId, m.content[..Min(|m.content|, MAX_EVIDENCE_QUOTE_CHARS)])
  }

  // ---------------------------------------------------------------- what is printed under a label

  /** The text the model is shown, as its blocks. */
  function ContextBlocks(matches: seq<SearchMatch>, budget: int): seq<string> {
    SourceBlocks(CandidateItems(matches), budget)
  }

  /** The block printed under the label of match k names this chunk and holds its content. */
  ghost predicate PrintedUnder(matches: seq<SearchMatch>, budget: int, k: nat, e: Evidence, content: string) {
    var blocks := ContextBlocks(matches, budget);
    && k < |blocks|
    && StandsIn(SourceText(CandidateItems(matches), budget), BeforeBlock(blocks, k),
                "[" + Label(k) + "] chunk_id=" + e.chunkId + " document_id=" + e.documentId + "\n" + content)
  }

  /** The evidence quotes the chunk whose text stands under the label of match k, whole or cut when it is the only one. */
  ghost predicate Quotes(matches: seq<SearchMatch>, budget: int, k: nat, e: Evidence) {
    && k < |matches| && e.quote <= matches[k].content && |e.quote| == Min(|matches[k].content|, 500)
    && exists content :: PrintedUnder(matches, budget, k, e, content) && content <= matches[k].content
                         && (content == matches[k].content || |ContextBlocks(matches, budget)| == 1)
  }

  lemma EvidenceQuotesItsBlock(matches: seq<SearchMatch>, budget: int, k: nat)
    requires k < SourceCount(CandidateItems(matches), budget)
    ensures Quotes(matches, budget, k, EvidenceFrom(matches[k]))
  {
    var items := CandidateItems(matches);
    BlockStandsInText(SourceBlocks(items, budget), k);
    SourceBlocksAreTheirItems(items, budget, k);
    HeaderNamesTheChunk(matches, k);
    var e := EvidenceFrom(matches[k]);
    if SourceBlocks(items, budget)[k] == items[k].header + items[k].content {
      assert PrintedUnder(matches, budget, k, e, matches[k].content);
    } else {
      assert PrintedUnder(matches, budget, k, e, matches[k].content[..budget - |items[0].header|]);
    }
  }

  lemma HeaderNamesTheChunk(matches: seq<SearchMatch>, k: nat)
    requires k < |matches|
    ensures CandidateItems(matches)[k].header ==
            "[" + Label(k) + "] chunk_id=" + matches[k].chunkId + " document_id=" + matches[k].documentId + "\n"
    ensures CandidateItems(matches)[k].content == matches[k].content
  {
  }

  /** Every piece of evidence quotes the chunk printed under its own reference's label. */
  ghost predicate AllQuoted(xs: seq<ExtractedFinding>, matches: seq<SearchMatch>, budget: int) {
    forall i, j :: 0 <= i < |xs| && 0 <= j < |xs[i].evidence| && |xs[i].evidence| == |xs[i].candidate.references| ==>
      Quotes(matches, budget, xs[i].candidate.references[j], xs[i].evidence[j])
  }

  lemma ShownEvidenceIsQuoted(xs: seq<ExtractedFinding>, matches: seq<SearchMatch>, budget: int)
    requires AllShownEvidence(xs, matches, SourceCount(CandidateItems(matches), budget))
    ensures AllQuoted(xs, matches, budget)
  {
    forall i, j | 0 <= i < |xs| && 0 <= j < |xs[i].evidence| && |xs[i].evidence| == |xs[i].candidate.references|
      ensures Quotes(matches, budget, xs[i].candidate.references[j], xs[i].evidence[j])
    {
      assert EvidenceShown(xs[i], matches, SourceCount(CandidateItems(matches), budget));
      EvidenceQuotesItsBlock(matches, budget, xs[i].candidate.references[j]);
    }
  }

  datatype ExtractedFinding = ExtractedFinding(candidate: Candidate, evidence: seq<Evidence>)

  datatype Extraction = Extraction(findings: seq<ExtractedFinding>, retrieved: nat, evaluated: nat)

  datatype ExtractionFailure = ControlsExceedBudget | ModelFailed | Untrusted

  function TargetsOf(controls: seq<Control>): (ids: set<nat>)
    ensures forall id :: id in ids <==> exists i :: 0 <= i < |controls| && controls[i].id == id
  {
    set i | 0 <= i < |controls| :: controls[i].id
  }

  /** Every piece of evidence is one of the first m chunks, the one its label was printed for. */
  predicate EvidenceShown(x: ExtractedFinding, matches: seq<SearchMatch>, m: nat)
    requires m <= |matches|
  {
    && |x.evidence| == |x.candidate.references| && AllBelow(x.candidate.references, m)
    && forall j :: 0 <= j < |x.evidence| ==> x.evidence[j] == EvidenceFrom(matches[x.candidate.references[j]])
  }

  predicate AllShownEvidence(xs: seq<ExtractedFinding>, matches: seq<SearchMatch>, m: nat)
    requires m <= |matches|
  {
    forall i :: 0 <= i < |xs| ==> EvidenceShown(xs[i], matches, m)
  }

  function CandidatesOf(xs: seq<ExtractedFinding>): (cs: seq<Candidate>)
    ensures |cs| == |xs| && forall i :: 0 <= i < |cs| ==> cs[i] == xs[i].candidate
  {
    seq(|xs|, i requires 0 <= i < |xs| => xs[i].candidate)
  }

  method AttachEvidence(cs: seq<Candidate>, matches: seq<SearchMatch>, ghost m: nat) returns (xs: seq<ExtractedFinding>)
    requires m <= |matches| && forall i :: 0 <= i < |cs| ==> AllBelow(cs[i].references, m)
    ensures CandidatesOf(xs) == cs && AllShownEvidence(xs, matches, m)
  {
    xs := [];
    for i := 0 to |cs|
      invariant CandidatesOf(xs) == cs[..i] && AllShownEvidence(xs, matches, m)
    {
      var references := cs[i].references;
      var evidence := seq(|references|, j requires 0 <= j < |references| && references[j] < |matches| =>
        EvidenceFrom(matches[references[j]]));
      xs := xs + [ExtractedFinding(cs[i], evidence)];
      assert cs[..i + 1] == cs[..i] + [cs[i]];
    }
    assert cs[..|cs|] == cs;
  }

  /**
   The run from retrieved chunks to findings. Whatever the model answers, an accepted finding is
   about a target control, and its evidence is exactly chunks whose blocks were in the context the
   model saw, quoted from the chunks themselves.
   */
  method ExtractCandidates(matches: seq<SearchMatch>, controls: seq<Control>, contextBudget: int, controlBudget: int,
                           model: (string, string) -> Option<seq<RawFinding>>, maxCandidates: nat, cap: nat)
    returns (r: Result<Extraction, ExtractionFailure>)
    requires cap >= 1
    ensures var m := SourceCount(CandidateItems(matches), contextBudget);
            if controls == [] || m == 0 then r == Ok(Extraction([], 0, |controls|))
            else if Mandatory(controls) > controlBudget then r == Err(ControlsExceedBudget)
            else
              exists text ::
                && FitsControls(text, controls, controlBudget)
                && var reply := model(SourceText(CandidateItems(matches), contextBudget), text);
                   if reply.None? then r == Err(ModelFailed)
                   else if |reply.value| > maxCandidates || !Acceptable(reply.value, TargetsOf(controls), m, cap) then
                     r == Err(Untrusted)
                   else
                     && r.Ok? && r.value.retrieved == |matches| && r.value.evaluated == |controls|
                     && Validated(CandidatesOf(r.value.findings), reply.value, m, cap)
                     && AllShownEvidence(r.value.findings, matches, m)
                     && AllQuoted(r.value.findings, matches, contextBudget)
  {
    if controls == [] {
      return Ok(Extraction([], 0, 0));
    }
    if matches == [] {
      return Ok(Extraction([], 0, |controls|));
    }
    var blocks, length := PackComplete(CandidateItems(matches), contextBudget);
    if blocks == [] {
      return Ok(Extraction([], 0, |controls|));
    }
    var described := ControlText(controls, controlBudget);
    if described.Err? {
      return Err(ControlsExceedBudget);
    }
    var text := Join(described.value, "\n");
    assert FitsControls(text, controls, controlBudget);
    var reply := model(Join(blocks, SEPARATOR), text);
    if reply.None? {
      return Err(ModelFailed);
    }
    var validated := ValidateFindings(reply.value, TargetsOf(controls), |blocks|, maxCandidates, cap);
    if validated.Err? {
      return Err(Untrusted);
    }
    var findings := AttachEvidence(validated.value, matches, |blocks|);
    ShownEvidenceIsQuoted(findings, matches, contextBudget);
    return Ok(Extraction(findings, |matches|, |controls|));
  }

  /** The controls' headers and their descriptions cut at the common cap, one to a line, within the ceiling. */
  ghost predicate FitsControls(text: string, controls: seq<Control>, budget: int)
    requires controls != [] && Mandatory(controls) <= budget
  {
    |text| <= budget
    && exists blocks :: AllShown(blocks, controls, DescriptionCap(controls, budget)) && text == Join(blocks, "\n")
  }
}
