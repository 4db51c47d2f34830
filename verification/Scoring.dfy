/**
 The compliance and residual-risk scoring engine: two layers of half-up rounding around a weighted
 average, the risk bands, and the critical override.
 */
module Scoring {
  import opened Common

  /** A control identifier; the engine only compares identifiers, for equality and for order. */
  type ControlId = nat

  datatype ControlStatus = Satisfied | PartiallySatisfied | Deficient | Unassessed | NotApplicable

  datatype Classification = NotScored | LowRisk | MediumRisk | HighRisk | CriticalRisk

  datatype ControlInput = ControlInput(id: ControlId, status: ControlStatus, weight: real, evidenceCount: int)

  datatype ControlScore = ControlScore(
    id: ControlId, status: ControlStatus, weight: real, applicable: bool,
    evidenceCount: int, grounded: bool, raw: real, weighted: real)

  datatype ScoreResult = ScoreResult(
    applicableCount: nat, totalCount: nat, overall: Option<real>, residual: Option<real>,
    classification: Classification, criticalOverride: bool, scores: map<ControlId, ControlScore>)

  datatype ScoringError = DuplicateControl(id: ControlId) | WeightOutOfRange(weight: real) | NegativeEvidence(count: int)
                        | ScoreOutOfRange(score: real)

  const CRITICAL_WEIGHT := 5.0
  const UNGROUNDED_PENALTY := 0.70

  // ---------------------------------------------------------------- rounding

  /** The nearest whole number of hundredths, halves away from zero. */
  function Hundredths(x: real): (n: int)
    ensures x >= 0.0 ==> n >= 0 && n as real <= x * 100.0 + 0.5 < n as real + 1.0
  {
    if x >= 0.0 then (x * 100.0 + 0.5).Floor else -((-x * 100.0 + 0.5).Floor)
  }

  /** Quantize to two places. */
  function RoundHalfUp(x: real): real {
    Hundredths(x) as real / 100.0
  }

  lemma HundredthsIsWhole(x: real, n: int)
    requires x >= 0.0 && n as real <= x * 100.0 + 0.5 < n as real + 1.0
    ensures Hundredths(x) == n
  {
  }

  /** Rounding moves a value by at most half a hundredth, and never past a hundredth it is below. */
  lemma RoundingIsNearest(x: real, h: nat)
    requires x >= 0.0
    ensures -0.005 <= RoundHalfUp(x) - x <= 0.005
    ensures x < (h as real + 0.5) / 100.0 ==> RoundHalfUp(x) <= h as real / 100.0
    ensures x >= h as real / 100.0 ==> RoundHalfUp(x) >= h as real / 100.0
  {
    var n := Hundredths(x);
    if x < (h as real + 0.5) / 100.0 {
      assert (n as real) < h as real + 1.0;
      WholeBound(n, h);
    }
    if x >= h as real / 100.0 {
      assert (h as real) < n as real + 1.0;
      WholeBound(h, n);
    }
  }

  lemma WholeBound(m: int, n: int)
    requires m as real < n as real + 1.0
    ensures m <= n && m as real <= n as real
  {
    assert (n + 1) as real == n as real + 1.0;
  }

  lemma RoundingIsMonotone(x: real, y: real)
    requires 0.0 <= x <= y
    ensures RoundHalfUp(x) <= RoundHalfUp(y)
  {
    WholeBound(Hundredths(x), Hundredths(y));
  }

  lemma WholeHundredthsStay(n: nat)
    ensures RoundHalfUp(n as real / 100.0) == n as real / 100.0
  {
    HundredthsIsWhole(n as real / 100.0, n);
  }

  // ---------------------------------------------------------------- one control

  function Multiplier(status: ControlStatus): real {
    match status
    case Satisfied => 1.0
    case PartiallySatisfied => 0.5
    case _ => 0.0
  }

  predicate WellFormed(c: ControlInput) {
    1.0 <= c.weight <= 5.0 && c.evidenceCount >= 0
  }

  /** The unweighted score before rounding. */
  function RawScore(c: ControlInput): (r: real)
    ensures r in {0.0, 35.0, 50.0, 70.0, 100.0}
  {
    if c.status == NotApplicable then 0.0
    else
      var base := Multiplier(c.status) * 100.0;
      if c.status == Satisfied || c.status == PartiallySatisfied then
        if c.evidenceCount >= 1 then base else base * UNGROUNDED_PENALTY
      else 0.0
  }

  function WeightedScore(c: ControlInput): real {
    Weighed(RawScore(c), c.weight)
  }

  function Weighed(raw: real, weight: real): real {
    RoundHalfUp(raw * weight)
  }

  function EvaluateControl(c: ControlInput): Result<ControlScore, ScoringError> {
    if c.weight < 1.0 || c.weight > 5.0 then Err(WeightOutOfRange(c.weight))
    else if c.evidenceCount < 0 then Err(NegativeEvidence(c.evidenceCount))
    else Ok(ScoreOf(c))
  }

  function ScoreOf(c: ControlInput): ControlScore {
    ControlScore(c.id, c.status, c.weight, c.status != NotApplicable, c.evidenceCount, c.evidenceCount >= 1,
                 RoundHalfUp(RawScore(c)), WeightedScore(c))
  }

  // ---------------------------------------------------------------- bands

  function Band(residual: real): Classification {
    if residual < 25.0 then LowRisk
    else if residual < 50.0 then MediumRisk
    else if residual < 75.0 then HighRisk
    else CriticalRisk
  }

  function ClassifyScore(score: real): Result<Classification, ScoringError> {
    if score < 0.0 || score > 100.0 then Err(ScoreOutOfRange(score))
    else Ok(Band(RoundHalfUp(100.0 - RoundHalfUp(score))))
  }

  // ---------------------------------------------------------------- reference result

  predicate Applicable(c: ControlInput) {
    c.status != NotApplicable
  }

  predicate TriggersOverride(c: ControlInput) {
    c.weight >= CRITICAL_WEIGHT && c.status == Deficient
  }

  function ApplicableCount(cs: seq<ControlInput>): nat {
    if cs == [] then 0 else (if Applicable(cs[0]) then 1 else 0) + ApplicableCount(cs[1..])
  }

  function SumWeighted(cs: seq<ControlInput>): real {
    if cs == [] then 0.0 else (if Applicable(cs[0]) then WeightedScore(cs[0]) else 0.0) + SumWeighted(cs[1..])
  }

  function SumWeights(cs: seq<ControlInput>): real {
    if cs == [] then 0.0 else (if Applicable(cs[0]) then cs[0].weight else 0.0) + SumWeights(cs[1..])
  }

  /** The numerator without the inner rounding. */
  function ExactSum(cs: seq<ControlInput>): real {
    if cs == [] then 0.0
    else (if Applicable(cs[0]) then RawScore(cs[0]) * cs[0].weight else 0.0) + ExactSum(cs[1..])
  }

  predicate AnyOverride(cs: seq<ControlInput>) {
    exists i :: 0 <= i < |cs| && TriggersOverride(cs[i])
  }

  function Average(cs: seq<ControlInput>): Option<real> {
    if ApplicableCount(cs) == 0 || SumWeights(cs) == 0.0 then None
    else Some(RoundHalfUp(SumWeighted(cs) / SumWeights(cs)))
  }

  function ClassOf(overall: Option<real>, override: bool): Classification {
    if overall.None? then NotScored
    else if override then CriticalRisk
    else Band(RoundHalfUp(100.0 - overall.value))
  }

  predicate DistinctIds(cs: seq<ControlInput>) {
    forall i, j :: 0 <= i < j < |cs| ==> cs[i].id != cs[j].id
  }

  predicate AllWellFormed(cs: seq<ControlInput>) {
    forall i :: 0 <= i < |cs| ==> WellFormed(cs[i])
  }

  predicate HasId(cs: seq<ControlInput>, id: ControlId) {
    exists i :: 0 <= i < |cs| && cs[i].id == id
  }

  /** Every control under its own identifier. */
  ghost predicate ScoresOf(scores: map<ControlId, ControlScore>, cs: seq<ControlInput>) {
    && (forall i :: 0 <= i < |cs| ==> cs[i].id in scores && scores[cs[i].id] == ScoreOf(cs[i]))
    && (forall id :: id in scores ==> HasId(cs, id))
  }

  /** What the engine promises for a list of controls, whatever their order. */
  ghost predicate Scored(cs: seq<ControlInput>, r: ScoreResult) {
    && r.applicableCount == ApplicableCount(cs) && r.totalCount == |cs|
    && r.overall == Average(cs)
    && r.residual == (if r.overall.Some? then Some(RoundHalfUp(100.0 - r.overall.value)) else None)
    && r.criticalOverride == AnyOverride(cs)
    && r.classification == ClassOf(r.overall, r.criticalOverride)
    && ScoresOf(r.scores, cs)
  }

  // ---------------------------------------------------------------- order does not matter

  lemma {:induction false} SumsSplit(a: seq<ControlInput>, i: nat)
    requires i < |a|
    ensures var rest := a[..i] + a[i + 1..];
            && ApplicableCount(a) == (if Applicable(a[i]) then 1 else 0) + ApplicableCount(rest)
            && SumWeighted(a) == (if Applicable(a[i]) then WeightedScore(a[i]) else 0.0) + SumWeighted(rest)
            && SumWeights(a) == (if Applicable(a[i]) then a[i].weight else 0.0) + SumWeights(rest)
  {
    var rest := a[..i] + a[i + 1..];
    if i == 0 {
      assert rest == a[1..];
    } else {
      SumsSplit(a[1..], i - 1);
      assert rest[1..] == a[1..][..i - 1] + a[1..][i..];
    }
  }

  lemma {:induction false} SumsIgnoreOrder(a: seq<ControlInput>, b: seq<ControlInput>)
    requires multiset(a) == multiset(b)
    ensures ApplicableCount(a) == ApplicableCount(b)
    ensures SumWeighted(a) == SumWeighted(b)
    ensures SumWeights(a) == SumWeights(b)
    decreases |a|
  {
    if a == [] {
      assert |multiset(b)| == 0;
    } else {
      assert a[0] in multiset(b);
      var i :| 0 <= i < |b| && b[i] == a[0];
      SumsSplit(b, i);
      CancelHead(a, b, i);
      SumsIgnoreOrder(a[1..], b[..i] + b[i + 1..]);
    }
  }

  lemma SameElements(a: seq<ControlInput>, b: seq<ControlInput>, i: nat) returns (j: nat)
    requires multiset(a) == multiset(b) && i < |a|
    ensures j < |b| && b[j] == a[i]
  {
    assert a[i] in multiset(b);
    j :| 0 <= j < |b| && b[j] == a[i];
  }

  /** Reordering the controls changes nothing in what is promised. */
  lemma OrderDoesNotMatter(a: seq<ControlInput>, b: seq<ControlInput>, r: ScoreResult)
    requires multiset(a) == multiset(b) && Scored(a, r)
    ensures Scored(b, r)
  {
    SumsIgnoreOrder(a, b);
    assert |a| == |multiset(a)| == |multiset(b)| == |b|;
    if AnyOverride(a) {
      var i :| 0 <= i < |a| && TriggersOverride(a[i]);
      var j := SameElements(a, b, i);
      assert TriggersOverride(b[j]);
    }
    if AnyOverride(b) {
      var i :| 0 <= i < |b| && TriggersOverride(b[i]);
      var j := SameElements(b, a, i);
      assert TriggersOverride(a[j]);
    }
    ScoresIgnoreOrder(a, b, r.scores);
  }

  lemma ScoresIgnoreOrder(a: seq<ControlInput>, b: seq<ControlInput>, scores: map<ControlId, ControlScore>)
    requires multiset(a) == multiset(b) && ScoresOf(scores, a)
    ensures ScoresOf(scores, b)
  {
    forall i | 0 <= i < |b| ensures b[i].id in scores && scores[b[i].id] == ScoreOf(b[i]) {
      var j := SameElements(b, a, i);
    }
    forall id | id in scores ensures HasId(b, id) {
      var k :| 0 <= k < |a| && a[k].id == id;
      var j := SameElements(a, b, k);
    }
  }

  /** The promise determines the result. */
  lemma ScoredIsUnique(cs: seq<ControlInput>, r: ScoreResult, q: ScoreResult)
    requires Scored(cs, r) && Scored(cs, q)
    ensures r == q
  {
    assert r.scores.Keys == q.scores.Keys;
    assert r.scores == q.scores;
  }

  // ---------------------------------------------------------------- the engine

  predicate SortedById(cs: seq<ControlInput>) {
    forall i, j :: 0 <= i < j < |cs| ==> cs[i].id <= cs[j].id
  }

  function InsertById(sorted: seq<ControlInput>, c: ControlInput): seq<ControlInput> {
    if sorted == [] || c.id < sorted[0].id then [c] + sorted
    else [sorted[0]] + InsertById(sorted[1..], c)
  }

  lemma {:induction false} InsertKeepsElements(sorted: seq<ControlInput>, c: ControlInput)
    ensures multiset(InsertById(sorted, c)) == multiset(sorted) + multiset{c}
    decreases |sorted|
  {
    if sorted != [] && sorted[0].id <= c.id {
      InsertKeepsElements(sorted[1..], c);
      assert sorted == [sorted[0]] + sorted[1..];
    }
  }

  lemma {:induction false} InsertKeepsOrder(sorted: seq<ControlInput>, c: ControlInput)
    requires SortedById(sorted)
    ensures SortedById(InsertById(sorted, c))
    ensures InsertById(sorted, c)[0].id == if sorted == [] then c.id else Min(sorted[0].id, c.id)
    decreases |sorted|
  {
    if sorted != [] && sorted[0].id <= c.id {
      InsertKeepsOrder(sorted[1..], c);
      var rest := InsertById(sorted[1..], c);
      assert forall j :: 0 <= j < |rest| ==> rest[0].id <= rest[j].id;
    }
  }

  function SortById(cs: seq<ControlInput>): seq<ControlInput> {
    if cs == [] then [] else InsertById(SortById(cs[1..]), cs[0])
  }

  lemma {:induction false} SortByIdSorts(cs: seq<ControlInput>)
    ensures SortedById(SortById(cs)) && multiset(SortById(cs)) == multiset(cs)
    decreases |cs|
  {
    if cs != [] {
      SortByIdSorts(cs[1..]);
      var rest := SortById(cs[1..]);
      InsertKeepsOrder(rest, cs[0]);
      InsertKeepsElements(rest, cs[0]);
      HeadAndTail(cs);
    }
  }

  method CheckDistinct(cs: seq<ControlInput>) returns (duplicate: Option<ControlId>)
    ensures duplicate.None? <==> DistinctIds(cs)
    ensures duplicate.Some? ==> exists i, j :: 0 <= i < j < |cs| && cs[i].id == cs[j].id == duplicate.value
  {
    var seen: set<ControlId> := {};
    for k := 0 to |cs|
      invariant seen == set i | 0 <= i < k :: cs[i].id
      invariant DistinctIds(cs[..k])
    {
      if cs[k].id in seen {
        return Some(cs[k].id);
      }
      seen := seen + {cs[k].id};
    }
    assert cs[..|cs|] == cs;
    return None;
  }

  /**
   The scoring run: duplicates are refused, the controls are visited by identifier, and the result
   is the promised one for the controls in any order.
   */
  method Compute(controls: seq<ControlInput>) returns (r: Result<ScoreResult, ScoringError>)
    ensures r.Ok? <==> DistinctIds(controls) && AllWellFormed(controls)
    ensures r.Ok? ==> Scored(controls, r.value)
    ensures r.Ok? ==> Explained(controls, r.value.scores)
    ensures r.Err? && r.error.DuplicateControl? <==> !DistinctIds(controls)
  {
    var duplicate := CheckDistinct(controls);
    if duplicate.Some? {
      return Err(DuplicateControl(duplicate.value));
    }
    var sorted := SortById(controls);
    SortByIdSorts(controls);
    SortedStaysDistinct(controls, sorted);
    var totals := Accumulate(sorted);
    if totals.Err? {
      if AllWellFormed(controls) {
        AllMembersWellFormed(controls, sorted);
      }
      return Err(totals.error);
    }
    AllMembersWellFormed(sorted, controls);
    ConclusionIsScored(totals.value, sorted);
    OrderDoesNotMatter(sorted, controls, Conclude(totals.value, |sorted|));
    EntriesAreExplained(controls, totals.value.scores);
    return Ok(Conclude(totals.value, |sorted|));
  }

  /** From the totals to the reported result. */
  function Conclude(t: Totals, totalCount: nat): ScoreResult {
    if t.applicable == 0 || t.sumWeights == 0.0 then
      ScoreResult(t.applicable, totalCount, None, None, NotScored, t.critical, t.scores)
    else
      var overall := RoundHalfUp(t.sumWeighted / t.sumWeights);
      var residual := RoundHalfUp(100.0 - overall);
      ScoreResult(t.applicable, totalCount, Some(overall), Some(residual),
                  if t.critical then CriticalRisk else Band(residual), t.critical, t.scores)
  }

  lemma ConclusionIsScored(t: Totals, cs: seq<ControlInput>)
    requires TotalsOf(t, cs)
    ensures Scored(cs, Conclude(t, |cs|))
  {
  }

  datatype Totals = Totals(applicable: nat, sumWeighted: real, sumWeights: real, critical: bool,
                           scores: map<ControlId, ControlScore>)

  ghost predicate TotalsOf(t: Totals, cs: seq<ControlInput>) {
    && t.applicable == ApplicableCount(cs)
    && t.sumWeighted == SumWeighted(cs)
    && t.sumWeights == SumWeights(cs)
    && t.critical == AnyOverride(cs)
    && ScoresOf(t.scores, cs)
  }

  /** The totals with one more control. */
  ghost function Grown(t: Totals, c: ControlInput): Totals {
    Totals(t.applicable + (if Applicable(c) then 1 else 0),
           t.sumWeighted + (if Applicable(c) then WeightedScore(c) else 0.0),
           t.sumWeights + (if Applicable(c) then c.weight else 0.0),
           t.critical || TriggersOverride(c),
           t.scores[c.id := ScoreOf(c)])
  }

  /** One round of the loop. */
  method Visit(t: Totals, c: ControlInput) returns (r: Result<Totals, ScoringError>)
    ensures r.Ok? <==> WellFormed(c)
    ensures r.Ok? ==> r.value == Grown(t, c)
    ensures r.Err? ==> !r.error.DuplicateControl?
  {
    var evaluated := EvaluateControl(c);
    if evaluated.Err? {
      return Err(evaluated.error);
    }
    var s := evaluated.value;
    var next := t.(scores := t.scores[c.id := s]);
    if s.applicable {
      next := next.(applicable := t.applicable + 1, sumWeighted := t.sumWeighted + s.weighted,
                    sumWeights := t.sumWeights + s.weight);
      if s.weight >= CRITICAL_WEIGHT && s.status == Deficient {
        next := next.(critical := true);
      }
    }
    return Ok(next);
  }

  /** The loop over the sorted controls, stopping at the first one that is refused. */
  method Accumulate(sorted: seq<ControlInput>) returns (r: Result<Totals, ScoringError>)
    requires DistinctIds(sorted)
    ensures r.Ok? <==> AllWellFormed(sorted)
    ensures r.Ok? ==> TotalsOf(r.value, sorted)
    ensures r.Err? ==> !r.error.DuplicateControl?
  {
    var t := Totals(0, 0.0, 0.0, false, map[]);
    for k := 0 to |sorted|
      invariant AllWellFormed(sorted[..k])
      invariant TotalsOf(t, sorted[..k])
    {
      var visited := Visit(t, sorted[k]);
      if visited.Err? {
        return Err(visited.error);
      }
      TotalsGrow(t, sorted, k);
      t := visited.value;
    }
    assert sorted[..|sorted|] == sorted;
    return Ok(t);
  }

  lemma TotalsGrow(t: Totals, cs: seq<ControlInput>, k: nat)
    requires DistinctIds(cs) && k < |cs| && TotalsOf(t, cs[..k])
    ensures TotalsOf(Grown(t, cs[k]), cs[..k + 1])
  {
    RunningTotals(cs, k);
    ScoresGrow(t.scores, cs, k);
  }

  lemma ScoresGrow(scores: map<ControlId, ControlScore>, cs: seq<ControlInput>, k: nat)
    requires DistinctIds(cs) && k < |cs| && ScoresOf(scores, cs[..k])
    ensures ScoresOf(scores[cs[k].id := ScoreOf(cs[k])], cs[..k + 1])
  {
    var next := scores[cs[k].id := ScoreOf(cs[k])];
    var before, after := cs[..k], cs[..k + 1];
    assert after[k] == cs[k] && forall i :: 0 <= i < k ==> after[i] == before[i];
    forall i | 0 <= i < |after| ensures after[i].id in next && next[after[i].id] == ScoreOf(after[i]) {
      assert i == k || before[i].id != cs[k].id;
    }
    forall id | id in next ensures HasId(after, id) {
      if id == cs[k].id {
        assert after[k].id == id;
      } else {
        var i :| 0 <= i < |before| && before[i].id == id;
        assert after[i].id == id;
      }
    }
  }

  lemma SortedStaysDistinct(a: seq<ControlInput>, b: seq<ControlInput>)
    requires multiset(a) == multiset(b) && DistinctIds(a)
    ensures DistinctIds(b)
  {
    forall i, j | 0 <= i < j < |b| ensures b[i].id != b[j].id {
      if b[i] == b[j] {
        assert b == b[..i] + [b[i]] + b[i + 1..j] + [b[j]] + b[j + 1..];
        assert multiset(a)[b[i]] >= 2;
        DistinctMeansOnce(a, b[i]);
      } else {
        var p := SameElements(b, a, i);
        var q := SameElements(b, a, j);
      }
    }
  }

  lemma {:induction false} DistinctMeansOnce(a: seq<ControlInput>, c: ControlInput)
    requires DistinctIds(a)
    ensures multiset(a)[c] <= 1
    decreases |a|
  {
    if a != [] {
      var last := |a| - 1;
      assert a == a[..last] + [a[last]];
      DistinctMeansOnce(a[..last], c);
      if a[last] == c {
        assert c !in a[..last];
        assert multiset(a[..last])[c] == 0;
      }
    }
  }

  lemma AllMembersWellFormed(a: seq<ControlInput>, b: seq<ControlInput>)
    requires multiset(a) == multiset(b) && AllWellFormed(a)
    ensures AllWellFormed(b)
  {
    forall i | 0 <= i < |b| ensures WellFormed(b[i]) {
      var j := SameElements(b, a, i);
    }
  }

  lemma RunningTotals(cs: seq<ControlInput>, k: nat)
    requires k < |cs|
    ensures ApplicableCount(cs[..k + 1]) == ApplicableCount(cs[..k]) + (if Applicable(cs[k]) then 1 else 0)
    ensures SumWeighted(cs[..k + 1]) == SumWeighted(cs[..k]) + (if Applicable(cs[k]) then WeightedScore(cs[k]) else 0.0)
    ensures SumWeights(cs[..k + 1]) == SumWeights(cs[..k]) + (if Applicable(cs[k]) then cs[k].weight else 0.0)
    ensures AnyOverride(cs[..k + 1]) == (AnyOverride(cs[..k]) || TriggersOverride(cs[k]))
  {
    var next := cs[..k + 1];
    SumsSplit(next, k);
    assert next[..k] + next[k + 1..] == cs[..k];
    if AnyOverride(cs[..k]) {
      var i :| 0 <= i < k && TriggersOverride(cs[..k][i]);
      assert TriggersOverride(next[i]);
    }
    if TriggersOverride(cs[k]) {
      assert TriggersOverride(next[k]);
    }
  }

  // ---------------------------------------------------------------- range and accuracy

  /** A weighted score is below 100.005 times its weight: rounding up needs a weight above one. */
  lemma WeightedScoreBounds(c: ControlInput)
    requires WellFormed(c)
    ensures 0.0 <= WeightedScore(c) < 100.005 * c.weight
    ensures -0.005 * c.weight <= WeightedScore(c) - RawScore(c) * c.weight < 0.005 * c.weight
  {
    RawTimesWeight(RawScore(c), c.weight);
    RawIsWhole(c);
    RoundedBelow(RawScore(c) * c.weight, c.weight);
  }

  lemma RawIsWhole(c: ControlInput)
    ensures RoundHalfUp(RawScore(c)) == RawScore(c)
  {
    var n := RawScore(c).Floor;
    HundredthsIsWhole(RawScore(c), 100 * n);
  }

  lemma RoundedBelow(exact: real, weight: real)
    requires 0.0 <= exact <= 100.0 * weight && weight >= 1.0
    requires weight == 1.0 ==> RoundHalfUp(exact) == exact
    ensures 0.0 <= RoundHalfUp(exact) < 100.005 * weight
    ensures -0.005 * weight <= RoundHalfUp(exact) - exact < 0.005 * weight
  {
    RoundingIsNearest(exact, 0);
  }

  lemma RawTimesWeight(raw: real, weight: real)
    requires 0.0 <= raw <= 100.0 && weight >= 0.0
    ensures 0.0 <= raw * weight <= 100.0 * weight
  {
  }

  lemma {:induction false} SumBounds(cs: seq<ControlInput>)
    requires AllWellFormed(cs)
    ensures ApplicableCount(cs) > 0 ==> SumWeights(cs) >= 1.0
    ensures 0.0 <= SumWeighted(cs) && 0.0 <= SumWeights(cs)
    ensures ApplicableCount(cs) > 0 ==> SumWeighted(cs) < 100.005 * SumWeights(cs)
    ensures ApplicableCount(cs) == 0 ==> SumWeighted(cs) == SumWeights(cs) == 0.0
    ensures -0.005 * SumWeights(cs) <= SumWeighted(cs) - ExactSum(cs) <= 0.005 * SumWeights(cs)
    ensures ApplicableCount(cs) > 0 ==> SumWeighted(cs) - ExactSum(cs) < 0.005 * SumWeights(cs)
    decreases |cs|
  {
    if cs != [] {
      SumBounds(cs[1..]);
      OneMoreWithin(cs);
    }
  }

  /** The bounds of SumBounds, on the four sums themselves. */
  predicate Within(n: nat, weights: real, sum: real, exact: real) {
    && (n > 0 ==> weights >= 1.0) && 0.0 <= sum && 0.0 <= weights
    && (n > 0 ==> sum < 100.005 * weights) && (n == 0 ==> sum == weights == 0.0)
    && -0.005 * weights <= sum - exact <= 0.005 * weights
    && (n > 0 ==> sum - exact < 0.005 * weights)
  }

  predicate SumsWithin(cs: seq<ControlInput>) {
    Within(ApplicableCount(cs), SumWeights(cs), SumWeighted(cs), ExactSum(cs))
  }

  lemma OneMoreWithin(cs: seq<ControlInput>)
    requires cs != [] && WellFormed(cs[0]) && SumsWithin(cs[1..])
    ensures SumsWithin(cs)
  {
    if Applicable(cs[0]) {
      ScoreIsClose(cs[0]);
      AddWithin(cs[0].weight, WeightedScore(cs[0]), RawScore(cs[0]) * cs[0].weight, ApplicableCount(cs[1..]),
                SumWeights(cs[1..]), SumWeighted(cs[1..]), ExactSum(cs[1..]));
    }
  }

  predicate Close(w: real, x: real, e: real) {
    w >= 1.0 && 0.0 <= x < 100.005 * w && -0.005 * w <= x - e < 0.005 * w
  }

  lemma ScoreIsClose(c: ControlInput)
    requires WellFormed(c)
    ensures Close(c.weight, WeightedScore(c), RawScore(c) * c.weight)
  {
    WeightedScoreBounds(c);
  }

  lemma AddWithin(w: real, x: real, e: real, n: nat, weights: real, sum: real, exact: real)
    requires Close(w, x, e) && Within(n, weights, sum, exact)
    ensures Within(n + 1, w + weights, x + sum, e + exact)
  {
  }

  lemma DivideBound(a: real, w: real, k: real)
    requires w > 0.0
    ensures a < k * w ==> a / w < k
    ensures a <= k * w ==> a / w <= k
    ensures a >= k * w ==> a / w >= k
  {
  }

  lemma RoundedQuotientInRange(sum: real, weights: real)
    requires 0.0 < weights && 0.0 <= sum < 100.005 * weights
    ensures 0.0 <= sum / weights && 0.0 <= RoundHalfUp(sum / weights) <= 100.0
  {
    DivideBound(sum, weights, 100.005);
    DivideBound(sum, weights, 0.0);
    RoundingIsNearest(sum / weights, 10000);
    RoundingIsNearest(sum / weights, 0);
  }

  lemma RoundedQuotientIsNear(sum: real, exact: real, weights: real)
    requires 0.0 < weights && 0.0 <= sum
    requires -0.005 * weights <= sum - exact <= 0.005 * weights
    ensures -0.01 <= RoundHalfUp(sum / weights) - exact / weights <= 0.01
  {
    DivideBound(sum - exact, weights, 0.005);
    DivideBound(sum - exact, weights, -0.005);
    DivideBound(sum, weights, 0.0);
    DivideSplit(sum, exact, weights);
    RoundingIsNearest(sum / weights, 0);
  }

  /** Scored exactly when something applies; then the score lies in 0..100 and so does the risk. */
  lemma ScoreStaysInRange(cs: seq<ControlInput>, r: ScoreResult)
    requires AllWellFormed(cs) && Scored(cs, r)
    ensures r.overall.Some? <==> exists i :: 0 <= i < |cs| && Applicable(cs[i])
    ensures r.overall.Some? ==> 0.0 <= r.overall.value <= 100.0 && r.residual == Some(100.0 - r.overall.value)
  {
    CountIsExistence(cs);
    AverageInRange(cs);
  }

  lemma AverageInRange(cs: seq<ControlInput>)
    requires AllWellFormed(cs)
    ensures Average(cs).Some? <==> ApplicableCount(cs) > 0
    ensures Average(cs).Some? ==>
              var x := Average(cs).value;
              0.0 <= x <= 100.0 && RoundHalfUp(100.0 - x) == 100.0 - x
  {
    SumBounds(cs);
    if ApplicableCount(cs) > 0 {
      RoundedQuotientInRange(SumWeighted(cs), SumWeights(cs));
      ResidualIsExact(SumWeighted(cs) / SumWeights(cs));
    }
  }

  lemma ResidualIsExact(x: real)
    requires x >= 0.0 && RoundHalfUp(x) <= 100.0
    ensures RoundHalfUp(100.0 - RoundHalfUp(x)) == 100.0 - RoundHalfUp(x)
  {
    var n := Hundredths(x);
    assert n as real <= 10000.0;
    WholeBound(n, 10000);
    assert 100.0 - RoundHalfUp(x) == (10000 - n) as real / 100.0;
    WholeHundredthsStay(10000 - n);
  }

  lemma {:induction false} CountIsExistence(cs: seq<ControlInput>)
    ensures ApplicableCount(cs) > 0 <==> exists i :: 0 <= i < |cs| && Applicable(cs[i])
    decreases |cs|
  {
    if cs != [] {
      CountIsExistence(cs[1..]);
      if ApplicableCount(cs[1..]) > 0 {
        var i :| 0 <= i < |cs[1..]| && Applicable(cs[1..][i]);
        assert Applicable(cs[i + 1]);
      }
      if i :| 0 <= i < |cs| && Applicable(cs[i]) {
        assert i == 0 || Applicable(cs[1..][i - 1]);
      }
    }
  }

  /** Two layers of rounding cost at most one hundredth against the exact weighted average. */
  lemma ScoreIsAccurate(cs: seq<ControlInput>)
    requires AllWellFormed(cs) && ApplicableCount(cs) > 0
    ensures SumWeights(cs) > 0.0 && Average(cs).Some?
    ensures -0.01 <= Average(cs).value - ExactSum(cs) / SumWeights(cs) <= 0.01
  {
    SumBounds(cs);
    AverageExists(cs);
    RoundedQuotientIsNear(SumWeighted(cs), ExactSum(cs), SumWeights(cs));
  }

  predicate AllEarn(cs: seq<ControlInput>, raw: real) {
    forall i :: 0 <= i < |cs| && Applicable(cs[i]) ==> RawScore(cs[i]) == raw
  }

  /**
   When every applicable control earns the same raw score, the result is that score exactly: 100
   when all are satisfied with evidence, 70 without, 50 and 35 when partial, 0 otherwise.
   */
  lemma UniformScoresAreExact(cs: seq<ControlInput>, raw: nat)
    requires AllWellFormed(cs) && AllEarn(cs, raw as real) && ApplicableCount(cs) > 0 && raw <= 100
    ensures Average(cs) == Some(raw as real)
  {
    UniformSumIsNear(cs, raw as real);
    UniformQuotient(SumWeighted(cs), SumWeights(cs), raw);
    AverageExists(cs);
  }

  lemma AverageExists(cs: seq<ControlInput>)
    requires ApplicableCount(cs) > 0 && SumWeights(cs) > 0.0
    ensures Average(cs) == Some(RoundHalfUp(SumWeighted(cs) / SumWeights(cs)))
  {
  }

  /** A rounded sum within half a hundredth of the exact one, for each unit of weight. */
  predicate NearlyUniform(sum: real, weights: real, raw: real) {
    && weights > 0.0 && sum >= 0.0
    && sum - raw * weights >= -0.005 * weights
    && sum - raw * weights < 0.005 * weights
  }

  lemma UniformSumIsNear(cs: seq<ControlInput>, raw: real)
    requires AllWellFormed(cs) && AllEarn(cs, raw) && ApplicableCount(cs) > 0
    ensures SumWeights(cs) > 0.0 && NearlyUniform(SumWeighted(cs), SumWeights(cs), raw)
  {
    SumBounds(cs);
    UniformSum(cs, raw);
  }

  lemma UniformQuotient(sum: real, weights: real, raw: nat)
    requires weights > 0.0 && NearlyUniform(sum, weights, raw as real)
    ensures RoundHalfUp(sum / weights) == raw as real
  {
    var rest := sum - raw as real * weights;
    DivideBound(sum, weights, 0.0);
    DivideBound(rest, weights, 0.005);
    DivideBound(rest, weights, -0.005);
    DivideSplit(sum, raw as real * weights, weights);
    Cancel(raw as real, weights);
    assert sum / weights == raw as real + rest / weights;
    RoundsTo(sum / weights, raw);
  }

  lemma RoundsTo(x: real, n: nat)
    requires x >= 0.0 && n as real - 0.005 <= x < n as real + 0.005
    ensures RoundHalfUp(x) == n as real
  {
    HundredthsIsWhole(x, 100 * n);
  }

  lemma Cancel(x: real, w: real)
    requires w > 0.0
    ensures x * w / w == x
  {
  }

  lemma {:induction false} UniformSum(cs: seq<ControlInput>, raw: real)
    requires AllEarn(cs, raw)
    ensures ExactSum(cs) == raw * SumWeights(cs)
    decreases |cs|
  {
    if cs != [] {
      UniformSum(cs[1..], raw);
      if Applicable(cs[0]) {
        Distribute(raw, cs[0].weight, SumWeights(cs[1..]));
      }
    }
  }

  lemma Distribute(a: real, b: real, c: real)
    ensures a * (b + c) == a * b + a * c
  {
  }

  lemma DivideSplit(a: real, b: real, w: real)
    requires w > 0.0
    ensures (a - b) / w == a / w - b / w
  {
  }

  /** The class is the public classification of the score, except that the override makes it critical. */
  lemma ClassificationFollowsTheScore(cs: seq<ControlInput>)
    requires AllWellFormed(cs) && ApplicableCount(cs) > 0
    ensures Average(cs).Some? && ClassifyScore(Average(cs).value).Ok?
    ensures ClassOf(Average(cs), AnyOverride(cs)) ==
            if AnyOverride(cs) then CriticalRisk else ClassifyScore(Average(cs).value).value
  {
    AverageInRange(cs);
    SumBounds(cs);
    AverageExists(cs);
    AverageIsWhole(SumWeighted(cs), SumWeights(cs));
  }

  /** A rounded quotient is a whole number of hundredths, so rounding it again changes nothing. */
  lemma AverageIsWhole(sum: real, weights: real)
    requires weights > 0.0 && sum >= 0.0
    ensures RoundHalfUp(RoundHalfUp(sum / weights)) == RoundHalfUp(sum / weights)
  {
    DivideBound(sum, weights, 0.0);
    WholeHundredthsStay(Hundredths(sum / weights));
  }

  // ---------------------------------------------------------------- what a result says

  /** What a control's entry says: its own data, and what its status and evidence earn. */
  ghost predicate EarnsByStatus(c: ControlInput, s: ControlScore) {
    && s.id == c.id && s.status == c.status && s.weight == c.weight && s.evidenceCount == c.evidenceCount
    && (s.applicable <==> c.status != NotApplicable) && (s.grounded <==> c.evidenceCount >= 1)
    && (c.status == Satisfied ==> s.raw == if c.evidenceCount >= 1 then 100.0 else 70.0)
    && (c.status == PartiallySatisfied ==> s.raw == if c.evidenceCount >= 1 then 50.0 else 35.0)
    && (c.status in {Deficient, Unassessed, NotApplicable} ==> s.raw == 0.0)
    && -0.005 <= s.weighted - s.raw * c.weight <= 0.005
  }

  /** Every control has an entry that says what it earned, and nothing else has one. */
  ghost predicate Explained(cs: seq<ControlInput>, scores: map<ControlId, ControlScore>) {
    && (forall i :: 0 <= i < |cs| ==> cs[i].id in scores && EarnsByStatus(cs[i], scores[cs[i].id]))
    && forall id :: id in scores ==> exists i :: 0 <= i < |cs| && cs[i].id == id
  }

  lemma EntryEarnsByStatus(c: ControlInput)
    requires WellFormed(c)
    ensures EarnsByStatus(c, ScoreOf(c))
  {
    RawIsWhole(c);
    RawTimesWeight(RawScore(c), c.weight);
    RoundingIsNearest(RawScore(c) * c.weight, 0);
  }

  lemma EntriesAreExplained(cs: seq<ControlInput>, scores: map<ControlId, ControlScore>)
    requires AllWellFormed(cs) && ScoresOf(scores, cs)
    ensures Explained(cs, scores)
  {
    forall i | 0 <= i < |cs| ensures cs[i].id in scores && EarnsByStatus(cs[i], scores[cs[i].id]) {
      EntryEarnsByStatus(cs[i]);
    }
    forall id | id in scores ensures exists i :: 0 <= i < |cs| && cs[i].id == id {
      assert HasId(cs, id);
    }
  }

  function ApplicableIndexes(cs: seq<ControlInput>): set<int> {
    set i | 0 <= i < |cs| && cs[i].status != NotApplicable
  }

  lemma {:induction false} CountIsCardinality(cs: seq<ControlInput>)
    ensures ApplicableCount(cs) == |ApplicableIndexes(cs)|
    decreases |cs|
  {
    if cs != [] {
      var n := |cs| - 1;
      CountIsCardinality(cs[..n]);
      assert cs[..n + 1] == cs;
      RunningTotals(cs, n);
      if Applicable(cs[n]) {
        assert ApplicableIndexes(cs) == ApplicableIndexes(cs[..n]) + {n};
      } else {
        assert ApplicableIndexes(cs) == ApplicableIndexes(cs[..n]);
      }
    }
  }

  /** The class a score and the critical flag lead to, by the thresholds on the risk. */
  predicate ClassedByRisk(overall: real, critical: bool, c: Classification) {
    var risk := 100.0 - overall;
    && (c == CriticalRisk <==> critical || risk >= 75.0)
    && (c == HighRisk <==> !critical && 50.0 <= risk < 75.0)
    && (c == MediumRisk <==> !critical && 25.0 <= risk < 50.0)
    && (c == LowRisk <==> !critical && risk < 25.0)
  }

  /**
   What a result says about its controls: what each one earned, how many apply, that the critical
   flag means a deficient control of weight 5, and the class that risk and flag lead to.
   */
  lemma ResultIsExplained(cs: seq<ControlInput>, r: ScoreResult)
    requires AllWellFormed(cs) && Scored(cs, r)
    ensures Explained(cs, r.scores)
    ensures r.totalCount == |cs| && r.applicableCount == |ApplicableIndexes(cs)|
    ensures r.criticalOverride <==> exists i :: 0 <= i < |cs| && cs[i].weight >= 5.0 && cs[i].status == Deficient
    ensures Concluded(r)
  {
    EntriesAreExplained(cs, r.scores);
    CountIsCardinality(cs);
    OverrideIsDeficiency(cs);
    ConclusionFollows(cs, r);
  }

  /** No score exactly when nothing applies; else the risk is its complement and decides the class. */
  predicate Concluded(r: ScoreResult) {
    if r.overall.None? then r.applicableCount == 0 && r.residual.None? && r.classification == NotScored
    else
      && r.applicableCount > 0 && r.residual == Some(100.0 - r.overall.value)
      && ClassedByRisk(r.overall.value, r.criticalOverride, r.classification)
  }

  lemma ConclusionFollows(cs: seq<ControlInput>, r: ScoreResult)
    requires AllWellFormed(cs) && Scored(cs, r)
    ensures Concluded(r)
  {
    AverageInRange(cs);
    if r.overall.Some? {
      RiskClasses(r.overall.value, r.criticalOverride);
    }
  }

  lemma RiskClasses(overall: real, critical: bool)
    requires RoundHalfUp(100.0 - overall) == 100.0 - overall
    ensures ClassedByRisk(overall, critical, ClassOf(Some(overall), critical))
  {
  }

  lemma OverrideIsDeficiency(cs: seq<ControlInput>)
    ensures AnyOverride(cs) <==> exists i :: 0 <= i < |cs| && cs[i].weight >= 5.0 && cs[i].status == Deficient
  {
    if AnyOverride(cs) {
      var i :| 0 <= i < |cs| && TriggersOverride(cs[i]);
      assert cs[i].weight >= 5.0 && cs[i].status == Deficient;
    }
    if i :| 0 <= i < |cs| && cs[i].weight >= 5.0 && cs[i].status == Deficient {
      assert TriggersOverride(cs[i]);
    }
  }

  /** The points of a control, entry by entry, weighed and added up over those that apply. */
  function EarnedSum(cs: seq<ControlInput>, scores: map<ControlId, ControlScore>): real {
    if cs == [] then 0.0
    else
      var n := |cs| - 1;
      EarnedSum(cs[..n], scores) + EarnedBy(cs[n], scores)
  }

  function EarnedBy(c: ControlInput, scores: map<ControlId, ControlScore>): real {
    if c.id in scores && c.status != NotApplicable then scores[c.id].raw * c.weight else 0.0
  }

  function AppliedWeight(cs: seq<ControlInput>): real {
    if cs == [] then 0.0
    else AppliedWeight(cs[..|cs| - 1]) + if cs[|cs| - 1].status != NotApplicable then cs[|cs| - 1].weight else 0.0
  }

  /** The overall score is within a hundredth of the weighted mean of the points in its own entries. */
  lemma OverallIsTheMeanOfItsEntries(cs: seq<ControlInput>, r: ScoreResult)
    requires AllWellFormed(cs) && Scored(cs, r) && r.overall.Some?
    ensures AppliedWeight(cs) >= 1.0
    ensures -0.01 <= r.overall.value - EarnedSum(cs, r.scores) / AppliedWeight(cs) <= 0.01
  {
    EntriesAddUp(cs, r.scores);
    SumBounds(cs);
    ScoreIsAccurate(cs);
  }

  lemma {:induction false} EntriesAddUp(cs: seq<ControlInput>, scores: map<ControlId, ControlScore>)
    requires forall i :: 0 <= i < |cs| ==> cs[i].id in scores && scores[cs[i].id] == ScoreOf(cs[i])
    ensures EarnedSum(cs, scores) == ExactSum(cs) && AppliedWeight(cs) == SumWeights(cs)
    decreases |cs|
  {
    if cs != [] {
      var n := |cs| - 1;
      EntriesAddUp(cs[..n], scores);
      ExactSumSnoc(cs[..n], cs[n]);
      assert cs[..n] + [cs[n]] == cs;
      EntryAdds(cs[n], scores);
    }
  }

  function ExactShare(c: ControlInput): real {
    if Applicable(c) then RawScore(c) * c.weight else 0.0
  }

  lemma EntryAdds(c: ControlInput, scores: map<ControlId, ControlScore>)
    requires c.id in scores && scores[c.id] == ScoreOf(c)
    ensures EarnedBy(c, scores) == ExactShare(c)
  {
    RawIsWhole(c);
  }

  lemma {:induction false} ExactSumSnoc(cs: seq<ControlInput>, c: ControlInput)
    ensures ExactSum(cs + [c]) == ExactSum(cs) + ExactShare(c)
    ensures SumWeights(cs + [c]) == SumWeights(cs) + if Applicable(c) then c.weight else 0.0
    decreases |cs|
  {
    if cs == [] {
      assert cs + [c] == [c] && [c][1..] == [];
    } else {
      ExactSumSnoc(cs[1..], c);
      assert (cs + [c])[1..] == cs[1..] + [c];
    }
  }

  // ---------------------------------------------------------------- monotonicity

  function Standing(s: ControlStatus): nat {
    match s
    case Satisfied => 2
    case PartiallySatisfied => 1
    case _ => 0
  }

  /** The status stays or rises, the evidence does not shrink, identifier and weight are kept. */
  predicate Improves(before: ControlInput, after: ControlInput) {
    && before.id == after.id && before.weight == after.weight
    && before.evidenceCount <= after.evidenceCount
    && (before.status == after.status
        || (before.status != NotApplicable && Standing(before.status) < Standing(after.status)))
  }

  predicate AllImprove(a: seq<ControlInput>, b: seq<ControlInput>) {
    |a| == |b| && forall i :: 0 <= i < |a| ==> Improves(a[i], b[i])
  }

  function Severity(c: Classification): nat {
    match c
    case NotScored => 0
    case LowRisk => 1
    case MediumRisk => 2
    case HighRisk => 3
    case CriticalRisk => 4
  }

  lemma ImprovedControl(a: ControlInput, b: ControlInput)
    requires WellFormed(a) && Improves(a, b)
    ensures WellFormed(b) && Applicable(a) == Applicable(b)
    ensures WeightedScore(a) <= WeightedScore(b)
    ensures TriggersOverride(b) ==> TriggersOverride(a)
  {
    ImprovedWeighted(a, b);
  }

  lemma ImprovedWeighted(a: ControlInput, b: ControlInput)
    requires Improves(a, b) && a.weight >= 0.0
    ensures WeightedScore(a) <= WeightedScore(b)
  {
    ImprovedRaw(a, b);
    ScaledScores(a, b);
  }

  lemma ImprovedRaw(a: ControlInput, b: ControlInput)
    requires Improves(a, b)
    ensures RawNoLess(a, b)
  {
  }

  /** The raw score did not fall and the weight is the same. */
  predicate RawNoLess(a: ControlInput, b: ControlInput) {
    0.0 <= RawScore(a) <= RawScore(b) && a.weight == b.weight
  }

  lemma ScaledScores(a: ControlInput, b: ControlInput)
    requires RawNoLess(a, b) && a.weight >= 0.0
    ensures WeightedScore(a) <= WeightedScore(b)
  {
    WeighedIsMonotone(RawScore(a), RawScore(b), a.weight);
  }

  lemma WeighedIsMonotone(x: real, y: real, w: real)
    requires 0.0 <= x <= y && w >= 0.0
    ensures Weighed(x, w) <= Weighed(y, w)
  {
    ScaleMonotone(x, y, w);
    RoundingIsMonotone(x * w, y * w);
  }

  lemma ScaleMonotone(x: real, y: real, w: real)
    requires 0.0 <= x <= y && w >= 0.0
    ensures 0.0 <= x * w <= y * w
  {
  }

  lemma {:induction false} ImprovedSums(a: seq<ControlInput>, b: seq<ControlInput>)
    requires AllWellFormed(a) && AllImprove(a, b)
    ensures AllWellFormed(b)
    ensures ApplicableCount(a) == ApplicableCount(b) && SumWeights(a) == SumWeights(b)
    ensures SumWeighted(a) <= SumWeighted(b)
    ensures AnyOverride(b) ==> AnyOverride(a)
    decreases |a|
  {
    if a != [] {
      ImprovedControl(a[0], b[0]);
      ImprovedSums(a[1..], b[1..]);
      forall i | 0 <= i < |b| ensures WellFormed(b[i]) {
        assert i == 0 || b[i] == b[1..][i - 1];
      }
      if AnyOverride(b) {
        var i :| 0 <= i < |b| && TriggersOverride(b[i]);
        ImprovedControl(a[i], b[i]);
        assert TriggersOverride(a[i]);
      }
    }
  }

  /** Raising statuses or adding evidence never lowers the score and never worsens the class. */
  lemma ImprovingNeverHurts(a: seq<ControlInput>, b: seq<ControlInput>, before: ScoreResult, after: ScoreResult)
    requires AllWellFormed(a) && AllImprove(a, b)
    requires Scored(a, before) && Scored(b, after)
    ensures before.overall.Some? <==> after.overall.Some?
    ensures before.overall.Some? ==> before.overall.value <= after.overall.value
    ensures Severity(after.classification) <= Severity(before.classification)
  {
    ImprovedSums(a, b);
    SumBounds(a);
    if before.overall.Some? {
      RoundedQuotientGrows(SumWeighted(a), SumWeighted(b), SumWeights(a));
      ScoreStaysInRange(b, after);
      RoundedQuotientInRange(SumWeighted(a), SumWeights(a));
      ClassImproves(before.overall.value, after.overall.value, AnyOverride(a), AnyOverride(b));
    }
  }

  lemma ClassImproves(x: real, y: real, overrideX: bool, overrideY: bool)
    requires 0.0 <= x <= y <= 100.0 && (overrideY ==> overrideX)
    ensures Severity(ClassOf(Some(y), overrideY)) <= Severity(ClassOf(Some(x), overrideX))
  {
    RoundingIsMonotone(100.0 - y, 100.0 - x);
  }

  lemma RoundedQuotientGrows(x: real, y: real, w: real)
    requires 0.0 <= x <= y && w > 0.0
    ensures RoundHalfUp(x / w) <= RoundHalfUp(y / w)
  {
    DivideMonotone(x, y, w);
    RoundingIsMonotone(x / w, y / w);
  }

  lemma DivideMonotone(x: real, y: real, w: real)
    requires 0.0 <= x <= y && w > 0.0
    ensures 0.0 <= x / w <= y / w
  {
  }

  /** Results promised for two orders of the same controls are the same result. */
  lemma EngineIsOrderBlind(a: seq<ControlInput>, b: seq<ControlInput>, r: ScoreResult, q: ScoreResult)
    requires multiset(a) == multiset(b) && Scored(a, r) && Scored(b, q)
    ensures r == q
  {
    OrderDoesNotMatter(a, b, r);
    ScoredIsUnique(b, r, q);
  }
}
