/**
 What each accepted operation does to an assessment, field by field, why an operation is refused,
 and what the stored rows hold after any run of operations.
 */
module AssessmentHistory {
  import opened Common
  import opened Scoring
  import opened AssessmentLifecycle

  /** A new assessment is an unscored draft with one unassessed row for each framework control, and no more. */
  lemma CreationIsADraft(controls: seq<FrameworkControl>)
    ensures var a := Created(controls);
            && a.status == Draft && a.version.None? && a.overall.None? && a.classification == NotScored
            && a.evidence == [] && a.snapshots == [] && a.overrides == [] && |a.controls| == |controls|
            && forall i :: 0 <= i < |controls| ==>
                 a.controls[i] == ControlRow(controls[i].rowId, controls[i].controlId, Unassessed,
                                             controls[i].defaultWeight, None)
  {
  }

  // ---------------------------------------------------------------- one update

  predicate IsWhole(x: real) {
    x == x.Floor as real
  }

  /** Within a twentieth of the given weight, and a whole number of tenths. */
  predicate NearestTenth(stored: real, given: real) {
    -0.05 <= stored - given <= 0.05 && IsWhole(stored * 10.0)
  }

  lemma StoredWeightIsNearest(w: real)
    ensures NearestTenth(StoredWeight(w), w)
  {
    var n := (w * 10.0 + 0.5).Floor;
    assert StoredWeight(w) * 10.0 == n as real;
  }

  /** The row before and after an accepted update that names it. */
  ghost predicate UpdatedAsGiven(before: ControlRow, after: ControlRow, op: Op)
    requires op.UpdateControl?
  {
    && after.id == before.id && after.controlId == before.controlId
    && after.status == (if op.newStatus.Some? then op.newStatus.value else before.status)
    && (if op.newWeight.Some? then NearestTenth(after.weight, op.newWeight.value) else after.weight == before.weight)
    && after.rationale == (if op.newRationale.Some? then op.newRationale else before.rationale)
  }

  /** An accepted change to the inputs starts a draft and withdraws the score, and rewrites no history. */
  predicate ScoreWithdrawn(before: Assessment, after: Assessment) {
    && after.version.None? && after.overall.None? && after.classification == NotScored
    && after.status == (if before.status == Draft then InProgress else before.status)
    && after.snapshots == before.snapshots && after.overrides == before.overrides
  }

  /** An accepted update changes the row it names as given, no other row, and no evidence. */
  lemma UpdateChangesOneRow(a: Assessment, op: Op)
    requires op.UpdateControl? && Refusal(a, op).None?
    ensures var b := Apply(a, op);
            && ScoreWithdrawn(a, b) && b.evidence == a.evidence && |b.controls| == |a.controls|
            && forall i :: 0 <= i < |a.controls| ==>
                 if a.controls[i].id == op.row then UpdatedAsGiven(a.controls[i], b.controls[i], op)
                 else b.controls[i] == a.controls[i]
  {
    if op.newWeight.Some? {
      StoredWeightIsNearest(op.newWeight.value);
    }
  }

  // ---------------------------------------------------------------- the other operations

  /** Accepted evidence is appended as given and changes no control. */
  lemma AdmissionAppendsEvidence(a: Assessment, op: Op)
    requires op.AdmitEvidence? && Refusal(a, op).None?
    ensures var b := Apply(a, op);
            && ScoreWithdrawn(a, b) && b.controls == a.controls
            && b.evidence == a.evidence + [EvidenceRow(op.evidenceId, op.row, op.documentId, op.chunkId)]
  {
  }

  /** The inputs of the engine: each row's control, status and weight, and the number of its evidence rows. */
  lemma InputsAreTheRows(a: Assessment, i: nat)
    requires i < |a.controls|
    ensures var c := a.controls[i];
            Inputs(a)[i] == ControlInput(c.controlId, c.status, c.weight, |EvidenceOfRow(a.evidence, c.id)|)
  {
    CountIsCardinality(a.evidence, a.controls[i].id);
  }

  function EvidenceOfRow(evidence: seq<EvidenceRow>, row: nat): set<int> {
    set k | 0 <= k < |evidence| && evidence[k].control == row
  }

  lemma {:induction false} CountIsCardinality(evidence: seq<EvidenceRow>, row: nat)
    ensures CountEvidence(evidence, row) == |EvidenceOfRow(evidence, row)|
    decreases |evidence|
  {
    if evidence != [] {
      var n := |evidence| - 1;
      CountIsCardinality(evidence[..n], row);
      if evidence[n].control == row {
        assert EvidenceOfRow(evidence, row) == EvidenceOfRow(evidence[..n], row) + {n};
      } else {
        assert EvidenceOfRow(evidence, row) == EvidenceOfRow(evidence[..n], row);
      }
    }
  }

  predicate SnapshotOf(a: Assessment, id: nat, s: Snapshot) {
    && s.id == id && s.revision == |a.snapshots| + 1 && s.version == "v1.0"
    && multiset(s.inputs) == multiset(Inputs(a)) && SortedById(s.inputs)
  }

  /** A computation writes one snapshot of the inputs as they are, sorted, and stores its score. */
  lemma ComputationWritesASnapshot(a: Assessment, id: nat)
    requires Inv(a) && Refusal(a, ComputeScore(id)).None?
    ensures var b := Apply(a, ComputeScore(id));
            && |b.snapshots| == |a.snapshots| + 1 && b.snapshots[..|a.snapshots|] == a.snapshots
            && SnapshotOf(a, id, b.snapshots[|a.snapshots|])
            && b.overall == b.snapshots[|a.snapshots|].overall && b.version == Some("v1.0")
            && b.classification == b.snapshots[|a.snapshots|].classification
            && b.status == a.status && b.controls == a.controls && b.evidence == a.evidence && b.overrides == a.overrides
  {
    LatestIsLast(a.snapshots);
    SortByIdSorts(Inputs(a));
  }

  /** An override row names the latest snapshot, keeps its score, and holds the given one to the hundredth. */
  ghost predicate OverrideAsGiven(a: Assessment, op: Op, o: OverrideRow)
    requires op.CreateOverride?
  {
    && a.snapshots != []
    && o.id == op.overrideId && o.at == op.at
    && o.snapshotId == a.snapshots[|a.snapshots| - 1].id && o.revision == |a.snapshots|
    && o.originalScore == a.overall && o.originalClass == a.classification
    && -0.005 <= o.score - op.score <= 0.005 && IsWhole(o.score * 100.0)
    && ClassedByRisk(o.score, false, o.classification)
  }

  lemma OverrideIsAppendedAsGiven(a: Assessment, op: Op)
    requires Inv(a) && op.CreateOverride? && Refusal(a, op).None?
    ensures var b := Apply(a, op);
            && |b.overrides| == |a.overrides| + 1 && b == a.(overrides := b.overrides)
            && b.overrides[..|a.overrides|] == a.overrides && OverrideAsGiven(a, op, b.overrides[|a.overrides|])
  {
    OverrideAppends(a, op);
    assert 0.0 <= op.score <= 100.0;
    NewOverrideIsAsGiven(a, op);
  }

  lemma NewOverrideIsAsGiven(a: Assessment, op: Op)
    requires Inv(a) && op.CreateOverride? && Current(a).Some? && 0.0 <= op.score <= 100.0
    ensures OverrideAsGiven(a, op, NewOverride(a, op))
  {
    CurrentIsLast(a);
    OverrideScoreIsNearest(op.score);
    RowOfSnapshot(a, op, Current(a).value, OverrideValues(op.score));
  }

  lemma RowOfSnapshot(a: Assessment, op: Op, s: Snapshot, values: (real, Classification))
    requires op.CreateOverride? && a.snapshots != [] && s == a.snapshots[|a.snapshots| - 1]
    requires s.revision == |a.snapshots| && Matches(a, s)
    requires -0.005 <= values.0 - op.score <= 0.005 && IsWhole(values.0 * 100.0)
    requires ClassedByRisk(values.0, false, values.1)
    ensures OverrideAsGiven(a, op, OverrideOf(s, op.overrideId, op.at, values))
  {
  }

  lemma OverrideScoreIsNearest(score: real)
    requires 0.0 <= score <= 100.0
    ensures var (s, c) := OverrideValues(score);
            && -0.005 <= s - score <= 0.005 && IsWhole(s * 100.0) && ClassedByRisk(s, false, c)
  {
    RoundingIsNearest(score, 0);
    RoundingIsNearest(score, 10000);
    RoundedIsWhole(score);
    RoundedRiskIsExact(Hundredths(score));
    RiskClasses(RoundHalfUp(score), false);
  }

  lemma RoundedIsWhole(score: real)
    ensures IsWhole(RoundHalfUp(score) * 100.0)
  {
    assert RoundHalfUp(score) * 100.0 == Hundredths(score) as real;
  }

  lemma RoundedRiskIsExact(n: nat)
    requires n as real / 100.0 <= 100.0
    ensures RoundHalfUp(n as real / 100.0) == n as real / 100.0
    ensures RoundHalfUp(100.0 - n as real / 100.0) == 100.0 - n as real / 100.0
  {
    WholeHundredthsStay(n);
    WholeBound(n, 10000);
    assert 100.0 - n as real / 100.0 == (10000 - n) as real / 100.0;
    WholeHundredthsStay(10000 - n);
  }

  /** Accepted finalisation closes the assessment and changes nothing else. */
  lemma FinalizationCompletes(a: Assessment)
    ensures Refusal(a, Finalize).None? ==> Apply(a, Finalize) == a.(status := Completed)
  {
  }

  // ---------------------------------------------------------------- refusals

  lemma UpdateRefusals(a: Assessment, op: Op)
    requires op.UpdateControl?
    ensures var known := exists i :: 0 <= i < |a.controls| && a.controls[i].id == op.row;
            var open := a.status == Draft || a.status == InProgress;
            && (Refusal(a, op) == Some(NotFound) <==> !known)
            && (Refusal(a, op) == Some(Conflict) <==> known && !open)
            && (Refusal(a, op) == Some(Invalid) <==>
                known && open && op.newWeight.Some? && (op.newWeight.value < 1.0 || op.newWeight.value > 5.0))
            && Refusal(a, op) in {None, Some(NotFound), Some(Conflict), Some(Invalid)}
  {
  }

  /** The same evidence is attached to the row already. */
  predicate AlreadyAttached(a: Assessment, op: Op)
    requires op.AdmitEvidence?
  {
    exists k :: 0 <= k < |a.evidence| && a.evidence[k].control == op.row && a.evidence[k].document == op.documentId
                && a.evidence[k].chunk == op.chunkId
  }

  lemma AdmissionRefusals(a: Assessment, op: Op)
    requires op.AdmitEvidence?
    ensures var known := exists i :: 0 <= i < |a.controls| && a.controls[i].id == op.row;
            var open := known && (a.status == Draft || a.status == InProgress);
            var readable := open && op.document == Some(true);
            var fitting := readable && (op.chunkId.None? || op.chunkOwner == Some(op.documentId));
            && (Refusal(a, op) == Some(NotFound) <==> !known || (open && op.document.None?))
            && (Refusal(a, op) == Some(Forbidden) <==> open && op.document == Some(false))
            && (Refusal(a, op) == Some(Invalid) <==> readable && !fitting)
            && (Refusal(a, op) == Some(Conflict) <==> (known && !open) || (fitting && AlreadyAttached(a, op)))
            && (Refusal(a, op).None? <==> fitting && !AlreadyAttached(a, op))
  {
  }

  lemma ComputationRefusals(a: Assessment, id: nat)
    ensures var open := a.status == Draft || a.status == InProgress;
            && (Refusal(a, ComputeScore(id)) == Some(Conflict) <==> !open)
            && (Refusal(a, ComputeScore(id)).None? <==>
                && open
                && (forall i, j :: 0 <= i < j < |a.controls| ==> a.controls[i].controlId != a.controls[j].controlId)
                && forall i :: 0 <= i < |a.controls| ==> 1.0 <= a.controls[i].weight <= 5.0)
  {
    assert forall i :: 0 <= i < |a.controls| ==> Inputs(a)[i] == InputOf(a.controls[i], a.evidence);
    if EngineAccepts(Inputs(a)) {
      forall i | 0 <= i < |a.controls| ensures 1.0 <= a.controls[i].weight <= 5.0 {
        assert WellFormed(Inputs(a)[i]);
      }
      forall i, j | 0 <= i < j < |a.controls| ensures a.controls[i].controlId != a.controls[j].controlId {
        assert Inputs(a)[i].id != Inputs(a)[j].id;
      }
    }
  }

  /** From a reachable state: an override needs a current score, a score in range and a reason. */
  lemma OverrideRefusals(a: Assessment, op: Op)
    requires Inv(a) && op.CreateOverride?
    ensures var valid := 0.0 <= op.score <= 100.0 && Strip(op.justification) != "";
            && (Refusal(a, op) == Some(Invalid) <==> !valid)
            && (Refusal(a, op).None? <==>
                valid && a.status != Archived && a.version.Some? && a.overall.Some? && a.classification != NotScored)
            && Refusal(a, op) in {None, Some(Invalid), Some(Conflict)}
  {
    CurrentIsLast(a);
  }

  // ---------------------------------------------------------------- rows after a run

  datatype Field = StatusField | WeightField

  /** Operation k is an accepted update that gives this field of this row. */
  predicate Sets(a: Assessment, ops: seq<Op>, row: nat, field: Field, k: nat) {
    && k < |ops| && ops[k].UpdateControl? && ops[k].row == row
    && (if field == StatusField then ops[k].newStatus.Some? else ops[k].newWeight.Some?)
    && Accepted(a, ops, k)
  }

  function LastToSet(a: Assessment, ops: seq<Op>, row: nat, field: Field): Option<nat>
    decreases |ops|
  {
    if ops == [] then None
    else if Sets(a, ops, row, field, |ops| - 1) then Some(|ops| - 1)
    else LastToSet(a, ops[..|ops| - 1], row, field)
  }

  lemma SetsBefore(a: Assessment, ops: seq<Op>, row: nat, field: Field, k: nat)
    requires ops != [] && k < |ops| - 1
    ensures Sets(a, ops, row, field, k) == Sets(a, ops[..|ops| - 1], row, field, k)
  {
    AcceptedInPrefix(a, ops, k);
  }

  lemma {:induction false} LastToSetIsLast(a: Assessment, ops: seq<Op>, row: nat, field: Field)
    ensures var last := LastToSet(a, ops, row, field);
            && (last.Some? ==> Sets(a, ops, row, field, last.value))
            && forall k: nat :: Sets(a, ops, row, field, k) ==> last.Some? && k <= last.value
    decreases |ops|
  {
    if ops != [] {
      var n := |ops| - 1;
      LastToSetIsLast(a, ops[..n], row, field);
      forall k: nat | k < n ensures Sets(a, ops, row, field, k) == Sets(a, ops[..n], row, field, k) {
        SetsBefore(a, ops, row, field, k);
      }
    }
  }

  /** The status on record: that of the last accepted update that gave the row one, else the first. */
  predicate StatusOnRecord(a: Assessment, ops: seq<Op>, row: nat, first: ControlStatus, now: ControlStatus) {
    var last := LastToSet(a, ops, row, StatusField);
    if last.None? then now == first
    else last.value < |ops| && ops[last.value].UpdateControl? && Some(now) == ops[last.value].newStatus
  }

  predicate WeightOnRecord(a: Assessment, ops: seq<Op>, row: nat, first: real, now: real) {
    var last := LastToSet(a, ops, row, WeightField);
    if last.None? then now == first
    else
      && last.value < |ops| && ops[last.value].UpdateControl? && ops[last.value].newWeight.Some?
      && NearestTenth(now, ops[last.value].newWeight.value)
  }

  /** What the last operation of a run did to row i. */
  lemma LastStep(a: Assessment, ops: seq<Op>, i: nat)
    requires ops != [] && i < |Run(a, ops[..|ops| - 1]).controls|
    ensures var n := |ops| - 1;
            var before, now := Run(a, ops[..n]).controls, Run(a, ops).controls;
            && |now| == |before| && now[i].id == before[i].id && now[i].controlId == before[i].controlId
            && now[i].status == (if Sets(a, ops, before[i].id, StatusField, n) then ops[n].newStatus.value else before[i].status)
            && if Sets(a, ops, before[i].id, WeightField, n) then NearestTenth(now[i].weight, ops[n].newWeight.value)
               else now[i].weight == before[i].weight
  {
    var n := |ops| - 1;
    var before := Run(a, ops[..n]);
    assert Accepted(a, ops, n) == Refusal(before, ops[n]).None?;
    if Refusal(before, ops[n]).None? && ops[n].UpdateControl? {
      UpdateChangesOneRow(before, ops[n]);
    }
  }

  /**
   After any run from creation each row is the framework's: its status is that of the last accepted
   update that gave it one, else unassessed, and its weight the last accepted one to the nearest
   tenth, else the default.
   */
  lemma {:induction false} RowsShowTheLastUpdates(controls: seq<FrameworkControl>, ops: seq<Op>, i: nat)
    requires i < |controls|
    ensures |Run(Created(controls), ops).controls| == |controls|
    ensures var a, c := Created(controls), Run(Created(controls), ops).controls[i];
            && c.id == controls[i].rowId && c.controlId == controls[i].controlId
            && StatusOnRecord(a, ops, controls[i].rowId, Unassessed, c.status)
            && WeightOnRecord(a, ops, controls[i].rowId, controls[i].defaultWeight, c.weight)
    decreases |ops|
  {
    var a := Created(controls);
    if ops != [] {
      var n := |ops| - 1;
      RowsShowTheLastUpdates(controls, ops[..n], i);
      LastStep(a, ops, i);
    }
  }

  /** Operation k is an accepted admission of this evidence row. */
  predicate Admits(a: Assessment, ops: seq<Op>, k: nat, e: EvidenceRow) {
    && k < |ops| && ops[k].AdmitEvidence? && Accepted(a, ops, k)
    && e == EvidenceRow(ops[k].evidenceId, ops[k].row, ops[k].documentId, ops[k].chunkId)
  }

  ghost predicate WasAdmitted(a: Assessment, ops: seq<Op>, e: EvidenceRow) {
    exists k: nat :: Admits(a, ops, k, e)
  }

  lemma AdmittedStep(a: Assessment, ops: seq<Op>, e: EvidenceRow)
    requires ops != []
    ensures WasAdmitted(a, ops, e) <==> WasAdmitted(a, ops[..|ops| - 1], e) || Admits(a, ops, |ops| - 1, e)
  {
    var n := |ops| - 1;
    forall k: nat | k < n ensures Admits(a, ops, k, e) == Admits(a, ops[..n], k, e) {
      AcceptedInPrefix(a, ops, k);
    }
    if k: nat :| Admits(a, ops[..n], k, e) {
      assert Admits(a, ops, k, e);
    }
  }

  /** After any run from creation the evidence is exactly what was admitted, and nothing is attached twice. */
  lemma {:induction false} EvidenceIsWhatWasAdmitted(controls: seq<FrameworkControl>, ops: seq<Op>, e: EvidenceRow)
    ensures e in Run(Created(controls), ops).evidence <==> WasAdmitted(Created(controls), ops, e)
    ensures NothingTwice(Run(Created(controls), ops).evidence)
    decreases |ops|
  {
    var a := Created(controls);
    if ops != [] {
      var n := |ops| - 1;
      EvidenceIsWhatWasAdmitted(controls, ops[..n], e);
      AdmittedStep(a, ops, e);
      EvidenceStep(Run(a, ops[..n]), ops[n]);
      LastAdmission(a, ops, e);
    }
  }

  lemma LastAdmission(a: Assessment, ops: seq<Op>, e: EvidenceRow)
    requires ops != []
    ensures var n := |ops| - 1;
            e in Run(a, ops).evidence <==> e in Run(a, ops[..n]).evidence || Admits(a, ops, n, e)
  {
    EvidenceStep(Run(a, ops[..|ops| - 1]), ops[|ops| - 1]);
  }

  predicate NothingTwice(evidence: seq<EvidenceRow>) {
    forall i, j :: 0 <= i < j < |evidence| ==>
      !(evidence[i].control == evidence[j].control && evidence[i].document == evidence[j].document
        && evidence[i].chunk == evidence[j].chunk)
  }

  lemma EvidenceStep(a: Assessment, op: Op)
    ensures Apply(a, op).evidence ==
            if op.AdmitEvidence? && Refusal(a, op).None?
            then a.evidence + [EvidenceRow(op.evidenceId, op.row, op.documentId, op.chunkId)] else a.evidence
    ensures NothingTwice(a.evidence) ==> NothingTwice(Apply(a, op).evidence)
  {
    if op.AdmitEvidence? {
      AdmissionRefusals(a, op);
    }
  }
}
