/**
 The compliance assessment as a state machine: control updates, evidence, score computation with
 its snapshot history, human overrides and finalisation, over whole runs.
 */
module AssessmentLifecycle {
  import opened Common
  import opened Scoring

  // ---------------------------------------------------------------- stored state

  datatype AssessmentStatus = Draft | InProgress | Completed | Archived

  datatype ControlRow = ControlRow(id: nat, controlId: ControlId, status: ControlStatus, weight: real,
                                   rationale: Option<string>)

  datatype EvidenceRow = EvidenceRow(id: nat, control: nat, document: nat, chunk: Option<nat>)

  datatype Snapshot = Snapshot(id: nat, revision: nat, version: string, inputs: seq<ControlInput>,
                               overall: Option<real>, classification: Classification)

  /** `at` is the start of the writing transaction, so rows need not be appended in its order. */
  datatype OverrideRow = OverrideRow(id: nat, at: int, snapshotId: nat, revision: nat,
                                     originalScore: Option<real>, originalClass: Classification,
                                     score: real, classification: Classification)

  datatype Assessment = Assessment(
    status: AssessmentStatus, overall: Option<real>, classification: Classification, version: Option<string>,
    controls: seq<ControlRow>, evidence: seq<EvidenceRow>,
    snapshots: seq<Snapshot>, overrides: seq<OverrideRow>)

  datatype ServiceError = NotFound | Conflict | Invalid | Forbidden | EngineRefused

  const SCORING_VERSION := "v1.0"

  /** A framework control as an assessment is created from it. */
  datatype FrameworkControl = FrameworkControl(rowId: nat, controlId: ControlId, defaultWeight: real)

  function Created(controls: seq<FrameworkControl>): Assessment {
    Assessment(Draft, None, NotScored, None,
               seq(|controls|, i requires 0 <= i < |controls| =>
                 ControlRow(controls[i].rowId, controls[i].controlId, Unassessed, controls[i].defaultWeight, None)),
               [], [], [])
  }

  // ---------------------------------------------------------------- queries

  function CountEvidence(evidence: seq<EvidenceRow>, row: nat): nat {
    if evidence == [] then 0
    else CountEvidence(evidence[..|evidence| - 1], row) + (if evidence[|evidence| - 1].control == row then 1 else 0)
  }

  function InputOf(c: ControlRow, evidence: seq<EvidenceRow>): ControlInput {
    ControlInput(c.controlId, c.status, c.weight, CountEvidence(evidence, c.id))
  }

  /** The scoring inputs as they are stored now. */
  function Inputs(a: Assessment): (inputs: seq<ControlInput>)
    ensures |inputs| == |a.controls|
  {
    seq(|a.controls|, i requires 0 <= i < |a.controls| => InputOf(a.controls[i], a.evidence))
  }

  /** The row with the greatest revision number. */
  function LatestSnapshot(rows: seq<Snapshot>): Option<Snapshot> {
    if rows == [] then None
    else
      var last := rows[|rows| - 1];
      var rest := LatestSnapshot(rows[..|rows| - 1]);
      if rest.Some? && rest.value.revision > last.revision then rest else Some(last)
  }

  function NextRevision(rows: seq<Snapshot>): nat {
    match LatestSnapshot(rows)
    case None => 1
    case Some(s) => s.revision + 1
  }

  predicate Later(o: OverrideRow, p: OverrideRow) {
    o.at > p.at || (o.at == p.at && o.id > p.id)
  }

  /** The row with the greatest timestamp, ties broken by identifier. */
  function LatestOverride(rows: seq<OverrideRow>): Option<OverrideRow> {
    if rows == [] then None
    else
      var last := rows[|rows| - 1];
      var rest := LatestOverride(rows[..|rows| - 1]);
      if rest.Some? && Later(rest.value, last) then rest else Some(last)
  }

  /** The freshness check shared by override and finalisation. */
  predicate Matches(a: Assessment, s: Snapshot) {
    && a.version == Some(s.version) && a.overall == s.overall && a.classification == s.classification
  }

  datatype Effective = Effective(override: Option<OverrideRow>, score: Option<real>, classification: Classification)

  function EffectiveScores(a: Assessment): Effective {
    var own := Effective(None, a.overall, a.classification);
    if a.version.None? then own
    else
      var latest := LatestSnapshot(a.snapshots);
      if latest.None? || !Matches(a, latest.value) then own
      else
        var o := LatestOverride(a.overrides);
        if o.None? || o.value.snapshotId != latest.value.id || o.value.revision != latest.value.revision then own
        else Effective(o, Some(o.value.score), o.value.classification)
  }

  // ---------------------------------------------------------------- operations

  datatype Op =
    | UpdateControl(row: nat, newStatus: Option<ControlStatus>, newWeight: Option<real>, newRationale: Option<string>)
      /** `document`: None when unknown, else whether the caller may read it; `chunkOwner`: the chunk's document. */
    | AdmitEvidence(evidenceId: nat, row: nat, documentId: nat, chunkId: Option<nat>,
                    document: Option<bool>, chunkOwner: Option<nat>)
    | ComputeScore(snapshotId: nat)
    | CreateOverride(overrideId: nat, at: int, score: real, justification: string)
    | Finalize

  predicate HasRow(a: Assessment, row: nat) {
    exists i :: 0 <= i < |a.controls| && a.controls[i].id == row
  }

  predicate Closed(a: Assessment) {
    a.status == Completed || a.status == Archived
  }

  predicate Attached(a: Assessment, row: nat, documentId: nat, chunkId: Option<nat>) {
    exists i :: 0 <= i < |a.evidence| && a.evidence[i].control == row && a.evidence[i].document == documentId
                && a.evidence[i].chunk == chunkId
  }

  /** The latest snapshot, when the stored score still matches it. */
  function Current(a: Assessment): Option<Snapshot> {
    var latest := LatestSnapshot(a.snapshots);
    if latest.Some? && Matches(a, latest.value) then latest else None
  }

  predicate EngineAccepts(inputs: seq<ControlInput>) {
    DistinctIds(inputs) && AllWellFormed(inputs)
  }

  function OverrideRefusal(a: Assessment, score: real, justification: string): Option<ServiceError> {
    if score < 0.0 || score > 100.0 || Strip(justification) == "" then Some(Invalid)
    else if a.status == Archived || Current(a).None? then Some(Conflict)
    else if Current(a).value.overall.None? || Current(a).value.classification == NotScored then Some(Conflict)
    else None
  }

  function AdmitRefusal(a: Assessment, row: nat, documentId: nat, chunkId: Option<nat>,
                        document: Option<bool>, chunkOwner: Option<nat>): Option<ServiceError> {
    if !HasRow(a, row) then Some(NotFound)
    else if Closed(a) then Some(Conflict)
    else if document.None? then Some(NotFound)
    else if !document.value then Some(Forbidden)
    else if chunkId.Some? && chunkOwner != Some(documentId) then Some(Invalid)
    else if Attached(a, row, documentId, chunkId) then Some(Conflict)
    else None
  }

  /** The refusal of an operation, or None when it is carried out. */
  function Refusal(a: Assessment, op: Op): Option<ServiceError> {
    match op
    case UpdateControl(row, _, weight, _) =>
      if !HasRow(a, row) then Some(NotFound)
      else if Closed(a) then Some(Conflict)
      else if weight.Some? && !(1.0 <= weight.value <= 5.0) then Some(Invalid)
      else None
    case AdmitEvidence(_, row, documentId, chunkId, document, chunkOwner) =>
      AdmitRefusal(a, row, documentId, chunkId, document, chunkOwner)
    case ComputeScore(_) =>
      if Closed(a) then Some(Conflict) else if !EngineAccepts(Inputs(a)) then Some(EngineRefused) else None
    case CreateOverride(_, _, score, justification) =>
      OverrideRefusal(a, score, justification)
    case Finalize =>
      if Closed(a) || Current(a).None? then Some(Conflict) else None
  }

  /** The weight column keeps one decimal place. */
  function StoredWeight(w: real): real {
    (w * 10.0 + 0.5).Floor as real / 10.0
  }

  function UpdatedRow(c: ControlRow, op: Op): ControlRow
    requires op.UpdateControl?
  {
    if c.id != op.row then c
    else c.(status := if op.newStatus.Some? then op.newStatus.value else c.status,
            weight := if op.newWeight.Some? then StoredWeight(op.newWeight.value) else c.weight,
            rationale := if op.newRationale.Some? then op.newRationale else c.rationale)
  }

  /** Touching the inputs starts a draft and withdraws the stored score. */
  function Touched(a: Assessment): Assessment {
    a.(status := if a.status == Draft then InProgress else a.status,
       overall := None, classification := NotScored, version := None)
  }

  function NewSnapshot(a: Assessment, id: nat): Snapshot {
    var inputs := Inputs(a);
    Snapshot(id, NextRevision(a.snapshots), SCORING_VERSION, SortById(inputs),
             Average(inputs), ClassOf(Average(inputs), AnyOverride(inputs)))
  }

  /** The rounded score and its derived class. */
  function OverrideValues(score: real): (real, Classification) {
    var rounded := RoundHalfUp(score);
    (rounded, Band(RoundHalfUp(100.0 - RoundHalfUp(rounded))))
  }

  function OverrideOf(s: Snapshot, id: nat, at: int, values: (real, Classification)): OverrideRow {
    OverrideRow(id, at, s.id, s.revision, s.overall, s.classification, values.0, values.1)
  }

  function NewOverride(a: Assessment, op: Op): OverrideRow
    requires op.CreateOverride? && Current(a).Some?
  {
    OverrideOf(Current(a).value, op.overrideId, op.at, OverrideValues(op.score))
  }

  function Apply(a: Assessment, op: Op): Assessment {
    if Refusal(a, op).Some? then a
    else
      match op
      case UpdateControl(_, _, _, _) =>
        Touched(a).(controls := seq(|a.controls|, i requires 0 <= i < |a.controls| => UpdatedRow(a.controls[i], op)))
      case AdmitEvidence(id, row, documentId, chunkId, _, _) =>
        Touched(a).(evidence := a.evidence + [EvidenceRow(id, row, documentId, chunkId)])
      case ComputeScore(id) =>
        var s := NewSnapshot(a, id);
        a.(overall := s.overall, classification := s.classification, version := Some(s.version),
           snapshots := a.snapshots + [s])
      case CreateOverride(_, _, _, _) =>
        a.(overrides := a.overrides + [NewOverride(a, op)])
      case Finalize =>
        a.(status := Completed)
  }

  function Run(a: Assessment, ops: seq<Op>): Assessment {
    if ops == [] then a else Apply(Run(a, ops[..|ops| - 1]), ops[|ops| - 1])
  }

  // ---------------------------------------------------------------- invariant

  /** Snapshot rows are numbered 1, 2, 3, … in the order they were written. */
  predicate Numbered(rows: seq<Snapshot>) {
    forall i :: 0 <= i < |rows| ==> rows[i].revision == i + 1
  }

  /** A snapshot records what the engine computes from the inputs it records. */
  predicate Faithful(s: Snapshot) {
    s.overall == Average(s.inputs) && s.classification == ClassOf(Average(s.inputs), AnyOverride(s.inputs))
  }

  /** An override names a scored snapshot of this assessment and quotes its score. */
  predicate Anchored(o: OverrideRow, rows: seq<Snapshot>) {
    && 1 <= o.revision <= |rows|
    && rows[o.revision - 1].id == o.snapshotId
    && rows[o.revision - 1].overall == o.originalScore && o.originalScore.Some?
    && rows[o.revision - 1].classification == o.originalClass
    && Consistent(o.score, o.classification)
  }

  predicate Consistent(score: real, classification: Classification) {
    ClassifyScore(score) == Ok(classification)
  }

  /** A stored score is the last snapshot's, taken from the inputs as they are now. */
  predicate ScoreIsCurrent(a: Assessment) {
    if a.version.None? then a.overall.None? && a.classification == NotScored
    else
      && a.snapshots != []
      && var last := a.snapshots[|a.snapshots| - 1];
         && last.version == a.version.value && last.inputs == SortById(Inputs(a))
         && a.overall == last.overall && a.classification == last.classification
  }

  predicate Inv(a: Assessment) {
    && Numbered(a.snapshots)
    && (forall i :: 0 <= i < |a.snapshots| ==> Faithful(a.snapshots[i]))
    && (forall i :: 0 <= i < |a.overrides| ==> Anchored(a.overrides[i], a.snapshots))
    && ScoreIsCurrent(a)
    && (a.status == Completed ==> a.version.Some?)
  }

  lemma {:induction false} LatestIsLast(rows: seq<Snapshot>)
    requires Numbered(rows)
    ensures LatestSnapshot(rows) == if rows == [] then None else Some(rows[|rows| - 1])
    ensures NextRevision(rows) == |rows| + 1
    decreases |rows|
  {
    if rows != [] {
      LatestIsLast(rows[..|rows| - 1]);
    }
  }

  /** Sorting the inputs first does not change what the engine makes of them. */
  lemma SortedInputsScoreTheSame(inputs: seq<ControlInput>)
    ensures Average(SortById(inputs)) == Average(inputs)
    ensures AnyOverride(SortById(inputs)) == AnyOverride(inputs)
  {
    SortByIdSorts(inputs);
    SumsIgnoreOrder(SortById(inputs), inputs);
    OverrideIgnoresOrder(inputs, SortById(inputs));
    OverrideIgnoresOrder(SortById(inputs), inputs);
  }

  lemma OverrideIgnoresOrder(a: seq<ControlInput>, b: seq<ControlInput>)
    requires multiset(a) == multiset(b)
    ensures AnyOverride(a) ==> AnyOverride(b)
  {
    if AnyOverride(a) {
      var i :| 0 <= i < |a| && TriggersOverride(a[i]);
      var j := SameElements(a, b, i);
      assert TriggersOverride(b[j]);
    }
  }

  lemma CreatedKeepsInv(controls: seq<FrameworkControl>)
    ensures Inv(Created(controls))
  {
  }

  lemma ApplyKeepsInv(a: Assessment, op: Op)
    requires Inv(a)
    ensures Inv(Apply(a, op))
  {
    if Refusal(a, op).None? {
      LatestIsLast(a.snapshots);
      match op
      case ComputeScore(id) => ComputeKeepsInv(a, id);
      case CreateOverride(_, _, _, _) => OverrideKeepsInv(a, op);
      case _ =>
    }
  }

  lemma ComputeKeepsInv(a: Assessment, id: nat)
    requires Inv(a) && Refusal(a, ComputeScore(id)).None?
    ensures Inv(Apply(a, ComputeScore(id)))
  {
    LatestIsLast(a.snapshots);
    SortedInputsScoreTheSame(Inputs(a));
    var b := Apply(a, ComputeScore(id));
    assert Inputs(b) == Inputs(a);
    assert Faithful(NewSnapshot(a, id));
    forall i | 0 <= i < |b.overrides| ensures Anchored(b.overrides[i], b.snapshots) {
      assert Anchored(a.overrides[i], a.snapshots);
    }
  }

  lemma OverrideKeepsInv(a: Assessment, op: Op)
    requires Inv(a) && op.CreateOverride? && Refusal(a, op).None?
    ensures Inv(Apply(a, op))
  {
    CurrentIsLast(a);
    OverrideClassAgrees(op.score);
    OverrideIsAnchored(a, Current(a).value, op.overrideId, op.at, OverrideValues(op.score));
    assert Inputs(Apply(a, op)) == Inputs(a);
    AppendOverride(a, NewOverride(a, op));
  }

  lemma AppendOverride(a: Assessment, o: OverrideRow)
    requires Inv(a) && Anchored(o, a.snapshots)
    ensures Inv(a.(overrides := a.overrides + [o]))
  {
    assert Inputs(a.(overrides := a.overrides + [o])) == Inputs(a);
  }

  lemma OverrideIsAnchored(a: Assessment, s: Snapshot, id: nat, at: int, values: (real, Classification))
    requires a.snapshots != [] && s == a.snapshots[|a.snapshots| - 1] && s.revision == |a.snapshots|
    requires s.overall.Some? && Consistent(values.0, values.1)
    ensures Anchored(OverrideOf(s, id, at, values), a.snapshots)
  {
  }

  lemma CurrentIsLast(a: Assessment)
    requires Inv(a)
    ensures Current(a).Some? <==> a.version.Some?
    ensures Current(a).Some? ==>
              a.snapshots != [] && Current(a).value == a.snapshots[|a.snapshots| - 1]
              && Current(a).value.revision == |a.snapshots|
  {
    LatestIsLast(a.snapshots);
  }

  lemma OverrideClassAgrees(score: real)
    requires 0.0 <= score <= 100.0
    ensures Consistent(OverrideValues(score).0, OverrideValues(score).1)
    ensures OverrideValues(score).0 == RoundHalfUp(score)
  {
    RoundingIsNearest(score, 0);
    RoundingIsNearest(score, 10000);
  }

  lemma {:induction false} RunKeepsInv(a: Assessment, ops: seq<Op>)
    requires Inv(a)
    ensures Inv(Run(a, ops))
    decreases |ops|
  {
    if ops != [] {
      RunKeepsInv(a, ops[..|ops| - 1]);
      ApplyKeepsInv(Run(a, ops[..|ops| - 1]), ops[|ops| - 1]);
    }
  }

  // ---------------------------------------------------------------- theorems over runs

  /**
   In every reachable state a stored version means: the stored score is what the engine computes
   from the inputs as they are stored now, and it equals the latest snapshot.
   */
  lemma {:induction false} StoredScoreIsTheEnginesScore(controls: seq<FrameworkControl>, ops: seq<Op>)
    ensures var a := Run(Created(controls), ops);
            a.version.Some? ==>
              && a.overall == Average(Inputs(a))
              && a.classification == ClassOf(Average(Inputs(a)), AnyOverride(Inputs(a)))
              && LatestSnapshot(a.snapshots).Some?
              && Matches(a, LatestSnapshot(a.snapshots).value)
              && LatestSnapshot(a.snapshots).value.inputs == SortById(Inputs(a))
    ensures var a := Run(Created(controls), ops);
            a.version.None? ==> a.overall.None? && a.classification == NotScored
  {
    CreatedKeepsInv(controls);
    RunKeepsInv(Created(controls), ops);
    var a := Run(Created(controls), ops);
    LatestIsLast(a.snapshots);
    SortedInputsScoreTheSame(Inputs(a));
    if a.version.Some? {
      assert Faithful(a.snapshots[|a.snapshots| - 1]);
    }
  }

  /** Revisions are consecutive, and a snapshot or an override once written is never changed. */
  lemma {:induction false} HistoryOnlyGrows(a: Assessment, ops: seq<Op>)
    requires Inv(a)
    ensures a.snapshots <= Run(a, ops).snapshots
    ensures a.overrides <= Run(a, ops).overrides
    ensures forall i :: 0 <= i < |Run(a, ops).snapshots| ==> Run(a, ops).snapshots[i].revision == i + 1
    decreases |ops|
  {
    RunKeepsInv(a, ops);
    if ops != [] {
      HistoryOnlyGrows(a, ops[..|ops| - 1]);
      ApplyOnlyAppends(Run(a, ops[..|ops| - 1]), ops[|ops| - 1]);
    }
  }

  lemma ApplyOnlyAppends(a: Assessment, op: Op)
    ensures a.snapshots <= Apply(a, op).snapshots && a.overrides <= Apply(a, op).overrides
  {
  }

  predicate Accepted(a: Assessment, ops: seq<Op>, k: nat)
    requires k < |ops|
  {
    Refusal(Run(a, ops[..k]), ops[k]).None?
  }

  predicate TouchesInputs(op: Op) {
    op.UpdateControl? || op.AdmitEvidence?
  }

  /** A computation was accepted at k and no input was touched after it. */
  predicate ComputedLastAt(a: Assessment, ops: seq<Op>, k: nat) {
    && k < |ops| && ops[k].ComputeScore? && Accepted(a, ops, k)
    && forall j :: k < j < |ops| ==> !(TouchesInputs(ops[j]) && Accepted(a, ops, j))
  }

  ghost predicate ComputedSince(a: Assessment, ops: seq<Op>) {
    exists k: nat :: ComputedLastAt(a, ops, k)
  }

  lemma ComputedSinceStep(a: Assessment, ops: seq<Op>)
    requires ops != []
    ensures var n := |ops| - 1;
            ComputedSince(a, ops) <==>
            || (ops[n].ComputeScore? && Accepted(a, ops, n))
            || (ComputedSince(a, ops[..n]) && !(TouchesInputs(ops[n]) && Accepted(a, ops, n)))
  {
    var n := |ops| - 1;
    if ops[n].ComputeScore? && Accepted(a, ops, n) {
      assert ComputedLastAt(a, ops, n);
    } else if ComputedSince(a, ops) {
      var k: nat :| ComputedLastAt(a, ops, k);
      ShrinkComputed(a, ops, k);
    } else if ComputedSince(a, ops[..n]) && !(TouchesInputs(ops[n]) && Accepted(a, ops, n)) {
      var k: nat :| ComputedLastAt(a, ops[..n], k);
      ExtendComputed(a, ops, k);
    }
  }

  /**
   The freshness guard of override and finalisation is exact: from creation it passes if and only
   if a computation was accepted and no accepted change to the inputs followed it.
   */
  lemma {:induction false} FreshnessGuardIsExact(controls: seq<FrameworkControl>, ops: seq<Op>)
    ensures Current(Run(Created(controls), ops)).Some? <==> ComputedSince(Created(controls), ops)
    decreases |ops|
  {
    var a := Created(controls);
    if ops != [] {
      var n := |ops| - 1;
      FreshnessGuardIsExact(controls, ops[..n]);
      CreatedKeepsInv(controls);
      RunKeepsInv(a, ops[..n]);
      FreshnessStep(Run(a, ops[..n]), ops[n]);
      ComputedSinceStep(a, ops);
    }
  }

  lemma FreshnessStep(a: Assessment, op: Op)
    requires Inv(a)
    ensures Current(a).Some? <==> a.version.Some?
    ensures Current(Apply(a, op)).Some? <==>
            if Refusal(a, op).Some? then Current(a).Some?
            else if TouchesInputs(op) then false
            else op.ComputeScore? || Current(a).Some?
  {
    ApplyKeepsInv(a, op);
    CurrentIsLast(a);
    CurrentIsLast(Apply(a, op));
  }

  lemma AcceptedInPrefix(a: Assessment, ops: seq<Op>, j: nat)
    requires j < |ops| - 1
    ensures Accepted(a, ops, j) == Accepted(a, ops[..|ops| - 1], j)
  {
    assert ops[..|ops| - 1][..j] == ops[..j];
  }

  lemma ExtendComputed(a: Assessment, ops: seq<Op>, k: nat)
    requires ops != [] && ComputedLastAt(a, ops[..|ops| - 1], k)
    requires !(TouchesInputs(ops[|ops| - 1]) && Accepted(a, ops, |ops| - 1))
    ensures ComputedLastAt(a, ops, k)
  {
    forall j | k <= j < |ops| - 1 ensures Accepted(a, ops, j) == Accepted(a, ops[..|ops| - 1], j) {
      AcceptedInPrefix(a, ops, j);
    }
  }

  lemma ShrinkComputed(a: Assessment, ops: seq<Op>, k: nat)
    requires k < |ops| - 1 && ComputedLastAt(a, ops, k)
    ensures ComputedLastAt(a, ops[..|ops| - 1], k)
    ensures !(TouchesInputs(ops[|ops| - 1]) && Accepted(a, ops, |ops| - 1))
  {
    forall j | k <= j < |ops| - 1 ensures Accepted(a, ops, j) == Accepted(a, ops[..|ops| - 1], j) {
      AcceptedInPrefix(a, ops, j);
    }
  }

  // ---------------------------------------------------------------- overrides

  /** In every reachable state an effective override names the latest snapshot of a current score. */
  lemma EffectiveOverrideNamesTheLatestSnapshot(controls: seq<FrameworkControl>, ops: seq<Op>)
    ensures var a := Run(Created(controls), ops);
            var e := EffectiveScores(a);
            if e.override.Some? then
              && a.version.Some? && e.override.value in a.overrides
              && e.override.value.revision == |a.snapshots|
              && e.override.value.originalScore == a.overall
              && e.score == Some(e.override.value.score)
              && Consistent(e.override.value.score, e.classification)
            else e.score == a.overall && e.classification == a.classification
  {
    CreatedKeepsInv(controls);
    RunKeepsInv(Created(controls), ops);
    var a := Run(Created(controls), ops);
    LatestIsLast(a.snapshots);
    if EffectiveScores(a).override.Some? {
      LatestOverrideIsMember(a.overrides);
    }
  }

  lemma {:induction false} LatestOverrideIsMember(rows: seq<OverrideRow>)
    requires rows != []
    ensures LatestOverride(rows).Some? && LatestOverride(rows).value in rows
    ensures forall i :: 0 <= i < |rows| ==> !Later(rows[i], LatestOverride(rows).value)
    decreases |rows|
  {
    if |rows| > 1 {
      LatestOverrideIsMember(rows[..|rows| - 1]);
    }
  }

  /**
   A recompute retires every earlier override, even when the new score equals the old one, and it
   stays retired through any further operations that write no new override.
   */
  lemma {:induction false} RecomputeRetiresOverrides(a: Assessment, id: nat, ops: seq<Op>)
    requires Inv(a) && Refusal(a, ComputeScore(id)).None?
    requires forall i :: 0 <= i < |ops| ==> !ops[i].CreateOverride?
    ensures EffectiveScores(Run(Apply(a, ComputeScore(id)), ops)).override.None?
  {
    var b := Apply(a, ComputeScore(id));
    forall i | 0 <= i < |a.overrides| ensures a.overrides[i].revision < |b.snapshots| {
      assert Anchored(a.overrides[i], a.snapshots);
    }
    ApplyKeepsInv(a, ComputeScore(id));
    RunKeepsInv(b, ops);
    NoNewOverrides(b, ops);
    HistoryOnlyGrows(b, ops);
    var c := Run(b, ops);
    LatestIsLast(c.snapshots);
    if c.overrides != [] {
      LatestOverrideIsMember(c.overrides);
    }
  }

  lemma {:induction false} NoNewOverrides(a: Assessment, ops: seq<Op>)
    requires forall i :: 0 <= i < |ops| ==> !ops[i].CreateOverride?
    ensures Run(a, ops).overrides == a.overrides
    decreases |ops|
  {
    if ops != [] {
      NoNewOverrides(a, ops[..|ops| - 1]);
    }
  }

  /**
   An accepted override becomes effective exactly when no stored override carries a later
   timestamp: transactions are stamped when they start, so a later commit may lose.
   */
  lemma OverrideTakesEffectExactlyWhenNewest(a: Assessment, op: Op)
    requires Inv(a) && op.CreateOverride? && Refusal(a, op).None?
    ensures EffectiveScores(Apply(a, op)).override == Some(NewOverride(a, op)) <==>
            forall i :: 0 <= i < |a.overrides| ==>
              a.overrides[i].at < op.at || (a.overrides[i].at == op.at && a.overrides[i].id <= op.overrideId)
  {
    var b := Apply(a, op);
    var o := NewOverride(a, op);
    LatestIsLast(a.snapshots);
    assert b.overrides == a.overrides + [o];
    NewestWins(a.overrides, o);
    NewOverrideNamesCurrent(a, op);
  }

  lemma NewOverrideNamesCurrent(a: Assessment, op: Op)
    requires Inv(a) && op.CreateOverride? && Refusal(a, op).None?
    ensures var b := Apply(a, op);
            EffectiveScores(b).override == Some(NewOverride(a, op)) <==>
            LatestOverride(b.overrides) == Some(NewOverride(a, op))
  {
    LatestIsLast(a.snapshots);
  }

  lemma NewestWins(rows: seq<OverrideRow>, o: OverrideRow)
    ensures LatestOverride(rows + [o]) == Some(o) <==> forall i :: 0 <= i < |rows| ==> !Later(rows[i], o)
  {
    var all := rows + [o];
    assert all[..|rows|] == rows;
    if rows != [] {
      LatestOverrideIsMember(rows);
      var best := LatestOverride(rows).value;
      if Later(best, o) {
        var i :| 0 <= i < |rows| && rows[i] == best;
        assert Later(rows[i], o);
      }
    }
  }

  /** A second override of the same snapshot with an earlier stamp is accepted and changes no effective score. */
  lemma EarlierStampIsShadowed(a: Assessment, first: Op, second: Op)
    requires Inv(a) && first.CreateOverride? && second.CreateOverride?
    requires Refusal(a, first).None? && Refusal(a, second).None? && second.at < first.at
    ensures Inv(Apply(a, first)) && Refusal(Apply(a, first), second).None?
    ensures var b := Apply(a, first);
            && EffectiveScores(Apply(b, second)) == EffectiveScores(b)
            && EffectiveScores(Apply(b, second)).override != Some(NewOverride(b, second))
  {
    ApplyKeepsInv(a, first);
    SecondOverrideIsAccepted(a, first, second);
    var b := Apply(a, first);
    OverrideTakesEffectExactlyWhenNewest(b, second);
    assert b.overrides[|a.overrides|] == NewOverride(a, first);
    assert Later(b.overrides[|a.overrides|], NewOverride(b, second));
    OlderRowIsIgnored(b.overrides, |a.overrides|, NewOverride(b, second));
  }

  lemma OlderRowIsIgnored(rows: seq<OverrideRow>, i: nat, o: OverrideRow)
    requires i < |rows| && rows[i].at > o.at
    ensures LatestOverride(rows + [o]) == LatestOverride(rows)
  {
    LatestOverrideIsMember(rows);
    assert !Later(rows[i], LatestOverride(rows).value);
    assert (rows + [o])[..|rows|] == rows;
  }

  lemma SecondOverrideIsAccepted(a: Assessment, first: Op, second: Op)
    requires first.CreateOverride? && second.CreateOverride?
    requires Refusal(a, first).None? && Refusal(a, second).None?
    ensures Refusal(Apply(a, first), second).None?
  {
  }

  /**
   A concrete case, reached from creation: scores 90 and 80 over one computation, stamped 20 and 10.
   The second override is accepted, and the first one's 90 stays the effective score.
   */
  lemma AnAcceptedOverrideCanBeShadowed() returns (controls: seq<FrameworkControl>, compute: Op, first: Op, second: Op)
    ensures compute.ComputeScore? && first.CreateOverride? && second.CreateOverride?
    ensures first.score == 90.0 && first.at == 20 && second.score == 80.0 && second.at == 10
    ensures Shadows(Run(Created(controls), [compute, first]), first.overrideId, 90.0, second)
  {
    controls, compute := ScoredExample();
    first, second := TwoOverrides();
    FirstShadowsSecond(Apply(Created(controls), compute), first, second);
    TwoSteps(Created(controls), compute, first);
  }

  /** The override `id` and its score are effective, and stay so although `second` is accepted. */
  predicate Shadows(a: Assessment, id: nat, score: real, second: Op) {
    var e := EffectiveScores(a);
    && e.override.Some? && e.override.value.id == id && e.score == Some(score)
    && Refusal(a, second).None? && EffectiveScores(Apply(a, second)) == e
  }

  predicate ValidOverride(op: Op) {
    op.CreateOverride? && 0.0 <= op.score <= 100.0 && Strip(op.justification) != ""
  }

  /** Open to a first override: scored, not archived, none stored yet. */
  predicate Overridable(a: Assessment) {
    && a.status != Archived && Current(a).Some? && a.overrides == []
    && Current(a).value.overall.Some? && Current(a).value.classification != NotScored
  }

  lemma FirstShadowsSecond(a: Assessment, first: Op, second: Op)
    requires Inv(a) && Overridable(a) && ValidOverride(first) && ValidOverride(second) && second.at < first.at
    ensures Shadows(Apply(a, first), first.overrideId, RoundHalfUp(first.score), second)
  {
    FirstIsEffective(a, first);
    OverrideIsAccepted(a, second);
    EarlierStampIsShadowed(a, first, second);
  }

  /** The first override of a current score is effective, whatever its stamp. */
  lemma FirstIsEffective(a: Assessment, op: Op)
    requires Inv(a) && Overridable(a) && ValidOverride(op)
    ensures Refusal(a, op).None?
    ensures var e := EffectiveScores(Apply(a, op));
            e.override.Some? && e.override.value.id == op.overrideId && e.score == Some(RoundHalfUp(op.score))
  {
    OverrideIsAccepted(a, op);
    OverrideTakesEffectExactlyWhenNewest(a, op);
    EffectiveScoreIsTheOverrides(Apply(a, op));
  }

  lemma EffectiveScoreIsTheOverrides(a: Assessment)
    ensures var e := EffectiveScores(a); e.override.Some? ==> e.score == Some(e.override.value.score)
  {
  }

  lemma TwoSteps(a: Assessment, first: Op, second: Op)
    ensures Run(a, [first, second]) == Apply(Apply(a, first), second)
  {
    assert [first, second][..1] == [first] && [first][..0] == [];
    assert Run(a, [first]) == Apply(Run(a, []), first);
  }

  lemma OverrideIsAllowed(a: Assessment, score: real, justification: string)
    requires 0.0 <= score <= 100.0 && Strip(justification) != ""
    requires a.status != Archived && Current(a).Some?
    requires Current(a).value.overall.Some? && Current(a).value.classification != NotScored
    ensures OverrideRefusal(a, score, justification).None?
  {
  }

  lemma OverrideIsAccepted(a: Assessment, op: Op)
    requires ValidOverride(op)
    requires a.status != Archived && Current(a).Some?
    requires Current(a).value.overall.Some? && Current(a).value.classification != NotScored
    ensures Refusal(a, op).None?
  {
    OverrideIsAllowed(a, op.score, op.justification);
    AllowedIsAccepted(a, op);
  }

  lemma OverrideAppends(a: Assessment, op: Op)
    requires op.CreateOverride?
    ensures Refusal(a, op) == OverrideRefusal(a, op.score, op.justification)
    ensures Refusal(a, op).Some? ==> Apply(a, op) == a
    ensures Refusal(a, op).None? ==>
              Current(a).Some? && Apply(a, op) == a.(overrides := a.overrides + [NewOverride(a, op)])
  {
  }

  lemma AllowedIsAccepted(a: Assessment, op: Op)
    requires op.CreateOverride? && OverrideRefusal(a, op.score, op.justification).None?
    ensures Refusal(a, op).None?
  {
  }

  lemma TwoOverrides() returns (first: Op, second: Op)
    ensures ValidOverride(first) && first.score == 90.0 && first.at == 20 && RoundHalfUp(first.score) == 90.0
    ensures ValidOverride(second) && second.score == 80.0 && second.at == 10
  {
    first := CreateOverride(1, 20, 90.0, "x");
    second := CreateOverride(2, 10, 80.0, "x");
    assert Strip("x") == "x";
    HundredthsIsWhole(90.0, 9000);
  }

  /** One unassessed control, scored once. */
  lemma ScoredExample() returns (controls: seq<FrameworkControl>, compute: Op)
    ensures compute.ComputeScore?
    ensures Inv(Apply(Created(controls), compute)) && Overridable(Apply(Created(controls), compute))
  {
    controls, compute := [FrameworkControl(0, 0, 1.0)], ComputeScore(7);
    CreatedKeepsInv(controls);
    assert Inputs(Created(controls)) == [ControlInput(0, Unassessed, 1.0, 0)];
    ComputeMakesCurrent(Created(controls), 7);
    OneControlIsScored(Inputs(Created(controls))[0]);
  }

  lemma ComputeMakesCurrent(a: Assessment, id: nat)
    requires Inv(a) && Refusal(a, ComputeScore(id)).None?
    ensures var b := Apply(a, ComputeScore(id));
            && Inv(b) && Current(b) == Some(NewSnapshot(a, id))
            && b.status == a.status && b.overrides == a.overrides
  {
    ApplyKeepsInv(a, ComputeScore(id));
    CurrentIsLast(Apply(a, ComputeScore(id)));
  }

  lemma OneControlIsScored(c: ControlInput)
    requires Applicable(c) && c.weight == 1.0
    ensures Average([c]).Some? && ClassOf(Average([c]), AnyOverride([c])) != NotScored
  {
    assert ApplicableCount([c][1..]) == 0 && SumWeights([c][1..]) == 0.0;
  }

  // ---------------------------------------------------------------- completion

  /** Finalisation succeeds exactly on an open assessment with a current score. */
  lemma {:induction false} FinalizeExactly(controls: seq<FrameworkControl>, ops: seq<Op>)
    ensures var a := Run(Created(controls), ops);
            Refusal(a, Finalize).None? <==> !Closed(a) && a.version.Some?
  {
    CreatedKeepsInv(controls);
    RunKeepsInv(Created(controls), ops);
    FreshnessStep(Run(Created(controls), ops), Finalize);
  }

  /** After completion nothing but the list of overrides can change, and the score is current. */
  lemma {:induction false} CompletedIsFrozen(a: Assessment, ops: seq<Op>)
    requires Inv(a) && a.status == Completed
    ensures Run(a, ops) == a.(overrides := Run(a, ops).overrides)
    ensures Run(a, ops).overall == Average(Inputs(a))
    decreases |ops|
  {
    SortedInputsScoreTheSame(Inputs(a));
    assert Faithful(a.snapshots[|a.snapshots| - 1]);
    if ops != [] {
      CompletedIsFrozen(a, ops[..|ops| - 1]);
    }
  }

  // ---------------------------------------------------------------- computation never fails

  lemma StoredWeightStaysInRange(w: real)
    requires 1.0 <= w <= 5.0
    ensures 1.0 <= StoredWeight(w) <= 5.0
  {
    var n := (w * 10.0 + 0.5).Floor;
    WholeBound(10, n);
    WholeBound(n, 50);
  }

  predicate GoodControls(a: Assessment) {
    && (forall i :: 0 <= i < |a.controls| ==> 1.0 <= a.controls[i].weight <= 5.0)
    && (forall i, j :: 0 <= i < j < |a.controls| ==> a.controls[i].controlId != a.controls[j].controlId)
  }

  lemma {:induction false} ControlsStayGood(a: Assessment, ops: seq<Op>)
    requires GoodControls(a)
    ensures GoodControls(Run(a, ops))
    decreases |ops|
  {
    if ops != [] {
      ControlsStayGood(a, ops[..|ops| - 1]);
      var op := ops[|ops| - 1];
      if op.UpdateControl? && op.newWeight.Some? && 1.0 <= op.newWeight.value <= 5.0 {
        StoredWeightStaysInRange(op.newWeight.value);
      }
    }
  }

  /** With a well-formed framework the engine never refuses, so only a closed assessment blocks computing. */
  lemma ComputeIsRefusedOnlyWhenClosed(controls: seq<FrameworkControl>, ops: seq<Op>, id: nat)
    requires forall i :: 0 <= i < |controls| ==> 1.0 <= controls[i].defaultWeight <= 5.0
    requires forall i, j :: 0 <= i < j < |controls| ==> controls[i].controlId != controls[j].controlId
    ensures var a := Run(Created(controls), ops);
            Refusal(a, ComputeScore(id)).Some? <==> Closed(a)
  {
    ControlsStayGood(Created(controls), ops);
  }

  // ---------------------------------------------------------------- the service and its store

  /** The identifiers of a control row's evidence, in the order it was read. */
  function EvidenceIds(evidence: seq<EvidenceRow>, row: nat): (ids: seq<nat>)
    ensures |ids| == CountEvidence(evidence, row)
  {
    if evidence == [] then []
    else
      var last := evidence[|evidence| - 1];
      EvidenceIds(evidence[..|evidence| - 1], row) + (if last.control == row then [last.id] else [])
  }

  /** Each row's group holds exactly the identifiers of the evidence attached to that row. */
  lemma {:induction false} GroupsHoldTheirEvidence(evidence: seq<EvidenceRow>, row: nat, id: nat)
    ensures id in EvidenceIds(evidence, row) <==>
            exists k :: 0 <= k < |evidence| && evidence[k].control == row && evidence[k].id == id
    decreases |evidence|
  {
    if evidence != [] {
      var n := |evidence| - 1;
      GroupsHoldTheirEvidence(evidence[..n], row, id);
      assert forall k :: 0 <= k < n ==> evidence[..n][k] == evidence[k];
    }
  }

  /** Evidence identifiers grouped by control row; a row without evidence has an empty group. */
  ghost predicate GroupedBy(groups: map<nat, seq<nat>>, controls: seq<ControlRow>, evidence: seq<EvidenceRow>) {
    && (forall row :: row in groups <==> exists i :: 0 <= i < |controls| && controls[i].id == row)
    && forall row :: row in groups ==> groups[row] == EvidenceIds(evidence, row)
  }

  /** One assessment row with its control, evidence, snapshot and override rows, under its row lock. */
  class AssessmentRecord {
    var status: AssessmentStatus
    var overall: Option<real>
    var classification: Classification
    var version: Option<string>
    var controls: seq<ControlRow>
    var evidence: seq<EvidenceRow>
    var snapshots: seq<Snapshot>
    var overrides: seq<OverrideRow>

    function State(): Assessment
      reads this
    {
      Assessment(status, overall, classification, version, controls, evidence, snapshots, overrides)
    }

    constructor (framework: seq<FrameworkControl>)
      ensures State() == Created(framework)
    {
      status, overall, classification, version := Draft, None, NotScored, None;
      evidence, snapshots, overrides := [], [], [];
      controls := Created(framework).controls;
    }

    /** The transaction is rolled back. */
    method Restore(saved: Assessment)
      modifies this
      ensures State() == saved
    {
      status, overall, classification, version := saved.status, saved.overall, saved.classification, saved.version;
      controls, evidence, snapshots, overrides := saved.controls, saved.evidence, saved.snapshots, saved.overrides;
    }

    method Touch()
      modifies this`status, this`overall, this`classification, this`version
      ensures State() == Touched(old(State()))
    {
      if status == Draft {
        status := InProgress;
      }
      overall, classification, version := None, NotScored, None;
    }

    method UpdateControlAssessment(row: nat, newStatus: Option<ControlStatus>, newWeight: Option<real>,
                                   newRationale: Option<string>)
      returns (refused: Option<ServiceError>)
      modifies this
      ensures refused == Refusal(old(State()), UpdateControl(row, newStatus, newWeight, newRationale))
      ensures State() == Apply(old(State()), UpdateControl(row, newStatus, newWeight, newRationale))
    {
      if !HasRow(State(), row) {
        return Some(NotFound);
      }
      if status == Completed || status == Archived {
        return Some(Conflict);
      }
      if newWeight.Some? && (newWeight.value < 1.0 || newWeight.value > 5.0) {
        return Some(Invalid);
      }
      ghost var before := State();
      ghost var op := UpdateControl(row, newStatus, newWeight, newRationale);
      for i := 0 to |controls|
        invariant |controls| == |before.controls|
        invariant State() == before.(controls := controls)
        invariant forall k :: 0 <= k < i ==> controls[k] == UpdatedRow(before.controls[k], op)
        invariant forall k :: i <= k < |controls| ==> controls[k] == before.controls[k]
      {
        if controls[i].id == row {
          var c := controls[i];
          if newStatus.Some? {
            c := c.(status := newStatus.value);
          }
          if newWeight.Some? {
            c := c.(weight := StoredWeight(newWeight.value));
          }
          if newRationale.Some? {
            c := c.(rationale := newRationale);
          }
          controls := controls[i := c];
        }
      }
      Touch();
      assert controls == Apply(before, op).controls;
      return None;
    }

    /** The store touches the assessment before it looks for a duplicate; the conflict rolls that back. */
    method Admit(evidenceId: nat, row: nat, documentId: nat, chunkId: Option<nat>,
                 document: Option<bool>, chunkOwner: Option<nat>)
      returns (refused: Option<ServiceError>)
      modifies this
      ensures refused == Refusal(old(State()), AdmitEvidence(evidenceId, row, documentId, chunkId, document, chunkOwner))
      ensures State() == Apply(old(State()), AdmitEvidence(evidenceId, row, documentId, chunkId, document, chunkOwner))
    {
      if !HasRow(State(), row) {
        return Some(NotFound);
      }
      if status == Completed || status == Archived {
        return Some(Conflict);
      }
      if document.None? {
        return Some(NotFound);
      }
      if !document.value {
        return Some(Forbidden);
      }
      if chunkId.Some? && (chunkOwner.None? || chunkOwner.value != documentId) {
        return Some(Invalid);
      }
      var saved := State();
      Touch();
      if Attached(State(), row, documentId, chunkId) {
        Restore(saved);
        return Some(Conflict);
      }
      evidence := evidence + [EvidenceRow(evidenceId, row, documentId, chunkId)];
      return None;
    }

    method GroupEvidence() returns (groups: map<nat, seq<nat>>)
      ensures GroupedBy(groups, controls, evidence)
    {
      groups := map c | c in controls :: c.id := [];
      for k := 0 to |evidence|
        invariant GroupedBy(groups, controls, evidence[..k])
      {
        var e := evidence[k];
        assert evidence[..k + 1][..k] == evidence[..k];
        if e.control in groups {
          groups := groups[e.control := groups[e.control] + [e.id]];
        }
      }
      assert evidence[..|evidence|] == evidence;
    }

    method GroupedInputs() returns (inputs: seq<ControlInput>)
      ensures inputs == Inputs(State())
    {
      var groups := GroupEvidence();
      var rows := controls;
      inputs := seq(|rows|, i requires 0 <= i < |rows| && rows[i].id in groups =>
        ControlInput(rows[i].controlId, rows[i].status, rows[i].weight, |groups[rows[i].id]|));
    }

    /** The engine sees the inputs sorted by control. */
    method Engine(inputs: seq<ControlInput>) returns (r: Result<ScoreResult, ScoringError>)
      ensures r.Ok? <==> EngineAccepts(inputs)
      ensures r.Ok? ==>
                && Scored(inputs, r.value) && r.value.overall == Average(inputs)
                && r.value.classification == ClassOf(Average(inputs), AnyOverride(inputs))
    {
      SortByIdSorts(inputs);
      SortedInputsAreAccepted(inputs);
      r := Scoring.Compute(SortById(inputs));
      if r.Ok? {
        OrderDoesNotMatter(SortById(inputs), inputs, r.value);
      }
    }

    method Compute(snapshotId: nat) returns (r: Result<ScoreResult, ServiceError>)
      modifies this
      ensures r.Err? <==> Refusal(old(State()), ComputeScore(snapshotId)).Some?
      ensures r.Err? ==> Refusal(old(State()), ComputeScore(snapshotId)) == Some(r.error)
      ensures r.Ok? ==> Scored(Inputs(old(State())), r.value)
      ensures State() == Apply(old(State()), ComputeScore(snapshotId))
    {
      if status == Completed || status == Archived {
        return Err(Conflict);
      }
      var inputs := GroupedInputs();
      var sorted := SortById(inputs);
      var scored := Engine(inputs);
      if scored.Err? {
        return Err(EngineRefused);
      }
      var revision := NextRevision(snapshots);
      overall, classification, version := scored.value.overall, scored.value.classification, Some(SCORING_VERSION);
      snapshots := snapshots + [Snapshot(snapshotId, revision, SCORING_VERSION, sorted, overall, classification)];
      return Ok(scored.value);
    }

    method CheckOverride(score: real, justification: string) returns (refused: Option<ServiceError>)
      ensures refused == OverrideRefusal(State(), score, justification)
    {
      if score < 0.0 || score > 100.0 || Strip(justification) == "" {
        return Some(Invalid);
      }
      if status == Archived {
        return Some(Conflict);
      }
      var latest := LatestSnapshot(snapshots);
      if latest.None? {
        return Some(Conflict);
      }
      var s := latest.value;
      if version.None? || version.value != s.version || overall != s.overall || classification != s.classification {
        return Some(Conflict);
      }
      if s.overall.None? || s.classification == NotScored {
        return Some(Conflict);
      }
      return None;
    }

    /** The row for an accepted override of the latest snapshot. */
    method OverrideFor(ghost op: Op, overrideId: nat, at: int, score: real) returns (row: OverrideRow)
      requires op.CreateOverride? && op.overrideId == overrideId && op.at == at && op.score == score
      requires OverrideRefusal(State(), op.score, op.justification).None?
      ensures row == NewOverride(State(), op)
    {
      var s := LatestSnapshot(snapshots).value;
      OverrideClassAgrees(score);
      var derived := ClassifyScore(RoundHalfUp(score));
      row := OverrideRow(overrideId, at, s.id, s.revision, s.overall, s.classification,
                         RoundHalfUp(score), derived.value);
    }

    method Override(overrideId: nat, at: int, score: real, justification: string)
      returns (refused: Option<ServiceError>)
      modifies this
      ensures refused == Refusal(old(State()), CreateOverride(overrideId, at, score, justification))
      ensures State() == Apply(old(State()), CreateOverride(overrideId, at, score, justification))
    {
      ghost var before, op := State(), CreateOverride(overrideId, at, score, justification);
      refused := CheckOverride(score, justification);
      OverrideAppends(before, op);
      if refused.None? {
        var row := OverrideFor(op, overrideId, at, score);
        overrides := overrides + [row];
        assert State() == before.(overrides := before.overrides + [row]);
      }
    }

    method FinalizeAssessment() returns (refused: Option<ServiceError>)
      modifies this
      ensures refused == Refusal(old(State()), Finalize)
      ensures State() == Apply(old(State()), Finalize)
    {
      if status == Completed || status == Archived {
        return Some(Conflict);
      }
      var latest := LatestSnapshot(snapshots);
      if latest.None? {
        return Some(Conflict);
      }
      var s := latest.value;
      if version.None? || version.value != s.version || overall != s.overall || classification != s.classification {
        return Some(Conflict);
      }
      status := Completed;
      return None;
    }
  }

  lemma SortedInputsAreAccepted(inputs: seq<ControlInput>)
    ensures DistinctIds(SortById(inputs)) <==> DistinctIds(inputs)
    ensures AllWellFormed(SortById(inputs)) <==> AllWellFormed(inputs)
  {
    var sorted := SortById(inputs);
    SortByIdSorts(inputs);
    if DistinctIds(inputs) {
      SortedStaysDistinct(inputs, sorted);
    }
    if DistinctIds(sorted) {
      SortedStaysDistinct(sorted, inputs);
    }
    if AllWellFormed(inputs) {
      AllMembersWellFormed(inputs, sorted);
    }
    if AllWellFormed(sorted) {
      AllMembersWellFormed(sorted, inputs);
    }
  }
}
