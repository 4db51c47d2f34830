/**
 Workers racing on one document, interleaved statement by statement: the claim, each status write,
 the chunks, and the event published after the terminal status.
 */
module DocumentRace {
  import opened Common
  import opened Redaction
  import opened DocumentChunks
  import opened DocumentProcessing

  type Detector = string -> seq<Finding>

  /** How far a worker's run has come; `env` is what storage, model and vector store hold for it. */
  datatype Phase =
    | Unclaimed(env: Environment)
    | Claimed(env: Environment)
    | Chunking(env: Environment, text: string)
    | Embedding(env: Environment, text: string)
    | Announcing(env: Environment, event: Event)
    | Ended(env: Environment)
    | Lost
    | Crashed(hadClaim: bool)

  predicate HasClaim(p: Phase) {
    p.Claimed? || p.Chunking? || p.Embedding? || p.Announcing? || p.Ended? || p == Crashed(true)
  }

  predicate Active(p: Phase) {
    !p.Ended? && !p.Lost? && !p.Crashed?
  }

  datatype World = World(rec: Record, workers: map<nat, Phase>)

  const UPLOADED := Record(true, Queued, [], [])
  const START := World(UPLOADED, map[])

  datatype Moved = Moved(rec: Record, phase: Phase)

  /** The terminal status is written first; the event follows in a later statement. */
  function Conclude(r: Record, env: Environment, outcome: DocumentStatus, event: Event): Moved {
    Moved(r.(status := outcome), Announcing(env, event))
  }

  /** The vector counts a run of this text needs. */
  predicate CountsAgree(env: Environment, text: string, detect: Detector) {
    var n := PieceCount(|Strip(text)|);
    AllValid(detect(Strip(text)), |Strip(text)|) && env.vectors == Some(n) && env.upserted == Some(n)
  }

  function AdvanceClaimed(r: Record, env: Environment): Moved {
    if !env.supported then Conclude(r, env, Quarantined, DocumentQuarantined)
    else if !env.storage.Fetched? then Conclude(r, env, Failed, DocumentProcessingFailed)
    else
      match TextOf(env.storage.body)
      case QuarantineIt => Conclude(r, env, Quarantined, DocumentQuarantined)
      case Refuse => Conclude(r, env, Failed, DocumentProcessingFailed)
      case Text(text) => Moved(r.(status := Indexing), Chunking(env, text))
  }

  function AdvanceChunking(r: Record, env: Environment, text: string, detect: Detector): Moved {
    var built := BuildTextChunks(text, detect);
    if built.Err? then Conclude(r, env, Failed, DocumentProcessingFailed)
    else Moved(r.(chunks := built.value), Embedding(env, text))
  }

  function AdvanceEmbedding(r: Record, env: Environment, text: string, detect: Detector): Moved {
    if CountsAgree(env, text, detect) then Conclude(r, env, Ready, DocumentIndexed(PieceCount(|Strip(text)|)))
    else Conclude(r, env, Failed, DocumentProcessingFailed)
  }

  /** One worker's next statement on the record. */
  function Advance(r: Record, p: Phase, detect: Detector): Moved {
    match p
    case Unclaimed(env) => Moved(ClaimedRecord(r), if Claimable(r) then Claimed(env) else Lost)
    case Claimed(env) => AdvanceClaimed(r, env)
    case Chunking(env, text) => AdvanceChunking(r, env, text, detect)
    case Embedding(env, text) => AdvanceEmbedding(r, env, text, detect)
    case Announcing(env, event) => Moved(r.(events := r.events + [event]), Ended(env))
    case _ => Moved(r, p)
  }

  datatype Step = Enter(worker: nat, env: Environment) | Move(worker: nat) | Crash(worker: nat)

  predicate Enabled(x: World, st: Step) {
    match st
    case Enter(w, _) => w !in x.workers
    case Move(w) => w in x.workers && Active(x.workers[w])
    case Crash(w) => w in x.workers && Active(x.workers[w])
  }

  function Apply(x: World, st: Step, detect: Detector): World
    requires Enabled(x, st)
  {
    match st
    case Enter(w, env) => x.(workers := x.workers[w := Unclaimed(env)])
    case Move(w) =>
      var moved := Advance(x.rec, x.workers[w], detect);
      World(moved.rec, x.workers[w := moved.phase])
    case Crash(w) => x.(workers := x.workers[w := Crashed(HasClaim(x.workers[w]))])
  }

  predicate Interleaving(x: World, steps: seq<Step>, detect: Detector)
    decreases |steps|, 0
  {
    steps == [] ||
    (Interleaving(x, steps[..|steps| - 1], detect)
     && Enabled(After(x, steps[..|steps| - 1], detect), steps[|steps| - 1]))
  }

  function After(x: World, steps: seq<Step>, detect: Detector): World
    requires Interleaving(x, steps, detect)
    decreases |steps|, 1
  {
    if steps == [] then x else Apply(After(x, steps[..|steps| - 1], detect), steps[|steps| - 1], detect)
  }

  // ---------------------------------------------------------------- invariant

  /** Where the record stands while the worker that claimed it is at p. */
  ghost predicate RecordFits(r: Record, p: Phase, detect: Detector) {
    && r.status != Queued
    && match p
       case Claimed(_) => r.events == []
       case Chunking(env, text) => r.events == [] && Reads(env, text)
       case Embedding(env, text) => r.events == [] && Reads(env, text) && BuildTextChunks(text, detect) == Ok(r.chunks)
       case Announcing(env, event) => r.events == [] && Concluded(r, env, event, detect)
       case Ended(env) => r.events == [FinalEvent(env, detect)] && Finished(r, env, detect)
       case _ => r.events == []
  }

  /** Storage and extraction gave this text. */
  predicate Reads(env: Environment, text: string) {
    env.supported && env.storage.Fetched? && TextOf(env.storage.body) == Text(text)
  }

  /** The terminal status of a whole undisturbed run, with the chunks of an indexed document. */
  ghost predicate Finished(r: Record, env: Environment, detect: Detector) {
    && r.status == FinalStatus(env, detect)
    && (r.status == Ready ==> BuildTextChunks(TextOf(env.storage.body).text, detect) == Ok(r.chunks))
  }

  ghost predicate Concluded(r: Record, env: Environment, event: Event, detect: Detector) {
    event == FinalEvent(env, detect) && Finished(r, env, detect)
  }

  ghost predicate Inv(x: World, detect: Detector) {
    && x.rec.present
    && (forall v, w :: v in x.workers && w in x.workers && HasClaim(x.workers[v]) && HasClaim(x.workers[w]) ==> v == w)
    && (forall w :: w in x.workers && HasClaim(x.workers[w]) ==> RecordFits(x.rec, x.workers[w], detect))
    && (x.rec.status == Queued ==> x.rec.events == [])
    && (x.rec.status != Queued ==> SomeoneClaimed(x))
    && (forall w :: w in x.workers && x.workers[w].Lost? ==> x.rec.status != Queued)
  }

  /** Somebody passed the claim. */
  ghost predicate SomeoneClaimed(x: World) {
    exists w :: w in x.workers && HasClaim(x.workers[w])
  }

  lemma AdvanceKeepsTheClaim(r: Record, p: Phase, detect: Detector)
    requires HasClaim(p) && Active(p)
    ensures HasClaim(Advance(r, p, detect).phase) && Advance(r, p, detect).rec.present == r.present
  {
  }

  lemma AdvanceFits(r: Record, p: Phase, detect: Detector)
    requires HasClaim(p) && Active(p) && RecordFits(r, p, detect)
    ensures var moved := Advance(r, p, detect); RecordFits(moved.rec, moved.phase, detect)
  {
    if p.Claimed? {
      ClaimedFits(r, p.env, detect);
    } else if p.Chunking? {
      ChunkingFits(r, p.env, p.text, detect);
    } else if p.Embedding? {
      EmbeddingFits(r, p.env, p.text, detect);
    } else {
      AnnouncingFits(r, p.env, p.event, detect);
    }
  }

  /** With the text read, the vector counts alone decide how a run ends. */
  lemma CountsDecide(r: Record, env: Environment, text: string, detect: Detector)
    requires Reads(env, text) && BuildTextChunks(text, detect) == Ok(r.chunks)
    ensures CountsAgree(env, text, detect) ==>
              Concluded(r.(status := Ready), env, DocumentIndexed(PieceCount(|Strip(text)|)), detect)
    ensures !CountsAgree(env, text, detect) ==> Concluded(r.(status := Failed), env, DocumentProcessingFailed, detect)
  {
  }

  lemma EmbeddingFits(r: Record, env: Environment, text: string, detect: Detector)
    requires RecordFits(r, Embedding(env, text), detect)
    ensures var moved := AdvanceEmbedding(r, env, text, detect); RecordFits(moved.rec, moved.phase, detect)
  {
    CountsDecide(r, env, text, detect);
  }

  lemma AnnouncingFits(r: Record, env: Environment, event: Event, detect: Detector)
    requires r.events == [] && r.status != Queued && Concluded(r, env, event, detect)
    ensures RecordFits(r.(events := r.events + [event]), Ended(env), detect)
  {
    FinishedIgnoresEvents(r, env, event, detect);
  }

  lemma FinishedIgnoresEvents(r: Record, env: Environment, event: Event, detect: Detector)
    ensures Finished(r.(events := r.events + [event]), env, detect) <==> Finished(r, env, detect)
  {
  }

  lemma ClaimedFits(r: Record, env: Environment, detect: Detector)
    requires RecordFits(r, Claimed(env), detect)
    ensures var moved := AdvanceClaimed(r, env); RecordFits(moved.rec, moved.phase, detect)
  {
    if env.supported && env.storage.Fetched? && TextOf(env.storage.body).Text? {
      assert Reads(env, TextOf(env.storage.body).text);
    } else {
      UnreadableConcludes(env, detect);
    }
  }

  /** Without a text the run ends where the first stage left it. */
  lemma UnreadableConcludes(env: Environment, detect: Detector)
    requires !(env.supported && env.storage.Fetched? && TextOf(env.storage.body).Text?)
    ensures FinalStatus(env, detect) == (if IsQuarantined(env) then Quarantined else Failed)
    ensures FinalEvent(env, detect) == (if IsQuarantined(env) then DocumentQuarantined else DocumentProcessingFailed)
  {
  }

  lemma ChunkingFits(r: Record, env: Environment, text: string, detect: Detector)
    requires RecordFits(r, Chunking(env, text), detect)
    ensures var moved := AdvanceChunking(r, env, text, detect); RecordFits(moved.rec, moved.phase, detect)
  {
    TextIsWithinTheLimit(env.storage.body, text);
    AcceptedTextHasChunks(text, detect);
  }

  lemma TextIsWithinTheLimit(body: StoredBody, text: string)
    requires TextOf(body) == Text(text)
    ensures |text| <= MAX_EXTRACTED_CHARACTERS
  {
  }

  lemma MoveKeepsInv(x: World, w: nat, detect: Detector)
    requires Inv(x, detect) && Enabled(x, Move(w))
    ensures Inv(Apply(x, Move(w), detect), detect)
  {
    var p := x.workers[w];
    var y := Apply(x, Move(w), detect);
    if HasClaim(p) {
      AdvanceKeepsTheClaim(x.rec, p, detect);
      AdvanceFits(x.rec, p, detect);
      assert w in y.workers && HasClaim(y.workers[w]);
    } else if Claimable(x.rec) {
      assert w in y.workers && HasClaim(y.workers[w]);
    } else {
      var v :| v in x.workers && HasClaim(x.workers[v]);
      assert v in y.workers && HasClaim(y.workers[v]);
    }
  }

  lemma StepKeepsInv(x: World, st: Step, detect: Detector)
    requires Inv(x, detect) && Enabled(x, st)
    ensures Inv(Apply(x, st, detect), detect)
  {
    if st.Move? {
      MoveKeepsInv(x, st.worker, detect);
    } else {
      var y := Apply(x, st, detect);
      if x.rec.status != Queued {
        var v :| v in x.workers && HasClaim(x.workers[v]);
        assert v in y.workers && HasClaim(y.workers[v]);
      }
    }
  }

  lemma {:induction false} InterleavingKeepsInv(steps: seq<Step>, detect: Detector)
    requires Interleaving(START, steps, detect)
    ensures Inv(After(START, steps, detect), detect)
    decreases |steps|
  {
    if steps != [] {
      InterleavingKeepsInv(steps[..|steps| - 1], detect);
      StepKeepsInv(After(START, steps[..|steps| - 1], detect), steps[|steps| - 1], detect);
    }
  }

  // ---------------------------------------------------------------- theorems

  /**
   However any number of workers interleave and crash: at most one passes the claim, at most one
   event is published, and once the winner has ended there is exactly one, with the status and the
   chunks of an undisturbed run of that worker.
   */
  lemma AtMostOneWinner(steps: seq<Step>, detect: Detector)
    requires Interleaving(START, steps, detect)
    ensures var x := After(START, steps, detect);
            && |x.rec.events| <= 1
            && (forall v, w :: v in x.workers && w in x.workers && HasClaim(x.workers[v]) && HasClaim(x.workers[w]) ==>
                  v == w)
            && (forall w :: w in x.workers && x.workers[w].Ended? ==>
                  && x.rec.events == [FinalEvent(x.workers[w].env, detect)]
                  && Finished(x.rec, x.workers[w].env, detect))
            && (x.rec.events != [] ==> exists w :: w in x.workers && x.workers[w].Ended?)
  {
    InterleavingKeepsInv(steps, detect);
    var x := After(START, steps, detect);
    if x.rec.status != Queued {
      var w :| w in x.workers && HasClaim(x.workers[w]);
      assert RecordFits(x.rec, x.workers[w], detect);
    }
  }

  /** A try at the claim succeeds exactly when nobody passed it before: the first to try wins. */
  lemma FirstToTryWins(steps: seq<Step>, w: nat, detect: Detector)
    requires Interleaving(START, steps, detect) && Enabled(After(START, steps, detect), Move(w))
    requires After(START, steps, detect).workers[w].Unclaimed?
    ensures var x := After(START, steps, detect);
            && (HasClaim(Apply(x, Move(w), detect).workers[w]) <==> !SomeoneClaimed(x))
            && (!SomeoneClaimed(x) <==> forall v :: v in x.workers ==> x.workers[v].Unclaimed? || x.workers[v] == Crashed(false))
  {
    InterleavingKeepsInv(steps, detect);
    var x := After(START, steps, detect);
    if SomeoneClaimed(x) {
      var v :| v in x.workers && HasClaim(x.workers[v]);
      assert RecordFits(x.rec, x.workers[v], detect);
    }
  }

  /** A terminal document stays as it is, whoever else tries. */
  lemma {:induction false} EndedDocumentsStay(x: World, steps: seq<Step>, w: nat, detect: Detector)
    requires Inv(x, detect) && w in x.workers && x.workers[w].Ended? && Interleaving(x, steps, detect)
    ensures Inv(After(x, steps, detect), detect)
    ensures After(x, steps, detect).rec == x.rec
    ensures w in After(x, steps, detect).workers && After(x, steps, detect).workers[w] == x.workers[w]
    decreases |steps|
  {
    if steps != [] {
      var before := After(x, steps[..|steps| - 1], detect);
      var last := steps[|steps| - 1];
      EndedDocumentsStay(x, steps[..|steps| - 1], w, detect);
      StepKeepsInv(before, last, detect);
      assert RecordFits(before.rec, before.workers[w], detect);
      if last.Move? {
        assert last.worker != w && !HasClaim(before.workers[last.worker]);
      }
    }
  }

  /** Undisturbed, a worker's statements one after the other end as its whole run does. */
  lemma SoloRunEnds(w: nat, env: Environment, detect: Detector) returns (steps: seq<Step>)
    ensures Interleaving(START, steps, detect)
    ensures var x := After(START, steps, detect);
            && x.workers == map[w := Ended(env)]
            && x.rec.status == FinalStatus(env, detect) && x.rec.events == [FinalEvent(env, detect)]
  {
    steps := [];
    Extend(steps, Enter(w, env), detect);
    steps := steps + [Enter(w, env)];
    while Active(After(START, steps, detect).workers[w])
      invariant Interleaving(START, steps, detect)
      invariant var x := After(START, steps, detect); x.workers.Keys == {w} && OnTheWay(x, w, env)
      decreases Remaining(After(START, steps, detect).workers[w])
    {
      InterleavingKeepsInv(steps, detect);
      var x := After(START, steps, detect);
      SoloStep(x, w, env, detect);
      Extend(steps, Move(w), detect);
      steps := steps + [Move(w)];
    }
    InterleavingKeepsInv(steps, detect);
    var x := After(START, steps, detect);
    assert RecordFits(x.rec, x.workers[w], detect);
    assert x.workers == map[w := Ended(env)];
  }

  predicate OnTheWay(x: World, w: nat, env: Environment) {
    && w in x.workers && !x.workers[w].Lost? && !x.workers[w].Crashed? && x.workers[w].env == env
    && (x.workers[w].Unclaimed? ==> x.rec == UPLOADED)
  }

  function Remaining(p: Phase): nat {
    match p
    case Unclaimed(_) => 5
    case Claimed(_) => 4
    case Chunking(_, _) => 3
    case Embedding(_, _) => 2
    case Announcing(_, _) => 1
    case _ => 0
  }

  lemma SoloStep(x: World, w: nat, env: Environment, detect: Detector)
    requires OnTheWay(x, w, env) && x.workers.Keys == {w} && Enabled(x, Move(w))
    ensures var y := Apply(x, Move(w), detect);
            OnTheWay(y, w, env) && y.workers.Keys == {w} && Remaining(y.workers[w]) < Remaining(x.workers[w])
  {
  }

  lemma Extend(steps: seq<Step>, st: Step, detect: Detector)
    requires Interleaving(START, steps, detect) && Enabled(After(START, steps, detect), st)
    ensures Interleaving(START, steps + [st], detect)
    ensures After(START, steps + [st], detect) == Apply(After(START, steps, detect), st, detect)
  {
    assert (steps + [st])[..|steps|] == steps;
  }
}
