/**
 Processing one stored document: the claim race, extraction, chunking, embedding, vector upsert, and
 the terminal status with its single event.
 */
module DocumentProcessing {
  import opened Common
  import opened Redaction
  import opened DocumentChunks

  const MAX_PDF_PAGES := 200

  datatype DocumentStatus = Queued | Extracting | Indexing | Ready | Failed | Quarantined

  datatype Event = DocumentQuarantined | DocumentProcessingFailed | DocumentIndexed(chunkCount: nat)

  datatype ProcessError = DocumentMissing | NotQueued | ProcessingConflict | ProcessingUpstream

  // ---------------------------------------------------------------- PDF extraction

  datatype PdfBody = Unreadable | Encrypted | Pages(pages: seq<string>)

  datatype Extracted = Text(text: string) | QuarantineIt | Refuse

  function JoinPages(pages: seq<string>): string {
    if pages == [] then ""
    else if |pages| == 1 then pages[0]
    else JoinPages(pages[..|pages| - 1]) + "\n" + pages[|pages| - 1]
  }

  lemma {:induction false} JoinedPrefixIsShorter(pages: seq<string>, k: nat)
    requires k <= |pages|
    ensures |JoinPages(pages[..k])| <= |JoinPages(pages)|
    decreases |pages|
  {
    if k == |pages| {
      assert pages[..k] == pages;
    } else if |pages| > 1 {
      JoinedPrefixIsShorter(pages[..|pages| - 1], k);
      assert pages[..|pages| - 1][..k] == pages[..k];
    }
  }

  /** Where page k begins: after the earlier pages, each with one line feed. */
  function PageOffset(pages: seq<string>, k: nat): nat
    requires k <= |pages|
  {
    if k == 0 then 0 else PageOffset(pages, k - 1) + |pages[k - 1]| + 1
  }

  /** Every page stands in the text at its offset, before a line feed or the end. */
  ghost predicate PageStandsAt(text: string, page: string, offset: nat, last: bool) {
    && offset + |page| <= |text| && text[offset..offset + |page|] == page
    && if last then offset + |page| == |text| else offset + |page| < |text| && text[offset + |page|] == '\n'
  }

  lemma {:induction false} PagesStandInOrder(pages: seq<string>, k: nat)
    requires k < |pages|
    ensures PageStandsAt(JoinPages(pages), pages[k], PageOffset(pages, k), k == |pages| - 1)
    decreases |pages|
  {
    var n := |pages| - 1;
    if n > 0 {
      var j := Min(k, n - 1);
      PagesStandInOrder(pages[..n], j);
      OffsetOfPrefix(pages, n, j);
      OnePageMore(JoinPages(pages[..n]), pages[j], PageOffset(pages, j), j == n - 1, pages[n]);
    }
  }

  lemma OnePageMore(text: string, page: string, offset: nat, last: bool, next: string)
    requires PageStandsAt(text, page, offset, last)
    ensures PageStandsAt(text + "\n" + next, page, offset, false)
    ensures last ==> PageStandsAt(text + "\n" + next, next, offset + |page| + 1, true)
  {
    var all := text + "\n" + next;
    assert all[..|text|] == text && all[|text|] == '\n' && all[|text| + 1..] == next;
    assert all[offset..offset + |page|] == text[offset..offset + |page|];
  }

  lemma {:induction false} OffsetOfPrefix(pages: seq<string>, n: nat, k: nat)
    requires k < n <= |pages|
    ensures PageOffset(pages[..n], k) == PageOffset(pages, k)
    decreases k
  {
    if k > 0 {
      OffsetOfPrefix(pages, n, k - 1);
    }
  }

  method ExtractPdfText(body: PdfBody) returns (r: Extracted)
    ensures r.QuarantineIt? <==> body.Encrypted?
    ensures r.Text? <==>
            && body.Pages? && |body.pages| <= MAX_PDF_PAGES
            && |JoinPages(body.pages)| <= MAX_EXTRACTED_CHARACTERS && Strip(JoinPages(body.pages)) != ""
    ensures r.Text? ==> r.text == JoinPages(body.pages)
  {
    if body.Unreadable? {
      return Refuse;
    }
    if body.Encrypted? {
      return QuarantineIt;
    }
    if |body.pages| > MAX_PDF_PAGES {
      return Refuse;
    }
    var text := CollectPages(body.pages);
    if text.None? || Strip(text.value) == "" {
      return Refuse;
    }
    return Text(text.value);
  }

  /** The page loop: its counter is the length of the joined text, so the limit is on that length. */
  method CollectPages(pages: seq<string>) returns (text: Option<string>)
    ensures text == if |JoinPages(pages)| <= MAX_EXTRACTED_CHARACTERS then Some(JoinPages(pages)) else None
  {
    var kept: seq<string> := [];
    var characterCount := 0;
    for k := 0 to |pages|
      invariant kept == pages[..k]
      invariant characterCount == |JoinPages(kept)| <= MAX_EXTRACTED_CHARACTERS
    {
      characterCount := characterCount + |pages[k]| + (if kept != [] then 1 else 0);
      PageAdds(pages, k);
      if characterCount > MAX_EXTRACTED_CHARACTERS {
        JoinedPrefixIsShorter(pages, k + 1);
        return None;
      }
      kept := kept + [pages[k]];
    }
    assert pages[..|pages|] == pages;
    return Some(JoinPages(kept));
  }

  lemma PageAdds(pages: seq<string>, k: nat)
    requires k < |pages|
    ensures pages[..k + 1] == pages[..k] + [pages[k]]
    ensures |JoinPages(pages[..k + 1])| == |JoinPages(pages[..k])| + |pages[k]| + (if k > 0 then 1 else 0)
  {
    var next := pages[..k + 1];
    assert next[..|next| - 1] == pages[..k];
  }

  // ---------------------------------------------------------------- the environment of one run

  datatype StoredBody = PdfObject(pdf: PdfBody) | PlainObject(decoded: Option<string>)

  datatype Storage = Fetched(body: StoredBody) | OverSize | StorageDown

  /** Outcomes the service does not choose: storage, the model's vectors, and the vector store's count. */
  datatype Environment = Environment(supported: bool, storage: Storage, vectors: Option<nat>, upserted: Option<nat>)

  /** The text extraction yields for a body. */
  function TextOf(body: StoredBody): Extracted {
    match body
    case PdfObject(Encrypted) => QuarantineIt
    case PdfObject(Unreadable) => Refuse
    case PdfObject(Pages(pages)) =>
      if |pages| <= MAX_PDF_PAGES && |JoinPages(pages)| <= MAX_EXTRACTED_CHARACTERS && Strip(JoinPages(pages)) != ""
      then Text(JoinPages(pages)) else Refuse
    case PlainObject(None) => Refuse
    case PlainObject(Some(text)) =>
      if Strip(text) != "" && |text| <= MAX_EXTRACTED_CHARACTERS then Text(text) else Refuse
  }

  /** Exactly when a claimed document ends ready: every count agrees with the number of chunks. */
  predicate Succeeds(env: Environment, detect: string -> seq<Finding>) {
    && env.supported && env.storage.Fetched? && TextOf(env.storage.body).Text?
    && var text := TextOf(env.storage.body).text;
       var n := PieceCount(|Strip(text)|);
       && AllValid(detect(Strip(text)), |Strip(text)|)
       && env.vectors == Some(n) && env.upserted == Some(n)
  }

  predicate IsQuarantined(env: Environment) {
    !env.supported || (env.storage.Fetched? && TextOf(env.storage.body).QuarantineIt?)
  }

  function FinalStatus(env: Environment, detect: string -> seq<Finding>): DocumentStatus {
    if IsQuarantined(env) then Quarantined else if Succeeds(env, detect) then Ready else Failed
  }

  function FinalEvent(env: Environment, detect: string -> seq<Finding>): Event {
    if IsQuarantined(env) then DocumentQuarantined
    else if Succeeds(env, detect) then DocumentIndexed(PieceCount(|Strip(TextOf(env.storage.body).text)|))
    else DocumentProcessingFailed
  }

  /** The text a supported, fetched body holds: the joined pages of a PDF of at most 200, or the decoded text. */
  predicate HoldsText(env: Environment, text: string) {
    && env.supported && env.storage.Fetched? && Strip(text) != "" && |text| <= 200_000
    && match env.storage.body
       case PdfObject(Pages(pages)) => |pages| <= 200 && text == JoinPages(pages)
       case PlainObject(Some(decoded)) => text == decoded
       case _ => false
  }

  /** The findings are valid, and model and vector store count one vector for each thousand characters begun. */
  predicate CountsMatch(env: Environment, text: string, detect: string -> seq<Finding>, n: nat) {
    && AllValid(detect(Strip(text)), |Strip(text)|) && env.vectors == Some(n) && env.upserted == Some(n)
    && 1000 * (n - 1) < |Strip(text)| <= 1000 * n
  }

  predicate Encrypted(env: Environment) {
    env.storage == Fetched(PdfObject(PdfBody.Encrypted))
  }

  lemma HeldTextIsExtracted(env: Environment)
    requires env.supported && env.storage.Fetched?
    ensures forall text :: HoldsText(env, text) <==> TextOf(env.storage.body) == Text(text)
    ensures TextOf(env.storage.body).QuarantineIt? <==> Encrypted(env)
  {
  }

  /**
   The outcome of a claimed document, on what its environment holds: quarantined when unsupported or
   encrypted, ready when it holds a text and every count agrees with it, failed otherwise; and the
   event says the same.
   */
  lemma OutcomeIsExact(env: Environment, detect: string -> seq<Finding>)
    ensures FinalStatus(env, detect) == Quarantined <==> !env.supported || Encrypted(env)
    ensures FinalStatus(env, detect) == Ready <==>
            exists text, n :: HoldsText(env, text) && CountsMatch(env, text, detect, n)
    ensures FinalStatus(env, detect) in {Quarantined, Ready, Failed}
    ensures FinalStatus(env, detect) == Quarantined ==> FinalEvent(env, detect) == DocumentQuarantined
    ensures FinalStatus(env, detect) == Failed ==> FinalEvent(env, detect) == DocumentProcessingFailed
    ensures forall text, n :: HoldsText(env, text) && CountsMatch(env, text, detect, n) ==>
              FinalEvent(env, detect) == DocumentIndexed(n)
  {
    if env.supported && env.storage.Fetched? {
      HeldTextIsExtracted(env);
      forall text, n | HoldsText(env, text) && CountsMatch(env, text, detect, n)
        ensures Succeeds(env, detect) && FinalEvent(env, detect) == DocumentIndexed(n)
      {
        CountIsPieces(|Strip(text)|, n);
      }
      if Succeeds(env, detect) {
        var text := TextOf(env.storage.body).text;
        CountIsPieces(|Strip(text)|, PieceCount(|Strip(text)|));
        assert HoldsText(env, text) && CountsMatch(env, text, detect, PieceCount(|Strip(text)|));
      }
    }
  }

  lemma CountIsPieces(length: nat, n: nat)
    requires length > 0
    ensures n == PieceCount(length) <==> 1000 * (n - 1) < length <= 1000 * n
  {
  }

  /** What a failed run reports: the body's fault as a conflict, a service's as an upstream error. */
  function FailureOf(env: Environment): ProcessError {
    if env.storage.OverSize? || (env.storage.Fetched? && TextOf(env.storage.body).Refuse?) then ProcessingConflict
    else ProcessingUpstream
  }

  /** A conflict is reported exactly when the body is too large or was fetched and yields no text. */
  lemma FailuresAreNamed(env: Environment)
    requires env.supported && !Encrypted(env)
    ensures FailureOf(env) == ProcessingConflict <==>
            env.storage == OverSize || (env.storage.Fetched? && forall text :: !HoldsText(env, text))
    ensures FailureOf(env) in {ProcessingConflict, ProcessingUpstream}
  {
    if env.storage.Fetched? {
      HeldTextIsExtracted(env);
      if TextOf(env.storage.body).Text? {
        assert HoldsText(env, TextOf(env.storage.body).text);
      }
    }
  }

  lemma ReadTextIsShort(body: StoredBody)
    ensures TextOf(body).Text? ==> Strip(TextOf(body).text) != "" && |TextOf(body).text| <= MAX_EXTRACTED_CHARACTERS
  {
  }

  /** The stored row with its chunks, and the events published about it. */
  datatype Record = Record(present: bool, status: DocumentStatus, chunks: seq<Chunk>, events: seq<Event>)

  predicate Claimable(r: Record) {
    r.present && r.status == Queued
  }

  function ClaimedRecord(r: Record): Record {
    if Claimable(r) then r.(status := Extracting) else r
  }

  class DocumentRecord {
    var present: bool
    var status: DocumentStatus
    var chunks: seq<Chunk>
    var events: seq<Event>

    function State(): Record
      reads this
    {
      Record(present, status, chunks, events)
    }

    method ClaimForProcessing() returns (claimed: bool)
      modifies this`status
      ensures claimed == Claimable(old(State())) && State() == ClaimedRecord(old(State()))
    {
      if present && status == Queued {
        status := Extracting;
        return true;
      }
      return false;
    }

    method Finish(outcome: DocumentStatus, event: Event)
      modifies this`status, this`events
      ensures status == outcome && events == old(events) + [event]
    {
      status := outcome;
      events := events + [event];
    }

    /** What a fetched body yields; the character limit holds for every kind of body. */
    method ReadText(body: StoredBody) returns (extracted: Extracted)
      ensures extracted == TextOf(body)
    {
      match body {
        case PdfObject(pdf) =>
          extracted := ExtractPdfText(pdf);
        case PlainObject(decoded) =>
          extracted := if decoded.None? || Strip(decoded.value) == "" then Refuse else Text(decoded.value);
      }
      if extracted.Text? && |extracted.text| > MAX_EXTRACTED_CHARACTERS {
        return Refuse;
      }
    }

    /** The extraction stage of a claimed document, up to stored chunks. */
    method Extract(body: StoredBody, detect: string -> seq<Finding>) returns (r: Result<string, ProcessError>, done: bool)
      modifies this
      ensures present == old(present)
      ensures TextOf(body).Text? ==>
                && r == Ok(TextOf(body).text) && !done && status == Indexing && events == old(events)
                && |TextOf(body).text| <= MAX_EXTRACTED_CHARACTERS
                && BuildTextChunks(TextOf(body).text, detect) == Ok(chunks) && |chunks| > 0
      ensures !TextOf(body).Text? ==> chunks == old(chunks)
      ensures TextOf(body).QuarantineIt? ==>
                done && status == Quarantined && events == old(events) + [DocumentQuarantined]
      ensures TextOf(body).Refuse? ==>
                r == Err(ProcessingConflict) && !done
                && status == Failed && events == old(events) + [DocumentProcessingFailed]
    {
      var extracted := ReadText(body);
      if extracted.QuarantineIt? {
        Finish(Quarantined, DocumentQuarantined);
        return Ok(""), true;
      }
      if extracted.Refuse? {
        Finish(Failed, DocumentProcessingFailed);
        return Err(ProcessingConflict), false;
      }
      status := Indexing;
      ReadTextIsShort(body);
      AcceptedTextHasChunks(extracted.text, detect);
      var built := BuildTextChunks(extracted.text, detect);
      chunks := built.value;
      return Ok(extracted.text), false;
    }

    /** Masking, slicing and embedding: the vector count, or None when anything on the way fails. */
    method Embed(text: string, detect: string -> seq<Finding>, vectors: Option<nat>) returns (count: Option<nat>)
      requires |text| <= MAX_EXTRACTED_CHARACTERS && BuildTextChunks(text, detect).Ok?
      requires chunks == BuildTextChunks(text, detect).value
      ensures count == if AllValid(detect(Strip(text)), |Strip(text)|) && vectors == Some(|chunks|) then vectors else None
    {
      var masked := Redact(Strip(text), detect(Strip(text)), true);
      if masked.Err? {
        return None;
      }
      ChunksArePieces(text, detect);
      SlicesArePieces(Strip(text), masked.value, chunks);
      AcceptedDocumentsFitTheEmbeddingBudget(text, detect);
      var slices := EmbeddedSlices(masked.value, chunks);
      var admitted := CheckedEmbeddingInputs(slices);
      if admitted.Err? || vectors.None? || vectors.value != |chunks| {
        return None;
      }
      return vectors;
    }

    /**
     One worker's run. Without the claim nothing changes; with it the document ends in exactly one
     terminal status with exactly one matching event, ready only when the vector counts equal the
     chunk count.
     */
    method ProcessDocument(env: Environment, detect: string -> seq<Finding>) returns (error: Option<ProcessError>)
      modifies this
      ensures !old(present) ==> error == Some(DocumentMissing)
      ensures old(present) && old(status) != Queued ==> error == Some(NotQueued)
      ensures !old(present) || old(status) != Queued ==>
                status == old(status) && events == old(events) && chunks == old(chunks)
      ensures old(present) && old(status) == Queued ==>
                && status == FinalStatus(env, detect)
                && events == old(events) + [FinalEvent(env, detect)]
                && (error == if status == Failed then Some(FailureOf(env)) else None)
                && (forall text :: HoldsText(env, text) ==> BuildTextChunks(text, detect) == Ok(chunks))
                && ((forall text :: !HoldsText(env, text)) ==> chunks == old(chunks))
    {
      var claimed := ClaimForProcessing();
      if !claimed {
        return if present then Some(NotQueued) else Some(DocumentMissing);
      }
      error := ProcessClaimed(env, detect);
    }

    /** The stages of a claimed document. */
    method ProcessClaimed(env: Environment, detect: string -> seq<Finding>) returns (error: Option<ProcessError>)
      modifies this
      ensures status == FinalStatus(env, detect) && events == old(events) + [FinalEvent(env, detect)]
      ensures error == if status == Failed then Some(FailureOf(env)) else None
      ensures forall text :: HoldsText(env, text) ==> BuildTextChunks(text, detect) == Ok(chunks)
      ensures (forall text :: !HoldsText(env, text)) ==> chunks == old(chunks)
    {
      if env.supported && env.storage.Fetched? {
        HeldTextIsExtracted(env);
      }
      if !env.supported {
        Finish(Quarantined, DocumentQuarantined);
        return None;
      }
      if env.storage.OverSize? {
        Finish(Failed, DocumentProcessingFailed);
        return Some(ProcessingConflict);
      }
      if env.storage.StorageDown? {
        Finish(Failed, DocumentProcessingFailed);
        return Some(ProcessingUpstream);
      }
      var extracted, done := Extract(env.storage.body, detect);
      if done {
        return None;
      }
      if extracted.Err? {
        return Some(extracted.error);
      }
      error := Index(extracted.value, env, detect);
    }

    /** Embedding, the vector upsert, and the terminal status they lead to. */
    method Index(text: string, env: Environment, detect: string -> seq<Finding>) returns (error: Option<ProcessError>)
      requires |text| <= MAX_EXTRACTED_CHARACTERS && BuildTextChunks(text, detect).Ok?
      requires chunks == BuildTextChunks(text, detect).value
      modifies this`status, this`events
      ensures var n := PieceCount(|Strip(text)|);
              if AllValid(detect(Strip(text)), |Strip(text)|) && env.vectors == Some(n) && env.upserted == Some(n)
              then error == None && status == Ready && events == old(events) + [DocumentIndexed(n)]
              else error == Some(ProcessingUpstream) && status == Failed
                   && events == old(events) + [DocumentProcessingFailed]
    {
      AcceptedTextHasChunks(text, detect);
      var count := Embed(text, detect, env.vectors);
      if count.None? {
        Finish(Failed, DocumentProcessingFailed);
        return Some(ProcessingUpstream);
      }
      if env.upserted.None? || env.upserted.value != |chunks| {
        Finish(Failed, DocumentProcessingFailed);
        return Some(ProcessingUpstream);
      }
      Finish(Ready, DocumentIndexed(|chunks|));
      return None;
    }
  }

  /** Text that survives extraction always yields chunks: neither chunk error can be raised. */
  lemma AcceptedTextHasChunks(text: string, detect: string -> seq<Finding>)
    requires |text| <= MAX_EXTRACTED_CHARACTERS
    ensures BuildTextChunks(text, detect).Ok?
    ensures |BuildTextChunks(text, detect).value| == PieceCount(|Strip(text)|)
    ensures Strip(text) != "" ==> PieceCount(|Strip(text)|) > 0
  {
    ChunksArePieces(text, detect);
  }
}
