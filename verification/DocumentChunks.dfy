/**
 Turning an extracted text into stored chunks and embedded slices: strip, cut, mask the whole
 text, cut the masked text at the same places, and charge the embedding budgets.
 */
module DocumentChunks {
  import opened Common
  import opened Redaction

  const TEXT_CHUNK_SIZE := 1000
  const MAX_EXTRACTED_CHARACTERS := 200_000
  const MAX_DOCUMENT_CHUNKS := 200

  // ---------------------------------------------------------------- cutting

  function PieceCount(n: nat): nat {
    (n + TEXT_CHUNK_SIZE - 1) / TEXT_CHUNK_SIZE
  }

  function PieceEnd(n: nat, k: nat): int {
    Min((k + 1) * TEXT_CHUNK_SIZE, n)
  }

  lemma PieceBounds(n: nat, k: nat)
    requires k < PieceCount(n)
    ensures k * TEXT_CHUNK_SIZE < PieceEnd(n, k) <= n
    ensures PieceEnd(n, k) - k * TEXT_CHUNK_SIZE <= TEXT_CHUNK_SIZE
    ensures k + 1 == PieceCount(n) ==> PieceEnd(n, k) == n
    ensures k + 1 < PieceCount(n) ==> PieceEnd(n, k) == (k + 1) * TEXT_CHUNK_SIZE
  {
  }

  function Piece(text: string, k: nat): (p: string)
    requires k < PieceCount(|text|)
    ensures 1 <= |p| <= TEXT_CHUNK_SIZE
  {
    PieceBounds(|text|, k);
    text[k * TEXT_CHUNK_SIZE..PieceEnd(|text|, k)]
  }

  function Pieces(text: string): (ps: seq<string>)
    ensures |ps| == PieceCount(|text|)
    ensures forall k :: 0 <= k < |ps| ==> ps[k] == Piece(text, k)
  {
    seq(PieceCount(|text|), k requires 0 <= k < PieceCount(|text|) => Piece(text, k))
  }

  function Concat(ss: seq<string>): string {
    if ss == [] then "" else Concat(ss[..|ss| - 1]) + ss[|ss| - 1]
  }

  lemma {:induction false} PrefixesConcatenate(text: string, j: nat)
    requires j <= PieceCount(|text|)
    ensures var reach := if j == 0 then 0 else PieceEnd(|text|, j - 1);
            0 <= reach <= |text| && Concat(Pieces(text)[..j]) == text[..reach]
    decreases j
  {
    if j > 0 {
      PrefixesConcatenate(text, j - 1);
      PieceBounds(|text|, j - 1);
      if j > 1 {
        PieceBounds(|text|, j - 2);
      }
      var ps := Pieces(text)[..j];
      assert ps[..j - 1] == Pieces(text)[..j - 1];
      assert text[..PieceEnd(|text|, j - 1)] == text[..(j - 1) * TEXT_CHUNK_SIZE] + Piece(text, j - 1);
    }
  }

  /** The pieces of a text put together are the text. */
  lemma PiecesConcatenate(text: string)
    ensures Concat(Pieces(text)) == text
  {
    var m := PieceCount(|text|);
    PrefixesConcatenate(text, m);
    assert Pieces(text)[..m] == Pieces(text);
    if m > 0 {
      PieceBounds(|text|, m - 1);
    }
    assert text[..|text|] == text;
  }

  // ---------------------------------------------------------------- chunks

  datatype Chunk = Chunk(index: nat, content: string, categories: set<string>)

  datatype ExtractionError = TextTooLong | TooManyChunks

  /** The overlap test written into the chunk metadata. */
  predicate ListedIn(f: Finding, k: nat) {
    f.start < (k + 1) * TEXT_CHUNK_SIZE && f.end > k * TEXT_CHUNK_SIZE
  }

  function CategoriesOf(fs: seq<Finding>, k: nat): set<string> {
    set i | 0 <= i < |fs| && ListedIn(fs[i], k) :: fs[i].category
  }

  function BuildTextChunks(text: string, detect: string -> seq<Finding>): Result<seq<Chunk>, ExtractionError> {
    if |text| > MAX_EXTRACTED_CHARACTERS then Err(TextTooLong)
    else
      var normalized := Strip(text);
      if normalized == "" then Ok([])
      else if PieceCount(|normalized|) > MAX_DOCUMENT_CHUNKS then Err(TooManyChunks)
      else
        var findings := detect(normalized);
        Ok(seq(PieceCount(|normalized|), k requires 0 <= k < PieceCount(|normalized|) =>
          Chunk(k, Piece(normalized, k), CategoriesOf(findings, k))))
  }

  function Contents(chunks: seq<Chunk>): (cs: seq<string>)
    ensures |cs| == |chunks| && forall k :: 0 <= k < |cs| ==> cs[k] == chunks[k].content
  {
    seq(|chunks|, k requires 0 <= k < |chunks| => chunks[k].content)
  }

  /**
   Every text within the character limit is cut into at most 200 non-empty chunks of at most
   1000 characters that concatenate to the stripped text; the chunk limit can never be hit.
   */
  lemma ChunksAreTheStrippedText(text: string, detect: string -> seq<Finding>)
    ensures BuildTextChunks(text, detect).Ok? <==> |text| <= 200_000
    ensures BuildTextChunks(text, detect).Ok? ==>
              var chunks := BuildTextChunks(text, detect).value;
              && Concat(Contents(chunks)) == Strip(text)
              && |chunks| <= 200
              && forall k :: 0 <= k < |chunks| ==> chunks[k].index == k && 1 <= |chunks[k].content| <= 1000
  {
    var normalized := Strip(text);
    if |text| <= MAX_EXTRACTED_CHARACTERS {
      PiecesConcatenate(normalized);
      assert Contents(BuildTextChunks(text, detect).value) == Pieces(normalized);
    }
  }

  /** Every chunk but the last is full. */
  lemma AllButTheLastAreFull(text: string, detect: string -> seq<Finding>, k: nat)
    requires BuildTextChunks(text, detect).Ok? && k + 1 < |BuildTextChunks(text, detect).value|
    ensures |BuildTextChunks(text, detect).value[k].content| == 1000
  {
    ChunksAreTheStrippedText(text, detect);
    ChunksArePieces(text, detect);
    PieceBounds(|Strip(text)|, k);
  }

  // ---------------------------------------------------------------- mask, then slice

  /** The embedded texts: the masked document cut where the stored chunks were cut. */
  function EmbeddedSlices(masked: string, chunks: seq<Chunk>): seq<string>
    requires forall k :: 0 <= k < |chunks| ==> chunks[k].index * TEXT_CHUNK_SIZE + |chunks[k].content| <= |masked|
  {
    seq(|chunks|, k requires 0 <= k < |chunks| =>
      masked[chunks[k].index * TEXT_CHUNK_SIZE..chunks[k].index * TEXT_CHUNK_SIZE + |chunks[k].content|])
  }

  lemma SlicesArePieces(text: string, masked: string, chunks: seq<Chunk>)
    requires |masked| == |text| && |chunks| == PieceCount(|text|)
    requires forall k :: 0 <= k < |chunks| ==> chunks[k].index == k && chunks[k].content == Piece(text, k)
    ensures forall k :: 0 <= k < |chunks| ==> k * TEXT_CHUNK_SIZE + |chunks[k].content| <= |masked|
    ensures EmbeddedSlices(masked, chunks) == Pieces(masked)
  {
    forall k | 0 <= k < |chunks|
      ensures k * TEXT_CHUNK_SIZE + |chunks[k].content| == PieceEnd(|text|, k) <= |masked|
    {
      PieceBounds(|text|, k);
    }
  }

  /** A slice masks a chunk starting at lo: same length, asterisks on covered positions, else equal. */
  ghost predicate MasksChunk(slice: string, content: string, findings: seq<Finding>, lo: nat) {
    && |slice| == |content|
    && forall j :: 0 <= j < |slice| ==> slice[j] == if Covered(findings, lo + j) then '*' else content[j]
  }

  lemma MaskedPieceMasksPiece(normalized: string, findings: seq<Finding>, k: nat)
    requires k < PieceCount(|normalized|)
    ensures |Redacted(normalized, findings, true)| == |normalized|
    ensures MasksChunk(Piece(Redacted(normalized, findings, true), k), Piece(normalized, k), findings,
                       k * TEXT_CHUNK_SIZE)
  {
    var masked := Redacted(normalized, findings, true);
    PieceBounds(|normalized|, k);
    var lo := k * TEXT_CHUNK_SIZE;
    forall j | 0 <= j < |Piece(masked, k)|
      ensures Piece(masked, k)[j] == if Covered(findings, lo + j) then '*' else Piece(normalized, k)[j]
    {
      assert Piece(masked, k)[j] == masked[lo + j];
      assert Piece(normalized, k)[j] == normalized[lo + j];
    }
  }

  lemma ChunksArePieces(text: string, detect: string -> seq<Finding>)
    requires |text| <= MAX_EXTRACTED_CHARACTERS
    ensures BuildTextChunks(text, detect).Ok?
    ensures var chunks := BuildTextChunks(text, detect).value;
            && |chunks| == PieceCount(|Strip(text)|)
            && forall k :: 0 <= k < |chunks| ==>
                 && chunks[k].index == k && chunks[k].content == Piece(Strip(text), k)
                 && chunks[k].categories == CategoriesOf(detect(Strip(text)), k)
  {
  }

  /**
   The embedded slices concatenate to the masked document; slice k is as long as chunk k and
   differs from it only where a finding covers the position, boundaries included, and there it
   is an asterisk.
   */
  lemma MaskThenSlice(text: string, detect: string -> seq<Finding>)
    requires |text| <= MAX_EXTRACTED_CHARACTERS
    ensures BuildTextChunks(text, detect).Ok?
    ensures var chunks := BuildTextChunks(text, detect).value;
            var findings := detect(Strip(text));
            var masked := Redacted(Strip(text), findings, true);
            && (forall k :: 0 <= k < |chunks| ==> chunks[k].index * TEXT_CHUNK_SIZE + |chunks[k].content| <= |masked|)
            && var slices := EmbeddedSlices(masked, chunks);
               && Concat(slices) == masked
               && |slices| == |chunks|
               && forall k :: 0 <= k < |chunks| ==>
                    MasksChunk(slices[k], chunks[k].content, findings, k * TEXT_CHUNK_SIZE)
  {
    ChunksArePieces(text, detect);
    SlicesMask(Strip(text), detect(Strip(text)), BuildTextChunks(text, detect).value);
  }

  lemma SlicesMask(normalized: string, findings: seq<Finding>, chunks: seq<Chunk>)
    requires |chunks| == PieceCount(|normalized|)
    requires forall k :: 0 <= k < |chunks| ==> chunks[k].index == k && chunks[k].content == Piece(normalized, k)
    ensures var masked := Redacted(normalized, findings, true);
            && (forall k :: 0 <= k < |chunks| ==> chunks[k].index * TEXT_CHUNK_SIZE + |chunks[k].content| <= |masked|)
            && Concat(EmbeddedSlices(masked, chunks)) == masked
            && forall k :: 0 <= k < |chunks| ==>
                 MasksChunk(EmbeddedSlices(masked, chunks)[k], chunks[k].content, findings, k * TEXT_CHUNK_SIZE)
  {
    var masked := Redacted(normalized, findings, true);
    SlicesArePieces(normalized, masked, chunks);
    PiecesConcatenate(masked);
    forall k | 0 <= k < |chunks|
      ensures MasksChunk(EmbeddedSlices(masked, chunks)[k], chunks[k].content, findings, k * TEXT_CHUNK_SIZE)
    {
      MaskedPieceMasksPiece(normalized, findings, k);
    }
  }

  /** Finding i of the list has this category and covers some position of lo..hi. */
  ghost predicate Touches(findings: seq<Finding>, i: int, category: string, lo: int, hi: int) {
    && 0 <= i < |findings| && findings[i].category == category
    && exists p :: lo <= p < hi && CoversAt(findings[i], p)
  }

  /** Some finding of this category covers a position of lo..hi. */
  ghost predicate CategoryTouches(findings: seq<Finding>, category: string, lo: int, hi: int) {
    exists i :: Touches(findings, i, category, lo, hi)
  }

  predicate CoversAt(f: Finding, p: int) {
    f.start <= p < f.end
  }

  /** A category is listed for a chunk exactly when one of its findings covers a position of it. */
  lemma CategoriesAreExact(text: string, detect: string -> seq<Finding>, k: nat, category: string)
    requires |text| <= MAX_EXTRACTED_CHARACTERS && BuildTextChunks(text, detect).Ok?
    requires k < |BuildTextChunks(text, detect).value|
    requires AllValid(detect(Strip(text)), |Strip(text)|)
    ensures var chunk := BuildTextChunks(text, detect).value[k];
            var lo := k * TEXT_CHUNK_SIZE;
            category in chunk.categories <==>
            CategoryTouches(detect(Strip(text)), category, lo, lo + |chunk.content|)
  {
    ChunkSpan(text, detect, k);
    CategoriesByTouch(detect(Strip(text)), k, |Strip(text)|, category);
  }

  lemma ChunkSpan(text: string, detect: string -> seq<Finding>, k: nat)
    requires BuildTextChunks(text, detect).Ok? && k < |BuildTextChunks(text, detect).value|
    ensures k < PieceCount(|Strip(text)|)
    ensures var chunk := BuildTextChunks(text, detect).value[k];
            && chunk.categories == CategoriesOf(detect(Strip(text)), k)
            && k * TEXT_CHUNK_SIZE + |chunk.content| == PieceEnd(|Strip(text)|, k)
  {
    var normalized := Strip(text);
    if normalized != "" {
      PieceBounds(|normalized|, k);
      assert BuildTextChunks(text, detect).value[k].content == Piece(normalized, k);
    }
  }

  lemma CategoriesByTouch(findings: seq<Finding>, k: nat, n: nat, category: string)
    requires AllValid(findings, n) && k < PieceCount(n)
    ensures category in CategoriesOf(findings, k) <==>
            CategoryTouches(findings, category, k * TEXT_CHUNK_SIZE, PieceEnd(n, k))
  {
    forall i | 0 <= i < |findings|
      ensures ListedIn(findings[i], k) <==>
              Touches(findings, i, findings[i].category, k * TEXT_CHUNK_SIZE, PieceEnd(n, k))
    {
      ListedMeansTouches(findings, i, k, n);
    }
    if category in CategoriesOf(findings, k) {
      var i :| 0 <= i < |findings| && ListedIn(findings[i], k) && findings[i].category == category;
      assert Touches(findings, i, category, k * TEXT_CHUNK_SIZE, PieceEnd(n, k));
    }
  }

  lemma ListedMeansTouches(findings: seq<Finding>, i: nat, k: nat, n: nat)
    requires AllValid(findings, n) && i < |findings| && k < PieceCount(n)
    ensures ListedIn(findings[i], k) <==>
            Touches(findings, i, findings[i].category, k * TEXT_CHUNK_SIZE, PieceEnd(n, k))
  {
    var f := findings[i];
    assert ValidFinding(f, n);
    PieceBounds(n, k);
    if ListedIn(f, k) {
      assert CoversAt(f, Max(f.start, k * TEXT_CHUNK_SIZE));
    }
  }

  // ---------------------------------------------------------------- embedding budgets

  const MAX_EMBEDDING_BATCH := 200
  const MAX_EMBEDDING_TEXT_BYTES := 8192
  const MAX_EMBEDDING_BATCH_BYTES := 800_000

  /** UTF-8 octets of one scalar value, section 3 of RFC 3629. */
  function Octets(c: char): (n: nat)
    ensures 1 <= n <= 4
  {
    var u := c as int;
    if u < 0x80 then 1 else if u < 0x800 then 2 else if u < 0x1_0000 then 3 else 4
  }

  /** The shortest form that carries the scalar's 7, 11, 16 or 21 bits. */
  lemma OctetsCarryTheBits(c: char)
    ensures Octets(c) <= 1 <==> (c as int) < 128
    ensures Octets(c) <= 2 <==> (c as int) < 2048
    ensures Octets(c) <= 3 <==> (c as int) < 65536
  {
  }

  function TextOctets(s: string): nat {
    if s == "" then 0 else TextOctets(s[..|s| - 1]) + Octets(s[|s| - 1])
  }

  datatype BudgetError = TextOverBudget | BatchOverBudget

  function RequireTextBudget(text: string, maxBytes: nat): Result<nat, BudgetError> {
    if |text| > maxBytes then Err(TextOverBudget)
    else if TextOctets(text) > maxBytes then Err(TextOverBudget)
    else Ok(TextOctets(text))
  }

  function TotalOctets(texts: seq<string>): nat {
    if texts == [] then 0 else TotalOctets(texts[..|texts| - 1]) + TextOctets(texts[|texts| - 1])
  }

  lemma {:induction false} OctetBounds(s: string)
    ensures |s| <= TextOctets(s) <= 4 * |s|
    ensures (forall i :: 0 <= i < |s| ==> Octets(s[i]) == 4) ==> TextOctets(s) == 4 * |s|
    decreases |s|
  {
    if s != "" {
      OctetBounds(s[..|s| - 1]);
    }
  }

  lemma {:induction false} PrefixTotalsAreSmaller(texts: seq<string>, k: nat)
    requires k <= |texts|
    ensures TotalOctets(texts[..k]) <= TotalOctets(texts)
    decreases |texts|
  {
    if k < |texts| {
      PrefixTotalsAreSmaller(texts[..|texts| - 1], k);
      assert texts[..|texts| - 1][..k] == texts[..k];
    } else {
      assert texts[..k] == texts;
    }
  }

  /** The batch loop: it accepts exactly the batches within all three ceilings, unchanged. */
  method CheckedEmbeddingInputs(texts: seq<string>) returns (r: Result<seq<string>, BudgetError>)
    ensures r.Ok? ==> r.value == texts
    ensures r.Ok? <==>
            && |texts| <= 200
            && (forall k :: 0 <= k < |texts| ==> TextOctets(texts[k]) <= 8192)
            && TotalOctets(texts) <= 800_000
  {
    if |texts| > MAX_EMBEDDING_BATCH {
      return Err(BatchOverBudget);
    }
    var total := 0;
    for k := 0 to |texts|
      invariant total == TotalOctets(texts[..k]) <= MAX_EMBEDDING_BATCH_BYTES
      invariant forall j :: 0 <= j < k ==> TextOctets(texts[j]) <= MAX_EMBEDDING_TEXT_BYTES
    {
      OctetBounds(texts[k]);
      var size := RequireTextBudget(texts[k], MAX_EMBEDDING_TEXT_BYTES);
      if size.Err? {
        return Err(size.error);
      }
      total := total + size.value;
      assert texts[..k + 1][..k] == texts[..k];
      PrefixTotalsAreSmaller(texts, k + 1);
      if total > MAX_EMBEDDING_BATCH_BYTES {
        return Err(BatchOverBudget);
      }
    }
    assert texts[..|texts|] == texts;
    return Ok(texts);
  }

  lemma {:induction false} OctetsConcatenate(a: string, b: string)
    ensures TextOctets(a + b) == TextOctets(a) + TextOctets(b)
    decreases |b|
  {
    if b == "" {
      assert a + b == a;
    } else {
      OctetsConcatenate(a, b[..|b| - 1]);
      assert (a + b)[..|a + b| - 1] == a + b[..|b| - 1];
    }
  }

  lemma {:induction false} TotalIsConcatOctets(texts: seq<string>)
    ensures TotalOctets(texts) == TextOctets(Concat(texts))
    decreases |texts|
  {
    if texts != [] {
      TotalIsConcatOctets(texts[..|texts| - 1]);
      OctetsConcatenate(Concat(texts[..|texts| - 1]), texts[|texts| - 1]);
    }
  }

  /**
   No accepted document can fail the embedding budgets, whatever is masked: the ingestion limits
   imply all three, and the total ceiling is met exactly by 200 000 four-octet characters.
   */
  lemma AcceptedDocumentsFitTheEmbeddingBudget(text: string, detect: string -> seq<Finding>)
    requires |text| <= MAX_EXTRACTED_CHARACTERS
    ensures var slices := Pieces(Redacted(Strip(text), detect(Strip(text)), true));
            && |slices| <= 200
            && (forall k :: 0 <= k < |slices| ==> TextOctets(slices[k]) <= 8192)
            && TotalOctets(slices) <= 800_000
  {
    var masked := Redacted(Strip(text), detect(Strip(text)), true);
    var slices := Pieces(masked);
    forall k | 0 <= k < |slices| ensures TextOctets(slices[k]) <= MAX_EMBEDDING_TEXT_BYTES {
      OctetBounds(slices[k]);
    }
    PiecesConcatenate(masked);
    TotalIsConcatOctets(slices);
    OctetBounds(masked);
  }

  lemma TheTotalCeilingIsMetExactly(text: string)
    requires |text| == 200_000
    requires forall i :: 0 <= i < |text| ==> Octets(text[i]) == 4
    ensures Strip(text) == text
    ensures TotalOctets(Pieces(text)) == 800_000
    ensures |Pieces(text)| == 200
  {
    assert !IsSpace(text[0]) && !IsSpace(text[|text| - 1]);
    PiecesConcatenate(text);
    TotalIsConcatOctets(Pieces(text));
    OctetBounds(text);
  }
}
