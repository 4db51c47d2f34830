/** Grounded answers: labelled sources within a bounded context, and the citation check. */
module RagAnswer {
  import opened Common
  import opened ContextPacking

  datatype SearchMatch = SearchMatch(chunkId: string, documentId: string, content: string)

  datatype Source = Source(name: string, chunkId: string, documentId: string)

  datatype RagError = GenerationFailed | UntrustedCitation

  /** The fixed no-evidence sentence, or the model's text. */
  datatype Answer = NoEvidence | Generated(text: string)

  datatype RagResponse = RagResponse(answer: Answer, sources: seq<Source>, retrievalCount: nat)

  // ---------------------------------------------------------------- labels

  function Digit(n: nat): char
    requires n < 10
  {
    '0' + n as char
  }

  function Decimal(n: nat): (s: string)
    ensures s != "" && forall i :: 0 <= i < |s| ==> IsDigit(s[i])
  {
    if n < 10 then [Digit(n)] else Decimal(n / 10) + [Digit(n % 10)]
  }

  predicate IsDigit(c: char) {
    '0' <= c <= '9'
  }

  function Label(i: nat): string {
    "S" + Decimal(i + 1)
  }

  /** The number some digits stand for. */
  function NumberOf(s: string): int {
    if s == "" then 0 else 10 * NumberOf(s[..|s| - 1]) + (s[|s| - 1] as int - '0' as int)
  }

  /** A label is S and a decimal number: the place of its match, from 1 on. */
  lemma {:induction false} DecimalIsTheNumber(n: nat)
    ensures NumberOf(Decimal(n)) == n
    decreases n
  {
    if n >= 10 {
      DecimalIsTheNumber(n / 10);
    } else {
      assert [Digit(n)][..0] == "";
    }
  }

  lemma LabelsCountFromOne(i: nat)
    ensures Label(i)[0] == 'S' && NumberOf(Label(i)[1..]) == i + 1
  {
    DecimalIsTheNumber(i + 1);
  }

  lemma {:induction false} DecimalIsInjective(m: nat, n: nat)
    requires Decimal(m) == Decimal(n)
    ensures m == n
    decreases m
  {
    if m < 10 || n < 10 {
      assert |Decimal(m)| == 1 <==> m < 10;
      assert |Decimal(n)| == 1 <==> n < 10;
      assert Digit(m) == Digit(n);
    } else {
      var a, b := Decimal(m), Decimal(n);
      assert a[..|a| - 1] == Decimal(m / 10) && b[..|b| - 1] == Decimal(n / 10);
      assert a[|a| - 1] == Digit(m % 10) && b[|b| - 1] == Digit(n % 10);
      DecimalIsInjective(m / 10, n / 10);
    }
  }

  lemma LabelsAreDistinct(i: nat, j: nat)
    requires Label(i) == Label(j)
    ensures i == j
  {
    assert Label(i)[1..] == Decimal(i + 1) && Label(j)[1..] == Decimal(j + 1);
    DecimalIsInjective(i + 1, j + 1);
  }

  // ---------------------------------------------------------------- citations

  /** The letters that match an S without regard to case: S, s and the long s. */
  predicate IsSourceLetter(c: char) {
    c == 'S' || c == 's' || c as int == 0x17F
  }

  function DigitsFrom(text: string, i: nat): (j: nat)
    requires i <= |text|
    ensures i <= j <= |text|
    ensures forall k :: i <= k < j ==> IsDigit(text[k])
    ensures j < |text| ==> !IsDigit(text[j])
    decreases |text| - i
  {
    if i < |text| && IsDigit(text[i]) then DigitsFrom(text, i + 1) else i
  }

  /** The label cited by a bracketed reference that starts at i, in upper case. */
  function CitationAt(text: string, i: nat): Option<string>
    requires i < |text|
  {
    if text[i] != '[' || i + 1 >= |text| || !IsSourceLetter(text[i + 1]) then None
    else
      var j := DigitsFrom(text, i + 2);
      if j == i + 2 || j >= |text| || text[j] != ']' then None else Some("S" + text[i + 2..j])
  }

  function CitedLabels(text: string): set<string> {
    set i | 0 <= i < |text| && CitationAt(text, i).Some? :: CitationAt(text, i).value
  }

  // ---------------------------------------------------------------- answering

  function SourceItem(m: SearchMatch, i: nat): Item {
    Item("[" + Label(i) + "] document_id=" + m.documentId + " chunk_id=" + m.chunkId + "\n", m.content)
  }

  function SourceItems(matches: seq<SearchMatch>): (items: seq<Item>)
    ensures |items| == |matches|
  {
    seq(|matches|, i requires 0 <= i < |matches| => SourceItem(matches[i], i))
  }

  /** The first m matches under their labels. */
  function Sources(matches: seq<SearchMatch>, m: nat): (sources: seq<Source>)
    requires m <= |matches|
    ensures |sources| == m
    ensures forall i :: 0 <= i < m ==> sources[i] == Source(Label(i), matches[i].chunkId, matches[i].documentId)
  {
    seq(m, i requires 0 <= i < m => Source(Label(i), matches[i].chunkId, matches[i].documentId))
  }

  function LabelsUpTo(m: nat): set<string> {
    set i: nat | i < m :: Label(i)
  }

  /** `model` answers the text it is shown, or None when generation fails or its response is refused. */
  method GenerateAnswer(matches: seq<SearchMatch>, budget: int, model: string -> Option<string>)
    returns (r: Result<RagResponse, RagError>)
    requires budget >= 50
    ensures var m := SourceCount(SourceItems(matches), budget);
            var reply := model(SourceText(SourceItems(matches), budget));
            if m == 0 then r == Ok(RagResponse(NoEvidence, [], |matches|))
            else if reply.None? || Strip(reply.value) == "" then r == Err(GenerationFailed)
            else if !(CitedLabels(reply.value) <= LabelsUpTo(m)) then r == Err(UntrustedCitation)
            else
              && r == Ok(RagResponse(Generated(reply.value), Sources(matches, m), |matches|))
              && ShownUnderTheirNames(matches, budget, r.value.sources)
  {
    if matches == [] {
      return Ok(RagResponse(NoEvidence, [], 0));
    }
    var sources, text := PackSources(matches, budget);
    if sources == [] {
      return Ok(RagResponse(NoEvidence, [], |matches|));
    }
    var reply := model(text);
    if reply.None? {
      return Err(GenerationFailed);
    }
    if Strip(reply.value) == "" {
      return Err(GenerationFailed);
    }
    var trusted := CitesOnly(reply.value, sources);
    AllowedLabels(matches, |sources|);
    if !trusted {
      return Err(UntrustedCitation);
    }
    SourcesAreShown(matches, budget);
    return Ok(RagResponse(Generated(reply.value), sources, |matches|));
  }

  method PackSources(matches: seq<SearchMatch>, budget: int) returns (sources: seq<Source>, text: string)
    ensures sources == Sources(matches, SourceCount(SourceItems(matches), budget))
    ensures text == SourceText(SourceItems(matches), budget)
  {
    var blocks, length := PackComplete(SourceItems(matches), budget);
    sources := [];
    for i := 0 to |blocks|
      invariant sources == Sources(matches, i)
    {
      sources := sources + [Source(Label(i), matches[i].chunkId, matches[i].documentId)];
    }
    text := Join(blocks, SEPARATOR);
  }

  // ---------------------------------------------------------------- what is printed under a label

  /** The block printed for a source: its name, its identifiers, and its match's content. */
  function PrintedBlock(s: Source, content: string): string {
    "[" + s.name + "] document_id=" + s.documentId + " chunk_id=" + s.chunkId + "\n" + content
  }

  /** In the shown text the k-th block is the k-th source's, with this content. */
  ghost predicate PrintedFor(matches: seq<SearchMatch>, budget: int, s: Source, k: nat, content: string) {
    var blocks := SourceBlocks(SourceItems(matches), budget);
    k < |blocks| && StandsIn(SourceText(SourceItems(matches), budget), BeforeBlock(blocks, k), PrintedBlock(s, content))
  }

  /** Content that stands for a match: all of it, or the part that fits when it is the only one shown. */
  predicate ContentOf(matches: seq<SearchMatch>, m: nat, k: nat, content: string) {
    k < |matches| && (content == matches[k].content || (m == 1 && content <= matches[k].content))
  }

  ghost predicate ShownUnderItsName(matches: seq<SearchMatch>, budget: int, sources: seq<Source>, k: nat) {
    && k < |sources| <= |matches|
    && sources[k].chunkId == matches[k].chunkId && sources[k].documentId == matches[k].documentId
    && exists content :: ContentOf(matches, |sources|, k, content) && PrintedFor(matches, budget, sources[k], k, content)
  }

  /** Every source is a match, and the text printed under its name is that match's. */
  ghost predicate ShownUnderTheirNames(matches: seq<SearchMatch>, budget: int, sources: seq<Source>) {
    forall k :: 0 <= k < |sources| ==> ShownUnderItsName(matches, budget, sources, k)
  }

  lemma SourcesAreShown(matches: seq<SearchMatch>, budget: int)
    ensures ShownUnderTheirNames(matches, budget, Sources(matches, SourceCount(SourceItems(matches), budget)))
  {
    var m := SourceCount(SourceItems(matches), budget);
    forall k | 0 <= k < m ensures ShownUnderItsName(matches, budget, Sources(matches, m), k) {
      SourceIsShown(matches, budget, k);
    }
  }

  lemma SourceIsShown(matches: seq<SearchMatch>, budget: int, k: nat)
    requires k < SourceCount(SourceItems(matches), budget)
    ensures ShownUnderItsName(matches, budget, Sources(matches, SourceCount(SourceItems(matches), budget)), k)
  {
    var items := SourceItems(matches);
    var s := Source(Label(k), matches[k].chunkId, matches[k].documentId);
    BlockStandsInText(SourceBlocks(items, budget), k);
    SourceBlocksAreTheirItems(items, budget, k);
    HeaderNamesTheSource(matches, k);
    if SourceBlocks(items, budget)[k] == items[k].header + items[k].content {
      assert PrintedFor(matches, budget, s, k, matches[k].content);
    } else {
      var content := matches[k].content[..budget - |items[0].header|];
      assert ContentOf(matches, 1, k, content) && PrintedFor(matches, budget, s, k, content);
    }
  }

  lemma HeaderNamesTheSource(matches: seq<SearchMatch>, k: nat)
    requires k < |matches|
    ensures SourceItems(matches)[k].header ==
            "[" + Label(k) + "] document_id=" + matches[k].documentId + " chunk_id=" + matches[k].chunkId + "\n"
    ensures SourceItems(matches)[k].content == matches[k].content
  {
  }

  function NamesOf(sources: seq<Source>): set<string> {
    set i | 0 <= i < |sources| :: sources[i].name
  }

  method CitesOnly(text: string, sources: seq<Source>) returns (ok: bool)
    ensures ok <==> CitedLabels(text) <= NamesOf(sources)
  {
    var allowed := NamesOf(sources);
    return CitedLabels(text) <= allowed;
  }

  lemma AllowedLabels(matches: seq<SearchMatch>, m: nat)
    requires m <= |matches|
    ensures NamesOf(Sources(matches, m)) == LabelsUpTo(m)
  {
    var sources := Sources(matches, m);
    forall name | name in LabelsUpTo(m) ensures name in NamesOf(sources) {
      var i: nat :| i < m && Label(i) == name;
      assert sources[i].name == name;
    }
  }

  /**
   An answer is accepted only if every bracketed citation in it names exactly one of the sources
   returned with it, and the text the model was shown under that label is that source's match.
   */
  lemma CitationsNameTheirSource(matches: seq<SearchMatch>, budget: int, answer: string, i: nat) returns (k: nat)
    requires CitedLabels(answer) <= LabelsUpTo(SourceCount(SourceItems(matches), budget))
    requires i < |answer| && CitationAt(answer, i).Some?
    ensures var sources := Sources(matches, SourceCount(SourceItems(matches), budget));
            && k < |sources| && sources[k].name == CitationAt(answer, i).value
            && ShownUnderItsName(matches, budget, sources, k)
            && forall j :: 0 <= j < |sources| && sources[j].name == CitationAt(answer, i).value ==> j == k
  {
    var cited := CitationAt(answer, i).value;
    var m := SourceCount(SourceItems(matches), budget);
    assert cited in CitedLabels(answer);
    assert cited in LabelsUpTo(m);
    k :| k < m && Label(k) == cited;
    SourceIsShown(matches, budget, k);
    forall j | 0 <= j < m && Label(j) == cited ensures j == k {
      LabelsAreDistinct(j, k);
    }
  }

  /** A citation is a bracketed S, in either case or long, and digits; its label has them after a plain S. */
  lemma CitationShape(text: string, i: nat, digits: string)
    requires i < |text|
    ensures CitationAt(text, i) == Some("S" + digits) <==>
            && digits != "" && (forall k :: 0 <= k < |digits| ==> '0' <= digits[k] <= '9')
            && i + |digits| + 3 <= |text|
            && text[i] == '[' && text[i + 1] in {'S', 's', '\U{17F}'}
            && text[i + 2..i + 2 + |digits|] == digits && text[i + 2 + |digits|] == ']'
  {
    if CitationAt(text, i) == Some("S" + digits) {
      var j := DigitsFrom(text, i + 2);
      assert ("S" + text[i + 2..j])[1..] == text[i + 2..j] && ("S" + digits)[1..] == digits;
    } else if && digits != "" && (forall k :: 0 <= k < |digits| ==> '0' <= digits[k] <= '9')
              && i + |digits| + 3 <= |text|
              && text[i] == '[' && text[i + 1] in {'S', 's', '\U{17F}'}
              && text[i + 2..i + 2 + |digits|] == digits && text[i + 2 + |digits|] == ']' {
      DigitsFromRun(text, i + 2, digits);
      assert false;
    }
  }

  lemma {:induction false} DigitsFromRun(text: string, i: nat, digits: string)
    requires i + |digits| < |text| && text[i..i + |digits|] == digits
    requires forall k :: 0 <= k < |digits| ==> IsDigit(digits[k])
    requires !IsDigit(text[i + |digits|])
    ensures DigitsFrom(text, i) == i + |digits|
    decreases |digits|
  {
    if digits != "" {
      assert text[i] == digits[0];
      DigitsFromRun(text, i + 1, digits[1..]);
    }
  }

  /** The check refuses more than inventions: a zero-padded number names no source. */
  lemma PaddedLabelIsRefused(m: nat)
    ensures "S01" in CitedLabels("[S01]")
    ensures !(CitedLabels("[S01]") <= LabelsUpTo(m))
  {
    var text := "[S01]";
    assert text[2..4] == "01";
    DigitsFromRun(text, 2, "01");
    assert CitationAt(text, 0) == Some("S" + text[2..4]);
    assert CitationAt(text, 0).value == "S01";
    if "S01" in LabelsUpTo(m) {
      var i: nat :| i < m && Label(i) == "S01";
      assert Label(i)[1] == Decimal(i + 1)[0];
      NoLeadingZero(i + 1);
      assert false;
    }
  }

  lemma {:induction false} NoLeadingZero(n: nat)
    requires n > 0
    ensures Decimal(n)[0] != '0'
    decreases n
  {
    if n >= 10 {
      NoLeadingZero(n / 10);
    }
  }
}
