/**
 The nonce-framed user prompt: drawing a nonce absent from every untrusted value, printing the
 framed prompt around redacted contents, and a parser that trusts only exact-nonce markers.
 */
module PromptFraming {
  import opened Common
  import opened Redaction

  datatype Section = Section(name: string, content: string)

  predicate NonceOk(n: string) {
    |n| == 32 && AllHex(n)
  }

  predicate Absent(values: seq<string>, n: string) {
    forall i :: 0 <= i < |values| ==> !Contains(values[i], n)
  }

  datatype PromptError = BlankTask | BlankContract | BadIdentifierKey | NoCollisionFreeNonce | BadFinding

  // ---------------------------------------------------------------- the nonce

  const NONCE_ATTEMPTS := 8

  /** `draws` are the random tokens, one per attempt; the first one that collides with nothing is used. */
  method NewBoundaryNonce(values: seq<string>, draws: seq<string>) returns (r: Result<string, PromptError>)
    requires |draws| == 8
    ensures r.Ok? ==> r.value in draws && Absent(values, r.value)
    ensures r.Err? ==> r.error == NoCollisionFreeNonce
    ensures r.Ok? <==> exists k :: 0 <= k < 8 && Absent(values, draws[k])
  {
    for k := 0 to NONCE_ATTEMPTS
      invariant forall j :: 0 <= j < k ==> !Absent(values, draws[j])
    {
      if Absent(values, draws[k]) {
        return Ok(draws[k]);
      }
    }
    return Err(NoCollisionFreeNonce);
  }

  // ---------------------------------------------------------------- the printed prompt

  /** An untrusted block between its markers: the user's request or one context section. */
  datatype Block = Block(tag: string, content: string)

  const USER_LABEL := "USER_REQUEST"
  const CONTEXT_LABEL := "CONTEXT_"

  function Join(parts: seq<string>): string {
    if parts == [] then ""
    else if |parts| == 1 then parts[0]
    else parts[0] + "\n" + Join(parts[1..])
  }

  function BlockParts(b: Block, n: string): seq<string> {
    ["", "BEGIN_UNTRUSTED_" + b.tag + "_" + n, b.content, "END_UNTRUSTED_" + b.tag + "_" + n]
  }

  function AllBlockParts(bs: seq<Block>, n: string): seq<string> {
    if bs == [] then [] else BlockParts(bs[0], n) + AllBlockParts(bs[1..], n)
  }

  const IDENTIFIERS := "TRUSTED IDENTIFIERS " + "(APPLICATION-SUPPLIED " + "JSON):"

  function HeadParts(task: string, json: string, n: string): seq<string> {
    ["APPLICATION TASK:", task, "", IDENTIFIERS, json, "", "BOUNDARY NONCE: " + n]
  }

  function TailParts(contract: string): seq<string> {
    ["", "OUTPUT CONTRACT:", contract]
  }

  function Prompt(task: string, json: string, n: string, bs: seq<Block>, contract: string): string {
    Join(HeadParts(task, json, n) + AllBlockParts(bs, n) + TailParts(contract))
  }

  function Minimized(text: string, detect: string -> seq<Finding>): string {
    Redacted(text, detect(text), false)
  }

  function UserBlocks(request: Option<string>, detect: string -> seq<Finding>): seq<Block> {
    if request.None? then [] else [Block(USER_LABEL, Minimized(request.value, detect))]
  }

  function SectionBlocks(sections: seq<Section>, detect: string -> seq<Finding>): (bs: seq<Block>)
    ensures |bs| == |sections|
    ensures forall i :: 0 <= i < |bs| ==>
              bs[i] == Block(CONTEXT_LABEL + sections[i].name, Minimized(sections[i].content, detect))
  {
    seq(|sections|, i requires 0 <= i < |sections| =>
      Block(CONTEXT_LABEL + sections[i].name, Minimized(sections[i].content, detect)))
  }

  lemma Regrouped3(a: string, b: string, c: string, d: string)
    ensures a + (b + c) + d == (a + b) + c + d
  {
  }

  /** The markers around a section carry its name and the nonce, and those of the request the nonce. */
  lemma MarkersNameTheirBlock(name: string, content: string, n: string)
    ensures BlockParts(Block(CONTEXT_LABEL + name, content), n) ==
            ["", ("BEGIN_UNTRUSTED_" + "CONTEXT_") + name + "_" + n, content,
             ("END_UNTRUSTED_" + "CONTEXT_") + name + "_" + n]
    ensures BlockParts(Block(USER_LABEL, content), n) ==
            ["", "BEGIN_UNTRUSTED_" + "USER_REQUEST" + "_" + n, content, "END_UNTRUSTED_" + "USER_REQUEST" + "_" + n]
  {
    Regrouped3("BEGIN_UNTRUSTED_", "CONTEXT_", name, "_");
    Regrouped3("END_UNTRUSTED_", "CONTEXT_", name, "_");
  }

  /** Every untrusted value, as the nonce is checked against them: contents, then the request. */
  function UntrustedValues(request: Option<string>, sections: seq<Section>): seq<string> {
    seq(|sections|, i requires 0 <= i < |sections| => sections[i].content) +
    if request.None? then [] else [request.value]
  }

  lemma {:induction false} AllBlockPartsSnoc(bs: seq<Block>, b: Block, n: string)
    ensures AllBlockParts(bs + [b], n) == AllBlockParts(bs, n) + BlockParts(b, n)
    decreases |bs|
  {
    if bs == [] {
      assert [b][1..] == [];
      assert bs + [b] == [b];
    } else {
      AllBlockPartsSnoc(bs[1..], b, n);
      assert (bs + [b])[1..] == bs[1..] + [b];
    }
  }

  lemma SectionBlocksPrefix(sections: seq<Section>, detect: string -> seq<Finding>, k: nat)
    requires k < |sections|
    ensures SectionBlocks(sections, detect)[..k + 1] ==
            SectionBlocks(sections, detect)[..k] +
            [Block(CONTEXT_LABEL + sections[k].name, Minimized(sections[k].content, detect))]
  {
  }

  predicate FindingsValid(text: string, detect: string -> seq<Finding>) {
    AllValid(detect(text), |text|)
  }

  predicate SectionsValid(sections: seq<Section>, detect: string -> seq<Finding>) {
    forall i :: 0 <= i < |sections| ==> FindingsValid(sections[i].content, detect)
  }

  /** The detector's findings are valid on the request and on every section. */
  predicate AllFindingsValid(request: Option<string>, sections: seq<Section>, detect: string -> seq<Finding>) {
    (request.Some? ==> FindingsValid(request.value, detect)) && SectionsValid(sections, detect)
  }

  method PrintParts(
    task: string, request: Option<string>, json: string, sections: seq<Section>, contract: string,
    nonce: string, detect: string -> seq<Finding>)
    returns (r: Result<seq<string>, PromptError>)
    ensures r.Err? ==> r.error == BadFinding
    ensures r.Ok? <==> AllFindingsValid(request, sections, detect)
    ensures r.Ok? ==>
              var bs := UserBlocks(request, detect) + SectionBlocks(sections, detect);
              r.value == HeadParts(task, json, nonce) + AllBlockParts(bs, nonce) + TailParts(contract)
  {
    var user := PrintRequest(request, nonce, detect);
    if user.Err? {
      return Err(user.error);
    }
    var context := PrintSections(sections, nonce, detect);
    if context.Err? {
      return Err(context.error);
    }
    AllBlockPartsAppend(UserBlocks(request, detect), SectionBlocks(sections, detect), nonce);
    return Ok(HeadParts(task, json, nonce) + (user.value + context.value) + TailParts(contract));
  }

  /** One redacted block. */
  method MinimizeBlock(tag: string, text: string, detect: string -> seq<Finding>) returns (r: Result<Block, PromptError>)
    ensures r.Err? ==> r.error == BadFinding
    ensures r.Ok? <==> FindingsValid(text, detect)
    ensures r.Ok? ==> r.value == Block(tag, Minimized(text, detect))
  {
    var content := Redact(text, detect(text), false);
    if content.Err? {
      return Err(BadFinding);
    }
    return Ok(Block(tag, content.value));
  }

  method PrintRequest(request: Option<string>, nonce: string, detect: string -> seq<Finding>)
    returns (r: Result<seq<string>, PromptError>)
    ensures r == if request.Some? && !FindingsValid(request.value, detect) then Err(BadFinding)
                 else Ok(AllBlockParts(UserBlocks(request, detect), nonce))
  {
    if request.None? {
      return Ok([]);
    }
    var b := MinimizeBlock(USER_LABEL, request.value, detect);
    if b.Err? {
      return Err(b.error);
    }
    assert UserBlocks(request, detect) == [b.value] && [b.value][1..] == [];
    assert AllBlockParts([b.value], nonce) == BlockParts(b.value, nonce);
    return Ok(BlockParts(b.value, nonce));
  }

  method PrintSections(sections: seq<Section>, nonce: string, detect: string -> seq<Finding>)
    returns (r: Result<seq<string>, PromptError>)
    ensures r == if SectionsValid(sections, detect) then Ok(AllBlockParts(SectionBlocks(sections, detect), nonce))
                 else Err(BadFinding)
  {
    var parts: seq<string> := [];
    for k := 0 to |sections|
      invariant SectionsValid(sections[..k], detect)
      invariant parts == AllBlockParts(SectionBlocks(sections, detect)[..k], nonce)
    {
      var b := MinimizeBlock(CONTEXT_LABEL + sections[k].name, sections[k].content, detect);
      if b.Err? {
        return Err(b.error);
      }
      OneMoreSection(sections, detect, k, b.value, nonce);
      parts := parts + BlockParts(b.value, nonce);
    }
    assert SectionBlocks(sections, detect)[..|sections|] == SectionBlocks(sections, detect);
    assert sections[..|sections|] == sections;
    return Ok(parts);
  }

  lemma OneMoreSection(sections: seq<Section>, detect: string -> seq<Finding>, k: nat, b: Block, n: string)
    requires k < |sections| && b == SectionBlocks(sections, detect)[k]
    ensures AllBlockParts(SectionBlocks(sections, detect)[..k + 1], n) ==
            AllBlockParts(SectionBlocks(sections, detect)[..k], n) + BlockParts(b, n)
    ensures SectionsValid(sections[..k + 1], detect) <==>
            SectionsValid(sections[..k], detect) && FindingsValid(sections[k].content, detect)
  {
    SectionBlocksPrefix(sections, detect, k);
    AllBlockPartsSnoc(SectionBlocks(sections, detect)[..k], b, n);
    assert sections[..k + 1] == sections[..k] + [sections[k]];
  }

  lemma {:induction false} AllBlockPartsAppend(a: seq<Block>, b: seq<Block>, n: string)
    ensures AllBlockParts(a + b, n) == AllBlockParts(a, n) + AllBlockParts(b, n)
    decreases |b|
  {
    if b == [] {
      assert a + b == a;
    } else {
      var last := |b| - 1;
      AllBlockPartsAppend(a, b[..last], n);
      AllBlockPartsSnoc(a + b[..last], b[last], n);
      AllBlockPartsSnoc(b[..last], b[last], n);
      assert (a + b[..last]) + [b[last]] == a + b && b[..last] + [b[last]] == b;
    }
  }

  // ---------------------------------------------------------------- the parser

  /** Leftmost occurrence of `n` at or after `i`, or -1. */
  function Find(s: string, n: string, i: nat): (p: int)
    requires i <= |s|
    ensures p == -1 || (i <= p && OccursAt(s, n, p) && forall q :: i <= q < p ==> !OccursAt(s, n, q))
    ensures p == -1 ==> forall q :: i <= q <= |s| ==> !OccursAt(s, n, q)
    decreases |s| - i
  {
    if OccursAt(s, n, i) then i
    else if i == |s| then -1
    else Find(s, n, i + 1)
  }

  /** The pieces of `s` between the occurrences of `n`. */
  function Split(s: string, n: string): (pieces: seq<string>)
    requires n != []
    ensures pieces != []
    decreases |s|
  {
    var p := Find(s, n, 0);
    if p < 0 then [s] else [s[..p]] + Split(s[p + |n|..], n)
  }

  datatype Parsed = Parsed(request: Option<string>, sections: seq<Section>, contract: string)

  const OPENING := "\n" + "\n" + "BEGIN_UNTRUSTED_"
  const CLOSING := "\n" + "END_UNTRUSTED_"
  const CONTRACT := "\n\nOUTPUT CONTRACT:\n"

  predicate StartsWith(s: string, prefix: string) {
    prefix <= s
  }

  predicate EndsWith(s: string, suffix: string) {
    |suffix| <= |s| && s[|s| - |suffix|..] == suffix
  }

  function DecodeBlock(opening: string, body: string): Option<Block> {
    if !StartsWith(opening, OPENING) || !EndsWith(opening, "_") || |opening| < |OPENING| + 1 then None
    else
      var tag := opening[|OPENING|..|opening| - 1];
      var closing := CLOSING + tag + "_";
      if !StartsWith(body, "\n") || |body| < 1 + |closing| || !EndsWith(body, closing) then None
      else Some(Block(tag, body[1..|body| - |closing|]))
  }

  /** Blocks and contract from the pieces after the first one. */
  function DecodePieces(ps: seq<string>): Option<(seq<Block>, string)> {
    if |ps| == 1 then
      if StartsWith(ps[0], CONTRACT) then Some(([], ps[0][|CONTRACT|..])) else None
    else if |ps| < 3 then None
    else
      var b := DecodeBlock(ps[0], ps[1]);
      var rest := DecodePieces(ps[2..]);
      if b.None? || rest.None? then None else Some(([b.value] + rest.value.0, rest.value.1))
  }

  function SectionsOf(bs: seq<Block>): Option<seq<Section>> {
    if bs == [] then Some([])
    else
      var rest := SectionsOf(bs[1..]);
      if !StartsWith(bs[0].tag, CONTEXT_LABEL) || rest.None? then None
      else Some([Section(bs[0].tag[|CONTEXT_LABEL|..], bs[0].content)] + rest.value)
  }

  function Parse(prompt: string, n: string): Option<Parsed>
    requires n != []
  {
    var decoded := DecodePieces(Split(prompt, n)[1..]);
    if decoded.None? then None
    else
      var (bs, contract) := decoded.value;
      var asked := bs != [] && bs[0].tag == USER_LABEL;
      var sections := SectionsOf(if asked then bs[1..] else bs);
      if sections.None? then None
      else Some(Parsed(if asked then Some(bs[0].content) else None, sections.value, contract))
  }

  /** The application's part before the nonce. */
  datatype Head = Head(task: string, json: string)

  const TASK_LINE := "APPLICATION TASK:" + "\n"
  const IDENTIFIERS_LINE := "\n" + "\n" + IDENTIFIERS + "\n"
  const NONCE_LINE := "\n" + "\n" + "BOUNDARY NONCE: "

  function LastLine(s: string): (line: string)
    ensures |line| <= |s|
  {
    if s == "" || s[|s| - 1] == '\n' then "" else LastLine(s[..|s| - 1]) + [s[|s| - 1]]
  }

  /** Task and identifiers from the piece before the first nonce; the identifiers are its last line. */
  function DecodeHead(piece: string): Option<Head> {
    if |piece| < |TASK_LINE| + |NONCE_LINE| || !StartsWith(piece, TASK_LINE) || !EndsWith(piece, NONCE_LINE) then None
    else DecodeMiddle(piece[|TASK_LINE|..|piece| - |NONCE_LINE|])
  }

  function DecodeMiddle(middle: string): Option<Head> {
    var json := LastLine(middle);
    var rest := middle[..|middle| - |json|];
    if !EndsWith(rest, IDENTIFIERS_LINE) then None else Some(Head(rest[..|rest| - |IDENTIFIERS_LINE|], json))
  }

  function ParseHead(prompt: string, n: string): Option<Head>
    requires n != []
  {
    DecodeHead(Split(prompt, n)[0])
  }

  // ---------------------------------------------------------------- splitting recovers the pieces

  function Interleave(pieces: seq<string>, n: string): string
    requires pieces != []
  {
    if |pieces| == 1 then pieces[0] else pieces[0] + n + Interleave(pieces[1..], n)
  }

  predicate EndsOutsideHex(s: string) {
    s != [] && !LowerHex(s[|s| - 1])
  }

  predicate OutsideHex(s: string) {
    forall i :: 0 <= i < |s| ==> !LowerHex(s[i])
  }

  /** A hex word cannot straddle a separator without hex digits: it lies on one side of it. */
  lemma HexWordOnOneSide(a: string, sep: string, b: string, n: string, p: nat)
    requires n != [] && AllHex(n) && sep != [] && OutsideHex(sep)
    requires OccursAt(a + sep + b, n, p)
    ensures OccursAt(a, n, p) || (p >= |a| + |sep| && OccursAt(b, n, p - |a| - |sep|))
  {
    var s := a + sep + b;
    OccurrenceIsPointwise(s, n, p);
    forall j | p <= j < p + |n| ensures LowerHex(s[j]) {
      assert s[p + (j - p)] == n[j - p] && LowerHex(n[j - p]);
    }
    forall j | |a| <= j < |a| + |sep| ensures !LowerHex(s[j]) {
      assert s[j] == sep[j - |a|];
    }
    var k := if p <= |a| then |a| else p;
    assert k < |s| ==> (LowerHex(s[k]) || !LowerHex(s[k]));
    if p + |n| <= |a| {
      assert s[p..p + |n|] == a[p..p + |n|];
    } else {
      assert p >= |a| + |sep|;
      assert s[p..p + |n|] == b[p - |a| - |sep|..p - |a| - |sep| + |n|];
    }
  }

  lemma GluedFree(a: string, sep: string, b: string, n: string)
    requires n != [] && AllHex(n) && sep != [] && OutsideHex(sep)
    requires !Contains(a, n) && !Contains(b, n)
    ensures !Contains(a + sep + b, n)
  {
    forall p | 0 <= p <= |a + sep + b| ensures !OccursAt(a + sep + b, n, p) {
      if OccursAt(a + sep + b, n, p) {
        HexWordOnOneSide(a, sep, b, n, p);
        assert false;
      }
    }
  }

  lemma FirstMarker(a: string, n: string, rest: string)
    requires n != [] && AllHex(n) && !Contains(a, n) && EndsOutsideHex(a)
    ensures Find(a + n + rest, n, 0) == |a|
    ensures (a + n + rest)[..|a|] == a && (a + n + rest)[|a| + |n|..] == rest
  {
    var s := a + n + rest;
    var body, mark := a[..|a| - 1], [a[|a| - 1]];
    assert s == body + mark + (n + rest) && a == body + mark;
    assert s[|a|..|a| + |n|] == n;
    assert OccursAt(s, n, |a|);
    forall q | 0 <= q < |a| ensures !OccursAt(s, n, q) {
      if OccursAt(s, n, q) {
        HexWordOnOneSide(body, mark, n + rest, n, q);
        assert OccursAt(body, n, q) ==> a[q..q + |n|] == body[q..q + |n|];
        assert OccursAt(body, n, q) ==> OccursAt(a, n, q);
        assert false;
      }
    }
  }

  lemma {:induction false} SplitRecoversPieces(pieces: seq<string>, n: string)
    requires pieces != [] && n != [] && AllHex(n) && Absent(pieces, n)
    requires forall i :: 0 <= i < |pieces| - 1 ==> EndsOutsideHex(pieces[i])
    ensures Split(Interleave(pieces, n), n) == pieces
    decreases |pieces|
  {
    if |pieces| == 1 {
      assert Find(pieces[0], n, 0) == -1;
    } else {
      LaterPiecesAreFree(pieces, n);
      SplitRecoversPieces(pieces[1..], n);
      SplitAtFirst(pieces[0], n, Interleave(pieces[1..], n));
      assert pieces == [pieces[0]] + pieces[1..];
    }
  }

  lemma LaterPiecesAreFree(pieces: seq<string>, n: string)
    requires |pieces| > 1 && Absent(pieces, n)
    requires forall i :: 0 <= i < |pieces| - 1 ==> EndsOutsideHex(pieces[i])
    ensures !Contains(pieces[0], n) && Absent(pieces[1..], n)
    ensures forall i :: 0 <= i < |pieces[1..]| - 1 ==> EndsOutsideHex(pieces[1..][i])
  {
  }

  lemma SplitAtFirst(a: string, n: string, rest: string)
    requires n != [] && AllHex(n) && !Contains(a, n) && EndsOutsideHex(a)
    ensures Split(a + n + rest, n) == [a] + Split(rest, n)
  {
    FirstMarker(a, n, rest);
  }

  // ---------------------------------------------------------------- the prompt as pieces

  function OpeningPiece(b: Block): string {
    OPENING + b.tag + "_"
  }

  function BodyPiece(b: Block): string {
    "\n" + b.content + CLOSING + b.tag + "_"
  }

  function TailPieces(bs: seq<Block>, contract: string): (ps: seq<string>)
    ensures ps != []
  {
    if bs == [] then [CONTRACT + contract]
    else [OpeningPiece(bs[0]), BodyPiece(bs[0])] + TailPieces(bs[1..], contract)
  }

  function HeadPiece(task: string, json: string): string {
    "APPLICATION TASK:" + "\n" + task + ("\n" + "\n" + IDENTIFIERS + "\n") + json + ("\n" + "\n" + "BOUNDARY NONCE: ")
  }

  lemma {:induction false} TailIsInterleaved(bs: seq<Block>, n: string, contract: string)
    ensures "\n" + Join(AllBlockParts(bs, n) + TailParts(contract)) == Interleave(TailPieces(bs, contract), n)
    decreases |bs|
  {
    if bs == [] {
      JoinTail(contract);
      assert AllBlockParts(bs, n) + TailParts(contract) == TailParts(contract);
    } else {
      var rest := AllBlockParts(bs[1..], n) + TailParts(contract);
      assert AllBlockParts(bs, n) + TailParts(contract) == BlockParts(bs[0], n) + rest;
      JoinBlock(bs[0], n, rest);
      TailIsInterleaved(bs[1..], n, contract);
      var tail := TailPieces(bs[1..], contract);
      var ps := TailPieces(bs, contract);
      assert ps[1..] == [BodyPiece(bs[0])] + tail && ps[1..][1..] == tail;
      assert Interleave(ps, n) == OpeningPiece(bs[0]) + n + (BodyPiece(bs[0]) + n + Interleave(tail, n));
      assert "\n" + Join(BlockParts(bs[0], n) + rest) ==
             OpeningPiece(bs[0]) + n + (BodyPiece(bs[0]) + n + ("\n" + Join(rest)));
    }
  }

  lemma JoinCons(a: string, rest: seq<string>)
    requires rest != []
    ensures Join([a] + rest) == a + "\n" + Join(rest)
  {
    assert ([a] + rest)[1..] == rest;
  }

  lemma JoinTail(contract: string)
    ensures "\n" + Join(TailParts(contract)) == CONTRACT + contract
  {
    JoinTwo("", "OUTPUT CONTRACT:", [contract]);
    assert TailParts(contract) == ["", "OUTPUT CONTRACT:"] + [contract];
    assert Join([contract]) == contract;
  }

  lemma Regroup(nl: string, opening: string, tag: string, bar: string, n: string, content: string, closing: string, rest: string)
    ensures nl + (nl + ((opening + tag + bar + n) + nl + (content + nl + ((closing + tag + bar + n) + nl + rest)))) ==
            ((nl + nl + opening) + tag + bar) + n + ((nl + content + (nl + closing) + tag + bar) + n + (nl + rest))
  {
    var tail := nl + rest;
    var after := (nl + content + (nl + closing) + tag + bar) + n + tail;
    assert (closing + tag + bar + n) + nl + rest == closing + tag + bar + n + tail;
    assert nl + (content + nl + (closing + tag + bar + n + tail)) == after;
    assert (opening + tag + bar + n) + nl + (content + nl + (closing + tag + bar + n + tail)) ==
           (opening + tag + bar + n) + after;
  }

  lemma JoinTwo(a: string, b: string, rest: seq<string>)
    requires rest != []
    ensures Join([a, b] + rest) == a + "\n" + (b + "\n" + Join(rest))
  {
    JoinCons(b, rest);
    JoinCons(a, [b] + rest);
    assert [a, b] + rest == [a] + ([b] + rest);
  }

  lemma JoinFour(a: string, b: string, c: string, d: string, rest: seq<string>)
    requires rest != []
    ensures Join([a, b, c, d] + rest) == a + "\n" + (b + "\n" + (c + "\n" + (d + "\n" + Join(rest))))
  {
    JoinTwo(c, d, rest);
    JoinTwo(a, b, [c, d] + rest);
    assert [a, b, c, d] + rest == [a, b] + ([c, d] + rest);
  }

  lemma JoinMarked(opening: string, tag: string, bar: string, n: string, content: string, closing: string, rest: seq<string>)
    requires rest != []
    ensures "\n" + Join(["", opening + tag + bar + n, content, closing + tag + bar + n] + rest) ==
            (("\n" + "\n" + opening) + tag + bar) + n +
            (("\n" + content + ("\n" + closing) + tag + bar) + n + ("\n" + Join(rest)))
  {
    JoinFour("", opening + tag + bar + n, content, closing + tag + bar + n, rest);
    Regroup("\n", opening, tag, bar, n, content, closing, Join(rest));
  }

  lemma JoinBlock(b: Block, n: string, rest: seq<string>)
    requires rest != []
    ensures "\n" + Join(BlockParts(b, n) + rest) == OpeningPiece(b) + n + (BodyPiece(b) + n + ("\n" + Join(rest)))
  {
    JoinMarked("BEGIN_UNTRUSTED_", b.tag, "_", n, b.content, "END_UNTRUSTED_", rest);
  }

  lemma RegroupHead(nl: string, a: string, task: string, ids: string, json: string, nonce: string, n: string, rest: string)
    ensures a + nl + (task + nl + (nl + (ids + nl + (json + nl + (nl + ((nonce + n) + nl + rest)))))) ==
            (a + nl + task + (nl + nl + ids + nl) + json + (nl + nl + nonce)) + n + (nl + rest)
  {
    var t0 := nonce + n + (nl + rest);
    assert (nonce + n) + nl + rest == t0;
    var t1 := json + (nl + nl) + t0;
    assert json + nl + (nl + t0) == t1;
    var t2 := task + (nl + nl + ids + nl) + t1;
    assert task + nl + (nl + (ids + nl + t1)) == t2;
    assert a + nl + t2 == (a + nl + task + (nl + nl + ids + nl)) + t1;
    assert t1 == (json + (nl + nl + nonce)) + (n + (nl + rest));
  }

  lemma JoinThreeMore(json: string, last: string, rest: seq<string>)
    requires rest != []
    ensures Join([json, "", last] + rest) == json + "\n" + ("\n" + (last + "\n" + Join(rest)))
  {
    JoinCons(last, rest);
    JoinTwo(json, "", [last] + rest);
    assert [json, "", last] + rest == [json, ""] + ([last] + rest);
    assert "" + "\n" + Join([last] + rest) == "\n" + Join([last] + rest);
  }

  lemma JoinHeadMarked(a: string, task: string, ids: string, json: string, nonce: string, n: string, rest: seq<string>)
    requires rest != []
    ensures Join([a, task, "", ids, json, "", nonce + n] + rest) ==
            (a + "\n" + task + ("\n" + "\n" + ids + "\n") + json + ("\n" + "\n" + nonce)) + n + ("\n" + Join(rest))
  {
    var t := [json, "", nonce + n] + rest;
    JoinThreeMore(json, nonce + n, rest);
    JoinFour(a, task, "", ids, t);
    assert [a, task, "", ids, json, "", nonce + n] + rest == [a, task, "", ids] + t;
    RegroupHead("\n", a, task, ids, json, nonce, n, Join(rest));
    assert "" + "\n" + (ids + "\n" + Join(t)) == "\n" + (ids + "\n" + Join(t));
  }

  lemma JoinHead(task: string, json: string, n: string, rest: seq<string>)
    requires rest != []
    ensures Join(HeadParts(task, json, n) + rest) == HeadPiece(task, json) + n + ("\n" + Join(rest))
  {
    JoinHeadMarked("APPLICATION TASK:", task, IDENTIFIERS, json, "BOUNDARY NONCE: ", n, rest);
  }

  lemma PromptIsInterleaved(task: string, json: string, n: string, bs: seq<Block>, contract: string)
    ensures Prompt(task, json, n, bs, contract) ==
            Interleave([HeadPiece(task, json)] + TailPieces(bs, contract), n)
  {
    var rest := AllBlockParts(bs, n) + TailParts(contract);
    assert HeadParts(task, json, n) + AllBlockParts(bs, n) + TailParts(contract) == HeadParts(task, json, n) + rest;
    JoinHead(task, json, n, rest);
    TailIsInterleaved(bs, n, contract);
    var ps := [HeadPiece(task, json)] + TailPieces(bs, contract);
    assert ps[1..] == TailPieces(bs, contract);
  }

  // ---------------------------------------------------------------- no piece holds the nonce

  lemma ShortFree(s: string, n: string)
    requires |s| < |n|
    ensures !Contains(s, n)
  {
  }

  lemma OpeningFree(b: Block, n: string)
    requires NonceOk(n) && !Contains(b.tag, n)
    ensures !Contains(OpeningPiece(b), n) && EndsOutsideHex(OpeningPiece(b))
  {
    ShortFree("", n);
    assert OutsideHex(OPENING);
    GluedFree("", OPENING, b.tag, n);
    assert "" + OPENING + b.tag == OPENING + b.tag;
    GluedFree(OPENING + b.tag, "_", "", n);
    assert OPENING + b.tag + "_" + "" == OpeningPiece(b);
  }

  lemma BodyFree(b: Block, n: string)
    requires NonceOk(n) && !Contains(b.tag, n) && !Contains(b.content, n)
    ensures !Contains(BodyPiece(b), n) && EndsOutsideHex(BodyPiece(b))
  {
    ShortFree("", n);
    assert OutsideHex(CLOSING) && OutsideHex("\n") && OutsideHex("_");
    GluedFree("", "\n", b.content, n);
    GluedFree("" + "\n" + b.content, CLOSING, b.tag, n);
    GluedFree("" + "\n" + b.content + CLOSING + b.tag, "_", "", n);
    assert "" + "\n" + b.content + CLOSING + b.tag + "_" + "" == BodyPiece(b);
  }

  lemma HeadFree(task: string, json: string, n: string)
    requires NonceOk(n) && !Contains(task, n) && !Contains(json, n)
    ensures !Contains(HeadPiece(task, json), n) && EndsOutsideHex(HeadPiece(task, json))
  {
    var s0 := "APPLICATION TASK:" + "\n";
    var s1 := "\n" + "\n" + IDENTIFIERS + "\n";
    var s2 := "\n" + "\n" + "BOUNDARY NONCE: ";
    assert OutsideHex(s0) && OutsideHex(s2);
    IdentifiersOutsideHex();
    ThreeSeparators(s0, task, s1, json, s2, n);
  }

  lemma IdentifiersOutsideHex()
    ensures OutsideHex("\n" + "\n" + IDENTIFIERS + "\n")
  {
    assert OutsideHex("TRUSTED IDENTIFIERS ") && OutsideHex("(APPLICATION-SUPPLIED ") && OutsideHex("JSON):");
    assert OutsideHex(IDENTIFIERS);
  }

  /** Texts free of the nonce stay free of it between separators without hex digits. */
  lemma ThreeSeparators(s0: string, a: string, s1: string, b: string, s2: string, n: string)
    requires NonceOk(n) && !Contains(a, n) && !Contains(b, n)
    requires s0 != "" && s1 != "" && s2 != "" && OutsideHex(s0) && OutsideHex(s1) && OutsideHex(s2)
    ensures !Contains(s0 + a + s1 + b + s2, n) && EndsOutsideHex(s0 + a + s1 + b + s2)
  {
    ShortFree("", n);
    GluedFree("", s0, a, n);
    assert "" + s0 + a == s0 + a;
    GluedFree(s0 + a, s1, b, n);
    GluedFree(s0 + a + s1 + b, s2, "", n);
    assert s0 + a + s1 + b + s2 + "" == s0 + a + s1 + b + s2;
  }

  lemma {:induction false} TailFree(bs: seq<Block>, contract: string, n: string)
    requires NonceOk(n) && !Contains(contract, n)
    requires forall i :: 0 <= i < |bs| ==> !Contains(bs[i].tag, n) && !Contains(bs[i].content, n)
    ensures var ps := TailPieces(bs, contract);
            Absent(ps, n) && forall i :: 0 <= i < |ps| - 1 ==> EndsOutsideHex(ps[i])
    decreases |bs|
  {
    if bs == [] {
      ShortFree("", n);
      assert OutsideHex(CONTRACT);
      GluedFree("", CONTRACT, contract, n);
      assert "" + CONTRACT + contract == CONTRACT + contract;
    } else {
      OpeningFree(bs[0], n);
      BodyFree(bs[0], n);
      TailFree(bs[1..], contract, n);
    }
  }

  // ---------------------------------------------------------------- decoding

  lemma DecodePrintedBlock(b: Block)
    ensures DecodeBlock(OpeningPiece(b), BodyPiece(b)) == Some(b)
  {
    var opening, body := OpeningPiece(b), BodyPiece(b);
    assert opening[|OPENING|..|opening| - 1] == b.tag;
    assert opening[|opening| - 1..] == "_";
    var closing := CLOSING + b.tag + "_";
    assert body == "\n" + b.content + closing;
    assert body[|body| - |closing|..] == closing;
    assert body[1..|body| - |closing|] == b.content;
  }

  lemma {:induction false} DecodePrintedPieces(bs: seq<Block>, contract: string)
    ensures DecodePieces(TailPieces(bs, contract)) == Some((bs, contract))
    decreases |bs|
  {
    if bs == [] {
      assert (CONTRACT + contract)[|CONTRACT|..] == contract;
    } else {
      var ps := TailPieces(bs, contract);
      assert ps[2..] == TailPieces(bs[1..], contract);
      DecodePrintedBlock(bs[0]);
      DecodePrintedPieces(bs[1..], contract);
      assert bs == [bs[0]] + bs[1..];
    }
  }

  lemma {:induction false} SectionsOfPrinted(sections: seq<Section>, bs: seq<Block>)
    requires |bs| == |sections|
    requires forall i :: 0 <= i < |bs| ==> bs[i] == Block(CONTEXT_LABEL + sections[i].name, sections[i].content)
    ensures SectionsOf(bs) == Some(sections)
    decreases |bs|
  {
    if bs != [] {
      SectionsOfPrinted(sections[1..], bs[1..]);
      assert (CONTEXT_LABEL + sections[0].name)[|CONTEXT_LABEL|..] == sections[0].name;
      assert sections == [sections[0]] + sections[1..];
    }
  }

  // ---------------------------------------------------------------- the round trip

  function MinimizedSections(sections: seq<Section>, detect: string -> seq<Finding>): (out: seq<Section>)
    ensures |out| == |sections|
    ensures forall i :: 0 <= i < |out| ==> out[i] == Section(sections[i].name, Minimized(sections[i].content, detect))
  {
    seq(|sections|, i requires 0 <= i < |sections| => Section(sections[i].name, Minimized(sections[i].content, detect)))
  }

  /** The application's own parts do not hold the nonce; the code draws it without looking at them. */
  predicate ApplicationPartsFree(task: string, json: string, sections: seq<Section>, contract: string, n: string) {
    && !Contains(task, n) && !Contains(json, n) && !Contains(contract, n)
    && forall i :: 0 <= i < |sections| ==> !Contains(sections[i].name, n)
  }

  /** If a nonce is absent from the raw values, it is absent from every block that is printed. */
  lemma PrintedBlocksFree(request: Option<string>, sections: seq<Section>, detect: string -> seq<Finding>, n: string)
    requires NonceOk(n) && Absent(UntrustedValues(request, sections), n)
    requires forall i :: 0 <= i < |sections| ==> !Contains(sections[i].name, n)
    ensures var bs := UserBlocks(request, detect) + SectionBlocks(sections, detect);
            forall i :: 0 <= i < |bs| ==> !Contains(bs[i].tag, n) && !Contains(bs[i].content, n)
  {
    var values := UntrustedValues(request, sections);
    var user := UserBlocks(request, detect);
    if request.Some? {
      assert values[|sections|] == request.value;
      RedactionCreatesNoHexWord(request.value, detect(request.value), false, n);
      ShortFree(USER_LABEL, n);
    }
    forall i | 0 <= i < |sections|
      ensures !Contains(CONTEXT_LABEL + sections[i].name, n)
      ensures !Contains(Minimized(sections[i].content, detect), n)
    {
      assert values[i] == sections[i].content;
      RedactionCreatesNoHexWord(sections[i].content, detect(sections[i].content), false, n);
      ShortFree("", n);
      assert OutsideHex(CONTEXT_LABEL);
      GluedFree("", CONTEXT_LABEL, sections[i].name, n);
      assert "" + CONTEXT_LABEL + sections[i].name == CONTEXT_LABEL + sections[i].name;
    }
  }

  lemma ParsePrinted(request: Option<string>, sections: seq<Section>, user: seq<Block>, context: seq<Block>)
    requires user == if request.None? then [] else [Block(USER_LABEL, request.value)]
    requires |context| == |sections|
    requires forall i :: 0 <= i < |context| ==> context[i] == Block(CONTEXT_LABEL + sections[i].name, sections[i].content)
    ensures var bs := user + context;
            var asked := bs != [] && bs[0].tag == USER_LABEL;
            && (asked <==> request.Some?)
            && (asked ==> bs[0].content == request.value)
            && SectionsOf(if asked then bs[1..] else bs) == Some(sections)
  {
    var bs := user + context;
    SectionsOfPrinted(sections, context);
    if request.Some? {
      assert bs[1..] == context;
    } else {
      assert bs == context;
      if context != [] {
        assert context[0].tag[0] == 'C' && USER_LABEL[0] == 'U';
      }
    }
  }

  lemma PiecesComeBack(task: string, json: string, n: string, bs: seq<Block>, contract: string)
    requires NonceOk(n) && !Contains(task, n) && !Contains(json, n) && !Contains(contract, n)
    requires forall i :: 0 <= i < |bs| ==> !Contains(bs[i].tag, n) && !Contains(bs[i].content, n)
    ensures DecodePieces(Split(Prompt(task, json, n, bs, contract), n)[1..]) == Some((bs, contract))
    ensures Split(Prompt(task, json, n, bs, contract), n)[0] == HeadPiece(task, json)
  {
    var ps := TailPieces(bs, contract);
    var pieces := [HeadPiece(task, json)] + ps;
    HeadFree(task, json, n);
    TailFree(bs, contract, n);
    PromptIsInterleaved(task, json, n, bs, contract);
    SplitRecoversPieces(pieces, n);
    assert pieces[1..] == ps;
    DecodePrintedPieces(bs, contract);
  }

  /**
   The nonce-exact parser recovers the request, the sections in order, and the contract from
   the built prompt, whatever the untrusted texts contain.
   */
  lemma FramingRoundTrip(
    task: string, request: Option<string>, json: string, sections: seq<Section>, contract: string,
    n: string, detect: string -> seq<Finding>)
    requires NonceOk(n) && Absent(UntrustedValues(request, sections), n)
    requires ApplicationPartsFree(task, json, sections, contract, n)
    ensures Parse(Prompt(task, json, n, UserBlocks(request, detect) + SectionBlocks(sections, detect), contract), n) ==
            Some(Parsed(
              if request.None? then None else Some(Minimized(request.value, detect)),
              MinimizedSections(sections, detect), contract))
  {
    var user, context := UserBlocks(request, detect), SectionBlocks(sections, detect);
    PrintedBlocksFree(request, sections, detect, n);
    PiecesComeBack(task, json, n, user + context, contract);
    var asked := if request.None? then None else Some(Minimized(request.value, detect));
    ParsePrinted(asked, MinimizedSections(sections, detect), user, context);
  }

  /** Serialised identifiers are one line: line feeds in texts are escaped. */
  predicate OneLine(s: string) {
    forall i :: 0 <= i < |s| ==> s[i] != '\n'
  }

  lemma {:induction false} LastLineIsLast(before: string, line: string)
    requires OneLine(line) && before != "" && before[|before| - 1] == '\n'
    ensures LastLine(before + line) == line
    decreases |line|
  {
    if line == "" {
      assert before + line == before;
    } else {
      var n := |line| - 1;
      LastLineIsLast(before, line[..n]);
      assert (before + line)[..|before + line| - 1] == before + line[..n];
    }
  }

  lemma Regrouped(a: string, task: string, ids: string, json: string, b: string)
    ensures a + task + ids + json + b == a + (task + ids + json) + b
  {
  }

  lemma HeadIsThreeParts(task: string, json: string)
    ensures HeadPiece(task, json) == TASK_LINE + (task + IDENTIFIERS_LINE + json) + NONCE_LINE
  {
    Regrouped(TASK_LINE, task, IDENTIFIERS_LINE, json, NONCE_LINE);
  }

  lemma MiddleComesBack(a: string, middle: string, b: string)
    ensures StartsWith(a + middle + b, a) && EndsWith(a + middle + b, b)
    ensures (a + middle + b)[|a|..|a + middle + b| - |b|] == middle
  {
  }

  lemma MiddleSplits(task: string, header: string, json: string)
    requires OneLine(json) && header != "" && header[|header| - 1] == '\n'
    ensures var middle := task + header + json;
            var rest := middle[..|middle| - |LastLine(middle)|];
            && LastLine(middle) == json && EndsWith(rest, header) && rest[..|rest| - |header|] == task
  {
    LastLineIsLast(task + header, json);
    assert (task + header + json)[..|task + header|] == task + header;
  }

  lemma HeadDecodes(task: string, json: string)
    requires OneLine(json)
    ensures DecodeHead(HeadPiece(task, json)) == Some(Head(task, json))
  {
    HeadIsThreeParts(task, json);
    MiddleComesBack(TASK_LINE, task + IDENTIFIERS_LINE + json, NONCE_LINE);
    MiddleSplits(task, IDENTIFIERS_LINE, json);
  }

  /** The parser also recovers the task and the identifiers, whatever task and untrusted texts hold. */
  lemma HeadRoundTrip(
    task: string, request: Option<string>, json: string, sections: seq<Section>, contract: string,
    n: string, detect: string -> seq<Finding>)
    requires NonceOk(n) && Absent(UntrustedValues(request, sections), n)
    requires ApplicationPartsFree(task, json, sections, contract, n) && OneLine(json)
    ensures ParseHead(Prompt(task, json, n, UserBlocks(request, detect) + SectionBlocks(sections, detect), contract), n)
            == Some(Head(task, json))
  {
    PrintedBlocksFree(request, sections, detect, n);
    PiecesComeBack(task, json, n, UserBlocks(request, detect) + SectionBlocks(sections, detect), contract);
    HeadDecodes(task, json);
  }

  // ---------------------------------------------------------------- the built prompt

  /** A trusted identifier: its key and its one or more values. */
  datatype Identifier = Identifier(key: string, values: seq<string>)

  predicate KeyOk(key: string) {
    && 1 <= |key| <= 64 && 'a' <= key[0] <= 'z'
    && forall i :: 0 <= i < |key| ==> 'a' <= key[i] <= 'z' || '0' <= key[i] <= '9' || key[i] == '_'
  }

  predicate IsWordChar(c: char) {
    c in {'a', 'b', 'c', 'd', 'e', 'f', 'g', 'h', 'i', 'j', 'k', 'l', 'm', 'n', 'o', 'p', 'q', 'r', 's', 't', 'u', 'v',
          'w', 'x', 'y', 'z', '0', '1', '2', '3', '4', '5', '6', '7', '8', '9', '_'}
  }

  /** A key is one small letter followed by at most 63 small letters, digits and underscores. */
  lemma KeysStartWithALetter(key: string)
    ensures KeyOk(key) <==>
            && key != "" && IsWordChar(key[0]) && !('0' <= key[0] <= '9') && key[0] != '_'
            && |key[1..]| <= 63 && forall c :: c in key[1..] ==> IsWordChar(c)
  {
    forall c: char ensures IsWordChar(c) <==> 'a' <= c <= 'z' || '0' <= c <= '9' || c == '_' {
      WordChars(c);
    }
    if key != "" && |key| <= 64 {
      forall i | 0 < i < |key| ensures key[i] in key[1..] {
        assert key[1..][i - 1] == key[i];
      }
      forall c | c in key[1..] ensures exists i :: 0 <= i < |key| && key[i] == c {
        var i :| 0 <= i < |key[1..]| && key[1..][i] == c;
        assert key[i + 1] == c;
      }
    }
  }

  lemma WordChars(c: char)
    ensures IsWordChar(c) <==> 'a' <= c <= 'z' || '0' <= c <= '9' || c == '_'
  {
  }

  predicate KeysOk(identifiers: seq<Identifier>) {
    forall i :: 0 <= i < |identifiers| ==> KeyOk(identifiers[i].key)
  }

  /** Some drawn nonce collides with no untrusted value. */
  predicate SomeDrawIsFree(request: Option<string>, sections: seq<Section>, draws: seq<string>) {
    exists k :: 0 <= k < |draws| && Absent(UntrustedValues(request, sections), draws[k])
  }

  method CheckKeys(identifiers: seq<Identifier>) returns (ok: bool)
    ensures ok <==> KeysOk(identifiers)
  {
    for k := 0 to |identifiers|
      invariant KeysOk(identifiers[..k])
    {
      if !KeyOk(identifiers[k].key) {
        return false;
      }
    }
    return true;
  }

  /**
   The prompt is built exactly when task and contract are not blank, every identifier key is well
   formed, a draw collides with nothing and every finding is valid; and then parsing it with its
   nonce gives back the redacted request, the sections in order and the contract.
   */
  method BuildIsolatedUserPrompt(
    task: string, request: Option<string>, identifiers: seq<Identifier>, sections: seq<Section>, contract: string,
    draws: seq<string>, detect: string -> seq<Finding>, serialize: seq<Identifier> -> string)
    returns (r: Result<string, PromptError>, nonce: string)
    requires |draws| == 8
    ensures r == Err(BlankTask) <==> Strip(task) == ""
    ensures Strip(task) != "" ==> (r == Err(BlankContract) <==> Strip(contract) == "")
    ensures Strip(task) != "" && Strip(contract) != "" ==>
              && (r == Err(BadIdentifierKey) <==> !KeysOk(identifiers))
              && (r == Err(NoCollisionFreeNonce) <==>
                  KeysOk(identifiers) && !SomeDrawIsFree(request, sections, draws))
              && (r.Ok? <==> KeysOk(identifiers) && SomeDrawIsFree(request, sections, draws)
                             && AllFindingsValid(request, sections, detect))
    ensures r.Ok? ==> nonce in draws && Absent(UntrustedValues(request, sections), nonce)
    ensures r.Ok? ==>
              r.value == Prompt(Strip(task), serialize(identifiers), nonce,
                                UserBlocks(request, detect) + SectionBlocks(sections, detect), Strip(contract))
    ensures r.Ok? && NonceOk(nonce)
            && ApplicationPartsFree(Strip(task), serialize(identifiers), sections, Strip(contract), nonce) ==>
              Parse(r.value, nonce) ==
              Some(Parsed(if request.None? then None else Some(Minimized(request.value, detect)),
                          MinimizedSections(sections, detect), Strip(contract)))
    ensures r.Ok? && NonceOk(nonce) && OneLine(serialize(identifiers))
            && ApplicationPartsFree(Strip(task), serialize(identifiers), sections, Strip(contract), nonce) ==>
              ParseHead(r.value, nonce) == Some(Head(Strip(task), serialize(identifiers)))
  {
    nonce := "";
    var normalizedTask, normalizedContract := Strip(task), Strip(contract);
    if normalizedTask == "" {
      return Err(BlankTask), nonce;
    }
    if normalizedContract == "" {
      return Err(BlankContract), nonce;
    }
    var keysOk := CheckKeys(identifiers);
    if !keysOk {
      return Err(BadIdentifierKey), nonce;
    }
    var drawn := NewBoundaryNonce(UntrustedValues(request, sections), draws);
    if drawn.Err? {
      return Err(drawn.error), nonce;
    }
    nonce := drawn.value;
    var json := serialize(identifiers);
    var printed := PrintParts(normalizedTask, request, json, sections, normalizedContract, nonce, detect);
    if printed.Err? {
      return Err(printed.error), nonce;
    }
    if NonceOk(nonce) && ApplicationPartsFree(normalizedTask, json, sections, normalizedContract, nonce) {
      FramingRoundTrip(normalizedTask, request, json, sections, normalizedContract, nonce, detect);
      if OneLine(json) {
        HeadRoundTrip(normalizedTask, request, json, sections, normalizedContract, nonce, detect);
      }
    }
    return Ok(Join(printed.value)), nonce;
  }
}
