/**
 Redaction of sensitive spans: validate the detector's findings, sort and merge them, rebuild
 the text. The reference definitions look only at which positions some finding covers.
 */
module Redaction {
  import opened Common

  datatype Finding = Finding(category: string, start: int, end: int)

  const PLACEHOLDER := "[REDACTED]"

  predicate CategoryOk(c: string) {
    1 <= |c| <= 32 && forall i :: 0 <= i < |c| ==> 'A' <= c[i] <= 'Z' || c[i] == '_'
  }

  predicate ValidFinding(f: Finding, n: nat) {
    0 <= f.start < f.end <= n && CategoryOk(f.category)
  }

  /** Out of the text, empty, or without a category of one to 32 capital letters and underscores. */
  predicate Malformed(f: Finding, n: nat) {
    || f.start < 0 || f.end > n || f.start >= f.end || f.category == "" || |f.category| > 32
    || exists i :: 0 <= i < |f.category| && f.category[i] != '_' && (f.category[i] < 'A' || f.category[i] > 'Z')
  }

  predicate AllValid(fs: seq<Finding>, n: nat) {
    forall k :: 0 <= k < |fs| ==> ValidFinding(fs[k], n)
  }

  predicate Covered(fs: seq<Finding>, i: int) {
    exists k :: 0 <= k < |fs| && fs[k].start <= i < fs[k].end
  }

  // ---------------------------------------------------------------- reference definitions

  /** Which positions of a text of length n some finding covers. */
  function Coverage(fs: seq<Finding>, n: nat): (cov: seq<bool>)
    ensures |cov| == n && forall i :: 0 <= i < n ==> (cov[i] <==> Covered(fs, i))
  {
    seq(n, i => Covered(fs, i))
  }

  /** Length-preserving form: an asterisk at every covered position, the text elsewhere. */
  function Masked(text: string, cov: seq<bool>): (m: string)
    requires |cov| == |text|
    ensures |m| == |text| && forall i :: 0 <= i < |text| ==> m[i] == if cov[i] then '*' else text[i]
  {
    seq(|text|, i requires 0 <= i < |text| => if cov[i] then '*' else text[i])
  }

  /** Placeholder form of the first k positions: one placeholder where a covered run begins. */
  function Erased(text: string, cov: seq<bool>, k: nat): string
    requires |cov| == |text| && k <= |text|
  {
    if k == 0 then ""
    else Erased(text, cov, k - 1) + Emitted(text, cov, k - 1)
  }

  function Emitted(text: string, cov: seq<bool>, i: nat): string
    requires |cov| == |text| && i < |text|
  {
    if !cov[i] then [text[i]]
    else if i == 0 || !cov[i - 1] then PLACEHOLDER
    else ""
  }

  function Redacted(text: string, fs: seq<Finding>, preserveLength: bool): string {
    var cov := Coverage(fs, |text|);
    if preserveLength then Masked(text, cov) else Erased(text, cov, |text|)
  }

  /** What the redaction of a text is: masked in place, or each covered run replaced, the rest kept. */
  lemma RedactionReplacesRuns(text: string, fs: seq<Finding>, lo: nat, hi: nat)
    requires lo < hi <= |text|
    ensures var cov := Coverage(fs, |text|);
            && (Redacted(text, fs, true) == Masked(text, cov)) && Redacted(text, fs, false) == Erased(text, cov, |text|)
            && Erased(text, cov, 0) == ""
            && ((forall i :: lo <= i < hi ==> !Covered(fs, i)) ==>
                  Erased(text, cov, hi) == Erased(text, cov, lo) + text[lo..hi])
            && ((forall i :: lo <= i < hi ==> Covered(fs, i)) && (lo == 0 || !Covered(fs, lo - 1)) ==>
                  Erased(text, cov, hi) == Erased(text, cov, lo) + "[REDACTED]")
  {
    var cov := Coverage(fs, |text|);
    if forall i :: lo <= i < hi ==> !Covered(fs, i) {
      ErasedKeepsUncovered(text, cov, lo, hi);
    } else if (forall i :: lo <= i < hi ==> Covered(fs, i)) && (lo == 0 || !Covered(fs, lo - 1)) {
      ErasedReplacesRun(text, cov, lo, hi);
    }
  }

  // ---------------------------------------------------------------- sorting

  predicate Before(a: Finding, b: Finding) {
    a.start < b.start || (a.start == b.start && a.end <= b.end)
  }

  predicate Sorted(fs: seq<Finding>) {
    forall i, j :: 0 <= i < j < |fs| ==> Before(fs[i], fs[j])
  }

  lemma InsertedOk(sorted: seq<Finding>, i: nat, f: Finding)
    requires Sorted(sorted) && i <= |sorted|
    requires forall j :: 0 <= j < i ==> Before(sorted[j], f)
    requires i < |sorted| ==> !Before(sorted[i], f)
    ensures Sorted(sorted[..i] + [f] + sorted[i..])
    ensures multiset(sorted[..i] + [f] + sorted[i..]) == multiset(sorted) + multiset{f}
  {
    assert sorted == sorted[..i] + sorted[i..];
    var out := sorted[..i] + [f] + sorted[i..];
    forall j, k | 0 <= j < k < |out| ensures Before(out[j], out[k]) {
      if k > i && i < |sorted| {
        assert sorted[i] == sorted[k - 1] || Before(sorted[i], sorted[k - 1]);
      }
    }
  }

  method SortFindings(fs: seq<Finding>) returns (sorted: seq<Finding>)
    ensures Sorted(sorted) && multiset(sorted) == multiset(fs)
  {
    sorted := [];
    for k := 0 to |fs|
      invariant Sorted(sorted) && multiset(sorted) == multiset(fs[..k])
    {
      var i := 0;
      while i < |sorted| && Before(sorted[i], fs[k])
        invariant 0 <= i <= |sorted|
        invariant forall j :: 0 <= j < i ==> Before(sorted[j], fs[k])
      {
        i := i + 1;
      }
      InsertedOk(sorted, i, fs[k]);
      assert fs[..k + 1] == fs[..k] + [fs[k]];
      sorted := sorted[..i] + [fs[k]] + sorted[i..];
    }
    assert fs[..|fs|] == fs;
  }

  lemma SameElementsSameCoverage(a: seq<Finding>, b: seq<Finding>, n: nat)
    requires forall f :: f in a <==> f in b
    ensures Coverage(a, n) == Coverage(b, n)
  {
    forall i | 0 <= i < n ensures Covered(a, i) <==> Covered(b, i) {
      if Covered(a, i) {
        var k :| 0 <= k < |a| && a[k].start <= i < a[k].end;
        assert a[k] in b;
      }
      if Covered(b, i) {
        var k :| 0 <= k < |b| && b[k].start <= i < b[k].end;
        assert b[k] in a;
      }
    }
  }

  lemma SameMultisetSameElements(a: seq<Finding>, b: seq<Finding>)
    requires multiset(a) == multiset(b)
    ensures forall f :: f in a <==> f in b
  {
    forall f ensures f in a <==> f in b {
      assert f in multiset(a) <==> f in multiset(b);
    }
  }

  /** Reordering or repeating findings never changes the result, in either form. */
  lemma OrderAndRepetitionDoNotMatter(text: string, a: seq<Finding>, b: seq<Finding>, preserveLength: bool)
    requires forall f :: f in a <==> f in b
    ensures Redacted(text, a, preserveLength) == Redacted(text, b, preserveLength)
  {
    SameElementsSameCoverage(a, b, |text|);
  }

  // ---------------------------------------------------------------- merging

  datatype Span = Span(lo: int, hi: int)

  predicate InSpans(spans: seq<Span>, i: int) {
    exists k :: 0 <= k < |spans| && spans[k].lo <= i < spans[k].hi
  }

  /** Non-empty spans in increasing order with at least one position between neighbours. */
  predicate Canonical(spans: seq<Span>) {
    && (forall k :: 0 <= k < |spans| ==> spans[k].lo < spans[k].hi)
    && (forall j, k :: 0 <= j < k < |spans| ==> spans[j].hi < spans[k].lo)
  }

  /** One round of the merge loop: extend the last span when the finding starts inside or right after it. */
  function MergeOne(merged: seq<Span>, f: Finding): seq<Span> {
    var last := |merged| - 1;
    if merged != [] && f.start <= merged[last].hi
    then merged[..last] + [Span(merged[last].lo, Max(merged[last].hi, f.end))]
    else merged + [Span(f.start, f.end)]
  }

  lemma MergeOneOk(merged: seq<Span>, f: Finding)
    requires Canonical(merged) && f.start < f.end
    requires merged != [] ==> merged[|merged| - 1].lo <= f.start
    ensures Canonical(MergeOne(merged, f))
    ensures forall i :: InSpans(MergeOne(merged, f), i) <==> InSpans(merged, i) || f.start <= i < f.end
  {
    var out := MergeOne(merged, f);
    var last := |merged| - 1;
    var joined := merged != [] && f.start <= merged[last].hi;
    assert forall j :: 0 <= j < (if joined then last else last + 1) ==> out[j] == merged[j];
    forall i ensures InSpans(out, i) <==> InSpans(merged, i) || f.start <= i < f.end {
      assert out[|out| - 1] == if joined then Span(merged[last].lo, Max(merged[last].hi, f.end)) else Span(f.start, f.end);
      if InSpans(merged, i) {
        var k :| 0 <= k < |merged| && merged[k].lo <= i < merged[k].hi;
        assert out[k].lo <= i < out[k].hi;
      }
    }
  }

  /** After `k` findings: canonical, with the same union, and not past the next finding's start. */
  ghost predicate Merges(merged: seq<Span>, sorted: seq<Finding>, k: nat) {
    && k <= |sorted|
    && Canonical(merged)
    && (forall i :: InSpans(merged, i) <==> Covered(sorted[..k], i))
    && (merged != [] && k < |sorted| ==> merged[|merged| - 1].lo <= sorted[k].start)
  }

  lemma MergeRound(merged: seq<Span>, sorted: seq<Finding>, k: nat)
    requires Merges(merged, sorted, k) && k < |sorted| && sorted[k].start < sorted[k].end
    requires k + 1 < |sorted| ==> sorted[k].start <= sorted[k + 1].start
    ensures Merges(MergeOne(merged, sorted[k]), sorted, k + 1)
  {
    MergeOneOk(merged, sorted[k]);
    ExtendCoverage(sorted[..k], sorted[k]);
    assert sorted[..k + 1] == sorted[..k] + [sorted[k]];
  }

  method MergeSpans(sorted: seq<Finding>) returns (merged: seq<Span>)
    requires Sorted(sorted)
    requires forall k :: 0 <= k < |sorted| ==> sorted[k].start < sorted[k].end
    ensures Canonical(merged)
    ensures forall i :: InSpans(merged, i) <==> Covered(sorted, i)
  {
    merged := [];
    for k := 0 to |sorted|
      invariant Merges(merged, sorted, k)
    {
      ghost var next := MergeOne(merged, sorted[k]);
      MergeRound(merged, sorted, k);
      var last := |merged| - 1;
      if merged != [] && sorted[k].start <= merged[last].hi {
        merged := merged[..last] + [Span(merged[last].lo, Max(merged[last].hi, sorted[k].end))];
      } else {
        merged := merged + [Span(sorted[k].start, sorted[k].end)];
      }
      assert merged == next;
    }
    assert sorted[..|sorted|] == sorted;
  }

  lemma ExtendCoverage(fs: seq<Finding>, f: Finding)
    ensures forall i :: Covered(fs + [f], i) <==> Covered(fs, i) || f.start <= i < f.end
  {
    forall i ensures Covered(fs + [f], i) <==> Covered(fs, i) || f.start <= i < f.end {
      if Covered(fs, i) {
        var k :| 0 <= k < |fs| && fs[k].start <= i < fs[k].end;
        assert (fs + [f])[k] == fs[k];
      }
      assert (fs + [f])[|fs|] == f;
    }
  }

  lemma FirstSpanIsCovered(a: seq<Span>)
    requires Canonical(a) && a != []
    ensures InSpans(a, a[0].lo)
  {
    assert a[0].lo <= a[0].lo < a[0].hi;
  }

  lemma TailsAgree(a: seq<Span>, b: seq<Span>)
    requires Canonical(a) && Canonical(b) && a != [] && b != [] && a[0] == b[0]
    requires forall i :: InSpans(a, i) <==> InSpans(b, i)
    ensures forall i :: InSpans(a[1..], i) <==> InSpans(b[1..], i)
  {
    forall i ensures InSpans(a[1..], i) <==> InSpans(b[1..], i) {
      TailSpans(a, i);
      TailSpans(b, i);
    }
  }

  /** There is only one canonical list of spans with a given union. */
  lemma {:induction false} CanonicalSpansAreUnique(a: seq<Span>, b: seq<Span>)
    requires Canonical(a) && Canonical(b)
    requires forall i :: InSpans(a, i) <==> InSpans(b, i)
    ensures a == b
    decreases |a|
  {
    if a != [] {
      FirstSpanIsCovered(a);
    }
    if b != [] {
      FirstSpanIsCovered(b);
    }
    if a != [] && b != [] {
      FirstSpansAgree(a, b);
      FirstSpansAgree(b, a);
      TailsAgree(a, b);
      CanonicalSpansAreUnique(a[1..], b[1..]);
      assert a == [a[0]] + a[1..] && b == [b[0]] + b[1..];
    }
  }

  lemma FirstSpansAgree(a: seq<Span>, b: seq<Span>)
    requires Canonical(a) && Canonical(b) && a != [] && b != []
    requires forall i :: InSpans(a, i) <==> InSpans(b, i)
    ensures b[0].lo <= a[0].lo && (a[0].lo == b[0].lo ==> a[0].hi <= b[0].hi)
  {
    assert InSpans(a, a[0].lo);
    var k :| 0 <= k < |b| && b[k].lo <= a[0].lo < b[k].hi;
    assert b[0].lo <= b[k].lo;
    FirstSpanIsMaximal(b);
    assert !InSpans(a, b[0].hi);
    assert !(a[0].lo <= b[0].hi < a[0].hi);
  }

  lemma FirstSpanIsMaximal(b: seq<Span>)
    requires Canonical(b) && b != []
    ensures !InSpans(b, b[0].hi)
  {
    forall k | 0 <= k < |b| ensures !(b[k].lo <= b[0].hi < b[k].hi) {
      if k > 0 {
        assert b[0].hi < b[k].lo;
      }
    }
  }

  lemma TailSpans(a: seq<Span>, i: int)
    requires Canonical(a) && a != []
    ensures InSpans(a[1..], i) <==> InSpans(a, i) && i >= a[0].hi
  {
    if InSpans(a[1..], i) {
      var k :| 0 <= k < |a[1..]| && a[1..][k].lo <= i < a[1..][k].hi;
      assert a[k + 1].lo <= i < a[k + 1].hi;
    }
    if InSpans(a, i) && i >= a[0].hi {
      var k :| 0 <= k < |a| && a[k].lo <= i < a[k].hi;
      assert a[1..][k - 1] == a[k];
    }
  }

  // ---------------------------------------------------------------- rebuilding

  lemma {:induction false} ErasedKeepsUncovered(text: string, cov: seq<bool>, lo: nat, hi: nat)
    requires |cov| == |text| && lo <= hi <= |text|
    requires forall i :: lo <= i < hi ==> !cov[i]
    ensures Erased(text, cov, hi) == Erased(text, cov, lo) + text[lo..hi]
    decreases hi
  {
    if lo < hi {
      ErasedKeepsUncovered(text, cov, lo, hi - 1);
      assert text[lo..hi] == text[lo..hi - 1] + [text[hi - 1]];
    }
  }

  lemma {:induction false} ErasedReplacesRun(text: string, cov: seq<bool>, lo: nat, hi: nat)
    requires |cov| == |text| && lo < hi <= |text|
    requires forall i :: lo <= i < hi ==> cov[i]
    requires lo == 0 || !cov[lo - 1]
    ensures Erased(text, cov, hi) == Erased(text, cov, lo) + "[REDACTED]"
    decreases hi
  {
    if lo + 1 < hi {
      ErasedReplacesRun(text, cov, lo, hi - 1);
    }
  }

  function Asterisks(n: nat): (s: string)
    ensures |s| == n && forall i :: 0 <= i < n ==> s[i] == '*'
  {
    seq(n, i => '*')
  }

  datatype RedactionError = InvalidFinding

  /** Validate the findings, sort and merge them, then rebuild the text around the merged spans. */
  method Redact(text: string, findings: seq<Finding>, preserveLength: bool)
    returns (r: Result<string, RedactionError>)
    ensures r.Ok? <==> AllValid(findings, |text|)
    ensures r.Err? <==> exists k :: 0 <= k < |findings| && Malformed(findings[k], |text|)
    ensures r.Ok? ==> r.value == Redacted(text, findings, preserveLength)
  {
    for k := 0 to |findings|
      invariant AllValid(findings[..k], |text|)
    {
      if !ValidFinding(findings[k], |text|) {
        assert Malformed(findings[k], |text|);
        return Err(InvalidFinding);
      }
    }
    var sorted := SortFindings(findings);
    SameMultisetSameElements(sorted, findings);
    assert forall k :: 0 <= k < |sorted| ==> sorted[k] in findings;
    var merged := MergeSpans(sorted);
    ghost var cov := Coverage(findings, |text|);
    SpansInsideText(sorted, merged, |text|);
    SameElementsSameCoverage(sorted, findings, |text|);
    assert forall i :: 0 <= i < |text| ==> (cov[i] <==> InSpans(merged, i)) by {
      assert cov == Coverage(sorted, |text|);
    }
    var out := Rebuild(text, merged, cov, preserveLength);
    assert Masked(text, cov)[..|text|] == Masked(text, cov);
    return Ok(out);
  }

  lemma SpansInsideText(sorted: seq<Finding>, merged: seq<Span>, n: nat)
    requires forall k :: 0 <= k < |sorted| ==> 0 <= sorted[k].start < sorted[k].end <= n
    requires Canonical(merged)
    requires forall i :: InSpans(merged, i) <==> Covered(sorted, i)
    ensures forall k :: 0 <= k < |merged| ==> 0 <= merged[k].lo && merged[k].hi <= n
  {
    forall k | 0 <= k < |merged| ensures 0 <= merged[k].lo && merged[k].hi <= n {
      assert InSpans(merged, merged[k].lo) && InSpans(merged, merged[k].hi - 1);
      assert Covered(sorted, merged[k].lo) && Covered(sorted, merged[k].hi - 1);
    }
  }

  /** What the rebuilt text must be after the first `k` positions. */
  function RedactedUpTo(text: string, cov: seq<bool>, preserveLength: bool, k: nat): string
    requires |cov| == |text| && k <= |text|
  {
    if preserveLength then Masked(text, cov)[..k] else Erased(text, cov, k)
  }

  lemma KeepGap(text: string, cov: seq<bool>, preserveLength: bool, lo: nat, hi: nat)
    requires |cov| == |text| && lo <= hi <= |text|
    requires forall i :: lo <= i < hi ==> !cov[i]
    ensures RedactedUpTo(text, cov, preserveLength, hi) ==
            RedactedUpTo(text, cov, preserveLength, lo) + text[lo..hi]
  {
    if preserveLength {
      assert Masked(text, cov)[..hi] == Masked(text, cov)[..lo] + Masked(text, cov)[lo..hi];
      assert Masked(text, cov)[lo..hi] == text[lo..hi];
    } else {
      ErasedKeepsUncovered(text, cov, lo, hi);
    }
  }

  lemma ReplaceSpan(text: string, cov: seq<bool>, preserveLength: bool, lo: nat, hi: nat)
    requires |cov| == |text| && lo < hi <= |text|
    requires forall i :: lo <= i < hi ==> cov[i]
    requires lo == 0 || !cov[lo - 1]
    ensures RedactedUpTo(text, cov, preserveLength, hi) ==
            RedactedUpTo(text, cov, preserveLength, lo) +
            (if preserveLength then Asterisks(hi - lo) else PLACEHOLDER)
  {
    if preserveLength {
      assert Masked(text, cov)[..hi] == Masked(text, cov)[..lo] + Masked(text, cov)[lo..hi];
      assert Masked(text, cov)[lo..hi] == Asterisks(hi - lo);
    } else {
      ErasedReplacesRun(text, cov, lo, hi);
    }
  }

  function Replacement(span: Span, preserveLength: bool): string
    requires span.lo <= span.hi
  {
    if preserveLength then Asterisks(span.hi - span.lo) else PLACEHOLDER
  }

  lemma RebuildStep(text: string, merged: seq<Span>, cov: seq<bool>, preserveLength: bool, k: nat, position: nat)
    requires |cov| == |text| && Canonical(merged) && k < |merged|
    requires forall j :: 0 <= j < |merged| ==> 0 <= merged[j].lo && merged[j].hi <= |text|
    requires forall i :: 0 <= i < |text| ==> (cov[i] <==> InSpans(merged, i))
    requires position == if k == 0 then 0 else merged[k - 1].hi
    ensures position <= merged[k].lo
    ensures RedactedUpTo(text, cov, preserveLength, merged[k].hi) ==
            RedactedUpTo(text, cov, preserveLength, position) + text[position..merged[k].lo] +
            Replacement(merged[k], preserveLength)
  {
    var start, end := merged[k].lo, merged[k].hi;
    GapBeforeSpan(merged, k, position);
    KeepGap(text, cov, preserveLength, position, start);
    ReplaceSpan(text, cov, preserveLength, start, end);
  }

  method Rebuild(text: string, merged: seq<Span>, ghost cov: seq<bool>, preserveLength: bool) returns (out: string)
    requires |cov| == |text| && Canonical(merged)
    requires forall k :: 0 <= k < |merged| ==> 0 <= merged[k].lo && merged[k].hi <= |text|
    requires forall i :: 0 <= i < |text| ==> (cov[i] <==> InSpans(merged, i))
    ensures out == RedactedUpTo(text, cov, preserveLength, |text|)
  {
    out := "";
    var position := 0;
    for k := 0 to |merged|
      invariant 0 <= position <= |text|
      invariant position == if k == 0 then 0 else merged[k - 1].hi
      invariant out == RedactedUpTo(text, cov, preserveLength, position)
    {
      RebuildStep(text, merged, cov, preserveLength, k, position);
      out := out + text[position..merged[k].lo] + Replacement(merged[k], preserveLength);
      position := merged[k].hi;
    }
    GapAfterSpans(merged, position);
    KeepGap(text, cov, preserveLength, position, |text|);
    assert text[position..|text|] == text[position..];
    out := out + text[position..];
  }

  lemma GapBeforeSpan(merged: seq<Span>, k: nat, position: int)
    requires Canonical(merged) && k < |merged| && 0 <= merged[0].lo
    requires position == if k == 0 then 0 else merged[k - 1].hi
    ensures position <= merged[k].lo && (k > 0 ==> position < merged[k].lo)
    ensures forall i :: position <= i < merged[k].lo ==> !InSpans(merged, i)
    ensures forall i :: merged[k].lo <= i < merged[k].hi ==> InSpans(merged, i)
  {
    forall i | position <= i < merged[k].lo ensures !InSpans(merged, i) {
      forall j | 0 <= j < |merged| ensures !(merged[j].lo <= i < merged[j].hi) {
        if j < k - 1 {
          assert merged[j].hi < merged[k - 1].lo;
        } else if j > k {
          assert merged[k].hi < merged[j].lo;
        }
      }
    }
  }

  lemma GapAfterSpans(merged: seq<Span>, position: int)
    requires Canonical(merged)
    requires position == if merged == [] then 0 else merged[|merged| - 1].hi
    ensures forall i :: position <= i ==> !InSpans(merged, i)
  {
    forall i | position <= i ensures !InSpans(merged, i) {
      forall j | 0 <= j < |merged| ensures !(merged[j].lo <= i < merged[j].hi) {
        if j < |merged| - 1 {
          assert merged[j].hi < merged[|merged| - 1].lo;
        }
      }
    }
  }

  // ---------------------------------------------------------------- what redaction cannot create

  predicate OccursAt(s: string, w: string, p: int) {
    0 <= p <= |s| - |w| && s[p..p + |w|] == w
  }

  predicate Contains(s: string, w: string) {
    exists p :: 0 <= p <= |s| && OccursAt(s, w, p)
  }

  predicate LowerHex(c: char) {
    '0' <= c <= '9' || 'a' <= c <= 'f'
  }

  predicate AllHex(s: string) {
    forall i :: 0 <= i < |s| ==> LowerHex(s[i])
  }

  function Unknown(n: nat): (o: seq<int>)
    ensures |o| == n && forall i :: 0 <= i < n ==> o[i] == -1
  {
    seq(n, i => -1)
  }

  /** Where each character of the placeholder form came from; -1 inside a placeholder. */
  ghost function Origins(text: string, cov: seq<bool>, k: nat): (o: seq<int>)
    requires |cov| == |text| && k <= |text|
    ensures |o| == |Erased(text, cov, k)|
  {
    if k == 0 then [] else Origins(text, cov, k - 1) + EmittedOrigins(text, cov, k - 1)
  }

  ghost function EmittedOrigins(text: string, cov: seq<bool>, i: nat): (o: seq<int>)
    requires |cov| == |text| && i < |text|
    ensures |o| == |Emitted(text, cov, i)|
  {
    if !cov[i] then [i as int] else Unknown(|Emitted(text, cov, i)|)
  }

  /** Kept characters are the text's own, and neighbours in the result were neighbours in it. */
  ghost predicate Explained(text: string, out: string, o: seq<int>, k: int) {
    && |o| == |out| && 0 <= k <= |text|
    && (forall p :: 0 <= p < |o| ==> -1 <= o[p] < k)
    && (forall p :: 0 <= p < |o| && o[p] >= 0 ==> out[p] == text[o[p]])
    && (forall p :: 0 <= p < |o| && o[p] < 0 ==> !LowerHex(out[p]))
    && (forall p :: 0 < p < |o| && o[p - 1] >= 0 && o[p] >= 0 ==> o[p] == o[p - 1] + 1)
  }

  lemma ExplainKept(text: string, out: string, o: seq<int>, k: nat)
    requires k < |text| && Explained(text, out, o, k)
    requires o != [] ==> o[|o| - 1] < 0 || o[|o| - 1] == k - 1
    ensures Explained(text, out + [text[k]], o + [k], k + 1)
  {
  }

  lemma ReplacementsAreNotHex(text: string, cov: seq<bool>, i: nat)
    requires |cov| == |text| && i < |text| && cov[i]
    ensures Emitted(text, cov, i) == if i == 0 || !cov[i - 1] then PLACEHOLDER else ""
    ensures forall j :: 0 <= j < |Emitted(text, cov, i)| ==> !LowerHex(Emitted(text, cov, i)[j])
  {
  }

  lemma ExplainReplaced(text: string, out: string, o: seq<int>, k: nat, added: string)
    requires k < |text| && Explained(text, out, o, k)
    requires forall i :: 0 <= i < |added| ==> !LowerHex(added[i])
    ensures Explained(text, out + added, o + Unknown(|added|), k + 1)
  {
  }

  /** The last origin is the last position read, or -1 when that position was covered. */
  ghost predicate EndsLike(o: seq<int>, cov: seq<bool>, k: nat) {
    0 < k <= |cov| ==> o != [] && o[|o| - 1] == if cov[k - 1] then -1 else k - 1
  }

  lemma ExplainStep(text: string, cov: seq<bool>, out: string, o: seq<int>, k: nat)
    requires |cov| == |text| && k < |text|
    requires Explained(text, out, o, k) && EndsLike(o, cov, k)
    ensures Explained(text, out + Emitted(text, cov, k), o + EmittedOrigins(text, cov, k), k + 1)
    ensures EndsLike(o + EmittedOrigins(text, cov, k), cov, k + 1)
  {
    if cov[k] {
      ReplacementsAreNotHex(text, cov, k);
      ExplainReplaced(text, out, o, k, Emitted(text, cov, k));
    } else {
      ExplainKept(text, out, o, k);
    }
  }

  lemma {:induction false} OriginsExplain(text: string, cov: seq<bool>, k: nat)
    requires |cov| == |text| && k <= |text|
    ensures Explained(text, Erased(text, cov, k), Origins(text, cov, k), k)
    ensures EndsLike(Origins(text, cov, k), cov, k)
    decreases k
  {
    if k > 0 {
      OriginsExplain(text, cov, k - 1);
      ExplainStep(text, cov, Erased(text, cov, k - 1), Origins(text, cov, k - 1), k - 1);
    }
  }

  lemma OccurrenceIsPointwise(s: string, w: string, p: int)
    requires 0 <= p <= |s| - |w|
    ensures OccursAt(s, w, p) <==> forall i :: 0 <= i < |w| ==> s[p + i] == w[i]
  {
    if OccursAt(s, w, p) {
      forall i | 0 <= i < |w| ensures s[p + i] == w[i] {
        assert s[p..p + |w|][i] == w[i];
      }
    }
  }

  lemma MaskingCreatesNoHexWord(text: string, cov: seq<bool>, w: string)
    requires |cov| == |text| && w != [] && AllHex(w) && Contains(Masked(text, cov), w)
    ensures Contains(text, w)
  {
    var out := Masked(text, cov);
    var p :| 0 <= p <= |out| && OccursAt(out, w, p);
    OccurrenceIsPointwise(out, w, p);
    OccurrenceIsPointwise(text, w, p);
    forall i | 0 <= i < |w| ensures text[p + i] == w[i] {
      assert LowerHex(w[i]) && out[p + i] == w[i];
    }
  }

  lemma HexWordIsVerbatim(text: string, out: string, o: seq<int>, w: string)
    requires Explained(text, out, o, |text|) && Contains(out, w) && w != [] && AllHex(w)
    ensures Contains(text, w)
  {
    var p :| 0 <= p <= |out| && OccursAt(out, w, p);
    OccurrenceIsPointwise(out, w, p);
    HexWindowIsVerbatim(text, out, o, w, p, |w| - 1);
    assert -1 <= o[p + (|w| - 1)] < |text|;
    OccurrenceIsPointwise(text, w, o[p]);
    forall i | 0 <= i < |w| ensures text[o[p] + i] == w[i] {
      HexWindowIsVerbatim(text, out, o, w, p, i);
    }
  }

  /** A lower-case hex word absent from a text is absent from both redacted forms of it. */
  lemma RedactionCreatesNoHexWord(text: string, fs: seq<Finding>, preserveLength: bool, w: string)
    requires w != [] && AllHex(w) && !Contains(text, w)
    ensures !Contains(Redacted(text, fs, preserveLength), w)
  {
    var cov := Coverage(fs, |text|);
    if Contains(Redacted(text, fs, preserveLength), w) {
      if preserveLength {
        MaskingCreatesNoHexWord(text, cov, w);
      } else {
        OriginsExplain(text, cov, |text|);
        HexWordIsVerbatim(text, Erased(text, cov, |text|), Origins(text, cov, |text|), w);
      }
    }
  }

  lemma {:induction false} HexWindowIsVerbatim(text: string, out: string, o: seq<int>, w: string, p: nat, i: nat)
    requires Explained(text, out, o, |text|) && p + |w| <= |out| && AllHex(w) && i < |w|
    requires forall j :: 0 <= j < |w| ==> out[p + j] == w[j]
    ensures o[p] >= 0 && o[p + i] == o[p] + i && text[o[p] + i] == w[i]
    decreases i
  {
    assert LowerHex(out[p + i]) by {
      assert out[p + i] == w[i];
    }
    if i > 0 {
      HexWindowIsVerbatim(text, out, o, w, p, i - 1);
      assert o[p + i - 1] >= 0 && o[p + i] >= 0;
    }
  }
}
