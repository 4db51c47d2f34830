/**
 The scheduled recovery run: keyset pagination over organisations, the bounded batch of approvals
 of each, and the counters it reports.
 */
module RecoveryWorker {
  import opened Common

  const ORGANIZATION_LIMIT := 500
  const APPROVAL_BATCH_SIZE := 25

  datatype Attempt = Resumed | NotResumed | Raised

  datatype Report = Report(organizations: nat, candidates: nat, delivered: nat, failed: nat)

  predicate StrictlyAscending(s: seq<nat>) {
    forall i, j :: 0 <= i < j < |s| ==> s[i] < s[j]
  }

  predicate Below(t: seq<nat>, bound: nat) {
    forall i :: 0 <= i < |t| ==> t[i] < bound
  }

  /** The part of a table after an identifier. */
  function Above(t: seq<nat>, after: Option<nat>): seq<nat> {
    if t == [] then []
    else
      var rest := Above(t[..|t| - 1], after);
      if after.None? || t[|t| - 1] > after.value then rest + [t[|t| - 1]] else rest
  }

  lemma {:induction false} AboveMembers(t: seq<nat>, after: Option<nat>, x: nat)
    ensures x in Above(t, after) <==> x in t && (after.None? || x > after.value)
    decreases |t|
  {
    if t != [] {
      var n := |t| - 1;
      AboveMembers(t[..n], after, x);
      assert t == t[..n] + [t[n]];
    }
  }

  lemma {:induction false} AboveIsSorted(t: seq<nat>, after: Option<nat>)
    requires StrictlyAscending(t)
    ensures StrictlyAscending(Above(t, after))
    decreases |t|
  {
    if t != [] {
      var n := |t| - 1;
      var rest := Above(t[..n], after);
      AboveIsSorted(t[..n], after);
      forall i | 0 <= i < |rest| ensures rest[i] < t[n] {
        AboveMembers(t[..n], after, rest[i]);
        assert rest[i] in t[..n];
      }
    }
  }

  lemma AboveIsTheRest(t: seq<nat>, after: Option<nat>)
    requires StrictlyAscending(t)
    ensures StrictlyAscending(Above(t, after))
    ensures forall x :: x in Above(t, after) <==> x in t && (after.None? || x > after.value)
  {
    AboveIsSorted(t, after);
    forall x: nat ensures x in Above(t, after) <==> x in t && (after.None? || x > after.value) {
      AboveMembers(t, after, x);
    }
  }

  /** One page: the first `limit` identifiers after the last one seen. */
  function Page(t: seq<nat>, after: Option<nat>, limit: nat): seq<nat> {
    var above := Above(t, after);
    above[..Min(|above|, limit)]
  }

  function Count(attempts: seq<Attempt>, a: Attempt): nat {
    if attempts == [] then 0 else Count(attempts[..|attempts| - 1], a) + (if attempts[|attempts| - 1] == a then 1 else 0)
  }

  /** The approvals one visit takes on: the first ones its organisation lists. */
  function Batch(work: nat -> seq<Attempt>, org: nat): seq<Attempt> {
    work(org)[..Min(|work(org)|, APPROVAL_BATCH_SIZE)]
  }

  /** All attempts of a run, organisation after organisation. */
  function AllAttempts(visited: seq<nat>, work: nat -> seq<Attempt>): seq<Attempt> {
    if visited == [] then [] else AllAttempts(visited[..|visited| - 1], work) + Batch(work, visited[|visited| - 1])
  }

  lemma {:induction false} CountConcatenates(a: seq<Attempt>, b: seq<Attempt>, x: Attempt)
    ensures Count(a + b, x) == Count(a, x) + Count(b, x)
    decreases |b|
  {
    if b == [] {
      assert a + b == a;
    } else {
      CountConcatenates(a, b[..|b| - 1], x);
      assert (a + b)[..|a + b| - 1] == a + b[..|b| - 1];
    }
  }

  /** The batch of one organisation: one failure does not stop the others. */
  method VisitOne(attempts: seq<Attempt>) returns (delivered: nat, failed: nat)
    ensures delivered == Count(attempts, Resumed) && failed == Count(attempts, Raised)
    ensures delivered == multiset(attempts)[Resumed] && failed == multiset(attempts)[Raised]
    ensures delivered + failed <= |attempts|
  {
    delivered, failed := 0, 0;
    for k := 0 to |attempts|
      invariant delivered == Count(attempts[..k], Resumed) && failed == Count(attempts[..k], Raised)
      invariant delivered + failed <= k
    {
      assert attempts[..k + 1][..k] == attempts[..k];
      if attempts[k] == Raised {
        failed := failed + 1;
      } else if attempts[k] == Resumed {
        delivered := delivered + 1;
      }
    }
    assert attempts[..|attempts|] == attempts;
    CountIsMultiplicity(attempts, Resumed);
    CountIsMultiplicity(attempts, Raised);
  }

  /** The run reports the attempts of the visited organisations: each failure counted, none hidden. */
  predicate Reports(r: Report, visited: seq<nat>, work: nat -> seq<Attempt>) {
    var all := AllAttempts(visited, work);
    r.organizations == |visited| && r.candidates == |all|
    && r.delivered == Count(all, Resumed) && r.failed == Count(all, Raised)
  }

  lemma ReportGrows(r: Report, visited: seq<nat>, work: nat -> seq<Attempt>, org: nat)
    requires Reports(r, visited, work)
    ensures Reports(Report(r.organizations + 1, r.candidates + |Batch(work, org)|,
                           r.delivered + Count(Batch(work, org), Resumed), r.failed + Count(Batch(work, org), Raised)),
                    visited + [org], work)
  {
    assert (visited + [org])[..|visited|] == visited;
    CountConcatenates(AllAttempts(visited, work), Batch(work, org), Resumed);
    CountConcatenates(AllAttempts(visited, work), Batch(work, org), Raised);
  }

  method VisitPage(page: seq<nat>, work: nat -> seq<Attempt>, start: Report, ghost visited: seq<nat>)
    returns (r: Report)
    requires Reports(start, visited, work)
    ensures Reports(r, visited + page, work)
  {
    r := start;
    assert visited + page[..0] == visited;
    for k := 0 to |page|
      invariant Reports(r, visited + page[..k], work)
    {
      var batch := Batch(work, page[k]);
      var delivered, failed := VisitOne(batch);
      ReportGrows(r, visited + page[..k], work, page[k]);
      assert visited + page[..k + 1] == (visited + page[..k]) + [page[k]];
      r := Report(r.organizations + 1, r.candidates + |batch|, r.delivered + delivered, r.failed + failed);
    }
    assert page[..|page|] == page;
  }

  predicate Ends(visited: seq<nat>, after: Option<nat>) {
    if visited == [] then after.None? else after == Some(visited[|visited| - 1])
  }

  /** Present at every page query of the run. */
  ghost predicate Throughout(tables: nat -> seq<nat>, x: nat) {
    forall k: nat :: x in tables(k)
  }

  ghost predicate AtSomeTime(tables: nat -> seq<nat>, x: nat) {
    exists k: nat :: x in tables(k)
  }

  ghost predicate AllExist(visited: seq<nat>, tables: nat -> seq<nat>) {
    forall i :: 0 <= i < |visited| ==> AtSomeTime(tables, visited[i])
  }

  ghost predicate Complete(visited: seq<nat>, tables: nat -> seq<nat>) {
    forall x: nat :: Throughout(tables, x) ==> x in visited
  }

  /** Everything in every table up to the last identifier seen has been visited. */
  ghost predicate CoveredUpTo(visited: seq<nat>, tables: nat -> seq<nat>, after: Option<nat>) {
    after.Some? ==> forall x: nat :: Throughout(tables, x) && x <= after.value ==> x in visited
  }

  ghost predicate Progress(visited: seq<nat>, tables: nat -> seq<nat>, after: Option<nat>, bound: nat) {
    && StrictlyAscending(visited) && Ends(visited, after)
    && (after.Some? ==> after.value < bound)
    && AllExist(visited, tables) && CoveredUpTo(visited, tables, after)
  }

  /**
   The run over tables that may change from one page query to the next: organisations are visited in
   ascending order, so none twice; one that is present throughout is visited; and the counters are
   those of exactly the visited ones. Identifiers are below some bound (they are 128-bit).
   */
  method Run(tables: nat -> seq<nat>, work: nat -> seq<Attempt>, ghost bound: nat)
    returns (r: Report, visited: seq<nat>)
    requires forall k: nat :: StrictlyAscending(tables(k)) && Below(tables(k), bound)
    ensures StrictlyAscending(visited)
    ensures Complete(visited, tables) && AllExist(visited, tables)
    ensures (forall k: nat :: tables(k) == tables(0)) ==> visited == tables(0)
    ensures Reports(r, visited, work)
    ensures r.candidates == CandidateTotal(visited, work)
  {
    r, visited := Report(0, 0, 0, 0), [];
    var after: Option<nat> := None;
    var query: nat := 0;
    while true
      invariant Progress(visited, tables, after, bound)
      invariant Reports(r, visited, work)
      decreases if after.None? then bound + 1 else bound - after.value
    {
      var table := tables(query);
      var page := Page(table, after, ORGANIZATION_LIMIT);
      query := query + 1;
      if page == [] {
        LastPageCovers(visited, tables, after, query - 1, page);
        break;
      }
      r := VisitPage(page, work, r, visited);
      PageExtends(visited, tables, after, query - 1, page, bound);
      visited := visited + page;
      if |page| < ORGANIZATION_LIMIT {
        break;
      }
      after := Some(page[|page| - 1]);
    }
    ReportCountsTheAttempts(r, visited, work);
    if forall k: nat :: tables(k) == tables(0) {
      StableTableIsVisitedExactly(tables(0), tables, visited);
    }
  }

  lemma PageExtends(visited: seq<nat>, tables: nat -> seq<nat>, after: Option<nat>, query: nat, page: seq<nat>,
                    bound: nat)
    requires StrictlyAscending(tables(query)) && Below(tables(query), bound)
    requires page == Page(tables(query), after, ORGANIZATION_LIMIT) && page != []
    requires Progress(visited, tables, after, bound)
    ensures Progress(visited + page, tables, Some(page[|page| - 1]), bound)
    ensures after.Some? ==> page[|page| - 1] > after.value
    ensures |page| < ORGANIZATION_LIMIT ==> Complete(visited + page, tables)
  {
    var above := Above(tables(query), after);
    AboveIsTheRest(tables(query), after);
    forall i | 0 <= i < |visited + page| ensures AtSomeTime(tables, (visited + page)[i]) {
      if i >= |visited| {
        assert page[i - |visited|] in above;
        assert (visited + page)[i] in tables(query);
      }
    }
    forall i | 0 <= i < |page| ensures page[i] < bound && (after.Some? ==> page[i] > after.value) {
      assert page[i] in above;
      assert page[i] in tables(query);
    }
    forall x: nat | Throughout(tables, x) && (x <= page[|page| - 1] || |page| < ORGANIZATION_LIMIT)
      ensures x in visited + page
    {
      if after.Some? && x <= after.value {
        assert x in visited;
      } else {
        assert x in above;
        var i :| 0 <= i < |above| && above[i] == x;
        if |page| < |above| {
          OrderedIndexes(above, i, |page| - 1);
        }
        assert page[i] == x;
      }
    }
  }

  lemma OrderedIndexes(s: seq<nat>, i: nat, j: nat)
    requires StrictlyAscending(s) && i < |s| && j < |s| && s[i] <= s[j]
    ensures i <= j
  {
  }

  lemma LastPageCovers(visited: seq<nat>, tables: nat -> seq<nat>, after: Option<nat>, query: nat, page: seq<nat>)
    requires page == Page(tables(query), after, ORGANIZATION_LIMIT) && page == []
    requires StrictlyAscending(tables(query))
    requires CoveredUpTo(visited, tables, after)
    ensures Complete(visited, tables)
  {
    AboveIsTheRest(tables(query), after);
    assert Above(tables(query), after) == [];
    forall x: nat | Throughout(tables, x) ensures x in visited {
      assert x in tables(query);
    }
  }

  /** When the table does not change, the run visits exactly its organisations, each once, in order. */
  lemma StableTableIsVisitedExactly(t: seq<nat>, tables: nat -> seq<nat>, visited: seq<nat>)
    requires StrictlyAscending(t) && forall k: nat :: tables(k) == t
    requires StrictlyAscending(visited) && Complete(visited, tables) && AllExist(visited, tables)
    ensures visited == t
  {
    forall x | x in t ensures x in visited {
      assert Throughout(tables, x);
    }
    forall x | x in visited ensures x in t {
      var i :| 0 <= i < |visited| && visited[i] == x;
      assert AtSomeTime(tables, visited[i]);
    }
    AscendingByMembers(t, visited);
  }

  ghost predicate SameMembers(a: seq<nat>, b: seq<nat>) {
    forall x :: x in a <==> x in b
  }

  /** An ascending sequence is determined by its members. */
  lemma {:induction false} AscendingByMembers(t: seq<nat>, visited: seq<nat>)
    requires StrictlyAscending(t) && StrictlyAscending(visited)
    requires SameMembers(t, visited)
    ensures visited == t
    decreases |t|
  {
    EmptyTogether(t, visited);
    if t != [] {
      LastsAgree(t, visited);
      FrontsAgree(t, visited);
      AscendingByMembers(t[..|t| - 1], visited[..|visited| - 1]);
      FrontAndLast(t);
      FrontAndLast(visited);
    }
  }

  lemma EmptyTogether(t: seq<nat>, visited: seq<nat>)
    requires SameMembers(t, visited)
    ensures t == [] <==> visited == []
  {
    assert t != [] ==> t[0] in visited;
    assert visited != [] ==> visited[0] in t;
  }

  lemma FrontAndLast(s: seq<nat>)
    requires s != []
    ensures s == s[..|s| - 1] + [s[|s| - 1]]
  {
  }

  lemma FrontsAgree(t: seq<nat>, visited: seq<nat>)
    requires StrictlyAscending(t) && StrictlyAscending(visited) && t != [] && visited != []
    requires SameMembers(t, visited) && t[|t| - 1] == visited[|visited| - 1]
    ensures StrictlyAscending(t[..|t| - 1]) && StrictlyAscending(visited[..|visited| - 1])
    ensures SameMembers(t[..|t| - 1], visited[..|visited| - 1])
  {
    var front, rest := t[..|t| - 1], visited[..|visited| - 1];
    forall x ensures x in front <==> x in rest {
      WithoutLast(t, x);
      WithoutLast(visited, x);
    }
  }

  lemma WithoutLast(s: seq<nat>, x: nat)
    requires StrictlyAscending(s) && s != []
    ensures x in s[..|s| - 1] <==> x in s && x != s[|s| - 1]
  {
    assert s == s[..|s| - 1] + [s[|s| - 1]];
  }

  lemma LastsAgree(t: seq<nat>, visited: seq<nat>)
    requires StrictlyAscending(t) && StrictlyAscending(visited) && t != [] && visited != []
    requires SameMembers(t, visited)
    ensures t[|t| - 1] == visited[|visited| - 1]
  {
    var n, m := |t| - 1, |visited| - 1;
    assert t[n] in visited && visited[m] in t;
    var i :| 0 <= i < |visited| && visited[i] == t[n];
    var j :| 0 <= j < |t| && t[j] == visited[m];
  }

  lemma {:induction false} CountersAddUp(attempts: seq<Attempt>)
    ensures Count(attempts, Resumed) + Count(attempts, NotResumed) + Count(attempts, Raised) == |attempts|
    decreases |attempts|
  {
    if attempts != [] {
      CountersAddUp(attempts[..|attempts| - 1]);
    }
  }

  lemma {:induction false} BatchesAreBounded(visited: seq<nat>, work: nat -> seq<Attempt>)
    ensures |AllAttempts(visited, work)| <= APPROVAL_BATCH_SIZE * |visited|
    decreases |visited|
  {
    if visited != [] {
      BatchesAreBounded(visited[..|visited| - 1], work);
    }
  }

  /** A page holds the next 500 organisations, or all that are left. */
  lemma PagesAreFull(t: seq<nat>, after: Option<nat>)
    requires StrictlyAscending(t)
    ensures var page := Page(t, after, ORGANIZATION_LIMIT);
            && |page| <= 500 && StrictlyAscending(page)
            && (forall x :: x in page ==> x in t && (after.None? || x > after.value))
            && forall x :: x in t && (after.None? || x > after.value) && x !in page ==>
                 |page| == 500 && page[499] < x
  {
    AboveIsTheRest(t, after);
    var above, page := Above(t, after), Page(t, after, ORGANIZATION_LIMIT);
    forall x | x in t && (after.None? || x > after.value) && x !in page ensures |page| == 500 && page[499] < x {
      var i :| 0 <= i < |above| && above[i] == x;
      assert i >= |page|;
    }
    forall x | x in page ensures x in t && (after.None? || x > after.value) {
      assert x in above;
    }
  }

  /** How often an attempt ends this way: the count is the number of its places. */
  lemma {:induction false} CountIsMultiplicity(attempts: seq<Attempt>, a: Attempt)
    ensures Count(attempts, a) == multiset(attempts)[a]
    decreases |attempts|
  {
    if attempts != [] {
      var n := |attempts| - 1;
      CountIsMultiplicity(attempts[..n], a);
      assert attempts == attempts[..n] + [attempts[n]];
    }
  }

  /** Each visit takes on the first 25 listed approvals, or all of fewer, at its place in the run. */
  lemma {:induction false} EveryVisitTakesTheFirst(visited: seq<nat>, work: nat -> seq<Attempt>, k: nat)
    requires k < |visited|
    ensures var listed, before := work(visited[k]), AllAttempts(visited[..k], work);
            before + listed[..Min(|listed|, 25)] <= AllAttempts(visited, work)
    decreases |visited|
  {
    var n := |visited| - 1;
    if k < n {
      EveryVisitTakesTheFirst(visited[..n], work, k);
      assert visited[..n][..k] == visited[..k];
    }
  }

  /** All approvals taken on, by organisation. */
  function CandidateTotal(visited: seq<nat>, work: nat -> seq<Attempt>): nat {
    if visited == [] then 0
    else CandidateTotal(visited[..|visited| - 1], work) + Min(|work(visited[|visited| - 1])|, 25)
  }

  /**
   The report of a run: as many candidates as the first 25 of each visited organisation make, and of
   those as many delivered and failed as resumed and raised.
   */
  lemma ReportCountsTheAttempts(r: Report, visited: seq<nat>, work: nat -> seq<Attempt>)
    requires Reports(r, visited, work)
    ensures r.organizations == |visited| && r.candidates == CandidateTotal(visited, work)
    ensures r.delivered == multiset(AllAttempts(visited, work))[Resumed]
    ensures r.failed == multiset(AllAttempts(visited, work))[Raised]
  {
    TotalIsLength(visited, work);
    CountIsMultiplicity(AllAttempts(visited, work), Resumed);
    CountIsMultiplicity(AllAttempts(visited, work), Raised);
  }

  lemma {:induction false} TotalIsLength(visited: seq<nat>, work: nat -> seq<Attempt>)
    ensures |AllAttempts(visited, work)| == CandidateTotal(visited, work)
    decreases |visited|
  {
    if visited != [] {
      TotalIsLength(visited[..|visited| - 1], work);
    }
  }

  /** The counters are consistent: at most 25 candidates an organisation, each delivered, failed or neither. */
  lemma ReportIsConsistent(r: Report, visited: seq<nat>, work: nat -> seq<Attempt>)
    requires Reports(r, visited, work)
    ensures r.delivered + r.failed <= r.candidates <= 25 * r.organizations
  {
    CountersAddUp(AllAttempts(visited, work));
    BatchesAreBounded(visited, work);
  }
}
