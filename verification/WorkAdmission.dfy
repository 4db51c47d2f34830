/**
 Worker admission: expiring, owner-checked slots shared by concurrent workers, and the admission
 that takes one slot, debits the tenant's rate, runs the body and gives the slot back.
 */
module WorkAdmission {
  import opened Common
  import RateLimits

  const LEASE_SECONDS := 600

  datatype WorkKind = ModelWork | IngestionWork

  function SlotCount(kind: WorkKind): nat {
    if kind == ModelWork then 2 else 1
  }

  /** The organisation stands for its digest. */
  datatype SlotKey = SlotKey(kind: WorkKind, org: nat, index: nat)

  /** Every admission draws a fresh owner. */
  type Owner = nat

  datatype SlotLease = SlotLease(owner: Owner, expiresAt: int)

  type Table = map<SlotKey, SlotLease>

  predicate Free(t: Table, key: SlotKey, now: int) {
    key in t ==> t[key].expiresAt <= now
  }

  function Acquired(t: Table, key: SlotKey, owner: Owner, now: int): Table {
    if Free(t, key, now) then t[key := SlotLease(owner, now + LEASE_SECONDS)] else t
  }

  predicate Owns(t: Table, key: SlotKey, owner: Owner) {
    key in t && t[key].owner == owner
  }

  function Released(t: Table, key: SlotKey, owner: Owner): Table {
    if Owns(t, key, owner) then t - {key} else t
  }

  // ---------------------------------------------------------------- the store and one admission

  datatype StoreError = LeaseUnavailable | ExpiryNotInFuture

  /** What other workers do to the table meanwhile. */
  datatype SlotEvent = Taken(key: SlotKey, owner: Owner, now: int) | Freed(key: SlotKey, owner: Owner)

  function AfterEvents(t: Table, events: seq<SlotEvent>): Table {
    if events == [] then t
    else
      var before := AfterEvents(t, events[..|events| - 1]);
      match events[|events| - 1]
      case Taken(key, owner, now) => Acquired(before, key, owner, now)
      case Freed(key, owner) => Released(before, key, owner)
  }

  class SlotStore {
    var table: Table
    /** The releases attempted so far, whether or not they freed anything. */
    ghost var attempts: seq<(SlotKey, Owner)>

    method TryAcquire(key: SlotKey, owner: Owner, now: int, expiresAt: int) returns (r: Result<bool, StoreError>)
      modifies this`table
      ensures expiresAt <= now ==> r == Err(ExpiryNotInFuture) && table == old(table)
      ensures expiresAt > now ==>
                && r == Ok(key in old(table) ==> old(table)[key].expiresAt <= now)
                && table == if r == Ok(true) then old(table)[key := SlotLease(owner, expiresAt)] else old(table)
    {
      if expiresAt <= now {
        return Err(ExpiryNotInFuture);
      }
      if key in table && table[key].expiresAt > now {
        return Ok(false);
      }
      table := table[key := SlotLease(owner, expiresAt)];
      return Ok(true);
    }

    method Release(key: SlotKey, owner: Owner) returns (released: bool)
      modifies this
      ensures released <==> key in old(table) && old(table)[key].owner == owner
      ensures table == if released then old(table) - {key} else old(table)
      ensures attempts == old(attempts) + [(key, owner)]
    {
      attempts := attempts + [(key, owner)];
      if key !in table || table[key].owner != owner {
        return false;
      }
      table := table - {key};
      return true;
    }

    /** An acquiring call whose reply never arrives; its conditional write may have happened. */
    method AcquireUnanswered(key: SlotKey, owner: Owner, now: int, written: bool)
      modifies this`table
      ensures table == if written then Acquired(old(table), key, owner, now) else old(table)
    {
      if written {
        var r := TryAcquire(key, owner, now, now + LEASE_SECONDS);
      }
    }

    /** A release whose reply never arrives. */
    method ReleaseUnanswered(key: SlotKey, owner: Owner, written: bool)
      modifies this
      ensures attempts == old(attempts) + [(key, owner)]
      ensures table == if written then Released(old(table), key, owner) else old(table)
    {
      if written {
        var r := Release(key, owner);
      } else {
        attempts := attempts + [(key, owner)];
      }
    }

    method Interfere(events: seq<SlotEvent>)
      modifies this`table
      ensures table == AfterEvents(old(table), events)
    {
      for k := 0 to |events|
        invariant table == AfterEvents(old(table), events[..k])
      {
        assert events[..k + 1][..k] == events[..k];
        match events[k] {
          case Taken(key, owner, now) => table := Acquired(table, key, owner, now);
          case Freed(key, owner) => table := Released(table, key, owner);
        }
      }
      assert events[..|events|] == events;
    }
  }

  datatype AdmissionError = Unavailable | SlotsExhausted(retryAfter: nat) | RateDenied(error: RateLimits.RateError)
                          | BodyFailed

  /** The first free slot of a tenant from an index on, as of now. */
  function FirstFree(t: Table, kind: WorkKind, org: nat, now: int, index: nat): Option<nat>
    requires index <= SlotCount(kind)
    decreases SlotCount(kind) - index
  {
    if index == SlotCount(kind) then None
    else if Free(t, SlotKey(kind, org, index), now) then Some(index)
    else FirstFree(t, kind, org, now, index + 1)
  }

  function WorkerPolicy(kind: WorkKind): RateLimits.RatePolicy {
    if kind == ModelWork then RateLimits.PolicyRecord("worker-model", 60, 60)
    else RateLimits.PolicyRecord("worker-ingestion", 10, 60)
  }

  datatype LostCall = LostCall(index: nat, written: bool)

  /**
   The environment of one admission: clock readings, the acquiring call that is lost if one is, the
   fate of the rate debit, of the body and of the release, and other workers' acts meanwhile.
   */
  datatype Surroundings = Surroundings(
    clock: real, debitClock: real, lostAcquire: Option<LostCall>, debit: RateLimits.StoreReply,
    bodyFails: bool, meanwhile: seq<SlotEvent>, release: RateLimits.StoreReply)

  class WorkAdmission {
    const leases: SlotStore
    const rates: RateLimits.RateLimitStore

    constructor (leases: SlotStore, rates: RateLimits.RateLimitStore)
      ensures this.leases == leases && this.rates == rates
    {
      this.leases, this.rates := leases, rates;
    }

    /**
     Whatever happens after a slot was seen taken, exactly that slot is offered back once, by its
     owner; when none was, nothing is: a slot taken by a lost call stays until it expires.
     */
    method Admit(org: nat, tenant: string, kind: WorkKind, owner: Owner, env: Surroundings)
      returns (ran: bool, error: Option<AdmissionError>)
      modifies leases, rates
      ensures var now := env.clock.Floor;
              var slot := FirstFree(old(leases.table), kind, org, now, 0);
              var reached := if slot.Some? then slot.value else SlotCount(kind) - 1;
              if env.lostAcquire.Some? && env.lostAcquire.value.index <= reached then
                && !ran && error == Some(Unavailable)
                && leases.table == (if env.lostAcquire.value.written
                                    then Acquired(old(leases.table), SlotKey(kind, org, env.lostAcquire.value.index),
                                                  owner, now)
                                    else old(leases.table))
                && leases.attempts == old(leases.attempts) && rates.counters == old(rates.counters)
              else if slot.None? then
                && !ran && error == Some(SlotsExhausted(60))
                && leases.table == old(leases.table) && leases.attempts == old(leases.attempts)
                && rates.counters == old(rates.counters)
              else
                var key := SlotKey(kind, org, slot.value);
                var held := AfterEvents(old(leases.table)[key := SlotLease(owner, now + 600)], env.meanwhile);
                && leases.attempts == old(leases.attempts) + [(key, owner)]
                && leases.table == (if env.release == RateLimits.Lost(false) then held else Released(held, key, owner))
                && (ran <==> env.debit.Answered?
                             && RateLimits.CountOf(old(rates.counters), DebitKey(kind, tenant, env.debitClock))
                                < DebitLimit(kind))
                && rates.counters == RateLimits.AfterCall(old(rates.counters), DebitKey(kind, tenant, env.debitClock),
                                                          DebitLimit(kind), env.debit)
                && error == (if ran then if env.bodyFails then Some(BodyFailed) else None
                             else if env.debit.Lost? then Some(RateDenied(RateLimits.RateStoreUnavailable))
                             else Some(RateDenied(RateLimits.RateLimited(RateLimits.RetryAfter(env.debitClock, 60)))))
    {
      var now := env.clock.Floor;
      var slots := if kind == ModelWork then 2 else 1;
      var acquired: Option<SlotKey> := None;
      var index := 0;
      while index < slots && acquired.None?
        invariant 0 <= index <= slots
        invariant rates.counters == old(rates.counters) && leases.attempts == old(leases.attempts)
        invariant env.lostAcquire.Some? ==> index <= env.lostAcquire.value.index || acquired.Some?
        invariant acquired.None? ==>
                    && leases.table == old(leases.table)
                    && FirstFree(old(leases.table), kind, org, now, 0) == FirstFree(old(leases.table), kind, org, now, index)
        invariant acquired.Some? ==>
                    && index < slots && acquired == Some(SlotKey(kind, org, index))
                    && FirstFree(old(leases.table), kind, org, now, 0) == Some(index)
                    && leases.table == Acquired(old(leases.table), acquired.value, owner, now)
                    && (env.lostAcquire.Some? ==> index < env.lostAcquire.value.index)
        decreases slots - index, if acquired.None? then 1 else 0
      {
        var key := SlotKey(kind, org, index);
        if env.lostAcquire.Some? && env.lostAcquire.value.index == index {
          leases.AcquireUnanswered(key, owner, now, env.lostAcquire.value.written);
          return false, Some(Unavailable);
        }
        var tried := leases.TryAcquire(key, owner, now, now + LEASE_SECONDS);
        if tried.value {
          acquired := Some(key);
        } else {
          index := index + 1;
        }
      }
      if acquired.None? {
        return false, Some(SlotsExhausted(60));
      }
      var debit := RateLimits.EnforceRateLimit(rates, WorkerPolicy(kind), ["tenant-work", tenant], 1, "worker",
                                               env.debitClock, env.debit);
      ran := debit.Ok?;
      if ran {
        error := if env.bodyFails then Some(BodyFailed) else None;
      } else {
        error := Some(RateDenied(debit.error));
      }
      leases.Interfere(env.meanwhile);
      if env.release.Lost? {
        leases.ReleaseUnanswered(acquired.value, owner, env.release.written);
      } else {
        var released := leases.Release(acquired.value, owner);
      }
    }
  }

  /** Each tenant has a counter of its own for either kind of work, over a minute. */
  function DebitKey(kind: WorkKind, tenant: string, now: real): RateLimits.CounterKey {
    RateLimits.CounterKey("worker", if kind == ModelWork then "worker-model" else "worker-ingestion", 60,
                          RateLimits.WindowOf(now, 60), ["tenant-work", tenant])
  }

  function DebitLimit(kind: WorkKind): nat {
    if kind == ModelWork then 60 else 10
  }

  // ---------------------------------------------------------------- interleaved workers

  datatype Phase =
    | Trying(kind: WorkKind, org: nat, now: int, index: nat)
    | Debiting(key: SlotKey, expiresAt: int)
    | Running(key: SlotKey, expiresAt: int)
    | Leaving(key: SlotKey, expiresAt: int)
    | Gone

  datatype Sys = Sys(clock: real, table: Table, workers: map<Owner, Phase>)

  datatype Step =
    | Tick(seconds: real)
    | Begin(owner: Owner, kind: WorkKind, org: nat)
    | Try(owner: Owner)
      /** The acquiring call is lost; the write may or may not have happened. */
    | TryLost(owner: Owner, written: bool)
    | Debit(owner: Owner, allowed: bool)
    | EndBody(owner: Owner)
    | GiveBack(owner: Owner, storeAnswers: bool)
    | Crash(owner: Owner)

  predicate Enabled(s: Sys, step: Step) {
    match step
    case Tick(seconds) => seconds >= 0.0
    case Begin(o, _, _) => o !in s.workers
    case Try(o) => o in s.workers && s.workers[o].Trying?
    case TryLost(o, _) => o in s.workers && s.workers[o].Trying?
    case Debit(o, _) => o in s.workers && s.workers[o].Debiting?
    case EndBody(o) => o in s.workers && s.workers[o].Running?
    case GiveBack(o, _) => o in s.workers && s.workers[o].Leaving?
    case Crash(o) => o in s.workers
  }

  function TryStep(s: Sys, o: Owner): Sys
    requires o in s.workers && s.workers[o].Trying?
  {
    var w := s.workers[o];
    var key := SlotKey(w.kind, w.org, w.index);
    if Free(s.table, key, w.now) then
      s.(table := Acquired(s.table, key, o, w.now), workers := s.workers[o := Debiting(key, w.now + LEASE_SECONDS)])
    else if w.index + 1 < SlotCount(w.kind) then
      s.(workers := s.workers[o := w.(index := w.index + 1)])
    else
      s.(workers := s.workers[o := Gone])
  }

  function Next(s: Sys, step: Step): Sys
    requires Enabled(s, step)
  {
    match step
    case Tick(seconds) => s.(clock := s.clock + seconds)
    case Begin(o, kind, org) => s.(workers := s.workers[o := Trying(kind, org, s.clock.Floor, 0)])
    case Try(o) => TryStep(s, o)
    case TryLost(o, written) =>
      var w := s.workers[o];
      var key := SlotKey(w.kind, w.org, w.index);
      s.(table := if written then Acquired(s.table, key, o, w.now) else s.table, workers := s.workers[o := Gone])
    case Debit(o, allowed) =>
      var w := s.workers[o];
      s.(workers := s.workers[o := if allowed then Running(w.key, w.expiresAt) else Leaving(w.key, w.expiresAt)])
    case EndBody(o) =>
      var w := s.workers[o];
      s.(workers := s.workers[o := Leaving(w.key, w.expiresAt)])
    case GiveBack(o, storeAnswers) =>
      var w := s.workers[o];
      s.(table := if storeAnswers then Released(s.table, w.key, o) else s.table, workers := s.workers[o := Gone])
    case Crash(o) => s.(workers := s.workers[o := Gone])
  }

  const START := Sys(0.0, map[], map[])

  predicate Allowed(s: Sys, steps: seq<Step>)
    decreases |steps|, 0
  {
    steps == [] || (Allowed(s, steps[..|steps| - 1]) && Enabled(After(s, steps[..|steps| - 1]), steps[|steps| - 1]))
  }

  function After(s: Sys, steps: seq<Step>): Sys
    requires Allowed(s, steps)
    decreases |steps|, 1
  {
    if steps == [] then s else Next(After(s, steps[..|steps| - 1]), steps[|steps| - 1])
  }

  // ---------------------------------------------------------------- invariant

  predicate Holds(p: Phase) {
    p.Debiting? || p.Running? || p.Leaving?
  }

  /** A holder whose lease has not passed is the recorded owner of its slot. */
  predicate WorkerOk(s: Sys, o: Owner)
    requires o in s.workers
  {
    var w := s.workers[o];
    && (w.Trying? ==> w.now as real <= s.clock && w.index < SlotCount(w.kind))
    && (Holds(w) ==>
          && w.key.index < SlotCount(w.key.kind)
          && (s.clock < w.expiresAt as real ==> w.key in s.table && s.table[w.key] == SlotLease(o, w.expiresAt)))
  }

  ghost predicate Inv(s: Sys) {
    && (forall o :: o in s.workers ==> WorkerOk(s, o))
    && (forall key :: key in s.table ==> key.index < SlotCount(key.kind) && s.table[key].owner in s.workers)
  }

  lemma StepKeepsInv(s: Sys, step: Step)
    requires Inv(s) && Enabled(s, step)
    ensures Inv(Next(s, step))
  {
    var t := Next(s, step);
    forall o | o in t.workers ensures WorkerOk(t, o) {
      if o in s.workers {
        assert WorkerOk(s, o);
      }
      if step.Try? || step.TryLost? {
        assert WorkerOk(s, step.owner);
      }
    }
    if step.Try? || step.TryLost? {
      assert WorkerOk(s, step.owner);
    }
  }

  lemma {:induction false} RunKeepsInv(steps: seq<Step>)
    requires Allowed(START, steps)
    ensures Inv(After(START, steps))
    decreases |steps|
  {
    if steps != [] {
      RunKeepsInv(steps[..|steps| - 1]);
      StepKeepsInv(After(START, steps[..|steps| - 1]), steps[|steps| - 1]);
    }
  }

  // ---------------------------------------------------------------- theorems

  /** Distinct numbers below n are at most n. */
  lemma {:induction false} BoundedSet(s: set<nat>, n: nat)
    requires forall x :: x in s ==> x < n
    ensures |s| <= n
    decreases n
  {
    if n == 0 {
      assert s == {};
    } else {
      BoundedSet(s - {n - 1}, n - 1);
      if n - 1 in s {
        assert |s - {n - 1}| == |s| - 1;
      } else {
        assert s - {n - 1} == s;
      }
    }
  }

  predicate BodyOn(s: Sys, o: Owner, kind: WorkKind, org: nat) {
    o in s.workers && s.workers[o].Running? && s.workers[o].key.kind == kind && s.workers[o].key.org == org
  }

  predicate WithinLease(s: Sys, o: Owner) {
    o in s.workers && Holds(s.workers[o]) && s.clock < s.workers[o].expiresAt as real
  }

  function SlotIndex(s: Sys, o: Owner): nat {
    if o in s.workers && Holds(s.workers[o]) then s.workers[o].key.index else 0
  }

  lemma {:induction false} DistinctBodiesHaveDistinctSlots(s: Sys, bodies: set<Owner>, kind: WorkKind, org: nat)
    requires Inv(s)
    requires forall o :: o in bodies ==> BodyOn(s, o, kind, org) && WithinLease(s, o)
    ensures |bodies| == |set o | o in bodies :: SlotIndex(s, o)|
    decreases |bodies|
  {
    var used := set o | o in bodies :: SlotIndex(s, o);
    if bodies != {} {
      var o :| o in bodies;
      var rest := bodies - {o};
      DistinctBodiesHaveDistinctSlots(s, rest, kind, org);
      var i := SlotIndex(s, o);
      var others := set p | p in rest :: SlotIndex(s, p);
      forall p | p in rest ensures SlotIndex(s, p) != i {
        SlotHasOneHolder(s, o, p);
      }
      assert used == others + {i};
    }
  }

  lemma SlotHasOneHolder(s: Sys, o: Owner, p: Owner)
    requires Inv(s) && o != p && WithinLease(s, o) && WithinLease(s, p)
    ensures s.workers[o].key != s.workers[p].key
  {
    assert WorkerOk(s, o) && WorkerOk(s, p);
  }

  /**
   Under every interleaving, the bodies of one tenant and kind that are still inside their lease
   are at most two for model work and one for ingestion; so if no body outlives its lease, no
   more than that ever run at once.
   */
  lemma BodiesAreBounded(steps: seq<Step>, kind: WorkKind, org: nat, bodies: set<Owner>)
    requires Allowed(START, steps)
    requires forall o :: o in bodies ==> BodyOn(After(START, steps), o, kind, org) && WithinLease(After(START, steps), o)
    ensures |bodies| <= if kind == ModelWork then 2 else 1
  {
    RunKeepsInv(steps);
    var s := After(START, steps);
    DistinctBodiesHaveDistinctSlots(s, bodies, kind, org);
    forall o | o in bodies ensures SlotIndex(s, o) < SlotCount(kind) {
      assert WorkerOk(s, o);
    }
    BoundedSet(set o | o in bodies :: SlotIndex(s, o), SlotCount(kind));
  }

  /** The recorded leases of one tenant and kind that have not passed. */
  function LiveOwners(s: Sys, kind: WorkKind, org: nat): set<Owner> {
    set key | key in s.table && key.kind == kind && key.org == org && s.clock < s.table[key].expiresAt as real
      :: s.table[key].owner
  }

  lemma OwnersAreNoMoreThanSlots(s: Sys, kind: WorkKind, org: nat, n: nat)
    requires forall key :: key in s.table && key.kind == kind && key.org == org ==> key.index < n
    ensures |LiveOwners(s, kind, org)| <= n
  {
    var live := set i: nat | i < n && SlotKey(kind, org, i) in s.table
                            && s.clock < s.table[SlotKey(kind, org, i)].expiresAt as real :: i;
    BoundedSet(live, n);
    ImageIsSmaller(s, kind, org, live);
    var image := set i | i in live :: s.table[SlotKey(kind, org, i)].owner;
    forall o | o in LiveOwners(s, kind, org) ensures o in image {
      var key :| key in s.table && key.kind == kind && key.org == org
                 && s.clock < s.table[key].expiresAt as real && s.table[key].owner == o;
      assert key == SlotKey(kind, org, key.index) && key.index in live;
    }
    SubsetIsSmaller(LiveOwners(s, kind, org), image);
  }

  lemma {:induction false} ImageIsSmaller(s: Sys, kind: WorkKind, org: nat, live: set<nat>)
    requires forall i :: i in live ==> SlotKey(kind, org, i) in s.table
    ensures |set i | i in live :: s.table[SlotKey(kind, org, i)].owner| <= |live|
    decreases |live|
  {
    var image := set i | i in live :: s.table[SlotKey(kind, org, i)].owner;
    if live != {} {
      var i :| i in live;
      ImageIsSmaller(s, kind, org, live - {i});
      var rest := set j | j in live - {i} :: s.table[SlotKey(kind, org, j)].owner;
      assert image == rest + {s.table[SlotKey(kind, org, i)].owner};
    }
  }

  lemma {:induction false} SubsetIsSmaller(a: set<Owner>, b: set<Owner>)
    requires a <= b
    ensures |a| <= |b|
    decreases |a|
  {
    if a != {} {
      var x :| x in a;
      SubsetIsSmaller(a - {x}, b - {x});
    }
  }

  /** At most two model owners and one ingestion owner of a tenant hold an unexpired slot. */
  lemma UnexpiredOwnersAreBounded(steps: seq<Step>, kind: WorkKind, org: nat)
    requires Allowed(START, steps)
    ensures |LiveOwners(After(START, steps), kind, org)| <= if kind == ModelWork then 2 else 1
  {
    RunKeepsInv(steps);
    OwnersAreNoMoreThanSlots(After(START, steps), kind, org, SlotCount(kind));
  }

  /**
   One step takes a recorded lease away only by its own owner giving it back, or by another worker
   once it has expired; in particular a late release never frees a slot that changed hands.
   */
  lemma OnlyTheOwnerOrExpiryFreesASlot(s: Sys, step: Step, key: SlotKey)
    requires Inv(s) && Enabled(s, step) && key in s.table
    ensures var t := Next(s, step);
            || (key in t.table && t.table[key] == s.table[key])
            || (step == GiveBack(s.table[key].owner, true) && key !in t.table)
            || s.table[key].expiresAt as real <= s.clock
  {
    if step.Try? || step.TryLost? {
      assert WorkerOk(s, step.owner);
    }
  }

  /** Over whole runs: an unexpired lease is still there unless its owner has given it back. */
  lemma {:induction false} UnexpiredLeasesPersist(s: Sys, steps: seq<Step>, key: SlotKey)
    requires Inv(s) && Allowed(s, steps) && key in s.table
    requires After(s, steps).clock < s.table[key].expiresAt as real
    requires forall i :: 0 <= i < |steps| ==> steps[i] != GiveBack(s.table[key].owner, true)
    ensures Inv(After(s, steps))
    ensures key in After(s, steps).table && After(s, steps).table[key] == s.table[key]
    decreases |steps|
  {
    if steps != [] {
      var before := After(s, steps[..|steps| - 1]);
      var last := steps[|steps| - 1];
      assert before.clock <= Next(before, last).clock;
      UnexpiredLeasesPersist(s, steps[..|steps| - 1], key);
      StepKeepsInv(before, last);
      OnlyTheOwnerOrExpiryFreesASlot(before, last, key);
    }
  }

  /** A worker that leaves inside its lease always frees its own slot when the store answers. */
  lemma TimelyReleaseFreesTheSlot(s: Sys, o: Owner)
    requires Inv(s) && Enabled(s, GiveBack(o, true)) && WithinLease(s, o)
    ensures Next(s, GiveBack(o, true)).table == s.table - {s.workers[o].key}
    ensures Free(Next(s, GiveBack(o, true)).table, s.workers[o].key, s.clock.Floor)
  {
    assert WorkerOk(s, o);
  }

  /** What each step of a worker that holds a slot leads to: a body only after an allowed debit. */
  lemma HoldersMoveOn(s: Sys, step: Step)
    requires Enabled(s, step) && (step.Debit? || step.EndBody? || step.GiveBack? || step.Crash?)
    ensures var t := Next(s, step);
            && t.clock == s.clock && t.workers.Keys == s.workers.Keys
            && (forall o :: o in s.workers && o != step.owner ==> t.workers[o] == s.workers[o])
            && (t.workers[step.owner].Running? <==> step.Debit? && step.allowed)
            && (t.workers[step.owner].Leaving? <==> step.EndBody? || (step.Debit? && !step.allowed))
            && (t.workers[step.owner].Gone? <==> step.GiveBack? || step.Crash?)
            && (!step.GiveBack? ==> t.table == s.table)
            && (Holds(t.workers[step.owner]) ==>
                  t.workers[step.owner].key == s.workers[step.owner].key
                  && t.workers[step.owner].expiresAt == s.workers[step.owner].expiresAt)
  {
  }

  // ---------------------------------------------------------------- capacity comes back

  function Attempts(o: Owner, kind: WorkKind, org: nat, tries: nat): seq<Step> {
    if tries == 0 then [Begin(o, kind, org)] else Attempts(o, kind, org, tries - 1) + [Try(o)]
  }

  /**
   If some slot of the tenant is free as of the whole second, abandoned by a crash or not, a fresh
   worker that is not overtaken gets one: the first free one.
   */
  lemma {:induction false} FreeSlotIsFound(s: Sys, o: Owner, kind: WorkKind, org: nat, i: nat)
    requires o !in s.workers && i < SlotCount(kind)
    requires FirstFree(s.table, kind, org, s.clock.Floor, 0) == Some(i)
    ensures Allowed(s, Attempts(o, kind, org, i + 1))
    ensures var t := After(s, Attempts(o, kind, org, i + 1));
            && t.workers[o] == Debiting(SlotKey(kind, org, i), s.clock.Floor + 600)
            && t.table == s.table[SlotKey(kind, org, i) := SlotLease(o, s.clock.Floor + 600)]
  {
    FirstFreeIsFirst(s.table, kind, org, s.clock.Floor, 0, i);
    BusySlotsArePassed(s, o, kind, org, i);
    var steps := Attempts(o, kind, org, i + 1);
    assert steps[..|steps| - 1] == Attempts(o, kind, org, i) && steps[|steps| - 1] == Try(o);
    var before := After(s, Attempts(o, kind, org, i));
    assert Enabled(before, Try(o));
    assert After(s, steps) == Next(before, Try(o)) == TryStep(before, o);
    assert before.workers[o].now == s.clock.Floor && before.workers[o].index == i;
    FreeTrySucceeds(before, o);
  }

  lemma FreeTrySucceeds(s: Sys, o: Owner)
    requires o in s.workers && s.workers[o].Trying?
    requires Free(s.table, SlotKey(s.workers[o].kind, s.workers[o].org, s.workers[o].index), s.workers[o].now)
    ensures var w := s.workers[o];
            var key := SlotKey(w.kind, w.org, w.index);
            && TryStep(s, o).table == Acquired(s.table, key, o, w.now)
            && TryStep(s, o).workers == s.workers[o := Debiting(key, w.now + LEASE_SECONDS)]
  {
  }

  /** The slot taken is the first of the two, or of the one, that is absent or expired; none if all are live. */
  lemma FirstFreeExactly(t: Table, kind: WorkKind, org: nat, now: int)
    ensures var slots: nat := if kind == ModelWork then 2 else 1;
            match FirstFree(t, kind, org, now, 0)
            case None => forall j: nat :: j < slots ==> IsLive(t, SlotKey(kind, org, j), now)
            case Some(i) => i < slots && !IsLive(t, SlotKey(kind, org, i), now)
                            && forall j: nat :: j < i ==> IsLive(t, SlotKey(kind, org, j), now)
  {
    var found := FirstFree(t, kind, org, now, 0);
    if found.Some? {
      FirstFreeIsFirst(t, kind, org, now, 0, found.value);
    } else {
      NoneFreeMeansLive(t, kind, org, now, 0);
    }
  }

  predicate IsLive(t: Table, key: SlotKey, now: int) {
    key in t && t[key].expiresAt > now
  }

  lemma {:induction false} NoneFreeMeansLive(t: Table, kind: WorkKind, org: nat, now: int, index: nat)
    requires index <= SlotCount(kind) && FirstFree(t, kind, org, now, index) == None
    ensures forall j: nat :: index <= j < SlotCount(kind) ==> IsLive(t, SlotKey(kind, org, j), now)
    decreases SlotCount(kind) - index
  {
    if index < SlotCount(kind) {
      NoneFreeMeansLive(t, kind, org, now, index + 1);
    }
  }

  lemma {:induction false} FirstFreeIsFirst(t: Table, kind: WorkKind, org: nat, now: int, from_: nat, i: nat)
    requires from_ <= SlotCount(kind) && FirstFree(t, kind, org, now, from_) == Some(i)
    ensures from_ <= i < SlotCount(kind) && Free(t, SlotKey(kind, org, i), now)
    ensures forall j :: from_ <= j < i ==> !Free(t, SlotKey(kind, org, j), now)
    decreases SlotCount(kind) - from_
  {
    if from_ < SlotCount(kind) && !Free(t, SlotKey(kind, org, from_), now) {
      FirstFreeIsFirst(t, kind, org, now, from_ + 1, i);
    }
  }

  lemma {:induction false} BusySlotsArePassed(s: Sys, o: Owner, kind: WorkKind, org: nat, i: nat)
    requires o !in s.workers && i < SlotCount(kind)
    requires forall j :: 0 <= j < i ==> !Free(s.table, SlotKey(kind, org, j), s.clock.Floor)
    ensures Allowed(s, Attempts(o, kind, org, i))
    ensures var t := After(s, Attempts(o, kind, org, i));
            t.table == s.table && o in t.workers && t.workers[o] == Trying(kind, org, s.clock.Floor, i)
    decreases i
  {
    var steps := Attempts(o, kind, org, i);
    if i == 0 {
      assert steps[..0] == [] && Enabled(s, Begin(o, kind, org));
      assert After(s, steps) == Next(s, Begin(o, kind, org));
    } else {
      BusySlotsArePassed(s, o, kind, org, i - 1);
      assert steps[..|steps| - 1] == Attempts(o, kind, org, i - 1) && steps[|steps| - 1] == Try(o);
      var before := After(s, Attempts(o, kind, org, i - 1));
      BusyTryMovesOn(before, o);
      assert After(s, steps) == Next(before, Try(o));
    }
  }

  lemma BusyTryMovesOn(s: Sys, o: Owner)
    requires o in s.workers && s.workers[o].Trying?
    requires var w := s.workers[o]; !Free(s.table, SlotKey(w.kind, w.org, w.index), w.now) && w.index + 1 < SlotCount(w.kind)
    ensures var w := s.workers[o];
            && Enabled(s, Try(o))
            && Next(s, Try(o)) == s.(workers := s.workers[o := w.(index := w.index + 1)])
  {
  }

  // ---------------------------------------------------------------- the hypothesis is needed

  /** A body that outlives its lease can overlap the next one: two ingestion bodies at once. */
  lemma AnOverrunBodyOverlaps() returns (steps: seq<Step>)
    ensures Allowed(START, steps)
    ensures BodyOn(After(START, steps), 1, IngestionWork, 0) && BodyOn(After(START, steps), 2, IngestionWork, 0)
    ensures !WithinLease(After(START, steps), 1) && WithinLease(After(START, steps), 2)
  {
    var s1 := [Begin(1, IngestionWork, 0)];
    var s2 := s1 + [Try(1)];
    var s3 := s2 + [Debit(1, true)];
    var s4 := s3 + [Tick(600.0)];
    var s5 := s4 + [Begin(2, IngestionWork, 0)];
    var s6 := s5 + [Try(2)];
    var s7 := s6 + [Debit(2, true)];
    Extend([], Begin(1, IngestionWork, 0));
    Extend(s1, Try(1));
    Extend(s2, Debit(1, true));
    Extend(s3, Tick(600.0));
    Extend(s4, Begin(2, IngestionWork, 0));
    Extend(s5, Try(2));
    Extend(s6, Debit(2, true));
    steps := s7;
  }

  lemma Extend(steps: seq<Step>, step: Step)
    requires Allowed(START, steps) && Enabled(After(START, steps), step)
    ensures Allowed(START, steps + [step]) && After(START, steps + [step]) == Next(After(START, steps), step)
  {
    assert (steps + [step])[..|steps|] == steps;
  }
}
