/** The three users of the slot pool: ScrapeClientMetrics, ParallelStrategy.Execute and
    AdaptiveStrategy.Execute. */
module Pools {
  import opened Identifiers
  import opened SlotPool
  import opened AdaptiveScraping

  type Tag = string

  method HasTag(tags: seq<Tag>, tag: Tag) returns (found: bool)
    ensures found <==> tag in tags
  {
    for i := 0 to |tags|
      invariant tag !in tags[..i]
    {
      if tags[i] == tag { return true; }
    }
    return false;
  }

  predicate Wanted(tags: seq<Tag>, requiredTag: Tag) { requiredTag == "" || requiredTag in tags }

  /** The pool of ScrapeClientMetrics over devices with these tags. */
  function ScrapePool(devices: seq<seq<Tag>>, requiredTag: Tag, maxConcurrentScrapes: nat): Params {
    Params(seq(|devices|, i requires 0 <= i < |devices| => Wanted(devices[i], requiredTag)),
           maxConcurrentScrapes, true, GuardedList)
  }

  function ParallelPool(devices: nat, concurrency: nat): Params {
    Params(seq(devices, _ => true), concurrency, false, BoundedChannel)
  }

  function AdaptivePool(devices: nat, concurrency: nat): Params {
    Params(seq(devices, _ => true), concurrency, false, Nowhere)
  }

  /** When ScrapeClientMetrics returns, cancelled or not, every device with the tag was
      scraped exactly once and no other, errs has one entry a failed scrape, and the
      result is nil iff none failed. */
  lemma ScrapesEachWantedDeviceOnce(devices: seq<seq<Tag>>, tag: Tag, max: nat, ss: seq<State>, acts: seq<Action>, k: nat)
    requires Run(ScrapePool(devices, tag, max), ss, acts) && k < |ss| && ss[k].returned
    ensures |ss[k].outcome| == |devices|
    ensures forall i | 0 <= i < |devices| :: ss[k].collections[i] == if tag == "" || tag in devices[i] then 1 else 0
    ensures |ss[k].errors| == |set i: nat | i < |devices| && ss[k].outcome[i] == Failed|
    ensures ss[k].errors == [] <==>
      forall i | 0 <= i < |devices| && (tag == "" || tag in devices[i]) :: ss[k].outcome[i] == Collected
  {
    var p := ScrapePool(devices, tag, max);
    RunsKeepInv(p, ss, acts, k);
    AtReturn(p, ss, acts, k);
    NilIffAllCollected(p, ss, acts, k);
    var s := ss[k];
    forall i: nat | i < |devices| ensures i in Reporters(s) <==> s.outcome[i] == Failed {
      assert Fits(p, s.cancelled, s.phase[i], s.outcome[i], p.matching[i]);
    }
    assert Reporters(s) == set i: nat | i < |devices| && s.outcome[i] == Failed;
  }

  /** At most `max` scrapes are in flight, and while fewer are nobody waits for a slot. */
  lemma ScrapesInFlight(devices: seq<seq<Tag>>, tag: Tag, max: nat, ss: seq<State>, acts: seq<Action>, k: nat)
    requires Run(ScrapePool(devices, tag, max), ss, acts) && k < |ss|
    ensures |set i: nat | i < |ss[k].phase| && ss[k].phase[i] == Collecting| <= max
    ensures |ss[k].phase| == |ss[k].outcome| == |devices|
    ensures var s := ss[k];
      s.spawned < |devices| && (tag == "" || tag in devices[s.spawned]) && !s.spawnerHolds && |Holders(s)| < max ==>
        Enabled(ScrapePool(devices, tag, max), s, TakeSlot)
  {
    RunsKeepInv(ScrapePool(devices, tag, max), ss, acts, k);
    ConcurrencyIsBounded(ScrapePool(devices, tag, max), ss, acts, k);
  }

  /** The same of ParallelStrategy.Execute and its workers. */
  lemma ParallelInFlight(devices: nat, concurrency: nat, ss: seq<State>, acts: seq<Action>, k: nat)
    requires Run(ParallelPool(devices, concurrency), ss, acts) && k < |ss|
    ensures |set i: nat | i < |ss[k].phase| && ss[k].phase[i] == Collecting| <= concurrency
    ensures |ss[k].phase| == |ss[k].outcome| == devices
    ensures forall i | At(ss[k], i, Waiting) && |Holders(ss[k])| < concurrency ::
      Enabled(ParallelPool(devices, concurrency), ss[k], Acquire(i))
  {
    RunsKeepInv(ParallelPool(devices, concurrency), ss, acts, k);
    ConcurrencyIsBounded(ParallelPool(devices, concurrency), ss, acts, k);
  }

  /** In the groups of AdaptiveStrategy at most maxConcurrency, half of it, or one. */
  lemma AdaptiveInFlight(devices: seq<DeviceId>, hist: map<DeviceId, Performance>, thr: real, maxConcurrency: nat, g: Group,
                         ss: seq<State>, acts: seq<Action>, k: nat)
    requires Run(PoolOf(devices, hist, thr, maxConcurrency, g), ss, acts) && k < |ss|
    ensures var n := |set i: nat | i < |ss[k].phase| && ss[k].phase[i] == Collecting|;
      (g == High ==> n <= maxConcurrency) && (g == Medium ==> 2 * n <= maxConcurrency) && (g == Low ==> n <= 1)
    ensures |ss[k].phase| == |ss[k].outcome|
    ensures forall i | At(ss[k], i, Waiting) ::
      (var n := |Holders(ss[k])|;
       (g == High && n < maxConcurrency) || (g == Medium && 2 * n + 1 < maxConcurrency) || (g == Low && n < 1)) ==>
        |ss[k].phase| == |PoolOf(devices, hist, thr, maxConcurrency, g).matching|
        && Enabled(PoolOf(devices, hist, thr, maxConcurrency, g), ss[k], Acquire(i))
  {
    RunsKeepInv(PoolOf(devices, hist, thr, maxConcurrency, g), ss, acts, k);
    ConcurrencyIsBounded(PoolOf(devices, hist, thr, maxConcurrency, g), ss, acts, k);
  }

  /** Execute returns nil iff every device was collected without error; with a device
      that failed or gave up it returns one of the errors sent. */
  lemma ParallelResult(devices: nat, concurrency: nat, ss: seq<State>, acts: seq<Action>, k: nat)
    requires Run(ParallelPool(devices, concurrency), ss, acts) && k < |ss| && ss[k].returned
    ensures |ss[k].outcome| == devices
    ensures ss[k].errors == [] <==> forall i | 0 <= i < devices :: ss[k].outcome[i] == Collected
    ensures !ss[k].cancelled ==> forall i | 0 <= i < devices :: ss[k].collections[i] == 1
  {
    AtReturn(ParallelPool(devices, concurrency), ss, acts, k);
    NilIffAllCollected(ParallelPool(devices, concurrency), ss, acts, k);
  }

  // ---- Adaptive execution ----

  datatype GroupRun = GroupRun(ss: seq<State>, acts: seq<Action>)

  ghost predicate Finishes(p: Params, r: GroupRun) {
    Run(p, r.ss, r.acts) && r.ss[|r.acts|].returned && !r.ss[|r.acts|].cancelled
  }

  /** The positions collected by a group, each as often as it was. */
  function Gathered(members: seq<nat>, collections: multiset<nat>): multiset<nat> {
    if members == [] then multiset{}
    else
      var n := |members| - 1;
      Gathered(members[..n], collections)[members[n] := Gathered(members[..n], collections)[members[n]] + collections[n]]
  }

  lemma {:induction false} GatheredOnce(members: seq<nat>, collections: multiset<nat>, i: nat)
    requires forall j, k | 0 <= j < k < |members| :: members[j] < members[k]
    requires forall j | 0 <= j < |members| :: collections[j] == 1
    ensures Gathered(members, collections)[i] == if i in members then 1 else 0
  {
    if members != [] {
      var n := |members| - 1;
      GatheredOnce(members[..n], collections, i);
      assert members == members[..n] + [members[n]];
    }
  }

  function PoolOf(devices: seq<DeviceId>, hist: map<DeviceId, Performance>, thr: real, maxConcurrency: nat, g: Group): Params {
    AdaptivePool(|Members(devices, hist, thr, g)|, Concurrency(maxConcurrency, g))
  }

  function GatheredBy(devices: seq<DeviceId>, hist: map<DeviceId, Performance>, thr: real, g: Group, r: GroupRun): multiset<nat>
    requires |r.ss| == |r.acts| + 1
  {
    Gathered(Members(devices, hist, thr, g), r.ss[|r.acts|].collections)
  }

  lemma GroupGathersItsMembers(devices: seq<DeviceId>, hist: map<DeviceId, Performance>, thr: real, maxConcurrency: nat,
                               g: Group, r: GroupRun, i: nat)
    requires Finishes(PoolOf(devices, hist, thr, maxConcurrency, g), r) && i < |devices|
    ensures GatheredBy(devices, hist, thr, g, r)[i] == if CategoryOf(hist, devices[i], thr) == g then 1 else 0
  {
    MembersArePositions(devices, hist, thr, g);
    AtReturn(PoolOf(devices, hist, thr, maxConcurrency, g), r.ss, r.acts, |r.acts|);
    GatheredOnce(Members(devices, hist, thr, g), r.ss[|r.acts|].collections, i);
  }

  /** An uncancelled Execute, whatever order the groups are taken in and however their
      workers interleave, collects every listed device exactly once. */
  lemma AdaptiveCollectsEachOnce(devices: seq<DeviceId>, hist: map<DeviceId, Performance>, thr: real, maxConcurrency: nat,
                                 high: GroupRun, medium: GroupRun, low: GroupRun, i: nat)
    requires Finishes(PoolOf(devices, hist, thr, maxConcurrency, High), high)
    requires Finishes(PoolOf(devices, hist, thr, maxConcurrency, Medium), medium)
    requires Finishes(PoolOf(devices, hist, thr, maxConcurrency, Low), low)
    requires i < |devices|
    ensures (GatheredBy(devices, hist, thr, High, high) + GatheredBy(devices, hist, thr, Medium, medium)
             + GatheredBy(devices, hist, thr, Low, low))[i] == 1
  {
    GroupGathersItsMembers(devices, hist, thr, maxConcurrency, High, high, i);
    GroupGathersItsMembers(devices, hist, thr, maxConcurrency, Medium, medium, i);
    GroupGathersItsMembers(devices, hist, thr, maxConcurrency, Low, low, i);
  }

  lemma {:induction false} CancelledByCancel(p: Params, ss: seq<State>, acts: seq<Action>, k: nat)
    requires Run(p, ss, acts) && k < |ss| && ss[k].cancelled
    ensures exists j :: 0 <= j < k && acts[j] == Cancel
  {
    if k > 0 && acts[k-1] != Cancel {
      CancelledByCancel(p, ss, acts, k - 1);
    }
  }

  /** A group can finish without a cancellation iff it has a slot or no member.  With
      maxConcurrency 1 the medium group has no slot, so there it must be empty. */
  lemma GroupFinishesIff(devices: seq<DeviceId>, hist: map<DeviceId, Performance>, thr: real, maxConcurrency: nat, g: Group)
    requires maxConcurrency >= 1
    ensures (exists r :: Finishes(PoolOf(devices, hist, thr, maxConcurrency, g), r))
       <==> (g != Medium || maxConcurrency >= 2 || Members(devices, hist, thr, g) == [])
  {
    var p := PoolOf(devices, hist, thr, maxConcurrency, g);
    if p.slots >= 1 {
      var ss, acts := AlwaysReturns(p, [Start(p)], []);
      if ss[|acts|].cancelled { CancelledByCancel(p, ss, acts, |acts|); }
      assert Finishes(p, GroupRun(ss, acts));
    } else if |p.matching| == 0 {
      var s := Start(p);
      assert Finishes(p, GroupRun([s, Apply(p, s, Return)], [Return]));
    } else {
      assert p.matching[0];
      if r :| Finishes(p, r) {
        NoSlotIsStuck(p, r.ss, r.acts, |r.acts|);
        assert false;
      }
    }
  }

  /** What Validate lets through with maxConcurrency 1: once the goroutines of a non-empty
      medium group are started, only an outside cancellation can happen. */
  lemma MediumGroupHangs(devices: seq<DeviceId>, hist: map<DeviceId, Performance>, thr: real, ss: seq<State>, acts: seq<Action>, k: nat)
    requires Members(devices, hist, thr, Medium) != []
    requires Run(PoolOf(devices, hist, thr, 1, Medium), ss, acts) && k < |ss|
    requires !ss[k].cancelled && ss[k].spawned == |Members(devices, hist, thr, Medium)|
    ensures !ss[k].returned && |ss[k].phase| == |ss[k].outcome| == |PoolOf(devices, hist, thr, 1, Medium).matching|
    ensures forall a | Enabled(PoolOf(devices, hist, thr, 1, Medium), ss[k], a) :: a == Cancel
  {
    var p := PoolOf(devices, hist, thr, 1, Medium);
    assert p.matching[0];
    NoSlotIsStuck(p, ss, acts, k);
  }
}
