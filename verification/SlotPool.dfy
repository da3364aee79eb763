/** The semaphore pools of internal/metrics/scraper.go and internal/metrics/strategies.go
    as one step system: a spawner walks a device list and starts a goroutine a device,
    every collection holds one slot of a buffered channel, failures are reported, and the
    spawner waits for the group.  The three pools differ in their parameters:

      ScrapeClientMetrics  spawnerAcquires, errors appended under a mutex, tag filter
      ParallelStrategy     workers acquire or give up, errors sent to a bounded channel
      AdaptiveStrategy     workers acquire or give up, errors not reported */
module SlotPool {
  import opened Helpers

  datatype Reporting = Nowhere | BoundedChannel | GuardedList

  datatype Params = Params(matching: seq<bool>, slots: nat, spawnerAcquires: bool, reporting: Reporting)

  /** Unspawned, before the semaphore, inside CollectDeviceMetrics or scrapeClient, about
      to report an error, and the two deferred calls in the order they run. */
  datatype Phase = Unspawned | Waiting | Collecting | Reporting | Releasing | Leaving | Finished

  datatype Outcome = Pending | Skipped | Collected | Failed | GaveUp

  datatype State = State(
    phase: seq<Phase>,
    outcome: seq<Outcome>,
    spawned: nat,
    spawnerHolds: bool,
    held: nat,
    errors: seq<nat>,
    collections: multiset<nat>,
    cancelled: bool,
    returned: bool)

  datatype Action =
    | Skip | TakeSlot | Spawn
    | Acquire(i: nat) | GiveUp(i: nat) | Collect(i: nat, ok: bool) | Report(i: nat) | Release(i: nat) | Leave(i: nat)
    | Return
    | Cancel

  function Start(p: Params): State {
    State(seq(|p.matching|, _ => Unspawned), seq(|p.matching|, _ => Pending), 0, false, 0, [], multiset{}, false, false)
  }

  predicate At(s: State, i: nat, ph: Phase) { i < |s.phase| && s.phase[i] == ph }

  /** Can action `a` happen now?  A send to the full channel and an acquisition of a full
      semaphore are the blocking operations. */
  predicate Enabled(p: Params, s: State, a: Action)
    requires |s.phase| == |s.outcome| == |p.matching|
  {
    match a
    case Skip => s.spawned < |p.matching| && !p.matching[s.spawned]
    case TakeSlot =>
      p.spawnerAcquires && !s.spawnerHolds && s.spawned < |p.matching| && p.matching[s.spawned] && s.held < p.slots
    case Spawn => s.spawned < |p.matching| && p.matching[s.spawned] && s.spawnerHolds == p.spawnerAcquires
    case Acquire(i) => At(s, i, Waiting) && s.held < p.slots
    case GiveUp(i) => At(s, i, Waiting) && s.cancelled
    case Collect(i, _) => At(s, i, Collecting)
    case Report(i) => At(s, i, Phase.Reporting) && (p.reporting.BoundedChannel? ==> |s.errors| < |p.matching|)
    case Release(i) => At(s, i, Releasing) && s.held > 0
    case Leave(i) => At(s, i, Leaving)
    case Return => !s.returned && s.spawned == |p.matching| && forall i | 0 <= i < |s.phase| :: s.phase[i] == Finished
    case Cancel => !s.cancelled
  }

  function Move(s: State, i: nat, ph: Phase, oc: Outcome): State
    requires i < |s.phase| == |s.outcome|
  {
    s.(phase := s.phase[i := ph], outcome := s.outcome[i := oc])
  }

  function Apply(p: Params, s: State, a: Action): State
    requires |s.phase| == |s.outcome| == |p.matching| && Enabled(p, s, a)
  {
    match a
    case Skip => Move(s, s.spawned, Finished, Skipped).(spawned := s.spawned + 1)
    case TakeSlot => s.(spawnerHolds := true, held := s.held + 1)
    case Spawn =>
      Move(s, s.spawned, if p.spawnerAcquires then Collecting else Waiting, Pending)
        .(spawned := s.spawned + 1, spawnerHolds := false)
    case Acquire(i) => Move(s, i, Collecting, Pending).(held := s.held + 1)
    case GiveUp(i) => Move(s, i, if p.reporting.Nowhere? then Leaving else Phase.Reporting, GaveUp)
    case Collect(i, ok) =>
      Move(s, i, if ok || p.reporting.Nowhere? then Releasing else Phase.Reporting, if ok then Collected else Failed)
        .(collections := s.collections + multiset{i})
    case Report(i) =>
      Move(s, i, if s.outcome[i] == Failed then Releasing else Leaving, s.outcome[i]).(errors := s.errors + [i])
    case Release(i) => Move(s, i, Leaving, s.outcome[i]).(held := s.held - 1)
    case Leave(i) => Move(s, i, Finished, s.outcome[i])
    case Return => s.(returned := true)
    case Cancel => s.(cancelled := true)
  }

  ghost predicate Run(p: Params, ss: seq<State>, acts: seq<Action>) {
    && |ss| == |acts| + 1 && ss[0] == Start(p)
    && forall k | 0 <= k < |acts| ::
      && |ss[k].phase| == |ss[k].outcome| == |p.matching|
      && Enabled(p, ss[k], acts[k]) && ss[k+1] == Apply(p, ss[k], acts[k])
  }

  // ---- What every step keeps ----

  predicate Holds(ph: Phase, oc: Outcome) {
    ph == Collecting || ph == Releasing || (ph == Phase.Reporting && oc == Failed)
  }

  /** Workers between taking a slot and giving it back. */
  function Holders(s: State): set<nat>
    requires |s.phase| == |s.outcome|
  {
    set i: nat | i < |s.phase| && Holds(s.phase[i], s.outcome[i])
  }

  predicate HasReported(ph: Phase, oc: Outcome) {
    (oc == Failed || oc == GaveUp) && ph != Phase.Reporting
  }

  function Reporters(s: State): set<nat>
    requires |s.phase| == |s.outcome|
  {
    set i: nat | i < |s.phase| && HasReported(s.phase[i], s.outcome[i])
  }

  ghost predicate Shape(p: Params, s: State) {
    && |s.phase| == |s.outcome| == |p.matching|
    && s.spawned <= |p.matching|
    && (forall i | 0 <= i < |s.phase| :: s.phase[i] == Unspawned <==> i >= s.spawned)
    && (s.spawnerHolds ==> p.spawnerAcquires && s.spawned < |p.matching| && p.matching[s.spawned])
  }

  predicate Fits(p: Params, cancelled: bool, ph: Phase, oc: Outcome, matches: bool) {
    && (oc == GaveUp ==> cancelled && !p.spawnerAcquires)
    && (oc == Skipped ==> !matches)
    && match ph
       case Unspawned => oc == Pending
       case Waiting => oc == Pending && !p.spawnerAcquires && matches
       case Collecting => oc == Pending && matches
       case Reporting => (oc == Failed || oc == GaveUp) && matches && !p.reporting.Nowhere?
       case Releasing => (oc == Collected || oc == Failed) && matches
       case Leaving => oc != Pending && oc != Skipped && matches
       case Finished => if matches then oc != Pending && oc != Skipped else oc == Skipped
  }

  ghost predicate OutcomesFit(p: Params, s: State)
    requires |s.phase| == |s.outcome| == |p.matching|
  {
    && (forall i | 0 <= i < |s.phase| :: Fits(p, s.cancelled, s.phase[i], s.outcome[i], p.matching[i]))
    && (s.returned ==> s.spawned == |p.matching| && forall i | 0 <= i < |s.phase| :: s.phase[i] == Finished)
  }

  /** Held slots are exactly the workers in flight, plus the spawner's own for a moment. */
  ghost predicate SlotsMatch(p: Params, s: State)
    requires |s.phase| == |s.outcome|
  {
    s.held == |Holders(s)| + (if s.spawnerHolds then 1 else 0) && s.held <= p.slots
  }

  /** One entry an error, and none besides. */
  ghost predicate ErrorsMatch(p: Params, s: State)
    requires |s.phase| == |s.outcome|
  {
    if p.reporting.Nowhere? then s.errors == []
    else |s.errors| == |Reporters(s)| && forall i :: i in s.errors <==> i in Reporters(s)
  }

  predicate WasCollected(s: State, i: nat) {
    i < |s.outcome| && (s.outcome[i] == Collected || s.outcome[i] == Failed)
  }

  ghost predicate CollectedOnce(s: State)
    requires |s.phase| == |s.outcome|
  {
    forall i: nat :: s.collections[i] == if WasCollected(s, i) then 1 else 0
  }

  ghost predicate Inv(p: Params, s: State) {
    Shape(p, s) && OutcomesFit(p, s) && SlotsMatch(p, s) && ErrorsMatch(p, s) && CollectedOnce(s)
  }

  lemma StartInv(p: Params)
    ensures Inv(p, Start(p))
  {
    assert Holders(Start(p)) == {} && Reporters(Start(p)) == {};
  }

  lemma MoveSets(s: State, i: nat, ph: Phase, oc: Outcome)
    requires i < |s.phase| == |s.outcome|
    ensures Holders(Move(s, i, ph, oc)) == if Holds(ph, oc) then Holders(s) + {i} else Holders(s) - {i}
    ensures Reporters(Move(s, i, ph, oc)) == if HasReported(ph, oc) then Reporters(s) + {i} else Reporters(s) - {i}
  {
  }

  /** The worker an action moves; for the spawner, the worker about to start. */
  function Mover(s: State, a: Action): nat {
    match a
    case Acquire(i) => i case GiveUp(i) => i case Collect(i, _) => i
    case Report(i) => i case Release(i) => i case Leave(i) => i
    case _ => s.spawned
  }

  /** Every action moves at most one worker. */
  lemma OneMove(p: Params, s: State, a: Action)
    requires Shape(p, s) && OutcomesFit(p, s) && Enabled(p, s, a)
    ensures var s', i := Apply(p, s, a), Mover(s, a);
      && (a.Return? || a.Cancel? || a.TakeSlot? ==> s'.phase == s.phase && s'.outcome == s.outcome)
      && (!(a.Return? || a.Cancel? || a.TakeSlot?) ==>
            && i < |s.phase|
            && s'.phase == s.phase[i := s'.phase[i]] && s'.outcome == s.outcome[i := s'.outcome[i]]
            && Fits(p, s.cancelled, s'.phase[i], s'.outcome[i], p.matching[i])
            && s'.phase[i] != Unspawned && !s.returned)
  {
  }

  lemma ShapeStep(p: Params, s: State, a: Action)
    requires Inv(p, s) && Enabled(p, s, a)
    ensures Shape(p, Apply(p, s, a)) && OutcomesFit(p, Apply(p, s, a))
  {
    OneMove(p, s, a);
    var s' := Apply(p, s, a);
    assert s.cancelled ==> s'.cancelled;
    forall j | 0 <= j < |s'.phase|
      ensures Fits(p, s'.cancelled, s'.phase[j], s'.outcome[j], p.matching[j])
    {
      assert Fits(p, s.cancelled, s.phase[j], s.outcome[j], p.matching[j]);
    }
  }

  lemma SetsStep(p: Params, s: State, a: Action)
    requires Inv(p, s) && Enabled(p, s, a)
    ensures var s', i := Apply(p, s, a), Mover(s, a);
      if a.Return? || a.Cancel? || a.TakeSlot? then Holders(s') == Holders(s) && Reporters(s') == Reporters(s)
      else
        && Holders(s') == (if Holds(s'.phase[i], s'.outcome[i]) then Holders(s) + {i} else Holders(s) - {i})
        && Reporters(s') == (if HasReported(s'.phase[i], s'.outcome[i]) then Reporters(s) + {i} else Reporters(s) - {i})
  {
    OneMove(p, s, a);
    var s', i := Apply(p, s, a), Mover(s, a);
    if a.Return? || a.Cancel? || a.TakeSlot? {
    } else {
      MoveSets(s, i, s'.phase[i], s'.outcome[i]);
      var moved := Move(s, i, s'.phase[i], s'.outcome[i]);
      assert Holders(s') == Holders(moved) && Reporters(s') == Reporters(moved);
    }
  }

  predicate TakesSlot(p: Params, a: Action) {
    a.Acquire? || (a.Spawn? && p.spawnerAcquires)
  }

  lemma HoldsStep(p: Params, s: State, a: Action)
    requires Shape(p, s) && OutcomesFit(p, s) && Enabled(p, s, a) && Mover(s, a) < |s.phase|
    requires !(a.Return? || a.Cancel? || a.TakeSlot?)
    ensures var s', i := Apply(p, s, a), Mover(s, a);
      && (Holds(s'.phase[i], s'.outcome[i]) <==> TakesSlot(p, a) || (!a.Release? && Holds(s.phase[i], s.outcome[i])))
      && (TakesSlot(p, a) ==> !Holds(s.phase[i], s.outcome[i]))
      && (a.Release? ==> Holds(s.phase[i], s.outcome[i]))
  {
    var i := Mover(s, a);
    assert Fits(p, s.cancelled, s.phase[i], s.outcome[i], p.matching[i]);
  }

  lemma HoldersStep(p: Params, s: State, a: Action)
    requires Inv(p, s) && Enabled(p, s, a)
    ensures Holders(Apply(p, s, a)) ==
      if TakesSlot(p, a) then Holders(s) + {Mover(s, a)}
      else if a.Release? then Holders(s) - {a.i}
      else Holders(s)
    ensures TakesSlot(p, a) ==> Mover(s, a) !in Holders(s)
    ensures a.Release? ==> a.i in Holders(s)
  {
    SetsStep(p, s, a);
    var s', i := Apply(p, s, a), Mover(s, a);
    if !(a.Return? || a.Cancel? || a.TakeSlot?) {
      OneMove(p, s, a);
      HoldsStep(p, s, a);
      assert i in Holders(s) <==> Holds(s.phase[i], s.outcome[i]);
    }
  }

  lemma SlotsStep(p: Params, s: State, a: Action)
    requires Inv(p, s) && Enabled(p, s, a)
    ensures SlotsMatch(p, Apply(p, s, a))
  {
    HoldersStep(p, s, a);
  }

  lemma ReportersStep(p: Params, s: State, a: Action)
    requires Inv(p, s) && Enabled(p, s, a) && !p.reporting.Nowhere?
    ensures Reporters(Apply(p, s, a)) == if a.Report? then Reporters(s) + {a.i} else Reporters(s)
    ensures a.Report? ==> a.i !in Reporters(s)
  {
    SetsStep(p, s, a);
    var s', i := Apply(p, s, a), Mover(s, a);
    if !(a.Return? || a.Cancel? || a.TakeSlot?) {
      OneMove(p, s, a);
      assert Fits(p, s.cancelled, s.phase[i], s.outcome[i], p.matching[i]);
      assert !a.Report? ==> HasReported(s'.phase[i], s'.outcome[i]) == HasReported(s.phase[i], s.outcome[i]);
    }
  }

  lemma ErrorsStep(p: Params, s: State, a: Action)
    requires Inv(p, s) && Enabled(p, s, a)
    ensures ErrorsMatch(p, Apply(p, s, a))
  {
    if !p.reporting.Nowhere? {
      ReportersStep(p, s, a);
      if a.Report? {
        assert forall j :: j in s.errors + [a.i] <==> j in s.errors || j == a.i;
      }
    }
  }

  lemma CollectCounts(p: Params, s: State, a: Action)
    requires Shape(p, s) && OutcomesFit(p, s) && CollectedOnce(s) && Enabled(p, s, a) && a.Collect?
    ensures CollectedOnce(Apply(p, s, a))
  {
    var s' := Apply(p, s, a);
    assert !WasCollected(s, a.i) && WasCollected(s', a.i);
    forall i: nat ensures s'.collections[i] == if WasCollected(s', i) then 1 else 0 {
      if i != a.i { assert WasCollected(s', i) == WasCollected(s, i); }
    }
  }

  lemma OthersCountTheSame(p: Params, s: State, a: Action)
    requires Shape(p, s) && OutcomesFit(p, s) && CollectedOnce(s) && Enabled(p, s, a) && !a.Collect?
    ensures CollectedOnce(Apply(p, s, a))
  {
    var s' := Apply(p, s, a);
    forall i: nat ensures WasCollected(s', i) == WasCollected(s, i) {}
  }

  lemma CollectionsStep(p: Params, s: State, a: Action)
    requires Inv(p, s) && Enabled(p, s, a)
    ensures CollectedOnce(Apply(p, s, a))
  {
    OneMove(p, s, a);
    if a.Collect? {
      CollectCounts(p, s, a);
    } else {
      OthersCountTheSame(p, s, a);
    }
  }

  /** In every interleaving, with or without cancellation. */
  lemma {:induction false} RunsKeepInv(p: Params, ss: seq<State>, acts: seq<Action>, k: nat)
    requires Run(p, ss, acts) && k < |ss|
    ensures Inv(p, ss[k])
  {
    if k == 0 {
      StartInv(p);
    } else {
      RunsKeepInv(p, ss, acts, k - 1);
      ShapeStep(p, ss[k-1], acts[k-1]);
      SlotsStep(p, ss[k-1], acts[k-1]);
      ErrorsStep(p, ss[k-1], acts[k-1]);
      CollectionsStep(p, ss[k-1], acts[k-1]);
    }
  }

  // ---- Main results ----

  function InFlight(s: State): set<nat> {
    set i: nat | i < |s.phase| && s.phase[i] == Collecting
  }

  ghost function Indices(n: nat): (r: set<nat>)
    ensures |r| == n && forall i: nat :: i in r <==> i < n
  {
    if n == 0 then {} else Indices(n - 1) + {n - 1}
  }

  /** Never more collections than slots, and the workers in flight are the held slots. */
  lemma ConcurrencyIsBounded(p: Params, ss: seq<State>, acts: seq<Action>, k: nat)
    requires Run(p, ss, acts) && k < |ss|
    ensures |ss[k].phase| == |ss[k].outcome|
    ensures |InFlight(ss[k])| <= |Holders(ss[k])| <= ss[k].held <= p.slots
    ensures !ss[k].spawnerHolds ==> ss[k].held == |Holders(ss[k])|
  {
    RunsKeepInv(p, ss, acts, k);
    SubsetSize(InFlight(ss[k]), Holders(ss[k]));
  }

  /** A worker with an error to send always finds room in the channel. */
  lemma SendersNeverBlock(p: Params, ss: seq<State>, acts: seq<Action>, k: nat, i: nat)
    requires Run(p, ss, acts) && k < |ss| && At(ss[k], i, Phase.Reporting)
    ensures |ss[k].phase| == |ss[k].outcome| == |p.matching| && Enabled(p, ss[k], Report(i))
  {
    RunsKeepInv(p, ss, acts, k);
    var s := ss[k];
    assert i !in Reporters(s);
    SubsetSize(Reporters(s), Indices(|p.matching|));
  }

  /** The next step of a worker that is past the semaphore. */
  function Onward(s: State, i: nat): Action
    requires i < |s.phase| && s.phase[i] != Unspawned && s.phase[i] != Waiting && s.phase[i] != Finished
  {
    match s.phase[i]
    case Collecting => Collect(i, true)
    case Reporting => Report(i)
    case Releasing => Release(i)
    case Leaving => Leave(i)
  }

  lemma WorkersMoveOn(p: Params, ss: seq<State>, acts: seq<Action>, k: nat, i: nat)
    requires Run(p, ss, acts) && k < |ss|
    requires i < |ss[k].phase| && ss[k].phase[i] != Unspawned && ss[k].phase[i] != Waiting && ss[k].phase[i] != Finished
    ensures Inv(p, ss[k]) && Enabled(p, ss[k], Onward(ss[k], i))
  {
    RunsKeepInv(p, ss, acts, k);
    if ss[k].phase[i] == Phase.Reporting { SendersNeverBlock(p, ss, acts, k, i); }
    if ss[k].phase[i] == Releasing { assert i in Holders(ss[k]); }
  }

  /** No reachable state is stuck: with at least one slot, until the call has returned
      some action other than an outside cancellation can happen. */
  lemma NeverStuck(p: Params, ss: seq<State>, acts: seq<Action>, k: nat) returns (a: Action)
    requires Run(p, ss, acts) && k < |ss| && !ss[k].returned && p.slots >= 1
    ensures a != Cancel && Inv(p, ss[k]) && Enabled(p, ss[k], a)
  {
    RunsKeepInv(p, ss, acts, k);
    var s := ss[k];
    if i: nat :| i < |s.phase| && s.phase[i] != Unspawned && s.phase[i] != Waiting && s.phase[i] != Finished {
      WorkersMoveOn(p, ss, acts, k, i);
      a := Onward(s, i);
    } else {
      assert Holders(s) == {};
      if s.spawned < |p.matching| {
        a := if !p.matching[s.spawned] then Skip else if s.spawnerHolds == p.spawnerAcquires then Spawn else TakeSlot;
      } else if i: nat :| i < |s.phase| && s.phase[i] == Waiting {
        a := Acquire(i);
      } else {
        a := Return;
      }
    }
  }

  function Rank(ph: Phase): nat {
    match ph
    case Unspawned => 6 case Waiting => 5 case Collecting => 4 case Reporting => 3
    case Releasing => 2 case Leaving => 1 case Finished => 0
  }

  function TotalRank(phases: seq<Phase>): nat {
    if phases == [] then 0 else Rank(phases[0]) + TotalRank(phases[1..])
  }

  function Measure(s: State): nat {
    2 * TotalRank(s.phase) + (if s.spawnerHolds then 0 else 1) + (if s.returned then 0 else 1) + (if s.cancelled then 0 else 1)
  }

  lemma {:induction false} RankUpdate(phases: seq<Phase>, i: nat, ph: Phase)
    requires i < |phases|
    ensures TotalRank(phases[i := ph]) == TotalRank(phases) - Rank(phases[i]) + Rank(ph)
  {
    if i == 0 {
      assert phases[0 := ph][1..] == phases[1..];
    } else {
      RankUpdate(phases[1..], i - 1, ph);
      assert phases[i := ph][1..] == phases[1..][i-1 := ph];
    }
  }

  /** Every step, whichever it is, brings the end nearer. */
  lemma StepsDecrease(p: Params, s: State, a: Action)
    requires Inv(p, s) && Enabled(p, s, a)
    ensures Measure(Apply(p, s, a)) < Measure(s)
  {
    OneMove(p, s, a);
    var s', i := Apply(p, s, a), Mover(s, a);
    if !(a.Return? || a.Cancel? || a.TakeSlot?) {
      RankUpdate(s.phase, i, s'.phase[i]);
      assert Rank(s'.phase[i]) < Rank(s.phase[i]);
    }
  }

  /** Any run can be carried on to the return, without an outside cancellation. */
  lemma {:induction false} AlwaysReturns(p: Params, ss: seq<State>, acts: seq<Action>)
    returns (ss': seq<State>, acts': seq<Action>)
    requires Run(p, ss, acts) && p.slots >= 1
    ensures Run(p, ss', acts') && ss <= ss' && acts <= acts' && ss'[|acts'|].returned
    ensures forall k | |acts| <= k < |acts'| :: acts'[k] != Cancel
    decreases Measure(ss[|acts|])
  {
    var s := ss[|acts|];
    if s.returned { return ss, acts; }
    var a := NeverStuck(p, ss, acts, |acts|);
    StepsDecrease(p, s, a);
    ss', acts' := AlwaysReturns(p, ss + [Apply(p, s, a)], acts + [a]);
  }

  /** What the call leaves behind when it returns. */
  lemma AtReturn(p: Params, ss: seq<State>, acts: seq<Action>, k: nat)
    requires Run(p, ss, acts) && k < |ss| && ss[k].returned
    ensures |ss[k].outcome| == |p.matching| && ss[k].held == 0
    // a device is collected exactly once iff it matches and its worker did not give up
    ensures forall i | 0 <= i < |p.matching| ::
      ss[k].collections[i] == if p.matching[i] && ss[k].outcome[i] != GaveUp then 1 else 0
    ensures !ss[k].cancelled || p.spawnerAcquires ==> forall i | 0 <= i < |p.matching| :: ss[k].outcome[i] != GaveUp
    // one error for each device that matches and was not collected well
    ensures !p.reporting.Nowhere? ==>
      && |ss[k].errors| == |set i | i in ss[k].errors|
      && forall i: nat :: i in ss[k].errors <==> i < |p.matching| && p.matching[i] && ss[k].outcome[i] != Collected
  {
    RunsKeepInv(p, ss, acts, k);
    var s := ss[k];
    forall i | 0 <= i < |p.matching|
      ensures Fits(p, s.cancelled, Finished, s.outcome[i], p.matching[i])
    {
      assert Fits(p, s.cancelled, s.phase[i], s.outcome[i], p.matching[i]);
    }
    assert Holders(s) == {};
    if !p.reporting.Nowhere? {
      assert (set i | i in s.errors) == Reporters(s);
      forall i: nat ensures i in s.errors <==> i < |p.matching| && p.matching[i] && s.outcome[i] != Collected {
        if i < |p.matching| { assert Fits(p, s.cancelled, Finished, s.outcome[i], p.matching[i]); }
      }
    }
  }

  /** The error the caller sees, nil iff every matching device was collected well. */
  lemma NilIffAllCollected(p: Params, ss: seq<State>, acts: seq<Action>, k: nat)
    requires Run(p, ss, acts) && k < |ss| && ss[k].returned && !p.reporting.Nowhere?
    ensures |ss[k].outcome| == |p.matching|
    ensures ss[k].errors == [] <==> forall i | 0 <= i < |p.matching| && p.matching[i] :: ss[k].outcome[i] == Collected
  {
    AtReturn(p, ss, acts, k);
    var s := ss[k];
    if s.errors != [] { assert s.errors[0] in s.errors; }
  }

  lemma NobodyHolds(s: State)
    requires |s.phase| == |s.outcome| && |Holders(s)| == 0
    ensures forall i: nat | i < |s.phase| :: !Holds(s.phase[i], s.outcome[i])
  {
    forall i: nat | i < |s.phase| ensures !Holds(s.phase[i], s.outcome[i]) {
      assert i !in Holders(s);
    }
  }

  lemma NothingToCollect(p: Params, s: State, a: Action)
    requires p.slots == 0 && Inv(p, s) && Enabled(p, s, a)
    ensures Apply(p, s, a).collections == s.collections
  {
    NobodyHolds(s);
  }

  lemma {:induction false} NoSlotNoCollection(p: Params, ss: seq<State>, acts: seq<Action>, k: nat)
    requires Run(p, ss, acts) && k < |ss| && p.slots == 0
    ensures ss[k].collections == multiset{}
  {
    if k > 0 {
      NoSlotNoCollection(p, ss, acts, k - 1);
      RunsKeepInv(p, ss, acts, k - 1);
      NothingToCollect(p, ss[k-1], acts[k-1]);
    }
  }

  /** With no slot and a matching device, an uncancelled call never returns, and once the
      spawner is through (or blocked) nothing but a cancellation can happen. */
  lemma NoSlotIsStuck(p: Params, ss: seq<State>, acts: seq<Action>, k: nat)
    requires Run(p, ss, acts) && k < |ss| && p.slots == 0 && !ss[k].cancelled
    requires exists i :: 0 <= i < |p.matching| && p.matching[i]
    ensures !ss[k].returned
    ensures |ss[k].phase| == |ss[k].outcome| == |p.matching|
    ensures ss[k].spawned <= |p.matching|
    ensures ss[k].spawned == |p.matching| || (p.spawnerAcquires && p.matching[ss[k].spawned]) ==>
      forall a | Enabled(p, ss[k], a) :: a == Cancel
  {
    RunsKeepInv(p, ss, acts, k);
    NoSlotNoCollection(p, ss, acts, k);
    var s := ss[k];
    var m: nat :| m < |p.matching| && p.matching[m];
    if s.returned {
      AtReturn(p, ss, acts, k);
      assert false;
    }
    NobodyHolds(s);
    forall i | 0 <= i < |s.phase|
      ensures s.phase[i] == Unspawned || s.phase[i] == Waiting || (s.phase[i] == Finished && !p.matching[i])
    {
      assert Fits(p, s.cancelled, s.phase[i], s.outcome[i], p.matching[i]);
      assert s.collections[i] == 0;
    }
    if s.spawned == |p.matching| || (p.spawnerAcquires && p.matching[s.spawned]) {
      assert s.phase[m] != Finished;
    }
  }
}
