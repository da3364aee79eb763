/** The per-client rate limiter table of internal/security/security.go.

    `RateLimiter` is the object as written, one method per critical section.
    `LimiterRuns` is the same object under concurrency: threads interleave at the
    grain of the read-locked lookup, the atomic store of the time stamp, the
    write-locked slow path and the write-locked clean-up. */
module RateLimiting {

  /** A client is known by its IP address, as text. */
  datatype ClientId = ClientId(address: string)

  /** A limiter is an identity; its token bucket is not modelled. */
  datatype Entry = Entry(limiter: nat, lastUsed: int)

  type Table = map<ClientId, Entry>

  predicate Oldest(t: Table, k: ClientId) {
    k in t && forall j | j in t :: t[k].lastUsed <= t[j].lastUsed
  }

  /** `k` is the entry evicted to make room: the oldest one at capacity, nobody below. */
  ghost predicate MakesRoom(t: Table, maxEntries: int, k: set<ClientId>) {
    if |t| >= maxEntries && t != map[] then exists o :: Oldest(t, o) && k == {o} else k == {}
  }

  /** The table after Allow(c): a known client keeps its limiter, a new one gets the
      limiter `serial` after the clients in `k` were evicted. */
  function Admitted(t: Table, c: ClientId, serial: nat, now: int, k: set<ClientId>): Table {
    if c in t then t[c := t[c].(lastUsed := now)] else (t - k)[c := Entry(serial, now)]
  }

  ghost predicate Admits(t: Table, t': Table, maxEntries: int, c: ClientId, serial: nat, now: int) {
    exists k :: (c !in t ==> MakesRoom(t, maxEntries, k)) && t' == Admitted(t, c, serial, now, k)
  }

  function Fresher(t: Table, cutoff: int): Table {
    map k | k in t && t[k].lastUsed >= cutoff :: t[k]
  }

  class RateLimiter {
    var entries: Table
    var limitersMade: nat
    const maxEntries: int
    const idleTTL: int

    constructor (maxEntries: int, idleTTL: int)
      ensures entries == map[] && limitersMade == 0
      ensures this.maxEntries == maxEntries && this.idleTTL == idleTTL
    {
      entries, limitersMade := map[], 0;
      this.maxEntries, this.idleTTL := maxEntries, idleTTL;
    }

    /** Allow: the fast path when the client is known, otherwise the slow path.
        `limiter` is the one whose bucket decides the call. */
    method Allow(c: ClientId, now: int) returns (limiter: nat)
      modifies this
      ensures Admits(old(entries), entries, maxEntries, c, old(limitersMade), now)
      ensures c in entries && limiter == entries[c].limiter
      ensures limitersMade == old(limitersMade) + if c in old(entries) then 0 else 1
    {
      if c in entries {
        entries := entries[c := entries[c].(lastUsed := now)];
        limiter := entries[c].limiter;
        assert entries == Admitted(old(entries), c, limitersMade, now, {});
      } else {
        limiter := AllowSlow(c, now);
      }
    }

    method AllowSlow(c: ClientId, now: int) returns (limiter: nat)
      modifies this
      ensures Admits(old(entries), entries, maxEntries, c, old(limitersMade), now)
      ensures c in entries && limiter == entries[c].limiter
      ensures limitersMade == old(limitersMade) + if c in old(entries) then 0 else 1
    {
      ghost var evicted: set<ClientId> := {};
      if c !in entries {
        if |entries| >= maxEntries {
          evicted := EvictOldest();
        }
        entries := entries[c := Entry(limitersMade, 0)];
        limitersMade := limitersMade + 1;
      }
      entries := entries[c := entries[c].(lastUsed := now)];
      limiter := entries[c].limiter;
      assert entries == Admitted(old(entries), c, old(limitersMade), now, evicted);
    }

    /** evictOldestLocked: a scan in map order keeping a running minimum. */
    method EvictOldest() returns (ghost evicted: set<ClientId>)
      modifies this`entries
      ensures entries == old(entries) - evicted
      ensures MakesRoom(old(entries), |old(entries)|, evicted)
    {
      var oldestKey, oldest, first := ClientId(""), 0, true;
      var rest := entries.Keys;
      while rest != {}
        invariant rest <= entries.Keys && entries == old(entries)
        invariant first <==> rest == entries.Keys
        invariant !first ==> oldestKey in entries && entries[oldestKey].lastUsed == oldest
        invariant !first ==> forall k | k in entries.Keys - rest :: oldest <= entries[k].lastUsed
        decreases rest
      {
        var k :| k in rest;
        var used := entries[k].lastUsed;
        if first || used < oldest {
          oldestKey, oldest, first := k, used, false;
        }
        rest := rest - {k};
      }
      evicted := {};
      if !first {
        assert Oldest(entries, oldestKey);
        evicted := {oldestKey};
        entries := entries - {oldestKey};
      }
    }

    /** Cleanup drops exactly the entries idle for longer than idleTTL. */
    method Cleanup(now: int)
      modifies this`entries
      ensures entries == Fresher(old(entries), now - idleTTL)
      ensures forall k :: k in entries <==> k in old(entries) && old(entries)[k].lastUsed >= now - idleTTL
      ensures forall k | k in entries :: entries[k] == old(entries)[k]
    {
      var rest := entries.Keys;
      while rest != {}
        invariant rest <= entries.Keys <= old(entries).Keys
        invariant forall k | k in entries :: entries[k] == old(entries)[k]
        invariant forall k | k in old(entries) && k !in rest ::
            k in entries <==> old(entries)[k].lastUsed >= now - idleTTL
        decreases rest
      {
        var k :| k in rest;
        rest := rest - {k};
        if entries[k].lastUsed < now - idleTTL {
          entries := entries - {k};
        }
      }
    }
  }
}

/** Interleavings of Allow and Cleanup. */
module LimiterRuns {
  import opened Helpers
  import opened RateLimiting

  type Tid = nat

  /** Where a thread is inside Allow.  `Storing` holds the read lock: the entry is
      found and the clock read, the stamp not yet stored.  `Missed` holds no lock. */
  datatype Phase =
    | Idle
    | Storing(client: ClientId, stamp: int, limiter: nat)
    | Missed(wanted: ClientId)

  datatype Event = Created(client: ClientId, limiter: nat) | Got(client: ClientId, limiter: nat)

  /** `stored` remembers the last stamp written for every client, evicted or not, and
      `latest` the latest clock reading of its finished calls: its last use. */
  datatype State = State(
    entries: Table,
    made: nat,
    phase: map<Tid, Phase>,
    clock: int,
    stored: map<ClientId, int>,
    latest: map<ClientId, int>,
    log: seq<Event>)

  datatype Params = Params(maxEntries: int, idleTTL: int, strictClock: bool)

  datatype Action =
    | Lookup(tid: Tid, client: ClientId, now: int)
    | Store(tid: Tid)
    | Slow(tid: Tid, now: int, evicted: set<ClientId>)
    | Cleanup(now: int)

  ghost predicate Init(s: State) {
    s.entries == map[] && s.phase == map[] && s.stored == map[] && s.latest == map[] && s.log == []
  }

  function Later(latest: map<ClientId, int>, c: ClientId, reading: int): map<ClientId, int> {
    if c in latest && latest[c] >= reading then latest else latest[c := reading]
  }

  predicate Ticks(p: Params, s: State, now: int) { p.strictClock ==> s.clock < now }

  ghost predicate NoReader(s: State) {
    forall t | t in s.phase :: !s.phase[t].Storing?
  }

  ghost predicate Next(p: Params, s: State, a: Action, s': State) {
    match a
    case Lookup(t, c, now) =>
      && (t in s.phase ==> s.phase[t].Idle?)
      && Ticks(p, s, now)
      && s' == if c in s.entries
               then s.(phase := s.phase[t := Storing(c, now, s.entries[c].limiter)], clock := now)
               else s.(phase := s.phase[t := Missed(c)])
    case Store(t) =>
      && t in s.phase && s.phase[t].Storing?
      && var c := s.phase[t].client;
      && c in s.entries
      && s' == s.(entries := s.entries[c := s.entries[c].(lastUsed := s.phase[t].stamp)],
                  phase := s.phase[t := Idle],
                  stored := s.stored[c := s.phase[t].stamp],
                  latest := Later(s.latest, c, s.phase[t].stamp),
                  log := s.log + [Got(c, s.phase[t].limiter)])
    case Slow(t, now, k) =>
      && t in s.phase && s.phase[t].Missed?
      && NoReader(s) && Ticks(p, s, now)
      && var c := s.phase[t].wanted;
      && (c !in s.entries ==> MakesRoom(s.entries, p.maxEntries, k))
      && var t1 := Admitted(s.entries, c, s.made, now, k);
      && s' == State(t1,
                     if c in s.entries then s.made else s.made + 1,
                     s.phase[t := Idle], now, s.stored[c := now], Later(s.latest, c, now),
                     (if c in s.entries then s.log else s.log + [Created(c, s.made)]) + [Got(c, t1[c].limiter)])
    case Cleanup(now) =>
      && NoReader(s) && Ticks(p, s, now)
      && s' == s.(entries := Fresher(s.entries, now - p.idleTTL), clock := now)
  }

  ghost predicate Run(p: Params, ss: seq<State>, acts: seq<Action>) {
    && |ss| == |acts| + 1
    && Init(ss[0])
    && forall i | 0 <= i < |acts| :: Next(p, ss[i], acts[i], ss[i+1])
  }

  /** The limiter of the newest entry made for `c`, if one was ever made. */
  function Newest(log: seq<Event>, c: ClientId): set<nat> {
    if log == [] then {}
    else
      var e := log[|log|-1];
      if e.Created? && e.client == c then {e.limiter} else Newest(log[..|log|-1], c)
  }

  /** Every call got the limiter of the newest creation before it: two calls with no
      creation of that client between them share one limiter. */
  ghost predicate OneLimiterPerLife(log: seq<Event>) {
    forall i | 0 <= i < |log| && log[i].Got? :: Newest(log[..i], log[i].client) == {log[i].limiter}
  }

  function Bound(p: Params): int { if p.maxEntries >= 1 then p.maxEntries else 1 }

  ghost predicate Safe(p: Params, s: State) {
    |s.entries| <= Bound(p) && LimitersAreOwn(s) && ReadersHoldEntries(s) && OneLimiterPerLife(s.log)
  }

  /** Every entry carries the limiter last made for its client, and no two share one. */
  ghost predicate LimitersAreOwn(s: State) {
    && (forall c | c in s.entries :: s.entries[c].limiter < s.made && Newest(s.log, c) == {s.entries[c].limiter})
    && (forall c, d | c in s.entries && d in s.entries && c != d :: s.entries[c].limiter != s.entries[d].limiter)
  }

  ghost predicate ReadersHoldEntries(s: State) {
    forall t | t in s.phase && s.phase[t].Storing? ::
      s.phase[t].client in s.entries && s.entries[s.phase[t].client].limiter == s.phase[t].limiter
  }

  lemma LogGrows(log: seq<Event>, e: Event)
    requires OneLimiterPerLife(log)
    requires e.Got? ==> Newest(log, e.client) == {e.limiter}
    ensures OneLimiterPerLife(log + [e])
    ensures forall c :: Newest(log + [e], c) == (if e.Created? && e.client == c then {e.limiter} else Newest(log, c))
  {
    var l := log + [e];
    assert l[..|log|] == log;
    forall i | 0 <= i < |l| && l[i].Got? ensures Newest(l[..i], l[i].client) == {l[i].limiter} {
      if i < |log| { assert l[..i] == log[..i]; }
    }
  }

  lemma RoomSize(t: Table, maxEntries: int, k: set<ClientId>)
    requires MakesRoom(t, maxEntries, k)
    ensures k <= t.Keys && |t.Keys - k| == |t| - |k|
    ensures |k| <= 1 && (|k| == 1 <==> |t| >= maxEntries && t != map[])
  {
    assert |t| == |t.Keys|;
  }

  lemma AdmittedFits(t: Table, maxEntries: int, c: ClientId, serial: nat, now: int, k: set<ClientId>)
    requires c !in t ==> MakesRoom(t, maxEntries, k)
    requires |t| <= if maxEntries >= 1 then maxEntries else 1
    ensures var t' := Admitted(t, c, serial, now, k);
      && |t'| <= (if maxEntries >= 1 then maxEntries else 1)
      && (c in t ==> |t'| == |t|)
      && (c !in t ==> |t'| == |t| - |k| + 1 && |k| <= 1 && (|k| == 1 <==> |t| >= maxEntries && t != map[]))
  {
    var t' := Admitted(t, c, serial, now, k);
    assert |t'| == |t'.Keys| && |t| == |t.Keys|;
    if c in t {
      assert t'.Keys == t.Keys;
    } else {
      RoomSize(t, maxEntries, k);
      assert t'.Keys == (t.Keys - k) + {c};
    }
  }

  lemma SlowLog(p: Params, s: State, t: Tid, now: int, k: set<ClientId>, s': State)
    requires Safe(p, s) && Next(p, s, Slow(t, now, k), s')
    ensures OneLimiterPerLife(s'.log)
    ensures forall d :: Newest(s'.log, d) == (if d == s.phase[t].wanted then {s'.entries[d].limiter} else Newest(s.log, d))
  {
    var c := s.phase[t].wanted;
    if c in s.entries {
      LogGrows(s.log, Got(c, s.entries[c].limiter));
    } else {
      LogGrows(s.log, Created(c, s.made));
      LogGrows(s.log + [Created(c, s.made)], Got(c, s.made));
    }
  }

  lemma SlowLimitersAreOwn(p: Params, s: State, t: Tid, now: int, k: set<ClientId>, s': State)
    requires LimitersAreOwn(s) && Next(p, s, Slow(t, now, k), s')
    requires forall d :: Newest(s'.log, d) == (if d == s.phase[t].wanted then {s'.entries[d].limiter} else Newest(s.log, d))
    ensures LimitersAreOwn(s')
  {
    var c := s.phase[t].wanted;
    forall d | d in s'.entries
      ensures s'.entries[d].limiter < s'.made && Newest(s'.log, d) == {s'.entries[d].limiter}
      ensures d != c ==> d in s.entries && s'.entries[d] == s.entries[d]
      ensures d == c && c !in s.entries ==> s'.entries[d].limiter == s.made
    {
    }
  }

  lemma SlowIsSafe(p: Params, s: State, t: Tid, now: int, k: set<ClientId>, s': State)
    requires Safe(p, s) && Next(p, s, Slow(t, now, k), s')
    ensures Safe(p, s')
  {
    SlowLog(p, s, t, now, k, s');
    SlowLimitersAreOwn(p, s, t, now, k, s');
    AdmittedFits(s.entries, p.maxEntries, s.phase[t].wanted, s.made, now, k);
  }

  lemma StoreIsSafe(p: Params, s: State, t: Tid, s': State)
    requires Safe(p, s) && Next(p, s, Store(t), s')
    ensures Safe(p, s')
  {
    assert s'.entries.Keys == s.entries.Keys && |s'.entries| == |s'.entries.Keys|;
    LogGrows(s.log, Got(s.phase[t].client, s.phase[t].limiter));
  }

  lemma SafeStep(p: Params, s: State, a: Action, s': State)
    requires Safe(p, s) && Next(p, s, a, s')
    ensures Safe(p, s')
  {
    match a
    case Lookup(t, c, now) =>
    case Store(t) => StoreIsSafe(p, s, t, s');
    case Slow(t, now, k) => SlowIsSafe(p, s, t, now, k, s');
    case Cleanup(now) =>
      SubsetSize(s'.entries.Keys, s.entries.Keys);
      assert |s'.entries| == |s'.entries.Keys| && |s.entries| == |s.entries.Keys|;
  }

  /** In every interleaving, with any clock: the table never outgrows its cap, no two
      clients share a limiter, and every call of a client between two creations of its
      entry is decided by the same limiter. */
  lemma {:induction false} RunsAreSafe(p: Params, ss: seq<State>, acts: seq<Action>, i: nat)
    requires Run(p, ss, acts) && i < |ss|
    ensures Safe(p, ss[i])
  {
    if i > 0 {
      RunsAreSafe(p, ss, acts, i - 1);
      SafeStep(p, ss[i-1], acts[i-1], ss[i]);
    }
  }

  // ---- Recency ----

  /** Resident entries carry the stamp last stored for them, no stamp was ever stored
      twice, and every client that is gone was stored before every resident one. */
  ghost predicate Recent(s: State) {
    StampsAreOwn(s) && RecencyClosed(s) && PendingAreNew(s)
  }

  ghost predicate StampsAreOwn(s: State) {
    && (forall c | c in s.entries :: c in s.stored && s.stored[c] == s.entries[c].lastUsed)
    && (forall c | c in s.stored :: s.stored[c] <= s.clock)
    && (forall c, d | c in s.stored && d in s.stored && c != d :: s.stored[c] != s.stored[d])
  }

  /** A client whose stamp is later than a resident's is itself resident. */
  ghost predicate RecencyClosed(s: State) {
    forall c, r | c in s.stored && r in s.entries && s.stored[c] > s.entries[r].lastUsed :: c in s.entries
  }

  /** A stamp read but not yet stored was never stored, belongs to one thread, and is
      later than the stamp of every client that is gone. */
  ghost predicate PendingAreNew(s: State) {
    && (forall t | t in s.phase && s.phase[t].Storing? :: PendingIsNew(s, s.phase[t].stamp))
    && (forall t, u | t in s.phase && u in s.phase && t != u && s.phase[t].Storing? && s.phase[u].Storing? ::
          s.phase[t].stamp != s.phase[u].stamp)
  }

  ghost predicate PendingIsNew(s: State, stamp: int) {
    && stamp <= s.clock
    && (forall c | c in s.stored :: s.stored[c] != stamp)
    && (forall c | c in s.stored && c !in s.entries :: s.stored[c] < stamp)
  }

  lemma EvictionKeepsRecency(t: Table, stored: map<ClientId, int>, maxEntries: int, k: set<ClientId>)
    requires MakesRoom(t, maxEntries, k)
    requires forall c | c in t :: c in stored && stored[c] == t[c].lastUsed
    requires forall c, r | c in stored && r in t && stored[c] > t[r].lastUsed :: c in t
    requires forall c, d | c in stored && d in stored && c != d :: stored[c] != stored[d]
    ensures forall c, r | c in stored && r in t - k && stored[c] > t[r].lastUsed :: c in t - k
  {
    if k != {} {
      var o :| Oldest(t, o) && k == {o};
    }
  }

  lemma SlowKeepsRecency(p: Params, s: State, t: Tid, now: int, k: set<ClientId>, s': State)
    requires p.strictClock && Recent(s) && Next(p, s, Slow(t, now, k), s')
    ensures RecencyClosed(s')
  {
    if s.phase[t].wanted !in s.entries { EvictionKeepsRecency(s.entries, s.stored, p.maxEntries, k); }
  }

  lemma SlowKeepsRecent(p: Params, s: State, t: Tid, now: int, k: set<ClientId>, s': State)
    requires p.strictClock && Recent(s) && Next(p, s, Slow(t, now, k), s')
    ensures Recent(s')
  {
    SlowKeepsRecency(p, s, t, now, k, s');
    forall u | u in s'.phase ensures !s'.phase[u].Storing? {}
    forall d | d in s'.entries
      ensures d in s'.stored && s'.stored[d] == s'.entries[d].lastUsed
    {
    }
  }

  lemma StoreKeepsStamps(p: Params, s: State, t: Tid, s': State)
    requires Recent(s) && Next(p, s, Store(t), s')
    ensures StampsAreOwn(s')
  {
    assert PendingIsNew(s, s.phase[t].stamp);
  }

  lemma StoreKeepsRecency(p: Params, s: State, t: Tid, s': State)
    requires Recent(s) && Next(p, s, Store(t), s')
    ensures RecencyClosed(s')
  {
    assert PendingIsNew(s, s.phase[t].stamp);
    assert s'.entries.Keys == s.entries.Keys;
  }

  lemma StoreKeepsPending(p: Params, s: State, t: Tid, s': State)
    requires Recent(s) && Next(p, s, Store(t), s')
    ensures PendingAreNew(s')
  {
    forall u | u in s'.phase && s'.phase[u].Storing? ensures PendingIsNew(s', s'.phase[u].stamp) {
      assert PendingIsNew(s, s.phase[u].stamp);
    }
  }

  lemma LookupKeepsRecent(p: Params, s: State, t: Tid, c: ClientId, now: int, s': State)
    requires p.strictClock && Recent(s) && Next(p, s, Lookup(t, c, now), s')
    ensures Recent(s')
  {
    forall u | u in s'.phase && s'.phase[u].Storing? ensures PendingIsNew(s', s'.phase[u].stamp) {
      if u != t { assert PendingIsNew(s, s.phase[u].stamp); }
    }
  }

  lemma RecentStep(p: Params, s: State, a: Action, s': State)
    requires p.strictClock && Safe(p, s) && Recent(s) && Next(p, s, a, s')
    ensures Recent(s')
  {
    match a
    case Lookup(t, c, now) => LookupKeepsRecent(p, s, t, c, now, s');
    case Store(t) =>
      StoreKeepsStamps(p, s, t, s');
      StoreKeepsRecency(p, s, t, s');
      StoreKeepsPending(p, s, t, s');
    case Slow(t, now, k) => SlowKeepsRecent(p, s, t, now, k, s');
    case Cleanup(now) =>
  }

  /** At capacity as soon as anybody was displaced. */
  ghost predicate DisplacesOnlyWhenFull(p: Params, s: State) {
    forall c | c in s.stored && c !in s.entries :: |s.entries| == Bound(p)
  }

  lemma FullStep(p: Params, s: State, a: Action, s': State)
    requires Safe(p, s) && DisplacesOnlyWhenFull(p, s) && Next(p, s, a, s')
    requires forall c | c in s.entries :: c in s.stored
    requires !a.Cleanup?
    ensures DisplacesOnlyWhenFull(p, s')
  {
    match a
    case Lookup(t, c, now) =>
    case Store(t) =>
      assert s'.entries.Keys == s.entries.Keys && |s'.entries| == |s'.entries.Keys| && |s.entries| == |s.entries.Keys|;
    case Slow(t, now, k) =>
      var c := s.phase[t].wanted;
      AdmittedFits(s.entries, p.maxEntries, c, s.made, now, k);
  }

  /** With a strictly increasing clock the resident set is closed under recency in every
      reachable state, Cleanup included. */
  lemma {:induction false} RunsKeepTheRecent(p: Params, ss: seq<State>, acts: seq<Action>, i: nat)
    requires Run(p, ss, acts) && p.strictClock && i < |ss|
    ensures Recent(ss[i])
  {
    if i > 0 {
      RunsAreSafe(p, ss, acts, i - 1);
      RunsKeepTheRecent(p, ss, acts, i - 1);
      RecentStep(p, ss[i-1], acts[i-1], ss[i]);
    }
  }

  lemma {:induction false} RunsFillUpFirst(p: Params, ss: seq<State>, acts: seq<Action>, i: nat)
    requires Run(p, ss, acts) && p.strictClock && i < |ss|
    requires forall j | 0 <= j < |acts| :: !acts[j].Cleanup?
    ensures DisplacesOnlyWhenFull(p, ss[i])
  {
    if i > 0 {
      RunsAreSafe(p, ss, acts, i - 1);
      RunsKeepTheRecent(p, ss, acts, i - 1);
      RunsFillUpFirst(p, ss, acts, i - 1);
      FullStep(p, ss[i-1], acts[i-1], ss[i]);
    }
  }

  /** In every interleaving a clean-up drops the clients stored before its cutoff, and leaves
      the others with their limiters and stamps. */
  lemma CleanupDropsTheIdle(p: Params, ss: seq<State>, acts: seq<Action>, i: nat)
    requires Run(p, ss, acts) && i < |acts| && acts[i].Cleanup?
    ensures forall c :: c in ss[i+1].entries <==> c in ss[i].entries && ss[i].entries[c].lastUsed >= acts[i].now - p.idleTTL
    ensures forall c | c in ss[i+1].entries :: ss[i+1].entries[c] == ss[i].entries[c]
    ensures ss[i+1].log == ss[i].log && ss[i+1].stored == ss[i].stored
  {
    assert Next(p, ss[i], acts[i], ss[i+1]);
  }

  function LaterClients(s: State, c: ClientId): set<ClientId>
    requires c in s.stored
  {
    set d | d in s.stored && s.stored[d] > s.stored[c]
  }

  /** Least recently used, exactly: without Cleanup a client that was ever admitted is
      resident iff fewer than the cap were stored after it. */
  lemma ResidentsAreTheLatest(p: Params, ss: seq<State>, acts: seq<Action>, c: ClientId)
    requires Run(p, ss, acts) && p.strictClock
    requires forall i | 0 <= i < |acts| :: !acts[i].Cleanup?
    requires c in ss[|acts|].stored
    ensures c in ss[|acts|].entries <==> |LaterClients(ss[|acts|], c)| < Bound(p)
  {
    RunsAreSafe(p, ss, acts, |acts|);
    RunsKeepTheRecent(p, ss, acts, |acts|);
    RunsFillUpFirst(p, ss, acts, |acts|);
    var s := ss[|acts|];
    var later := LaterClients(s, c);
    assert |s.entries| == |s.entries.Keys|;
    if c in s.entries {
      assert later <= s.entries.Keys - {c};
      SubsetSize(later, s.entries.Keys - {c});
    } else {
      forall r | r in s.entries ensures r in later {
        assert !(s.stored[c] > s.entries[r].lastUsed);
      }
      SubsetSize(s.entries.Keys, later);
    }
  }

  // ---- Recency of use ----

  ghost predicate Overlap(s: State, t: Tid, u: Tid) {
    && t in s.phase && u in s.phase && t != u
    && s.phase[t].Storing? && s.phase[u].Storing? && s.phase[t].client == s.phase[u].client
  }

  /** No client has two calls at once between reading the clock and storing the stamp. */
  ghost predicate NoOverlap(s: State) { forall t, u :: !Overlap(s, t, u) }

  /** Stamps are last uses, and a stamp still to be stored will be one. */
  ghost predicate StampsAreUses(s: State) {
    && s.stored == s.latest
    && forall t | t in s.phase && s.phase[t].Storing? && s.phase[t].client in s.stored ::
         s.stored[s.phase[t].client] < s.phase[t].stamp
  }

  lemma StampsAreUsesStep(p: Params, s: State, a: Action, s': State)
    requires p.strictClock && Recent(s) && StampsAreUses(s) && NoOverlap(s) && Next(p, s, a, s')
    ensures StampsAreUses(s')
  {
    match a
    case Lookup(t, c, now) =>
    case Store(t) =>
      forall u | u in s'.phase && s'.phase[u].Storing? && s'.phase[u].client in s'.stored
        ensures s'.stored[s'.phase[u].client] < s'.phase[u].stamp
      {
        assert !Overlap(s, t, u);
      }
    case Slow(t, now, k) =>
    case Cleanup(now) =>
  }

  lemma {:induction false} StampsAreLastUses(p: Params, ss: seq<State>, acts: seq<Action>, i: nat)
    requires Run(p, ss, acts) && p.strictClock && i < |ss|
    requires forall j | 0 <= j < i :: NoOverlap(ss[j])
    ensures StampsAreUses(ss[i])
  {
    if i > 0 {
      StampsAreLastUses(p, ss, acts, i - 1);
      RunsKeepTheRecent(p, ss, acts, i - 1);
      StampsAreUsesStep(p, ss[i-1], acts[i-1], ss[i]);
    }
  }

  /** Without overlapping calls of one client, a client used later than a resident one is
      resident: recency is that of use, clean-up included. */
  lemma UsedLaterIsResident(p: Params, ss: seq<State>, acts: seq<Action>, i: nat, c: ClientId, r: ClientId)
    requires Run(p, ss, acts) && p.strictClock && i < |ss|
    requires forall j | 0 <= j < i :: NoOverlap(ss[j])
    requires c in ss[i].latest && r in ss[i].entries
    ensures r in ss[i].latest && (ss[i].latest[c] > ss[i].latest[r] ==> c in ss[i].entries)
  {
    StampsAreLastUses(p, ss, acts, i);
    RunsKeepTheRecent(p, ss, acts, i);
  }

  /** ... and without clean-up the residents are exactly the most recently used clients. */
  lemma ResidentsByLastUse(p: Params, ss: seq<State>, acts: seq<Action>, c: ClientId)
    requires Run(p, ss, acts) && p.strictClock
    requires forall i | 0 <= i < |acts| :: !acts[i].Cleanup?
    requires forall i | 0 <= i < |acts| :: NoOverlap(ss[i])
    requires c in ss[|acts|].latest
    ensures var s := ss[|acts|];
      c in s.entries <==> |set d | d in s.latest && s.latest[d] > s.latest[c]| < Bound(p)
  {
    StampsAreLastUses(p, ss, acts, |acts|);
    ResidentsAreTheLatest(p, ss, acts, c);
    var s := ss[|acts|];
    assert LaterClients(s, c) == set d | d in s.latest && s.latest[d] > s.latest[c];
  }

  lemma Extend(p: Params, ss: seq<State>, acts: seq<Action>, a: Action, s': State) returns (ss': seq<State>, acts': seq<Action>)
    requires Run(p, ss, acts) && Next(p, ss[|acts|], a, s')
    ensures Run(p, ss', acts') && ss' == ss + [s'] && acts' == acts + [a]
  {
    ss', acts' := ss + [s'], acts + [a];
  }

  function Stored(s: State, t: Tid): State
    requires t in s.phase && s.phase[t].Storing? && s.phase[t].client in s.entries
  {
    var c, x := s.phase[t].client, s.phase[t].stamp;
    s.(entries := s.entries[c := s.entries[c].(lastUsed := x)], phase := s.phase[t := Idle],
       stored := s.stored[c := x], latest := Later(s.latest, c, x), log := s.log + [Got(c, s.phase[t].limiter)])
  }

  lemma StoredNext(p: Params, s: State, t: Tid)
    requires t in s.phase && s.phase[t].Storing? && s.phase[t].client in s.entries
    ensures Next(p, s, Store(t), Stored(s, t))
  {
  }

  /** The condition cannot be dropped anywhere: from every reachable overlap the two stores
      can come in the other order, and then the stamp is not the last use. */
  lemma OverlapCanReorder(p: Params, ss: seq<State>, acts: seq<Action>, t: Tid, u: Tid)
    returns (ss': seq<State>, acts': seq<Action>)
    requires Run(p, ss, acts) && p.strictClock && Overlap(ss[|acts|], t, u)
    ensures Run(p, ss', acts') && ss <= ss' && acts <= acts'
    ensures var c, s' := ss[|acts|].phase[t].client, ss'[|acts'|];
      c in s'.stored && c in s'.latest && s'.stored[c] < s'.latest[c]
  {
    RunsAreSafe(p, ss, acts, |acts|);
    RunsKeepTheRecent(p, ss, acts, |acts|);
    var s := ss[|acts|];
    var first, second := if s.phase[t].stamp > s.phase[u].stamp then t else u, if s.phase[t].stamp > s.phase[u].stamp then u else t;
    var s1 := Stored(s, first);
    StoredNext(p, s, first);
    ss', acts' := Extend(p, ss, acts, Store(first), s1);
    StoredNext(p, s1, second);
    ss', acts' := Extend(p, ss', acts', Store(second), Stored(s1, second));
  }

  // ---- A run that evicts the client used last ----

  const TWO_ENTRIES := Params(2, 0, true)

  const NEW_TABLE := State(map[], 0, map[], 0, map[], map[], [])

  /** Clients `a` and `b` are resident since readings 1 and 2. */
  lemma BothResident(a: ClientId, b: ClientId) returns (ss: seq<State>, acts: seq<Action>)
    requires a != b
    ensures Run(TWO_ENTRIES, ss, acts)
    ensures var s := ss[|acts|];
      && s.entries == map[a := Entry(0, 1), b := Entry(1, 2)] && s.phase == map[0 := Idle] && s.made == 2
      && s.clock == 2 && s.stored == map[a := 1, b := 2] == s.latest
  {
    ss, acts := [NEW_TABLE], [];
    ss, acts := Extend(TWO_ENTRIES, ss, acts, Lookup(0, a, 1), NEW_TABLE.(phase := map[0 := Missed(a)]));
    var s2 := State(map[a := Entry(0, 1)], 1, map[0 := Idle], 1, map[a := 1], map[a := 1], [Created(a, 0), Got(a, 0)]);
    assert NEW_TABLE.log + [Created(a, 0)] + [Got(a, 0)] == s2.log;
    ss, acts := Extend(TWO_ENTRIES, ss, acts, Slow(0, 1, {}), s2);
    ss, acts := Extend(TWO_ENTRIES, ss, acts, Lookup(0, b, 2), s2.(phase := map[0 := Missed(b)]));
    var s4 := State(map[a := Entry(0, 1), b := Entry(1, 2)], 2, map[0 := Idle], 2, map[a := 1, b := 2], map[a := 1, b := 2],
      s2.log + [Created(b, 1)] + [Got(b, 1)]);
    ss, acts := Extend(TWO_ENTRIES, ss, acts, Slow(0, 2, {}), s4);
  }

  /** Threads 0 and 2 look `a` up at readings 3 and 5, thread 1 `b` at reading 4; thread 2
      stores first, thread 0 last. */
  lemma StampsCross(a: ClientId, b: ClientId) returns (ss: seq<State>, acts: seq<Action>)
    requires a != b
    ensures Run(TWO_ENTRIES, ss, acts)
    ensures var s := ss[|acts|];
      && s.entries == map[a := Entry(0, 3), b := Entry(1, 4)] && s.phase == map[0 := Idle, 1 := Idle, 2 := Idle]
      && s.clock == 5 && s.latest == map[a := 5, b := 4]
  {
    ss, acts := BothResident(a, b);
    var s0 := ss[|acts|];
    var s1 := s0.(phase := map[0 := Storing(a, 3, 0)], clock := 3);
    ss, acts := Extend(TWO_ENTRIES, ss, acts, Lookup(0, a, 3), s1);
    var s2 := s1.(phase := map[0 := Storing(a, 3, 0), 1 := Storing(b, 4, 1)], clock := 4);
    ss, acts := Extend(TWO_ENTRIES, ss, acts, Lookup(1, b, 4), s2);
    var s3 := s2.(phase := map[0 := Storing(a, 3, 0), 1 := Storing(b, 4, 1), 2 := Storing(a, 5, 0)], clock := 5);
    ss, acts := Extend(TWO_ENTRIES, ss, acts, Lookup(2, a, 5), s3);
    var s4 := Stored(s3, 2);
    ss, acts := Extend(TWO_ENTRIES, ss, acts, Store(2), s4);
    var s5 := Stored(s4, 1);
    ss, acts := Extend(TWO_ENTRIES, ss, acts, Store(1), s5);
    ss, acts := Extend(TWO_ENTRIES, ss, acts, Store(0), Stored(s5, 0));
  }

  /** Then a third client takes the place of `a`, which was used last, and `b` stays. */
  lemma OverlapEvictsTheLastUsed(a: ClientId, b: ClientId, e: ClientId) returns (ss: seq<State>, acts: seq<Action>)
    requires a != b && b != e && a != e
    ensures Run(TWO_ENTRIES, ss, acts)
    ensures var s := ss[|acts|];
      && a in s.latest && b in s.latest && s.latest[a] > s.latest[b]
      && a !in s.entries && b in s.entries && e in s.entries
  {
    ss, acts := StampsCross(a, b);
    var s := ss[|acts|];
    var s1 := s.(phase := s.phase[0 := Missed(e)]);
    ss, acts := Extend(TWO_ENTRIES, ss, acts, Lookup(0, e, 6), s1);
    assert |s1.entries| == 2 && Oldest(s1.entries, a);
    assert MakesRoom(s1.entries, 2, {a});
    var t1 := Admitted(s1.entries, e, s1.made, 6, {a});
    var s2 := State(t1, s1.made + 1, s1.phase[0 := Idle], 6, s1.stored[e := 6], Later(s1.latest, e, 6),
      s1.log + [Created(e, s1.made)] + [Got(e, t1[e].limiter)]);
    ss, acts := Extend(TWO_ENTRIES, ss, acts, Slow(0, 6, {a}), s2);
  }
}
