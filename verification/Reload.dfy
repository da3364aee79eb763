/** DynamicConfig of internal/config/dynamic.go, one call at a time. */
module DynamicConfiguration {
  import opened PriorityLists

  /** Configurations are compared by their JSON encoding, so that is what one is. */
  datatype Config = Config(json: string)

  type Validator = nat
  type Handler = nat

  datatype Result = Installed | Invalid(validator: Validator) | Unchanged | Refused(handler: Handler)

  /** `x` is the first of `xs` to say no. */
  ghost predicate FirstRefusal(xs: seq<nat>, x: nat, yes: nat -> bool) {
    exists i :: 0 <= i < |xs| && xs[i] == x && !yes(x) && forall k | 0 <= k < i :: yes(xs[k])
  }

  function ValuesOf(items: seq<Item<Handler>>): seq<Handler> {
    seq(|items|, i requires 0 <= i < |items| => items[i].value)
  }

  class DynamicConfig {
    var current: Config
    var version: int
    var validators: seq<Validator>
    var changeHandlers: array<Item<Handler>>
    var reloadInProgress: bool
    ghost var added: seq<Item<Handler>>

    ghost predicate Valid()
      reads this, changeHandlers
    {
      StablySorts(added, changeHandlers[..])
    }

    constructor (initial: Config)
      ensures Valid() && current == initial && version == 1 && validators == [] && added == [] && fresh(changeHandlers)
      ensures !reloadInProgress
    {
      current, version, validators, reloadInProgress := initial, 1, [], false;
      changeHandlers := new Item<Handler>[0];
      added := [];
    }

    method AddValidator(v: Validator)
      requires Valid()
      modifies this`validators
      ensures validators == old(validators) + [v] && Valid()
    {
      validators := validators + [v];
    }

    method AddChangeHandler(h: Item<Handler>)
      requires Valid()
      modifies this`changeHandlers, this`added, changeHandlers
      ensures Valid() && fresh(changeHandlers) && added == old(added) + [h]
    {
      var before := changeHandlers[..];
      var longer := new Item<Handler>[|before| + 1](i => if 0 <= i < |before| then before[i] else h);
      assert longer[..] == before + [h];
      AppendKeepsOrder(added, before, h);
      SortByPriority(longer);
      changeHandlers := longer;
      added := added + [h];
    }

    /** handleConfigChange without interference.  `accepts` and `applies` are the answers
        of the validators and the handlers. */
    method HandleConfigChange(c: Config, accepts: (Validator, Config) -> bool, applies: (Handler, Config, Config) -> bool)
      returns (r: Result)
      requires Valid()
      modifies this`current, this`version, this`reloadInProgress
      ensures Valid() && !reloadInProgress
      ensures r == Installed <==>
        && (forall v | v in validators :: accepts(v, c))
        && c != old(current)
        && (forall i | 0 <= i < changeHandlers.Length :: applies(changeHandlers[i].value, old(current), c))
      ensures r == Unchanged <==> (forall v | v in validators :: accepts(v, c)) && c == old(current)
      ensures r.Invalid? ==> FirstRefusal(validators, r.validator, (v: Validator) => accepts(v, c))
      ensures r.Refused? ==>
        && (forall v | v in validators :: accepts(v, c)) && c != old(current)
        && FirstRefusal(ValuesOf(changeHandlers[..]), r.handler, (h: Handler) => applies(h, old(current), c))
      ensures r == Installed ==> current == c && version == old(version) + 1
      ensures r != Installed ==> current == old(current) && version == old(version)
    {
      reloadInProgress := true;
      for i := 0 to |validators|
        invariant reloadInProgress && current == old(current) && version == old(version)
        invariant forall k | 0 <= k < i :: accepts(validators[k], c)
      {
        if !accepts(validators[i], c) {
          reloadInProgress := false;
          return Invalid(validators[i]);
        }
      }
      var oldConfig := current;
      if oldConfig == c {
        reloadInProgress := false;
        return Unchanged;
      }
      for i := 0 to changeHandlers.Length
        invariant reloadInProgress && current == old(current) && version == old(version)
        invariant forall k | 0 <= k < i :: applies(changeHandlers[k].value, oldConfig, c)
      {
        if !applies(changeHandlers[i].value, oldConfig, c) {
          reloadInProgress := false;
          assert ValuesOf(changeHandlers[..])[i] == changeHandlers[i].value;
          return Refused(changeHandlers[i].value);
        }
      }
      current, version := c, version + 1;
      reloadInProgress := false;
      r := Installed;
    }
  }
}

/** Reloads that overlap.  Every test of the in-progress flag, read-locked copy, validator
    call, handler call and locked write is a step of its own.  A forced or periodic reload
    tests the flag, loads its configuration and then begins; a change the watcher delivers
    begins without a test. */
module ReloadRuns {
  import opened DynamicConfiguration

  import opened PriorityLists

  type CallId = nat

  /** A handler in the list, with its priority. */
  type Listed = Item<Handler>

  datatype Stage =
    | Begun
    | Validating(done: nat)
    | Read
    | Differs
    | Handling(done: nat)
    | Replaced
    | Stopped

  /** A call of handleConfigChange and what it has read so far. */
  datatype Call = Call(
    cfg: Config, stage: Stage, vs: seq<Validator>, seen: Config, hs: seq<Listed>, cleared: bool)

  datatype Event =
    | CopiedValidators(call: CallId, vs: seq<Validator>)
    | Accepted(call: CallId, v: Validator, cfg: Config)
    | CopiedHandlers(call: CallId, hs: seq<Listed>)
    | Applied(call: CallId, h: Listed, seen: Config, cfg: Config)
    | Wrote(call: CallId, cfg: Config)

  datatype State = State(
    current: Config, version: int, validators: seq<Validator>, handlers: seq<Listed>,
    inProgress: bool, passed: nat, calls: seq<Call>, log: seq<Event>)

  /** `passed` counts the forced and periodic reloads that found the flag down and have not
      begun.  `Validate` and `Handle` carry the answer, `AddHandler` the list it leads to. */
  datatype Action =
    | AddValidator(v: Validator)
    | AddHandler(h: Listed, hs: seq<Listed>)
    | Check
    | LoadFails
    | Begin(cfg: Config, checked: bool)
    | CopyValidators(c: CallId)
    | Validate(c: CallId, ok: bool)
    | ReadCurrent(c: CallId)
    | Compare(c: CallId)
    | CopyHandlers(c: CallId)
    | Handle(c: CallId, ok: bool)
    | Write(c: CallId)
    | ClearFlag(c: CallId)

  predicate At(s: State, c: CallId, st: Stage) { c < |s.calls| && s.calls[c].stage == st }

  ghost predicate Enabled(s: State, a: Action) {
    match a
    case AddValidator(_) => true
    case AddHandler(h, hs) => StablySorts(s.handlers + [h], hs)
    case Check => true
    case LoadFails => s.passed > 0
    case Begin(_, checked) => checked ==> s.passed > 0
    case CopyValidators(c) => At(s, c, Begun)
    case Validate(c, _) => c < |s.calls| && s.calls[c].stage.Validating? && s.calls[c].stage.done < |s.calls[c].vs|
    case ReadCurrent(c) => c < |s.calls| && At(s, c, Validating(|s.calls[c].vs|))
    case Compare(c) => At(s, c, Read)
    case CopyHandlers(c) => At(s, c, Differs)
    case Handle(c, _) => c < |s.calls| && s.calls[c].stage.Handling? && s.calls[c].stage.done < |s.calls[c].hs|
    case Write(c) => c < |s.calls| && At(s, c, Handling(|s.calls[c].hs|))
    case ClearFlag(c) => (At(s, c, Replaced) || At(s, c, Stopped)) && !s.calls[c].cleared
  }

  function With(s: State, c: CallId, call: Call, events: seq<Event>): State
    requires c < |s.calls|
  {
    s.(calls := s.calls[c := call], log := s.log + events)
  }

  function Apply(s: State, a: Action): State
    requires Enabled(s, a)
  {
    match a
    case AddValidator(v) => s.(validators := s.validators + [v])
    case AddHandler(_, hs) => s.(handlers := hs)
    case Check => if s.inProgress then s else s.(passed := s.passed + 1)
    case LoadFails => s.(passed := s.passed - 1)
    case Begin(cfg, checked) =>
      s.(inProgress := true, passed := if checked then s.passed - 1 else s.passed,
         calls := s.calls + [Call(cfg, Begun, [], cfg, [], false)])
    case CopyValidators(c) =>
      With(s, c, s.calls[c].(stage := Validating(0), vs := s.validators), [CopiedValidators(c, s.validators)])
    case Validate(c, ok) =>
      var k := s.calls[c];
      if ok then With(s, c, k.(stage := Validating(k.stage.done + 1)), [Accepted(c, k.vs[k.stage.done], k.cfg)])
      else With(s, c, k.(stage := Stopped), [])
    case ReadCurrent(c) =>
      With(s, c, s.calls[c].(stage := Read, seen := s.current), [])
    case Compare(c) =>
      With(s, c, s.calls[c].(stage := if s.calls[c].seen == s.calls[c].cfg then Stopped else Differs), [])
    case CopyHandlers(c) =>
      With(s, c, s.calls[c].(stage := Handling(0), hs := s.handlers), [CopiedHandlers(c, s.handlers)])
    case Handle(c, ok) =>
      var k := s.calls[c];
      if ok then With(s, c, k.(stage := Handling(k.stage.done + 1)), [Applied(c, k.hs[k.stage.done], k.seen, k.cfg)])
      else With(s, c, k.(stage := Stopped), [])
    case Write(c) =>
      With(s, c, s.calls[c].(stage := Replaced), [Wrote(c, s.calls[c].cfg)])
        .(current := s.calls[c].cfg, version := s.version + 1)
    case ClearFlag(c) => With(s, c, s.calls[c].(cleared := true), []).(inProgress := false)
  }

  function Start(initial: Config): State { State(initial, 1, [], [], false, 0, [], []) }

  ghost predicate Run(initial: Config, ss: seq<State>, acts: seq<Action>) {
    && |ss| == |acts| + 1 && ss[0] == Start(initial)
    && forall k | 0 <= k < |acts| :: Enabled(ss[k], acts[k]) && ss[k+1] == Apply(ss[k], acts[k])
  }

  // ---- The trace of one call ----

  /** The events of call `c`, in order. */
  function Trace(log: seq<Event>, c: CallId): seq<Event> {
    if log == [] then []
    else
      var e := log[|log|-1];
      Trace(log[..|log|-1], c) + (if e.call == c then [e] else [])
  }

  function Acceptances(c: CallId, vs: seq<Validator>, cfg: Config): seq<Event> {
    seq(|vs|, i requires 0 <= i < |vs| => Accepted(c, vs[i], cfg))
  }

  function Applications(c: CallId, hs: seq<Listed>, seen: Config, cfg: Config): seq<Event> {
    seq(|hs|, i requires 0 <= i < |hs| => Applied(c, hs[i], seen, cfg))
  }

  /** Every validator of the copied list accepted the configuration. */
  function AllAccepted(c: CallId, k: Call): seq<Event> {
    [CopiedValidators(c, k.vs)] + Acceptances(c, k.vs, k.cfg)
  }

  /** ... and then every handler of the copied list applied it. */
  function AllApplied(c: CallId, k: Call): seq<Event> {
    AllAccepted(c, k) + ([CopiedHandlers(c, k.hs)] + Applications(c, k.hs, k.seen, k.cfg))
  }

  /** What a call has done so far, from its stage. */
  ghost predicate TraceFits(c: CallId, k: Call, trace: seq<Event>) {
    match k.stage
    case Begun => trace == []
    case Validating(n) => n <= |k.vs| && trace == [CopiedValidators(c, k.vs)] + Acceptances(c, k.vs[..n], k.cfg)
    case Read => trace == AllAccepted(c, k)
    case Differs => trace == AllAccepted(c, k)
    case Handling(n) =>
      n <= |k.hs| && trace == AllAccepted(c, k) + ([CopiedHandlers(c, k.hs)] + Applications(c, k.hs[..n], k.seen, k.cfg))
    case Replaced => trace == AllApplied(c, k) + [Wrote(c, k.cfg)]
    case Stopped => forall e | e in trace :: !e.Wrote?
  }

  function Writes(log: seq<Event>): seq<Config> {
    if log == [] then []
    else
      var e := log[|log|-1];
      Writes(log[..|log|-1]) + (if e.Wrote? then [e.cfg] else [])
  }

  ghost predicate TracesFit(s: State) {
    && (forall c | 0 <= c < |s.calls| :: TraceFits(c, s.calls[c], Trace(s.log, c)))
    && (forall c | |s.calls| <= c :: Trace(s.log, c) == [])
  }

  ghost predicate WritesCounted(initial: Config, s: State) {
    && s.version == 1 + |Writes(s.log)|
    && s.current == (if Writes(s.log) == [] then initial else Writes(s.log)[|Writes(s.log)|-1])
  }

  /** Handlers come in order of priority, in the list and in every copy. */
  ghost predicate HandlersSorted(s: State) {
    Sorted(s.handlers) && forall c | 0 <= c < |s.calls| :: Sorted(s.calls[c].hs)
  }

  ghost predicate Inv(initial: Config, s: State) {
    TracesFit(s) && WritesCounted(initial, s) && HandlersSorted(s)
  }

  lemma Appended(log: seq<Event>, e: Event)
    ensures forall c :: Trace(log + [e], c) == Trace(log, c) + (if e.call == c then [e] else [])
    ensures Writes(log + [e]) == Writes(log) + (if e.Wrote? then [e.cfg] else [])
  {
    assert (log + [e])[..|log|] == log;
  }

  lemma OneCallMoves(s: State, c: CallId, k: Call, events: seq<Event>)
    requires TracesFit(s) && c < |s.calls|
    requires events == [] || (|events| == 1 && events[0].call == c)
    requires TraceFits(c, k, Trace(s.log, c) + events)
    ensures TracesFit(With(s, c, k, events))
    ensures events == [] ==> Writes(With(s, c, k, events).log) == Writes(s.log)
    ensures events != [] ==> Writes(With(s, c, k, events).log) == Writes(s.log) + if events[0].Wrote? then [events[0].cfg] else []
  {
    var s' := With(s, c, k, events);
    if events == [] {
      assert s'.log == s.log && Trace(s.log, c) + [] == Trace(s.log, c);
    } else {
      assert events == [events[0]];
      Appended(s.log, events[0]);
    }
    forall d | 0 <= d < |s'.calls| ensures TraceFits(d, s'.calls[d], Trace(s'.log, d)) {
      if d != c { assert Trace(s'.log, d) == Trace(s.log, d); }
    }
  }

  lemma NextAcceptance(c: CallId, vs: seq<Validator>, n: nat, cfg: Config)
    requires n < |vs|
    ensures Acceptances(c, vs[..n+1], cfg) == Acceptances(c, vs[..n], cfg) + [Accepted(c, vs[n], cfg)]
  {
  }

  lemma NextApplication(c: CallId, hs: seq<Listed>, n: nat, seen: Config, cfg: Config)
    requires n < |hs|
    ensures Applications(c, hs[..n+1], seen, cfg) == Applications(c, hs[..n], seen, cfg) + [Applied(c, hs[n], seen, cfg)]
  {
  }

  lemma ValidatorSteps(s: State, a: Action)
    requires TracesFit(s) && Enabled(s, a)
    requires a.CopyValidators? || a.ReadCurrent? || a.Compare?
    ensures TracesFit(Apply(s, a)) && Writes(Apply(s, a).log) == Writes(s.log)
  {
    var c, k := a.c, s.calls[a.c];
    assert TraceFits(c, k, Trace(s.log, c));
    assert k.vs[..|k.vs|] == k.vs;
    match a
    case CopyValidators(_) =>
      OneCallMoves(s, c, k.(stage := Validating(0), vs := s.validators), [CopiedValidators(c, s.validators)]);
    case ReadCurrent(_) =>
      OneCallMoves(s, c, k.(stage := Read, seen := s.current), []);
    case Compare(_) =>
      OneCallMoves(s, c, k.(stage := if k.seen == k.cfg then Stopped else Differs), []);
  }

  lemma ValidateStep(s: State, a: Action)
    requires TracesFit(s) && Enabled(s, a) && a.Validate?
    ensures TracesFit(Apply(s, a)) && Writes(Apply(s, a).log) == Writes(s.log)
  {
    var c, k := a.c, s.calls[a.c];
    assert TraceFits(c, k, Trace(s.log, c));
    if a.ok {
      NextAcceptance(c, k.vs, k.stage.done, k.cfg);
      OneCallMoves(s, c, k.(stage := Validating(k.stage.done + 1)), [Accepted(c, k.vs[k.stage.done], k.cfg)]);
    } else {
      OneCallMoves(s, c, k.(stage := Stopped), []);
    }
  }

  lemma HandlerSteps(s: State, a: Action)
    requires TracesFit(s) && Enabled(s, a) && (a.CopyHandlers? || a.Handle?)
    ensures TracesFit(Apply(s, a)) && Writes(Apply(s, a).log) == Writes(s.log)
  {
    var c, k := a.c, s.calls[a.c];
    assert TraceFits(c, k, Trace(s.log, c));
    if a.CopyHandlers? {
      OneCallMoves(s, c, k.(stage := Handling(0), hs := s.handlers), [CopiedHandlers(c, s.handlers)]);
    } else {
      HandleStep(s, a);
    }
  }

  lemma HandleStep(s: State, a: Action)
    requires TracesFit(s) && Enabled(s, a) && a.Handle?
    ensures TracesFit(Apply(s, a)) && Writes(Apply(s, a).log) == Writes(s.log)
  {
    var c, k := a.c, s.calls[a.c];
    assert TraceFits(c, k, Trace(s.log, c));
    if a.ok {
      NextApplication(c, k.hs, k.stage.done, k.seen, k.cfg);
      OneCallMoves(s, c, k.(stage := Handling(k.stage.done + 1)), [Applied(c, k.hs[k.stage.done], k.seen, k.cfg)]);
    } else {
      OneCallMoves(s, c, k.(stage := Stopped), []);
    }
  }

  lemma LastSteps(s: State, a: Action)
    requires TracesFit(s) && Enabled(s, a) && (a.Write? || a.ClearFlag?)
    ensures TracesFit(Apply(s, a))
    ensures Writes(Apply(s, a).log) == Writes(s.log) + if a.Write? then [s.calls[a.c].cfg] else []
  {
    var c, k := a.c, s.calls[a.c];
    assert TraceFits(c, k, Trace(s.log, c));
    if a.Write? {
      assert k.hs[..|k.hs|] == k.hs;
      OneCallMoves(s, c, k.(stage := Replaced), [Wrote(c, k.cfg)]);
    } else {
      OneCallMoves(s, c, k.(cleared := true), []);
    }
  }

  lemma TraceStep(s: State, a: Action)
    requires TracesFit(s) && Enabled(s, a)
    ensures TracesFit(Apply(s, a))
    ensures Writes(Apply(s, a).log) == Writes(s.log) + if a.Write? then [s.calls[a.c].cfg] else []
  {
    if a.CopyValidators? || a.ReadCurrent? || a.Compare? {
      ValidatorSteps(s, a);
    } else if a.Validate? {
      ValidateStep(s, a);
    } else if a.CopyHandlers? || a.Handle? {
      HandlerSteps(s, a);
    } else if a.Write? || a.ClearFlag? {
      LastSteps(s, a);
    }
  }

  lemma HandlersStep(s: State, a: Action)
    requires HandlersSorted(s) && Enabled(s, a)
    ensures HandlersSorted(Apply(s, a))
  {
  }

  lemma InvStep(initial: Config, s: State, a: Action)
    requires Inv(initial, s) && Enabled(s, a)
    ensures Inv(initial, Apply(s, a))
  {
    TraceStep(s, a);
    HandlersStep(s, a);
    assert Apply(s, a).version == s.version + if a.Write? then 1 else 0;
    assert Apply(s, a).current == if a.Write? then s.calls[a.c].cfg else s.current;
  }

  lemma {:induction false} RunsKeepInv(initial: Config, ss: seq<State>, acts: seq<Action>, k: nat)
    requires Run(initial, ss, acts) && k < |ss|
    ensures Inv(initial, ss[k])
  {
    if k > 0 {
      RunsKeepInv(initial, ss, acts, k - 1);
      InvStep(initial, ss[k-1], acts[k-1]);
    }
  }

  // ---- Main results ----

  /** In every interleaving the version is one more than the number of installs and the
      current configuration is the one installed last. */
  lemma VersionCountsInstalls(initial: Config, ss: seq<State>, acts: seq<Action>, k: nat)
    requires Run(initial, ss, acts) && k < |ss|
    ensures ss[k].version == 1 + |Writes(ss[k].log)|
    ensures ss[k].current == if Writes(ss[k].log) == [] then initial else Writes(ss[k].log)[|Writes(ss[k].log)|-1]
  {
    RunsKeepInv(initial, ss, acts, k);
  }

  /** A configuration is installed only when every validator of the list its call copied
      accepted it, in order, and after that every handler of the list it copied applied it,
      in order of priority; the call has done nothing else. */
  lemma InstalledWasCheckedByAll(initial: Config, ss: seq<State>, acts: seq<Action>, k: nat, c: CallId)
    requires Run(initial, ss, acts) && k < |acts| && acts[k] == Write(c)
    ensures c < |ss[k].calls| && ss[k+1].current == ss[k].calls[c].cfg
    ensures Trace(ss[k].log, c) == AllApplied(c, ss[k].calls[c]) && Sorted(ss[k].calls[c].hs)
  {
    RunsKeepInv(initial, ss, acts, k);
    var call := ss[k].calls[c];
    assert TraceFits(c, call, Trace(ss[k].log, c));
    assert call.hs[..|call.hs|] == call.hs;
  }

  /** A call that stopped (rejected, refused or unchanged) never wrote. */
  lemma StoppedCallsNeverWrote(initial: Config, ss: seq<State>, acts: seq<Action>, k: nat, c: CallId)
    requires Run(initial, ss, acts) && k < |ss| && At(ss[k], c, Stopped)
    ensures forall j | 0 <= j < k :: acts[j] != Write(c)
  {
    RunsKeepInv(initial, ss, acts, k);
    assert TraceFits(c, ss[k].calls[c], Trace(ss[k].log, c));
    forall j | 0 <= j < k ensures acts[j] != Write(c) {
      if acts[j] == Write(c) {
        WrittenStays(initial, ss, acts, j, k, c);
        assert false;
      }
    }
  }

  lemma {:induction false} WrittenStays(initial: Config, ss: seq<State>, acts: seq<Action>, j: nat, k: nat, c: CallId)
    requires Run(initial, ss, acts) && j < k < |ss| && acts[j] == Write(c)
    ensures At(ss[k], c, Replaced)
  {
    if k > j + 1 {
      WrittenStays(initial, ss, acts, j, k - 1, c);
    }
  }

  /** The handlers added so far, in that order. */
  function Added(acts: seq<Action>): seq<Listed> {
    if acts == [] then []
    else
      var a := acts[|acts|-1];
      Added(acts[..|acts|-1]) + (if a.AddHandler? then [a.h] else [])
  }

  /** In every state the handler list is the stable sort of all handlers added so far. */
  lemma {:induction false} HandlersAreStablySorted(initial: Config, ss: seq<State>, acts: seq<Action>, k: nat)
    requires Run(initial, ss, acts) && k < |ss|
    ensures StablySorts(Added(acts[..k]), ss[k].handlers)
  {
    if k > 0 {
      HandlersAreStablySorted(initial, ss, acts, k - 1);
      assert acts[..k][..k-1] == acts[..k-1];
      var before := Added(acts[..k-1]);
      if acts[k-1].AddHandler? {
        AppendKeepsOrder(before, ss[k-1].handlers, acts[k-1].h);
      } else {
        assert before + [] == before;
      }
    }
  }

  // ---- Where a call's lists come from, and what ends it ----

  predicate HasRead(k: Call) { k.stage.Read? || k.stage.Differs? || k.stage.Handling? }

  /** The validators added so far, in that order. */
  function AddedValidators(acts: seq<Action>): seq<Validator> {
    if acts == [] then []
    else
      var a := acts[|acts|-1];
      AddedValidators(acts[..|acts|-1]) + (if a.AddValidator? then [a.v] else [])
  }

  lemma ValidatorListStep(s: State, a: Action)
    requires Enabled(s, a)
    ensures Apply(s, a).validators == s.validators + (if a.AddValidator? then [a.v] else [])
  {
  }

  lemma {:induction false} ValidatorsAreAdded(initial: Config, ss: seq<State>, acts: seq<Action>, k: nat)
    requires Run(initial, ss, acts) && k < |ss|
    ensures ss[k].validators == AddedValidators(acts[..k])
  {
    if k > 0 {
      ValidatorsAreAdded(initial, ss, acts, k - 1);
      ValidatorListStep(ss[k-1], acts[k-1]);
      assert acts[..k][..k-1] == acts[..k-1] && acts[..k][k-1] == acts[k-1];
    }
  }

  predicate PastValidators(k: Call) { !k.stage.Begun? && !k.stage.Stopped? }

  predicate PastRead(k: Call) { HasRead(k) || k.stage.Replaced? }

  predicate PastHandlers(k: Call) { k.stage.Handling? || k.stage.Replaced? }

  lemma ListsStay(s: State, a: Action, c: CallId)
    requires Enabled(s, a) && c < |Apply(s, a).calls|
    ensures var k' := Apply(s, a).calls[c];
      && (PastValidators(k') && a != CopyValidators(c) ==>
            c < |s.calls| && PastValidators(s.calls[c]) && k'.vs == s.calls[c].vs)
      && (PastRead(k') && a != ReadCurrent(c) ==> c < |s.calls| && PastRead(s.calls[c]) && k'.seen == s.calls[c].seen)
      && (PastHandlers(k') && a != CopyHandlers(c) ==>
            c < |s.calls| && PastHandlers(s.calls[c]) && k'.hs == s.calls[c].hs)
  {
  }

  /** A call that is past copying the validators copied those there were when it did. */
  lemma {:induction false} CopiedValidatorsAt(initial: Config, ss: seq<State>, acts: seq<Action>, k: nat, c: CallId) returns (j: nat)
    requires Run(initial, ss, acts) && k < |ss| && c < |ss[k].calls|
    requires PastValidators(ss[k].calls[c])
    ensures j < k && acts[j] == CopyValidators(c) && ss[k].calls[c].vs == ss[j].validators
  {
    if acts[k-1] == CopyValidators(c) { return k - 1; }
    assert ss[k-1+1] == Apply(ss[k-1], acts[k-1]);
    ListsStay(ss[k-1], acts[k-1], c);
    j := CopiedValidatorsAt(initial, ss, acts, k - 1, c);
  }

  lemma {:induction false} CopiedHandlersAt(initial: Config, ss: seq<State>, acts: seq<Action>, k: nat, c: CallId) returns (j: nat)
    requires Run(initial, ss, acts) && k < |ss| && c < |ss[k].calls|
    requires PastHandlers(ss[k].calls[c])
    ensures j < k && acts[j] == CopyHandlers(c) && ss[k].calls[c].hs == ss[j].handlers
  {
    if acts[k-1] == CopyHandlers(c) { return k - 1; }
    assert ss[k-1+1] == Apply(ss[k-1], acts[k-1]);
    ListsStay(ss[k-1], acts[k-1], c);
    j := CopiedHandlersAt(initial, ss, acts, k - 1, c);
  }

  lemma {:induction false} ReadAt(initial: Config, ss: seq<State>, acts: seq<Action>, k: nat, c: CallId) returns (j: nat)
    requires Run(initial, ss, acts) && k < |ss| && c < |ss[k].calls|
    requires PastRead(ss[k].calls[c])
    ensures j < k && acts[j] == ReadCurrent(c) && ss[k].calls[c].seen == ss[j].current
  {
    if acts[k-1] == ReadCurrent(c) { return k - 1; }
    assert ss[k-1+1] == Apply(ss[k-1], acts[k-1]);
    ListsStay(ss[k-1], acts[k-1], c);
    j := ReadAt(initial, ss, acts, k - 1, c);
  }

  /** Whoever writes has copied the validators and the handlers there were, and has read what
      was current, each at some time before. */
  lemma WriteWasPrepared(initial: Config, ss: seq<State>, acts: seq<Action>, k: nat, c: CallId)
    returns (v: nat, r: nat, h: nat)
    requires Run(initial, ss, acts) && k < |acts| && acts[k] == Write(c)
    ensures v < k && r < k && h < k && c < |ss[k].calls|
    ensures acts[v] == CopyValidators(c) && ss[k].calls[c].vs == ss[v].validators == AddedValidators(acts[..v])
    ensures acts[r] == ReadCurrent(c) && ss[k].calls[c].seen == ss[r].current
    ensures acts[h] == CopyHandlers(c) && ss[k].calls[c].hs == ss[h].handlers && StablySorts(Added(acts[..h]), ss[h].handlers)
  {
    v := CopiedValidatorsAt(initial, ss, acts, k, c);
    r := ReadAt(initial, ss, acts, k, c);
    h := CopiedHandlersAt(initial, ss, acts, k, c);
    ValidatorsAreAdded(initial, ss, acts, v);
    HandlersAreStablySorted(initial, ss, acts, h);
  }

  /** What turns a call away: a validator or a handler that says no, or a configuration equal
      to the one it read. */
  ghost predicate TurnsAway(s: State, a: Action, c: CallId) {
    a == Validate(c, false) || a == Handle(c, false) || (a == Compare(c) && c < |s.calls| && s.calls[c].seen == s.calls[c].cfg)
  }

  lemma {:induction false} StaysStopped(initial: Config, ss: seq<State>, acts: seq<Action>, j: nat, k: nat, c: CallId)
    requires Run(initial, ss, acts) && j < k < |ss| && TurnsAway(ss[j], acts[j], c)
    ensures At(ss[k], c, Stopped)
  {
    if k > j + 1 { StaysStopped(initial, ss, acts, j, k - 1, c); }
  }

  /** A call that was turned away never writes, neither later nor before. */
  lemma TurnedAwayNeverWrites(initial: Config, ss: seq<State>, acts: seq<Action>, j: nat, k: nat, c: CallId)
    requires Run(initial, ss, acts) && j < |acts| && k < |acts| && TurnsAway(ss[j], acts[j], c)
    ensures acts[k] != Write(c)
  {
    if k > j {
      StaysStopped(initial, ss, acts, j, k, c);
    } else if acts[k] == Write(c) {
      if k < j { WrittenStays(initial, ss, acts, k, j, c); }
    }
  }

  // ---- The test of the flag ----

  /** How many tests among the first `k` actions found the flag down. */
  function PassedTests(ss: seq<State>, acts: seq<Action>, k: nat): nat
    requires k <= |acts| < |ss|
  {
    if k == 0 then 0 else PassedTests(ss, acts, k - 1) + if acts[k-1].Check? && !ss[k-1].inProgress then 1 else 0
  }

  /** How many forced or periodic reloads among them began, or failed to load. */
  function CheckedReloads(acts: seq<Action>, k: nat): nat
    requires k <= |acts|
  {
    if k == 0 then 0
    else CheckedReloads(acts, k - 1) + if acts[k-1].LoadFails? || (acts[k-1].Begin? && acts[k-1].checked) then 1 else 0
  }

  /** Every forced or periodic reload had a test of its own that found the flag down. */
  lemma {:induction false} ReloadsPassedATest(initial: Config, ss: seq<State>, acts: seq<Action>, k: nat)
    requires Run(initial, ss, acts) && k < |ss|
    ensures CheckedReloads(acts, k) <= PassedTests(ss, acts, k)
    ensures ss[k].passed == PassedTests(ss, acts, k) - CheckedReloads(acts, k)
  {
    if k > 0 { ReloadsPassedATest(initial, ss, acts, k - 1); }
  }

  // ---- When reloads are exclusive ----

  ghost predicate Active(s: State, c: CallId) { c < |s.calls| && !s.calls[c].cleared }

  ghost predicate Quiet(s: State) { forall c :: !Active(s, c) }

  ghost predicate AtMostOne(s: State) { forall c, d | Active(s, c) && Active(s, d) :: c == d }

  /** What exclusion gives: one call at a time, the flag up while it runs, and the
      configuration it read still the current one until it writes. */
  ghost predicate Exclusive(s: State) {
    && AtMostOne(s)
    && (s.inProgress <==> !Quiet(s))
    && (forall c | 0 <= c < |s.calls| && HasRead(s.calls[c]) :: s.calls[c].seen == s.current)
    && (forall c | 0 <= c < |s.calls| && s.calls[c].cleared :: s.calls[c].stage.Replaced? || s.calls[c].stage.Stopped?)
  }

  /** Three ways for a step not to begin a second reload. */
  ghost predicate Harmless(s: State, a: Action, s': State) {
    a.Begin? ==> !s.inProgress || Quiet(s) || AtMostOne(s')
  }

  lemma BeginStep(s: State, a: Action)
    requires Exclusive(s) && Enabled(s, a) && a.Begin? && Harmless(s, a, Apply(s, a))
    ensures Exclusive(Apply(s, a))
  {
    var s', n := Apply(s, a), |s.calls|;
    assert Active(s', n);
    forall c ensures Active(s', c) <==> c == n {
      if Active(s, c) { assert Active(s', c); }
    }
  }

  lemma OtherSteps(s: State, a: Action)
    requires Exclusive(s) && Enabled(s, a) && !a.Begin?
    ensures Exclusive(Apply(s, a))
  {
    var s' := Apply(s, a);
    forall c ensures Active(s', c) <==> Active(s, c) && a != ClearFlag(c) {}
    if a.ClearFlag? || a.Write? { assert Active(s, a.c); }
    assert forall c: nat | c < |s.calls| && HasRead(s.calls[c]) :: Active(s, c);
  }

  lemma {:induction false} ExclusiveUpTo(initial: Config, ss: seq<State>, acts: seq<Action>, k: nat)
    requires Run(initial, ss, acts) && k < |ss|
    requires forall j | 0 <= j < k :: Harmless(ss[j], acts[j], ss[j+1])
    ensures Exclusive(ss[k])
  {
    if k > 0 {
      ExclusiveUpTo(initial, ss, acts, k - 1);
      assert Harmless(ss[k-1], acts[k-1], ss[k-1+1]);
      if acts[k-1].Begin? { BeginStep(ss[k-1], acts[k-1]); } else { OtherSteps(ss[k-1], acts[k-1]); }
    }
  }

  /** Every reload begins with the flag down. */
  ghost predicate BeginsFindFlagDown(ss: seq<State>, acts: seq<Action>)
    requires |ss| == |acts| + 1
  {
    forall k | 0 <= k < |acts| && acts[k].Begin? :: !ss[k].inProgress
  }

  ghost predicate NeverTwo(ss: seq<State>) { forall k | 0 <= k < |ss| :: AtMostOne(ss[k]) }

  /** No two reloads ever run at once if and only if none begins while another runs, and if
      and only if the flag, as the program keeps it, is down whenever it is put up. */
  lemma ReloadsAreExclusiveIff(initial: Config, ss: seq<State>, acts: seq<Action>)
    requires Run(initial, ss, acts)
    ensures NeverTwo(ss) <==> forall k | 0 <= k < |acts| && acts[k].Begin? :: Quiet(ss[k])
    ensures NeverTwo(ss) <==> BeginsFindFlagDown(ss, acts)
  {
    if NeverTwo(ss) {
      forall k | 0 <= k < |acts| && acts[k].Begin? ensures Quiet(ss[k]) && !ss[k].inProgress {
        forall j | 0 <= j < k ensures Harmless(ss[j], acts[j], ss[j+1]) { assert AtMostOne(ss[j+1]); }
        ExclusiveUpTo(initial, ss, acts, k);
        NoSecondBegin(ss[k], acts[k], ss[k+1]);
      }
    } else if (forall k | 0 <= k < |acts| && acts[k].Begin? :: Quiet(ss[k])) || BeginsFindFlagDown(ss, acts) {
      forall k | 0 <= k < |ss| ensures AtMostOne(ss[k]) {
        forall j | 0 <= j < k ensures Harmless(ss[j], acts[j], ss[j+1]) {}
        ExclusiveUpTo(initial, ss, acts, k);
      }
    }
  }

  lemma NoSecondBegin(s: State, a: Action, s': State)
    requires Exclusive(s) && Enabled(s, a) && a.Begin? && s' == Apply(s, a) && AtMostOne(s')
    ensures Quiet(s) && !s.inProgress
  {
    assert Active(s', |s.calls|);
    forall c ensures !Active(s, c) {
      if Active(s, c) { assert Active(s', c); }
    }
  }

  /** In such runs the flag is up exactly while a reload runs, and whatever configuration a
      reload replaces is the one its handlers were shown. */
  lemma ExclusiveRuns(initial: Config, ss: seq<State>, acts: seq<Action>, k: nat)
    requires Run(initial, ss, acts) && BeginsFindFlagDown(ss, acts) && k < |ss|
    ensures ss[k].inProgress <==> exists c :: Active(ss[k], c)
    ensures forall c | 0 <= c < |ss[k].calls| && HasRead(ss[k].calls[c]) :: ss[k].calls[c].seen == ss[k].current
    ensures forall c: nat | Enabled(ss[k], Write(c)) :: ss[k].calls[c].seen == ss[k].current
  {
    forall j | 0 <= j < k ensures Harmless(ss[j], acts[j], ss[j+1]) {}
    ExclusiveUpTo(initial, ss, acts, k);
  }

  /** If every reload were to test the flag in the step before it puts it up, reloads would
      be exclusive. */
  lemma TestAndSetIsExclusive(initial: Config, ss: seq<State>, acts: seq<Action>)
    requires Run(initial, ss, acts)
    requires forall k | 0 <= k < |acts| && acts[k].Begin? :: k > 0 && acts[k-1] == Check && !ss[k-1].inProgress
    ensures NeverTwo(ss)
  {
    forall k | 0 <= k < |acts| && acts[k].Begin? ensures !ss[k].inProgress {
      assert ss[k-1+1] == Apply(ss[k-1], acts[k-1]);
    }
    ReloadsAreExclusiveIff(initial, ss, acts);
  }

  // ---- What the handlers were shown ----

  /** A call that can still come to install its configuration. */
  predicate CanInstall(k: Call) {
    k.stage.Begun? || k.stage.Validating? || k.stage.Differs? || k.stage.Handling? || (k.stage.Read? && k.seen != k.cfg)
  }

  /** Without another reload beginning, `ss'` goes on from `ss`. */
  ghost predicate GoesOn(initial: Config, ss: seq<State>, acts: seq<Action>, ss': seq<State>, acts': seq<Action>)
    requires |ss| == |acts| + 1
  {
    Run(initial, ss', acts') && ss <= ss' && acts <= acts' && forall k | |acts| <= k < |acts'| :: !acts'[k].Begin?
  }

  /** `c` is about to replace a configuration its handlers were not shown. */
  ghost predicate Misled(s: State, c: CallId) { Enabled(s, Write(c)) && s.calls[c].seen != s.current }

  /** What `c` read is current, and no other call in flight can install anything else. */
  ghost predicate Undisturbed(s: State, c: CallId)
    requires c < |s.calls|
  {
    && s.calls[c].seen == s.current
    && forall d | 0 <= d < |s.calls| && d != c && CanInstall(s.calls[d]) :: s.calls[d].cfg == s.calls[c].seen
  }

  predicate Over(k: Call) { k.stage.Replaced? || k.stage.Stopped? }

  lemma StaysUndisturbed(s: State, a: Action, c: CallId)
    requires Enabled(s, a) && !a.Begin? && c < |s.calls|
    requires Over(s.calls[c]) || (HasRead(s.calls[c]) && Undisturbed(s, c))
    ensures var s' := Apply(s, a);
      c < |s'.calls| && (Over(s'.calls[c]) || (HasRead(s'.calls[c]) && Undisturbed(s', c)))
  {
  }

  lemma {:induction false} NeverMisled(initial: Config, ss: seq<State>, acts: seq<Action>, ss': seq<State>, acts': seq<Action>,
                                       c: CallId, k: nat)
    requires Run(initial, ss, acts) && GoesOn(initial, ss, acts, ss', acts') && |acts| <= k < |ss'|
    requires var s := ss[|acts|]; c < |s.calls| && HasRead(s.calls[c]) && Undisturbed(s, c)
    ensures c < |ss'[k].calls| && (Over(ss'[k].calls[c]) || (HasRead(ss'[k].calls[c]) && Undisturbed(ss'[k], c)))
  {
    if k > |acts| {
      NeverMisled(initial, ss, acts, ss', acts', c, k - 1);
      StaysUndisturbed(ss'[k-1], acts'[k-1], c);
    } else {
      assert ss'[k] == ss[k];
    }
  }

  /** Nothing keeps the call from its write: it differs from what it will have read. */
  predicate CanGetThere(s: State, c: CallId) {
    c < |s.calls| && CanInstall(s.calls[c]) && (!HasRead(s.calls[c]) ==> s.calls[c].cfg != s.current)
  }

  function NextStep(k: Call, c: CallId): Action
    requires CanInstall(k)
  {
    match k.stage
    case Begun => CopyValidators(c)
    case Validating(n) => if n < |k.vs| then Validate(c, true) else ReadCurrent(c)
    case Read => Compare(c)
    case Differs => CopyHandlers(c)
    case Handling(n) => if n < |k.hs| then Handle(c, true) else Write(c)
  }

  /** How far a call has to go to its write: stages, then validators or handlers. */
  function ToGo(k: Call): (nat, int) {
    match k.stage
    case Begun => (5, 0)
    case Validating(n) => (4, |k.vs| - n)
    case Read => (3, 0)
    case Differs => (2, 0)
    case Handling(n) => (1, |k.hs| - n)
    case Replaced => (0, 0)
    case Stopped => (0, 0)
  }

  /** One step of the call leaves everybody else alone. */
  lemma Advances(s: State, c: CallId)
    requires CanGetThere(s, c) && TraceFits(c, s.calls[c], Trace(s.log, c)) && !Enabled(s, Write(c))
    ensures var k, a := s.calls[c], NextStep(s.calls[c], c);
      && Enabled(s, a) && !a.Begin? && !a.Write?
      && var s' := Apply(s, a);
      && CanGetThere(s', c) && s'.current == s.current
      && |s'.calls| == |s.calls| && (forall d | 0 <= d < |s.calls| && d != c :: s'.calls[d] == s.calls[d])
      && s'.calls[c].cfg == k.cfg && (HasRead(k) ==> HasRead(s'.calls[c]) && s'.calls[c].seen == k.seen)
      && (ToGo(s'.calls[c]).0 < ToGo(k).0 || (ToGo(s'.calls[c]).0 == ToGo(k).0 && 0 <= ToGo(s'.calls[c]).1 < ToGo(k).1))
  {
  }

  lemma Go(initial: Config, ss: seq<State>, acts: seq<Action>, ss1: seq<State>, acts1: seq<Action>,
           ss2: seq<State>, acts2: seq<Action>)
    requires |ss| == |acts| + 1 && |ss1| == |acts1| + 1
    requires GoesOn(initial, ss, acts, ss1, acts1) && GoesOn(initial, ss1, acts1, ss2, acts2)
    ensures GoesOn(initial, ss, acts, ss2, acts2)
  {
  }

  lemma OneOn(initial: Config, ss: seq<State>, acts: seq<Action>, a: Action) returns (ss': seq<State>, acts': seq<Action>)
    requires Run(initial, ss, acts) && Enabled(ss[|acts|], a) && !a.Begin?
    ensures GoesOn(initial, ss, acts, ss', acts') && ss'[|acts'|] == Apply(ss[|acts|], a)
  {
    ss', acts' := ss + [Apply(ss[|acts|], a)], acts + [a];
  }

  /** Any such call can be brought to its write, with nobody else moving. */
  lemma {:induction false} ToItsWrite(initial: Config, ss: seq<State>, acts: seq<Action>, c: CallId)
    returns (ss': seq<State>, acts': seq<Action>)
    requires Run(initial, ss, acts) && CanGetThere(ss[|acts|], c)
    ensures GoesOn(initial, ss, acts, ss', acts')
    ensures var s, s' := ss[|acts|], ss'[|acts'|];
      && Enabled(s', Write(c)) && s'.current == s.current && |s'.calls| == |s.calls|
      && (forall d | 0 <= d < |s.calls| && d != c :: s'.calls[d] == s.calls[d])
      && s'.calls[c].cfg == s.calls[c].cfg && (HasRead(s.calls[c]) ==> s'.calls[c].seen == s.calls[c].seen)
    decreases ToGo(ss[|acts|].calls[c]).0, ToGo(ss[|acts|].calls[c]).1
  {
    var s := ss[|acts|];
    if Enabled(s, Write(c)) { return ss, acts; }
    RunsKeepInv(initial, ss, acts, |acts|);
    Advances(s, c);
    var ss1, acts1 := OneOn(initial, ss, acts, NextStep(s.calls[c], c));
    ss', acts' := ToItsWrite(initial, ss1, acts1, c);
    Go(initial, ss, acts, ss1, acts1, ss', acts');
  }

  /** If what `c` read is no longer current, or another call can install something else, the
      run can go on to `c` replacing a configuration its handlers were not shown. */
  lemma CanBeMisled(initial: Config, ss: seq<State>, acts: seq<Action>, c: CallId)
    returns (ss': seq<State>, acts': seq<Action>)
    requires Run(initial, ss, acts)
    requires var s := ss[|acts|]; c < |s.calls| && HasRead(s.calls[c]) && CanInstall(s.calls[c]) && !Undisturbed(s, c)
    ensures GoesOn(initial, ss, acts, ss', acts') && Misled(ss'[|acts'|], c)
  {
    var s := ss[|acts|];
    if s.calls[c].seen != s.current {
      ss', acts' := ToItsWrite(initial, ss, acts, c);
    } else {
      var d: nat :| d < |s.calls| && d != c && CanInstall(s.calls[d]) && s.calls[d].cfg != s.calls[c].seen;
      var ss1, acts1 := ToItsWrite(initial, ss, acts, d);
      var ss2, acts2 := OneOn(initial, ss1, acts1, Write(d));
      Go(initial, ss, acts, ss1, acts1, ss2, acts2);
      ss', acts' := ToItsWrite(initial, ss2, acts2, c);
      Go(initial, ss, acts, ss2, acts2, ss', acts');
    }
  }

  /** Exactly when a reload that has read the current configuration is safe from the others
      in flight: in every reachable state, no way to go on without another reload beginning
      lets it replace something its handlers were not shown if and only if what it read is
      current and no other call that can still install carries anything else. */
  lemma HandlersSeeWhatIsReplacedIff(initial: Config, ss: seq<State>, acts: seq<Action>, c: CallId)
    requires Run(initial, ss, acts)
    requires var s := ss[|acts|]; c < |s.calls| && HasRead(s.calls[c]) && CanInstall(s.calls[c])
    ensures (forall ss', acts' | GoesOn(initial, ss, acts, ss', acts') :: !Misled(ss'[|acts'|], c))
       <==> Undisturbed(ss[|acts|], c)
  {
    if Undisturbed(ss[|acts|], c) {
      forall ss', acts' | GoesOn(initial, ss, acts, ss', acts') ensures !Misled(ss'[|acts'|], c) {
        NeverMisled(initial, ss, acts, ss', acts', c, |acts'|);
      }
    } else {
      var ss', acts' := CanBeMisled(initial, ss, acts, c);
    }
  }

  // ---- Reloads are not exclusive ----

  lemma Extend(initial: Config, ss: seq<State>, acts: seq<Action>, a: Action) returns (ss': seq<State>, acts': seq<Action>)
    requires Run(initial, ss, acts) && Enabled(ss[|acts|], a)
    ensures Run(initial, ss', acts') && |ss'| == |ss| + 1 && ss'[|acts'|] == Apply(ss[|acts|], a)
    ensures acts' == acts + [a]
  {
    ss', acts' := ss + [Apply(ss[|acts|], a)], acts + [a];
  }

  /** Two forced reloads that both tested the flag before either put it up. */
  lemma BothPassed(a: Config, h: Listed, b: Config, d: Config) returns (ss: seq<State>, acts: seq<Action>)
    ensures Run(a, ss, acts) && forall k | 0 <= k < |acts| && acts[k].Begin? :: acts[k].checked
    ensures var s := ss[|acts|];
      && s.current == a && s.version == 1 && s.validators == [] && s.handlers == [h] && s.inProgress && s.log == []
      && s.calls == [Call(b, Begun, [], b, [], false), Call(d, Begun, [], d, [], false)]
  {
    ss, acts := [Start(a)], [];
    assert StablySorts([] + [h], [h]) by { assert [] + [h] == [h]; }
    ss, acts := Extend(a, ss, acts, AddHandler(h, [h]));
    ss, acts := Extend(a, ss, acts, Check);
    ss, acts := Extend(a, ss, acts, Check);
    ss, acts := Extend(a, ss, acts, Begin(b, true));
    ss, acts := Extend(a, ss, acts, Begin(d, true));
  }

  /** One call's way to its last handler, beside another call. */
  lemma RunsToItsHandler(a: Config, h: Listed, c: CallId, ss: seq<State>, acts: seq<Action>) returns (ss': seq<State>, acts': seq<Action>)
    requires Run(a, ss, acts) && forall k | 0 <= k < |acts| && acts[k].Begin? :: acts[k].checked
    requires var s := ss[|acts|];
      s.current == a && s.validators == [] && s.handlers == [h] && At(s, c, Begun) && s.calls[c].cfg != a && !s.calls[c].cleared
    ensures Run(a, ss', acts') && forall k | 0 <= k < |acts'| && acts'[k].Begin? :: acts'[k].checked
    ensures var s, s' := ss[|acts|], ss'[|acts'|];
      && s'.current == a && s'.version == s.version && s'.validators == [] && s'.handlers == [h] && s'.inProgress == s.inProgress
      && s'.calls == s.calls[c := Call(s.calls[c].cfg, Handling(1), [], a, [h], false)]
      && Applied(c, h, a, s.calls[c].cfg) in s'.log && forall e | e in s.log :: e in s'.log
  {
    var s := ss[|acts|];
    ss', acts' := Extend(a, ss, acts, CopyValidators(c));
    ss', acts' := Extend(a, ss', acts', ReadCurrent(c));
    ss', acts' := Extend(a, ss', acts', Compare(c));
    ss', acts' := Extend(a, ss', acts', CopyHandlers(c));
    ss', acts' := Extend(a, ss', acts', Handle(c, true));
    assert ss'[|acts'|].calls == s.calls[c := Call(s.calls[c].cfg, Handling(1), [], a, [h], false)];
  }

  /** Two reloads that both passed the test: after the first finished the flag is down while
      the second still runs, and the second is about to replace a configuration its handler
      was never shown. */
  lemma OverlappingReloads(a: Config, h: Listed, b: Config, d: Config) returns (ss: seq<State>, acts: seq<Action>)
    requires a != b && a != d
    ensures Run(a, ss, acts) && forall k | 0 <= k < |acts| && acts[k].Begin? :: acts[k].checked
    ensures var s := ss[|acts|];
      && !s.inProgress && Active(s, 1) && Enabled(s, Write(1))
      && Applied(1, h, a, d) in s.log && s.current == b != a
  {
    ss, acts := BothPassed(a, h, b, d);
    ss, acts := RunsToItsHandler(a, h, 0, ss, acts);
    ss, acts := RunsToItsHandler(a, h, 1, ss, acts);
    ss, acts := Extend(a, ss, acts, Write(0));
    ss, acts := Extend(a, ss, acts, ClearFlag(0));
  }
}
