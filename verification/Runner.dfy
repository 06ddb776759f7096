/** The client's runner (internal/client/runner.go): exactly one transport, replaced only when
    the server announces something else, under any interleaving of apply, stop and the
    transports' own goroutines. */
module Runner {
  import opened Bytes
  import opened Control
  import Runs

  /** One supervise goroutine and the record that names it. done: it has returned. */
  datatype Running = Running(settings: Config, cancelled: bool, done: bool)

  /** Where a call of apply or stop is. It holds the lock while it waits for the old goroutine
      and while it builds the new transport. */
  datatype Call =
    | ApplyWants(cfg: Config) | ApplyWaits(cfg: Config) | ApplyBuilds(cfg: Config)
    | ApplyReturned(cfg: Config, ok: bool)
    | StopWants | StopWaits | StopReturned

  /** applied: the settings of the applies that returned nil, in order; failed, stopped: an apply
      has returned an error, stop has been called. */
  datatype State = State(current: Option<nat>, started: seq<Running>, parentDone: bool,
                         calls: seq<Call>, lock: Option<nat>,
                         applied: seq<Config>, failed: bool, stopped: bool)

  datatype Event =
    | CallsApply(cfg: Config)
    | CallsStop
    | Enters(c: nat)
    | OldIsDone(c: nat)
    | Builds(c: nat)
    | BuildFails(c: nat)
    | Exits(i: nat)
    | ParentEnds

  predicate Init(s: State) {
    s == State(None, [], false, [], None, [], false, false)
  }

  predicate Enabled(s: State, e: Event) {
    && (s.current.Some? ==> s.current.value < |s.started|)
    && match e
       case CallsApply(_) => true
       case CallsStop => true
       case Enters(c) => c < |s.calls| && s.lock == None && (s.calls[c].ApplyWants? || s.calls[c].StopWants?)
       case OldIsDone(c) =>
         && c < |s.calls| && (s.calls[c].ApplyWaits? || s.calls[c].StopWaits?)
         && s.current.Some? && s.started[s.current.value].done
       case Builds(c) => c < |s.calls| && s.calls[c].ApplyBuilds?
       case BuildFails(c) => c < |s.calls| && s.calls[c].ApplyBuilds?
       case Exits(i) => i < |s.started| && !s.started[i].done && (s.started[i].cancelled || s.parentDone)
       case ParentEnds => true
  }

  /** The transport already runs with these settings and has not given up. */
  predicate Keeps(s: State, cfg: Config)
    requires s.current.Some? ==> s.current.value < |s.started|
  {
    s.current.Some? && Equal(s.started[s.current.value].settings, cfg) && !s.started[s.current.value].done
  }

  function Cancelled(s: State): State
    requires s.current.Some? && s.current.value < |s.started|
  {
    s.(started := s.started[s.current.value := s.started[s.current.value].(cancelled := true)])
  }

  function Apply(s: State, e: Event): State
    requires Enabled(s, e)
  {
    match e
    case CallsApply(cfg) => s.(calls := s.calls + [ApplyWants(cfg)])
    case CallsStop => s.(calls := s.calls + [StopWants])
    case Enters(c) =>
      (match s.calls[c]
       case ApplyWants(cfg) =>
         if Keeps(s, cfg) then s.(calls := s.calls[c := ApplyReturned(cfg, true)], applied := s.applied + [cfg])
         else if s.current.None? then s.(calls := s.calls[c := ApplyBuilds(cfg)], lock := Some(c))
         else Cancelled(s).(calls := s.calls[c := ApplyWaits(cfg)], lock := Some(c))
       case _ =>
         if s.current.None? then s.(calls := s.calls[c := StopReturned], stopped := true)
         else Cancelled(s).(calls := s.calls[c := StopWaits], lock := Some(c), stopped := true))
    case OldIsDone(c) =>
      if s.calls[c].ApplyWaits? then s.(current := None, calls := s.calls[c := ApplyBuilds(s.calls[c].cfg)])
      else s.(current := None, calls := s.calls[c := StopReturned], lock := None)
    case Builds(c) =>
      var cfg := s.calls[c].cfg;
      s.(current := Some(|s.started|), started := s.started + [Running(cfg, false, false)],
         calls := s.calls[c := ApplyReturned(cfg, true)], lock := None, applied := s.applied + [cfg])
    case BuildFails(c) => s.(calls := s.calls[c := ApplyReturned(s.calls[c].cfg, false)], lock := None, failed := true)
    case Exits(i) => s.(started := s.started[i := s.started[i].(done := true)])
    case ParentEnds => s.(parentDone := true)
  }

  ghost predicate Step(s: State, e: Event, t: State) {
    Enabled(s, e) && t == Apply(s, e)
  }

  ghost predicate Next(s: State, t: State) {
    exists e :: Step(s, e, t)
  }

  ghost predicate IsRun(trace: seq<State>) {
    Runs.IsRun(Init, Next, trace)
  }

  // ---- the invariant ----

  predicate Holds(c: Call) {
    c.ApplyWaits? || c.ApplyBuilds? || c.StopWaits?
  }

  /** Maximal runs of equal announcements. */
  function Groups(cfgs: seq<Config>): nat {
    if cfgs == [] then 0
    else Groups(cfgs[..|cfgs| - 1]) +
         (if |cfgs| > 1 && Equal(cfgs[|cfgs| - 2], cfgs[|cfgs| - 1]) then 0 else 1)
  }

  predicate CallOk(s: State, c: nat)
    requires c < |s.calls| && (s.current.Some? ==> s.current.value < |s.started|)
  {
    && (Holds(s.calls[c]) ==> s.lock == Some(c))
    && match s.calls[c]
       case ApplyWaits(cfg) => s.current.Some? && s.started[s.current.value].cancelled
       case StopWaits => s.current.Some? && s.started[s.current.value].cancelled && s.stopped
       case ApplyBuilds(cfg) => s.current.None?
       case _ => true
  }

  /** Locks and goroutines: only the current one can be live, and only cancelling ends it. */
  ghost predicate Guarded(s: State) {
    && (s.current.Some? ==> s.current.value < |s.started|)
    && (forall i :: 0 <= i < |s.started| && s.current != Some(i) ==> s.started[i].done)
    && (forall i :: 0 <= i < |s.started| && s.started[i].done ==> s.started[i].cancelled || s.parentDone)
    && (forall c :: 0 <= c < |s.calls| ==> CallOk(s, c))
    && (s.lock.Some? ==> s.lock.value < |s.calls| && Holds(s.calls[s.lock.value]))
    && (s.lock == None && s.current.Some? ==> !s.started[s.current.value].cancelled)
  }

  predicate Quiet(s: State) {
    !s.failed && !s.stopped && !s.parentDone
  }

  predicate LastIs(s: State, cfg: Config) {
    s.applied != [] && Equal(s.applied[|s.applied| - 1], cfg)
  }

  /** What runs is what was last applied; and, while nothing has gone wrong, a transport that is
      about to be built differs from it. */
  predicate Matches(s: State) {
    && (s.lock == None && s.current.Some? && s.current.value < |s.started| ==>
          LastIs(s, s.started[s.current.value].settings))
    && (s.lock == None && s.current.None? && s.applied != [] ==> s.failed || s.stopped)
    && (s.lock.Some? && s.lock.value < |s.calls| && Quiet(s) ==>
          match s.calls[s.lock.value]
          case ApplyWaits(cfg) => !LastIs(s, cfg)
          case ApplyBuilds(cfg) => !LastIs(s, cfg)
          case _ => true)
  }

  predicate Counted(s: State) {
    Quiet(s) ==> |s.started| == Groups(s.applied)
  }

  ghost predicate Inv(s: State) {
    Guarded(s) && Matches(s) && Counted(s)
  }

  lemma GroupsSnoc(cfgs: seq<Config>, cfg: Config)
    ensures Groups(cfgs + [cfg]) ==
            Groups(cfgs) + (if cfgs != [] && Equal(cfgs[|cfgs| - 1], cfg) then 0 else 1)
  {
    assert (cfgs + [cfg])[..|cfgs|] == cfgs;
  }

  lemma CallsStayOk(s: State, e: Event, t: State, c: nat)
    requires Guarded(s) && Step(s, e, t) && c < |t.calls|
    ensures (t.current.Some? ==> t.current.value < |t.started|) && CallOk(t, c)
  {
    if e.OldIsDone? || e.Builds? || e.BuildFails? { assert CallOk(s, e.c); }
    if c < |s.calls| { assert CallOk(s, c); }
  }

  lemma GoroutinesStayGuarded(s: State, e: Event, t: State)
    requires Guarded(s) && Step(s, e, t)
    ensures forall i :: 0 <= i < |t.started| && t.current != Some(i) ==> t.started[i].done
    ensures forall i :: 0 <= i < |t.started| && t.started[i].done ==> t.started[i].cancelled || t.parentDone
  {
    if e.Builds? { assert CallOk(s, e.c); }
  }

  lemma StepKeepsGuarded(s: State, e: Event, t: State)
    requires Guarded(s) && Step(s, e, t)
    ensures Guarded(t)
  {
    GoroutinesStayGuarded(s, e, t);
    forall c | 0 <= c < |t.calls| ensures CallOk(t, c) { CallsStayOk(s, e, t, c); }
    if e.OldIsDone? || e.Builds? || e.BuildFails? { assert CallOk(s, e.c); }
  }

  lemma EqualIsTransitive(a: Config, b: Config, c: Config)
    ensures Equal(a, a) && (Equal(a, b) ==> Equal(b, a)) && (Equal(a, b) && Equal(b, c) ==> Equal(a, c))
  {
    EqualIsEquality(a, a);
    EqualIsEquality(a, b);
    EqualIsEquality(b, a);
    EqualIsEquality(b, c);
    EqualIsEquality(a, c);
  }

  /** An announcement that changes nothing joins the last group. */
  lemma KeepingKeepsMatches(s: State, e: Event, t: State, cfg: Config)
    requires Inv(s) && Step(s, e, t) && e.Enters? && s.calls[e.c] == ApplyWants(cfg) && Keeps(s, cfg)
    ensures Matches(t) && Counted(t)
  {
    var now, last := s.started[s.current.value].settings, s.applied[|s.applied| - 1];
    EqualIsTransitive(now, cfg, now);
    EqualIsTransitive(last, now, cfg);
    GroupsSnoc(s.applied, cfg);
    assert t.applied[|t.applied| - 1] == cfg;
  }

  /** One that does change something differs from what was last applied. */
  lemma ChangeIsNew(s: State, cfg: Config)
    requires Inv(s) && s.lock == None && !Keeps(s, cfg) && Quiet(s)
    ensures !LastIs(s, cfg)
  {
    if s.current.Some? {
      var now := s.started[s.current.value].settings;
      var last := s.applied[|s.applied| - 1];
      EqualIsTransitive(last, now, last);
      EqualIsTransitive(now, last, cfg);
    }
  }

  lemma EntersKeepsMatches(s: State, e: Event, t: State)
    requires Inv(s) && Step(s, e, t) && e.Enters?
    ensures Matches(t) && Counted(t)
  {
    if s.calls[e.c].ApplyWants? {
      var cfg := s.calls[e.c].cfg;
      if Keeps(s, cfg) {
        KeepingKeepsMatches(s, e, t, cfg);
      } else if Quiet(s) {
        ChangeIsNew(s, cfg);
      }
    }
  }

  lemma StepKeepsMatches(s: State, e: Event, t: State)
    requires Inv(s) && Step(s, e, t) && !e.Enters?
    ensures Matches(t) && Counted(t)
  {
    match e {
      case OldIsDone(c) => assert CallOk(s, c);
      case BuildFails(c) => assert CallOk(s, c);
      case Builds(c) =>
        assert CallOk(s, c);
        GroupsSnoc(s.applied, s.calls[c].cfg);
        EqualIsTransitive(s.calls[c].cfg, s.calls[c].cfg, s.calls[c].cfg);
      case _ =>
    }
  }

  lemma StepKeepsInv(s: State, e: Event, t: State)
    requires Inv(s) && Step(s, e, t)
    ensures Inv(t)
  {
    StepKeepsGuarded(s, e, t);
    if e.Enters? { EntersKeepsMatches(s, e, t); } else { StepKeepsMatches(s, e, t); }
  }

  lemma RunsKeepInv(trace: seq<State>, k: nat)
    requires IsRun(trace) && k < |trace|
    ensures Inv(trace[k])
  {
    forall s, t | Inv(s) && Next(s, t) ensures Inv(t) {
      var e :| Step(s, e, t);
      StepKeepsInv(s, e, t);
    }
    Runs.Invariance(Init, Next, s => Inv(s), trace, k);
  }

  // ---- main results ----

  /** At most one transport goroutine is live, whatever is going on. */
  lemma OneTransport(trace: seq<State>, k: nat, i: nat, j: nat)
    requires IsRun(trace) && k < |trace| && i < |trace[k].started| && j < |trace[k].started|
    requires !trace[k].started[i].done && !trace[k].started[j].done
    ensures i == j && trace[k].current == Some(i)
  {
    RunsKeepInv(trace, k);
  }

  /** While the parent context is live, a current transport, seen under the lock, has a live
      goroutine, and its settings are those of the last apply that returned nil. */
  lemma CurrentIsLive(trace: seq<State>, k: nat)
    requires IsRun(trace) && k < |trace|
    requires !trace[k].parentDone && trace[k].lock == None && trace[k].current.Some?
    ensures var s := trace[k];
      && s.current.value < |s.started| && !s.started[s.current.value].done
      && LastIs(s, s.started[s.current.value].settings)
  {
    RunsKeepInv(trace, k);
  }

  /** Reconnecting does not interrupt anything: as long as no apply has failed, stop has not
      been called and the parent is live, the transports started are one for each maximal run
      of equal announcements. */
  lemma OneStartPerChange(trace: seq<State>, k: nat)
    requires IsRun(trace) && k < |trace|
    requires !trace[k].failed && !trace[k].stopped && !trace[k].parentDone
    ensures |trace[k].started| == Groups(trace[k].applied)
  {
    RunsKeepInv(trace, k);
  }

  /** An apply that fails leaves nothing running: the old transport has been stopped by then. */
  lemma FailedApplyHasStopped(trace: seq<State>, k: nat, c: nat, t: State)
    requires IsRun(trace) && k < |trace| && Step(trace[k], BuildFails(c), t)
    ensures t.current == None && t.lock == None
    ensures forall i :: 0 <= i < |t.started| ==> t.started[i].done
  {
    RunsKeepInv(trace, k);
    assert CallOk(trace[k], c);
  }

  ghost predicate NothingRuns(s: State) {
    s.current == None && forall i :: 0 <= i < |s.started| ==> s.started[i].done
  }

  /** A stop that returns leaves nothing running, and an apply that returns nil leaves exactly the
      announced settings running (unless the parent context has ended meanwhile). */
  lemma ReturnedCallsHaveDone(trace: seq<State>, k: nat, e: Event, t: State, c: nat)
    requires IsRun(trace) && k < |trace| && Step(trace[k], e, t) && c < |t.calls| == |trace[k].calls|
    requires t.calls[c] != trace[k].calls[c]
    ensures t.calls[c].StopReturned? ==> NothingRuns(t)
    ensures t.calls[c].ApplyReturned? && t.calls[c].ok ==>
      && t.current.Some? && t.current.value < |t.started|
      && t.started[t.current.value].settings == t.calls[c].cfg && !t.started[t.current.value].done
  {
    RunsKeepInv(trace, k);
    assert CallOk(trace[k], c);
    if e.Enters? && trace[k].current.Some? && t.calls[c].ApplyReturned? {
      EqualIsEquality(trace[k].started[trace[k].current.value].settings, t.calls[c].cfg);
    }
  }

  /** A call that holds the lock never waits in vain: it can move, or the goroutine it waits
      for can exit. */
  lemma HolderCanMove(trace: seq<State>, k: nat)
    requires IsRun(trace) && k < |trace| && trace[k].lock.Some?
    ensures var c := trace[k].lock.value;
      || Enabled(trace[k], OldIsDone(c)) || Enabled(trace[k], Builds(c))
      || (trace[k].current.Some? && Enabled(trace[k], Exits(trace[k].current.value)))
  {
    RunsKeepInv(trace, k);
    assert CallOk(trace[k], trace[k].lock.value);
  }

  // ---- the object ----

  class Transport {
    const settings: Config
    var cancelled: bool
    var done: bool

    constructor (settings: Config)
      ensures this.settings == settings && !cancelled && !done
    {
      this.settings, cancelled, done := settings, false, false;
    }
  }

  /** apply without interference: what the steps above come to. */
  function ApplySpec(s: State, cfg: Config, builds: bool): State
    requires s.current.Some? ==> s.current.value < |s.started|
  {
    if Keeps(s, cfg) then s.(applied := s.applied + [cfg]) else
    var t := StopSpec(s);
    if builds then t.(current := Some(|t.started|), started := t.started + [Running(cfg, false, false)],
                      applied := t.applied + [cfg])
    else t.(failed := true)
  }

  function StopSpec(s: State): State
    requires s.current.Some? ==> s.current.value < |s.started|
  {
    if s.current.None? then s
    else
      var i := s.current.value;
      s.(current := None, started := s.started[i := s.started[i].(cancelled := true, done := true)])
  }

  ghost predicate Chain(trace: seq<State>) {
    trace != [] && forall k :: 0 < k < |trace| ==> Next(trace[k - 1], trace[k])
  }

  lemma AddStep(trace: seq<State>, e: Event) returns (longer: seq<State>)
    requires Chain(trace) && Enabled(trace[|trace| - 1], e)
    ensures longer == trace + [Apply(trace[|trace| - 1], e)] && Chain(longer)
  {
    longer := trace + [Apply(trace[|trace| - 1], e)];
    assert Step(trace[|trace| - 1], e, longer[|trace|]);
  }

  /** An undisturbed stop of the old transport, from the moment the lock is taken. */
  lemma StopIsSteps(s: State, cfg: Config, c: nat) returns (trace: seq<State>)
    requires Inv(s) && s.lock == None && c < |s.calls| && s.calls[c] == ApplyWants(cfg) && !Keeps(s, cfg)
    ensures Chain(trace) && trace[0] == s
    ensures trace[|trace| - 1] == StopSpec(s).(calls := s.calls[c := ApplyBuilds(cfg)], lock := Some(c))
  {
    trace := AddStep([s], Enters(c));
    if s.current.Some? {
      var i := s.current.value;
      if !s.started[i].done {
        trace := AddStep(trace, Exits(i));
      }
      var t := trace[|trace| - 1];
      assert t.started == StopSpec(s).started;
      trace := AddStep(trace, OldIsDone(c));
    }
  }

  /** One undisturbed apply is a run of the system from any reachable state with a free lock. */
  lemma ApplyIsSteps(s: State, cfg: Config, builds: bool, c: nat) returns (trace: seq<State>)
    requires Inv(s) && s.lock == None && c < |s.calls| && s.calls[c] == ApplyWants(cfg)
    ensures Chain(trace) && trace[0] == s
    ensures trace[|trace| - 1] ==
            ApplySpec(s, cfg, builds).(calls := s.calls[c := ApplyReturned(cfg, Keeps(s, cfg) || builds)])
  {
    if Keeps(s, cfg) {
      trace := AddStep([s], Enters(c));
    } else {
      trace := StopIsSteps(s, cfg, c);
      trace := AddStep(trace, if builds then Builds(c) else BuildFails(c));
    }
  }

  class RunnerObject {
    var current: Transport?
    ghost var started: seq<Transport>
    ghost var s: State

    ghost predicate Valid()
      reads this, started
    {
      && |started| == |s.started|
      && (forall i :: 0 <= i < |started| ==>
            s.started[i] == Running(started[i].settings, started[i].cancelled, started[i].done))
      && (forall i, j :: 0 <= i < j < |started| ==> started[i] != started[j])
      && (s.current.Some? ==> s.current.value < |started|)
      && (current == null <==> s.current == None)
      && (s.current.Some? ==> current == started[s.current.value])
    }

    constructor ()
      ensures Valid() && Init(s)
    {
      current, started, s := null, [], State(None, [], false, [], None, [], false, false);
    }

    /** stop. */
    method Stop()
      requires Valid()
      modifies this`current, this`s, started
      ensures Valid() && s == StopSpec(old(s)).(stopped := true)
      ensures current == null && (old(current) != null ==> old(current).cancelled && old(current).done)
    {
      StopLocked();
      s := s.(stopped := true);
    }

    /** stopLocked: cancel, wait until the goroutine has returned, forget. */
    method StopLocked()
      requires Valid()
      modifies this`current, this`s, started
      ensures Valid() && s == StopSpec(old(s))
      ensures current == null && (old(current) != null ==> old(current).cancelled && old(current).done)
    {
      if current == null { return; }
      current.cancelled := true;
      current.done := true;  // what the wait on done comes to
      current := null;
      s := StopSpec(s);
    }

    /** The rest of apply once nothing runs any more. */
    method Start(settings: Config)
      requires Valid() && current == null
      modifies this
      ensures Valid() && started == old(started) + [current] && fresh(current)
      ensures s == old(s).(current := Some(|old(s).started|),
                           started := old(s).started + [Running(settings, false, false)],
                           applied := old(s).applied + [settings])
    {
      current := new Transport(settings);
      started := started + [current];
      s := s.(current := Some(|s.started|), started := s.started + [Running(settings, false, false)],
              applied := s.applied + [settings]);
    }

    /** apply; builds: whether certificates load and the client can be made. */
    method ApplySettings(settings: Config, builds: bool) returns (ok: bool)
      requires Valid()
      modifies this, started
      ensures Valid() && s == ApplySpec(old(s), settings, builds)
      ensures ok <==> Keeps(old(s), settings) || builds
      ensures old(current) != null && old(current.settings) == settings && !old(current.done) ==>
        ok && current == old(current) && started == old(started)
      ensures ok ==> current != null && current.settings == settings && !current.done
    {
      if current != null && Equal(current.settings, settings) && !current.done {
        s := s.(applied := s.applied + [settings]);
        return true;
      }
      StopLocked();
      if !builds {
        s := s.(failed := true);
        return false;
      }
      Start(settings);
      return true;
    }
  }
}
