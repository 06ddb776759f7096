/** How long an idle session lives: the session table under an ideal one-minute ticker and a
    monotone clock, each sweep taking no time. Any number of sessions, any phase of the
    ticker, and any mix of traffic, removals and shutdown in between. */
module UdpTiming {
  import opened Bytes
  import opened UdpTable
  import Runs

  /** next: when the ticker fires next. */
  datatype State = State(table: Table, clock: int, next: int)

  datatype Event =
    | Passes(clock: int)
    | Ticks
    | Opens(peer: Addr, dialed: Option<Addr>)
    | Touches(i: nat)
    | Removes(i: nat)
    | ClosesAll

  predicate Init(s: State) {
    s.table == Table(map[], []) && s.next == s.clock + SWEEP_INTERVAL
  }

  predicate Enabled(s: State, e: Event) {
    match e
    case Passes(clock) => s.clock <= clock <= s.next
    case Ticks => s.clock == s.next
    case Touches(i) => i < |s.table.all|
    case Removes(i) => i < |s.table.all|
    case _ => true
  }

  function Apply(s: State, e: Event): State
    requires Enabled(s, e)
  {
    match e
    case Passes(clock) => s.(clock := clock)
    case Ticks => s.(table := Swept(s.table, s.clock - IDLE_TIMEOUT), next := s.next + SWEEP_INTERVAL)
    case Opens(peer, dialed) => s.(table := Find(s.table, peer, dialed, s.clock).1)
    case Touches(i) => s.(table := Touched(s.table, i, s.clock))
    case Removes(i) => s.(table := Closed(Removed(s.table, i), i))
    case ClosesAll => s.(table := AllClosed(s.table))
  }

  ghost predicate Step(s: State, e: Event, t: State) {
    Enabled(s, e) && t == Apply(s, e)
  }

  ghost predicate Next(s: State, t: State) {
    exists e :: Step(s, e, t)
  }

  ghost predicate IsRun(trace: seq<State>) {
    Runs.IsRun(Init, Next, trace)
  }

  /** The last tick spared every session that is still there. */
  ghost predicate Inv(s: State) {
    && KeyedByPeer(s.table)
    && s.next - SWEEP_INTERVAL <= s.clock <= s.next
    && forall i :: 0 <= i < |s.table.all| && Mapped(s.table, i) ==>
         s.next - SWEEP_INTERVAL <= s.table.all[i].lastSeen + IDLE_TIMEOUT
  }

  lemma StepKeepsInv(s: State, e: Event, t: State)
    requires Inv(s) && Step(s, e, t)
    ensures Inv(t)
  {
    forall i | 0 <= i < |t.table.all| && Mapped(t.table, i)
      ensures t.next - SWEEP_INTERVAL <= t.table.all[i].lastSeen + IDLE_TIMEOUT
    {
      match e {
        case Ticks => SweptExactly(s.table, s.clock - IDLE_TIMEOUT, i);
        case Removes(j) => if i != j { RemovedOnlyOwnEntry(s.table, j, i); }
        case _ =>
      }
    }
  }

  lemma RunsKeepInv(trace: seq<State>, k: nat)
    requires IsRun(trace) && k < |trace|
    ensures Inv(trace[k])
  {
    forall s, t | Inv(s) && Next(s, t) ensures Inv(t) {
      var e :| Step(s, e, t);
      StepKeepsInv(s, e, t);
    }
    Runs.Invariance(Init, Next, s => Inv(s), trace, k);
  }

  /** A session last touched at time t is in the table no later than t + 4 min; at that very
      moment it can only be there if the tick that takes it out is due. */
  lemma IdleSessionIsGone(trace: seq<State>, k: nat, i: nat)
    requires IsRun(trace) && k < |trace|
    requires i < |trace[k].table.all| && Mapped(trace[k].table, i)
    ensures trace[k].clock <= trace[k].table.all[i].lastSeen + IDLE_TIMEOUT + SWEEP_INTERVAL
    ensures trace[k].clock == trace[k].table.all[i].lastSeen + IDLE_TIMEOUT + SWEEP_INTERVAL ==>
              Enabled(trace[k], Ticks) && !Mapped(Apply(trace[k], Ticks).table, i)
  {
    RunsKeepInv(trace, k);
    if trace[k].clock == trace[k].table.all[i].lastSeen + IDLE_TIMEOUT + SWEEP_INTERVAL {
      SweptExactly(trace[k].table, trace[k].clock - IDLE_TIMEOUT, i);
    }
  }

  /** The event touches session m, or makes it. */
  predicate IsTouch(s: State, e: Event, m: nat) {
    match e
    case Touches(i) => i == m
    case Opens(peer, dialed) => peer !in s.table.live && dialed.Some? && m == |s.table.all|
    case _ => false
  }

  /** m is as it was touched at time `at` or later, unless it has been closed. */
  predicate Fresh(s: State, m: nat, at: int) {
    m < |s.table.all| && (s.table.all[m].closed || (Mapped(s.table, m) && at <= s.table.all[m].lastSeen))
  }

  lemma StepKeepsFresh(s: State, e: Event, t: State, m: nat, at: int)
    requires Inv(s) && Step(s, e, t) && Fresh(s, m, at) && at <= s.clock && t.clock <= at + IDLE_TIMEOUT
    ensures Fresh(t, m, at)
  {
    match e {
      case Ticks => SweptExactly(s.table, s.clock - IDLE_TIMEOUT, m);
      case Removes(j) => if m != j { RemovedOnlyOwnEntry(s.table, j, m); }
      case _ =>
    }
  }

  lemma FreshAtStep(trace: seq<State>, k: nat, m: nat, at: int)
    requires IsRun(trace) && 0 < k < |trace|
    ensures trace[k - 1].clock <= trace[k].clock
    ensures at <= trace[k - 1].clock && Fresh(trace[k - 1], m, at) && trace[k].clock <= at + IDLE_TIMEOUT ==>
      Fresh(trace[k], m, at)
  {
    RunsKeepInv(trace, k - 1);
    assert Next(trace[k - 1], trace[k]);
    var e :| Step(trace[k - 1], e, trace[k]);
    if at <= trace[k - 1].clock && Fresh(trace[k - 1], m, at) && trace[k].clock <= at + IDLE_TIMEOUT {
      StepKeepsFresh(trace[k - 1], e, trace[k], m, at);
    }
  }

  /** A session touched at time t is in the table at least until t + 3 min, under any traffic
      and any tick phase, unless it is removed and closed for another reason. */
  lemma TouchedSessionStays(trace: seq<State>, i: nat, j: nat, e: Event, m: nat)
    requires IsRun(trace) && i < j < |trace|
    requires Step(trace[i], e, trace[i + 1]) && IsTouch(trace[i], e, m) && Mapped(trace[i + 1].table, m)
    requires trace[j].clock <= trace[i].clock + IDLE_TIMEOUT
    ensures m < |trace[j].table.all| && (Mapped(trace[j].table, m) || trace[j].table.all[m].closed)
  {
    var at := trace[i].clock;
    var fresh' := (s: State) => at <= s.clock && (s.clock <= at + IDLE_TIMEOUT ==> Fresh(s, m, at));
    forall k | i + 1 < k <= j && fresh'(trace[k - 1]) ensures fresh'(trace[k]) {
      FreshAtStep(trace, k, m, at);
    }
    Runs.Along(fresh', trace, i + 1, j);
  }

  /** The ticker takes out exactly the sessions last touched more than 3 min before. */
  lemma TickExpiresExactly(trace: seq<State>, k: nat, i: nat)
    requires IsRun(trace) && k < |trace| && Enabled(trace[k], Ticks)
    requires i < |trace[k].table.all| && Mapped(trace[k].table, i)
    ensures !Mapped(Apply(trace[k], Ticks).table, i) <==>
            trace[k].table.all[i].lastSeen + IDLE_TIMEOUT < trace[k].clock
  {
    RunsKeepInv(trace, k);
    SweptExactly(trace[k].table, trace[k].clock - IDLE_TIMEOUT, i);
  }
}
