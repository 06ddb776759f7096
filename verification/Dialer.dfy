/** sessionDialer (internal/transport/session.go): one shared mux session, replaced when it
    dies, used by any number of callers at once; and the carrier connections underneath
    (connectMux and connectQUIC in internal/transport/client.go). */
module Dialer {
  import opened Bytes
  import Runs

  /** dead: the session noticed that its connection broke; closes: how often the dialer has
      called close on it; carrier: the connection it runs over. */
  datatype Mux = Mux(carrier: nat, dead: bool, closes: nat)

  predicate IsClosed(m: Mux) {
    m.dead || m.closes > 0
  }

  /** The fields of sessionDialer; made lists every session connect ever returned, and
      carriers every connection ever dialled, by the number of times it has been closed. */
  datatype Shared = Shared(cur: Option<nat>, closed: bool, made: seq<Mux>, carriers: seq<nat>)

  function CloseCarrier(s: Shared, c: nat): Shared
    requires c < |s.carriers|
  {
    s.(carriers := s.carriers[c := s.carriers[c] + 1])
  }

  /** Closing a session closes its carrier. */
  function CloseMux(s: Shared, i: nat): Shared
    requires i < |s.made| && s.made[i].carrier < |s.carriers|
  {
    CloseCarrier(s.(made := s.made[i := s.made[i].(closes := s.made[i].closes + 1)]), s.made[i].carrier)
  }

  predicate WellFormed(s: Shared) {
    && (s.cur.Some? ==> s.cur.value < |s.made|)
    && forall i :: 0 <= i < |s.made| ==> s.made[i].carrier < |s.carriers|
  }

  datatype Answer = Refused | Reuse(i: nat) | MustConnect

  /** The locked lookup, up to the call of connect. */
  function Look(s: Shared): (Answer, Shared)
    requires WellFormed(s)
  {
    if s.closed then (Refused, s)
    else if s.cur.Some? && !IsClosed(s.made[s.cur.value]) then (Reuse(s.cur.value), s)
    else if s.cur.Some? then (MustConnect, CloseMux(s, s.cur.value).(cur := None))
    else (MustConnect, s)
  }

  function Install(s: Shared, carrier: nat): Shared {
    s.(cur := Some(|s.made|), made := s.made + [Mux(carrier, false, 0)])
  }

  function Discard(s: Shared, i: nat): Shared
    requires WellFormed(s)
  {
    if s.cur == Some(i) then CloseMux(s, i).(cur := None) else s
  }

  function CloseAll(s: Shared): Shared
    requires WellFormed(s)
  {
    var t := s.(closed := true);
    if t.cur.Some? then CloseMux(t, t.cur.value).(cur := None) else t
  }

  // ---- the transition system ----

  /** Where one call of Dial is. failed: the session its first attempt could not use. While it
      dials and carries it holds the lock; a carrier has two stages to pass before it is a
      session (handshake and smux start, or QUIC stream and handshake). */
  datatype Call =
    | Wants(failed: Option<nat>)
    | Dialling(failed: Option<nat>)
    | Carrying(failed: Option<nat>, carrier: nat, stage: nat)
    | Opening(failed: Option<nat>, i: nat)
    | Failing(failed: Option<nat>, i: nat)
    | Returned(stream: Option<nat>)

  datatype State = State(s: Shared, calls: seq<Call>, lock: Option<nat>)

  datatype Event =
    | Starts
    | Looks(d: nat)
    | DialFails(d: nat)
    | Dials(d: nat)
    | StagePasses(d: nat)
    | StageFails(d: nat)
    | OpenSucceeds(d: nat)
    | OpenFails(d: nat)
    | Discards(d: nat)
    | CloseCalled
    | SessionDies(i: nat)

  predicate Init(st: State) {
    st == State(Shared(None, false, [], []), [], None)
  }

  predicate Enabled(st: State, e: Event) {
    && WellFormed(st.s)
    && match e
       case Starts => true
       case Looks(d) => d < |st.calls| && st.calls[d].Wants? && st.lock == None
       case DialFails(d) => d < |st.calls| && st.calls[d].Dialling?
       case Dials(d) => d < |st.calls| && st.calls[d].Dialling?
       case StagePasses(d) => d < |st.calls| && st.calls[d].Carrying?
       case StageFails(d) => d < |st.calls| && st.calls[d].Carrying? && st.calls[d].carrier < |st.s.carriers|
       case OpenSucceeds(d) => d < |st.calls| && st.calls[d].Opening?
       case OpenFails(d) => d < |st.calls| && st.calls[d].Opening?
       case Discards(d) => d < |st.calls| && st.calls[d].Failing? && st.lock == None
       case CloseCalled => st.lock == None
       case SessionDies(i) => i < |st.s.made|
  }

  function Apply(st: State, e: Event): State
    requires Enabled(st, e)
  {
    match e
    case Starts => st.(calls := st.calls + [Wants(None)])
    case Looks(d) =>
      var f := st.calls[d].failed;
      (match Look(st.s)
       case (Refused, s) => State(s, st.calls[d := Returned(None)], None)
       case (Reuse(i), s) => State(s, st.calls[d := Opening(f, i)], None)
       case (MustConnect, s) => State(s, st.calls[d := Dialling(f)], Some(d)))
    case DialFails(d) => st.(calls := st.calls[d := Returned(None)], lock := None)
    case Dials(d) =>
      st.(s := st.s.(carriers := st.s.carriers + [0]),
          calls := st.calls[d := Carrying(st.calls[d].failed, |st.s.carriers|, 0)])
    case StagePasses(d) =>
      var c := st.calls[d];
      if c.stage == 0 then st.(calls := st.calls[d := c.(stage := 1)])
      else State(Install(st.s, c.carrier), st.calls[d := Opening(c.failed, |st.s.made|)], None)
    case StageFails(d) => State(CloseCarrier(st.s, st.calls[d].carrier), st.calls[d := Returned(None)], None)
    case OpenSucceeds(d) => st.(calls := st.calls[d := Returned(Some(st.calls[d].i))])
    case OpenFails(d) => st.(calls := st.calls[d := Failing(st.calls[d].failed, st.calls[d].i)])
    case Discards(d) =>
      var c := st.calls[d];
      st.(s := Discard(st.s, c.i),
          calls := st.calls[d := if c.failed.None? then Wants(Some(c.i)) else Returned(None)])
    case CloseCalled => st.(s := CloseAll(st.s))
    case SessionDies(i) => st.(s := st.s.(made := st.s.made[i := st.s.made[i].(dead := true)]))
  }

  ghost predicate Step(st: State, e: Event, tt: State) {
    Enabled(st, e) && tt == Apply(st, e)
  }

  ghost predicate Next(st: State, tt: State) {
    exists e :: Step(st, e, tt)
  }

  ghost predicate IsRun(trace: seq<State>) {
    Runs.IsRun(Init, Next, trace)
  }

  // ---- ownership ----

  predicate Holds(c: Call) {
    c.Dialling? || c.Carrying?
  }

  /** The current session is the one session not yet closed; every other has been closed once. */
  ghost predicate SessionsOwned(s: Shared) {
    && WellFormed(s)
    && (s.closed ==> s.cur == None)
    && (forall i :: 0 <= i < |s.made| ==> s.made[i].closes == if s.cur == Some(i) then 0 else 1)
    && (forall i :: 0 <= i < |s.made| ==> s.carriers[s.made[i].carrier] == s.made[i].closes)
    && (forall i, j :: 0 <= i < j < |s.made| ==> s.made[i].carrier != s.made[j].carrier)
  }

  predicate Unowned(s: Shared, c: nat) {
    forall i :: 0 <= i < |s.made| ==> s.made[i].carrier != c
  }

  predicate HeldBy(st: State, d: nat, c: nat) {
    d < |st.calls| && st.calls[d].Carrying? && st.calls[d].carrier == c
  }

  /** An open carrier belongs to the current session or to the one call that is connecting. */
  ghost predicate CarrierOwned(st: State, c: nat)
    requires WellFormed(st.s) && c < |st.s.carriers|
  {
    && st.s.carriers[c] <= 1
    && (st.s.carriers[c] == 0 ==>
          || (st.s.cur.Some? && st.s.made[st.s.cur.value].carrier == c)
          || (st.lock.Some? && HeldBy(st, st.lock.value, c)))
  }

  ghost predicate CallOk(st: State, d: nat)
    requires d < |st.calls|
  {
    && (Holds(st.calls[d]) ==> st.lock == Some(d) && st.s.cur == None && !st.s.closed)
    && match st.calls[d]
       case Wants(f) => f.Some? ==> f.value < |st.s.made| && st.s.made[f.value].closes > 0
       case Dialling(f) => f.Some? ==> f.value < |st.s.made| && st.s.made[f.value].closes > 0
       case Carrying(f, c, stage) =>
         && (f.Some? ==> f.value < |st.s.made| && st.s.made[f.value].closes > 0)
         && c < |st.s.carriers| && st.s.carriers[c] == 0 && Unowned(st.s, c) && stage < 2
       case Opening(f, i) => i < |st.s.made| && f != Some(i) && (f.Some? ==> f.value < |st.s.made|)
       case Failing(f, i) => i < |st.s.made| && f != Some(i) && (f.Some? ==> f.value < |st.s.made|)
       case Returned(r) => r.Some? ==> r.value < |st.s.made|
  }

  ghost predicate Inv(st: State) {
    && SessionsOwned(st.s)
    && (forall d :: 0 <= d < |st.calls| ==> CallOk(st, d))
    && (forall c :: 0 <= c < |st.s.carriers| ==> CarrierOwned(st, c))
    && (st.lock.Some? ==> st.lock.value < |st.calls| && Holds(st.calls[st.lock.value]))
  }

  function DropCur(s: Shared): Shared
    requires WellFormed(s) && s.cur.Some?
  {
    CloseMux(s, s.cur.value).(cur := None)
  }

  lemma DropKeepsSessions(s: Shared)
    requires SessionsOwned(s) && s.cur.Some?
    ensures SessionsOwned(DropCur(s)) && DropCur(s).cur == None
  {
    var t := DropCur(s);
    forall i | 0 <= i < |t.made|
      ensures t.made[i].closes == 1 && t.carriers[t.made[i].carrier] == t.made[i].closes
    {
    }
  }

  lemma BlocksKeepSessions(s: Shared, i: nat)
    requires SessionsOwned(s)
    ensures SessionsOwned(Look(s).1) && SessionsOwned(Discard(s, i)) && SessionsOwned(CloseAll(s))
    ensures CloseAll(s).cur == None && (Look(s).0 == MustConnect ==> Look(s).1.cur == None)
  {
    if s.cur.Some? {
      DropKeepsSessions(s);
      var t := DropCur(s);
      assert CloseAll(s) == t.(closed := true);
      assert SessionsOwned(t.(closed := true));
    }
  }

  /** A carrier of its own makes a session; a carrier of nobody's can be closed. */
  lemma CarrierStepKeepsSessions(s: Shared, c: nat)
    requires SessionsOwned(s) && s.cur == None && !s.closed && c < |s.carriers| && Unowned(s, c)
    ensures s.carriers[c] == 0 ==> SessionsOwned(Install(s, c))
    ensures SessionsOwned(CloseCarrier(s, c))
  {
  }

  lemma LockedStepKeepsSessions(st: State, e: Event, tt: State)
    requires SessionsOwned(st.s) && Step(st, e, tt) && (e.Looks? || e.Discards? || e.CloseCalled?)
    ensures SessionsOwned(tt.s)
  {
    BlocksKeepSessions(st.s, if e.Discards? then st.calls[e.d].i else 0);
  }

  lemma StageKeepsSessions(st: State, e: Event, tt: State)
    requires Inv(st) && Step(st, e, tt) && (e.StagePasses? || e.StageFails?)
    ensures SessionsOwned(tt.s)
  {
    assert CallOk(st, e.d);
    CarrierStepKeepsSessions(st.s, st.calls[e.d].carrier);
  }

  lemma OtherStepKeepsSessions(st: State, e: Event, tt: State)
    requires SessionsOwned(st.s) && Step(st, e, tt)
    requires !(e.Looks? || e.Discards? || e.CloseCalled? || e.StagePasses? || e.StageFails?)
    ensures SessionsOwned(tt.s)
  {
  }

  lemma StepKeepsSessions(st: State, e: Event, tt: State)
    requires Inv(st) && Step(st, e, tt)
    ensures SessionsOwned(tt.s)
  {
    if e.Looks? || e.Discards? || e.CloseCalled? {
      LockedStepKeepsSessions(st, e, tt);
    } else if e.StagePasses? || e.StageFails? {
      StageKeepsSessions(st, e, tt);
    } else {
      OtherStepKeepsSessions(st, e, tt);
    }
  }

  /** Sessions are only added, close counts only grow, and what is carried stays carried. */
  predicate Grows(s: Shared, t: Shared) {
    && |s.made| <= |t.made| && |s.carriers| <= |t.carriers|
    && (forall i :: 0 <= i < |s.made| ==>
          t.made[i].carrier == s.made[i].carrier && t.made[i].closes >= s.made[i].closes)
    && (s.closed ==> t.closed)
  }

  lemma StepGrows(st: State, e: Event, tt: State)
    requires Inv(st) && Step(st, e, tt)
    ensures Grows(st.s, tt.s)
  {
  }

  /** While the lock is free, a call that is not the subject of the step only sees s grow. */
  lemma GrowthKeepsCall(st: State, tt: State, d: nat)
    requires d < |st.calls| && d < |tt.calls| && tt.calls[d] == st.calls[d]
    requires CallOk(st, d) && Grows(st.s, tt.s) && !Holds(st.calls[d])
    ensures CallOk(tt, d)
  {
  }

  lemma LockedStepKeepsCalls(st: State, e: Event, tt: State, d: nat)
    requires Inv(st) && Step(st, e, tt) && Grows(st.s, tt.s) && (e.Looks? || e.Discards? || e.CloseCalled?)
    requires d < |tt.calls| == |st.calls|
    ensures CallOk(tt, d)
  {
    assert CallOk(st, d);
    if e != CloseCalled && e.d == d {
      if e.Looks? {
        var (answer, s) := Look(st.s);
        if answer.Reuse? { assert st.s.made[answer.i].closes == 0; }
      } else {
        assert st.s.made[st.calls[d].i].closes == if st.s.cur == Some(st.calls[d].i) then 0 else 1;
      }
    } else {
      GrowthKeepsCall(st, tt, d);
    }
  }

  lemma ConnectStepKeepsCalls(st: State, e: Event, tt: State, d: nat)
    requires Inv(st) && Step(st, e, tt) && Grows(st.s, tt.s)
    requires e.DialFails? || e.Dials? || e.StagePasses? || e.StageFails?
    requires d < |tt.calls| == |st.calls|
    ensures CallOk(tt, d)
  {
    assert CallOk(st, d) && CallOk(st, e.d);
    if d != e.d { GrowthKeepsCall(st, tt, d); }
  }

  lemma OtherStepKeepsCalls(st: State, e: Event, tt: State, d: nat)
    requires Inv(st) && Step(st, e, tt) && Grows(st.s, tt.s)
    requires e.Starts? || e.OpenSucceeds? || e.OpenFails? || e.SessionDies?
    requires d < |tt.calls|
    ensures CallOk(tt, d)
  {
    if d < |st.calls| { assert CallOk(st, d); }
  }

  lemma StepKeepsCalls(st: State, e: Event, tt: State)
    requires Inv(st) && Step(st, e, tt)
    ensures forall d :: 0 <= d < |tt.calls| ==> CallOk(tt, d)
  {
    StepGrows(st, e, tt);
    forall d | 0 <= d < |tt.calls| ensures CallOk(tt, d) {
      if e.Looks? || e.Discards? || e.CloseCalled? {
        LockedStepKeepsCalls(st, e, tt, d);
      } else if e.DialFails? || e.Dials? || e.StagePasses? || e.StageFails? {
        ConnectStepKeepsCalls(st, e, tt, d);
      } else {
        OtherStepKeepsCalls(st, e, tt, d);
      }
    }
  }

  /** Dropping the current session closes its carrier and touches no other. */
  lemma DropKeepsCarriers(st: State, lock: Option<nat>, c: nat)
    requires Inv(st) && st.s.cur.Some? && c < |st.s.carriers| && st.lock == None
    ensures WellFormed(DropCur(st.s)) && CarrierOwned(State(DropCur(st.s), st.calls, lock), c)
  {
    assert CarrierOwned(st, c);
  }

  lemma LockedStepKeepsCarriers(st: State, e: Event, tt: State, c: nat)
    requires Inv(st) && Step(st, e, tt) && (e.Looks? || e.Discards? || e.CloseCalled?)
    requires c < |tt.s.carriers| == |st.s.carriers| && WellFormed(tt.s)
    ensures CarrierOwned(tt, c)
  {
    assert CarrierOwned(st, c);
    if st.s.cur.Some? { DropKeepsCarriers(st, tt.lock, c); }
  }

  lemma ConnectStepKeepsCarriers(st: State, e: Event, tt: State, c: nat)
    requires Inv(st) && Step(st, e, tt) && (e.DialFails? || e.Dials? || e.StagePasses? || e.StageFails?)
    requires c < |tt.s.carriers| && WellFormed(tt.s)
    ensures CarrierOwned(tt, c)
  {
    assert CallOk(st, e.d);
    if c < |st.s.carriers| { assert CarrierOwned(st, c); }
    if e.Dials? && c == |st.s.carriers| { assert HeldBy(tt, e.d, c); }
  }

  lemma StepKeepsCarriers(st: State, e: Event, tt: State)
    requires Inv(st) && Step(st, e, tt) && WellFormed(tt.s)
    ensures forall c :: 0 <= c < |tt.s.carriers| ==> CarrierOwned(tt, c)
  {
    forall c | 0 <= c < |tt.s.carriers| ensures CarrierOwned(tt, c) {
      if e.Looks? || e.Discards? || e.CloseCalled? {
        LockedStepKeepsCarriers(st, e, tt, c);
      } else if e.DialFails? || e.Dials? || e.StagePasses? || e.StageFails? {
        ConnectStepKeepsCarriers(st, e, tt, c);
      } else {
        assert CarrierOwned(st, c);
      }
    }
  }

  lemma StepKeepsInv(st: State, e: Event, tt: State)
    requires Inv(st) && Step(st, e, tt)
    ensures Inv(tt)
  {
    StepKeepsSessions(st, e, tt);
    StepKeepsCalls(st, e, tt);
    StepKeepsCarriers(st, e, tt);
  }

  lemma RunsKeepInv(trace: seq<State>, k: nat)
    requires IsRun(trace) && k < |trace|
    ensures Inv(trace[k])
  {
    forall s, t | Inv(s) && Next(s, t) ensures Inv(t) {
      var e :| Step(s, e, t);
      StepKeepsInv(s, e, t);
    }
    Runs.Invariance(Init, Next, s => Inv(s), trace, k);
  }

  // ---- main results ----

  /** Any number of concurrent Dial and Close calls: every session connect ever returned is the
      current one, not closed by the dialer, or has been closed by the dialer exactly once. So
      none leaks, none is closed twice, and at most one is unclosed. */
  lemma SessionOwnership(trace: seq<State>, k: nat, i: nat)
    requires IsRun(trace) && k < |trace| && i < |trace[k].s.made|
    ensures trace[k].s.cur == Some(i) <==> trace[k].s.made[i].closes == 0
    ensures trace[k].s.cur != Some(i) <==> trace[k].s.made[i].closes == 1
  {
    RunsKeepInv(trace, k);
  }

  /** No carrier leaks: every connection ever dialled has been closed exactly once, or is open
      and belongs to the current session, or is open and in the hands of the one call that is
      connecting. So when no call is connecting, only the current session's is open. */
  lemma CarrierOwnership(trace: seq<State>, k: nat, c: nat)
    requires IsRun(trace) && k < |trace| && c < |trace[k].s.carriers|
    ensures trace[k].s.carriers[c] <= 1
    ensures trace[k].s.carriers[c] == 0 <==>
      || (trace[k].s.cur.Some? && trace[k].s.cur.value < |trace[k].s.made|
          && trace[k].s.made[trace[k].s.cur.value].carrier == c)
      || exists d: nat :: HeldBy(trace[k], d, c)
    ensures forall d: nat, b: nat :: HeldBy(trace[k], d, c) && HeldBy(trace[k], b, c) ==> b == d
  {
    RunsKeepInv(trace, k);
    var st := trace[k];
    assert CarrierOwned(st, c);
    forall d: nat | HeldBy(st, d, c) ensures st.s.carriers[c] == 0 && st.lock == Some(d) {
      assert CallOk(st, d);
    }
  }

  /** A late discard touches no session but its own: a replacement that has become current in
      the meantime stays current and open. */
  lemma LateDiscardIsHarmless(st: State, e: Event, tt: State, j: nat)
    requires Inv(st) && Step(st, e, tt) && e.Discards?
    requires j < |st.s.made| && j != st.calls[e.d].i
    ensures tt.s.made[j] == st.s.made[j]
    ensures st.s.cur == Some(j) ==> tt.s.cur == Some(j)
    ensures st.calls[e.d].i < |tt.s.made|
    ensures tt.s.cur != Some(st.calls[e.d].i) && tt.s.made[st.calls[e.d].i].closes == 1
  {
    assert CallOk(st, e.d);
  }

  /** A live current session is kept and shared: a lookup takes it and changes nothing. A dead one
      is closed and not handed out. */
  lemma LookReusesExactlyLive(st: State, e: Event, tt: State, i: nat)
    requires Inv(st) && Step(st, e, tt) && e.Looks? && st.s.cur == Some(i)
    ensures !st.s.made[i].dead ==>
      tt.s == st.s && tt.lock == None && tt.calls[e.d] == Opening(st.calls[e.d].failed, i)
    ensures st.s.made[i].dead ==>
      tt.s.made[i].closes == 1 && tt.s.cur == None && tt.calls[e.d] == Dialling(st.calls[e.d].failed)
  {
    assert st.s.made[i].closes == 0;
  }

  /** So a live current session is closed in two ways only: by Close, and by a call that could not
      open a stream on it. */
  lemma WhoClosesLive(st: State, e: Event, tt: State, i: nat)
    requires Inv(st) && Step(st, e, tt) && st.s.cur == Some(i) && !st.s.made[i].dead
    ensures i < |tt.s.made|
    ensures (tt.s.cur == Some(i) && tt.s.made[i].closes == 0)
         || (e == CloseCalled && tt.s.made[i].closes == 1)
         || (e.Discards? && st.calls[e.d].i == i && tt.s.made[i].closes == 1)
  {
    assert st.s.made[i].closes == 0;
    if e.DialFails? || e.Dials? || e.StagePasses? || e.StageFails? { assert CallOk(st, e.d); }
  }

  /** What the dialer has closed is never handed out or current again. */
  lemma ClosedStaysOut(trace: seq<State>, i: nat, j: nat, m: nat)
    requires IsRun(trace) && i <= j < |trace|
    requires m < |trace[i].s.made| && trace[i].s.made[m].closes > 0
    ensures m < |trace[j].s.made| && trace[j].s.made[m].closes == 1 && trace[j].s.cur != Some(m)
  {
    forall k | 0 <= k < |trace| ensures Inv(trace[k]) { RunsKeepInv(trace, k); }
    forall r: State, s: State, t: State | Grows(r.s, s.s) && Inv(s) && Next(s, t) ensures Grows(r.s, t.s) {
      var e :| Step(s, e, t);
      StepGrows(s, e, t);
    }
    Runs.Persistence(Init, Next, s => Inv(s), (r: State, t: State) => Grows(r.s, t.s), trace, i, j);
  }

  /** A retry never opens on the session the first attempt failed on. */
  lemma RetryUsesAnotherSession(trace: seq<State>, k: nat, d: nat)
    requires IsRun(trace) && k < |trace| && d < |trace[k].calls|
    ensures trace[k].calls[d].Opening? && trace[k].calls[d].failed.Some? ==>
      && trace[k].calls[d].i != trace[k].calls[d].failed.value
      && trace[k].calls[d].failed.value < |trace[k].s.made|
  {
    RunsKeepInv(trace, k);
    assert CallOk(trace[k], d);
  }

  /** The dialer has been closed at r, and at t nothing has been made since. */
  ghost predicate NothingNew(r: State, t: State) {
    r.s.closed ==> t.s.closed && |t.s.made| == |r.s.made| && |t.s.carriers| == |r.s.carriers|
  }

  /** Close is final: from then on no session and no carrier is ever made, and every session
      and every carrier there ever was is closed, the one a call was connecting included,
      since Close waits for the lock that call holds. */
  lemma CloseIsPermanent(trace: seq<State>, i: nat, j: nat)
    requires IsRun(trace) && i <= j < |trace| && trace[i].s.closed
    ensures |trace[j].s.made| == |trace[i].s.made| && |trace[j].s.carriers| == |trace[i].s.carriers|
    ensures forall m :: 0 <= m < |trace[j].s.made| ==> trace[j].s.made[m].closes == 1
    ensures forall c :: 0 <= c < |trace[j].s.carriers| ==> trace[j].s.carriers[c] == 1
  {
    forall k | 0 <= k < |trace| ensures Inv(trace[k]) { RunsKeepInv(trace, k); }
    forall r, s, t | NothingNew(r, s) && Inv(s) && Next(s, t) ensures NothingNew(r, t) {
      var e :| Step(s, e, t);
      if e.Dials? || e.StagePasses? || e.StageFails? { assert CallOk(s, e.d); }
    }
    Runs.Persistence(Init, Next, s => Inv(s), (r, t) => NothingNew(r, t), trace, i, j);
    var st := trace[j];
    forall c | 0 <= c < |st.s.carriers| ensures st.s.carriers[c] == 1 {
      assert CarrierOwned(st, c);
      if st.lock.Some? { assert CallOk(st, st.lock.value); }
    }
  }

  /** Close closes: the dialer is shut from that step on, every session there is has been closed,
      and every later lookup is refused. */
  lemma CloseCloses(st: State, e: Event, tt: State)
    requires Inv(st) && Step(st, e, tt)
    ensures e == CloseCalled ==> tt.s.closed && forall i :: 0 <= i < |tt.s.made| ==> tt.s.made[i].closes == 1
    ensures e.Looks? && st.s.closed ==> tt.calls[e.d] == Returned(None) && tt.s == st.s && tt.lock == None
  {
    if e == CloseCalled { BlocksKeepSessions(st.s, 0); }
  }

  /** Steps a call of Dial still has to make. */
  function Left(c: Call): nat {
    match c
    case Returned(_) => 0
    case Failing(f, _) => if f.Some? then 1 else 8
    case Opening(f, _) => if f.Some? then 2 else 9
    case Carrying(f, _, stage) => (if f.Some? then 3 else 10) + (if stage == 0 then 1 else 0)
    case Dialling(f) => if f.Some? then 5 else 12
    case Wants(f) => if f.Some? then 6 else 13
  }

  predicate IsCallStep(e: Event, d: nat) {
    match e
    case Looks(b) => b == d
    case DialFails(b) => b == d
    case Dials(b) => b == d
    case StagePasses(b) => b == d
    case StageFails(b) => b == d
    case OpenSucceeds(b) => b == d
    case OpenFails(b) => b == d
    case Discards(b) => b == d
    case _ => false
  }

  /** A call that has not returned can move, unless another holds the lock. */
  lemma CallCanMove(st: State, d: nat) returns (f: Event)
    requires Inv(st) && d < |st.calls| && !st.calls[d].Returned? && (st.lock.None? || st.lock == Some(d))
    ensures IsCallStep(f, d) && Enabled(st, f)
  {
    assert CallOk(st, d);
    f := match st.calls[d]
      case Wants(_) => Looks(d)
      case Dialling(_) => DialFails(d)
      case Carrying(_, _, _) => StagePasses(d)
      case Opening(_, _) => OpenFails(d)
      case Failing(_, _) => Discards(d)
      case Returned(_) => Starts;
  }

  lemma CallStepIsProgress(st: State, e: Event, tt: State, d: nat)
    requires Inv(st) && Step(st, e, tt) && d < |st.calls|
    ensures d < |tt.calls|
    ensures if IsCallStep(e, d) then Left(tt.calls[d]) < Left(st.calls[d]) else tt.calls[d] == st.calls[d]
  {
    assert CallOk(st, d);
  }

  /** Every Dial comes to an end: each of its own steps brings it nearer, no other step delays
      it, and while it has not returned, it can move or the call that holds the lock can. */
  lemma DialEnds(st: State, e: Event, tt: State, d: nat)
    requires Inv(st) && Step(st, e, tt) && d < |st.calls|
    ensures d < |tt.calls|
    ensures if IsCallStep(e, d) then Left(tt.calls[d]) < Left(st.calls[d]) else tt.calls[d] == st.calls[d]
    ensures !st.calls[d].Returned? ==>
      exists f, b :: IsCallStep(f, b) && Enabled(st, f) && (b == d || st.lock == Some(b))
  {
    CallStepIsProgress(st, e, tt, d);
    if !st.calls[d].Returned? {
      var b := if st.lock.Some? then st.lock.value else d;
      var f := CallCanMove(st, b);
    }
  }
}
