/** sessionDialer as the object it is, with the connect functions that feed it. Its methods
    are the locked blocks of Dialer; Dial is the retry loop over them. */
module DialerObject {
  import opened Bytes
  import opened Dialer
  import Runs

  class Carrier {
    var closes: nat

    constructor ()
      ensures closes == 0
    {
      closes := 0;
    }

    method Close()
      modifies this
      ensures closes == old(closes) + 1
    {
      closes := closes + 1;
    }
  }

  class MuxSession {
    const carrier: Carrier
    var dead: bool
    var closes: nat

    constructor (carrier: Carrier)
      ensures this.carrier == carrier && !dead && closes == 0
    {
      this.carrier, dead, closes := carrier, false, 0;
    }
  }

  /** How far connecting gets: no carrier, a carrier that fails one of its two stages, or a session. */
  datatype Luck = NoCarrier | FailsFirst | FailsSecond | Connects

  /** dialAuthenticated: a carrier that passed the handshake, or none left open. */
  method DialAuthenticated(luck: Luck) returns (conn: Carrier?, ghost dialed: Carrier?)
    ensures (dialed == null <==> luck == NoCarrier) && (dialed != null ==> fresh(dialed))
    ensures conn != null <==> luck in {FailsSecond, Connects}
    ensures conn != null ==> conn == dialed && conn.closes == 0
    ensures luck == FailsFirst ==> dialed.closes == 1
  {
    conn, dialed := null, null;
    if luck == NoCarrier { return; }
    var c := new Carrier();
    dialed := c;
    if luck == FailsFirst {
      c.Close();
      return;
    }
    conn := c;
  }

  /** connectMux: the smux session over an authenticated carrier; quic says connectQUIC, which
      opens its stream first and authenticates on it. Either way a carrier that does not end
      up in the returned session has been closed. */
  method Connect(luck: Luck, quic: bool) returns (sess: MuxSession?, ghost dialed: Carrier?)
    ensures (dialed == null <==> luck == NoCarrier) && (dialed != null ==> fresh(dialed))
    ensures sess != null <==> luck == Connects
    ensures sess != null ==> fresh(sess) && sess.carrier == dialed && dialed.closes == 0
    ensures sess != null ==> !sess.dead && sess.closes == 0
    ensures sess == null && dialed != null ==> dialed.closes == 1
  {
    sess := null;
    if quic {
      dialed := null;
      if luck == NoCarrier { return; }
      var conn := new Carrier();
      dialed := conn;
      if luck == FailsFirst {
        conn.Close();
        return;
      }
      if luck == FailsSecond {
        conn.Close();
        return;
      }
      sess := new MuxSession(conn);
    } else {
      var conn: Carrier?;
      conn, dialed := DialAuthenticated(luck);
      if conn == null { return; }
      if luck == FailsSecond {
        conn.Close();
        return;
      }
      sess := new MuxSession(conn);
    }
  }

  /** The whole of session(), connect included, on the fields. */
  function SessionSpec(s: Shared, luck: Luck): (Option<nat>, Shared)
    requires WellFormed(s)
  {
    match Look(s)
    case (Refused, t) => (None, t)
    case (Reuse(i), t) => (Some(i), t)
    case (MustConnect, t) =>
      if luck == NoCarrier then (None, t)
      else if luck != Connects then (None, t.(carriers := t.carriers + [1]))
      else (Some(|t.made|), Install(t.(carriers := t.carriers + [0]), |t.carriers|))
  }

  /** One attempt: how connecting goes if it comes to it, and whether open succeeds. */
  datatype Attempt = Attempt(luck: Luck, opens: bool)

  lemma LookKeeps(s: Shared)
    requires SessionsOwned(s)
    ensures
      var (answer, t) := Look(s);
      && SessionsOwned(t) && Grows(s, t) && |t.made| == |s.made|
      && (answer == MustConnect ==> t.cur == None && !t.closed)
      && (answer.Reuse? ==> t.cur == Some(answer.i) && t.made[answer.i].closes == 0)
  {
    BlocksKeepSessions(s, 0);
  }

  lemma AddKeeps(t: Shared)
    requires SessionsOwned(t) && t.cur == None && !t.closed
    ensures SessionsOwned(t.(carriers := t.carriers + [1])) && Grows(t, t.(carriers := t.carriers + [1]))
    ensures
      var u := Install(t.(carriers := t.carriers + [0]), |t.carriers|);
      SessionsOwned(u) && Grows(t, u) && u.made[|t.made|].closes == 0
  {
  }

  lemma SessionKeeps(s: Shared, luck: Luck)
    requires SessionsOwned(s)
    ensures
      var (r, t) := SessionSpec(s, luck);
      && SessionsOwned(t) && Grows(s, t)
      && (r.Some? ==> r.value < |t.made| && t.cur == r && t.made[r.value].closes == 0)
      && (r.Some? && s.cur == None ==> r.value == |s.made| && luck == Connects)
  {
    LookKeeps(s);
    var (answer, t) := Look(s);
    if answer == MustConnect { AddKeeps(t); }
  }

  lemma DiscardKeeps(s: Shared, i: nat)
    requires SessionsOwned(s)
    ensures SessionsOwned(Discard(s, i)) && Grows(s, Discard(s, i))
    ensures s.cur == Some(i) ==> Discard(s, i).cur == None
  {
    BlocksKeepSessions(s, i);
  }

  /** One turn of Dial's loop: the session it got, and the fields, after a discard if open failed. */
  ghost function AttemptSpec(s: Shared, a: Attempt): (r: (Option<nat>, Shared))
    requires SessionsOwned(s)
    ensures SessionsOwned(r.1) && Grows(s, r.1)
    ensures r.0.Some? && a.opens ==> r.1.cur == r.0 && r.1.made[r.0.value].closes == 0
    ensures r.0.Some? && !a.opens ==> r.1.cur == None && r.0.value < |r.1.made| && r.1.made[r.0.value].closes == 1
    ensures r.0.Some? && s.cur == None ==> r.0.value == |s.made| && a.luck == Connects
  {
    SessionKeeps(s, a.luck);
    var (found, t) := SessionSpec(s, a.luck);
    if found.None? || a.opens then (found, t)
    else
      DiscardKeeps(t, found.value);
      (found, Discard(t, found.value))
  }

  /** Dial with nobody interfering: the stream's session, and the fields afterwards. */
  ghost function DialSpec(s: Shared, first: Attempt, second: Attempt): (r: (Option<nat>, Shared))
    requires SessionsOwned(s)
  {
    var (found, t) := AttemptSpec(s, first);
    if found.None? || first.opens then (found, t) else
    var (again, u) := AttemptSpec(t, second);
    (if second.opens then again else None, u)
  }

  lemma ClosedOnceStays(u: Shared, t: Shared, i: nat)
    requires i < |u.made| && u.made[i].closes == 1 && Grows(u, t) && SessionsOwned(t)
    ensures i < |t.made| && t.made[i].closes == 1
  {
    assert t.made[i].closes == if t.cur == Some(i) then 0 else 1;
  }

  /** If the first attempt finds a session on which open fails, the second attempt opens on one
      that this very call has connected, and the stale one has been closed. */
  lemma RetryIsOnAFreshSession(s: Shared, first: Attempt, second: Attempt, i: nat)
    requires SessionsOwned(s) && !first.opens && AttemptSpec(s, first).0 == Some(i)
    ensures
      var (r, t) := DialSpec(s, first, second);
      && i < |t.made| && t.made[i].closes == 1
      && (r.Some? ==> r.value >= |s.made| && r.value != i && second.luck == Connects && second.opens)
  {
    var u := AttemptSpec(s, first).1;
    ClosedOnceStays(u, AttemptSpec(u, second).1, i);
  }

  /** The dialer has a session that has not died. */
  predicate HasLive(s: Shared)
    requires WellFormed(s)
  {
    s.cur.Some? && !s.made[s.cur.value].dead
  }

  lemma LookupFinds(s: Shared, luck: Luck)
    requires SessionsOwned(s)
    ensures SessionSpec(s, luck).0.Some? <==> !s.closed && (HasLive(s) || luck == Connects)
    ensures !s.closed && HasLive(s) ==> SessionSpec(s, luck) == (s.cur, s)
    ensures SessionSpec(s, luck).1.closed == s.closed
  {
    if s.cur.Some? { assert s.made[s.cur.value].closes == 0; }
  }

  lemma AttemptFinds(s: Shared, a: Attempt)
    requires SessionsOwned(s)
    ensures AttemptSpec(s, a).0.Some? <==> !s.closed && (HasLive(s) || a.luck == Connects)
    ensures !s.closed && HasLive(s) && a.opens ==> AttemptSpec(s, a) == (s.cur, s)
    ensures AttemptSpec(s, a).1.closed == s.closed
    ensures AttemptSpec(s, a).0.Some? && !a.opens ==> AttemptSpec(s, a).1.cur == None
  {
    LookupFinds(s, a.luck);
  }

  /** Dial succeeds exactly if the dialer is open and either a stream opens at once, on the live
      session there is or on one that can be connected, or it opens on a new session after the
      first one failed. With a live session that opens, that very one is used and nothing changes. */
  lemma DialSucceedsExactly(s: Shared, first: Attempt, second: Attempt)
    requires SessionsOwned(s)
    ensures
      var (r, t) := DialSpec(s, first, second);
      var found := HasLive(s) || first.luck == Connects;
      && (r.Some? <==> !s.closed && found && (first.opens || (second.luck == Connects && second.opens)))
      && (!s.closed && HasLive(s) && first.opens ==> r == s.cur && t == s)
  {
    AttemptFinds(s, first);
    AttemptFinds(AttemptSpec(s, first).1, second);
  }

  // ---- an undisturbed Dial is a run of Dialer ----

  ghost predicate Path(start: State, trace: seq<State>) {
    Runs.IsRun(x => x == start, Next, trace)
  }

  function Last(trace: seq<State>): State
    requires trace != []
  {
    trace[|trace| - 1]
  }

  lemma Then(start: State, trace: seq<State>, e: Event) returns (longer: seq<State>, t: State)
    requires Path(start, trace) && Inv(Last(trace)) && Enabled(Last(trace), e)
    ensures t == Apply(Last(trace), e) && longer == trace + [t] && Path(start, longer) && Inv(t)
  {
    t := Apply(Last(trace), e);
    assert Step(Last(trace), e, t);
    StepKeepsInv(Last(trace), e, t);
    longer := Runs.Extend(x => x == start, Next, trace, t);
  }

  lemma Twice(calls: seq<Call>, d: nat, b: Call, c: Call)
    requires d < |calls|
    ensures calls[d := b][d := c] == calls[d := c]
  {
  }

  /** From st, call d gets to be c on the fields s, with the lock free or held by it. */
  ghost predicate Reaches(st: State, trace: seq<State>, d: nat, s: Shared, c: Call, lock: Option<nat>) {
    && Path(st, trace) && Inv(Last(trace)) && d < |st.calls|
    && Last(trace) == State(s, st.calls[d := c], lock)
  }

  lemma Onward(st: State, trace: seq<State>, d: nat, s: Shared, c: Call, lock: Option<nat>, e: Event)
      returns (longer: seq<State>, t: State)
    requires Reaches(st, trace, d, s, c, lock) && Enabled(State(s, st.calls[d := c], lock), e)
    requires IsCallStep(e, d)
    ensures t == Apply(State(s, st.calls[d := c], lock), e)
    ensures Reaches(st, longer, d, t.s, t.calls[d], t.lock)
  {
    longer, t := Then(st, trace, e);
    Twice(st.calls, d, c, t.calls[d]);
  }

  /** Connecting, from the moment the lock is held with no current session. */
  lemma ConnectIsSteps(st: State, trace: seq<State>, d: nat, s: Shared, f: Option<nat>, luck: Luck)
      returns (longer: seq<State>)
    requires Reaches(st, trace, d, s, Dialling(f), Some(d))
    ensures
      if luck == NoCarrier then Reaches(st, longer, d, s, Returned(None), None)
      else if luck != Connects then Reaches(st, longer, d, s.(carriers := s.carriers + [1]), Returned(None), None)
      else Reaches(st, longer, d, Install(s.(carriers := s.carriers + [0]), |s.carriers|), Opening(f, |s.made|), None)
  {
    var t: State;
    if luck == NoCarrier {
      longer, t := Onward(st, trace, d, s, Dialling(f), Some(d), DialFails(d));
    } else {
      longer, t := Onward(st, trace, d, s, Dialling(f), Some(d), Dials(d));
      var u, c := t.s, |s.carriers|;
      if luck == FailsFirst {
        longer, t := Onward(st, longer, d, u, Carrying(f, c, 0), Some(d), StageFails(d));
      } else {
        longer, t := Onward(st, longer, d, u, Carrying(f, c, 0), Some(d), StagePasses(d));
        var last := if luck == Connects then StagePasses(d) else StageFails(d);
        longer, t := Onward(st, longer, d, u, Carrying(f, c, 1), Some(d), last);
      }
      assert luck != Connects ==> t.s.carriers == s.carriers + [1];
    }
  }

  /** The call of session(). */
  lemma SessionIsSteps(st: State, trace: seq<State>, d: nat, s: Shared, f: Option<nat>, luck: Luck)
      returns (longer: seq<State>)
    requires Reaches(st, trace, d, s, Wants(f), None)
    ensures
      match SessionSpec(s, luck)
      case (None, t) => Reaches(st, longer, d, t, Returned(None), None)
      case (Some(i), t) => Reaches(st, longer, d, t, Opening(f, i), None)
  {
    var t: State;
    longer, t := Onward(st, trace, d, s, Wants(f), None, Looks(d));
    if Look(s).0 == MustConnect {
      longer := ConnectIsSteps(st, longer, d, t.s, f, luck);
    }
  }

  /** One turn of the loop. */
  lemma AttemptIsSteps(st: State, trace: seq<State>, d: nat, s: Shared, f: Option<nat>, a: Attempt)
      returns (longer: seq<State>)
    requires Reaches(st, trace, d, s, Wants(f), None) && SessionsOwned(s)
    ensures
      match AttemptSpec(s, a)
      case (None, t) => Reaches(st, longer, d, t, Returned(None), None)
      case (Some(i), t) =>
        var c := if a.opens then Returned(Some(i)) else if f.None? then Wants(Some(i)) else Returned(None);
        Reaches(st, longer, d, t, c, None)
  {
    longer := SessionIsSteps(st, trace, d, s, f, a.luck);
    var (found, u) := SessionSpec(s, a.luck);
    if found.Some? {
      var i, t := found.value, Last(longer);
      if a.opens {
        longer, t := Onward(st, longer, d, u, Opening(f, i), None, OpenSucceeds(d));
      } else {
        longer, t := Onward(st, longer, d, u, Opening(f, i), None, OpenFails(d));
        longer, t := Onward(st, longer, d, u, Failing(f, i), None, Discards(d));
      }
    }
  }

  /** From any reachable state with a free lock, a call of Dial that nobody disturbs takes steps
      of Dialer to where it has returned with the session and the fields of DialSpec. */
  lemma DialIsSteps(st: State, d: nat, first: Attempt, second: Attempt) returns (trace: seq<State>)
    requires Inv(st) && st.lock == None && d < |st.calls| && st.calls[d] == Wants(None)
    ensures
      var (r, s) := DialSpec(st.s, first, second);
      Reaches(st, trace, d, s, Returned(r), None)
  {
    assert st.calls[d := Wants(None)] == st.calls;
    trace := AttemptIsSteps(st, [st], d, st.s, None, first);
    var (found, t) := AttemptSpec(st.s, first);
    if found.Some? && !first.opens {
      trace := AttemptIsSteps(st, trace, d, t, found, second);
    }
  }

  class SessionDialer {
    var cur: MuxSession?
    var closed: bool
    ghost var made: seq<MuxSession>
    ghost var carriers: seq<Carrier>
    ghost var s: Shared
    ghost var Repr: set<object>  // every session and every carrier

    ghost predicate Valid()
      reads this, Repr
    {
      && this !in Repr
      && (forall i :: 0 <= i < |made| ==> made[i] in Repr)
      && (forall c :: 0 <= c < |carriers| ==> carriers[c] in Repr)
      && WellFormed(s) && |made| == |s.made| && |carriers| == |s.carriers|
      && (forall c :: 0 <= c < |carriers| ==> carriers[c].closes == s.carriers[c])
      && (forall i :: 0 <= i < |made| ==>
            && made[i].dead == s.made[i].dead && made[i].closes == s.made[i].closes
            && made[i].carrier == carriers[s.made[i].carrier])
      && (forall c, b :: 0 <= c < b < |carriers| ==> carriers[c] != carriers[b])
      && (forall i, j :: 0 <= i < j < |made| ==> made[i] != made[j])
      && closed == s.closed
      && (cur == null <==> s.cur == None)
      && (s.cur.Some? ==> cur == made[s.cur.value])
    }

    constructor ()
      ensures Valid() && s == Shared(None, false, [], []) && Repr == {}
    {
      cur, closed, made, carriers, s, Repr := null, false, [], [], Shared(None, false, [], []), {};
    }

    /** sess is the session at this place, if any. */
    ghost predicate Names(place: Option<nat>, sess: MuxSession?)
      reads this
    {
      match place
      case None => sess == null
      case Some(i) => i < |made| && sess == made[i]
    }

    /** d.cur.close() and d.cur = nil. */
    method DropCurrent()
      requires Valid() && cur != null
      modifies this`cur, this`s, Repr
      ensures Valid() && s == DropCur(old(s))
      ensures cur == null && old(cur).closes == old(cur.closes) + 1
    {
      cur.closes := cur.closes + 1;
      cur.carrier.Close();
      cur := null;
      s := DropCur(s);
    }

    method Session(luck: Luck, quic: bool) returns (sess: MuxSession?)
      requires Valid()
      modifies this, Repr
      ensures Valid() && s == SessionSpec(old(s), luck).1
      ensures fresh(Repr - old(Repr))
      ensures Names(SessionSpec(old(s), luck).0, sess)
      ensures old(closed) ==> sess == null && s == old(s)
      ensures !old(closed) && old(cur) != null && !old(cur.dead) && old(cur.closes) == 0 ==>
        sess == old(cur) && s == old(s) && cur == old(cur)
      ensures !old(closed) && old(cur) != null && (old(cur.dead) || old(cur.closes) > 0) ==>
        sess != old(cur) && old(cur).closes == old(cur.closes) + 1
    {
      if closed { return null; }
      if cur != null && !(cur.dead || cur.closes > 0) { return cur; }
      if cur != null {
        DropCurrent();
      }
      sess := ConnectLocked(luck, quic);
    }

    method ConnectLocked(luck: Luck, quic: bool) returns (sess: MuxSession?)
      requires Valid() && cur == null && !closed
      modifies this
      ensures Valid() && s == SessionSpec(old(s), luck).1
      ensures fresh(Repr - old(Repr))
      ensures Names(SessionSpec(old(s), luck).0, sess)
      ensures sess != null ==> fresh(sess)
    {
      ghost var dialed;
      sess, dialed := Connect(luck, quic);
      ghost var t := SessionSpec(s, luck).1;
      if dialed != null {
        carriers, Repr := carriers + [dialed], Repr + {dialed};
      }
      if sess != null {
        cur := sess;
        made, Repr := made + [sess], Repr + {sess};
      }
      s := t;
    }

    method DiscardSession(sess: MuxSession, ghost i: nat)
      requires Valid() && i < |made| && sess == made[i]
      modifies this`cur, this`s, Repr
      ensures Valid() && s == Discard(old(s), i)
    {
      if cur == sess {
        DropCurrent();
      }
    }

    method Close()
      requires Valid()
      modifies this`closed, this`cur, this`s, Repr
      ensures Valid() && s == CloseAll(old(s))
      ensures closed && cur == null && (old(cur) != null ==> old(cur).closes == old(cur.closes) + 1)
    {
      closed := true;
      s := s.(closed := true);
      if cur != null {
        DropCurrent();
      }
    }

    method OneAttempt(a: Attempt, quic: bool) returns (sess: MuxSession?)
      requires Valid() && SessionsOwned(s)
      modifies this, Repr
      ensures Valid() && s == AttemptSpec(old(s), a).1
      ensures fresh(Repr - old(Repr))
      ensures Names(AttemptSpec(old(s), a).0, sess)
    {
      SessionKeeps(s, a.luck);
      ghost var found := SessionSpec(s, a.luck).0;
      sess := Session(a.luck, quic);
      if sess != null && !a.opens {
        DiscardSession(sess, found.value);
      }
    }

    /** Dial: two attempts at most. plan says how connecting and opening go. */
    method Dial(plan: seq<Attempt>, quic: bool) returns (on: MuxSession?)
      requires Valid() && SessionsOwned(s) && |plan| == 2
      modifies this, Repr
      ensures Valid() && s == DialSpec(old(s), plan[0], plan[1]).1
      ensures Names(DialSpec(old(s), plan[0], plan[1]).0, on)
    {
      ghost var first := AttemptSpec(s, plan[0]);
      ghost var second := AttemptSpec(first.1, plan[1]);
      for n := 0 to 2
        invariant Valid() && fresh(Repr - old(Repr))
        invariant n == 0 ==> s == old(s)
        invariant n >= 1 ==> first.0.Some? && !plan[0].opens
        invariant n == 1 ==> s == first.1
        invariant n == 2 ==> s == second.1 && !plan[1].opens
      {
        on := OneAttempt(plan[n], quic);
        if on == null || plan[n].opens { return; }
      }
      on := null;
    }
  }
}
