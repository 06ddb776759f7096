/** The session table of udpRelay (internal/transport/udp.go): the blocks that run under its
    mutex, as functions on the table and as methods of the object that holds it. */
module UdpTable {
  import opened Bytes

  type Addr = nat

  const MINUTE := 60_000_000_000
  const IDLE_TIMEOUT := 3 * MINUTE
  const SWEEP_INTERVAL := MINUTE

  /** peer: the remote address served; addr: the local address of the dialled socket. */
  datatype Session = Session(peer: Addr, addr: Addr, lastSeen: int, closed: bool)

  /** Every session ever made, in order, and which of them the map holds now. */
  datatype Table = Table(live: map<Addr, nat>, all: seq<Session>)

  predicate Mapped(t: Table, i: nat) {
    i < |t.all| && t.all[i].peer in t.live && t.live[t.all[i].peer] == i
  }

  /** Each entry is keyed by its own session's peer. */
  ghost predicate KeyedByPeer(t: Table) {
    forall p :: p in t.live ==> t.live[p] < |t.all| && t.all[t.live[p]].peer == p
  }

  function Find(t: Table, peer: Addr, dialed: Option<Addr>, now: int): (Option<nat>, Table) {
    if peer in t.live then (Some(t.live[peer]), t)
    else if dialed.None? then (None, t)
    else (Some(|t.all|),
          Table(t.live[peer := |t.all|], t.all + [Session(peer, dialed.value, now, false)]))
  }

  function Touched(t: Table, i: nat, now: int): Table
    requires i < |t.all|
  {
    t.(all := t.all[i := t.all[i].(lastSeen := now)])
  }

  function Closed(t: Table, i: nat): Table
    requires i < |t.all|
  {
    t.(all := t.all[i := t.all[i].(closed := true)])
  }

  function Removed(t: Table, i: nat): Table {
    if Mapped(t, i) then t.(live := t.live - {t.all[i].peer}) else t
  }

  predicate IsIdle(t: Table, p: Addr, cutoff: int) {
    p in t.live && t.live[p] < |t.all| && t.all[t.live[p]].lastSeen < cutoff
  }

  function Swept(t: Table, cutoff: int): Table {
    t.(live := map p | p in t.live && !IsIdle(t, p, cutoff) :: t.live[p])
  }

  function Expired(t: Table, cutoff: int): set<nat> {
    set p | p in t.live && IsIdle(t, p, cutoff) :: t.live[p]
  }

  function AllClosed(t: Table): Table {
    Table(map[], seq(|t.all|, i requires 0 <= i < |t.all| =>
      if Mapped(t, i) then t.all[i].(closed := true) else t.all[i]))
  }

  /** Whatever its order, the sweep takes out exactly the sessions last seen before the cutoff. */
  lemma SweptExactly(t: Table, cutoff: int, i: nat)
    requires KeyedByPeer(t) && i < |t.all|
    ensures Mapped(Swept(t, cutoff), i) <==> Mapped(t, i) && t.all[i].lastSeen >= cutoff
    ensures i in Expired(t, cutoff) <==> Mapped(t, i) && t.all[i].lastSeen < cutoff
  {
    if Mapped(t, i) && t.all[i].lastSeen < cutoff {
      assert IsIdle(t, t.all[i].peer, cutoff);
    }
  }

  /** Removing a session that has been replaced leaves the replacement in place. */
  lemma RemovedOnlyOwnEntry(t: Table, i: nat, j: nat)
    requires KeyedByPeer(t) && i != j
    ensures Mapped(Removed(t, i), j) <==> Mapped(t, j)
    ensures !Mapped(Removed(t, i), i)
  {
  }

  /** A lookup fails only for a peer without a session when no socket can be dialled. Otherwise the
      peer's session is mapped afterwards and the next lookup finds the same one, whatever comes
      of dialling then; all other sessions stay as they are. */
  lemma FindFinds(t: Table, peer: Addr, dialed: Option<Addr>, now: int, again: Option<Addr>, later: int)
    requires KeyedByPeer(t)
    ensures
      var (found, u) := Find(t, peer, dialed, now);
      && KeyedByPeer(u) && t.all <= u.all
      && (found.None? <==> peer !in t.live && dialed.None?)
      && (found.Some? ==>
            Mapped(u, found.value) && u.all[found.value].peer == peer && Find(u, peer, again, later) == (found, u))
      && (peer in t.live || dialed.None? ==> u == t)
      && (forall i :: 0 <= i < |t.all| ==> (Mapped(u, i) <==> Mapped(t, i)))
  {
  }

  /** A touch is seen by the sweep: from then on the session survives every cutoff up to that
      time, and no other session gains or loses by it. */
  lemma TouchedIsSeen(t: Table, i: nat, now: int, cutoff: int, j: nat)
    requires KeyedByPeer(t) && i < |t.all| && j < |t.all|
    ensures Mapped(Touched(t, i, now), j) <==> Mapped(t, j)
    ensures Mapped(Swept(Touched(t, i, now), cutoff), j) <==>
      Mapped(t, j) && (if j == i then cutoff <= now else cutoff <= t.all[j].lastSeen)
  {
    var u := Touched(t, i, now);
    assert KeyedByPeer(u);
    SweptExactly(u, cutoff, j);
  }

  class UdpSession {
    const peer: Addr
    const addr: Addr
    var lastSeen: int
    var closed: bool

    constructor (peer: Addr, addr: Addr, now: int)
      ensures this.peer == peer && this.addr == addr && lastSeen == now && !closed
    {
      this.peer, this.addr, lastSeen, closed := peer, addr, now, false;
    }

    ghost function Abs(): Session
      reads this
    {
      Session(peer, addr, lastSeen, closed)
    }
  }

  class UdpSessions {
    var sessions: map<Addr, UdpSession>
    ghost var made: seq<UdpSession>
    ghost var table: Table

    ghost predicate Valid()
      reads this, made
    {
      && |made| == |table.all|
      && (forall i :: 0 <= i < |made| ==> made[i].Abs() == table.all[i])
      && (forall i, j :: 0 <= i < j < |made| ==> made[i] != made[j])
      && sessions.Keys == table.live.Keys
      && (forall p :: p in sessions ==> table.live[p] < |made| && sessions[p] == made[table.live[p]])
      && KeyedByPeer(table)
    }

    constructor ()
      ensures Valid() && table == Table(map[], []) && made == []
    {
      sessions, made, table := map[], [], Table(map[], []);
    }

    /** The lock-protected lookup: the peer's session, or a new one on a freshly dialled socket. */
    method Session(peer: Addr, dialed: Option<Addr>, now: int) returns (s: UdpSession?)
      requires Valid()
      modifies this
      ensures Valid() && old(made) <= made && fresh(set x | x in made[|old(made)|..])
      ensures table == Find(old(table), peer, dialed, now).1
      ensures
        match Find(old(table), peer, dialed, now).0
        case None => s == null
        case Some(i) => i < |made| && s == made[i]
    {
      if peer in sessions {
        return sessions[peer];
      }
      if dialed.None? {
        return null;
      }
      var fresh' := new UdpSession(peer, dialed.value, now);
      sessions := sessions[peer := fresh'];
      made := made + [fresh'];
      table := Find(table, peer, dialed, now).1;
      assert KeyedByPeer(table);
      return fresh';
    }

    method Touch(s: UdpSession, ghost i: nat, now: int)
      requires Valid() && i < |made| && s == made[i]
      modifies this`table, s`lastSeen
      ensures Valid() && table == Touched(old(table), i, now) && s.lastSeen == now
    {
      s.lastSeen := now;
      table := Touched(table, i, now);
    }

    method CloseUpstream(s: UdpSession, ghost i: nat)
      requires Valid() && i < |made| && s == made[i]
      modifies this`table, s`closed
      ensures Valid() && table == Closed(old(table), i)
    {
      s.closed := true;
      table := Closed(table, i);
    }

    /** remove: forget s unless it has been replaced, then close its socket. */
    method Remove(s: UdpSession, ghost i: nat)
      requires Valid() && i < |made| && s == made[i]
      modifies this`table, this`sessions, s`closed
      ensures Valid() && table == Closed(Removed(old(table), i), i)
    {
      if s.peer in sessions && sessions[s.peer] == s {
        sessions := sessions - {s.peer};
      }
      table := Removed(table, i);
      CloseUpstream(s, i);
    }

    /** One entry of the sweep's loop. */
    method SweepOne(p: Addr, cutoff: int) returns (s: UdpSession, idle: bool)
      requires Valid() && p in sessions
      modifies this`sessions, this`table
      ensures Valid() && made == old(made)
      ensures table == if IsIdle(old(table), p, cutoff) then old(table).(live := old(table).live - {p}) else old(table)
      ensures idle == IsIdle(old(table), p, cutoff) && s == made[old(table).live[p]]
    {
      s := sessions[p];
      assert made[table.live[p]].Abs() == table.all[table.live[p]];
      idle := s.lastSeen < cutoff;
      if idle {
        sessions := sessions - {p};
        table := table.(live := table.live - {p});
      }
    }

    /** ids are the places of the sessions in idle. */
    static ghost predicate Named(made: seq<UdpSession>, idle: seq<UdpSession>, ids: seq<nat>) {
      |ids| == |idle| && forall k :: 0 <= k < |ids| ==> ids[k] < |made| && idle[k] == made[ids[k]]
    }

    static lemma NamedOneMore(made: seq<UdpSession>, idle: seq<UdpSession>, ids: seq<nat>, s: UdpSession, i: nat)
      requires Named(made, idle, ids) && i < |made| && s == made[i]
      ensures Named(made, idle + [s], ids + [i])
    {
    }

    /** The locked part of a sweep: a loop over the map, in any order, that deletes as it goes. */
    method SweepLocked(cutoff: int) returns (idle: seq<UdpSession>, ghost ids: seq<nat>)
      requires Valid()
      modifies this`sessions, this`table
      ensures Valid() && table == Swept(old(table), cutoff) && Named(made, idle, ids)
      ensures forall i :: i in ids <==> i in Expired(old(table), cutoff)
    {
      ghost var t0 := table;
      idle, ids := [], [];
      var todo := sessions.Keys;
      while todo != {}
        invariant Valid() && made == old(made) && Named(made, idle, ids)
        invariant PartlySwept(t0, table, cutoff, todo, ids)
        decreases todo
      {
        var p :| p in todo;
        ghost var t := table;
        var s, out := SweepOne(p, cutoff);
        SweptOneMore(t0, t, cutoff, todo, ids, p);
        if out {
          NamedOneMore(made, idle, ids, s, t.live[p]);
          idle, ids := idle + [s], ids + [t.live[p]];
        }
        todo := todo - {p};
      }
      SweptAll(t0, table, cutoff, ids);
    }

    /** The unlocked part: close what was taken out. */
    method CloseIdle(idle: seq<UdpSession>, ghost ids: seq<nat>)
      requires Valid() && Named(made, idle, ids)
      modifies this`table, made
      ensures Valid() && table.live == old(table.live) && |table.all| == |old(table.all)|
      ensures forall i :: 0 <= i < |table.all| ==>
        table.all[i] == if i in ids then old(table.all)[i].(closed := true) else old(table.all)[i]
    {
      for k := 0 to |idle|
        invariant Valid() && made == old(made) && sessions == old(sessions)
        invariant table.live == old(table.live) && |table.all| == |old(table.all)|
        invariant forall i :: 0 <= i < |table.all| ==>
          table.all[i] == if i in ids[..k] then old(table.all)[i].(closed := true) else old(table.all)[i]
      {
        CloseUpstream(idle[k], ids[k]);
      }
    }

    /** One entry of closeAll's loop. */
    method CloseOne(p: Addr, ghost t0: Table, ghost todo: set<Addr>)
      requires Valid() && p in todo && todo == sessions.Keys && KeyedByPeer(t0) && PartlyClosed(t0, table, todo)
      modifies this`sessions, this`table, made
      ensures Valid() && sessions.Keys == todo - {p} && made == old(made)
      ensures PartlyClosed(t0, table, todo - {p})
    {
      ghost var t := table;
      var s := sessions[p];
      ghost var i := table.live[p];
      sessions := sessions - {p};
      table := table.(live := table.live - {p});
      CloseUpstream(s, i);
      ClosedOneMore(t0, t, table, p, todo);
    }

    method CloseAll()
      requires Valid()
      modifies this`sessions, this`table, made
      ensures Valid() && sessions == map[] && table == AllClosed(old(table))
    {
      ghost var t0 := table;
      var todo := sessions.Keys;
      while todo != {}
        invariant Valid() && made == old(made) && todo == sessions.Keys && PartlyClosed(t0, table, todo)
        decreases todo
      {
        var p :| p in todo;
        CloseOne(p, t0, todo);
        todo := todo - {p};
      }
      ClosedAll(t0, table);
    }
  }

  // ---- the loops on the table alone ----

  /** t is t0 once the entries of the peers not in todo have been looked at and the sessions
      ids taken out. */
  ghost predicate PartlySwept(t0: Table, t: Table, cutoff: int, todo: set<Addr>, ids: seq<nat>) {
    && t.all == t0.all && todo <= t.live.Keys <= t0.live.Keys
    && (forall p :: p in t.live ==> t.live[p] == t0.live[p])
    && (forall p :: p in t0.live ==> (p in t.live <==> p in todo || !IsIdle(t0, p, cutoff)))
    && (forall k :: 0 <= k < |ids| ==> ids[k] in Expired(t0, cutoff))
    && (forall p :: p in t0.live && p !in todo && IsIdle(t0, p, cutoff) ==> t0.live[p] in ids)
  }

  lemma SweptOneMore(t0: Table, t: Table, cutoff: int, todo: set<Addr>, ids: seq<nat>, p: Addr)
    requires PartlySwept(t0, t, cutoff, todo, ids) && p in todo
    ensures if IsIdle(t, p, cutoff)
            then PartlySwept(t0, t.(live := t.live - {p}), cutoff, todo - {p}, ids + [t.live[p]])
            else PartlySwept(t0, t, cutoff, todo - {p}, ids)
  {
    assert IsIdle(t, p, cutoff) <==> IsIdle(t0, p, cutoff);
    assert (ids + [t.live[p]])[|ids|] == t0.live[p];
  }

  lemma SweptAll(t0: Table, t: Table, cutoff: int, ids: seq<nat>)
    requires PartlySwept(t0, t, cutoff, {}, ids)
    ensures t == Swept(t0, cutoff)
    ensures forall i :: i in ids <==> i in Expired(t0, cutoff)
  {
    assert t.live == Swept(t0, cutoff).live;
  }

  /** t is t0 once the sessions of the peers not in todo have been deleted and closed. */
  ghost predicate PartlyClosed(t0: Table, t: Table, todo: set<Addr>) {
    && |t.all| == |t0.all| && t.live.Keys == todo <= t0.live.Keys
    && (forall p :: p in todo ==> t.live[p] == t0.live[p])
    && (forall i :: 0 <= i < |t0.all| ==>
          t.all[i] == if Mapped(t0, i) && t0.all[i].peer !in todo then t0.all[i].(closed := true) else t0.all[i])
  }

  lemma ClosedOneMore(t0: Table, t: Table, u: Table, p: Addr, todo: set<Addr>)
    requires KeyedByPeer(t0) && p in todo && PartlyClosed(t0, t, todo)
    requires t.live[p] < |t.all| && u == Closed(t.(live := t.live - {p}), t.live[p])
    ensures PartlyClosed(t0, u, todo - {p})
  {
  }

  lemma ClosedAll(t0: Table, t: Table)
    requires PartlyClosed(t0, t, {})
    ensures t == AllClosed(t0)
  {
    assert t.live == map[];
    assert t.all == AllClosed(t0).all;
  }
}
