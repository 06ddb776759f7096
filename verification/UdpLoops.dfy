/** The two loops of udpRelay as loops: run, from its first datagram to its way out, and pump,
    from its first reply to its removal. Each is shown to take, datagram by datagram, the very
    steps of UdpRelay, so that what holds of all interleavings holds of them. */
module UdpLoops {
  import opened Bytes
  import opened UdpTable
  import opened UdpRelay

  /** One datagram at the listener, and what happens around it: the result of dialling if a
      socket is needed, whether the write succeeds, and what the clock shows. */
  datatype Arrival = Arrival(pkt: Packet, dialed: Option<Addr>, ok: bool, now: int)

  ghost predicate CanTake(side: Side, r: Relay, a: Arrival) {
    && r.reader == Reading && ListenerOpen(r) && a.pkt.dst == side.listen && r.now <= a.now
    && (a.dialed.Some? ==> FreshAddr(side, r, a.dialed.value))
    && KeyedByPeer(r.table)
  }

  /** The datagram has been filtered and is on its way to a session. */
  ghost predicate CanPass(side: Side, r: Relay, a: Arrival) {
    && r.reader.Looking? && r.now == a.now && KeyedByPeer(r.table)
    && (a.dialed.Some? ==> FreshAddr(side, r, a.dialed.value))
  }

  /** The second part of a turn: find the session, touch it, forward. */
  ghost function Pass(side: Side, r: Relay, a: Arrival): (t: Relay)
    requires CanPass(side, r, a)
    ensures t.reader == Reading && t.hook == r.hook && t.now == a.now && KeyedByPeer(t.table)
  {
    var r2 := Apply(side, r, FindSession(a.dialed));
    if r2.reader == Reading then r2 else
    Apply(side, Apply(side, r2, TouchFound), Forward(a.ok))
  }

  /** One turn of the read loop as steps of the relay. */
  ghost function Turn(side: Side, r: Relay, a: Arrival): (t: Relay)
    requires CanTake(side, r, a)
    ensures t.reader == Reading && t.hook == r.hook && t.now == a.now && KeyedByPeer(t.table)
  {
    var r1 := Apply(side, Apply(side, r, TimePasses(a.now)), ReadDatagram(a.pkt));
    if r1.reader == Reading then r1 else Pass(side, r1, a)
  }

  ghost predicate CanTakeAll(side: Side, r: Relay, arrivals: seq<Arrival>)
    decreases |arrivals|
  {
    arrivals == [] || (CanTake(side, r, arrivals[0]) && CanTakeAll(side, Turn(side, r, arrivals[0]), arrivals[1..]))
  }

  /** What passing a datagram on amounts to. */
  lemma PassEffect(side: Side, r: Relay, a: Arrival)
    requires CanPass(side, r, a)
    ensures
      var t := Pass(side, r, a);
      match Find(r.table, r.reader.peer, a.dialed, a.now)
      case (None, _) => t.table == r.table && t.sent == r.sent
      case (Some(i), found) =>
        && i < |found.all| && t.table == Touched(found, i, a.now)
        && t.sent == if a.ok && !found.all[i].closed
                     then r.sent + {Packet(found.all[i].addr, side.remote, r.reader.payload)} else r.sent
  {
  }

  /** What one turn amounts to. */
  lemma TurnEffect(side: Side, r: Relay, a: Arrival)
    requires CanTake(side, r, a)
    ensures
      var t := Turn(side, r, a);
      match Up(side, a.pkt.data)
      case None => t.table == r.table && t.sent == r.sent
      case Some(payload) =>
        match Find(r.table, a.pkt.src, a.dialed, a.now)
        case (None, _) => t.table == r.table && t.sent == r.sent
        case (Some(i), found) =>
          && i < |found.all| && t.table == Touched(found, i, a.now)
          && t.sent == if a.ok && !found.all[i].closed
                       then r.sent + {Packet(found.all[i].addr, side.remote, payload)} else r.sent
  {
    var r1 := Apply(side, Apply(side, r, TimePasses(a.now)), ReadDatagram(a.pkt));
    if r1.reader != Reading { PassEffect(side, r1, a); }
  }

  ghost function Turns(side: Side, r: Relay, arrivals: seq<Arrival>): (t: Relay)
    requires r.reader == Reading && CanTakeAll(side, r, arrivals)
    ensures t.reader == Reading
    decreases |arrivals|
  {
    if arrivals == [] then r else Turns(side, Turn(side, r, arrivals[0]), arrivals[1..])
  }

  /** udpRelay.run: read until the listener fails, then close every session and
      take the hook back. r is where the
      relay starts; the table it leaves behind and all it has sent are those of the steps. */
  method Run(relay: UdpSessions, side: Side, arrivals: seq<Arrival>, ghost r: Relay)
    returns (sent: set<Packet>, ghost t: Relay)
    requires relay.Valid() && relay.table == r.table && r.reader == Reading && CanTakeAll(side, r, arrivals)
    modifies relay, relay.made
    ensures relay.Valid() && relay.table == t.table && relay.sessions == map[]
    ensures t == Apply(side, Apply(side, Apply(side, Turns(side, r, arrivals), ReadFails), CloseEverything), StopHook)
    ensures r.sent + sent == t.sent
  {
    sent, t := {}, r;
    for k := 0 to |arrivals|
      invariant relay.Valid() && relay.table == t.table && t.reader == Reading
      invariant old(relay.made) <= relay.made
      invariant fresh(set x | x in relay.made[|old(relay.made)|..])
      invariant CanTakeAll(side, t, arrivals[k..])
      invariant Turns(side, t, arrivals[k..]) == Turns(side, r, arrivals)
      invariant r.sent + sent == t.sent
    {
      var a := arrivals[k];
      assert arrivals[k..][0] == a && arrivals[k..][1..] == arrivals[k + 1..];
      ghost var next := Turn(side, t, a);
      var out := OneTurn(relay, side, a, t);
      sent := sent + out;
      t := next;
    }
    relay.CloseAll();
    t := Apply(side, Apply(side, Apply(side, t, ReadFails), CloseEverything), StopHook);
  }

  method OneTurn(relay: UdpSessions, side: Side, a: Arrival, ghost r: Relay) returns (sent: set<Packet>)
    requires relay.Valid() && relay.table == r.table && CanTake(side, r, a)
    modifies relay, relay.made
    ensures relay.Valid() && relay.table == Turn(side, r, a).table
    ensures old(relay.made) <= relay.made && fresh(set x | x in relay.made[|old(relay.made)|..])
    ensures r.sent + sent == Turn(side, r, a).sent
  {
    sent := {};
    TurnEffect(side, r, a);
    var payload := Up(side, a.pkt.data);
    if payload.None? { return; }
    sent := PassOn(relay, side, a, payload.value);
  }

  /** The second part of a turn, on the object. */
  method PassOn(relay: UdpSessions, side: Side, a: Arrival, payload: Bytes) returns (sent: set<Packet>)
    requires relay.Valid()
    modifies relay, relay.made
    ensures relay.Valid() && old(relay.made) <= relay.made && fresh(set x | x in relay.made[|old(relay.made)|..])
    ensures
      match Find(old(relay.table), a.pkt.src, a.dialed, a.now)
      case (None, _) => relay.table == old(relay.table) && sent == {}
      case (Some(i), found) =>
        && i < |found.all| && relay.table == Touched(found, i, a.now)
        && sent == if a.ok && !found.all[i].closed then {Packet(found.all[i].addr, side.remote, payload)} else {}
  {
    sent := {};
    ghost var found := Find(relay.table, a.pkt.src, a.dialed, a.now).0;
    var s := relay.Session(a.pkt.src, a.dialed, a.now);
    if s == null { return; }
    relay.Touch(s, found.value, a.now);
    assert relay.made[found.value].Abs() == relay.table.all[found.value];
    if a.ok && !s.closed {
      sent := {Packet(s.addr, side.remote, payload)};
    }
  }

  /** One datagram read from the upstream socket. */
  datatype Reply = Reply(data: Bytes, ok: bool, now: int)

  predicate CanPump(side: Side, r: Relay, i: nat, now: int) {
    i < |r.pumps| == |r.table.all| && r.pumps[i] == Receiving && !r.table.all[i].closed && r.now <= now
  }

  function PumpTurn(side: Side, r: Relay, i: nat, a: Reply): (t: Relay)
    requires CanPump(side, r, i, a.now)
    ensures CanPump(side, t, i, a.now) && t.table.live == r.table.live
    ensures |t.table.all| == |r.table.all| && t.hook == r.hook
  {
    var pkt := Packet(side.remote, r.table.all[i].addr, a.data);
    var r1 := Apply(side, Apply(side, r, TimePasses(a.now)), PumpReads(i, pkt));
    if r1.pumps[i] == Receiving then r1 else
    Apply(side, Apply(side, r1, PumpTouches(i)), PumpReplies(i, a.ok))
  }

  lemma PumpTurnEffect(side: Side, r: Relay, i: nat, a: Reply)
    requires CanPump(side, r, i, a.now)
    ensures
      var t := PumpTurn(side, r, i, a);
      match Down(side, a.data)
      case None => t.table == r.table && t.sent == r.sent
      case Some(out) =>
        && t.table == Touched(r.table, i, a.now)
        && t.sent == if a.ok && ListenerOpen(r)
                     then r.sent + {Packet(side.listen, r.table.all[i].peer, out)} else r.sent
  {
  }

  predicate InTime(now: int, replies: seq<Reply>) {
    forall k :: 0 <= k < |replies| ==>
      now <= replies[k].now && forall l :: k <= l < |replies| ==> replies[k].now <= replies[l].now
  }

  function PumpTurns(side: Side, r: Relay, i: nat, replies: seq<Reply>): (t: Relay)
    requires CanPump(side, r, i, r.now) && InTime(r.now, replies)
    ensures CanPump(side, t, i, t.now)
    decreases |replies|
  {
    if replies == [] then r else PumpTurns(side, PumpTurn(side, r, i, replies[0]), i, replies[1..])
  }

  /** udpRelay.pump: copy replies to the peer until the socket fails, then remove the session.
      listening: the listener has not been closed; if it has, replies are read and lost. */
  method Pump(relay: UdpSessions, side: Side, s: UdpSession, replies: seq<Reply>, listening: bool,
              ghost i: nat, ghost r: Relay)
    returns (sent: set<Packet>, ghost t: Relay)
    requires relay.Valid() && relay.table == r.table && i < |relay.made| && s == relay.made[i]
    requires CanPump(side, r, i, r.now) && InTime(r.now, replies) && listening == ListenerOpen(r)
    modifies relay`table, relay`sessions, s
    ensures relay.Valid() && relay.table == t.table
    ensures t == Apply(side, Apply(side, Apply(side, PumpTurns(side, r, i, replies),
                   PumpReadFails(i)), PumpRemoves(i)), PumpCloses(i))
    ensures r.sent + sent == t.sent
  {
    sent := CopyReplies(relay, side, s, replies, listening, i, r);
    t := PumpTurns(side, r, i, replies);
    relay.Remove(s, i);
    t := Apply(side, Apply(side, Apply(side, t, PumpReadFails(i)), PumpRemoves(i)), PumpCloses(i));
  }

  /** pump's loop. */
  method CopyReplies(relay: UdpSessions, side: Side, s: UdpSession, replies: seq<Reply>, listening: bool,
                     ghost i: nat, ghost r: Relay)
    returns (sent: set<Packet>)
    requires relay.Valid() && relay.table == r.table && i < |relay.made| && s == relay.made[i]
    requires CanPump(side, r, i, r.now) && InTime(r.now, replies) && listening == ListenerOpen(r)
    modifies relay`table, s`lastSeen
    ensures relay.Valid() && relay.table == PumpTurns(side, r, i, replies).table
    ensures r.sent + sent == PumpTurns(side, r, i, replies).sent
  {
    sent := {};
    ghost var t := r;
    for k := 0 to |replies|
      invariant relay.Valid() && relay.table == t.table
      invariant CanPump(side, t, i, t.now) && InTime(t.now, replies[k..]) && listening == ListenerOpen(t)
      invariant PumpTurns(side, t, i, replies[k..]) == PumpTurns(side, r, i, replies)
      invariant r.sent + sent == t.sent
    {
      var a := replies[k];
      assert replies[k..][0] == a && replies[k..][1..] == replies[k + 1..];
      var out := OnePumpTurn(relay, side, s, a, listening, i, t);
      sent := sent + out;
      t := PumpTurn(side, t, i, a);
    }
  }

  method OnePumpTurn(relay: UdpSessions, side: Side, s: UdpSession, a: Reply, listening: bool,
                     ghost i: nat, ghost r: Relay)
    returns (sent: set<Packet>)
    requires relay.Valid() && relay.table == r.table && i < |relay.made| && s == relay.made[i]
    requires CanPump(side, r, i, a.now) && listening == ListenerOpen(r)
    modifies relay`table, s`lastSeen
    ensures relay.Valid() && relay.table == PumpTurn(side, r, i, a).table
    ensures r.sent + sent == PumpTurn(side, r, i, a).sent
  {
    sent := {};
    PumpTurnEffect(side, r, i, a);
    assert s.Abs() == r.table.all[i];
    var out := Down(side, a.data);
    if out.None? { return; }
    relay.Touch(s, i, a.now);
    if a.ok && listening {
      sent := {Packet(side.listen, s.peer, out.value)};
    }
  }
}
