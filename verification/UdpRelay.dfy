/** One udpRelay as a transition system: its read loop, one pump per session, the idle
    sweeper and shutdown, interleaved in any way. Every block under the mutex is one step;
    the touch after a lookup, each socket write and each close after unlocking are steps of
    their own. The relay is on one side of the tunnel; the network around it is arbitrary. */
module UdpRelay {
  import opened Bytes
  import opened Mac
  import opened Datagrams
  import opened UdpTable
  import Runs

  datatype Packet = Packet(src: Addr, dst: Addr, data: Bytes)

  /** listen: the listening socket; remote: what every upstream socket is connected to. The
      client side seals upwards and opens downwards, the server side the other way round. */
  datatype Side = Side(listen: Addr, remote: Addr, client: bool, key: Key)

  function Up(side: Side, data: Bytes): Option<Bytes> {
    if side.client then Some(Seal(side.key, ClientToServer, data)) else Open(side.key, ClientToServer, data)
  }

  function Down(side: Side, data: Bytes): Option<Bytes> {
    if side.client then Open(side.key, ServerToClient, data) else Some(Seal(side.key, ServerToClient, data))
  }

  /** What one side lets through towards the tunnel, the other side lets out of it unchanged, in
      both directions and whatever the datagram. */
  lemma FiltersFit(client: Side, server: Side, data: Bytes)
    requires client.client && !server.client && client.key == server.key
    ensures Up(client, data).Some? && Up(server, Up(client, data).value) == Some(data)
    ensures Down(server, data).Some? && Down(client, Down(server, data).value) == Some(data)
  {
    OpensExactlySealed(client.key, ClientToServer, Seal(client.key, ClientToServer, data), data);
    OpensExactlySealed(client.key, ServerToClient, Seal(client.key, ServerToClient, data), data);
  }

  /** Where the read loop is. */
  datatype Reader =
    | Reading
    | Looking(peer: Addr, payload: Bytes)
    | Found(i: nat, peer: Addr, payload: Bytes)
    | Forwarding(i: nat, payload: Bytes)
    | Leaving | Stopping | Returned

  /** Where the pump of one session is. */
  datatype Pump = Receiving | Holding(out: Bytes) | Replying(out: Bytes) | Removing | Closing | Ended

  datatype Sweeper = Waiting | Locking(cutoff: int) | Expiring(idle: set<nat>) | Quit

  /** The context's AfterFunc, which closes the listener: registered, set off by the context,
      run, or taken back by the read loop on its way out. */
  datatype Hook = Armed | Fired | Ran | Stopped

  /** received and sent record every datagram the relay took from and gave to the network. */
  datatype Relay = Relay(table: Table, reader: Reader, pumps: seq<Pump>, sweeper: Sweeper,
                         now: int, ctxDone: bool, hook: Hook,
                         received: set<Packet>, sent: set<Packet>)

  datatype Event =
    | ReadDatagram(pkt: Packet)
    | ReadFails
    | FindSession(dialed: Option<Addr>)
    | TouchFound
    | Forward(ok: bool)
    | CloseEverything
    | StopHook
    | PumpReads(i: nat, pkt: Packet)
    | PumpReadFails(i: nat)
    | PumpTouches(i: nat)
    | PumpReplies(i: nat, ok: bool)
    | PumpRemoves(i: nat)
    | PumpCloses(i: nat)
    | SweepTicks
    | SweepTakesOut
    | SweepCloses(i: nat)
    | SweepQuits
    | CancelContext
    | HookRuns
    | TimePasses(t: int)

  predicate Init(r: Relay) {
    && r.table == Table(map[], []) && r.reader == Reading && r.pumps == [] && r.sweeper == Waiting
    && !r.ctxDone && r.hook == Armed && r.received == {} && r.sent == {}
  }

  predicate ListenerOpen(r: Relay) {
    r.hook != Ran
  }

  /** The address of a dialled socket is none the relay is using or has used. */
  predicate FreshAddr(side: Side, r: Relay, a: Addr) {
    && a != side.listen && a != side.remote
    && forall i :: 0 <= i < |r.table.all| ==> r.table.all[i].addr != a
  }

  predicate Enabled(side: Side, r: Relay, e: Event) {
    match e
    case ReadDatagram(pkt) => r.reader == Reading && ListenerOpen(r) && pkt.dst == side.listen
    case ReadFails => r.reader == Reading
    case FindSession(dialed) => r.reader.Looking? && (dialed.Some? ==> FreshAddr(side, r, dialed.value))
    case TouchFound => r.reader.Found? && r.reader.i < |r.table.all|
    case Forward(_) => r.reader.Forwarding? && r.reader.i < |r.table.all|
    case CloseEverything => r.reader == Leaving
    case StopHook => r.reader == Stopping
    case PumpReads(i, pkt) =>
      && i < |r.pumps| == |r.table.all| && r.pumps[i] == Receiving
      && !r.table.all[i].closed && pkt.src == side.remote && pkt.dst == r.table.all[i].addr
    case PumpReadFails(i) => i < |r.pumps| == |r.table.all| && r.pumps[i] == Receiving
    case PumpTouches(i) => i < |r.pumps| == |r.table.all| && r.pumps[i].Holding?
    case PumpReplies(i, _) => i < |r.pumps| == |r.table.all| && r.pumps[i].Replying?
    case PumpRemoves(i) => i < |r.pumps| == |r.table.all| && r.pumps[i] == Removing
    case PumpCloses(i) => i < |r.pumps| == |r.table.all| && r.pumps[i] == Closing
    case SweepTicks => r.sweeper == Waiting
    case SweepTakesOut => r.sweeper.Locking?
    case SweepCloses(i) => r.sweeper.Expiring? && i in r.sweeper.idle && i < |r.table.all|
    case SweepQuits => r.sweeper == Waiting && r.ctxDone
    case CancelContext => true
    case HookRuns => r.hook == Fired
    case TimePasses(t) => r.now <= t
  }

  function AfterIdle(idle: set<nat>): Sweeper {
    if idle == {} then Waiting else Expiring(idle)
  }

  function Apply(side: Side, r: Relay, e: Event): Relay
    requires Enabled(side, r, e)
  {
    match e
    case ReadDatagram(pkt) =>
      r.(received := r.received + {pkt},
         reader := match Up(side, pkt.data) case None => Reading case Some(p) => Looking(pkt.src, p))
    case ReadFails => r.(reader := Leaving)
    case FindSession(dialed) =>
      var (found, table) := Find(r.table, r.reader.peer, dialed, r.now);
      r.(table := table,
         pumps := if |table.all| > |r.table.all| then r.pumps + [Receiving] else r.pumps,
         reader := match found case None => Reading case Some(i) => Found(i, r.reader.peer, r.reader.payload))
    case TouchFound =>
      r.(table := Touched(r.table, r.reader.i, r.now), reader := Forwarding(r.reader.i, r.reader.payload))
    case Forward(ok) =>
      var s := r.table.all[r.reader.i];
      r.(reader := Reading,
         sent := if ok && !s.closed then r.sent + {Packet(s.addr, side.remote, r.reader.payload)} else r.sent)
    case CloseEverything => r.(table := AllClosed(r.table), reader := Stopping)
    case StopHook => r.(reader := Returned, hook := if r.hook == Armed then Stopped else r.hook)
    case PumpReads(i, pkt) =>
      r.(received := r.received + {pkt},
         pumps := r.pumps[i := match Down(side, pkt.data) case None => Receiving case Some(out) => Holding(out)])
    case PumpReadFails(i) => r.(pumps := r.pumps[i := Removing])
    case PumpTouches(i) =>
      r.(table := Touched(r.table, i, r.now), pumps := r.pumps[i := Replying(r.pumps[i].out)])
    case PumpReplies(i, ok) =>
      r.(pumps := r.pumps[i := Receiving],
         sent := if ok && ListenerOpen(r)
                 then r.sent + {Packet(side.listen, r.table.all[i].peer, r.pumps[i].out)} else r.sent)
    case PumpRemoves(i) => r.(table := Removed(r.table, i), pumps := r.pumps[i := Closing])
    case PumpCloses(i) => r.(table := Closed(r.table, i), pumps := r.pumps[i := Ended])
    case SweepTicks => r.(sweeper := Locking(r.now - IDLE_TIMEOUT))
    case SweepTakesOut =>
      r.(table := Swept(r.table, r.sweeper.cutoff),
         sweeper := AfterIdle(Expired(r.table, r.sweeper.cutoff)))
    case SweepCloses(i) =>
      r.(table := Closed(r.table, i), sweeper := AfterIdle(r.sweeper.idle - {i}))
    case SweepQuits => r.(sweeper := Quit)
    case CancelContext => r.(ctxDone := true, hook := if r.hook == Armed then Fired else r.hook)
    case HookRuns => r.(hook := Ran)
    case TimePasses(t) => r.(now := t)
  }

  ghost predicate Step(side: Side, r: Relay, e: Event, t: Relay) {
    Enabled(side, r, e) && t == Apply(side, r, e)
  }

  ghost predicate Next(side: Side, r: Relay, t: Relay) {
    exists e :: Step(side, r, e, t)
  }

  ghost function Steps(side: Side): (Relay, Relay) -> bool {
    (r, t) => Next(side, r, t)
  }

  ghost predicate IsRun(side: Side, trace: seq<Relay>) {
    Runs.IsRun(Init, Steps(side), trace)
  }

  // ---- the session table ----

  predicate PendingClose(r: Relay, i: nat) {
    (r.sweeper.Expiring? && i in r.sweeper.idle) || (i < |r.pumps| && r.pumps[i] == Closing)
  }

  /** A mapped session is open and its pump runs or is about to remove it. */
  predicate MappedIsServed(r: Relay, i: nat)
    requires i < |r.pumps| == |r.table.all|
  {
    Mapped(r.table, i) ==> !r.table.all[i].closed && r.pumps[i] != Closing && r.pumps[i] != Ended
  }

  /** An unmapped session is closed, or somebody is on the way to close it. */
  predicate UnmappedIsClosed(r: Relay, i: nat)
    requires i < |r.table.all|
  {
    Mapped(r.table, i) || r.table.all[i].closed || PendingClose(r, i)
  }

  ghost predicate TableInv(r: Relay) {
    && |r.pumps| == |r.table.all|
    && KeyedByPeer(r.table)
    && (forall i :: 0 <= i < |r.pumps| ==> MappedIsServed(r, i))
    && (forall i :: 0 <= i < |r.pumps| ==> UnmappedIsClosed(r, i))
    && (r.sweeper.Expiring? ==> forall i :: i in r.sweeper.idle ==> i < |r.table.all| && !Mapped(r.table, i))
    && (r.sweeper.Locking? ==> r.sweeper.cutoff <= r.now - IDLE_TIMEOUT)
    && (r.reader in {Stopping, Returned} ==> r.table.live == map[])
    && (r.reader.Found? ==> r.reader.i < |r.table.all| && r.table.all[r.reader.i].peer == r.reader.peer)
    && (r.reader.Forwarding? ==> r.reader.i < |r.table.all|)
  }

  lemma FindKeepsTable(side: Side, r: Relay, e: Event, t: Relay)
    requires TableInv(r) && Step(side, r, e, t) && e.FindSession?
    ensures TableInv(t)
  {
    forall i | 0 <= i < |t.pumps| ensures MappedIsServed(t, i) && UnmappedIsClosed(t, i) {
      if i < |r.pumps| { assert MappedIsServed(r, i) && UnmappedIsClosed(r, i); }
    }
  }

  lemma SweepKeepsTable(side: Side, r: Relay, e: Event, t: Relay)
    requires TableInv(r) && Step(side, r, e, t) && (e.SweepTakesOut? || e.SweepCloses?)
    ensures TableInv(t)
  {
    forall i | 0 <= i < |t.pumps| ensures MappedIsServed(t, i) && UnmappedIsClosed(t, i) {
      assert MappedIsServed(r, i) && UnmappedIsClosed(r, i);
      if e.SweepTakesOut? { SweptExactly(r.table, r.sweeper.cutoff, i); }
    }
    if e.SweepTakesOut? {
      forall i | i in Expired(r.table, r.sweeper.cutoff) ensures i < |t.table.all| && !Mapped(t.table, i) {
        SweptExactly(r.table, r.sweeper.cutoff, i);
      }
    }
  }

  predicate IsCopying(e: Event) {
    e.PumpReads? || e.PumpReadFails? || e.PumpTouches? || e.PumpReplies?
  }

  lemma CopyingKeepsTable(side: Side, r: Relay, e: Event, t: Relay)
    requires TableInv(r) && Step(side, r, e, t) && IsCopying(e)
    ensures TableInv(t)
  {
    forall i | 0 <= i < |t.pumps| ensures MappedIsServed(t, i) && UnmappedIsClosed(t, i) {
      assert MappedIsServed(r, i) && UnmappedIsClosed(r, i);
    }
  }

  lemma LeavingKeepsTable(side: Side, r: Relay, e: Event, t: Relay)
    requires TableInv(r) && Step(side, r, e, t) && (e.PumpRemoves? || e.PumpCloses?)
    ensures TableInv(t)
  {
    forall i | 0 <= i < |t.pumps| ensures MappedIsServed(t, i) && UnmappedIsClosed(t, i) {
      assert MappedIsServed(r, i) && UnmappedIsClosed(r, i);
    }
  }

  /** Steps that neither open, close, map nor unmap a session. */
  lemma OthersKeepTable(side: Side, r: Relay, e: Event, t: Relay)
    requires TableInv(r) && Step(side, r, e, t)
    requires t.pumps == r.pumps && t.table.live == r.table.live && |t.table.all| == |r.table.all|
    requires forall i :: 0 <= i < |r.table.all| ==>
      t.table.all[i].peer == r.table.all[i].peer && t.table.all[i].closed == r.table.all[i].closed
    requires !e.SweepCloses?
    ensures TableInv(t)
  {
    forall i | 0 <= i < |t.pumps| ensures MappedIsServed(t, i) && UnmappedIsClosed(t, i) {
      assert MappedIsServed(r, i) && UnmappedIsClosed(r, i);
    }
  }

  lemma CloseAllKeepsTable(side: Side, r: Relay, e: Event, t: Relay)
    requires TableInv(r) && Step(side, r, e, t) && e == CloseEverything
    ensures TableInv(t)
  {
    forall i | 0 <= i < |t.pumps| ensures MappedIsServed(t, i) && UnmappedIsClosed(t, i) {
      assert MappedIsServed(r, i) && UnmappedIsClosed(r, i);
    }
  }

  lemma StepKeepsTable(side: Side, r: Relay, e: Event, t: Relay)
    requires TableInv(r) && Step(side, r, e, t)
    ensures TableInv(t)
  {
    if e.FindSession? {
      FindKeepsTable(side, r, e, t);
    } else if e.SweepTakesOut? || e.SweepCloses? {
      SweepKeepsTable(side, r, e, t);
    } else if e == CloseEverything {
      CloseAllKeepsTable(side, r, e, t);
    } else if IsCopying(e) {
      CopyingKeepsTable(side, r, e, t);
    } else if e.PumpRemoves? || e.PumpCloses? {
      LeavingKeepsTable(side, r, e, t);
    } else {
      OthersKeepTable(side, r, e, t);
    }
  }

  lemma RunsKeepTable(side: Side, trace: seq<Relay>, k: nat)
    requires IsRun(side, trace) && k < |trace|
    ensures TableInv(trace[k])
  {
    forall r, t | TableInv(r) && Steps(side)(r, t) ensures TableInv(t) {
      var e :| Step(side, r, e, t);
      StepKeepsTable(side, r, e, t);
    }
    Runs.Invariance(Init, Steps(side), r => TableInv(r), trace, k);
  }

  /** The session table, at every point of every interleaving: each entry belongs to its
      session's peer and is open with a pump that runs or is about to remove it; each session
      that is no longer mapped is closed or its close is pending. */
  lemma SessionTable(side: Side, trace: seq<Relay>, k: nat, i: nat)
    requires IsRun(side, trace) && k < |trace| && i < |trace[k].table.all|
    ensures |trace[k].pumps| == |trace[k].table.all|
    ensures Mapped(trace[k].table, i) ==>
              !trace[k].table.all[i].closed && trace[k].pumps[i] !in {Closing, Ended}
    ensures !Mapped(trace[k].table, i) ==> trace[k].table.all[i].closed || PendingClose(trace[k], i)
    ensures forall p :: p in trace[k].table.live ==> Mapped(trace[k].table, trace[k].table.live[p])
  {
    RunsKeepTable(side, trace, k);
    assert MappedIsServed(trace[k], i) && UnmappedIsClosed(trace[k], i);
  }

  /** An entry goes away in three ways only: its own pump removes it, a sweep finds it idle for
      more than three minutes, or the relay shuts down. So an old session's remove never takes
      out its replacement, and no sweep, however late it gets the lock, expires early. */
  lemma WhoUnmaps(side: Side, r: Relay, e: Event, t: Relay, j: nat)
    requires TableInv(r) && Step(side, r, e, t)
    requires Mapped(r.table, j) && !Mapped(t.table, j)
    ensures
      || e == PumpRemoves(j)
      || (e == SweepTakesOut && r.table.all[j].lastSeen + IDLE_TIMEOUT < r.now)
      || e == CloseEverything
  {
    match e {
      case PumpRemoves(i) => if i != j { RemovedOnlyOwnEntry(r.table, i, j); }
      case SweepTakesOut => SweptExactly(r.table, r.sweeper.cutoff, j);
      case _ =>
    }
  }

  /** An entry appears in one way only, for a session made in that very step. */
  lemma WhoMaps(side: Side, r: Relay, e: Event, t: Relay, j: nat)
    requires TableInv(r) && Step(side, r, e, t)
    requires !Mapped(r.table, j) && Mapped(t.table, j)
    ensures e.FindSession? && j == |r.table.all|
  {
    match e {
      case PumpRemoves(i) => if i != j { RemovedOnlyOwnEntry(r.table, i, j); }
      case _ =>
    }
  }

  // ---- a session found and not yet touched ----

  /** From i to j the read loop holds session s, found with its last touch at `last`. */
  ghost predicate HoldsFound(side: Side, trace: seq<Relay>, i: nat, j: nat, s: nat, last: int) {
    && IsRun(side, trace) && i <= j < |trace|
    && (forall k :: i <= k <= j ==> trace[k].reader.Found? && trace[k].reader.i == s)
    && Mapped(trace[i].table, s) && trace[i].table.all[s].lastSeen == last
  }

  /** Session s is still mapped, or its own pump has removed it. */
  predicate Spared(r: Relay, s: nat) {
    Mapped(r.table, s) || (s < |r.pumps| && r.pumps[s] in {Closing, Ended})
  }

  predicate SeenInThePast(r: Relay) {
    forall i :: 0 <= i < |r.table.all| ==> r.table.all[i].lastSeen <= r.now
  }

  lemma RunsKeepPast(side: Side, trace: seq<Relay>, k: nat)
    requires IsRun(side, trace) && k < |trace|
    ensures SeenInThePast(trace[k])
  {
    forall r, t | SeenInThePast(r) && Steps(side)(r, t) ensures SeenInThePast(t) {
      var e :| Step(side, r, e, t);
      StepKeepsPast(side, r, e, t);
    }
    Runs.Invariance(Init, Steps(side), r => SeenInThePast(r), trace, k);
  }

  lemma StepKeepsPast(side: Side, r: Relay, e: Event, t: Relay)
    requires SeenInThePast(r) && Step(side, r, e, t)
    ensures SeenInThePast(t) && r.now <= t.now
  {
  }

  /** Session s is spared, and was last seen at `last` or later. */
  predicate SparedSince(r: Relay, s: nat, last: int) {
    s < |r.table.all| && Spared(r, s) && last <= r.table.all[s].lastSeen
  }

  /** Or the relay has shut down. */
  predicate SparedOrOver(r: Relay, s: nat, last: int) {
    SparedSince(r, s, last) || r.reader in {Stopping, Returned}
  }

  lemma StepKeepsSpared(side: Side, r: Relay, e: Event, t: Relay, s: nat, last: int)
    requires TableInv(r) && SeenInThePast(r) && Step(side, r, e, t) && t.now <= last + IDLE_TIMEOUT
    requires SparedOrOver(r, s, last)
    ensures SparedOrOver(t, s, last)
  {
    if SparedSince(r, s, last) && Mapped(r.table, s) && !Mapped(t.table, s) { WhoUnmaps(side, r, e, t, s); }
  }

  lemma SparedAtStep(side: Side, trace: seq<Relay>, k: nat, s: nat, last: int)
    requires IsRun(side, trace) && 0 < k < |trace|
    ensures trace[k - 1].now <= trace[k].now
    ensures SparedOrOver(trace[k - 1], s, last) && trace[k].now <= last + IDLE_TIMEOUT ==>
      SparedOrOver(trace[k], s, last)
  {
    RunsKeepPast(side, trace, k - 1);
    RunsKeepTable(side, trace, k - 1);
    assert Steps(side)(trace[k - 1], trace[k]);
    var e :| Step(side, trace[k - 1], e, trace[k]);
    StepKeepsPast(side, trace[k - 1], e, trace[k]);
    if SparedOrOver(trace[k - 1], s, last) && trace[k].now <= last + IDLE_TIMEOUT {
      StepKeepsSpared(side, trace[k - 1], e, trace[k], s, last);
    }
  }

  lemma StaysSpared(side: Side, trace: seq<Relay>, i: nat, j: nat, s: nat, last: int)
    requires IsRun(side, trace) && i <= j < |trace| && trace[j].now <= last + IDLE_TIMEOUT
    requires SparedSince(trace[i], s, last)
    ensures SparedOrOver(trace[j], s, last)
  {
    var spared := (r: Relay) => r.now <= last + IDLE_TIMEOUT ==> SparedOrOver(r, s, last);
    forall k | i < k <= j && spared(trace[k - 1]) ensures spared(trace[k]) {
      SparedAtStep(side, trace, k, s, last);
    }
    Runs.Along(spared, trace, i, j);
  }

  lemma FoundIsSpared(side: Side, trace: seq<Relay>, i: nat, j: nat, s: nat, last: int)
    requires HoldsFound(side, trace, i, j, s, last) && trace[j].now <= last + IDLE_TIMEOUT
    ensures SparedSince(trace[j], s, last)
  {
    StaysSpared(side, trace, i, j, s, last);
  }

  /** The step is one of the program's touches of session s: by the read loop, by the session's
      pump, or in making it. */
  predicate Touches(r: Relay, e: Event, s: nat) {
    match e
    case TouchFound => r.reader.Found? && r.reader.i == s
    case PumpTouches(i) => i == s
    case FindSession(dialed) =>
      r.reader.Looking? && r.reader.peer !in r.table.live && dialed.Some? && s == |r.table.all|
    case _ => false
  }

  lemma TouchIsRecorded(side: Side, r: Relay, e: Event, t: Relay, s: nat)
    requires Step(side, r, e, t) && Touches(r, e, s) && Mapped(t.table, s)
    ensures s < |t.table.all| && t.table.all[s].lastSeen == r.now == t.now
  {
  }

  /** A session in use is kept: for three minutes after any touch, no sweep takes it out, in any
      continuation; by then it is mapped, unless its own pump has removed it or the relay has
      shut down. */
  lemma TouchedIsSpared(side: Side, trace: seq<Relay>, i: nat, j: nat, e: Event, s: nat)
    requires IsRun(side, trace) && i < j < |trace|
    requires Step(side, trace[i], e, trace[i + 1]) && Touches(trace[i], e, s) && Mapped(trace[i + 1].table, s)
    requires trace[j].now <= trace[i].now + IDLE_TIMEOUT
    ensures Spared(trace[j], s) || trace[j].reader in {Stopping, Returned}
  {
    TouchIsRecorded(side, trace[i], e, trace[i + 1], s);
    StaysSpared(side, trace, i + 1, j, s, trace[i].now);
  }

  /** The smallest datagram that passes the filter, and what it becomes. */
  function Small(side: Side): Bytes {
    if side.client then [] else Seal(side.key, ClientToServer, [])
  }

  function SmallUp(side: Side): Bytes {
    if side.client then Seal(side.key, ClientToServer, []) else []
  }

  lemma SmallPasses(side: Side)
    ensures Up(side, Small(side)) == Some(SmallUp(side))
  {
    OpensExactlySealed(side.key, ClientToServer, Small(side), []);
  }

  function Hello(side: Side): Packet { Packet(Free(side), side.listen, Small(side)) }
  function Free(side: Side): Addr { side.listen + side.remote + 1 }
  function OneSession(side: Side, last: int): Table {
    Table(map[Free(side) := 0], [Session(Free(side), Free(side), last, false)])
  }
  function Quiet(now: int): Relay {
    Relay(Table(map[], []), Reading, [], Waiting, now, false, Armed, {}, {})
  }

  /** A first datagram makes a session, at time `now`. */
  lemma FirstDatagram(side: Side, now: int) returns (trace: seq<Relay>, r: Relay)
    ensures IsRun(side, trace) && |trace| == 3 && trace[2] == r
    ensures r == Quiet(now).(table := OneSession(side, now), pumps := [Receiving], received := {Hello(side)},
                             reader := Found(0, Free(side), SmallUp(side)))
  {
    SmallPasses(side);
    r := Quiet(now);
    trace := [r];
    r := r.(reader := Looking(Free(side), SmallUp(side)), received := {Hello(side)});
    trace := Extend(side, trace, ReadDatagram(Hello(side)), r);
    r := r.(table := OneSession(side, now), pumps := [Receiving], reader := Found(0, Free(side), SmallUp(side)));
    trace := Extend(side, trace, FindSession(Some(Free(side))), r);
  }

  /** A second one finds it later. */
  lemma SecondDatagram(side: Side, last: int, now: int) returns (trace: seq<Relay>, r: Relay)
    requires last <= now
    ensures IsRun(side, trace) && r == trace[|trace| - 1]
    ensures r == Quiet(now).(table := OneSession(side, last), pumps := [Receiving], received := {Hello(side)},
                             reader := Found(0, Free(side), SmallUp(side)))
  {
    SmallPasses(side);
    trace, r := FirstDatagram(side, last);
    r := r.(reader := Forwarding(0, SmallUp(side)));
    trace := Extend(side, trace, TouchFound, r);
    r := r.(reader := Reading);
    trace := Extend(side, trace, Forward(false), r);
    r := r.(now := now);
    trace := Extend(side, trace, TimePasses(now), r);
    r := r.(reader := Looking(Free(side), SmallUp(side)));
    trace := Extend(side, trace, ReadDatagram(Hello(side)), r);
    r := r.(reader := Found(0, Free(side), SmallUp(side)));
    trace := Extend(side, trace, FindSession(None), r);
  }

  /** An old session, found just before a tick, is swept before it is touched. */
  lemma FoundSessionCanBeSwept(side: Side, last: int, now: int) returns (trace: seq<Relay>, i: nat, j: nat)
    requires last + IDLE_TIMEOUT < now
    ensures HoldsFound(side, trace, i, j, 0, last) && trace[i].now == now - 1 && trace[j].now == now
    ensures !Spared(trace[j], 0)
  {
    var r: Relay;
    trace, r := SecondDatagram(side, last, now - 1);
    i := |trace| - 1;
    r := r.(now := now);
    trace := Extend(side, trace, TimePasses(now), r);
    r := r.(sweeper := Locking(now - IDLE_TIMEOUT));
    trace := Extend(side, trace, SweepTicks, r);
    assert IsIdle(r.table, Free(side), now - IDLE_TIMEOUT);
    r := r.(table := Swept(r.table, now - IDLE_TIMEOUT), sweeper := AfterIdle(Expired(r.table, now - IDLE_TIMEOUT)));
    trace := Extend(side, trace, SweepTakesOut, r);
    j := |trace| - 1;
  }

  /** A session that a datagram has been matched with, last touched at `last`, is spared by
      every sweep until the touch at time `now`, in every run, if and only if no more than
      three minutes lie between them. */
  lemma FoundIsSparedIff(side: Side, last: int, now: int)
    ensures (forall trace: seq<Relay>, i: nat, j: nat, s: nat ::
               HoldsFound(side, trace, i, j, s, last) && trace[j].now == now ==> Spared(trace[j], s))
            <==> now <= last + IDLE_TIMEOUT
  {
    if now <= last + IDLE_TIMEOUT {
      forall trace: seq<Relay>, i: nat, j: nat, s: nat | HoldsFound(side, trace, i, j, s, last) && trace[j].now == now
        ensures Spared(trace[j], s)
      {
        FoundIsSpared(side, trace, i, j, s, last);
      }
    } else {
      var trace, i, j := FoundSessionCanBeSwept(side, last, now);
    }
  }

  /** Its own pump can remove it at any time before the touch, however fresh it is: here the
      socket fails right after the lookup. */
  lemma FoundSessionCanBeRemoved(side: Side, last: int) returns (trace: seq<Relay>, i: nat, j: nat)
    ensures HoldsFound(side, trace, i, j, 0, last) && trace[j].now == last
    ensures !Mapped(trace[j].table, 0) && trace[j].pumps == [Closing]
  {
    var r: Relay;
    trace, r := FirstDatagram(side, last);
    i := |trace| - 1;
    r := r.(pumps := [Removing]);
    trace := Extend(side, trace, PumpReadFails(0), r);
    r := r.(table := Removed(r.table, 0), pumps := [Closing]);
    trace := Extend(side, trace, PumpRemoves(0), r);
    j := |trace| - 1;
  }

  lemma Extend(side: Side, trace: seq<Relay>, e: Event, t: Relay) returns (longer: seq<Relay>)
    requires IsRun(side, trace) && Step(side, trace[|trace| - 1], e, t)
    ensures longer == trace + [t] && IsRun(side, longer)
  {
    longer := Runs.Extend(Init, Steps(side), trace, t);
  }

  /** r has shut down and t, later, has an empty table and the same sessions. */
  ghost predicate StaysEmpty(r: Relay, t: Relay) {
    r.reader in {Stopping, Returned} ==>
      t.reader in {Stopping, Returned} && t.table.live == map[] && |t.table.all| == |r.table.all|
  }

  /** Once the read loop has closed everything, the table stays empty for good. */
  lemma ShutdownIsPermanent(side: Side, trace: seq<Relay>, i: nat, j: nat)
    requires IsRun(side, trace) && i <= j < |trace|
    requires trace[i].reader in {Stopping, Returned}
    ensures trace[j].table.live == map[] && |trace[j].table.all| == |trace[i].table.all|
  {
    forall k | 0 <= k < |trace| ensures TableInv(trace[k]) { RunsKeepTable(side, trace, k); }
    forall r, s, t | StaysEmpty(r, s) && TableInv(s) && Steps(side)(s, t) ensures StaysEmpty(r, t) {
      var e :| Step(side, s, e, t);
      StepKeepsTable(side, s, e, t);
    }
    Runs.Persistence(Init, Steps(side), r => TableInv(r), (r, t) => StaysEmpty(r, t), trace, i, j);
  }

  /** When the read loop, all pumps and any sweep under way have finished, every socket the
      relay ever dialled is closed. */
  lemma NoSocketLeaks(side: Side, trace: seq<Relay>, k: nat)
    requires IsRun(side, trace) && k < |trace|
    requires trace[k].reader == Returned && !trace[k].sweeper.Expiring?
    requires forall i :: 0 <= i < |trace[k].pumps| ==> trace[k].pumps[i] == Ended
    ensures forall i :: 0 <= i < |trace[k].table.all| ==> trace[k].table.all[i].closed
  {
    RunsKeepTable(side, trace, k);
    forall i | 0 <= i < |trace[k].table.all| ensures trace[k].table.all[i].closed {
      assert UnmappedIsClosed(trace[k], i);
    }
  }

  /** Steps a pump still has to make once its socket is closed. */
  function Remaining(p: Pump): nat {
    match p
    case Holding(_) => 5
    case Replying(_) => 4
    case Receiving => 3
    case Removing => 2
    case Closing => 1
    case Ended => 0
  }

  predicate IsPumpStep(e: Event, i: nat) {
    match e
    case PumpReads(j, _) => i == j
    case PumpReadFails(j) => i == j
    case PumpTouches(j) => i == j
    case PumpReplies(j, _) => i == j
    case PumpRemoves(j) => i == j
    case PumpCloses(j) => i == j
    case _ => false
  }

  lemma PumpCanMove(side: Side, r: Relay, i: nat) returns (f: Event)
    requires TableInv(r) && i < |r.pumps| && r.pumps[i] != Ended
    ensures IsPumpStep(f, i) && Enabled(side, r, f)
  {
    f := match r.pumps[i]
      case Holding(_) => PumpTouches(i)
      case Replying(_) => PumpReplies(i, true)
      case Receiving => PumpReadFails(i)
      case Removing => PumpRemoves(i)
      case Closing => PumpCloses(i)
      case Ended => ReadFails;
  }

  lemma PumpIsNotDelayed(side: Side, r: Relay, e: Event, t: Relay, i: nat)
    requires i < |r.pumps| == |r.table.all| && r.table.all[i].closed && Step(side, r, e, t)
    ensures i < |t.pumps| && i < |t.table.all| && t.table.all[i].closed
    ensures if IsPumpStep(e, i) then Remaining(t.pumps[i]) < Remaining(r.pumps[i]) else t.pumps[i] == r.pumps[i]
  {
  }

  /** Closing a socket makes its pump exit: a pump that has not ended can always move, every
      move of its own brings it nearer to its end, and no other step delays it. */
  lemma ClosedSocketEndsPump(side: Side, r: Relay, e: Event, t: Relay, i: nat)
    requires TableInv(r) && i < |r.pumps| && r.table.all[i].closed
    requires Step(side, r, e, t)
    ensures i < |t.pumps| && i < |t.table.all| && t.table.all[i].closed
    ensures if IsPumpStep(e, i) then Remaining(t.pumps[i]) < Remaining(r.pumps[i]) else t.pumps[i] == r.pumps[i]
    ensures r.pumps[i] != Ended ==> exists f :: IsPumpStep(f, i) && Enabled(side, r, f)
  {
    PumpIsNotDelayed(side, r, e, t, i);
    if r.pumps[i] != Ended { var f := PumpCanMove(side, r, i); }
  }

  // ---- the listener on the way out ----

  predicate HookInv(r: Relay) {
    && (r.ctxDone ==> r.hook != Armed)
    && (!r.ctxDone ==> r.hook in {Armed, Stopped})
    && (r.hook == Stopped ==> r.reader == Returned)
    && (r.reader == Returned ==> r.hook != Armed)
  }

  lemma RunsKeepHook(side: Side, trace: seq<Relay>, k: nat)
    requires IsRun(side, trace) && k < |trace|
    ensures HookInv(trace[k])
  {
    Runs.Invariance(Init, Steps(side), r => HookInv(r), trace, k);
  }

  /** Cancelling the context leads to a closed listener: the hook is set off, or has been taken
      back by a read loop that had left before, and once set off it can run, which closes it. */
  lemma CancellingClosesListener(side: Side, trace: seq<Relay>, k: nat)
    requires IsRun(side, trace) && k < |trace| && trace[k].ctxDone
    ensures trace[k].hook == Ran || trace[k].hook == Fired || (trace[k].hook == Stopped && trace[k].reader == Returned)
    ensures trace[k].hook == Fired ==>
      Enabled(side, trace[k], HookRuns) && !ListenerOpen(Apply(side, trace[k], HookRuns))
  {
    RunsKeepHook(side, trace, k);
  }

  /** Steps the read loop still has to make once the listener is closed. */
  function ReaderLeft(reader: Reader): nat {
    match reader
    case Looking(_, _) => 6
    case Found(_, _, _) => 5
    case Forwarding(_, _) => 4
    case Reading => 3
    case Leaving => 2
    case Stopping => 1
    case Returned => 0
  }

  predicate IsReaderStep(e: Event) {
    || e.ReadDatagram? || e.ReadFails? || e.FindSession? || e.TouchFound? || e.Forward?
    || e.CloseEverything? || e.StopHook?
  }

  /** A closed listener ends the relay: the read loop can always move until it has returned, each
      of its steps brings it nearer, and nothing else delays it or opens the listener again. */
  lemma ClosedListenerEndsRelay(side: Side, r: Relay, e: Event, t: Relay)
    requires TableInv(r) && !ListenerOpen(r) && Step(side, r, e, t)
    ensures r.hook == Ran && t.hook == Ran
    ensures if IsReaderStep(e) then ReaderLeft(t.reader) < ReaderLeft(r.reader) else t.reader == r.reader
    ensures r.reader != Returned ==> exists f :: IsReaderStep(f) && Enabled(side, r, f)
  {
    var f := match r.reader
      case Looking(_, _) => FindSession(None)
      case Found(_, _, _) => TouchFound
      case Forwarding(_, _) => Forward(true)
      case Leaving => CloseEverything
      case Stopping => StopHook
      case _ => ReadFails;
    assert r.reader != Returned ==> IsReaderStep(f) && Enabled(side, r, f);
  }

  /** r has returned, and t, later, still has; whether the hook was taken back is settled. */
  predicate HookSettled(r: Relay, t: Relay) {
    r.reader == Returned ==> t.reader == Returned && (r.hook == Stopped <==> t.hook == Stopped)
  }

  lemma StepKeepsHookSettled(side: Side, r: Relay, s: Relay, e: Event, t: Relay)
    requires HookSettled(r, s) && HookInv(s) && Step(side, s, e, t)
    ensures HookSettled(r, t)
  {
  }

  /** The listener outlives the relay exactly when the read loop left before the context was
      done: taking the hook back then leaves nobody to close it, in any continuation. If the
      context was done, the hook has closed the listener or can. */
  lemma ListenerAfterReturn(side: Side, trace: seq<Relay>, i: nat, j: nat)
    requires IsRun(side, trace) && i <= j < |trace| - 1
    requires Step(side, trace[i], StopHook, trace[i + 1])
    ensures !trace[i].ctxDone ==> ListenerOpen(trace[j + 1])
    ensures trace[i].ctxDone ==> !ListenerOpen(trace[j + 1]) || Enabled(side, trace[j + 1], HookRuns)
  {
    forall k | 0 <= k < |trace| ensures HookInv(trace[k]) { RunsKeepHook(side, trace, k); }
    forall r, s, t | HookSettled(r, s) && HookInv(s) && Steps(side)(s, t) ensures HookSettled(r, t) {
      var e :| Step(side, s, e, t);
      StepKeepsHookSettled(side, r, s, e, t);
    }
    Runs.Persistence(Init, Steps(side), r => HookInv(r), (r, t) => HookSettled(r, t), trace, i + 1, j + 1);
  }

  /** Such a run: the listener fails, nobody has cancelled the context, and the relay returns
      with its listener open and the hook taken back. */
  lemma ListenerLeftOpen(side: Side) returns (trace: seq<Relay>)
    ensures IsRun(side, trace)
    ensures var r := trace[|trace| - 1];
      r.reader == Returned && !r.ctxDone && r.hook == Stopped && ListenerOpen(r)
  {
    var r := Quiet(0);
    trace := [r];
    r := r.(reader := Leaving);
    trace := Extend(side, trace, ReadFails, r);
    assert AllClosed(r.table).all == [];
    r := r.(table := AllClosed(r.table), reader := Stopping);
    trace := Extend(side, trace, CloseEverything, r);
    r := r.(reader := Returned, hook := Stopped);
    trace := Extend(side, trace, StopHook, r);
  }

  // ---- where datagrams come from ----

  ghost predicate CameUp(side: Side, r: Relay, peer: Addr, payload: Bytes) {
    exists d :: Packet(peer, side.listen, d) in r.received && Up(side, d) == Some(payload)
  }

  ghost predicate CameDown(side: Side, r: Relay, i: nat, out: Bytes) {
    && i < |r.table.all|
    && exists d :: Packet(side.remote, r.table.all[i].addr, d) in r.received && Down(side, d) == Some(out)
  }

  /** pkt left through session i's upstream socket, and session i's peer had sent it. */
  ghost predicate SentUp(side: Side, r: Relay, pkt: Packet, i: nat) {
    && i < |r.table.all| && pkt.src == r.table.all[i].addr && pkt.dst == side.remote
    && CameUp(side, r, r.table.all[i].peer, pkt.data)
  }

  /** pkt left through the listener for session i's peer, and had come back on session i's socket. */
  ghost predicate SentDown(side: Side, r: Relay, pkt: Packet, i: nat) {
    && CameDown(side, r, i, pkt.data)
    && pkt.src == side.listen && pkt.dst == r.table.all[i].peer
  }

  ghost predicate Explained(side: Side, r: Relay, pkt: Packet) {
    exists i :: SentUp(side, r, pkt, i) || SentDown(side, r, pkt, i)
  }

  predicate AddrsDistinct(side: Side, r: Relay) {
    && (forall i :: 0 <= i < |r.table.all| ==> r.table.all[i].addr != side.listen && r.table.all[i].addr != side.remote)
    && (forall i, j :: 0 <= i < j < |r.table.all| ==> r.table.all[i].addr != r.table.all[j].addr)
  }

  ghost predicate PumpExplained(side: Side, r: Relay, i: nat)
    requires i < |r.pumps|
  {
    match r.pumps[i]
    case Holding(out) => CameDown(side, r, i, out)
    case Replying(out) => CameDown(side, r, i, out)
    case _ => true
  }

  ghost predicate ReaderExplained(side: Side, r: Relay) {
    match r.reader
    case Looking(peer, payload) => CameUp(side, r, peer, payload)
    case Found(i, peer, payload) => CameUp(side, r, peer, payload)
    case Forwarding(i, payload) => i < |r.table.all| && CameUp(side, r, r.table.all[i].peer, payload)
    case _ => true
  }

  ghost predicate FlowInv(side: Side, r: Relay) {
    && TableInv(r)
    && AddrsDistinct(side, r)
    && ReaderExplained(side, r)
    && (forall i :: 0 <= i < |r.pumps| ==> PumpExplained(side, r, i))
    && (forall pkt :: pkt in r.sent ==> Explained(side, r, pkt))
  }

  /** Sessions keep their peer and their address for ever; records only grow. */
  predicate Grows(r: Relay, t: Relay) {
    && |r.table.all| <= |t.table.all|
    && (forall i :: 0 <= i < |r.table.all| ==>
          t.table.all[i].peer == r.table.all[i].peer && t.table.all[i].addr == r.table.all[i].addr)
    && r.received <= t.received && r.sent <= t.sent
  }

  lemma StepGrows(side: Side, r: Relay, e: Event, t: Relay)
    requires TableInv(r) && Step(side, r, e, t)
    ensures Grows(r, t)
  {
  }

  predicate OwnAddr(side: Side, r: Relay, a: Addr) {
    a == side.listen || exists i :: 0 <= i < |r.table.all| && r.table.all[i].addr == a
  }

  /** What a step records, what it sends, and from which addresses. */
  lemma StepRecords(side: Side, r: Relay, e: Event, t: Relay)
    requires TableInv(r) && Step(side, r, e, t)
    ensures t.received == if e.ReadDatagram? || e.PumpReads? then r.received + {e.pkt} else r.received
    ensures forall pkt :: pkt in t.sent && pkt !in r.sent ==> OwnAddr(side, r, pkt.src)
    ensures forall a: Addr :: OwnAddr(side, t, a) ==>
      OwnAddr(side, r, a) || (e.FindSession? && e.dialed == Some(a))
  {
  }

  lemma ExplainedPersists(side: Side, r: Relay, t: Relay, pkt: Packet)
    requires Grows(r, t) && Explained(side, r, pkt)
    ensures Explained(side, t, pkt)
  {
    var i :| SentUp(side, r, pkt, i) || SentDown(side, r, pkt, i);
    assert SentUp(side, t, pkt, i) || SentDown(side, t, pkt, i);
  }

  lemma StepKeepsAddrs(side: Side, r: Relay, e: Event, t: Relay)
    requires TableInv(r) && AddrsDistinct(side, r) && Step(side, r, e, t)
    ensures AddrsDistinct(side, t)
  {
    StepGrows(side, r, e, t);
    if e.FindSession? {
      assert |t.table.all| <= |r.table.all| + 1;
    } else {
      assert |t.table.all| == |r.table.all|;
    }
  }

  lemma StepExplainsReader(side: Side, r: Relay, e: Event, t: Relay)
    requires FlowInv(side, r) && Step(side, r, e, t)
    ensures ReaderExplained(side, t)
  {
    StepGrows(side, r, e, t);
    if e.ReadDatagram? && t.reader.Looking? {
      assert e.pkt == Packet(e.pkt.src, side.listen, e.pkt.data);
    }
  }

  lemma StepExplainsPumps(side: Side, r: Relay, e: Event, t: Relay)
    requires FlowInv(side, r) && Step(side, r, e, t) && TableInv(t)
    ensures forall i :: 0 <= i < |t.pumps| ==> PumpExplained(side, t, i)
  {
    StepGrows(side, r, e, t);
    forall i | 0 <= i < |t.pumps| ensures PumpExplained(side, t, i) {
      if i < |r.pumps| { assert PumpExplained(side, r, i); }
      if e.PumpReads? && i == e.i {
        assert e.pkt == Packet(side.remote, r.table.all[i].addr, e.pkt.data);
      }
    }
  }

  lemma StepExplainsSent(side: Side, r: Relay, e: Event, t: Relay)
    requires FlowInv(side, r) && Step(side, r, e, t)
    ensures forall pkt :: pkt in t.sent ==> Explained(side, t, pkt)
  {
    StepGrows(side, r, e, t);
    forall pkt | pkt in t.sent ensures Explained(side, t, pkt) {
      if pkt in r.sent {
        ExplainedPersists(side, r, t, pkt);
      } else if e.Forward? {
        assert SentUp(side, t, pkt, r.reader.i);
      } else {
        assert PumpExplained(side, r, e.i);
        assert SentDown(side, t, pkt, e.i);
      }
    }
  }

  lemma StepKeepsFlow(side: Side, r: Relay, e: Event, t: Relay)
    requires FlowInv(side, r) && Step(side, r, e, t)
    ensures FlowInv(side, t)
  {
    StepKeepsTable(side, r, e, t);
    StepKeepsAddrs(side, r, e, t);
    StepExplainsReader(side, r, e, t);
    StepExplainsPumps(side, r, e, t);
    StepExplainsSent(side, r, e, t);
  }

  /** In every interleaving, and whatever the network delivers, each datagram the relay sends
      is explained: upwards it goes out on the socket of the very peer that sent it, downwards
      it goes to the very peer whose socket it came in on, filtered and otherwise unchanged. A
      lookup that races with the sweeper can lose a datagram but never hands it to another. */
  lemma NoCrossing(side: Side, trace: seq<Relay>, k: nat, pkt: Packet)
    requires IsRun(side, trace) && k < |trace| && pkt in trace[k].sent
    ensures Explained(side, trace[k], pkt)
  {
    forall r, t | FlowInv(side, r) && Steps(side)(r, t) ensures FlowInv(side, t) {
      var e :| Step(side, r, e, t);
      StepKeepsFlow(side, r, e, t);
    }
    Runs.Invariance(Init, Steps(side), r => FlowInv(side, r), trace, k);
  }
}
