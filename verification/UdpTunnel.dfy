/** Two udpRelays composed into the udp transport: applications, the client's relay, a
    network, the server's relay, the target. The network may lose, repeat and reorder
    datagrams, and outsiders may send any datagram they like to anyone. */
module UdpTunnel {
  import opened Bytes
  import opened Mac
  import D = Datagrams
  import opened UdpTable
  import R = UdpRelay
  import opened Runs

  type Packet = R.Packet

  /** forgeable: which of the relays' own addresses outsiders may put on what they send. */
  datatype Tunnel = Tunnel(key: D.Key, clientListen: Addr, serverListen: Addr, target: Addr, forgeable: iset<Addr>)
  {
    predicate Valid() {
      clientListen != serverListen && serverListen != target && target != clientListen
    }
    function Client(): R.Side { R.Side(clientListen, serverListen, true, key) }
    function Server(): R.Side { R.Side(serverListen, target, false, key) }
  }

  /** wire: everything ever sent, each datagram deliverable any number of times or never. */
  datatype World = World(wire: set<Packet>, signed: set<(Token, Bytes)>, client: R.Relay, server: R.Relay)

  datatype Event =
    | ClientStep(e: R.Event)
    | ServerStep(e: R.Event)
    | Outside(pkt: Packet)
    | SignsElsewhere(token: Token, input: Input)

  ghost predicate Init(w: World) {
    w.wire == {} && w.signed == {} && R.Init(w.client) && R.Init(w.server)
  }

  /** Addresses of dialled sockets are not reused. */
  ghost predicate DialsFresh(tun: Tunnel, w: World, e: R.Event) {
    e.FindSession? && e.dialed.Some? ==>
      var a := e.dialed.value;
      && a != tun.target && !R.OwnAddr(tun.Client(), w.client, a) && !R.OwnAddr(tun.Server(), w.server, a)
      && forall pkt :: pkt in w.wire ==> pkt.src != a
  }

  predicate Delivered(w: World, e: R.Event) {
    && (e.ReadDatagram? ==> e.pkt in w.wire)
    && (e.PumpReads? ==> e.pkt in w.wire)
  }

  ghost predicate Enabled(tun: Tunnel, w: World, e: Event) {
    match e
    case ClientStep(e) =>
      && R.Enabled(tun.Client(), w.client, e) && Delivered(w, e) && DialsFresh(tun, w, e)
      && (e.PumpReads? ==> D.NoForgery(tun.key, w.signed, ServerToClient, e.pkt.data))
    case ServerStep(e) =>
      && R.Enabled(tun.Server(), w.server, e) && Delivered(w, e) && DialsFresh(tun, w, e)
      && (e.ReadDatagram? ==> D.NoForgery(tun.key, w.signed, ClientToServer, e.pkt.data))
    case Outside(pkt) =>
      || pkt.src in tun.forgeable
      || (!R.OwnAddr(tun.Client(), w.client, pkt.src) && !R.OwnAddr(tun.Server(), w.server, pkt.src))
    case SignsElsewhere(_, input) => !input.Datagram?
  }

  function Signing(tun: Tunnel, w: World, dir: Direction, payload: Bytes): set<(Token, Bytes)> {
    w.signed + {(tun.key.token, Encode(Datagram(dir, payload)))}
  }

  ghost function Apply(tun: Tunnel, w: World, e: Event): World
    requires Enabled(tun, w, e)
  {
    match e
    case ClientStep(e) =>
      var r := R.Apply(tun.Client(), w.client, e);
      World(w.wire + r.sent,
            if e.ReadDatagram? then Signing(tun, w, ClientToServer, e.pkt.data) else w.signed,
            r, w.server)
    case ServerStep(e) =>
      var r := R.Apply(tun.Server(), w.server, e);
      World(w.wire + r.sent,
            if e.PumpReads? then Signing(tun, w, ServerToClient, e.pkt.data) else w.signed,
            w.client, r)
    case Outside(pkt) => w.(wire := w.wire + {pkt})
    case SignsElsewhere(token, input) => w.(signed := w.signed + {(token, Encode(input))})
  }

  ghost predicate Step(tun: Tunnel, w: World, e: Event, v: World) {
    Enabled(tun, w, e) && v == Apply(tun, w, e)
  }

  ghost predicate Next(tun: Tunnel, w: World, v: World) {
    exists e :: Step(tun, w, e, v)
  }

  ghost function Steps(tun: Tunnel): (World, World) -> bool {
    (w, v) => Next(tun, w, v)
  }

  ghost predicate IsTunnelRun(tun: Tunnel, trace: seq<World>) {
    tun.Valid() && IsRun(Init, Steps(tun), trace)
  }

  // ---- what the two ends have really seen ----

  ghost predicate FromApp(tun: Tunnel, w: World, p: Addr, payload: Bytes) {
    R.Packet(p, tun.clientListen, payload) in w.client.received
  }

  ghost predicate FromSomeApp(tun: Tunnel, w: World, payload: Bytes) {
    exists p :: FromApp(tun, w, p, payload)
  }

  ghost predicate FromTarget(tun: Tunnel, w: World, j: nat, payload: Bytes) {
    j < |w.server.table.all|
    && R.Packet(tun.target, w.server.table.all[j].addr, payload) in w.server.received
  }

  ghost predicate FromTargetAnywhere(tun: Tunnel, w: World, payload: Bytes) {
    exists j :: FromTarget(tun, w, j, payload)
  }

  // ---- invariants ----

  ghost predicate OnWire(w: World) {
    && w.client.received <= w.wire && w.client.sent <= w.wire
    && w.server.received <= w.wire && w.server.sent <= w.wire
  }

  ghost predicate SignedWasSeen(tun: Tunnel, w: World) {
    && (forall x: Bytes :: (tun.key.token, Encode(Datagram(ClientToServer, x))) in w.signed ==> FromSomeApp(tun, w, x))
    && (forall x: Bytes :: (tun.key.token, Encode(Datagram(ServerToClient, x))) in w.signed
          ==> FromTargetAnywhere(tun, w, x))
  }

  ghost predicate OpenedWasSeen(tun: Tunnel, w: World) {
    && (forall pkt :: pkt in w.server.received && pkt.dst == tun.serverListen
          && D.Open(tun.key, ClientToServer, pkt.data).Some?
          ==> FromSomeApp(tun, w, pkt.data[DATAGRAM_OVERHEAD..]))
    && (forall pkt :: pkt in w.client.received && pkt.dst != tun.clientListen
          && D.Open(tun.key, ServerToClient, pkt.data).Some?
          ==> FromTargetAnywhere(tun, w, pkt.data[DATAGRAM_OVERHEAD..]))
  }

  ghost predicate Apart(tun: Tunnel, w: World) {
    forall a: Addr :: !(R.OwnAddr(tun.Client(), w.client, a) && R.OwnAddr(tun.Server(), w.server, a))
  }

  /** Whatever carries a relay's address that cannot be forged was sent by that relay. */
  ghost predicate Genuine(tun: Tunnel, w: World) {
    && (forall pkt :: pkt in w.wire && pkt.src !in tun.forgeable && R.OwnAddr(tun.Client(), w.client, pkt.src)
          ==> pkt in w.client.sent)
    && (forall pkt :: pkt in w.wire && pkt.src !in tun.forgeable && R.OwnAddr(tun.Server(), w.server, pkt.src)
          ==> pkt in w.server.sent)
  }

  ghost predicate Inv(tun: Tunnel, w: World) {
    && R.FlowInv(tun.Client(), w.client) && R.FlowInv(tun.Server(), w.server)
    && OnWire(w) && SignedWasSeen(tun, w) && OpenedWasSeen(tun, w) && Apart(tun, w)
    && Genuine(tun, w)
  }

  ghost predicate Grows(w: World, v: World) {
    R.Grows(w.client, v.client) && R.Grows(w.server, v.server)
  }

  lemma StepGrows(tun: Tunnel, w: World, e: Event, v: World)
    requires Inv(tun, w) && Step(tun, w, e, v)
    ensures Grows(w, v)
    ensures R.FlowInv(tun.Client(), v.client) && R.FlowInv(tun.Server(), v.server)
  {
    match e {
      case ClientStep(e') =>
        assert R.Step(tun.Client(), w.client, e', v.client);
        R.StepGrows(tun.Client(), w.client, e', v.client);
        R.StepKeepsFlow(tun.Client(), w.client, e', v.client);
      case ServerStep(e') =>
        assert R.Step(tun.Server(), w.server, e', v.server);
        R.StepGrows(tun.Server(), w.server, e', v.server);
        R.StepKeepsFlow(tun.Server(), w.server, e', v.server);
      case _ =>
    }
  }

  lemma StepKeepsOnWire(tun: Tunnel, w: World, e: Event, v: World)
    requires Inv(tun, w) && Step(tun, w, e, v)
    ensures OnWire(v)
  {
    match e {
      case ClientStep(e') => R.StepRecords(tun.Client(), w.client, e', v.client);
      case ServerStep(e') => R.StepRecords(tun.Server(), w.server, e', v.server);
      case _ =>
    }
  }

  lemma SeenPersists(tun: Tunnel, w: World, v: World, x: Bytes)
    requires Grows(w, v)
    ensures FromSomeApp(tun, w, x) ==> FromSomeApp(tun, v, x)
    ensures FromTargetAnywhere(tun, w, x) ==> FromTargetAnywhere(tun, v, x)
  {
    if FromSomeApp(tun, w, x) {
      var p :| FromApp(tun, w, p, x);
      assert FromApp(tun, v, p, x);
    }
    if FromTargetAnywhere(tun, w, x) {
      var j: nat :| FromTarget(tun, w, j, x);
      assert FromTarget(tun, v, j, x);
    }
  }

  lemma StepKeepsSigned(tun: Tunnel, w: World, e: Event, v: World)
    requires tun.Valid() && Inv(tun, w) && Step(tun, w, e, v)
    ensures SignedWasSeen(tun, v)
  {
    StepGrows(tun, w, e, v);
    forall x: Bytes | (tun.key.token, Encode(Datagram(ClientToServer, x))) in v.signed ensures FromSomeApp(tun, v, x) {
      SeenPersists(tun, w, v, x);
      if (tun.key.token, Encode(Datagram(ClientToServer, x))) !in w.signed {
        NewlySigned(tun, w, e, v, Datagram(ClientToServer, x));
        R.StepRecords(tun.Client(), w.client, e.e, v.client);
        assert e.e.pkt == R.Packet(e.e.pkt.src, tun.clientListen, x);
        assert FromApp(tun, v, e.e.pkt.src, x);
      }
    }
    forall x: Bytes | (tun.key.token, Encode(Datagram(ServerToClient, x))) in v.signed
      ensures FromTargetAnywhere(tun, v, x)
    {
      SeenPersists(tun, w, v, x);
      if (tun.key.token, Encode(Datagram(ServerToClient, x))) !in w.signed {
        NewlySigned(tun, w, e, v, Datagram(ServerToClient, x));
        R.StepRecords(tun.Server(), w.server, e.e, v.server);
        assert e.e.pkt == R.Packet(tun.target, w.server.table.all[e.e.i].addr, x);
        assert FromTarget(tun, v, e.e.i, x);
      }
    }
  }

  /** A string under the datagram label gets signed only when a relay seals its very payload. */
  lemma NewlySigned(tun: Tunnel, w: World, e: Event, v: World, x: Input)
    requires Step(tun, w, e, v) && x.Datagram?
    requires (tun.key.token, Encode(x)) in v.signed && (tun.key.token, Encode(x)) !in w.signed
    ensures (e.ClientStep? && e.e.ReadDatagram? && x == Datagram(ClientToServer, e.e.pkt.data))
         || (e.ServerStep? && e.e.PumpReads? && x == Datagram(ServerToClient, e.e.pkt.data))
  {
    match e {
      case ClientStep(e') => Unambiguous(x, Datagram(ClientToServer, e'.pkt.data));
      case ServerStep(e') => Unambiguous(x, Datagram(ServerToClient, e'.pkt.data));
      case Outside(_) =>
      case SignsElsewhere(_, input) => Unambiguous(x, input);
    }
  }

  lemma StepKeepsOpened(tun: Tunnel, w: World, e: Event, v: World)
    requires tun.Valid() && Inv(tun, w) && Step(tun, w, e, v)
    ensures OpenedWasSeen(tun, v)
  {
    StepGrows(tun, w, e, v);
    forall pkt | pkt in v.server.received && pkt.dst == tun.serverListen
        && D.Open(tun.key, ClientToServer, pkt.data).Some?
      ensures FromSomeApp(tun, v, pkt.data[DATAGRAM_OVERHEAD..])
    {
      var x := pkt.data[DATAGRAM_OVERHEAD..];
      if e.ServerStep? { R.StepRecords(tun.Server(), w.server, e.e, v.server); }
      SeenPersists(tun, w, v, x);
    }
    forall pkt | pkt in v.client.received && pkt.dst != tun.clientListen
        && D.Open(tun.key, ServerToClient, pkt.data).Some?
      ensures FromTargetAnywhere(tun, v, pkt.data[DATAGRAM_OVERHEAD..])
    {
      var x := pkt.data[DATAGRAM_OVERHEAD..];
      if e.ClientStep? { R.StepRecords(tun.Client(), w.client, e.e, v.client); }
      SeenPersists(tun, w, v, x);
    }
  }

  lemma StepKeepsGenuine(tun: Tunnel, w: World, e: Event, v: World)
    requires tun.Valid() && Inv(tun, w) && Step(tun, w, e, v)
    ensures Apart(tun, v) && Genuine(tun, v)
  {
    match e {
      case ClientStep(e') =>
        R.StepRecords(tun.Client(), w.client, e', v.client);
        R.StepGrows(tun.Client(), w.client, e', v.client);
      case ServerStep(e') =>
        R.StepRecords(tun.Server(), w.server, e', v.server);
        R.StepGrows(tun.Server(), w.server, e', v.server);
      case _ =>
    }
  }

  lemma StepKeepsInv(tun: Tunnel, w: World, e: Event, v: World)
    requires tun.Valid() && Inv(tun, w) && Step(tun, w, e, v)
    ensures Inv(tun, v)
  {
    StepGrows(tun, w, e, v);
    StepKeepsOnWire(tun, w, e, v);
    StepKeepsSigned(tun, w, e, v);
    StepKeepsOpened(tun, w, e, v);
    StepKeepsGenuine(tun, w, e, v);
  }

  lemma RunsKeepInv(tun: Tunnel, trace: seq<World>, k: nat)
    requires IsTunnelRun(tun, trace) && k < |trace|
    ensures Inv(tun, trace[k])
  {
    forall w, v | Inv(tun, w) && Steps(tun)(w, v) ensures Inv(tun, v) {
      var e :| Step(tun, w, e, v);
      StepKeepsInv(tun, w, e, v);
    }
    Invariance(Init, Steps(tun), w => Inv(tun, w), trace, k);
  }

  // ---- main results ----

  /** Whatever outsiders send and from whatever address they claim to send it, each datagram
      the target gets from a server socket is, byte for byte, one that some application sent
      to the client's listener. */
  lemma TargetGetsOnlyAppPayloads(tun: Tunnel, trace: seq<World>, k: nat, pkt: Packet)
    requires IsTunnelRun(tun, trace) && k < |trace|
    requires pkt in trace[k].server.sent && pkt.src != tun.serverListen
    ensures FromSomeApp(tun, trace[k], pkt.data)
  {
    RunsKeepInv(tun, trace, k);
    var w := trace[k];
    assert R.Explained(tun.Server(), w.server, pkt);
    var i: nat :| R.SentUp(tun.Server(), w.server, pkt, i);
    var d :| R.Packet(w.server.table.all[i].peer, tun.serverListen, d) in w.server.received
             && R.Up(tun.Server(), d) == Some(pkt.data);
    assert FromSomeApp(tun, w, d[DATAGRAM_OVERHEAD..]);
  }

  /** Likewise each datagram an application gets from the client's listener is, byte for byte,
      one that a server socket read from the target. */
  lemma AppsGetOnlyTargetPayloads(tun: Tunnel, trace: seq<World>, k: nat, pkt: Packet)
    requires IsTunnelRun(tun, trace) && k < |trace|
    requires pkt in trace[k].client.sent && pkt.src == tun.clientListen
    ensures FromTargetAnywhere(tun, trace[k], pkt.data)
  {
    RunsKeepInv(tun, trace, k);
    var w := trace[k];
    assert R.Explained(tun.Client(), w.client, pkt);
    var i: nat :| R.SentDown(tun.Client(), w.client, pkt, i);
    var d :| R.Packet(tun.serverListen, w.client.table.all[i].addr, d) in w.client.received
             && R.Down(tun.Client(), d) == Some(pkt.data);
    assert FromTargetAnywhere(tun, w, d[DATAGRAM_OVERHEAD..]);
  }

  /** Server session j was opened by datagrams from client session i's own socket. */
  predicate Joined(w: World, i: nat, j: nat) {
    && i < |w.client.table.all| && j < |w.server.table.all|
    && w.server.table.all[j].peer == w.client.table.all[i].addr
  }

  /** What the target gets on server session j, joined to client session i, is what that one
      application sent, if outsiders cannot use that session's own socket address. */
  lemma RequestsComeFromOneApp(tun: Tunnel, trace: seq<World>, k: nat, pkt: Packet, i: nat, j: nat)
    requires IsTunnelRun(tun, trace) && k < |trace|
    requires Joined(trace[k], i, j) && trace[k].client.table.all[i].addr !in tun.forgeable
    requires pkt in trace[k].server.sent && pkt.src == trace[k].server.table.all[j].addr
    ensures FromApp(tun, trace[k], trace[k].client.table.all[i].peer, pkt.data)
  {
    RunsKeepInv(tun, trace, k);
    var w := trace[k];
    assert R.Explained(tun.Server(), w.server, pkt);
    var l: nat :| R.SentUp(tun.Server(), w.server, pkt, l);
    assert l == j;
    var a := w.client.table.all[i].addr;
    var d :| R.Packet(a, tun.serverListen, d) in w.server.received && R.Up(tun.Server(), d) == Some(pkt.data);
    var carrier := R.Packet(a, tun.serverListen, d);
    assert R.OwnAddr(tun.Client(), w.client, a) && carrier in w.client.sent;
    assert R.Explained(tun.Client(), w.client, carrier);
    var h: nat :| R.SentUp(tun.Client(), w.client, carrier, h);
    assert h == i;
    var x :| R.Packet(w.client.table.all[i].peer, tun.clientListen, x) in w.client.received
             && R.Up(tun.Client(), x) == Some(d);
    D.OpensExactlySealed(tun.key, ClientToServer, d, pkt.data);
    D.OpensExactlySealed(tun.key, ClientToServer, d, x);
  }

  /** If outsiders cannot use the server's listening address, every reply an application gets
      was read, unchanged, on the target socket of a server session joined to one of that
      application's own sessions; and a server session is joined to at most one client session,
      so its replies reach nobody else. */
  lemma RepliesReachOneApp(tun: Tunnel, trace: seq<World>, k: nat, pkt: Packet)
    requires IsTunnelRun(tun, trace) && k < |trace| && tun.serverListen !in tun.forgeable
    requires pkt in trace[k].client.sent && pkt.src == tun.clientListen
    ensures exists i: nat, j: nat ::
      && Joined(trace[k], i, j) && trace[k].client.table.all[i].peer == pkt.dst
      && FromTarget(tun, trace[k], j, pkt.data)
    ensures forall i: nat, h: nat, j: nat :: Joined(trace[k], i, j) && Joined(trace[k], h, j) ==> i == h
  {
    RunsKeepInv(tun, trace, k);
    var w := trace[k];
    assert R.Explained(tun.Client(), w.client, pkt);
    var i: nat :| R.SentDown(tun.Client(), w.client, pkt, i);
    var a := w.client.table.all[i].addr;
    var d :| R.Packet(tun.serverListen, a, d) in w.client.received && R.Down(tun.Client(), d) == Some(pkt.data);
    var carrier := R.Packet(tun.serverListen, a, d);
    assert R.OwnAddr(tun.Server(), w.server, tun.serverListen) && carrier in w.server.sent;
    assert R.Explained(tun.Server(), w.server, carrier);
    var j: nat :| R.SentDown(tun.Server(), w.server, carrier, j);
    var x :| R.Packet(tun.target, w.server.table.all[j].addr, x) in w.server.received
             && R.Down(tun.Server(), x) == Some(d);
    D.OpensExactlySealed(tun.key, ServerToClient, d, pkt.data);
    D.OpensExactlySealed(tun.key, ServerToClient, d, x);
    assert Joined(w, i, j) && FromTarget(tun, w, j, pkt.data);
  }

  // ---- which addresses must be genuine: replies ----

  /** A reply goes only to the application behind whose own session it was read. */
  ghost predicate RepliesRouted(tun: Tunnel, w: World) {
    forall pkt :: pkt in w.client.sent && pkt.src == tun.clientListen ==>
      exists i: nat, j: nat ::
        Joined(w, i, j) && w.client.table.all[i].peer == pkt.dst && FromTarget(tun, w, j, pkt.data)
  }

  lemma Then(tun: Tunnel, trace: seq<World>, e: Event, v: World) returns (longer: seq<World>)
    requires IsTunnelRun(tun, trace) && Step(tun, trace[|trace| - 1], e, v)
    ensures longer == trace + [v] && IsTunnelRun(tun, longer)
  {
    longer := Extend(Init, Steps(tun), trace, v);
  }

  function Idle(table: Table, pumps: seq<R.Pump>, received: set<Packet>, sent: set<Packet>): R.Relay {
    R.Relay(table, R.Reading, pumps, R.Waiting, 0, false, R.Armed, received, sent)
  }

  function Blank(): R.Relay {
    Idle(Table(map[], []), [], {}, {})
  }

  /** Addresses that are none of the tunnel's: two applications, two client sockets, a server socket. */
  function Free(tun: Tunnel): nat { tun.clientListen + tun.serverListen + tun.target + 1 }
  function App(tun: Tunnel): Addr { Free(tun) }
  function OtherApp(tun: Tunnel): Addr { Free(tun) + 1 }
  function Socket(tun: Tunnel): Addr { Free(tun) + 2 }
  function OtherSocket(tun: Tunnel): Addr { Free(tun) + 3 }
  function ServerSocket(tun: Tunnel): Addr { Free(tun) + 4 }

  function UpData(tun: Tunnel): Bytes { D.Seal(tun.key, ClientToServer, []) }
  function DownData(tun: Tunnel): Bytes { D.Seal(tun.key, ServerToClient, []) }
  ghost function SignedUp(tun: Tunnel): (Token, Bytes) { (tun.key.token, Encode(Datagram(ClientToServer, []))) }
  ghost function SignedDown(tun: Tunnel): (Token, Bytes) { (tun.key.token, Encode(Datagram(ServerToClient, []))) }

  function Request(tun: Tunnel): Packet { R.Packet(App(tun), tun.clientListen, []) }
  function Carrier(tun: Tunnel): Packet { R.Packet(Socket(tun), tun.serverListen, UpData(tun)) }
  function Answer(tun: Tunnel): Packet { R.Packet(tun.target, ServerSocket(tun), []) }
  function Back(tun: Tunnel): Packet { R.Packet(tun.serverListen, Socket(tun), DownData(tun)) }
  function Second(tun: Tunnel): Packet { R.Packet(OtherApp(tun), tun.clientListen, []) }
  function Again(tun: Tunnel): Packet { R.Packet(tun.serverListen, OtherSocket(tun), DownData(tun)) }
  function Crossed(tun: Tunnel): Packet { R.Packet(tun.clientListen, OtherApp(tun), []) }

  function ServerTable(tun: Tunnel): Table {
    Table(map[Socket(tun) := 0], [Session(Socket(tun), ServerSocket(tun), 0, false)])
  }
  function OneSession(tun: Tunnel): Table {
    Table(map[App(tun) := 0], [Session(App(tun), Socket(tun), 0, false)])
  }
  function TwoSessions(tun: Tunnel): Table {
    Table(map[App(tun) := 0, OtherApp(tun) := 1],
          [Session(App(tun), Socket(tun), 0, false), Session(OtherApp(tun), OtherSocket(tun), 0, false)])
  }

  /** An application sends an empty datagram to the client and gets a socket. */
  lemma Appeared(tun: Tunnel) returns (trace: seq<World>, w: World)
    requires tun.Valid() && tun.serverListen in tun.forgeable
    ensures IsTunnelRun(tun, trace) && w == trace[|trace| - 1]
    ensures w == World({Request(tun)}, {SignedUp(tun)},
                       Idle(OneSession(tun), [R.Receiving], {Request(tun)}, {})
                         .(reader := R.Found(0, App(tun), UpData(tun))), Blank())
  {
    w := World({}, {}, Blank(), Blank());
    trace := [w];
    w := w.(wire := {Request(tun)});
    trace := Then(tun, trace, Outside(Request(tun)), w);
    w := w.(signed := {SignedUp(tun)},
            client := w.client.(reader := R.Looking(App(tun), UpData(tun)), received := {Request(tun)}));
    trace := Then(tun, trace, ClientStep(R.ReadDatagram(Request(tun))), w);
    w := w.(client := w.client.(table := OneSession(tun), pumps := [R.Receiving],
                                reader := R.Found(0, App(tun), UpData(tun))));
    trace := Then(tun, trace, ClientStep(R.FindSession(Some(Socket(tun)))), w);
  }

  /** The client forwards it from there. */
  lemma Asked(tun: Tunnel) returns (trace: seq<World>, w: World)
    requires tun.Valid() && tun.serverListen in tun.forgeable
    ensures IsTunnelRun(tun, trace) && w == trace[|trace| - 1]
    ensures w == World({Request(tun), Carrier(tun)}, {SignedUp(tun)},
                       Idle(OneSession(tun), [R.Receiving], {Request(tun)}, {Carrier(tun)}), Blank())
  {
    trace, w := Appeared(tun);
    w := w.(client := w.client.(reader := R.Forwarding(0, UpData(tun))));
    trace := Then(tun, trace, ClientStep(R.TouchFound), w);
    w := w.(wire := {Request(tun), Carrier(tun)}, client := w.client.(reader := R.Reading, sent := {Carrier(tun)}));
    trace := Then(tun, trace, ClientStep(R.Forward(true)), w);
  }

  /** The server opens a socket for it, where the target's empty reply arrives. */
  lemma Reached(tun: Tunnel) returns (trace: seq<World>, w: World)
    requires tun.Valid() && tun.serverListen in tun.forgeable
    ensures IsTunnelRun(tun, trace) && w == trace[|trace| - 1]
    ensures w == World({Request(tun), Carrier(tun), Answer(tun)}, {SignedUp(tun)},
                       Idle(OneSession(tun), [R.Receiving], {Request(tun)}, {Carrier(tun)}),
                       Idle(ServerTable(tun), [R.Receiving], {Carrier(tun)}, {})
                         .(reader := R.Found(0, Socket(tun), [])))
  {
    D.OpensExactlySealed(tun.key, ClientToServer, UpData(tun), []);
    trace, w := Asked(tun);
    w := w.(server := w.server.(reader := R.Looking(Socket(tun), []), received := {Carrier(tun)}));
    trace := Then(tun, trace, ServerStep(R.ReadDatagram(Carrier(tun))), w);
    w := w.(server := w.server.(table := ServerTable(tun), pumps := [R.Receiving],
                                reader := R.Found(0, Socket(tun), [])));
    trace := Then(tun, trace, ServerStep(R.FindSession(Some(ServerSocket(tun)))), w);
    w := w.(wire := w.wire + {Answer(tun)});
    trace := Then(tun, trace, Outside(Answer(tun)), w);
  }

  /** The server's pump reads the reply and seals it. */
  lemma Sealed(tun: Tunnel) returns (trace: seq<World>, w: World)
    requires tun.Valid() && tun.serverListen in tun.forgeable
    ensures IsTunnelRun(tun, trace) && w == trace[|trace| - 1]
    ensures w == World({Request(tun), Carrier(tun), Answer(tun)}, {SignedUp(tun), SignedDown(tun)},
                       Idle(OneSession(tun), [R.Receiving], {Request(tun)}, {Carrier(tun)}),
                       Idle(ServerTable(tun), [R.Holding(DownData(tun))], {Carrier(tun), Answer(tun)}, {})
                         .(reader := R.Found(0, Socket(tun), [])))
  {
    trace, w := Reached(tun);
    w := w.(signed := {SignedUp(tun), SignedDown(tun)},
            server := w.server.(pumps := [R.Holding(DownData(tun))], received := {Carrier(tun), Answer(tun)}));
    trace := Then(tun, trace, ServerStep(R.PumpReads(0, Answer(tun))), w);
  }

  /** It sends it back to the first client socket. */
  lemma Answered(tun: Tunnel) returns (trace: seq<World>, w: World)
    requires tun.Valid() && tun.serverListen in tun.forgeable
    ensures IsTunnelRun(tun, trace) && w == trace[|trace| - 1]
    ensures w == World({Request(tun), Carrier(tun), Answer(tun), Back(tun)}, {SignedUp(tun), SignedDown(tun)},
                       Idle(OneSession(tun), [R.Receiving], {Request(tun)}, {Carrier(tun)}),
                       Idle(ServerTable(tun), [R.Receiving], {Carrier(tun), Answer(tun)}, {Back(tun)})
                         .(reader := R.Found(0, Socket(tun), [])))
  {
    trace, w := Sealed(tun);
    w := w.(server := w.server.(pumps := [R.Replying(DownData(tun))]));
    trace := Then(tun, trace, ServerStep(R.PumpTouches(0)), w);
    w := w.(wire := {Request(tun), Carrier(tun), Answer(tun), Back(tun)},
            server := w.server.(pumps := [R.Receiving], sent := {Back(tun)}));
    trace := Then(tun, trace, ServerStep(R.PumpReplies(0, true)), w);
  }

  /** A second application appears, and gets a socket of its own. */
  lemma SecondApp(tun: Tunnel) returns (trace: seq<World>, w: World)
    requires tun.Valid() && tun.serverListen in tun.forgeable
    ensures IsTunnelRun(tun, trace) && w == trace[|trace| - 1]
    ensures w.wire == {Request(tun), Carrier(tun), Answer(tun), Back(tun), Second(tun)} && SignedDown(tun) in w.signed
    ensures w.client == Idle(TwoSessions(tun), [R.Receiving, R.Receiving], {Request(tun), Second(tun)}, {Carrier(tun)})
                        .(reader := R.Found(1, OtherApp(tun), UpData(tun)))
    ensures w.server == Idle(ServerTable(tun), [R.Receiving], {Carrier(tun), Answer(tun)}, {Back(tun)})
                        .(reader := R.Found(0, Socket(tun), []))
  {
    trace, w := Answered(tun);
    w := w.(wire := {Request(tun), Carrier(tun), Answer(tun), Back(tun), Second(tun)});
    trace := Then(tun, trace, Outside(Second(tun)), w);
    w := w.(client := w.client.(reader := R.Looking(OtherApp(tun), UpData(tun)),
                                received := {Request(tun), Second(tun)}));
    trace := Then(tun, trace, ClientStep(R.ReadDatagram(Second(tun))), w);
    w := w.(client := w.client.(table := TwoSessions(tun), pumps := [R.Receiving, R.Receiving],
                                reader := R.Found(1, OtherApp(tun), UpData(tun))));
    trace := Then(tun, trace, ClientStep(R.FindSession(Some(OtherSocket(tun)))), w);
  }

  /** The reply for the first one, repeated towards that socket under the server's address, opens. */
  lemma Repeated(tun: Tunnel) returns (trace: seq<World>, w: World)
    requires tun.Valid() && tun.serverListen in tun.forgeable
    ensures IsTunnelRun(tun, trace) && w == trace[|trace| - 1]
    ensures w.client == Idle(TwoSessions(tun), [R.Receiving, R.Holding([])],
                             {Request(tun), Second(tun), Again(tun)}, {Carrier(tun)})
                        .(reader := R.Found(1, OtherApp(tun), UpData(tun)))
    ensures w.server.table == ServerTable(tun) && Carrier(tun) in w.wire
  {
    D.OpensExactlySealed(tun.key, ServerToClient, DownData(tun), []);
    trace, w := SecondApp(tun);
    w := w.(wire := w.wire + {Again(tun)});
    trace := Then(tun, trace, Outside(Again(tun)), w);
    w := w.(client := w.client.(pumps := [R.Receiving, R.Holding([])],
                                received := {Request(tun), Second(tun), Again(tun)}));
    trace := Then(tun, trace, ClientStep(R.PumpReads(1, Again(tun))), w);
  }

  /** A sealed reply does not name its session. In any tunnel where somebody else can use the
      server's address, the second application can get the reply that was read for the first:
      there is no session of its own with a server session behind it. */
  lemma ReplyCrosses(tun: Tunnel) returns (trace: seq<World>)
    requires tun.Valid() && tun.serverListen in tun.forgeable
    ensures IsTunnelRun(tun, trace) && !RepliesRouted(tun, trace[|trace| - 1])
  {
    var w: World;
    trace, w := Repeated(tun);
    w := w.(client := w.client.(pumps := [R.Receiving, R.Replying([])]));
    trace := Then(tun, trace, ClientStep(R.PumpTouches(1)), w);
    w := w.(wire := w.wire + {Crossed(tun)},
            client := w.client.(pumps := [R.Receiving, R.Receiving], sent := {Carrier(tun), Crossed(tun)}));
    trace := Then(tun, trace, ClientStep(R.PumpReplies(1, true)), w);
    assert Crossed(tun) in w.client.sent;
  }

  /** Replies are routed in every run of a tunnel if and only if outsiders cannot use the
      server's listening address; the sockets' addresses do not matter. */
  lemma RepliesRoutedIff(tun: Tunnel)
    requires tun.Valid()
    ensures (forall trace: seq<World>, k: nat :: IsTunnelRun(tun, trace) && k < |trace|
               ==> RepliesRouted(tun, trace[k]))
            <==> tun.serverListen !in tun.forgeable
  {
    if tun.serverListen in tun.forgeable {
      var trace := ReplyCrosses(tun);
    } else {
      forall trace: seq<World>, k: nat | IsTunnelRun(tun, trace) && k < |trace| ensures RepliesRouted(tun, trace[k]) {
        forall pkt | pkt in trace[k].client.sent && pkt.src == tun.clientListen
          ensures exists i: nat, j: nat ::
            && Joined(trace[k], i, j) && trace[k].client.table.all[i].peer == pkt.dst
            && FromTarget(tun, trace[k], j, pkt.data)
        {
          RepliesReachOneApp(tun, trace, k, pkt);
        }
      }
    }
  }

  // ---- which addresses must be genuine: requests ----

  /** What reaches the target on a session of client socket a comes from that socket's application. */
  ghost predicate RequestsRouted(tun: Tunnel, w: World, a: Addr) {
    forall i: nat, j: nat, pkt ::
      Joined(w, i, j) && w.client.table.all[i].addr == a
      && pkt in w.server.sent && pkt.src == w.server.table.all[j].addr
      ==> FromApp(tun, w, w.client.table.all[i].peer, pkt.data)
  }

  /** An address that the client may get for a socket. */
  predicate Dialable(tun: Tunnel, a: Addr) {
    a !in {tun.clientListen, tun.serverListen, tun.target}
  }

  function Unused(tun: Tunnel, a: Addr): nat { Free(tun) + a }
  function Owner(tun: Tunnel, a: Addr): Addr { Unused(tun, a) + 1 }
  function Stranger(tun: Tunnel, a: Addr): Addr { Unused(tun, a) + 2 }
  function Exit(tun: Tunnel, a: Addr): Addr { Unused(tun, a) + 3 }

  const PAYLOAD: Bytes := [7]

  function Sealed7(tun: Tunnel): Bytes { D.Seal(tun.key, ClientToServer, PAYLOAD) }
  ghost function Signed7(tun: Tunnel): (Token, Bytes) { (tun.key.token, Encode(Datagram(ClientToServer, PAYLOAD))) }
  function FromStranger(tun: Tunnel, a: Addr): Packet { R.Packet(Stranger(tun, a), tun.clientListen, PAYLOAD) }
  function FromOwner(tun: Tunnel, a: Addr): Packet { R.Packet(Owner(tun, a), tun.clientListen, []) }
  function Forged(tun: Tunnel, a: Addr): Packet { R.Packet(a, tun.serverListen, Sealed7(tun)) }
  function Misrouted(tun: Tunnel, a: Addr): Packet { R.Packet(Exit(tun, a), tun.target, PAYLOAD) }
  function OwnerTable(tun: Tunnel, a: Addr): Table {
    Table(map[Owner(tun, a) := 0], [Session(Owner(tun, a), a, 0, false)])
  }
  function ExitTable(tun: Tunnel, a: Addr): Table { Table(map[a := 0], [Session(a, Exit(tun, a), 0, false)]) }

  /** A stranger's datagram is sealed, and gets no further for want of a socket. */
  lemma StrangerSealed(tun: Tunnel, a: Addr) returns (trace: seq<World>, w: World)
    requires tun.Valid() && Dialable(tun, a)
    ensures IsTunnelRun(tun, trace) && w == trace[|trace| - 1]
    ensures w == World({FromStranger(tun, a)}, {Signed7(tun)},
                       Idle(Table(map[], []), [], {FromStranger(tun, a)}, {}), Blank())
  {
    var pkt := FromStranger(tun, a);
    w := World({}, {}, Blank(), Blank());
    trace := [w];
    w := w.(wire := {pkt});
    trace := Then(tun, trace, Outside(pkt), w);
    w := w.(signed := {Signed7(tun)},
            client := w.client.(reader := R.Looking(Stranger(tun, a), Sealed7(tun)), received := {pkt}));
    trace := Then(tun, trace, ClientStep(R.ReadDatagram(pkt)), w);
    w := w.(client := w.client.(reader := R.Reading));
    trace := Then(tun, trace, ClientStep(R.FindSession(None)), w);
  }

  /** Somebody else sends a datagram. */
  lemma OwnerSends(tun: Tunnel, a: Addr) returns (trace: seq<World>, w: World)
    requires tun.Valid() && Dialable(tun, a)
    ensures IsTunnelRun(tun, trace) && w == trace[|trace| - 1]
    ensures w.wire == {FromStranger(tun, a), FromOwner(tun, a)} && Signed7(tun) in w.signed && w.server == Blank()
    ensures w.client == Idle(Table(map[], []), [], w.wire, {}).(reader := R.Looking(Owner(tun, a), UpData(tun)))
  {
    var pkt := FromOwner(tun, a);
    trace, w := StrangerSealed(tun, a);
    w := w.(wire := w.wire + {pkt});
    trace := Then(tun, trace, Outside(pkt), w);
    w := w.(signed := w.signed + {SignedUp(tun)},
            client := w.client.(reader := R.Looking(Owner(tun, a), UpData(tun)), received := w.wire));
    trace := Then(tun, trace, ClientStep(R.ReadDatagram(pkt)), w);
  }

  /** It gets the client socket a. */
  lemma OwnerAppears(tun: Tunnel, a: Addr) returns (trace: seq<World>, w: World)
    requires tun.Valid() && Dialable(tun, a)
    ensures IsTunnelRun(tun, trace) && w == trace[|trace| - 1]
    ensures w.wire == {FromStranger(tun, a), FromOwner(tun, a)} && Signed7(tun) in w.signed && w.server == Blank()
    ensures w.client == Idle(OwnerTable(tun, a), [R.Receiving], w.wire, {})
                        .(reader := R.Found(0, Owner(tun, a), UpData(tun)))
  {
    trace, w := OwnerSends(tun, a);
    w := w.(client := w.client.(table := OwnerTable(tun, a), pumps := [R.Receiving],
                                reader := R.Found(0, Owner(tun, a), UpData(tun))));
    trace := Then(tun, trace, ClientStep(R.FindSession(Some(a))), w);
  }

  /** The stranger's sealed datagram, sent to the server under the address a, opens. */
  lemma ForgedOpens(tun: Tunnel, a: Addr) returns (trace: seq<World>, w: World)
    requires tun.Valid() && Dialable(tun, a) && a in tun.forgeable
    ensures IsTunnelRun(tun, trace) && w == trace[|trace| - 1]
    ensures w.client == Idle(OwnerTable(tun, a), [R.Receiving], {FromStranger(tun, a), FromOwner(tun, a)}, {})
                        .(reader := R.Found(0, Owner(tun, a), UpData(tun)))
    ensures w.server == Idle(ExitTable(tun, a), [R.Receiving], {Forged(tun, a)}, {}).(reader := R.Found(0, a, PAYLOAD))
  {
    D.OpensExactlySealed(tun.key, ClientToServer, Sealed7(tun), PAYLOAD);
    trace, w := OwnerAppears(tun, a);
    w := w.(wire := w.wire + {Forged(tun, a)});
    trace := Then(tun, trace, Outside(Forged(tun, a)), w);
    w := w.(server := w.server.(reader := R.Looking(a, PAYLOAD), received := {Forged(tun, a)}));
    trace := Then(tun, trace, ServerStep(R.ReadDatagram(Forged(tun, a))), w);
    w := w.(server := w.server.(table := ExitTable(tun, a), pumps := [R.Receiving], reader := R.Found(0, a, PAYLOAD)));
    trace := Then(tun, trace, ServerStep(R.FindSession(Some(Exit(tun, a)))), w);
  }

  /** So the target gets on the owner's session what the owner never sent. */
  lemma RequestCrosses(tun: Tunnel, a: Addr) returns (trace: seq<World>)
    requires tun.Valid() && Dialable(tun, a) && a in tun.forgeable
    ensures IsTunnelRun(tun, trace) && !RequestsRouted(tun, trace[|trace| - 1], a)
  {
    var w: World;
    trace, w := ForgedOpens(tun, a);
    w := w.(server := w.server.(reader := R.Forwarding(0, PAYLOAD)));
    trace := Then(tun, trace, ServerStep(R.TouchFound), w);
    w := w.(wire := w.wire + {Misrouted(tun, a)},
            server := w.server.(reader := R.Reading, sent := {Misrouted(tun, a)}));
    trace := Then(tun, trace, ServerStep(R.Forward(true)), w);
    assert Joined(w, 0, 0) && Misrouted(tun, a) in w.server.sent;
    assert !FromApp(tun, w, Owner(tun, a), PAYLOAD);
  }

  /** For each address that can be a client socket's: what the target gets on its sessions comes
      from its own application, in every run, if and only if outsiders cannot use that address. */
  lemma RequestsRoutedIff(tun: Tunnel, a: Addr)
    requires tun.Valid() && Dialable(tun, a)
    ensures (forall trace: seq<World>, k: nat :: IsTunnelRun(tun, trace) && k < |trace|
               ==> RequestsRouted(tun, trace[k], a))
            <==> a !in tun.forgeable
  {
    if a in tun.forgeable {
      var trace := RequestCrosses(tun, a);
    } else {
      forall trace: seq<World>, k: nat | IsTunnelRun(tun, trace) && k < |trace|
        ensures RequestsRouted(tun, trace[k], a)
      {
        forall i: nat, j: nat, pkt | Joined(trace[k], i, j) && trace[k].client.table.all[i].addr == a
            && pkt in trace[k].server.sent && pkt.src == trace[k].server.table.all[j].addr
          ensures FromApp(tun, trace[k], trace[k].client.table.all[i].peer, pkt.data)
        {
          RequestsComeFromOneApp(tun, trace, k, pkt, i, j);
        }
      }
    }
  }
}
