/** The server's data side (internal/transport/server.go): any number of connections, raw,
    multiplexed by smux, or QUIC, and the streams on them, over the handshakes of Agreement.
    Nothing is dialled for a peer that has not been authenticated. */
module Gate {
  import opened Bytes
  import opened Mac
  import opened Streams
  import opened Handshake
  import A = Agreement
  import Control
  import Runs

  const QUIC_STREAM_MARKER: byte := 1

  datatype Kind = Raw | Smux | Quic

  /** run: the server run of the handshake on this very connection (for QUIC: on its first
      stream), once it has read a nonce. */
  datatype Conn = Conn(kind: Kind, run: Option<nat>, phase: ConnPhase)
  datatype ConnPhase = Shaking | Serving | Gone

  datatype StreamPhase = AwaitsMarker | ToDial | Relaying | Ended

  /** sent: what the client has written on the stream after the handshake; read: how much of it
      the server has read; relayed: what the server has passed on to the target. */
  datatype Stream = Stream(conn: nat, phase: StreamPhase, sent: Bytes, read: nat, relayed: Bytes)

  /** One attempt to dial the target, at a moment of the handshakes' clock. */
  datatype Dial = Dial(stream: nat, at: nat)

  datatype State = State(h: A.State, conns: seq<Conn>, streams: seq<Stream>, dials: seq<Dial>)

  datatype Event =
    | ConnArrives(kind: Kind)
    | Handshakes(e: A.Event)
    | ReadsNonce(c: nat, e: A.Event)
    | Admits(c: nat)
    | Drops(c: nat)
    | StreamOpens(c: nat)
    | ClientWrites(t: nat, data: Bytes)
    | ReadsMarker(t: nat)
    | DialsTarget(t: nat, ok: bool)
    | Relays(t: nat, n: nat)
    | StreamEnds(t: nat)

  ghost predicate Init(s: State) {
    A.Init(s.h) && s.conns == [] && s.streams == [] && s.dials == []
  }

  ghost predicate Enabled(m: A.Params, s: State, e: Event) {
    match e
    case ConnArrives(_) => true
    case Handshakes(e) => A.Enabled(m, s.h, e)
    case ReadsNonce(c, e) =>
      && c < |s.conns| && s.conns[c].phase == Shaking && s.conns[c].run.None?
      && e.ServerReplies? && A.Enabled(m, s.h, e)
    case Admits(c) =>
      && c < |s.conns| && s.conns[c].phase == Shaking && s.conns[c].run.Some?
      && s.conns[c].run.value < |s.h.servers| && s.h.servers[s.conns[c].run.value].acceptedAt.Some?
    case Drops(c) => c < |s.conns|
    case StreamOpens(c) => c < |s.conns| && s.conns[c].phase == Serving && s.conns[c].kind != Raw
    case ClientWrites(t, _) => t < |s.streams|
    case ReadsMarker(t) => t < |s.streams| && s.streams[t].phase == AwaitsMarker
    case DialsTarget(t, _) => t < |s.streams| && s.streams[t].phase == ToDial
    case Relays(t, n) =>
      t < |s.streams| && s.streams[t].phase == Relaying && s.streams[t].read + n <= |s.streams[t].sent|
    case StreamEnds(t) => t < |s.streams|
  }

  /** A new stream on connection c: QUIC streams must show their marker first. */
  function NewStream(s: State, c: nat): Stream
    requires c < |s.conns|
  {
    Stream(c, if s.conns[c].kind == Quic then AwaitsMarker else ToDial, [], 0, [])
  }

  ghost function Apply(m: A.Params, s: State, e: Event): State
    requires Enabled(m, s, e)
  {
    match e
    case ConnArrives(kind) => s.(conns := s.conns + [Conn(kind, None, Shaking)])
    case Handshakes(e) => s.(h := A.Apply(m, s.h, e))
    case ReadsNonce(c, e) =>
      s.(h := A.Apply(m, s.h, e), conns := s.conns[c := s.conns[c].(run := Some(|s.h.servers|))])
    case Admits(c) =>
      var t := s.(conns := s.conns[c := s.conns[c].(phase := Serving)]);
      if s.conns[c].kind == Raw then t.(streams := s.streams + [NewStream(s, c)]) else t
    case Drops(c) => s.(conns := s.conns[c := s.conns[c].(phase := Gone)])
    case StreamOpens(c) => s.(streams := s.streams + [NewStream(s, c)])
    case ClientWrites(t, data) =>
      s.(streams := s.streams[t := s.streams[t].(sent := s.streams[t].sent + data)])
    case ReadsMarker(t) =>
      var r := s.streams[t];
      s.(streams := s.streams[t :=
        if r.sent != [] && r.sent[0] == QUIC_STREAM_MARKER then r.(phase := ToDial, read := 1)
        else r.(phase := Ended)])
    case DialsTarget(t, ok) =>
      s.(streams := s.streams[t := s.streams[t].(phase := if ok then Relaying else Ended)],
         dials := s.dials + [Dial(t, s.h.now)])
    case Relays(t, n) =>
      var r := s.streams[t];
      s.(streams := s.streams[t := r.(read := r.read + n, relayed := r.relayed + r.sent[r.read..r.read + n])])
    case StreamEnds(t) => s.(streams := s.streams[t := s.streams[t].(phase := Ended)])
  }

  ghost predicate Step(m: A.Params, s: State, e: Event, t: State) {
    Enabled(m, s, e) && t == Apply(m, s, e)
  }

  ghost predicate Next(m: A.Params, s: State, t: State) {
    exists e :: Step(m, s, e, t)
  }

  ghost function Steps(m: A.Params): (State, State) -> bool {
    (s, t) => Next(m, s, t)
  }

  ghost predicate IsRun(m: A.Params, trace: seq<State>) {
    Runs.IsRun(Init, Steps(m), trace)
  }

  // ---- the invariant ----

  /** The handshake on connection c succeeded before time `before`. */
  ghost predicate Admitted(s: State, c: nat, before: nat) {
    && c < |s.conns| && s.conns[c].run.Some? && s.conns[c].run.value < |s.h.servers|
    && s.h.servers[s.conns[c].run.value].acceptedAt.Some?
    && s.h.servers[s.conns[c].run.value].acceptedAt.value < before
  }

  /** How many bytes of the stream are not for the target. */
  function Skipped(s: State, t: nat): nat
    requires t < |s.streams| && s.streams[t].conn < |s.conns|
  {
    if s.conns[s.streams[t].conn].kind == Quic then 1 else 0
  }

  /** What has been relayed is what has been read behind the first skip bytes. */
  predicate Sound(r: Stream, skip: nat) {
    && r.read <= |r.sent| && skip <= 1
    && (r.phase == AwaitsMarker ==> skip == 1 && r.read == 0)
    && (r.phase in {ToDial, Relaying} ==> skip <= r.read)
    && (r.read < skip ==> r.relayed == [])
    && (skip <= r.read ==> r.relayed == r.sent[skip..r.read])
    && (skip == 1 <= r.read ==> r.sent[0] == QUIC_STREAM_MARKER)
  }

  predicate StreamOk(s: State, t: nat)
    requires t < |s.streams| && s.streams[t].conn < |s.conns|
  {
    Sound(s.streams[t], Skipped(s, t))
  }

  ghost predicate Inv(m: A.Params, s: State) {
    A.Inv(m, s.h) && Gated(s)
  }

  ghost predicate Gated(s: State) {
    && (forall c :: 0 <= c < |s.conns| && s.conns[c].run.Some? ==> s.conns[c].run.value < |s.h.servers|)
    && (forall c :: 0 <= c < |s.conns| && s.conns[c].phase == Serving ==> Admitted(s, c, s.h.now))
    && (forall t :: 0 <= t < |s.streams| ==> Admitted(s, s.streams[t].conn, s.h.now) && StreamOk(s, t))
    && (forall d :: 0 <= d < |s.dials| ==>
          s.dials[d].stream < |s.streams| && Admitted(s, s.streams[s.dials[d].stream].conn, s.dials[d].at))
    && RunsApart(s)
  }

  /** No two connections share a handshake. */
  predicate RunsApart(s: State) {
    forall b, c :: 0 <= b < c < |s.conns| && s.conns[b].run.Some? ==> s.conns[b].run != s.conns[c].run
  }

  /** Connections keep their kind and their run, streams their connection. */
  ghost predicate Grows(s: State, t: State) {
    && A.Extends(s.h, t.h) && s.h.now <= t.h.now
    && |s.conns| <= |t.conns| && |s.streams| <= |t.streams|
    && (forall c :: 0 <= c < |s.conns| ==>
          t.conns[c].kind == s.conns[c].kind && (s.conns[c].run.Some? ==> t.conns[c].run == s.conns[c].run))
    && (forall u :: 0 <= u < |s.streams| ==> t.streams[u].conn == s.streams[u].conn)
  }

  lemma ConnsGrow(m: A.Params, s: State, e: Event, t: State)
    requires Step(m, s, e, t)
    ensures |s.conns| <= |t.conns|
    ensures forall c :: 0 <= c < |s.conns| ==>
      t.conns[c].kind == s.conns[c].kind && (s.conns[c].run.Some? ==> t.conns[c].run == s.conns[c].run)
  {
  }

  lemma StreamsGrow(m: A.Params, s: State, e: Event, t: State)
    requires Step(m, s, e, t)
    ensures |s.streams| <= |t.streams|
    ensures forall u :: 0 <= u < |s.streams| ==> t.streams[u].conn == s.streams[u].conn
  {
  }

  lemma StepGrows(m: A.Params, s: State, e: Event, t: State)
    requires A.Inv(m, s.h) && Step(m, s, e, t)
    ensures Grows(s, t) && A.Inv(m, t.h)
  {
    if e.Handshakes? || e.ReadsNonce? {
      A.StepExtends(m, s.h, e.e, t.h);
      A.StepShape(m, s.h, e.e, t.h);
      A.StepKeepsInv(m, s.h, e.e, t.h);
    }
    ConnsGrow(m, s, e, t);
    StreamsGrow(m, s, e, t);
  }

  lemma AdmittedPersists(s: State, t: State, c: nat, before: nat)
    requires Grows(s, t) && Admitted(s, c, before)
    ensures Admitted(t, c, before)
  {
    assert A.ServerExtends(s.h.servers[s.conns[c].run.value], t.h.servers[s.conns[c].run.value]);
  }

  lemma WritingIsSound(r: Stream, skip: nat, data: Bytes)
    requires Sound(r, skip)
    ensures Sound(r.(sent := r.sent + data), skip)
  {
    assert skip <= r.read ==> (r.sent + data)[skip..r.read] == r.sent[skip..r.read];
  }

  lemma RelayingIsSound(r: Stream, skip: nat, n: nat)
    requires Sound(r, skip) && skip <= r.read && r.read + n <= |r.sent|
    ensures Sound(r.(read := r.read + n, relayed := r.relayed + r.sent[r.read..r.read + n]), skip)
  {
    assert r.sent[skip..r.read] + r.sent[r.read..r.read + n] == r.sent[skip..r.read + n];
  }

  lemma MarkingIsSound(r: Stream)
    requires Sound(r, 1) && r.phase == AwaitsMarker
    ensures r.sent != [] && r.sent[0] == QUIC_STREAM_MARKER ==> Sound(r.(phase := ToDial, read := 1), 1)
    ensures Sound(r.(phase := Ended), 1)
  {
  }

  /** What a step does to one stream. */
  predicate StreamMoves(r: Stream, r': Stream, e: Event) {
    || r' == r
    || (e.ClientWrites? && r' == r.(sent := r.sent + e.data))
    || (e.ReadsMarker? && r.phase == AwaitsMarker
        && r' == if r.sent != [] && r.sent[0] == QUIC_STREAM_MARKER
            then r.(phase := ToDial, read := 1) else r.(phase := Ended))
    || (e.DialsTarget? && r.phase == ToDial && r' == r.(phase := if e.ok then Relaying else Ended))
    || (e.Relays? && r.phase == Relaying && r.read + e.n <= |r.sent|
        && r' == r.(read := r.read + e.n, relayed := r.relayed + r.sent[r.read..r.read + e.n]))
    || (e.StreamEnds? && r' == r.(phase := Ended))
  }

  lemma MovingIsSound(r: Stream, r': Stream, e: Event, skip: nat)
    requires Sound(r, skip) && StreamMoves(r, r', e)
    ensures Sound(r', skip)
  {
    match e {
      case ClientWrites(_, data) => WritingIsSound(r, skip, data);
      case Relays(_, n) => if r.phase == Relaying && r.read + n <= |r.sent| { RelayingIsSound(r, skip, n); }
      case ReadsMarker(_) => if r.phase == AwaitsMarker { MarkingIsSound(r); }
      case _ =>
    }
  }

  lemma StepMovesStream(m: A.Params, s: State, e: Event, t: State, u: nat)
    requires Step(m, s, e, t)
    ensures u < |s.streams| ==> u < |t.streams| && StreamMoves(s.streams[u], t.streams[u], e)
  {
  }

  lemma NewStreamIsSound(m: A.Params, s: State, e: Event, t: State, u: nat)
    requires Step(m, s, e, t) && |s.streams| <= u < |t.streams| && |s.conns| <= |t.conns|
    requires forall c :: 0 <= c < |s.conns| ==> t.conns[c].kind == s.conns[c].kind
    requires t.streams[u].conn < |t.conns|
    ensures StreamOk(t, u)
  {
  }

  lemma StepKeepsStream(m: A.Params, s: State, e: Event, t: State, u: nat)
    requires Gated(s) && Step(m, s, e, t) && Grows(s, t) && u < |t.streams|
    requires t.streams[u].conn < |t.conns|
    ensures StreamOk(t, u)
  {
    if u < |s.streams| {
      assert StreamOk(s, u) && Skipped(t, u) == Skipped(s, u);
      StepMovesStream(m, s, e, t, u);
      MovingIsSound(s.streams[u], t.streams[u], e, Skipped(s, u));
    } else {
      NewStreamIsSound(m, s, e, t, u);
    }
  }

  lemma StepKeepsRuns(m: A.Params, s: State, e: Event, t: State)
    requires Inv(m, s) && Step(m, s, e, t)
    ensures RunsApart(t)
    ensures forall c :: 0 <= c < |t.conns| && t.conns[c].run.Some? ==> t.conns[c].run.value < |t.h.servers|
  {
    if e.Handshakes? { A.StepExtends(m, s.h, e.e, t.h); }
  }

  lemma ServingStaysAdmitted(m: A.Params, s: State, e: Event, t: State, c: nat)
    requires Gated(s) && A.Past(s.h) && Step(m, s, e, t) && Grows(s, t)
    requires c < |t.conns| && t.conns[c].phase == Serving
    ensures Admitted(t, c, t.h.now)
  {
    if s.conns[c].phase == Serving { AdmittedPersists(s, t, c, s.h.now); }
  }

  lemma StreamStaysAdmitted(m: A.Params, s: State, e: Event, t: State, u: nat)
    requires Gated(s) && A.Past(s.h) && Step(m, s, e, t) && Grows(s, t)
    requires u < |t.streams|
    ensures Admitted(t, t.streams[u].conn, t.h.now)
  {
    if u < |s.streams| {
      AdmittedPersists(s, t, s.streams[u].conn, s.h.now);
    } else {
      ServingStaysAdmitted(m, s, e, t, t.streams[u].conn);
    }
  }

  lemma DialStaysAdmitted(m: A.Params, s: State, e: Event, t: State, d: nat)
    requires Gated(s) && Step(m, s, e, t) && Grows(s, t)
    requires d < |t.dials|
    ensures t.dials[d].stream < |t.streams| && Admitted(t, t.streams[t.dials[d].stream].conn, t.dials[d].at)
  {
    var u := t.dials[d].stream;
    AdmittedPersists(s, t, s.streams[u].conn, if d < |s.dials| then s.dials[d].at else s.h.now);
  }

  lemma StepKeepsInv(m: A.Params, s: State, e: Event, t: State)
    requires Inv(m, s) && Step(m, s, e, t)
    ensures Inv(m, t)
  {
    StepGrows(m, s, e, t);
    StepKeepsRuns(m, s, e, t);
    forall c | 0 <= c < |t.conns| && t.conns[c].phase == Serving ensures Admitted(t, c, t.h.now) {
      ServingStaysAdmitted(m, s, e, t, c);
    }
    forall u | 0 <= u < |t.streams|
        ensures Admitted(t, t.streams[u].conn, t.h.now) { StreamStaysAdmitted(m, s, e, t, u); }
    forall d | 0 <= d < |t.dials|
      ensures t.dials[d].stream < |t.streams| && Admitted(t, t.streams[t.dials[d].stream].conn, t.dials[d].at)
    {
      DialStaysAdmitted(m, s, e, t, d);
    }
    forall u | 0 <= u < |t.streams| ensures StreamOk(t, u) { StepKeepsStream(m, s, e, t, u); }
  }

  lemma RunsKeepInv(m: A.Params, trace: seq<State>, k: nat)
    requires IsRun(m, trace) && k < |trace|
    ensures Inv(m, trace[k])
  {
    forall s, t | Inv(m, s) && Steps(m)(s, t) ensures Inv(m, t) {
      var e :| Step(m, s, e, t);
      StepKeepsInv(m, s, e, t);
    }
    Runs.Invariance(Init, Steps(m), s => Inv(m, s), trace, k);
  }

  // ---- main results ----

  /** Every dial of the target, ever, was made for a stream of a connection whose own handshake
      had succeeded before, and behind that handshake stands exactly one genuine client run,
      which no other connection shares. */
  lemma DialsAreGated(m: A.Params, trace: seq<State>, k: nat, d: nat)
    requires IsRun(m, trace) && k < |trace| && d < |trace[k].dials|
    ensures trace[k].dials[d].stream < |trace[k].streams|
    ensures
      var s := trace[k];
      var c := s.streams[s.dials[d].stream].conn;
      && Admitted(s, c, s.dials[d].at)
      && (exists client :: A.AcceptedBy(s.h, client, s.conns[c].run.value))
      && (forall b, client :: (0 <= b < |s.conns| && s.conns[b].run.Some?
            && A.Partners(s.h, client, s.conns[b].run.value) && A.Partners(s.h, client, s.conns[c].run.value))
                ==> b == c)
  {
    RunsKeepInv(m, trace, k);
    var s := trace[k];
    var c := s.streams[s.dials[d].stream].conn;
    assert Admitted(s, c, s.dials[d].at);
    forall b, client | 0 <= b < |s.conns| && s.conns[b].run.Some?
        && A.Partners(s.h, client, s.conns[b].run.value) && A.Partners(s.h, client, s.conns[c].run.value)
      ensures b == c
    {
      A.PartnersUnique(s.h, client, s.conns[b].run.value, client, s.conns[c].run.value);
    }
  }

  /** What is relayed of a stream is a prefix of what the client wrote on it; of a QUIC stream,
      of what the client wrote after one marker byte, which is never passed on. */
  lemma RelayedIsWhatWasWritten(m: A.Params, trace: seq<State>, k: nat, t: nat)
    requires IsRun(m, trace) && k < |trace|
    requires t < |trace[k].streams| && trace[k].streams[t].relayed != []
    ensures trace[k].streams[t].conn < |trace[k].conns|
    ensures
      var s := trace[k];
      var r := s.streams[t];
      if s.conns[r.conn].kind == Quic
      then r.sent != [] && r.sent[0] == QUIC_STREAM_MARKER && r.relayed <= r.sent[1..]
      else r.relayed <= r.sent
  {
    RunsKeepInv(m, trace, k);
    assert StreamOk(trace[k], t);
  }

  // ---- the handlers themselves ----

  datatype Effect = CloseConn | CloseSession | CloseStream | DialTarget | PipeToTarget

  /** handleStream: dial, then relay or close. */
  function StreamEffects(dials: bool): seq<Effect> {
    if dials then [DialTarget, PipeToTarget] else [DialTarget, CloseStream]
  }

  method HandleStream(dials: bool) returns (log: seq<Effect>)
    ensures log == StreamEffects(dials)
  {
    log := [DialTarget];
    if !dials {
      log := log + [CloseStream];
      return;
    }
    log := log + [PipeToTarget];
  }

  function AllStreams(dials: seq<bool>): seq<Effect> {
    if dials == [] then [] else StreamEffects(dials[0]) + AllStreams(dials[1..])
  }

  /** The loop of handleConn over the streams of a smux session. */
  method HandleStreams(dials: seq<bool>) returns (log: seq<Effect>)
    ensures log == AllStreams(dials)
  {
    log := [];
    for k := 0 to |dials|
      invariant log + AllStreams(dials[k..]) == AllStreams(dials)
    {
      assert dials[k..][0] == dials[k] && dials[k..][1..] == dials[k + 1..];
      var effects := HandleStream(dials[k]);
      log := log + effects;
    }
  }

  /** What handleConn does after a handshake with result r: mux says whether the protocol is
      multiplexed, muxStarts whether smux starts, dials, for each stream that is accepted,
      whether the target can be dialled. */
  function ConnLog(r: Result<Channel>, mux: bool, muxStarts: bool, dials: seq<bool>): seq<Effect>
    requires !mux ==> |dials| == 1
  {
    if r.Err? || (mux && !muxStarts) then [CloseConn]
    else if !mux then StreamEffects(dials[0]) else AllStreams(dials) + [CloseSession]
  }

  /** handleConn on a connection. The target is not touched unless the bytes of this connection
      are a complete and correct handshake, whose 64 bytes are all that is consumed. */
  method HandleConn(conn: Streams.Conn, mac: Hmac, token: Token, nonce: Option<Nonce>, mux: bool,
      muxStarts: bool, dials: seq<bool>)
    returns (log: seq<Effect>)
    requires !mux ==> |dials| == 1
    modifies conn
    ensures conn.Abs() == ServerSpec(mac, token, nonce, old(conn.Abs())).1
    ensures log == ConnLog(ServerSpec(mac, token, nonce, old(conn.Abs())).0, mux, muxStarts, dials)
  {
    var r := ServerHandshake(conn, mac, token, nonce);
    if r.Err? { return [CloseConn]; }
    if !mux {
      log := HandleStream(dials[0]);
      return;
    }
    if !muxStarts { return [CloseConn]; }
    log := HandleStreams(dials);
    log := log + [CloseSession];
  }

  predicate IsMarked(v: View) {
    v.input != [] && v.input[0] == QUIC_STREAM_MARKER
  }

  /** What handleQUICStream does with a stream that brings v. */
  function QuicStreamLog(v: View, dials: bool): seq<Effect> {
    if IsMarked(v) then StreamEffects(dials) else [CloseStream]
  }

  /** handleQUICStream: one byte is consumed, and only the marker opens the way. */
  method HandleQuicStream(st: Streams.Conn, dials: bool) returns (log: seq<Effect>)
    modifies st
    ensures log == QuicStreamLog(old(st.Abs()), dials)
    ensures st.Abs() == Taken(old(st.Abs()), 1).1
  {
    var marker := st.ReadFull(1);
    if marker.None? || marker.value[0] != QUIC_STREAM_MARKER { return [CloseStream]; }
    log := HandleStream(dials);
  }

  function QuicStreamsLog(views: seq<View>, dials: seq<bool>): seq<Effect>
    requires |views| == |dials|
  {
    if views == [] then [] else QuicStreamLog(views[0], dials[0]) + QuicStreamsLog(views[1..], dials[1..])
  }

  /** What serveQUICConn does: first is what the first stream brings, if there is one, and the
      views are what the later streams bring. */
  function QuicLog(mac: Hmac, token: Token, nonce: Option<Nonce>, first: Option<View>, views: seq<View>,
      dials: seq<bool>): seq<Effect>
    requires |views| == |dials|
  {
    if first.None? || ServerSpec(mac, token, nonce, first.value).0.Err? then [CloseConn]
    else [CloseStream] + QuicStreamsLog(views, dials) + [CloseConn]
  }

  /** The streams, all different, bring what the views say. */
  ghost predicate Bring(streams: seq<Streams.Conn>, views: seq<View>)
    reads streams
  {
    && |streams| == |views|
    && (forall k :: 0 <= k < |streams| ==> streams[k].Abs() == views[k])
    && (forall j, k :: 0 <= j < k < |streams| ==> streams[j] != streams[k])
  }

  lemma OneMoreStream(log: seq<Effect>, views: seq<View>, dials: seq<bool>, k: nat)
    requires k < |views| == |dials|
    ensures log + QuicStreamsLog(views[k..], dials[k..]) ==
            (log + QuicStreamLog(views[k], dials[k])) + QuicStreamsLog(views[k + 1..], dials[k + 1..])
  {
    assert views[k..][0] == views[k] && views[k..][1..] == views[k + 1..];
    assert dials[k..][0] == dials[k] && dials[k..][1..] == dials[k + 1..];
  }

  /** The loop of serveQUICConn. */
  method HandleQuicStreams(streams: seq<Streams.Conn>, dials: seq<bool>, ghost views: seq<View>)
    returns (log: seq<Effect>)
    requires |dials| == |views| && Bring(streams, views)
    modifies streams
    ensures log == QuicStreamsLog(views, dials)
  {
    log := [];
    for k := 0 to |streams|
      invariant log + QuicStreamsLog(views[k..], dials[k..]) == QuicStreamsLog(views, dials)
      invariant forall j :: k <= j < |streams| ==> streams[j].Abs() == views[j]
    {
      OneMoreStream(log, views, dials, k);
      var effects := HandleQuicStream(streams[k], dials[k]);
      log := log + effects;
    }
  }

  /** serveQUICConn: the first stream authenticates the connection, and only then is any other
      stream taken. */
  method ServeQuicConn(first: Streams.Conn?, mac: Hmac, token: Token, nonce: Option<Nonce>,
      streams: seq<Streams.Conn>, dials: seq<bool>, ghost views: seq<View>)
    returns (log: seq<Effect>)
    requires |dials| == |views| && Bring(streams, views) && first !in streams
    modifies first, streams
    ensures log == QuicLog(mac, token, nonce, if first == null then None else Some(old(first.Abs())), views, dials)
    ensures log == [CloseConn] ==> Bring(streams, views)
  {
    if first == null { return [CloseConn]; }
    var r := ServerHandshake(first, mac, token, nonce);
    if r.Err? { return [CloseConn]; }
    assert Bring(streams, views);
    log := HandleQuicStreams(streams, dials, views);
    log := [CloseStream] + log + [CloseConn];
  }

  // ---- what a log says ----

  /** For each dial in a log, in order, whether the stream was relayed at once. */
  function DialsOf(log: seq<Effect>): seq<bool> {
    if log == [] then []
    else (if log[0] == DialTarget then [|log| > 1 && log[1] == PipeToTarget] else []) + DialsOf(log[1..])
  }

  predicate OrderlyAt(log: seq<Effect>, i: nat)
    requires i < |log|
  {
    && (log[i] == DialTarget ==> i + 1 < |log| && (log[i + 1] == PipeToTarget || log[i + 1] == CloseStream))
    && (log[i] == PipeToTarget ==> i > 0 && log[i - 1] == DialTarget)
  }

  /** A stream is relayed or closed right after its dial, and relayed at no other time. */
  predicate Orderly(log: seq<Effect>) {
    forall i :: 0 <= i < |log| ==> OrderlyAt(log, i)
  }

  lemma {:induction false} DialsOfAppend(a: seq<Effect>, b: seq<Effect>)
    requires a != [] ==> a[|a| - 1] != DialTarget
    ensures DialsOf(a + b) == DialsOf(a) + DialsOf(b)
  {
    if a == [] {
      assert a + b == b;
    } else {
      assert (a + b)[1..] == a[1..] + b;
      DialsOfAppend(a[1..], b);
    }
  }

  lemma OrderlyAppend(a: seq<Effect>, b: seq<Effect>)
    requires Orderly(a) && Orderly(b)
    ensures Orderly(a + b)
  {
    var c := a + b;
    forall i | 0 <= i < |c| ensures OrderlyAt(c, i) {
      if i < |a| {
        assert OrderlyAt(a, i) && c[i] == a[i];
        assert i + 1 < |a| ==> c[i + 1] == a[i + 1];
      } else {
        assert OrderlyAt(b, i - |a|) && c[i] == b[i - |a|];
        assert i + 1 < |c| ==> c[i + 1] == b[i + 1 - |a|];
        assert i > |a| ==> c[i - 1] == b[i - 1 - |a|];
      }
    }
  }

  /** A log that ends what it begins, and what it says. */
  predicate Says(log: seq<Effect>, dials: seq<bool>) {
    Orderly(log) && (log != [] ==> log[|log| - 1] != DialTarget) && DialsOf(log) == dials
  }

  lemma SaysAppend(a: seq<Effect>, b: seq<Effect>, p: seq<bool>, q: seq<bool>)
    requires Says(a, p) && Says(b, q)
    ensures Says(a + b, p + q)
  {
    DialsOfAppend(a, b);
    OrderlyAppend(a, b);
  }

  lemma StreamSays(dials: bool)
    ensures Says(StreamEffects(dials), [dials])
  {
    var log := StreamEffects(dials);
    assert log[1..] == [log[1]];
    assert [log[1]][1..] == [] && DialsOf([log[1]]) == [] + DialsOf([]);
    assert DialsOf(log) == [dials] + DialsOf([log[1]]);
  }

  lemma ClosingSays(e: Effect)
    requires e != DialTarget && e != PipeToTarget
    ensures Says([e], [])
  {
    assert [e][1..] == [];
  }

  lemma {:induction false} AllStreamsSay(dials: seq<bool>)
    ensures Says(AllStreams(dials), dials)
  {
    if dials != [] {
      StreamSays(dials[0]);
      AllStreamsSay(dials[1..]);
      SaysAppend(StreamEffects(dials[0]), AllStreams(dials[1..]), [dials[0]], dials[1..]);
      assert dials == [dials[0]] + dials[1..];
    }
  }

  /** Of the streams that begin with the marker, whether the target can be dialled. */
  function Opened(views: seq<View>, dials: seq<bool>): seq<bool>
    requires |views| == |dials|
  {
    if views == [] then [] else (if IsMarked(views[0]) then [dials[0]] else []) + Opened(views[1..], dials[1..])
  }

  lemma QuicStreamSays(v: View, dials: bool)
    ensures Says(QuicStreamLog(v, dials), if IsMarked(v) then [dials] else [])
  {
    StreamSays(dials);
    ClosingSays(CloseStream);
  }

  lemma {:induction false} QuicStreamsSay(views: seq<View>, dials: seq<bool>)
    requires |views| == |dials|
    ensures Says(QuicStreamsLog(views, dials), Opened(views, dials))
  {
    if views != [] {
      QuicStreamSays(views[0], dials[0]);
      QuicStreamsSay(views[1..], dials[1..]);
      SaysAppend(QuicStreamLog(views[0], dials[0]), QuicStreamsLog(views[1..], dials[1..]),
                 if IsMarked(views[0]) then [dials[0]] else [], Opened(views[1..], dials[1..]));
    }
  }

  lemma ConnLogSays(r: Result<Channel>, mux: bool, muxStarts: bool, dials: seq<bool>)
    requires !mux ==> |dials| == 1
    ensures Says(ConnLog(r, mux, muxStarts, dials), if r.Ok? && (mux ==> muxStarts) then dials else [])
  {
    ClosingSays(CloseConn);
    ClosingSays(CloseSession);
    if mux {
      AllStreamsSay(dials);
      SaysAppend(AllStreams(dials), [CloseSession], dials, []);
      assert dials + [] == dials;
    } else {
      StreamSays(dials[0]);
      assert dials == [dials[0]];
    }
  }

  lemma QuicLogSays(mac: Hmac, token: Token, nonce: Option<Nonce>, first: Option<View>, views: seq<View>,
      dials: seq<bool>)
    requires |views| == |dials|
    ensures Says(QuicLog(mac, token, nonce, first, views, dials),
                 if first.Some? && ServerSpec(mac, token, nonce, first.value).0.Ok? then Opened(views, dials) else [])
  {
    ClosingSays(CloseConn);
    ClosingSays(CloseStream);
    QuicStreamsSay(views, dials);
    var log, marked := QuicStreamsLog(views, dials), Opened(views, dials);
    SaysAppend([CloseStream], log, [], marked);
    SaysAppend([CloseStream] + log, [CloseConn], [] + marked, []);
    assert [] + marked + [] == marked;
  }

  /** handleConn dials exactly when the connection's bytes start with some nonce and the proof
      for it and the server's own nonce: then once for each stream, in order, and the stream is
      relayed right after the dial if it succeeds and closed if not. Otherwise nothing is
      dialled and nothing relayed. */
  lemma ConnDialsExactly(mac: Hmac, token: Token, nonce: Option<Nonce>, v: View, mux: bool, muxStarts: bool,
      dials: seq<bool>, log: seq<Effect>)
    requires !mux ==> |dials| == 1
    requires log == ConnLog(ServerSpec(mac, token, nonce, v).0, mux, muxStarts, dials)
    ensures Orderly(log)
    ensures DialsOf(log) ==
      if nonce.Some? && v.writes > 0 && |v.input| >= 64
         && v.input[32..64] == Proof(mac, token, v.input[..32], nonce.value) && (mux ==> muxStarts)
      then dials else []
  {
    ServerAcceptsExactly(mac, token, nonce, v);
    ConnLogSays(ServerSpec(mac, token, nonce, v).0, mux, muxStarts, dials);
  }

  /** serveQUICConn dials exactly when the connection's first stream brings a complete and
      correct handshake: then once for each later stream that starts with the marker, and the
      stream is relayed right after the dial if it succeeds and closed if not. */
  lemma QuicConnDialsExactly(mac: Hmac, token: Token, nonce: Option<Nonce>, first: Option<View>, views: seq<View>,
      dials: seq<bool>)
    requires |views| == |dials|
    ensures Orderly(QuicLog(mac, token, nonce, first, views, dials))
    ensures DialsOf(QuicLog(mac, token, nonce, first, views, dials)) ==
      if first.Some? && nonce.Some? && first.value.writes > 0 && |first.value.input| >= 64
         && first.value.input[32..64] == Proof(mac, token, first.value.input[..32], nonce.value)
      then Opened(views, dials) else []
  {
    if first.Some? { ServerAcceptsExactly(mac, token, nonce, first.value); }
    QuicLogSays(mac, token, nonce, first, views, dials);
  }
}
