/** One control connection, seen from both processes: runControl (internal/client/client.go)
    hands what it receives to the runner, handleControl (internal/server/server.go) announces. */
module ControlLoop {
  import opened Bytes
  import opened Mac
  import opened Streams
  import opened Handshake
  import opened Control
  import R = Runner

  /** What one control connection does to the client's runner. */
  function Effect(received: Result<Config>, s: R.State, builds: bool): R.State
    requires s.current.Some? ==> s.current.value < |s.started|
  {
    if received.Ok? then R.ApplySpec(s, received.value, builds) else s
  }

  /** runControl: the runner is told exactly what an authenticated frame said, and nothing if
      there was none; only a client whose transport could be applied counts as established. */
  method RunControl(conn: Conn, runner: R.RunnerObject, mac: Hmac, codec: Codec, token: Token,
      nonce: Option<Nonce>, builds: bool)
    returns (established: bool)
    requires runner.Valid()
    modifies conn, runner, runner.started
    ensures runner.Valid()
    ensures
      var (r, v) := ClientSession(mac, codec, token, nonce, old(conn.Abs()));
      && conn.Abs() == v
      && runner.s == Effect(r, old(runner.s), builds)
      && (established <==> r.Ok? && (R.Keeps(old(runner.s), r.value) || builds))
      && (r.Err? ==> runner.s == old(runner.s) && runner.current == old(runner.current) && !established)
  {
    var channel := ClientHandshake(conn, mac, token, nonce);
    if channel.Err? { return false; }
    var announced := Receive(conn, mac, codec, token, channel.value);
    if announced.Err? { return false; }
    established := runner.ApplySettings(announced.value, builds);
  }

  /** handleControl: nothing is announced before the client's proof has been checked. */
  method HandleControl(conn: Conn, mac: Hmac, codec: Codec, token: Token, nonce: Option<Nonce>, announce: Config)
    returns (announced: bool)
    modifies conn
    ensures
      var (r, v) := ServerSession(mac, codec, token, nonce, announce, old(conn.Abs()));
      conn.Abs() == v && announced == r.Ok?
  {
    var channel := ServerHandshake(conn, mac, token, nonce);
    if channel.Err? { return false; }
    var r := Send(conn, mac, codec, token, channel.value, announce);
    announced := r.Ok?;
  }

  /** The client's stream starts with some nonce and the proof for it and the server's own. */
  predicate Proven(mac: Hmac, token: Token, nonce: Option<Nonce>, v: View) {
    && nonce.Some? && v.writes > 0 && |v.input| >= 64
    && v.input[32..64] == Proof(mac, token, v.input[..32], nonce.value)
  }

  predicate Encodes(codec: Codec, cfg: Config) {
    codec.encode(cfg).Some? && |codec.encode(cfg).value| <= MAX_BODY_SIZE
  }

  /** Without a correct proof a server writes its reply at most; with one it writes exactly the
      reply and the frame for this handshake, or the reply alone if it cannot announce. */
  lemma AnnouncesExactlyIfProven(mac: Hmac, codec: Codec, token: Token, nonce: Option<Nonce>, cfg: Config, v: View)
    ensures
      var (r, v') := ServerSession(mac, codec, token, nonce, cfg, v);
      && (r.Ok? <==> Proven(mac, token, nonce, v) && Encodes(codec, cfg) && v.writes > 1)
      && if !Proven(mac, token, nonce, v)
         then v'.output == v.output
              || (nonce.Some? && |v.input| >= 32
                  && v'.output == v.output + Reply(mac, token, v.input[..32], nonce.value))
         else
           var nc: Nonce := v.input[..32];
           v'.output == v.output + Reply(mac, token, nc, nonce.value)
                        + (if r.Ok? then Frame(mac, token, Transcript(nc, nonce.value), codec.encode(cfg).value)
                           else [])
  {
    ServerAcceptsExactly(mac, token, nonce, v);
  }

  /** A successful apply to a runner with a free lock leaves exactly one transport live, the
      current one, with these settings: the one there was, if it will do, or a new one. */
  lemma AppliedIsRunning(s: R.State, cfg: Config)
    requires R.Inv(s) && s.lock == None
    ensures RunsOnly(R.ApplySpec(s, cfg, true), cfg)
    ensures R.Keeps(s, cfg) ==> R.ApplySpec(s, cfg, true) == s.(applied := s.applied + [cfg])
    ensures !R.Keeps(s, cfg) ==> |R.ApplySpec(s, cfg, true).started| == |s.started| + 1
  {
    EqualIsEquality(cfg, cfg);
  }

  ghost predicate RunsOnly(t: R.State, cfg: Config) {
    && t.current.Some? && t.current.value < |t.started|
    && Equal(t.started[t.current.value].settings, cfg) && !t.started[t.current.value].done
    && forall i :: 0 <= i < |t.started| && t.current != Some(i) ==> t.started[i].done
  }

  /** serveControl and runControl joined by reliable ordered streams: afterwards the client runs
      what the server announced, and if it did so before, it goes on with the very same
      transport, so that reconnecting interrupts nothing. */
  lemma AnnouncedIsRunning(
    mac: Hmac, codec: Codec, token: Token, nc: Nonce, ns: Nonce, cfg: Config,
    cv: View, sv: View, cRest: Bytes, sRest: Bytes, s: R.State)
    requires RoundTrips(codec) && Acceptable(cfg)
    requires codec.encode(cfg).Some? && |codec.encode(cfg).value| <= MAX_BODY_SIZE
    requires cv.output == [] && sv.output == [] && cv.writes >= 2 && sv.writes >= 2
    requires cv.input == ServerSession(mac, codec, token, Some(ns), cfg, sv).1.output + cRest
    requires sv.input == ClientSession(mac, codec, token, Some(nc), cv).1.output + sRest
    requires R.Inv(s) && s.lock == None
    ensures
      var t := Effect(ClientSession(mac, codec, token, Some(nc), cv).0, s, true);
      && RunsOnly(t, cfg)
      && (R.Keeps(s, cfg) ==> t.current == s.current && t.started == s.started)
      && (!R.Keeps(s, cfg) ==> |t.started| == |s.started| + 1)
  {
    SessionCompletes(mac, codec, token, nc, ns, cfg, cv, sv, cRest, sRest);
    var received := ClientSession(mac, codec, token, Some(nc), cv).0.value;
    EqualIsEquality(received, cfg);
    AppliedIsRunning(s, cfg);
  }
}
