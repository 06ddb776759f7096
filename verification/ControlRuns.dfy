/** The code of Control, call by call, in Agreement's runs: Send and Receive are each one event of
    a server or client run whose handshake is over. */
module ControlRuns {
  import opened Bytes
  import opened Mac
  import opened Streams
  import opened Handshake
  import opened Control
  import opened HandshakeRuns
  import A = Agreement

  // ---- Send and Receive ----

  /** A call of Send after an accepted handshake: the server run announces if and only if the
      configuration can be framed (it has signed the frame then, even if writing fails). */
  lemma SendCallIsARun(m: A.Params, trace: seq<A.State>, k: nat, cfg: Config, v: View) returns (longer: seq<A.State>)
    requires A.IsRun(m, trace) && Acceptable(cfg)
    requires k < |Last(trace).servers| && Last(trace).servers[k].phase == A.Accepted
    ensures A.IsRun(m, longer) && trace <= longer && k < |Last(longer).servers|
    ensures
      var p, q := Last(trace).servers[k], Last(longer).servers[k];
      var (r, v') := SendSpec(m.mac, m.codec, p.token, Transcript(p.nc, p.ns), cfg, v);
      && q.token == p.token && q.nc == p.nc && q.ns == p.ns && q.acceptedAt == p.acceptedAt
      && (if r.Ok? then q.phase == A.Announced else q.phase == A.ServerFailed)
      && (r.Ok? ==>
            && q.announced.Some? && q.announced.value.cfg == cfg && m.codec.encode(cfg).Some?
            && (p.token, Encode(ConfigFrame(Transcript(p.nc, p.ns), m.codec.encode(cfg).value))) in Last(longer).signed)
      && (q.announced.Some? <==> m.codec.encode(cfg).Some? && |m.codec.encode(cfg).value| <= MAX_BODY_SIZE)
    ensures Last(longer).clients == Last(trace).clients
  {
    RunsArePhased(m, trace, k);
    longer := trace;
    var t: A.State;
    if m.codec.encode(cfg).Some? && |m.codec.encode(cfg).value| <= MAX_BODY_SIZE {
      longer, t := Then(m, longer, A.ServerAnnounces(k, cfg));
      if v.writes == 0 {
        longer, t := Then(m, longer, A.ServerAborts(k));
      }
    } else {
      longer, t := Then(m, longer, A.ServerAborts(k));
    }
  }

  lemma RunsArePhased(m: A.Params, trace: seq<A.State>, k: nat)
    requires A.IsRun(m, trace) && k < |Last(trace).servers|
    ensures A.ServerPhaseOk(Last(trace).servers[k])
  {
    A.RunsKeepInv(m, trace, |trace| - 1);
  }

  /** How many bytes Receive asks for after the header, if the header is there and acceptable. */
  function Announced(input: Bytes): Option<nat> {
    if |input| < 2 || Uint16(input[..2]) > MAX_BODY_SIZE then None else Some(Uint16(input[..2]))
  }

  /** The body and the tag are there too. */
  predicate FrameArrived(input: Bytes) {
    Announced(input).Some? && |input| >= 2 + Announced(input).value + TAG_SIZE
  }

  function BodyOf(input: Bytes): Bytes
    requires FrameArrived(input)
  {
    input[2..2 + Announced(input).value]
  }

  function TagOf(input: Bytes): Tag
    requires FrameArrived(input)
  {
    input[2 + Announced(input).value..2 + Announced(input).value + TAG_SIZE]
  }

  lemma ReceivesWhatArrived(m: A.Params, token: Token, channel: Channel, v: View)
    ensures ReceiveSpec(m.mac, m.codec, token, channel, v).0.Ok? ==> FrameArrived(v.input)
    ensures FrameArrived(v.input) ==>
      && |BodyOf(v.input)| <= MAX_BODY_SIZE
      && ReceiveSpec(m.mac, m.codec, token, channel, v).0 ==
           Opened(m.mac, m.codec, token, channel, BodyOf(v.input), TagOf(v.input))
  {
    if FrameArrived(v.input) {
      Slices(v.input, Announced(v.input).value, TAG_SIZE);
    }
  }

  /** A call of Receive after an established handshake, whatever it reads: the client run
      applies a configuration if and only if the call returns it. */
  lemma ReceiveCallIsARun(m: A.Params, trace: seq<A.State>, c: nat, v: View) returns (longer: seq<A.State>)
    requires A.IsRun(m, trace) && c < |Last(trace).clients|
    requires Last(trace).clients[c].phase == A.Established && Last(trace).clients[c].proved.Some?
    requires FrameArrived(v.input) ==>
      var p := Last(trace).clients[c];
      NoForgery(m.mac, Last(trace).signed, p.token,
                ConfigFrame(Transcript(p.nc, p.proved.value.ns), BodyOf(v.input)), TagOf(v.input))
    ensures A.IsRun(m, longer) && trace <= longer && c < |Last(longer).clients|
    ensures
      var p, q := Last(trace).clients[c], Last(longer).clients[c];
      var r := ReceiveSpec(m.mac, m.codec, p.token, Transcript(p.nc, p.proved.value.ns), v).0;
      && q.token == p.token && q.nc == p.nc && q.proved == p.proved
      && (q.applied.Some? <==> r.Ok?)
      && (if r.Ok? then q.phase == A.Configured && q.applied.value.cfg == r.value else q.phase == A.ClientFailed)
    ensures Last(longer).servers == Last(trace).servers
  {
    A.RunsKeepInv(m, trace, |trace| - 1);
    var p := Last(trace).clients[c];
    assert A.ClientPhaseOk(p);
    ReceivesWhatArrived(m, p.token, Transcript(p.nc, p.proved.value.ns), v);
    var t: A.State;
    if FrameArrived(v.input) {
      longer, t := Then(m, trace, A.ClientReceives(c, BodyOf(v.input), TagOf(v.input)));
    } else {
      longer, t := Then(m, trace, A.ClientAborts(c));
    }
  }

  /** What a client run has applied comes from whoever holds the same client nonce and replied. */
  lemma AppliedMatched(m: A.Params, trace: seq<A.State>, c: nat, k: nat)
    requires A.IsRun(m, trace) && c < |Last(trace).clients| && k < |Last(trace).servers|
    requires Last(trace).clients[c].applied.Some? && Last(trace).clients[c].proved.Some?
    requires Last(trace).clients[c].proved.value.ns == Last(trace).servers[k].ns
    ensures A.AppliedFrom(m, Last(trace), c, k)
  {
    A.RunsKeepInv(m, trace, |trace| - 1);
    var l: nat :| A.AppliedFrom(m, Last(trace), c, l);
    assert l == k;
  }

  /** And so are the calls of Send and Receive that follow: a whole control session is a run in
      which the client applies what the server it is matched with has announced. */
  lemma SessionIsARun(m: A.Params, trace: seq<A.State>, token: Token, nc: Nonce, ns: Nonce, cfg: Config,
      cv: View, sv: View, cRest: Bytes, sRest: Bytes) returns (longer: seq<A.State>, c: nat, k: nat)
    requires A.IsRun(m, trace) && nc !in Last(trace).nonces && ns !in Last(trace).nonces && nc != ns
    requires RoundTrips(m.codec) && Acceptable(cfg)
    requires m.codec.encode(cfg).Some? && |m.codec.encode(cfg).value| <= MAX_BODY_SIZE
    requires cv.output == [] && sv.output == [] && cv.writes >= 2 && sv.writes >= 2
    requires cv.input == ServerSession(m.mac, m.codec, token, Some(ns), cfg, sv).1.output + cRest
    requires sv.input == ClientSession(m.mac, m.codec, token, Some(nc), cv).1.output + sRest
    ensures A.IsRun(m, longer) && trace <= longer && A.AppliedFrom(m, Last(longer), c, k)
    ensures ClientSession(m.mac, m.codec, token, Some(nc), cv).0 == Ok(Last(longer).clients[c].applied.value.cfg)
    ensures Last(longer).clients[c].applied.value.cfg == Last(longer).servers[k].announced.value.cfg == cfg
    ensures Last(longer).clients[c].nc == nc && Last(longer).servers[k].ns == ns
  {
    var cw, sw, announced := SessionParts(m.mac, m.codec, token, nc, ns, cfg, cv, sv, cRest, sRest);
    longer, c, k := HandshakeIsARun(m, trace, token, nc, ns, cv, sv, announced, sRest);
    longer := SendThenReceive(m, longer, c, k, cfg, cw, sw, cRest);
    ReceivesAfter(m.mac, m.codec, token, nc, cfg, cv, Transcript(nc, ns), cw, cRest);
  }

  lemma FrameHasArrived(mac: Hmac, token: Token, channel: Channel, body: Bytes, input: Bytes, rest: Bytes)
    requires |body| <= MAX_BODY_SIZE && input == Frame(mac, token, channel, body) + rest
    ensures FrameArrived(input) && BodyOf(input) == body
  {
    FrameParts(PutUint16(|body|), body, Sign(mac, token, ConfigFrame(channel, body)), rest);
    Uint16RoundTrip(|body|);
  }

  lemma SendThenReceive(m: A.Params, trace: seq<A.State>, c: nat, k: nat, cfg: Config, cw: View, sw: View, rest: Bytes)
      returns (longer: seq<A.State>)
    requires A.IsRun(m, trace) && RoundTrips(m.codec) && Acceptable(cfg) && A.Partners(Last(trace), c, k)
    requires m.codec.encode(cfg).Some? && |m.codec.encode(cfg).value| <= MAX_BODY_SIZE
    requires Last(trace).clients[c].phase == A.Established && Last(trace).servers[k].phase == A.Accepted
    requires sw.writes > 0
    requires var q := Last(trace).servers[k];
      cw.input == Frame(m.mac, q.token, Transcript(q.nc, q.ns), m.codec.encode(cfg).value) + rest
    ensures A.IsRun(m, longer) && trace <= longer && A.AppliedFrom(m, Last(longer), c, k)
    ensures Last(longer).clients[c].applied.value.cfg == Last(longer).servers[k].announced.value.cfg == cfg
    ensures Last(longer).clients[c].nc == Last(trace).clients[c].nc
    ensures Last(longer).servers[k].ns == Last(trace).servers[k].ns
  {
    var q := Last(trace).servers[k];
    var ch, body := Transcript(q.nc, q.ns), m.codec.encode(cfg).value;
    longer := SendCallIsARun(m, trace, k, cfg, sw);
    FrameOpens(m.mac, m.codec, q.token, ch, body, cw, rest);
    FrameHasArrived(m.mac, q.token, ch, body, cw.input, rest);
    longer := ReceiveCallIsARun(m, longer, c, cw);
    AppliedMatched(m, longer, c, k);
  }
}
