/** The handlers of Gate, call by call, take steps of Gate's transition system: the handshake on
    a connection in its two halves, before and after it waits for the client, and then each
    stream. They dial in the run exactly as often as they dial in the code. */
module GateRuns {
  import opened Bytes
  import opened Mac
  import opened Streams
  import opened Handshake
  import opened Gate
  import A = Agreement
  import H = HandshakeRuns
  import Runs

  function Last(trace: seq<State>): State
    requires trace != []
  {
    trace[|trace| - 1]
  }

  lemma Then(m: A.Params, trace: seq<State>, e: Event) returns (longer: seq<State>, t: State)
    requires IsRun(m, trace) && Enabled(m, Last(trace), e)
    ensures t == Apply(m, Last(trace), e) && longer == trace + [t] && IsRun(m, longer)
  {
    t := Apply(m, Last(trace), e);
    assert Step(m, Last(trace), e, t);
    longer := Runs.Extend(Init, Steps(m), trace, t);
  }

  /** Connection c awaits the client's proof, in server run k. */
  predicate ConnWaits(s: State, c: nat, k: nat, token: Token, nc: Nonce, ns: Nonce) {
    && c < |s.conns| && s.conns[c].phase == Shaking && s.conns[c].run == Some(k)
    && H.ServerWaits(s.h, k, token, nc, ns)
  }

  /** The first half of the handshake on connection c. Without a nonce from each side the
      connection is dropped. */
  lemma ConnCallStarts(m: A.Params, trace: seq<State>, c: nat, token: Token, nonce: Option<Nonce>, v: View)
      returns (longer: seq<State>, k: nat)
    requires IsRun(m, trace) && c < |Last(trace).conns|
    requires Last(trace).conns[c].phase == Shaking && Last(trace).conns[c].run == None
    requires nonce.Some? && |v.input| >= 32 ==> nonce.value !in Last(trace).h.nonces && nonce.value != v.input[..32]
    ensures IsRun(m, longer) && trace <= longer && c < |Last(longer).conns|
    ensures Last(longer).streams == Last(trace).streams && Last(longer).dials == Last(trace).dials
    ensures Last(longer).conns[c].kind == Last(trace).conns[c].kind
    ensures if nonce.Some? && |v.input| >= 32
            then ConnWaits(Last(longer), c, k, token, v.input[..32], nonce.value)
            else Last(longer).conns[c].phase == Gone && ServerSpec(m.mac, token, nonce, v).0.Err?
  {
    k := |Last(trace).h.servers|;
    var t: State;
    if nonce.Some? && |v.input| >= 32 {
      longer, t := Then(m, trace, ReadsNonce(c, A.ServerReplies(token, v.input[..32], nonce.value)));
    } else {
      longer, t := Then(m, trace, Drops(c));
    }
  }

  /** The client's answer is read, or does not come. */
  lemma AnswerIsRead(m: A.Params, trace: seq<State>, c: nat, k: nat, token: Token, ns: Nonce, v: View)
      returns (longer: seq<State>)
    requires IsRun(m, trace) && |v.input| >= 32 && ConnWaits(Last(trace), c, k, token, v.input[..32], ns)
    requires |v.input| >= 64 ==>
      NoForgery(m.mac, Last(trace).h.signed, token, ClientProof(v.input[..32], ns), v.input[32..64])
    ensures IsRun(m, longer) && trace <= longer && k < |Last(longer).h.servers|
    ensures Last(longer).h.servers[k].acceptedAt.Some? <==> ServerSpec(m.mac, token, Some(ns), v).0.Ok?
    ensures Last(longer).conns == Last(trace).conns && Last(longer).streams == Last(trace).streams
    ensures Last(longer).dials == Last(trace).dials
  {
    ServerAcceptsExactly(m.mac, token, Some(ns), v);
    var t: State;
    if v.writes > 0 && |v.input| >= 64 {
      longer, t := Then(m, trace, Handshakes(A.ServerReads(k, v.input[32..64])));
    } else {
      longer, t := Then(m, trace, Handshakes(A.ServerAborts(k)));
    }
  }

  /** The second half, in any run in which the connection is still waiting: it is admitted if
      and only if the call returns a channel, and dropped otherwise. */
  lemma ConnCallEnds(m: A.Params, trace: seq<State>, c: nat, k: nat, token: Token, ns: Nonce, v: View)
      returns (longer: seq<State>)
    requires IsRun(m, trace) && |v.input| >= 32 && ConnWaits(Last(trace), c, k, token, v.input[..32], ns)
    requires |v.input| >= 64 ==>
      NoForgery(m.mac, Last(trace).h.signed, token, ClientProof(v.input[..32], ns), v.input[32..64])
    ensures IsRun(m, longer) && trace <= longer && c < |Last(longer).conns|
    ensures
      var r := ServerSpec(m.mac, token, Some(ns), v).0;
      var p, q := Last(trace).conns[c], Last(longer).conns[c];
      && q.kind == p.kind && q.run == p.run && q.phase == (if r.Ok? then Serving else Gone)
      && Last(longer).streams ==
           Last(trace).streams + (if r.Ok? && p.kind == Raw then [NewStream(Last(trace), c)] else [])
    ensures Last(longer).dials == Last(trace).dials
  {
    longer := AnswerIsRead(m, trace, c, k, token, ns, v);
    var t: State;
    longer, t := Then(m, longer, if Last(longer).h.servers[k].acceptedAt.Some? then Admits(c) else Drops(c));
  }

  // ---- streams ----

  predicate Serves(s: State, c: nat) {
    c < |s.conns| && s.conns[c].phase == Serving
  }

  /** Dial d was for a stream of connection c, which is relayed if it succeeded and over if not. */
  predicate DialIs(s: State, d: nat, c: nat, ok: bool) {
    && d < |s.dials| && s.dials[d].stream < |s.streams| && s.streams[s.dials[d].stream].conn == c
    && s.streams[s.dials[d].stream].phase == if ok then Relaying else Ended
  }

  /** From s to t the target has been dialled for streams of c, with these results. */
  ghost predicate Dialled(s: State, t: State, c: nat, oks: seq<bool>) {
    && s.dials <= t.dials && |t.dials| == |s.dials| + |oks|
    && forall k :: 0 <= k < |oks| ==> DialIs(t, |s.dials| + k, c, oks[k])
  }

  /** It does not matter since when, as long as nothing was dialled. */
  lemma DialledSince(r: State, s: State, t: State, c: nat, oks: seq<bool>)
    requires Dialled(s, t, c, oks) && r.dials == s.dials
    ensures Dialled(r, t, c, oks)
  {
  }

  /** A stretch that only serves new streams of c. */
  ghost predicate Served(m: A.Params, trace: seq<State>, longer: seq<State>, c: nat, oks: seq<bool>) {
    && IsRun(m, longer) && trace != [] && trace <= longer
    && Serves(Last(trace), c) && Serves(Last(longer), c)
    && Last(longer).conns[c].kind == Last(trace).conns[c].kind
    && Last(trace).streams <= Last(longer).streams
    && Dialled(Last(trace), Last(longer), c, oks)
  }

  lemma ServedOnAndOn(m: A.Params, a: seq<State>, b: seq<State>, d: seq<State>, c: nat, p: seq<bool>, q: seq<bool>)
    requires Served(m, a, b, c, p) && Served(m, b, d, c, q)
    ensures Served(m, a, d, c, p + q)
  {
    var r, s, t := Last(a), Last(b), Last(d);
    forall k | 0 <= k < |p + q| ensures DialIs(t, |r.dials| + k, c, (p + q)[k]) {
      if k < |p| {
        assert DialIs(s, |r.dials| + k, c, p[k]) && t.dials[|r.dials| + k] == s.dials[|r.dials| + k];
      } else {
        assert DialIs(t, |s.dials| + (k - |p|), c, q[k - |p|]);
      }
    }
  }

  /** handleStream on the newest stream. */
  lemma StreamIsDialled(m: A.Params, trace: seq<State>, c: nat, ok: bool) returns (longer: seq<State>)
    requires IsRun(m, trace) && Serves(Last(trace), c) && Last(trace).streams != []
    requires var r := Last(trace).streams[|Last(trace).streams| - 1]; r.phase == ToDial && r.conn == c
    ensures IsRun(m, longer) && trace <= longer && Serves(Last(longer), c)
    ensures Last(longer).conns == Last(trace).conns && Dialled(Last(trace), Last(longer), c, [ok])
    ensures
      var u := |Last(trace).streams| - 1;
      Last(longer).streams ==
        Last(trace).streams[..u] + [Last(trace).streams[u].(phase := if ok then Relaying else Ended)]
  {
    var t: State;
    longer, t := Then(m, trace, DialsTarget(|Last(trace).streams| - 1, ok));
    assert DialIs(t, |Last(trace).dials|, c, ok);
  }

  /** One smux stream. */
  lemma SmuxStreamIsSteps(m: A.Params, trace: seq<State>, c: nat, ok: bool) returns (longer: seq<State>)
    requires IsRun(m, trace) && Serves(Last(trace), c) && Last(trace).conns[c].kind == Smux
    ensures Served(m, trace, longer, c, [ok])
  {
    var t: State;
    longer, t := Then(m, trace, StreamOpens(c));
    longer := StreamIsDialled(m, longer, c, ok);
  }

  /** A QUIC stream on which v has arrived, and of which the marker has been read, if it is there. */
  lemma MarkerIsRead(m: A.Params, trace: seq<State>, c: nat, v: View) returns (longer: seq<State>)
    requires IsRun(m, trace) && Serves(Last(trace), c) && Last(trace).conns[c].kind == Quic
    ensures IsRun(m, longer) && trace <= longer
    ensures Last(longer).conns == Last(trace).conns && Last(longer).dials == Last(trace).dials
    ensures Last(longer).streams == Last(trace).streams +
      [if IsMarked(v) then Stream(c, ToDial, v.input, 1, []) else Stream(c, Ended, v.input, 0, [])]
  {
    var u := |Last(trace).streams|;
    var t: State;
    longer, t := Then(m, trace, StreamOpens(c));
    assert [] + v.input == v.input;
    longer, t := Then(m, longer, ClientWrites(u, v.input));
    longer, t := Then(m, longer, ReadsMarker(u));
  }

  /** One QUIC stream that brings v: one byte is read of it, and only the marker opens the way. */
  lemma QuicStreamIsSteps(m: A.Params, trace: seq<State>, c: nat, v: View, ok: bool) returns (longer: seq<State>)
    requires IsRun(m, trace) && Serves(Last(trace), c) && Last(trace).conns[c].kind == Quic
    ensures Served(m, trace, longer, c, if IsMarked(v) then [ok] else [])
    ensures
      var u := |Last(trace).streams|;
      && u < |Last(longer).streams| && Last(longer).streams[u].sent == v.input
      && Last(longer).streams[u].read == (if IsMarked(v) then 1 else 0)
  {
    longer := MarkerIsRead(m, trace, c, v);
    if IsMarked(v) { longer := StreamIsDialled(m, longer, c, ok); }
  }

  lemma {:induction false} SmuxStreamsAreSteps(m: A.Params, trace: seq<State>, c: nat, dials: seq<bool>)
      returns (longer: seq<State>)
    requires IsRun(m, trace) && Serves(Last(trace), c) && Last(trace).conns[c].kind == Smux
    ensures Served(m, trace, longer, c, dials)
    decreases |dials|
  {
    longer := trace;
    if dials != [] {
      var first := SmuxStreamIsSteps(m, trace, c, dials[0]);
      longer := SmuxStreamsAreSteps(m, first, c, dials[1..]);
      ServedOnAndOn(m, trace, first, longer, c, [dials[0]], dials[1..]);
      assert dials == [dials[0]] + dials[1..];
    }
  }

  lemma {:induction false} QuicStreamsAreSteps(m: A.Params, trace: seq<State>, c: nat, views: seq<View>,
      dials: seq<bool>) returns (longer: seq<State>)
    requires IsRun(m, trace) && Serves(Last(trace), c) && Last(trace).conns[c].kind == Quic && |views| == |dials|
    ensures Served(m, trace, longer, c, Opened(views, dials))
    decreases |views|
  {
    longer := trace;
    if views != [] {
      var first := QuicStreamIsSteps(m, trace, c, views[0], dials[0]);
      longer := QuicStreamsAreSteps(m, first, c, views[1..], dials[1..]);
      ServedOnAndOn(m, trace, first, longer, c, if IsMarked(views[0]) then [dials[0]] else [],
                    Opened(views[1..], dials[1..]));
    }
  }

  // ---- whole calls ----

  /** What handleConn does with a connection that has been admitted. */
  lemma AdmittedIsServed(m: A.Params, trace: seq<State>, c: nat, mux: bool, muxStarts: bool, dials: seq<bool>)
      returns (longer: seq<State>)
    requires IsRun(m, trace) && Serves(Last(trace), c) && (!mux ==> |dials| == 1)
    requires Last(trace).conns[c].kind == (if mux then Smux else Raw)
    requires !mux ==> Last(trace).streams != []
                      && Last(trace).streams[|Last(trace).streams| - 1] == NewStream(Last(trace), c)
    ensures IsRun(m, longer) && trace <= longer && c < |Last(longer).conns|
    ensures Dialled(Last(trace), Last(longer), c, if mux ==> muxStarts then dials else [])
    ensures Last(longer).conns[c].phase == if mux then Gone else Serving
  {
    longer := trace;
    if !mux {
      longer := StreamIsDialled(m, longer, c, dials[0]);
      assert dials == [dials[0]];
    } else {
      if muxStarts { longer := SmuxStreamsAreSteps(m, longer, c, dials); }
      longer := DropsNow(m, trace, longer, c, if muxStarts then dials else []);
    }
  }

  /** Dropping the connection in the end leaves what has been dialled as it is. */
  lemma DropsNow(m: A.Params, trace: seq<State>, later: seq<State>, c: nat, oks: seq<bool>)
      returns (longer: seq<State>)
    requires IsRun(m, later) && trace != [] && trace <= later && c < |Last(later).conns|
    requires Dialled(Last(trace), Last(later), c, oks)
    ensures IsRun(m, longer) && trace <= longer && c < |Last(longer).conns|
    ensures Dialled(Last(trace), Last(longer), c, oks) && Last(longer).conns[c].phase == Gone
  {
    var t: State;
    longer, t := Then(m, later, Drops(c));
    forall k | 0 <= k < |oks| ensures DialIs(t, |Last(trace).dials| + k, c, oks[k]) {
      assert DialIs(Last(later), |Last(trace).dials| + k, c, oks[k]);
    }
  }

  /** handleConn, from the moment the client's proof is awaited: the run dials as often and in
      the same order as the handler's log says (ConnDialsExactly), and the stream of a dial is
      relayed in the run exactly if the log goes on with relaying. */
  lemma HandleConnIsARun(m: A.Params, trace: seq<State>, c: nat, k: nat, token: Token, ns: Nonce, v: View,
      mux: bool, muxStarts: bool, dials: seq<bool>) returns (longer: seq<State>)
    requires IsRun(m, trace) && |v.input| >= 32 && ConnWaits(Last(trace), c, k, token, v.input[..32], ns)
    requires |v.input| >= 64 ==>
      NoForgery(m.mac, Last(trace).h.signed, token, ClientProof(v.input[..32], ns), v.input[32..64])
    requires Last(trace).conns[c].kind == (if mux then Smux else Raw) && (!mux ==> |dials| == 1)
    ensures IsRun(m, longer) && trace <= longer && c < |Last(longer).conns|
    ensures
      var r := ServerSpec(m.mac, token, Some(ns), v).0;
      && Dialled(Last(trace), Last(longer), c, if r.Ok? && (mux ==> muxStarts) then dials else [])
      && Last(longer).conns[c].phase == if r.Ok? && !mux then Serving else Gone
  {
    var r := ServerSpec(m.mac, token, Some(ns), v).0;
    longer := ConnCallEnds(m, trace, c, k, token, ns, v);
    if r.Ok? {
      var admitted := Last(longer);
      longer := AdmittedIsServed(m, longer, c, mux, muxStarts, dials);
      DialledSince(Last(trace), admitted, Last(longer), c, if mux ==> muxStarts then dials else []);
    }
  }

  /** serveQUICConn likewise (QuicConnDialsExactly), from the moment the proof is awaited on the first stream. */
  lemma ServeQuicConnIsARun(m: A.Params, trace: seq<State>, c: nat, k: nat, token: Token, ns: Nonce, v: View,
      views: seq<View>, dials: seq<bool>) returns (longer: seq<State>)
    requires IsRun(m, trace) && |v.input| >= 32 && ConnWaits(Last(trace), c, k, token, v.input[..32], ns)
    requires |v.input| >= 64 ==>
      NoForgery(m.mac, Last(trace).h.signed, token, ClientProof(v.input[..32], ns), v.input[32..64])
    requires Last(trace).conns[c].kind == Quic && |views| == |dials|
    ensures IsRun(m, longer) && trace <= longer && c < |Last(longer).conns|
    ensures Dialled(Last(trace), Last(longer), c,
      if ServerSpec(m.mac, token, Some(ns), v).0.Ok? then Opened(views, dials) else [])
    ensures Last(longer).conns[c].phase == Gone
  {
    longer := ConnCallEnds(m, trace, c, k, token, ns, v);
    if ServerSpec(m.mac, token, Some(ns), v).0.Ok? {
      var admitted := longer;
      longer := QuicStreamsAreSteps(m, admitted, c, views, dials);
      longer := DropsNow(m, admitted, longer, c, Opened(views, dials));
      DialledSince(Last(trace), Last(admitted), Last(longer), c, Opened(views, dials));
    }
  }

  // ---- a genuine client is served ----

  /** The client's part of a handshake, once the server has replied to it on connection c. */
  lemma ClientAnswers(m: A.Params, trace: seq<State>, c: nat, k: nat, p: nat, token: Token, nc: Nonce, ns: Nonce,
      reply: Bytes) returns (longer: seq<State>)
    requires IsRun(m, trace)
    requires ConnWaits(Last(trace), c, k, token, nc, ns) && H.ClientWaits(Last(trace).h, p, token, nc)
    requires |reply| == 64 && reply[..32] == ns && ReplyVerifies(m.mac, token, nc, reply)
    requires (token, Encode(ServerProof(nc, ns))) in Last(trace).h.signed
    ensures IsRun(m, longer) && trace <= longer && ConnWaits(Last(longer), c, k, token, nc, ns)
    ensures Last(longer).conns == Last(trace).conns && Last(longer).dials == Last(trace).dials
    ensures (token, Encode(ClientProof(nc, ns))) in Last(longer).h.signed
  {
    var t: State;
    longer, t := Then(m, trace, Handshakes(A.ClientReads(p, reply)));
    longer, t := Then(m, longer, Handshakes(A.ClientSends(p, true)));
  }

  /** The client starts, and the server replies to it on connection c. */
  lemma BothStart(m: A.Params, trace: seq<State>, c: nat, token: Token, nc: Nonce, ns: Nonce)
      returns (longer: seq<State>, k: nat, p: nat)
    requires IsRun(m, trace) && nc !in Last(trace).h.nonces && ns !in Last(trace).h.nonces && nc != ns
    requires c < |Last(trace).conns| && Last(trace).conns[c].phase == Shaking && Last(trace).conns[c].run == None
    ensures IsRun(m, longer) && trace <= longer
    ensures ConnWaits(Last(longer), c, k, token, nc, ns) && H.ClientWaits(Last(longer).h, p, token, nc)
    ensures (token, Encode(ServerProof(nc, ns))) in Last(longer).h.signed
    ensures Last(longer).conns[c].kind == Last(trace).conns[c].kind && Last(longer).dials == Last(trace).dials
  {
    p, k := |Last(trace).h.clients|, |Last(trace).h.servers|;
    var t: State;
    longer, t := Then(m, trace, Handshakes(A.ClientStarts(token, nc)));
    longer, t := Then(m, longer, ReadsNonce(c, A.ServerReplies(token, nc, ns)));
  }

  /** From any run, over reliable ordered streams and with fresh nonces, a client that knows the
      token is admitted on a new connection, and the target is dialled for its streams. */
  lemma GenuineClientIsServed(m: A.Params, trace: seq<State>, c: nat, token: Token, nc: Nonce, ns: Nonce,
      cv: View, sv: View, cRest: Bytes, sRest: Bytes, mux: bool, dials: seq<bool>) returns (longer: seq<State>)
    requires IsRun(m, trace) && nc !in Last(trace).h.nonces && ns !in Last(trace).h.nonces && nc != ns
    requires c < |Last(trace).conns| && Last(trace).conns[c] == Conn(if mux then Smux else Raw, None, Shaking)
    requires !mux ==> |dials| == 1
    requires cv.output == [] && sv.output == [] && cv.writes >= 2 && sv.writes >= 1
    requires cv.input == ServerSpec(m.mac, token, Some(ns), sv).1.output + cRest
    requires sv.input == ClientSpec(m.mac, token, Some(nc), cv).1.output + sRest
    ensures IsRun(m, longer) && trace <= longer && c < |Last(longer).conns|
    ensures Dialled(Last(trace), Last(longer), c, dials)
    ensures Last(longer).conns[c].phase == if mux then Gone else Serving
  {
    WhatIsRead(m.mac, token, nc, ns, cv, sv, cRest, sRest);
    longer := AnsweredIsServed(m, trace, c, token, nc, ns, cv.input[..64], sv, mux, dials);
  }

  /** The same, from what each side reads. */
  lemma AnsweredIsServed(m: A.Params, trace: seq<State>, c: nat, token: Token, nc: Nonce, ns: Nonce,
      reply: Bytes, sv: View, mux: bool, dials: seq<bool>) returns (longer: seq<State>)
    requires IsRun(m, trace) && nc !in Last(trace).h.nonces && ns !in Last(trace).h.nonces && nc != ns
    requires c < |Last(trace).conns| && Last(trace).conns[c] == Conn(if mux then Smux else Raw, None, Shaking)
    requires !mux ==> |dials| == 1
    requires |sv.input| >= 64 && sv.input[..32] == nc && ServerSpec(m.mac, token, Some(ns), sv).0.Ok?
    requires |reply| == 64 && reply[..32] == ns && ReplyVerifies(m.mac, token, nc, reply)
    ensures IsRun(m, longer) && trace <= longer && c < |Last(longer).conns|
    ensures Dialled(Last(trace), Last(longer), c, dials)
    ensures Last(longer).conns[c].phase == if mux then Gone else Serving
  {
    var k, p;
    longer, k, p := BothStart(m, trace, c, token, nc, ns);
    longer := ClientAnswers(m, longer, c, k, p, token, nc, ns, reply);
    var answered := Last(longer);
    longer := HandleConnIsARun(m, longer, c, k, token, ns, sv, mux, true, dials);
    DialledSince(Last(trace), answered, Last(longer), c, dials);
  }

  lemma WhatIsRead(mac: Hmac, token: Token, nc: Nonce, ns: Nonce, cv: View, sv: View, cRest: Bytes, sRest: Bytes)
    requires cv.output == [] && sv.output == [] && cv.writes >= 2 && sv.writes >= 1
    requires cv.input == ServerSpec(mac, token, Some(ns), sv).1.output + cRest
    requires sv.input == ClientSpec(mac, token, Some(nc), cv).1.output + sRest
    ensures |sv.input| >= 64 && sv.input[..32] == nc && |cv.input| >= 64 && cv.input[..32] == ns
    ensures ReplyVerifies(mac, token, nc, cv.input[..64]) && ServerSpec(mac, token, Some(ns), sv).0.Ok?
  {
    HandshakeCompletes(mac, token, nc, ns, cv, sv, cRest, sRest);
    ClientAcceptsExactly(mac, token, Some(nc), cv);
    ServerAcceptsExactly(mac, token, Some(ns), sv);
    assert sv.input[..32] == nc && cv.input[..32] == ns;
    ReplyWasChecked(mac, token, nc, ns, cv.input[..64]);
  }

  lemma ReplyWasChecked(mac: Hmac, token: Token, nc: Nonce, ns: Nonce, reply: Bytes)
    requires |reply| == 64 && reply == Reply(mac, token, nc, ns)
    ensures reply[..32] == ns && ReplyVerifies(mac, token, nc, reply)
  {
  }
}
