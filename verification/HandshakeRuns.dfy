/** The code of Handshake, call by call, is what Agreement's runs are made of. A call of
    ServerHandshake or ClientHandshake has two halves, before and after it waits for the other
    side, and anybody else may do anything in between: its first half extends any run of the
    protocol, and its second half extends any run in which it is still waiting, by the events of
    one server or client run and with the same outcome as the call. */
module HandshakeRuns {
  import opened Bytes
  import opened Mac
  import opened Streams
  import opened Handshake
  import A = Agreement
  import Runs

  function Last(trace: seq<A.State>): A.State
    requires trace != []
  {
    trace[|trace| - 1]
  }

  lemma Then(m: A.Params, trace: seq<A.State>, e: A.Event) returns (longer: seq<A.State>, t: A.State)
    requires A.IsRun(m, trace) && A.Enabled(m, Last(trace), e)
    ensures t == A.Apply(m, Last(trace), e) && longer == trace + [t] && A.IsRun(m, longer)
  {
    t := A.Apply(m, Last(trace), e);
    assert A.Step(m, Last(trace), e, t);
    longer := Runs.Extend(A.Init, A.Steps(m), trace, t);
  }

  // ---- what others do in between ----

  ghost predicate OthersStep(m: A.Params, s: A.State, t: A.State, me: A.Subject) {
    exists e :: A.Step(m, s, e, t) && A.SubjectOf(e) != me
  }

  /** From i on, everybody but me acts. */
  ghost predicate OthersAct(m: A.Params, trace: seq<A.State>, i: nat, me: A.Subject) {
    forall n :: i < n < |trace| ==> OthersStep(m, trace[n - 1], trace[n], me)
  }

  /** Server run k has replied to nc with ns and awaits the client's proof. */
  predicate ServerWaits(s: A.State, k: nat, token: Token, nc: Nonce, ns: Nonce) {
    && k < |s.servers| && s.servers[k].token == token && s.servers[k].nc == nc && s.servers[k].ns == ns
    && s.servers[k].phase == A.Replied && s.servers[k].acceptedAt == None && s.servers[k].announced == None
  }

  /** Client run c has sent nc and awaits the server's reply. */
  predicate ClientWaits(s: A.State, c: nat, token: Token, nc: Nonce) {
    && c < |s.clients| && s.clients[c].token == token && s.clients[c].nc == nc
    && s.clients[c].phase == A.AwaitingReply && s.clients[c].proved == None && s.clients[c].applied == None
  }

  lemma StillWaits(m: A.Params, trace: seq<A.State>, i: nat, k: nat, token: Token, nc: Nonce, ns: Nonce)
    requires i < |trace| && OthersAct(m, trace, i, A.OldServer(k)) && ServerWaits(trace[i], k, token, nc, ns)
    ensures ServerWaits(Last(trace), k, token, nc, ns)
  {
    var waits := (s: A.State) => ServerWaits(s, k, token, nc, ns);
    forall n | i < n <= |trace| - 1 && waits(trace[n - 1]) ensures waits(trace[n]) {
      assert OthersStep(m, trace[n - 1], trace[n], A.OldServer(k));
    }
    Runs.Along(waits, trace, i, |trace| - 1);
  }

  lemma ClientStillWaits(m: A.Params, trace: seq<A.State>, i: nat, c: nat, token: Token, nc: Nonce)
    requires i < |trace| && OthersAct(m, trace, i, A.OldClient(c)) && ClientWaits(trace[i], c, token, nc)
    ensures ClientWaits(Last(trace), c, token, nc)
  {
    var waits := (s: A.State) => ClientWaits(s, c, token, nc);
    forall n | i < n <= |trace| - 1 && waits(trace[n - 1]) ensures waits(trace[n]) {
      assert OthersStep(m, trace[n - 1], trace[n], A.OldClient(c));
    }
    Runs.Along(waits, trace, i, |trace| - 1);
  }

  // ---- ServerHandshake ----

  /** The first half: a call that has read a nonce and drawn its own starts a server run. It has
      signed its proof by then, even if writing that will fail. A call that does not get that
      far returns an error and is no run. */
  lemma ServerCallStarts(m: A.Params, trace: seq<A.State>, token: Token, nonce: Option<Nonce>, v: View)
      returns (longer: seq<A.State>, k: nat)
    requires A.IsRun(m, trace)
    requires nonce.Some? && |v.input| >= 32 ==> nonce.value !in Last(trace).nonces && nonce.value != v.input[..32]
    ensures A.IsRun(m, longer) && trace <= longer
    ensures nonce.None? || |v.input| < 32 ==> longer == trace && ServerSpec(m.mac, token, nonce, v).0.Err?
    ensures nonce.Some? && |v.input| >= 32 ==>
      && ServerWaits(Last(longer), k, token, v.input[..32], nonce.value)
      && k == |Last(trace).servers| && Last(longer).clients == Last(trace).clients
      && (token, Encode(ServerProof(v.input[..32], nonce.value))) in Last(longer).signed
  {
    longer, k := trace, |Last(trace).servers|;
    if nonce.Some? && |v.input| >= 32 {
      var t: A.State;
      longer, t := Then(m, trace, A.ServerReplies(token, v.input[..32], nonce.value));
    }
  }

  /** The second half, whatever others have done since: the run accepts if and only if the call
      returns a channel, which is the run's two nonces; otherwise it has failed. */
  lemma ServerCallEnds(m: A.Params, trace: seq<A.State>, i: nat, k: nat, token: Token, ns: Nonce, v: View)
      returns (longer: seq<A.State>)
    requires A.IsRun(m, trace) && i < |trace| && |v.input| >= 32
    requires ServerWaits(trace[i], k, token, v.input[..32], ns) && OthersAct(m, trace, i, A.OldServer(k))
    requires |v.input| >= 64 ==>
      NoForgery(m.mac, Last(trace).signed, token, ClientProof(v.input[..32], ns), v.input[32..64])
    ensures A.IsRun(m, longer) && trace <= longer && k < |Last(longer).servers|
    ensures
      var q := Last(longer).servers[k];
      var r := ServerSpec(m.mac, token, Some(ns), v).0;
      && q.token == token && q.nc == v.input[..32] && q.ns == ns
      && (q.acceptedAt.Some? <==> r.Ok?)
      && (if r.Ok? then q.phase == A.Accepted && r.value == Transcript(q.nc, q.ns) else q.phase == A.ServerFailed)
    ensures Last(longer).clients == Last(trace).clients && Last(longer).signed == Last(trace).signed
  {
    StillWaits(m, trace, i, k, token, v.input[..32], ns);
    ServerAcceptsExactly(m.mac, token, Some(ns), v);
    var t: A.State;
    if v.writes > 0 && |v.input| >= 64 {
      longer, t := Then(m, trace, A.ServerReads(k, v.input[32..64]));
    } else {
      longer, t := Then(m, trace, A.ServerAborts(k));
    }
  }

  // ---- ClientHandshake ----

  /** The first half: a call that has drawn a nonce starts a client run. */
  lemma ClientCallStarts(m: A.Params, trace: seq<A.State>, token: Token, nonce: Option<Nonce>, v: View)
      returns (longer: seq<A.State>, c: nat)
    requires A.IsRun(m, trace) && (nonce.Some? ==> nonce.value !in Last(trace).nonces)
    ensures A.IsRun(m, longer) && trace <= longer
    ensures nonce.None? ==> longer == trace && ClientSpec(m.mac, token, nonce, v).0.Err?
    ensures nonce.Some? ==>
      && ClientWaits(Last(longer), c, token, nonce.value)
      && c == |Last(trace).clients| && Last(longer).nonces == Last(trace).nonces + {nonce.value}
  {
    longer, c := trace, |Last(trace).clients|;
    if nonce.Some? {
      var t: A.State;
      longer, t := Then(m, trace, A.ClientStarts(token, nonce.value));
    }
  }

  /** The bytes the call has written: the proof only if the run has verified the server. */
  predicate WritesItsDue(mac: Hmac, token: Token, nc: Nonce, v: View, proved: bool) {
    var output := ClientSpec(mac, token, Some(nc), v).1.output;
    || output == v.output || output == v.output + nc
    || (proved && |v.input| >= 32 && output == v.output + nc + Proof(mac, token, nc, v.input[..32]))
  }

  lemma RightBytesWritten(mac: Hmac, token: Token, nc: Nonce, v: View)
    ensures WritesItsDue(mac, token, nc, v,
                         v.writes > 0 && |v.input| >= 64 && ReplyVerifies(mac, token, nc, v.input[..64]))
  {
    ClientOutcome(mac, token, nc, v);
    ClientAcceptsExactly(mac, token, Some(nc), v);
  }

  /** What a client run looks like once its call has returned: established if and only if the
      call returned a channel, which is the run's two nonces; it has verified the server if and
      only if a correct reply came, even if its own proof could not be written; and a call whose
      run has not verified the server has written its nonce at most, and no proof. */
  ghost predicate ClientEnded(m: A.Params, s: A.State, c: nat, token: Token, nc: Nonce, v: View) {
    && c < |s.clients|
    && var q := s.clients[c];
       var r := ClientSpec(m.mac, token, Some(nc), v).0;
       && q.token == token && q.nc == nc && q.applied == None
       && (if r.Ok? then q.phase == A.Established else q.phase == A.ClientFailed)
       && (r.Ok? ==> q.proved.Some? && r.value == Transcript(q.nc, q.proved.value.ns))
       && (q.proved.Some? <==> v.writes > 0 && |v.input| >= 64 && ReplyVerifies(m.mac, token, nc, v.input[..64]))
       && (q.proved.Some? ==> q.proved.value.ns == v.input[..32]
                              && (token, Encode(ClientProof(nc, q.proved.value.ns))) in s.signed)
       && WritesItsDue(m.mac, token, nc, v, q.proved.Some?)
  }

  /** The second half, whatever others have done since. */
  lemma ClientCallEnds(m: A.Params, trace: seq<A.State>, i: nat, c: nat, token: Token, nc: Nonce, v: View)
      returns (longer: seq<A.State>)
    requires A.IsRun(m, trace) && i < |trace|
    requires ClientWaits(trace[i], c, token, nc) && OthersAct(m, trace, i, A.OldClient(c))
    requires |v.input| >= 64 ==>
      NoForgery(m.mac, Last(trace).signed, token, ServerProof(nc, v.input[..32]), v.input[32..64])
    ensures A.IsRun(m, longer) && trace <= longer
    ensures ClientEnded(m, Last(longer), c, token, nc, v)
    ensures Last(longer).servers == Last(trace).servers && Last(trace).signed <= Last(longer).signed
  {
    ClientStillWaits(m, trace, i, c, token, nc);
    RightBytesWritten(m.mac, token, nc, v);
    var t: A.State;
    if v.writes > 0 && |v.input| >= 64 {
      longer := ReadReply(m, trace, c, token, nc, v);
    } else {
      ClientAcceptsExactly(m.mac, token, Some(nc), v);
      longer, t := Then(m, trace, A.ClientAborts(c));
    }
  }

  /** The reply is read, checked and answered. */
  lemma ReadReply(m: A.Params, trace: seq<A.State>, c: nat, token: Token, nc: Nonce, v: View)
      returns (longer: seq<A.State>)
    requires A.IsRun(m, trace) && v.writes > 0 && |v.input| >= 64 && ClientWaits(Last(trace), c, token, nc)
    requires NoForgery(m.mac, Last(trace).signed, token, ServerProof(nc, v.input[..32]), v.input[32..64])
    ensures A.IsRun(m, longer) && trace <= longer
    ensures ClientEnded(m, Last(longer), c, token, nc, v)
    ensures Last(longer).servers == Last(trace).servers && Last(trace).signed <= Last(longer).signed
  {
    var reply := v.input[..64];
    assert reply[..32] == v.input[..32] && reply[32..] == v.input[32..64];
    RightBytesWritten(m.mac, token, nc, v);
    var t: A.State;
    longer, t := Then(m, trace, A.ClientReads(c, reply));
    if ReplyVerifies(m.mac, token, nc, reply) {
      longer, t := Then(m, longer, A.ClientSends(c, v.writes > 1));
    }
  }

  // ---- calls that succeed ----

  /** Both calls have started, and the server has replied. */
  lemma BothStart(m: A.Params, trace: seq<A.State>, token: Token, nc: Nonce, ns: Nonce, cv: View, sv: View)
      returns (longer: seq<A.State>, c: nat, k: nat)
    requires A.IsRun(m, trace) && nc !in Last(trace).nonces && ns !in Last(trace).nonces && nc != ns
    requires |sv.input| >= 32 && sv.input[..32] == nc
    ensures A.IsRun(m, longer) && trace <= longer
    ensures ClientWaits(Last(longer), c, token, nc) && ServerWaits(Last(longer), k, token, nc, ns)
    ensures (token, Encode(ServerProof(nc, ns))) in Last(longer).signed
  {
    longer, c := ClientCallStarts(m, trace, token, Some(nc), cv);
    longer, k := ServerCallStarts(m, longer, token, Some(ns), sv);
  }

  /** Both calls end, each after it has read what the other wrote. */
  lemma BothEnd(m: A.Params, trace: seq<A.State>, c: nat, k: nat, token: Token, nc: Nonce, ns: Nonce,
      cv: View, sv: View) returns (longer: seq<A.State>)
    requires A.IsRun(m, trace) && ClientWaits(Last(trace), c, token, nc) && ServerWaits(Last(trace), k, token, nc, ns)
    requires (token, Encode(ServerProof(nc, ns))) in Last(trace).signed
    requires |cv.input| >= 64 && cv.input[..32] == ns && |sv.input| >= 64 && sv.input[..32] == nc
    requires ClientSpec(m.mac, token, Some(nc), cv).0 == Ok(Transcript(nc, ns))
    requires ServerSpec(m.mac, token, Some(ns), sv).0 == Ok(Transcript(nc, ns))
    ensures A.IsRun(m, longer) && trace <= longer && c < |Last(longer).clients| && k < |Last(longer).servers|
    ensures
      var p, q := Last(longer).clients[c], Last(longer).servers[k];
      && p.token == token && p.nc == nc && p.phase == A.Established && p.proved.Some? && p.proved.value.ns == ns
      && q.token == token && q.nc == nc && q.ns == ns && q.phase == A.Accepted && q.acceptedAt.Some?
  {
    longer := ClientCallEnds(m, trace, |trace| - 1, c, token, nc, cv);
    assert ServerWaits(Last(longer), k, token, nc, ns);
    longer := ServerCallEnds(m, longer, |longer| - 1, k, token, ns, sv);
  }

  /** Over reliable ordered streams, and from any run, with fresh nonces, the two calls are a
      client run and a server run that succeed together: the client's call starts, the server's
      replies, the client's checks and answers, the server's accepts. */
  lemma HandshakeIsARun(m: A.Params, trace: seq<A.State>, token: Token, nc: Nonce, ns: Nonce, cv: View, sv: View,
      cRest: Bytes, sRest: Bytes) returns (longer: seq<A.State>, c: nat, k: nat)
    requires A.IsRun(m, trace) && nc !in Last(trace).nonces && ns !in Last(trace).nonces && nc != ns
    requires cv.output == [] && sv.output == [] && cv.writes >= 2 && sv.writes >= 1
    requires cv.input == ServerSpec(m.mac, token, Some(ns), sv).1.output + cRest
    requires sv.input == ClientSpec(m.mac, token, Some(nc), cv).1.output + sRest
    ensures A.IsRun(m, longer) && trace <= longer
    ensures ClientSpec(m.mac, token, Some(nc), cv).0 == Ok(Transcript(nc, ns))
    ensures ServerSpec(m.mac, token, Some(ns), sv).0 == Ok(Transcript(nc, ns))
    ensures A.AcceptedBy(Last(longer), c, k)
    ensures
      var p, q := Last(longer).clients[c], Last(longer).servers[k];
      && p.token == token && p.nc == nc && p.phase == A.Established && p.proved.value.ns == ns
      && q.token == token && q.nc == nc && q.ns == ns && q.phase == A.Accepted
  {
    HandshakeCompletes(m.mac, token, nc, ns, cv, sv, cRest, sRest);
    ClientAcceptsExactly(m.mac, token, Some(nc), cv);
    ServerAcceptsExactly(m.mac, token, Some(ns), sv);
    assert sv.input[..32] == nc && cv.input[..32] == ns;
    longer, c, k := BothStart(m, trace, token, nc, ns, cv, sv);
    longer := BothEnd(m, longer, c, k, token, nc, ns, cv, sv);
    Matched(m, longer, c, k);
  }

  /** Runs that hold the same token and nonces, one established, one accepted, are matched. */
  lemma Matched(m: A.Params, trace: seq<A.State>, c: nat, k: nat)
    requires A.IsRun(m, trace) && c < |Last(trace).clients| && k < |Last(trace).servers|
    requires Last(trace).servers[k].acceptedAt.Some? && Last(trace).clients[c].nc == Last(trace).servers[k].nc
    ensures A.AcceptedBy(Last(trace), c, k)
  {
    A.RunsKeepInv(m, trace, |trace| - 1);
    var d: nat :| A.AcceptedBy(Last(trace), d, k);
    assert d == c;
  }
}
