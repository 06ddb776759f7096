/** Any number of handshakes and control sessions, interleaved, over a network that may
    lose, repeat, reorder, alter and invent messages: whatever bytes a run reads are chosen
    freely by the environment. Two things are assumed: a random nonce is one that nobody has
    chosen or received before, and no tag verifies over a string that no honest party ran
    through the code under that token (Mac.NoForgery). */
module Agreement {
  import opened Bytes
  import opened Mac
  import opened Handshake
  import opened Control
  import Runs

  datatype Params = Params(mac: Hmac, codec: Codec)

  datatype ClientPhase = AwaitingReply | Signed | Established | Configured | ClientFailed
  datatype Proved = Proved(ns: Nonce, at: nat)
  datatype Applied = Applied(cfg: Config, at: nat)

  /** One call of ClientHandshake and of Receive after it. proved is set when the server's
      proof verified and the client's own was computed, before it is written. */
  datatype Client = Client(token: Token, nc: Nonce, startedAt: nat,
                           proved: Option<Proved>, applied: Option<Applied>, phase: ClientPhase)

  datatype ServerPhase = Replied | Accepted | Announced | ServerFailed

  /** One call of ServerHandshake that has read a nonce, and of Send after it. */
  datatype Server = Server(token: Token, nc: Nonce, ns: Nonce, repliedAt: nat,
                           acceptedAt: Option<nat>, announced: Option<Applied>, phase: ServerPhase)

  /** nonces holds every nonce chosen or received so far, signed every string signed so far;
      now counts steps. */
  datatype State = State(clients: seq<Client>, servers: seq<Server>,
                         signed: set<(Token, Bytes)>, nonces: set<Bytes>, now: nat)

  datatype Event =
    | ClientStarts(token: Token, nc: Nonce)
    | ClientReads(c: nat, reply: Bytes)
    | ClientSends(c: nat, ok: bool)
    | ClientReceives(c: nat, body: Bytes, tag: Tag)
    | ClientAborts(c: nat)
    | ServerReplies(token: Token, nc: Nonce, ns: Nonce)
    | ServerReads(k: nat, tag: Tag)
    | ServerAnnounces(k: nat, cfg: Config)
    | ServerAborts(k: nat)
    | SignsElsewhere(token: Token, input: Input)

  predicate Init(s: State) {
    s.clients == [] && s.servers == [] && s.signed == {} && s.nonces == {}
  }

  ghost predicate Enabled(m: Params, s: State, e: Event) {
    match e
    case ClientStarts(_, nc) => nc !in s.nonces
    case ClientReads(c, reply) =>
      && c < |s.clients| && s.clients[c].phase == AwaitingReply && |reply| == NONCE_SIZE + TAG_SIZE
      && NoForgery(m.mac, s.signed, s.clients[c].token,
                   ServerProof(s.clients[c].nc, ReplyNonce(reply)), reply[NONCE_SIZE..])
    case ClientSends(c, _) => c < |s.clients| && s.clients[c].phase == Signed
    case ClientReceives(c, body, tag) =>
      && c < |s.clients| && s.clients[c].phase == Established && s.clients[c].proved.Some?
      && |body| <= MAX_BODY_SIZE
      && NoForgery(m.mac, s.signed, s.clients[c].token,
                   ConfigFrame(Transcript(s.clients[c].nc, s.clients[c].proved.value.ns), body), tag)
    case ClientAborts(c) => c < |s.clients|
    case ServerReplies(_, nc, ns) => ns !in s.nonces && ns != nc
    case ServerReads(k, tag) =>
      && k < |s.servers| && s.servers[k].phase == Replied
      && NoForgery(m.mac, s.signed, s.servers[k].token, ClientProof(s.servers[k].nc, s.servers[k].ns), tag)
    case ServerAnnounces(k, cfg) =>
      && k < |s.servers| && s.servers[k].phase == Accepted
      && Acceptable(cfg) && m.codec.encode(cfg).Some? && |m.codec.encode(cfg).value| <= MAX_BODY_SIZE
    case ServerAborts(k) => k < |s.servers|
    case SignsElsewhere(_, input) => input.Datagram? || input.KeyPurpose?
  }

  function WithClient(s: State, c: nat, r: Client): State
    requires c < |s.clients|
  {
    s.(clients := s.clients[c := r], now := s.now + 1)
  }

  function WithServer(s: State, k: nat, r: Server): State
    requires k < |s.servers|
  {
    s.(servers := s.servers[k := r], now := s.now + 1)
  }

  function Signing(s: State, token: Token, input: Input): State {
    s.(signed := s.signed + {(token, Encode(input))})
  }

  ghost function Apply(m: Params, s: State, e: Event): State
    requires Enabled(m, s, e)
  {
    match e
    case ClientStarts(token, nc) =>
      s.(clients := s.clients + [Client(token, nc, s.now, None, None, AwaitingReply)],
         nonces := s.nonces + {nc}, now := s.now + 1)
    case ClientReads(c, reply) =>
      var r := s.clients[c];
      var ns := ReplyNonce(reply);
      var seen := s.(nonces := s.nonces + {ns});
      if ReplyVerifies(m.mac, r.token, r.nc, reply)
      then Signing(WithClient(seen, c, r.(proved := Some(Proved(ns, s.now)), phase := Signed)),
                   r.token, ClientProof(r.nc, ns))
      else WithClient(seen, c, r.(phase := ClientFailed))
    case ClientSends(c, ok) =>
      WithClient(s, c, s.clients[c].(phase := if ok then Established else ClientFailed))
    case ClientReceives(c, body, tag) =>
      var r := s.clients[c];
      (match Opened(m.mac, m.codec, r.token, Transcript(r.nc, r.proved.value.ns), body, tag)
       case Ok(cfg) => WithClient(s, c, r.(applied := Some(Applied(cfg, s.now)), phase := Configured))
       case Err(_) => WithClient(s, c, r.(phase := ClientFailed)))
    case ClientAborts(c) => WithClient(s, c, s.clients[c].(phase := ClientFailed))
    case ServerReplies(token, nc, ns) =>
      Signing(s.(servers := s.servers + [Server(token, nc, ns, s.now, None, None, Replied)],
                 nonces := s.nonces + {nc, ns}, now := s.now + 1),
              token, ServerProof(nc, ns))
    case ServerReads(k, tag) =>
      var r := s.servers[k];
      if Verify(m.mac, r.token, ClientProof(r.nc, r.ns), tag)
      then WithServer(s, k, r.(acceptedAt := Some(s.now), phase := Accepted))
      else WithServer(s, k, r.(phase := ServerFailed))
    case ServerAnnounces(k, cfg) =>
      var r := s.servers[k];
      Signing(WithServer(s, k, r.(announced := Some(Applied(cfg, s.now)), phase := Announced)),
              r.token, ConfigFrame(Transcript(r.nc, r.ns), m.codec.encode(cfg).value))
    case ServerAborts(k) => WithServer(s, k, s.servers[k].(phase := ServerFailed))
    case SignsElsewhere(token, input) => Signing(s.(now := s.now + 1), token, input)
  }

  ghost predicate Step(m: Params, s: State, e: Event, t: State) {
    Enabled(m, s, e) && t == Apply(m, s, e)
  }

  ghost predicate Next(m: Params, s: State, t: State) {
    exists e :: Step(m, s, e, t)
  }

  ghost function Steps(m: Params): (State, State) -> bool {
    (s, t) => Next(m, s, t)
  }

  ghost predicate IsRun(m: Params, trace: seq<State>) {
    Runs.IsRun(Init, Steps(m), trace)
  }

  // ---- who signed what ----

  ghost predicate ClientSigned(s: State, c: nat, token: Token, nc: Nonce, ns: Nonce) {
    && c < |s.clients| && s.clients[c].token == token && s.clients[c].nc == nc
    && s.clients[c].proved.Some? && s.clients[c].proved.value.ns == ns
  }

  ghost predicate ServerSigned(s: State, k: nat, token: Token, nc: Nonce, ns: Nonce) {
    k < |s.servers| && s.servers[k].token == token && s.servers[k].nc == nc && s.servers[k].ns == ns
  }

  ghost predicate ServerAnnounced(m: Params, s: State, k: nat, token: Token, ch: Channel, body: Bytes) {
    && k < |s.servers| && s.servers[k].token == token
    && Transcript(s.servers[k].nc, s.servers[k].ns) == ch
    && s.servers[k].announced.Some? && Acceptable(s.servers[k].announced.value.cfg)
    && m.codec.encode(s.servers[k].announced.value.cfg) == Some(body)
  }

  ghost predicate Origin(m: Params, s: State, token: Token, x: Input) {
    match x
    case ClientProof(nc, ns) => exists c :: ClientSigned(s, c, token, nc, ns)
    case ServerProof(nc, ns) => exists k :: ServerSigned(s, k, token, nc, ns)
    case ConfigFrame(ch, body) => exists k :: ServerAnnounced(m, s, k, token, ch, body)
    case Datagram(_, _) => true
    case KeyPurpose(_) => true
  }

  // ---- the invariant ----

  ghost predicate SignedHaveOrigin(m: Params, s: State) {
    forall token, x :: (token, Encode(x)) in s.signed ==> Origin(m, s, token, x)
  }

  /** Honest nonces are told apart, all of them have been recorded, and equal nonces order
      the runs that hold them. */
  ghost predicate NoncesFresh(s: State) {
    && (forall c :: 0 <= c < |s.clients| ==> s.clients[c].nc in s.nonces)
    && (forall c :: 0 <= c < |s.clients| && s.clients[c].proved.Some? ==> s.clients[c].proved.value.ns in s.nonces)
    && (forall k :: 0 <= k < |s.servers| ==> s.servers[k].nc in s.nonces && s.servers[k].ns in s.nonces)
    && (forall c, d :: 0 <= c < d < |s.clients| ==> s.clients[c].nc != s.clients[d].nc)
    && (forall k, l :: 0 <= k < l < |s.servers| ==> s.servers[k].ns != s.servers[l].ns)
  }

  /** Everything recorded happened in the past. */
  ghost predicate Past(s: State) {
    && (forall c :: 0 <= c < |s.clients| ==> s.clients[c].startedAt < s.now)
    && (forall c :: 0 <= c < |s.clients| && s.clients[c].proved.Some? ==> s.clients[c].proved.value.at < s.now)
    && (forall k :: 0 <= k < |s.servers| ==> s.servers[k].repliedAt < s.now)
    && (forall k :: 0 <= k < |s.servers| && s.servers[k].acceptedAt.Some? ==> s.servers[k].acceptedAt.value < s.now)
    && (forall k :: 0 <= k < |s.servers| && s.servers[k].announced.Some? ==> s.servers[k].announced.value.at < s.now)
  }

  /** A server that read a client's nonce read it after the client started; a client that
      verified a server's nonce did so after the server replied. */
  ghost predicate InOrder(r: Client, q: Server) {
    && (r.nc == q.nc ==> r.startedAt < q.repliedAt)
    && (r.proved.Some? && r.proved.value.ns == q.ns ==> q.repliedAt < r.proved.value.at)
  }

  ghost predicate Ordered(s: State) {
    && Past(s)
    && (forall c, k :: 0 <= c < |s.clients| && 0 <= k < |s.servers| ==> InOrder(s.clients[c], s.servers[k]))
  }

  /** Client run c and server run k hold the same token and the same two nonces, and c has
      verified k's proof: started, then answered, then verified. */
  ghost predicate Partners(s: State, c: nat, k: nat) {
    && c < |s.clients| && k < |s.servers|
    && s.clients[c].token == s.servers[k].token && s.clients[c].nc == s.servers[k].nc
    && s.clients[c].proved.Some? && s.clients[c].proved.value.ns == s.servers[k].ns
    && s.clients[c].startedAt < s.servers[k].repliedAt < s.clients[c].proved.value.at
  }

  ghost predicate ProvedHavePartner(s: State) {
    forall c :: 0 <= c < |s.clients| && s.clients[c].proved.Some? ==> exists k :: Partners(s, c, k)
  }

  ghost predicate AcceptedBy(s: State, c: nat, k: nat) {
    && Partners(s, c, k) && s.servers[k].acceptedAt.Some?
    && s.clients[c].proved.value.at < s.servers[k].acceptedAt.value
  }

  ghost predicate AcceptedHavePartner(s: State) {
    forall k :: 0 <= k < |s.servers| && s.servers[k].acceptedAt.Some? ==> exists c :: AcceptedBy(s, c, k)
  }

  /** cfg decodes from the very bytes that other encodes to. */
  predicate SameBytes(codec: Codec, cfg: Config, other: Config) {
    codec.encode(other).Some? && codec.decode(codec.encode(other).value) == Some(cfg)
  }

  /** What client run c applied is what its partner k had announced before, byte for byte. */
  ghost predicate AppliedFrom(m: Params, s: State, c: nat, k: nat) {
    && Partners(s, c, k) && s.clients[c].applied.Some? && s.servers[k].announced.Some?
    && Acceptable(s.servers[k].announced.value.cfg)
    && SameBytes(m.codec, s.clients[c].applied.value.cfg, s.servers[k].announced.value.cfg)
    && s.servers[k].announced.value.at < s.clients[c].applied.value.at
  }

  ghost predicate AppliedHavePartner(m: Params, s: State) {
    forall c :: 0 <= c < |s.clients| && s.clients[c].applied.Some? ==> exists k :: AppliedFrom(m, s, c, k)
  }

  ghost predicate Inv(m: Params, s: State) {
    && SignedHaveOrigin(m, s) && NoncesFresh(s) && Ordered(s)
    && ProvedHavePartner(s) && AcceptedHavePartner(s) && AppliedHavePartner(m, s)
    && Phases(s)
  }

  predicate ClientPhaseOk(r: Client) {
    && (r.phase == AwaitingReply ==> r.proved.None?)
    && (r.phase in {AwaitingReply, Signed, Established} ==> r.applied.None?)
  }

  predicate ServerPhaseOk(r: Server) {
    && (r.phase == Replied ==> r.acceptedAt.None?)
    && (r.phase in {Replied, Accepted} ==> r.announced.None?)
  }

  /** Each run does each thing once, in the order of its code. */
  ghost predicate Phases(s: State) {
    && (forall c :: 0 <= c < |s.clients| ==> ClientPhaseOk(s.clients[c]))
    && (forall k :: 0 <= k < |s.servers| ==> ServerPhaseOk(s.servers[k]))
  }

  // ---- runs only add to what is known ----

  ghost predicate ClientExtends(r: Client, r': Client) {
    && r'.token == r.token && r'.nc == r.nc && r'.startedAt == r.startedAt
    && (r.proved.Some? ==> r'.proved == r.proved)
    && (r.applied.Some? ==> r'.applied == r.applied)
  }

  ghost predicate ServerExtends(r: Server, r': Server) {
    && r'.token == r.token && r'.nc == r.nc && r'.ns == r.ns && r'.repliedAt == r.repliedAt
    && (r.acceptedAt.Some? ==> r'.acceptedAt == r.acceptedAt)
    && (r.announced.Some? ==> r'.announced == r.announced)
  }

  /** t knows at least what s knew, about the same runs. */
  ghost predicate Extends(s: State, t: State) {
    && |s.clients| <= |t.clients| && |s.servers| <= |t.servers|
    && (forall c :: 0 <= c < |s.clients| ==> ClientExtends(s.clients[c], t.clients[c]))
    && (forall k :: 0 <= k < |s.servers| ==> ServerExtends(s.servers[k], t.servers[k]))
  }

  /** The one run an event is about. */
  datatype Subject = NewClient | OldClient(c: nat) | NewServer | OldServer(k: nat) | Nobody

  function SubjectOf(e: Event): Subject {
    match e
    case ClientStarts(_, _) => NewClient
    case ClientReads(c, _) => OldClient(c)
    case ClientSends(c, _) => OldClient(c)
    case ClientReceives(c, _, _) => OldClient(c)
    case ClientAborts(c) => OldClient(c)
    case ServerReplies(_, _, _) => NewServer
    case ServerReads(k, _) => OldServer(k)
    case ServerAnnounces(k, _) => OldServer(k)
    case ServerAborts(k) => OldServer(k)
    case SignsElsewhere(_, _) => Nobody
  }

  /** What one event changes: one run is added, or one run learns something; every new nonce
      is recorded, and a nonce that an honest run chose itself was not recorded before. */
  ghost predicate Shape(s: State, e: Event, t: State) {
    && t.now == s.now + 1 && s.nonces <= t.nonces
    && match SubjectOf(e)
       case NewClient =>
         && t.servers == s.servers && |t.clients| == |s.clients| + 1
         && t.clients == s.clients + [t.clients[|s.clients|]]
         && var r := t.clients[|s.clients|];
            && r.proved.None? && r.applied.None? && r.startedAt == s.now
            && r.nc !in s.nonces && r.nc in t.nonces
       case OldClient(c) =>
         && t.servers == s.servers && c < |s.clients| && |t.clients| == |s.clients|
         && t.clients == s.clients[c := t.clients[c]]
         && ClientExtends(s.clients[c], t.clients[c])
         && (t.clients[c].proved != s.clients[c].proved ==>
               t.clients[c].proved.value.at == s.now && t.clients[c].proved.value.ns in t.nonces)
       case NewServer =>
         && t.clients == s.clients && |t.servers| == |s.servers| + 1
         && t.servers == s.servers + [t.servers[|s.servers|]]
         && var r := t.servers[|s.servers|];
            && r.acceptedAt.None? && r.announced.None? && r.repliedAt == s.now
            && r.ns !in s.nonces && r.nc in t.nonces && r.ns in t.nonces
       case OldServer(k) =>
         && t.clients == s.clients && k < |s.servers| && |t.servers| == |s.servers|
         && t.servers == s.servers[k := t.servers[k]]
         && ServerExtends(s.servers[k], t.servers[k])
         && (t.servers[k].acceptedAt != s.servers[k].acceptedAt ==> t.servers[k].acceptedAt.value == s.now)
         && (t.servers[k].announced != s.servers[k].announced ==> t.servers[k].announced.value.at == s.now)
       case Nobody => t.clients == s.clients && t.servers == s.servers
  }

  lemma StepShape(m: Params, s: State, e: Event, t: State)
    requires Phases(s) && Step(m, s, e, t)
    ensures Shape(s, e, t)
  {
    match SubjectOf(e) {
      case OldClient(c) =>
        assert ClientPhaseOk(s.clients[c]);
        assert t.clients == s.clients[c := t.clients[c]];
      case OldServer(k) =>
        assert ServerPhaseOk(s.servers[k]);
        assert t.servers == s.servers[k := t.servers[k]];
      case _ =>
    }
  }

  lemma StepKeepsPhases(m: Params, s: State, e: Event, t: State)
    requires Phases(s) && Step(m, s, e, t)
    ensures Phases(t)
  {
    StepShape(m, s, e, t);
    match SubjectOf(e) {
      case OldClient(c) => assert ClientPhaseOk(s.clients[c]) && ClientPhaseOk(t.clients[c]);
      case OldServer(k) => assert ServerPhaseOk(s.servers[k]) && ServerPhaseOk(t.servers[k]);
      case NewClient => assert ClientPhaseOk(t.clients[|s.clients|]);
      case NewServer => assert ServerPhaseOk(t.servers[|s.servers|]);
      case Nobody =>
    }
  }

  lemma ShapeExtends(s: State, e: Event, t: State)
    requires Shape(s, e, t)
    ensures Extends(s, t)
  {
  }

  lemma StepExtends(m: Params, s: State, e: Event, t: State)
    requires Phases(s) && Step(m, s, e, t)
    ensures Extends(s, t)
  {
    StepShape(m, s, e, t);
    ShapeExtends(s, e, t);
  }

  lemma OriginPersists(m: Params, s: State, t: State, token: Token, x: Input)
    requires Extends(s, t) && Origin(m, s, token, x)
    ensures Origin(m, t, token, x)
  {
    match x {
      case ClientProof(nc, ns) =>
        var c :| ClientSigned(s, c, token, nc, ns);
        assert ClientSigned(t, c, token, nc, ns);
      case ServerProof(nc, ns) =>
        var k :| ServerSigned(s, k, token, nc, ns);
        assert ServerSigned(t, k, token, nc, ns);
      case ConfigFrame(ch, body) =>
        var k :| ServerAnnounced(m, s, k, token, ch, body);
        assert ServerAnnounced(m, t, k, token, ch, body);
      case _ =>
    }
  }

  /** If a step signs at most one new string, and that one has an origin, all still have one. */
  lemma SignedStep(m: Params, s: State, t: State, token: Token, x: Input)
    requires SignedHaveOrigin(m, s) && Extends(s, t)
    requires t.signed == s.signed || (t.signed == s.signed + {(token, Encode(x))} && Origin(m, t, token, x))
    ensures SignedHaveOrigin(m, t)
  {
    forall u, y | (u, Encode(y)) in t.signed ensures Origin(m, t, u, y) {
      if (u, Encode(y)) in s.signed {
        OriginPersists(m, s, t, u, y);
      } else {
        Unambiguous(y, x);
      }
    }
  }

  /** The string an event signs, and under which token, if it signs one. */
  ghost function SignedBy(m: Params, s: State, e: Event): (Token, Input)
    requires Enabled(m, s, e)
  {
    match e
    case ClientReads(c, reply) => (s.clients[c].token, ClientProof(s.clients[c].nc, ReplyNonce(reply)))
    case ServerReplies(token, nc, ns) => (token, ServerProof(nc, ns))
    case ServerAnnounces(k, cfg) =>
      (s.servers[k].token, ConfigFrame(Transcript(s.servers[k].nc, s.servers[k].ns), m.codec.encode(cfg).value))
    case SignsElsewhere(token, input) => (token, input)
    case _ => ("", KeyPurpose([]))
  }

  lemma StepKeepsSigned(m: Params, s: State, e: Event, t: State)
    requires Inv(m, s) && Step(m, s, e, t)
    ensures SignedHaveOrigin(m, t)
  {
    StepExtends(m, s, e, t);
    var (token, x) := SignedBy(m, s, e);
    match e {
      case ClientReads(c, reply) =>
        if t.signed != s.signed { assert ClientSigned(t, c, token, x.nc, x.ns); }
      case ServerReplies(_, nc, ns) => assert ServerSigned(t, |s.servers|, token, nc, ns);
      case ServerAnnounces(k, cfg) => assert ServerAnnounced(m, t, k, token, x.channel, x.body);
      case _ =>
    }
    SignedStep(m, s, t, token, x);
  }

  lemma ShapeKeepsNonces(s: State, e: Event, t: State)
    requires NoncesFresh(s) && Shape(s, e, t)
    ensures NoncesFresh(t)
  {
  }

  lemma ShapeKeepsPast(s: State, e: Event, t: State)
    requires Past(s) && Shape(s, e, t)
    ensures Past(t)
  {
  }

  lemma ShapeKeepsOrder(s: State, e: Event, t: State)
    requires NoncesFresh(s) && Ordered(s) && Shape(s, e, t)
    ensures Ordered(t)
  {
    ShapeKeepsPast(s, e, t);
    forall c, k | 0 <= c < |t.clients| && 0 <= k < |t.servers| ensures InOrder(t.clients[c], t.servers[k]) {
      if c < |s.clients| && k < |s.servers| {
        assert InOrder(s.clients[c], s.servers[k]);
      }
    }
  }

  lemma StepKeepsNonces(m: Params, s: State, e: Event, t: State)
    requires Inv(m, s) && Step(m, s, e, t)
    ensures NoncesFresh(t) && Ordered(t)
  {
    StepShape(m, s, e, t);
    ShapeKeepsNonces(s, e, t);
    ShapeKeepsOrder(s, e, t);
  }

  lemma PartnersPersist(m: Params, s: State, t: State, c: nat, k: nat)
    requires Extends(s, t) && Partners(s, c, k)
    ensures Partners(t, c, k)
    ensures AcceptedBy(s, c, k) ==> AcceptedBy(t, c, k)
    ensures AppliedFrom(m, s, c, k) ==> AppliedFrom(m, t, c, k)
  {
  }

  /** A run learns its partner's nonce in one way only: from a reply that verified. */
  lemma WhoProves(m: Params, s: State, e: Event, t: State, c: nat)
    requires Phases(s) && Step(m, s, e, t)
    requires c < |t.clients| && t.clients[c].proved.Some? && (c < |s.clients| ==> s.clients[c].proved.None?)
    ensures e.ClientReads? && e.c == c && |e.reply| == NONCE_SIZE + TAG_SIZE
    ensures t.clients[c].token == s.clients[c].token && t.clients[c].nc == s.clients[c].nc
    ensures t.clients[c].proved.value.ns == ReplyNonce(e.reply)
    ensures ReplyVerifies(m.mac, s.clients[c].token, s.clients[c].nc, e.reply)
  {
  }

  lemma NewlyProvedHasPartner(m: Params, s: State, e: Event, t: State, c: nat)
    requires Inv(m, s) && Step(m, s, e, t) && Extends(s, t) && Ordered(t)
    requires c < |t.clients| && t.clients[c].proved.Some? && (c < |s.clients| ==> s.clients[c].proved.None?)
    ensures exists k :: Partners(t, c, k)
  {
    WhoProves(m, s, e, t, c);
    var token, nc, ns := t.clients[c].token, t.clients[c].nc, t.clients[c].proved.value.ns;
    assert Origin(m, s, token, ServerProof(nc, ns));
    var k: nat :| ServerSigned(s, k, token, nc, ns);
    assert ServerExtends(s.servers[k], t.servers[k]);
    assert InOrder(t.clients[c], t.servers[k]);
    assert Partners(t, c, k);
  }

  lemma StepKeepsProved(m: Params, s: State, e: Event, t: State)
    requires Inv(m, s) && Step(m, s, e, t)
    ensures ProvedHavePartner(t)
  {
    StepExtends(m, s, e, t);
    StepKeepsNonces(m, s, e, t);
    forall c | 0 <= c < |t.clients| && t.clients[c].proved.Some? ensures exists k :: Partners(t, c, k) {
      if c < |s.clients| && s.clients[c].proved.Some? {
        var k :| Partners(s, c, k);
        PartnersPersist(m, s, t, c, k);
      } else {
        NewlyProvedHasPartner(m, s, e, t, c);
      }
    }
  }

  /** A run accepts in one way only: on a proof that verified. */
  lemma WhoAccepts(m: Params, s: State, e: Event, t: State, k: nat)
    requires Phases(s) && Step(m, s, e, t)
    requires k < |t.servers| && t.servers[k].acceptedAt.Some? && (k < |s.servers| ==> s.servers[k].acceptedAt.None?)
    ensures e.ServerReads? && e.k == k && t.servers[k] == s.servers[k].(acceptedAt := Some(s.now), phase := Accepted)
    ensures t.clients == s.clients && Verify(m.mac, s.servers[k].token, ClientProof(s.servers[k].nc,
        s.servers[k].ns), e.tag)
  {
  }

  lemma NewlyAcceptedHasPartner(m: Params, s: State, e: Event, t: State, k: nat)
    requires Inv(m, s) && Step(m, s, e, t)
    requires k < |t.servers| && t.servers[k].acceptedAt.Some? && (k < |s.servers| ==> s.servers[k].acceptedAt.None?)
    ensures exists c :: AcceptedBy(t, c, k)
  {
    WhoAccepts(m, s, e, t, k);
    var token, nc, ns := t.servers[k].token, t.servers[k].nc, t.servers[k].ns;
    assert Origin(m, s, token, ClientProof(nc, ns));
    var c: nat :| ClientSigned(s, c, token, nc, ns);
    assert InOrder(s.clients[c], s.servers[k]);
    assert AcceptedBy(t, c, k);
  }

  lemma StepKeepsAccepted(m: Params, s: State, e: Event, t: State)
    requires Inv(m, s) && Step(m, s, e, t)
    ensures AcceptedHavePartner(t)
  {
    StepExtends(m, s, e, t);
    forall k | 0 <= k < |t.servers| && t.servers[k].acceptedAt.Some? ensures exists c :: AcceptedBy(t, c, k) {
      if k < |s.servers| && s.servers[k].acceptedAt.Some? {
        var c :| AcceptedBy(s, c, k);
        PartnersPersist(m, s, t, c, k);
      } else {
        NewlyAcceptedHasPartner(m, s, e, t, k);
      }
    }
  }

  /** A run applies in one way only: on a frame that verified and opened. */
  lemma WhoApplies(m: Params, s: State, e: Event, t: State, c: nat)
    requires Phases(s) && Step(m, s, e, t)
    requires c < |t.clients| && t.clients[c].applied.Some? && (c < |s.clients| ==> s.clients[c].applied.None?)
    ensures e.ClientReceives? && e.c == c && c < |s.clients| && s.clients[c].proved.Some? && t.servers == s.servers
    ensures
      var r := s.clients[c];
      var ch := Transcript(r.nc, r.proved.value.ns);
      && Verify(m.mac, r.token, ConfigFrame(ch, e.body), e.tag)
      && m.codec.decode(e.body) == Some(t.clients[c].applied.value.cfg)
      && t.clients[c] == r.(applied := t.clients[c].applied, phase := Configured)
          && t.clients[c].applied.value.at == s.now
  {
  }

  lemma NewlyAppliedHasPartner(m: Params, s: State, e: Event, t: State, c: nat)
    requires Inv(m, s) && Step(m, s, e, t)
    requires c < |t.clients| && t.clients[c].applied.Some? && (c < |s.clients| ==> s.clients[c].applied.None?)
    ensures exists k :: AppliedFrom(m, t, c, k)
  {
    WhoApplies(m, s, e, t, c);
    var r := s.clients[c];
    var ch := Transcript(r.nc, r.proved.value.ns);
    assert Origin(m, s, r.token, ConfigFrame(ch, e.body));
    var k: nat :| ServerAnnounced(m, s, k, r.token, ch, e.body);
    TranscriptInjective(r.nc, r.proved.value.ns, s.servers[k].nc, s.servers[k].ns);
    assert InOrder(r, s.servers[k]);
    assert AppliedFrom(m, t, c, k);
  }

  lemma StepKeepsApplied(m: Params, s: State, e: Event, t: State)
    requires Inv(m, s) && Step(m, s, e, t)
    ensures AppliedHavePartner(m, t)
  {
    StepExtends(m, s, e, t);
    forall c | 0 <= c < |t.clients| && t.clients[c].applied.Some? ensures exists k :: AppliedFrom(m, t, c, k) {
      if c < |s.clients| && s.clients[c].applied.Some? {
        var k :| AppliedFrom(m, s, c, k);
        PartnersPersist(m, s, t, c, k);
      } else {
        NewlyAppliedHasPartner(m, s, e, t, c);
      }
    }
  }

  lemma StepKeepsInv(m: Params, s: State, e: Event, t: State)
    requires Inv(m, s) && Step(m, s, e, t)
    ensures Inv(m, t)
  {
    StepKeepsSigned(m, s, e, t);
    StepKeepsNonces(m, s, e, t);
    StepKeepsPhases(m, s, e, t);
    StepKeepsProved(m, s, e, t);
    StepKeepsAccepted(m, s, e, t);
    StepKeepsApplied(m, s, e, t);
  }

  lemma RunsKeepInv(m: Params, trace: seq<State>, i: nat)
    requires IsRun(m, trace) && i < |trace|
    ensures Inv(m, trace[i])
  {
    forall s, t | Inv(m, s) && Steps(m)(s, t) ensures Inv(m, t) {
      var e :| Step(m, s, e, t);
      StepKeepsInv(m, s, e, t);
    }
    Runs.Invariance(Init, Steps(m), s => Inv(m, s), trace, i);
  }

  // ---- main results ----

  /** A client run has at most one partner and a server run has at most one partner. */
  lemma PartnersUnique(s: State, c: nat, k: nat, d: nat, l: nat)
    requires NoncesFresh(s) && Partners(s, c, k) && Partners(s, d, l)
    ensures c == d <==> k == l
  {
  }

  /** Injective agreement, server side: at every point of every run, each server run that has
      accepted is matched by exactly one client run, which verified this server's proof and
      signed the same two nonces under the same token, in the right order of time; and no
      other server run has the same match. */
  lemma ServerAgreement(m: Params, trace: seq<State>, i: nat, k: nat)
    requires IsRun(m, trace) && i < |trace|
    requires k < |trace[i].servers| && trace[i].servers[k].acceptedAt.Some?
    ensures exists c :: AcceptedBy(trace[i], c, k)
    ensures forall c, d :: Partners(trace[i], c, k) && Partners(trace[i], d, k) ==> c == d
    ensures forall c, l :: Partners(trace[i], c, k) && Partners(trace[i], c, l) ==> l == k
  {
    RunsKeepInv(m, trace, i);
  }

  /** Injective agreement, client side: each client run that verified a server is matched by
      exactly one server run, which chose its nonce in reply to this client's, after this
      client had started; and no other client run has the same match. */
  lemma ClientAgreement(m: Params, trace: seq<State>, i: nat, c: nat)
    requires IsRun(m, trace) && i < |trace|
    requires c < |trace[i].clients| && trace[i].clients[c].proved.Some?
    ensures exists k :: Partners(trace[i], c, k)
    ensures forall k, l :: Partners(trace[i], c, k) && Partners(trace[i], c, l) ==> k == l
    ensures forall k, d :: Partners(trace[i], c, k) && Partners(trace[i], d, k) ==> d == c
  {
    RunsKeepInv(m, trace, i);
  }

  /** Control agreement: whatever a client run applies, its one matched server run announced
      it, for this same handshake, earlier: the client decoded the very bytes the server had
      encoded, so with a codec that round-trips it applies an Equal configuration. */
  lemma ControlAgreement(m: Params, trace: seq<State>, i: nat, c: nat)
    requires IsRun(m, trace) && i < |trace|
    requires c < |trace[i].clients| && trace[i].clients[c].applied.Some?
    ensures exists k: nat :: AppliedFrom(m, trace[i], c, k)
    ensures forall k: nat :: Partners(trace[i], c, k) ==>
      && AppliedFrom(m, trace[i], c, k)
      && (RoundTrips(m.codec) ==>
            Equal(trace[i].clients[c].applied.value.cfg, trace[i].servers[k].announced.value.cfg))
  {
    RunsKeepInv(m, trace, i);
    var k: nat :| AppliedFrom(m, trace[i], c, k);
    forall l: nat | Partners(trace[i], c, l) ensures l == k {
      PartnersUnique(trace[i], c, k, c, l);
    }
    EqualIsEquality(trace[i].clients[c].applied.value.cfg, trace[i].servers[k].announced.value.cfg);
  }
}
