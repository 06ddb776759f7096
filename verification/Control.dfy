/** The control message of internal/control: one authenticated frame, bound to the
    handshake it follows, that tells the client which transport to run. */
module Control {
  import opened Bytes
  import opened Mac
  import opened Streams
  import opened Handshake

  const MAX_BODY_SIZE := 4096

  datatype KCP = KCP(noDelay: int, interval: int, resend: int, noCongestion: int,
                     sndWnd: int, rcvWnd: int, dataShards: int, parityShards: int)
  {
    predicate Valid() {
      interval > 0 && sndWnd > 0 && rcvWnd > 0 && dataShards >= 0 && parityShards >= 0
    }
  }

  datatype Config = Config(protocol: string, port: string, kcp: Option<KCP>)

  const SUPPORTED: seq<string> :=
    ["tcp", "udp", "ws", "wss", "tcpmux", "wsmux", "wssmux", "utcpmux", "quic", "stealth"]

  /** What Receive checks after decoding. */
  predicate Acceptable(c: Config) {
    c.protocol in SUPPORTED && (c.kcp.Some? ==> c.kcp.value.Valid())
  }

  /** proto.Parse: a search through the supported names. */
  method Parse(s: string) returns (ok: bool)
    ensures ok <==> s in SUPPORTED
  {
    for i := 0 to |SUPPORTED|
      invariant s !in SUPPORTED[..i]
    {
      if SUPPORTED[i] == s { return true; }
    }
    return false;
  }

  /** KCP.Validate, branch by branch. */
  method Validate(k: KCP) returns (ok: bool)
    ensures ok <==> k.Valid()
  {
    if k.interval <= 0 { return false; }
    if k.sndWnd <= 0 || k.rcvWnd <= 0 { return false; }
    if k.dataShards < 0 || k.parityShards < 0 { return false; }
    return true;
  }

  /** Config.Equal, branch by branch. */
  predicate Equal(c: Config, o: Config) {
    if c.protocol != o.protocol || c.port != o.port then false
    else if c.kcp.None? != o.kcp.None? then false
    else c.kcp.None? || c.kcp.value == o.kcp.value
  }

  /** Equal is equality of everything a configuration says, hence an equivalence. */
  lemma EqualIsEquality(c: Config, o: Config)
    ensures Equal(c, o) <==> c == o
  {
    if Equal(c, o) {
      assert c.kcp == o.kcp;
    }
  }

  /** JSON as an abstract codec: encoding may fail, decoding may fail. */
  datatype Codec = Codec(encode: Config -> Option<Bytes>, decode: Bytes -> Option<Config>)

  /** What is assumed of JSON: acceptable configurations survive a round trip. */
  ghost predicate RoundTrips(codec: Codec) {
    forall c :: Acceptable(c) && codec.encode(c).Some? ==> codec.decode(codec.encode(c).value) == Some(c)
  }

  /** binary.BigEndian.PutUint16(uint16(n)), truncation included. */
  function PutUint16(n: nat): (r: Bytes)
    ensures |r| == 2
  {
    [((n % 0x1_0000) / 256) as byte, (n % 256) as byte]
  }

  function Uint16(b: Bytes): nat
    requires |b| == 2
  {
    b[0] as nat * 256 + b[1] as nat
  }

  lemma Uint16RoundTrip(n: nat)
    ensures Uint16(PutUint16(n)) == n % 0x1_0000
    ensures Uint16(PutUint16(n)) == n <==> n < 0x1_0000
    ensures n < 0x1_0000 ==> 256 * (PutUint16(n)[0] as nat) <= n < 256 * (PutUint16(n)[0] as nat + 1)
  {
    assert n % 256 == (n % 0x1_0000) % 256;
  }

  function Frame(mac: Hmac, token: Token, channel: Channel, body: Bytes): Bytes {
    PutUint16(|body|) + body + Sign(mac, token, ConfigFrame(channel, body))
  }

  function SendSpec(mac: Hmac, codec: Codec, token: Token, channel: Channel, cfg: Config, v: View): (Result<()>, View) {
    match codec.encode(cfg)
    case None => (Err(Malformed), v)
    case Some(body) =>
      if |body| > MAX_BODY_SIZE then (Err(TooLarge), v) else
      match Written(v, Frame(mac, token, channel, body))
      case None => (Err(WriteFailed), v)
      case Some(v') => (Ok(()), v')
  }

  /** What Receive does with a body and a tag that have been read completely. */
  function Opened(mac: Hmac, codec: Codec, token: Token, channel: Channel, body: Bytes, tag: Bytes): Result<Config> {
    if !Verify(mac, token, ConfigFrame(channel, body), tag) then Err(AuthFailed) else
    match codec.decode(body)
    case None => Err(Malformed)
    case Some(cfg) => if Acceptable(cfg) then Ok(cfg) else Err(Malformed)
  }

  function ReceiveSpec(mac: Hmac, codec: Codec, token: Token, channel: Channel, v: View): (Result<Config>, View) {
    match Taken(v, 2)
    case (None, v1) => (Err(ReadFailed), v1)
    case (Some(header), v1) =>
      var size := Uint16(header);
      if size > MAX_BODY_SIZE then (Err(TooLarge), v1) else
      match Taken(v1, size + TAG_SIZE)
      case (None, v2) => (Err(ReadFailed), v2)
      case (Some(buf), v2) => (Opened(mac, codec, token, channel, buf[..size], buf[size..]), v2)
  }

  method Send(w: Conn, mac: Hmac, codec: Codec, token: Token, channel: Channel, cfg: Config) returns (r: Result<()>)
    modifies w
    ensures (r, w.Abs()) == SendSpec(mac, codec, token, channel, cfg, old(w.Abs()))
  {
    var encoded := codec.encode(cfg);
    if encoded.None? { return Err(Malformed); }
    var body := encoded.value;
    if |body| > MAX_BODY_SIZE { return Err(TooLarge); }
    var frame := new byte[2];
    frame[0] := ((|body| % 0x1_0000) / 256) as byte;
    frame[1] := (|body| % 256) as byte;
    assert frame[..] == PutUint16(|body|);
    var message := frame[..] + body;
    var tag := SignParts(mac, token, "gtun/v1/config", [channel, body]);
    message := message + tag;
    var ok := w.Write(message);
    if !ok { return Err(WriteFailed); }
    return Ok(());
  }

  method Receive(rd: Conn, mac: Hmac, codec: Codec, token: Token, channel: Channel) returns (r: Result<Config>)
    modifies rd
    ensures (r, rd.Abs()) == ReceiveSpec(mac, codec, token, channel, old(rd.Abs()))
  {
    var header := rd.ReadFull(2);
    if header.None? { return Err(ReadFailed); }
    var size := Uint16(header.value);
    if size > MAX_BODY_SIZE { return Err(TooLarge); }
    var buf := rd.ReadFull(size + TAG_SIZE);
    if buf.None? { return Err(ReadFailed); }
    var body, tag := buf.value[..size], buf.value[size..];
    var verified := VerifyParts(mac, token, "gtun/v1/config", tag, [channel, body]);
    if !verified { return Err(AuthFailed); }
    var cfg := codec.decode(body);
    if cfg.None? { return Err(Malformed); }
    var known := Parse(cfg.value.protocol);
    if !known { return Err(Malformed); }
    if cfg.value.kcp.Some? {
      var usable := Validate(cfg.value.kcp.value);
      if !usable { return Err(Malformed); }
    }
    return Ok(cfg.value);
  }

  lemma FrameParts(header: Bytes, body: Bytes, tag: Bytes, rest: Bytes)
    requires |header| == 2
    ensures
      var input := header + body + tag + rest;
      var buf := input[2..][..|body| + |tag|];
      && input[..2] == header && |input[2..]| >= |body| + |tag|
      && buf[..|body|] == body && buf[|body|..] == tag && input[2..][|body| + |tag|..] == rest
  {
  }

  /** A frame is taken apart exactly where it was put together; what follows it is not touched. */
  lemma FrameOpens(mac: Hmac, codec: Codec, token: Token, channel: Channel, body: Bytes, v: View, rest: Bytes)
    requires |body| <= MAX_BODY_SIZE
    requires v.input == Frame(mac, token, channel, body) + rest
    ensures ReceiveSpec(mac, codec, token, channel, v) ==
      (Opened(mac, codec, token, channel, body, Sign(mac, token, ConfigFrame(channel, body))), v.(input := rest))
  {
    FrameParts(PutUint16(|body|), body, Sign(mac, token, ConfigFrame(channel, body)), rest);
    Uint16RoundTrip(|body|);
  }

  lemma Slices(input: Bytes, n: nat, k: nat)
    requires 2 + n + k <= |input|
    ensures
      var buf := input[2..][..n + k];
      buf[..n] == input[2..2 + n] && buf[n..] == input[2 + n..2 + n + k]
  {
  }

  /** Which error is reported when: a length over the limit is refused before anything more is
      read, and a body is decoded only if its tag is right. */
  lemma ErrorsExactly(mac: Hmac, codec: Codec, token: Token, channel: Channel, v: View)
    ensures
      var (r, v') := ReceiveSpec(mac, codec, token, channel, v);
      var n: nat := if |v.input| >= 2 then Uint16(v.input[..2]) else 0;
      && (r == Err(TooLarge) <==> |v.input| >= 2 && n > MAX_BODY_SIZE)
      && (r == Err(TooLarge) ==> v'.input == v.input[2..])
      && (r == Err(ReadFailed) <==> |v.input| < 2 || (n <= MAX_BODY_SIZE && |v.input| < 2 + n + TAG_SIZE))
      && (r == Err(AuthFailed) <==>
            && |v.input| >= 2 + n + TAG_SIZE && n <= MAX_BODY_SIZE
            && v.input[2 + n..2 + n + TAG_SIZE] != Sign(mac, token, ConfigFrame(channel, v.input[2..2 + n])))
      && v'.output == v.output
  {
    if |v.input| >= 2 {
      var n := Uint16(v.input[..2]);
      if |v.input| >= 2 + n + TAG_SIZE { Slices(v.input, n, TAG_SIZE); }
    }
  }

  /** Of authenticated configurations, those are refused that name none of the ten protocols or
      carry KCP settings with a window or interval that is not positive or a negative number of
      shards; every other one is accepted as it is. */
  lemma RefusedExactly(mac: Hmac, codec: Codec, token: Token, channel: Channel, body: Bytes, cfg: Config,
      v: View, rest: Bytes)
    requires |body| <= MAX_BODY_SIZE && codec.decode(body) == Some(cfg)
    requires v.input == Frame(mac, token, channel, body) + rest
    ensures
      var r := ReceiveSpec(mac, codec, token, channel, v).0;
      var p := cfg.protocol;
      var known := p == "tcp" || p == "udp" || p == "ws" || p == "wss" || p == "tcpmux" || p == "wsmux"
                   || p == "wssmux" || p == "utcpmux" || p == "quic" || p == "stealth";
      var usable := match cfg.kcp
        case None => true
        case Some(k) =>
          !(k.interval <= 0 || k.sndWnd <= 0 || k.rcvWnd <= 0 || k.dataShards < 0 || k.parityShards < 0);
      r == if known && usable then Ok(cfg) else Err(Malformed)
  {
    FrameOpens(mac, codec, token, channel, body, v, rest);
    var names := SUPPORTED;
    assert names[0] == "tcp" && names[1] == "udp" && names[2] == "ws" && names[3] == "wss" && names[4] == "tcpmux";
    assert names[5] == "wsmux" && names[6] == "wssmux" && names[7] == "utcpmux" && names[8] == "quic";
    assert names[9] == "stealth";
  }

  ghost predicate FramedFor(mac: Hmac, codec: Codec, token: Token, channel: Channel, input: Bytes, body: Bytes,
      cfg: Config) {
    && |body| <= MAX_BODY_SIZE && Frame(mac, token, channel, body) <= input
    && codec.decode(body) == Some(cfg) && Acceptable(cfg)
  }

  lemma HeaderRoundTrip(header: Bytes)
    requires |header| == 2
    ensures PutUint16(Uint16(header)) == header && Uint16(header) < 0x1_0000
  {
  }

  lemma Rejoined(input: Bytes, size: nat)
    requires 2 + size + TAG_SIZE <= |input|
    ensures
      var buf := input[2..][..size + TAG_SIZE];
      input[..2] + buf[..size] + buf[size..] == input[..2 + size + TAG_SIZE]
  {
  }

  lemma AcceptedBodyWasFramed(mac: Hmac, codec: Codec, token: Token, channel: Channel, v: View, cfg: Config)
      returns (body: Bytes)
    requires ReceiveSpec(mac, codec, token, channel, v).0 == Ok(cfg)
    ensures FramedFor(mac, codec, token, channel, v.input, body, cfg)
  {
    var header := v.input[..2];
    var size := Uint16(header);
    var buf := v.input[2..][..size + TAG_SIZE];
    body := buf[..size];
    assert Opened(mac, codec, token, channel, body, buf[size..]) == Ok(cfg);
    HeaderRoundTrip(header);
    Rejoined(v.input, size);
    assert Frame(mac, token, channel, body) == header + body + buf[size..];
  }

  /** A client applies cfg exactly when its stream starts with a frame authenticated for its
      own channel whose body decodes to cfg, and cfg is acceptable. */
  lemma ReceiveAcceptsExactly(mac: Hmac, codec: Codec, token: Token, channel: Channel, v: View, cfg: Config)
    ensures ReceiveSpec(mac, codec, token, channel, v).0 == Ok(cfg) <==>
            exists body: Bytes :: FramedFor(mac, codec, token, channel, v.input, body, cfg)
  {
    if body: Bytes :| FramedFor(mac, codec, token, channel, v.input, body, cfg) {
      var frame := Frame(mac, token, channel, body);
      assert v.input == frame + v.input[|frame|..];
      FrameOpens(mac, codec, token, channel, body, v, v.input[|frame|..]);
    }
    if ReceiveSpec(mac, codec, token, channel, v).0 == Ok(cfg) {
      var body := AcceptedBodyWasFramed(mac, codec, token, channel, v, cfg);
    }
  }

  /** A whole control session, as the two processes hold it: the server's handshake then its
      announcement, the client's handshake then its reception. */
  function ServerSession(mac: Hmac, codec: Codec, token: Token, ns: Option<Nonce>, cfg: Config,
      v: View): (Result<()>, View) {
    match ServerSpec(mac, token, ns, v)
    case (Err(e), v1) => (Err(e), v1)
    case (Ok(ch), v1) => SendSpec(mac, codec, token, ch, cfg, v1)
  }

  function ClientSession(mac: Hmac, codec: Codec, token: Token, nc: Option<Nonce>, v: View): (Result<Config>, View) {
    match ClientSpec(mac, token, nc, v)
    case (Err(e), v1) => (Err(e), v1)
    case (Ok(ch), v1) => ReceiveSpec(mac, codec, token, ch, v1)
  }

  lemma AnnouncesAfter(mac: Hmac, codec: Codec, token: Token, ns: Nonce, cfg: Config, v: View, ch: Channel, s: View)
    requires ServerSpec(mac, token, Some(ns), v) == (Ok(ch), s) && s.writes > 0
    requires codec.encode(cfg).Some? && |codec.encode(cfg).value| <= MAX_BODY_SIZE
    ensures
      var (r, s') := ServerSession(mac, codec, token, Some(ns), cfg, v);
      r == Ok(()) && s'.input == s.input && s'.output == s.output + Frame(mac, token, ch, codec.encode(cfg).value)
  {
  }

  lemma ReceivesAfter(mac: Hmac, codec: Codec, token: Token, nc: Nonce, cfg: Config, v: View, ch: Channel,
      c: View, rest: Bytes)
    requires ClientSpec(mac, token, Some(nc), v) == (Ok(ch), c)
    requires RoundTrips(codec) && Acceptable(cfg)
    requires codec.encode(cfg).Some? && |codec.encode(cfg).value| <= MAX_BODY_SIZE
    requires c.input == Frame(mac, token, ch, codec.encode(cfg).value) + rest
    ensures ClientSession(mac, codec, token, Some(nc), v) == (Ok(cfg), c.(input := rest))
  {
    FrameOpens(mac, codec, token, ch, codec.encode(cfg).value, c, rest);
  }

  /** Announcing and receiving come after the handshake and change nothing of its output. */
  lemma SessionsStartWithHandshake(mac: Hmac, codec: Codec, token: Token, nc: Nonce, ns: Nonce, cfg: Config,
      cv: View, sv: View)
    ensures ClientSession(mac, codec, token, Some(nc), cv).1.output == ClientSpec(mac, token, Some(nc), cv).1.output
    ensures ServerSpec(mac, token, Some(ns), sv).1.output <= ServerSession(mac, codec, token, Some(ns),
        cfg, sv).1.output
  {
  }

  /** The handshake part of a session, when the server writes announced in all. */
  lemma HandshakePart(
    mac: Hmac, token: Token, nc: Nonce, ns: Nonce, cv: View, sv: View, announced: Bytes, cRest: Bytes, sRest: Bytes)
    returns (c: View, s: View, frame: Bytes)
    requires cv.output == [] && sv.output == [] && cv.writes >= 2 && sv.writes >= 2
    requires ServerSpec(mac, token, Some(ns), sv).1.output <= announced
    requires cv.input == announced + cRest
    requires sv.input == ClientSpec(mac, token, Some(nc), cv).1.output + sRest
    ensures ClientSpec(mac, token, Some(nc), cv) == (Ok(Transcript(nc, ns)), c) && c.input == frame + cRest
    ensures ServerSpec(mac, token, Some(ns), sv) == (Ok(Transcript(nc, ns)), s) && s.input == sRest && s.writes > 0
    ensures announced == s.output + frame
  {
    c, s := ClientSpec(mac, token, Some(nc), cv).1, ServerSpec(mac, token, Some(ns), sv).1;
    frame := announced[|s.output|..];
    assert announced == s.output + frame;
    Regroup(s.output, frame, cRest);
    HandshakeCompletes(mac, token, nc, ns, cv, sv, frame + cRest, sRest);
    ServerAcceptsExactly(mac, token, Some(ns), sv);
  }

  /** Both halves of a session, handshake and announcement, as the two sides see them. */
  lemma SessionParts(
    mac: Hmac, codec: Codec, token: Token, nc: Nonce, ns: Nonce, cfg: Config,
    cv: View, sv: View, cRest: Bytes, sRest: Bytes)
    returns (c: View, s: View, announced: Bytes)
    requires codec.encode(cfg).Some? && |codec.encode(cfg).value| <= MAX_BODY_SIZE
    requires cv.output == [] && sv.output == [] && cv.writes >= 2 && sv.writes >= 2
    requires cv.input == ServerSession(mac, codec, token, Some(ns), cfg, sv).1.output + cRest
    requires sv.input == ClientSession(mac, codec, token, Some(nc), cv).1.output + sRest
    ensures ClientSpec(mac, token, Some(nc), cv) == (Ok(Transcript(nc, ns)), c)
    ensures ServerSpec(mac, token, Some(ns), sv) == (Ok(Transcript(nc, ns)), s)
    ensures c.input == announced && s.input == sRest && s.writes > 0
    ensures announced == Frame(mac, token, Transcript(nc, ns), codec.encode(cfg).value) + cRest
    ensures cv.input == s.output + announced && sv.input == c.output + sRest
  {
    SessionsStartWithHandshake(mac, codec, token, nc, ns, cfg, cv, sv);
    var all := ServerSession(mac, codec, token, Some(ns), cfg, sv).1.output;
    var frame;
    c, s, frame := HandshakePart(mac, token, nc, ns, cv, sv, all, cRest, sRest);
    FrameFollows(mac, codec, token, ns, cfg, sv, Transcript(nc, ns), s, frame);
    announced := frame + cRest;
    Regroup(s.output, frame, cRest);
  }

  lemma FrameFollows(mac: Hmac, codec: Codec, token: Token, ns: Nonce, cfg: Config, v: View, ch: Channel,
      s: View, frame: Bytes)
    requires ServerSpec(mac, token, Some(ns), v) == (Ok(ch), s) && s.writes > 0
    requires codec.encode(cfg).Some? && |codec.encode(cfg).value| <= MAX_BODY_SIZE
    requires ServerSession(mac, codec, token, Some(ns), cfg, v).1.output == s.output + frame
    ensures frame == Frame(mac, token, ch, codec.encode(cfg).value)
  {
    AnnouncesAfter(mac, codec, token, ns, cfg, v, ch, s);
    SplitEqual(s.output, frame, s.output, Frame(mac, token, ch, codec.encode(cfg).value));
  }

  lemma Regroup(a: Bytes, b: Bytes, c: Bytes)
    ensures (a + b) + c == a + (b + c)
  {
  }

  /** Completeness: on reliable ordered streams the client ends up with the announced
      configuration, and both sides leave every later byte where it was. */
  lemma SessionCompletes(
    mac: Hmac, codec: Codec, token: Token, nc: Nonce, ns: Nonce, cfg: Config,
    cv: View, sv: View, cRest: Bytes, sRest: Bytes)
    requires RoundTrips(codec) && Acceptable(cfg)
    requires codec.encode(cfg).Some? && |codec.encode(cfg).value| <= MAX_BODY_SIZE
    requires cv.output == [] && sv.output == [] && cv.writes >= 2 && sv.writes >= 2
    requires cv.input == ServerSession(mac, codec, token, Some(ns), cfg, sv).1.output + cRest
    requires sv.input == ClientSession(mac, codec, token, Some(nc), cv).1.output + sRest
    ensures
      var (cr, cv') := ClientSession(mac, codec, token, Some(nc), cv);
      var (sr, sv') := ServerSession(mac, codec, token, Some(ns), cfg, sv);
      && sr.Ok? && cr.Ok? && Equal(cr.value, cfg)
      && cv'.input == cRest && sv'.input == sRest
  {
    var c, s, announced := SessionParts(mac, codec, token, nc, ns, cfg, cv, sv, cRest, sRest);
    AnnouncesAfter(mac, codec, token, ns, cfg, sv, Transcript(nc, ns), s);
    ReceivesAfter(mac, codec, token, nc, cfg, cv, Transcript(nc, ns), c, cRest);
    EqualIsEquality(cfg, cfg);
  }
}
