/** The three-message handshake of internal/auth, on one connection: what each message is,
    what each side does with the bytes it reads, and that the two sides fit together. */
module Handshake {
  import opened Bytes
  import opened Mac
  import opened Streams

  datatype Error = NoNonce | WriteFailed | ReadFailed | AuthFailed | TooLarge | Malformed
  datatype Result<+T> = Ok(value: T) | Err(error: Error)

  /** Second message: the server's nonce and its proof. */
  function Reply(mac: Hmac, token: Token, nc: Nonce, ns: Nonce): Bytes {
    ns + Sign(mac, token, ServerProof(nc, ns))
  }

  /** Third message: the client's proof. */
  function Proof(mac: Hmac, token: Token, nc: Nonce, ns: Nonce): Tag {
    Sign(mac, token, ClientProof(nc, ns))
  }

  function ReplyNonce(reply: Bytes): Nonce
    requires |reply| == NONCE_SIZE + TAG_SIZE
  {
    reply[..NONCE_SIZE]
  }

  predicate ReplyVerifies(mac: Hmac, token: Token, nc: Nonce, reply: Bytes)
    requires |reply| == NONCE_SIZE + TAG_SIZE
  {
    Verify(mac, token, ServerProof(nc, ReplyNonce(reply)), reply[NONCE_SIZE..])
  }

  /** The client side as a function of everything that will arrive. */
  function ClientSpec(mac: Hmac, token: Token, nonce: Option<Nonce>, v: View): (Result<Channel>, View) {
    if nonce.None? then (Err(NoNonce), v) else
    var nc := nonce.value;
    match Written(v, nc)
    case None => (Err(WriteFailed), v)
    case Some(v1) =>
      match Taken(v1, NONCE_SIZE + TAG_SIZE)
      case (None, v2) => (Err(ReadFailed), v2)
      case (Some(reply), v2) =>
        if !ReplyVerifies(mac, token, nc, reply) then (Err(AuthFailed), v2) else
        var ns := ReplyNonce(reply);
        match Written(v2, Proof(mac, token, nc, ns))
        case None => (Err(WriteFailed), v2)
        case Some(v3) => (Ok(Transcript(nc, ns)), v3)
  }

  /** The server side as a function of everything that will arrive. */
  function ServerSpec(mac: Hmac, token: Token, nonce: Option<Nonce>, v: View): (Result<Channel>, View) {
    match Taken(v, NONCE_SIZE)
    case (None, v1) => (Err(ReadFailed), v1)
    case (Some(nc), v1) =>
      if nonce.None? then (Err(NoNonce), v1) else
      var ns := nonce.value;
      match Written(v1, Reply(mac, token, nc, ns))
      case None => (Err(WriteFailed), v1)
      case Some(v2) =>
        match Taken(v2, TAG_SIZE)
        case (None, v3) => (Err(ReadFailed), v3)
        case (Some(tag), v3) =>
          if Verify(mac, token, ClientProof(nc, ns), tag) then (Ok(Transcript(nc, ns)), v3)
          else (Err(AuthFailed), v3)
  }

  /** auth.ClientHandshake over a chunked connection; nonce is what the random source gave. */
  method ClientHandshake(rw: Conn, mac: Hmac, token: Token, nonce: Option<Nonce>) returns (r: Result<Channel>)
    modifies rw
    ensures (r, rw.Abs()) == ClientSpec(mac, token, nonce, old(rw.Abs()))
  {
    if nonce.None? { return Err(NoNonce); }
    var clientNonce: Nonce := nonce.value;
    var ok := rw.Write(clientNonce);
    if !ok { return Err(WriteFailed); }
    var reply := rw.ReadFull(NONCE_SIZE + TAG_SIZE);
    if reply.None? { return Err(ReadFailed); }
    var serverNonce: Nonce, serverTag := reply.value[..NONCE_SIZE], reply.value[NONCE_SIZE..];
    var verified := VerifyParts(mac, token, "gtun/v1/server", serverTag, [clientNonce, serverNonce]);
    if !verified { return Err(AuthFailed); }
    var tag := SignParts(mac, token, "gtun/v1/client", [clientNonce, serverNonce]);
    ok := rw.Write(tag);
    if !ok { return Err(WriteFailed); }
    return Ok(Transcript(clientNonce, serverNonce));
  }

  /** auth.ServerHandshake over a chunked connection. */
  method ServerHandshake(rw: Conn, mac: Hmac, token: Token, nonce: Option<Nonce>) returns (r: Result<Channel>)
    modifies rw
    ensures (r, rw.Abs()) == ServerSpec(mac, token, nonce, old(rw.Abs()))
  {
    var first := rw.ReadFull(NONCE_SIZE);
    if first.None? { return Err(ReadFailed); }
    var clientNonce: Nonce := first.value;
    if nonce.None? { return Err(NoNonce); }
    var serverNonce: Nonce := nonce.value;
    var tag := SignParts(mac, token, "gtun/v1/server", [clientNonce, serverNonce]);
    var ok := rw.Write(serverNonce + tag);
    if !ok { return Err(WriteFailed); }
    var clientTag := rw.ReadFull(TAG_SIZE);
    if clientTag.None? { return Err(ReadFailed); }
    var verified := VerifyParts(mac, token, "gtun/v1/client", clientTag.value, [clientNonce, serverNonce]);
    if !verified { return Err(AuthFailed); }
    return Ok(Transcript(clientNonce, serverNonce));
  }

  /** A server accepts exactly the streams that start with some nonce and the proof for it
      and its own nonce, and it consumes those 64 bytes and no more. */
  lemma ServerAcceptsExactly(mac: Hmac, token: Token, nonce: Option<Nonce>, v: View)
    ensures
      var (r, v') := ServerSpec(mac, token, nonce, v);
      r.Ok? <==>
        && nonce.Some? && v.writes > 0 && |v.input| >= 64
        && v.input[32..64] == Proof(mac, token, v.input[..32], nonce.value)
    ensures
      var (r, v') := ServerSpec(mac, token, nonce, v);
      r.Ok? ==>
        && r.value == v.input[..32] + nonce.value
        && v'.input == v.input[64..]
        && v'.output == v.output + Reply(mac, token, v.input[..32], nonce.value)
        && v'.writes == v.writes - 1
  {
    if |v.input| >= 64 {
      assert v.input[32..][..32] == v.input[32..64];
      assert v.input[32..][32..] == v.input[64..];
    }
  }

  /** A client accepts exactly the streams that start with a reply to its own nonce. */
  lemma ClientAcceptsExactly(mac: Hmac, token: Token, nonce: Option<Nonce>, v: View)
    ensures
      var (r, v') := ClientSpec(mac, token, nonce, v);
      r.Ok? <==>
        && nonce.Some? && v.writes > 1 && |v.input| >= 64
        && v.input[..64] == Reply(mac, token, nonce.value, v.input[..32])
    ensures
      var (r, v') := ClientSpec(mac, token, nonce, v);
      r.Ok? ==>
        && r.value == nonce.value + v.input[..32]
        && v'.input == v.input[64..]
        && v'.output == v.output + nonce.value + Proof(mac, token, nonce.value, v.input[..32])
  {
    if |v.input| >= 64 && nonce.Some? {
      var reply := v.input[..64];
      assert reply[..32] == v.input[..32];
      assert reply == reply[..32] + reply[32..];
      if reply == Reply(mac, token, nonce.value, v.input[..32]) {
        SplitEqual(reply[..32], reply[32..], v.input[..32], Sign(mac, token, ServerProof(nonce.value, v.input[..32])));
      }
    }
  }

  predicate RepliesCorrectly(mac: Hmac, token: Token, nc: Nonce, input: Bytes) {
    |input| >= 64 && input[..64] == Reply(mac, token, nc, input[..32])
  }

  /** Whatever arrives: what the client has written and what it reports. Its proof goes out only
      after a correct reply has come, and whoever cannot make one sees the nonce and no more. */
  lemma ClientOutcome(mac: Hmac, token: Token, nc: Nonce, v: View)
    ensures
      var (r, v') := ClientSpec(mac, token, Some(nc), v);
      && v'.output ==
           (if v.writes == 0 then v.output
            else if RepliesCorrectly(mac, token, nc, v.input) && v.writes > 1
            then v.output + nc + Proof(mac, token, nc, v.input[..32])
            else v.output + nc)
      && (r == Err(AuthFailed) <==>
            v.writes > 0 && |v.input| >= 64 && !RepliesCorrectly(mac, token, nc, v.input))
      && (r == Err(ReadFailed) <==> v.writes > 0 && |v.input| < 64)
      && (r == Err(WriteFailed) <==>
            v.writes == 0 || (v.writes == 1 && RepliesCorrectly(mac, token, nc, v.input)))
    ensures ClientSpec(mac, token, None, v) == (Err(NoNonce), v)
  {
    ClientAcceptsExactly(mac, token, Some(nc), v);
    if |v.input| >= 64 {
      var reply := v.input[..64];
      assert reply[..32] == v.input[..32] && reply == reply[..32] + reply[32..];
      if RepliesCorrectly(mac, token, nc, v.input) {
        SplitEqual(reply[..32], reply[32..], v.input[..32], Sign(mac, token, ServerProof(nc, v.input[..32])));
      }
    }
  }

  /** And the server: its reply goes out after a nonce has come, and nothing else ever does. */
  lemma ServerOutcome(mac: Hmac, token: Token, ns: Nonce, v: View)
    ensures
      var (r, v') := ServerSpec(mac, token, Some(ns), v);
      && v'.output ==
           (if |v.input| >= 32 && v.writes > 0 then v.output + Reply(mac, token, v.input[..32], ns) else v.output)
      && (r == Err(AuthFailed) <==>
            v.writes > 0 && |v.input| >= 64 && v.input[32..64] != Proof(mac, token, v.input[..32], ns))
      && (r == Err(ReadFailed) <==> |v.input| < 32 || (v.writes > 0 && |v.input| < 64))
      && (r == Err(WriteFailed) <==> |v.input| >= 32 && v.writes == 0)
    ensures ServerSpec(mac, token, None, v).0.Err? && ServerSpec(mac, token, None, v).1.output == v.output
  {
    ServerAcceptsExactly(mac, token, Some(ns), v);
    if |v.input| >= 64 { assert v.input[32..][..32] == v.input[32..64]; }
  }

  /** What each side writes before it has read anything but the other's first message. */
  lemma WrittenFirst(mac: Hmac, token: Token, nc: Nonce, ns: Nonce, cv: View, sv: View)
    requires cv.output == [] && sv.output == [] && cv.writes > 0 && sv.writes > 0
    ensures nc <= ClientSpec(mac, token, Some(nc), cv).1.output
    ensures |sv.input| >= 32 ==>
      ServerSpec(mac, token, Some(ns), sv).1.output == Reply(mac, token, sv.input[..32], ns)
  {
  }

  /** Completeness: over streams that bring each side everything the other wrote, in order,
      both sides succeed with the same channel, and what follows is left to the next layer. */
  lemma HandshakeCompletes(mac: Hmac, token: Token, nc: Nonce, ns: Nonce, cv: View, sv: View, cRest: Bytes,
      sRest: Bytes)
    requires cv.output == [] && sv.output == [] && cv.writes >= 2 && sv.writes >= 1
    requires cv.input == ServerSpec(mac, token, Some(ns), sv).1.output + cRest
    requires sv.input == ClientSpec(mac, token, Some(nc), cv).1.output + sRest
    ensures
      var (cr, cv') := ClientSpec(mac, token, Some(nc), cv);
      var (sr, sv') := ServerSpec(mac, token, Some(ns), sv);
      && cr == Ok(Transcript(nc, ns)) && sr == cr
      && cv'.input == cRest && sv'.input == sRest
  {
    WrittenFirst(mac, token, nc, ns, cv, sv);
    var c := ClientSpec(mac, token, Some(nc), cv).1;
    assert sv.input[..32] == nc;
    var reply := Reply(mac, token, nc, ns);
    assert cv.input[..64] == reply && cv.input[..32] == ns && cv.input[64..] == cRest;
    ClientAcceptsExactly(mac, token, Some(nc), cv);
    assert c.output == nc + Proof(mac, token, nc, ns);
    assert sv.input[32..64] == Proof(mac, token, nc, ns) && sv.input[64..] == sRest;
    ServerAcceptsExactly(mac, token, Some(ns), sv);
  }

  /** Sides with tokens that sign differently do not complete: if the proof the server
      computes under its own token differs, the client rejects what it read. */
  lemma WrongReplyRejected(mac: Hmac, clientToken: Token, serverToken: Token, nc: Nonce, ns: Nonce, v: View,
      rest: Bytes)
    requires v.writes >= 1 && v.input == Reply(mac, serverToken, nc, ns) + rest
    requires Sign(mac, clientToken, ServerProof(nc, ns)) != Sign(mac, serverToken, ServerProof(nc, ns))
    ensures ClientSpec(mac, clientToken, Some(nc), v).0 == Err(AuthFailed)
  {
    var reply := Reply(mac, serverToken, nc, ns);
    assert v.input[..64] == reply;
    assert reply[..32] == ns && reply[32..] == Sign(mac, serverToken, ServerProof(nc, ns));
  }
}
