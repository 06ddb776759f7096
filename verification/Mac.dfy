/** The message authentication code of internal/auth: HMAC-SHA256 as an arbitrary
    function from a key and a byte string to 32 bytes. Every result of this project
    holds for every such function. What is assumed of it (nothing is forged) is stated
    where a verification takes place, by NoForgery. */
module Mac {
  import opened Bytes

  const NONCE_SIZE := 32
  const TAG_SIZE := 32
  const DATAGRAM_OVERHEAD := 16

  type Token = string
  type Nonce = n: Bytes | |n| == 32 witness seq(32, _ => 0)
  type Tag = t: Bytes | |t| == 32 witness seq(32, _ => 0)
  type Channel = c: Bytes | |c| == 64 witness seq(64, _ => 0)
  type Hmac = (Token, Bytes) -> Tag

  datatype Direction = ClientToServer | ServerToClient

  function DirectionByte(d: Direction): byte {
    match d case ClientToServer => 1 case ServerToClient => 2
  }

  /** Everything the program ever feeds to the code, by label and parts. */
  datatype Input =
    | ClientProof(nc: Nonce, ns: Nonce)
    | ServerProof(nc: Nonce, ns: Nonce)
    | ConfigFrame(channel: Channel, body: Bytes)
    | Datagram(dir: Direction, payload: Bytes)
    | KeyPurpose(purpose: Bytes)

  function Label(x: Input): string {
    match x
    case ClientProof(_, _) => "gtun/v1/client"
    case ServerProof(_, _) => "gtun/v1/server"
    case ConfigFrame(_, _) => "gtun/v1/config"
    case Datagram(_, _) => "gtun/v1/udp"
    case KeyPurpose(_) => "gtun/v1/key/"
  }

  function Parts(x: Input): seq<Bytes> {
    match x
    case ClientProof(nc, ns) => [nc, ns]
    case ServerProof(nc, ns) => [nc, ns]
    case ConfigFrame(ch, body) => [ch, body]
    case Datagram(dir, payload) => [[DirectionByte(dir)], payload]
    case KeyPurpose(purpose) => [purpose]
  }

  /** The string that is hashed: label and parts run together, without lengths or separators. */
  function Encode(x: Input): Bytes {
    Ascii(Label(x)) + Flatten(Parts(x))
  }

  /** The transcript of the two nonces names one authenticated session. */
  function Transcript(nc: Nonce, ns: Nonce): Channel {
    nc + ns
  }

  lemma FlattenParts(x: Input)
    ensures Flatten(Parts(x)) ==
      match x
      case ClientProof(nc, ns) => nc + ns
      case ServerProof(nc, ns) => nc + ns
      case ConfigFrame(ch, body) => ch + body
      case Datagram(dir, payload) => [DirectionByte(dir)] + payload
      case KeyPurpose(purpose) => purpose
  {
    var ps := Parts(x);
    assert Flatten(ps) == ps[0] + Flatten(ps[1..]);
    if |ps| == 2 {
      assert Flatten(ps[1..]) == ps[1] + Flatten(ps[1..][1..]);
    }
  }

  /** The ninth and tenth characters of a label already tell which one it is. */
  lemma LabelsAreTold(x: Input, y: Input)
    requires Label(x)[8] == Label(y)[8] && Label(x)[9] == Label(y)[9]
    ensures Label(x) == Label(y)
  {
  }

  lemma EncodeStarts(x: Input)
    ensures |Encode(x)| >= 10
    ensures Encode(x)[8] == Label(x)[8] as byte && Encode(x)[9] == Label(x)[9] as byte
  {
  }

  /** Unframed concatenation is unambiguous here: equal hashed strings come from equal
      labels and equal parts. */
  lemma Unambiguous(x: Input, y: Input)
    requires Encode(x) == Encode(y)
    ensures x == y
  {
    EncodeStarts(x);
    EncodeStarts(y);
    LabelsAreTold(x, y);
    SplitEqual(Ascii(Label(x)), Flatten(Parts(x)), Ascii(Label(y)), Flatten(Parts(y)));
    FlattenParts(x);
    FlattenParts(y);
    match (x, y) {
      case (ClientProof(a, b), ClientProof(c, d)) => SplitEqual(a, b, c, d);
      case (ServerProof(a, b), ServerProof(c, d)) => SplitEqual(a, b, c, d);
      case (ConfigFrame(a, b), ConfigFrame(c, d)) => SplitEqual(a, b, c, d);
      case (Datagram(a, b), Datagram(c, d)) => SplitEqual([DirectionByte(a)], b, [DirectionByte(c)], d);
      case (KeyPurpose(_), KeyPurpose(_)) =>
    }
  }

  lemma TranscriptInjective(a: Nonce, b: Nonce, c: Nonce, d: Nonce)
    requires Transcript(a, b) == Transcript(c, d)
    ensures a == c && b == d
  {
    SplitEqual(a, b, c, d);
  }

  function Sign(mac: Hmac, token: Token, x: Input): Tag {
    mac(token, Encode(x))
  }

  predicate Verify(mac: Hmac, token: Token, x: Input, tag: Bytes) {
    tag == Sign(mac, token, x)
  }

  /** What is assumed of an accepted tag: some honest party computed the code over exactly
      this byte string under this token. */
  ghost predicate NoForgery(mac: Hmac, signed: set<(Token, Bytes)>, token: Token, x: Input, tag: Bytes) {
    Verify(mac, token, x, tag) ==> (token, Encode(x)) in signed
  }

  /** auth.Sign writes the label and then each part to a running hash: in the end it has
      hashed them in this order, with nothing in between. */
  method SignParts(mac: Hmac, token: Token, name: string, parts: seq<Bytes>) returns (tag: Tag)
    requires forall i :: 0 <= i < |name| ==> name[i] < 128 as char
    ensures tag == mac(token, Ascii(name) + Flatten(parts))
  {
    var written := Ascii(name);
    for i := 0 to |parts|
      invariant written == Ascii(name) + Flatten(parts[..i])
    {
      FlattenSnoc(parts[..i], parts[i]);
      assert parts[..i + 1] == parts[..i] + [parts[i]];
      written := written + parts[i];
    }
    assert parts[..|parts|] == parts;
    tag := mac(token, written);
  }

  /** auth.Verify computes the tag afresh and compares. */
  method VerifyParts(mac: Hmac, token: Token, name: string, tag: Bytes, parts: seq<Bytes>) returns (ok: bool)
    requires forall i :: 0 <= i < |name| ==> name[i] < 128 as char
    ensures ok <==> tag == mac(token, Ascii(name) + Flatten(parts))
  {
    var expected := SignParts(mac, token, name, parts);
    ok := tag == expected;
  }

  /** Nothing that is signed is left out of account: for any two different inputs there is a code
      under which their tags differ already in the first 16 bytes, those a datagram carries. */
  lemma TagsTellInputs(token: Token, x: Input, y: Input) returns (mac: Hmac)
    requires x != y
    ensures Sign(mac, token, x)[..DATAGRAM_OVERHEAD] != Sign(mac, token, y)[..DATAGRAM_OVERHEAD]
  {
    var zeros: Tag, ones: Tag := seq(32, _ => 0), seq(32, _ => 1);
    var special := Encode(x);
    mac := (t: Token, s: Bytes) => if s == special then zeros else ones;
    if Encode(y) == special { Unambiguous(y, x); }
    assert zeros[..DATAGRAM_OVERHEAD][0] != ones[..DATAGRAM_OVERHEAD][0];
    assert Sign(mac, token, x) == zeros && Sign(mac, token, y) == ones;
  }
}
