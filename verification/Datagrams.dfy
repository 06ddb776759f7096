/** Datagram authentication (internal/auth/datagram.go): a truncated code in front of the
    payload, over the direction and the payload. */
module Datagrams {
  import opened Bytes
  import opened Mac

  datatype Key = Key(mac: Hmac, token: Token)

  function DatagramTag(key: Key, dir: Direction, payload: Bytes): (r: Bytes)
    ensures |r| == DATAGRAM_OVERHEAD
  {
    Sign(key.mac, key.token, Datagram(dir, payload))[..DATAGRAM_OVERHEAD]
  }

  function Seal(key: Key, dir: Direction, payload: Bytes): Bytes {
    DatagramTag(key, dir, payload) + payload
  }

  function Open(key: Key, dir: Direction, pkt: Bytes): Option<Bytes> {
    if |pkt| < DATAGRAM_OVERHEAD then None
    else if pkt[..DATAGRAM_OVERHEAD] != DatagramTag(key, dir, pkt[DATAGRAM_OVERHEAD..]) then None
    else Some(pkt[DATAGRAM_OVERHEAD..])
  }

  /** Opening accepts exactly what sealing for the same direction makes, and gives the payload back. */
  lemma OpensExactlySealed(key: Key, dir: Direction, pkt: Bytes, payload: Bytes)
    ensures Open(key, dir, pkt) == Some(payload) <==> pkt == Seal(key, dir, payload)
  {
    if pkt == Seal(key, dir, payload) {
      assert pkt[..DATAGRAM_OVERHEAD] == DatagramTag(key, dir, payload) && pkt[DATAGRAM_OVERHEAD..] == payload;
    }
    if Open(key, dir, pkt) == Some(payload) {
      assert pkt == pkt[..DATAGRAM_OVERHEAD] + pkt[DATAGRAM_OVERHEAD..];
    }
  }

  /** A datagram sealed for one direction opens in the other only if the two truncated codes
      happen to be equal. */
  lemma ReflectedRejected(key: Key, payload: Bytes, dir: Direction, other: Direction)
    ensures Open(key, other, Seal(key, dir, payload)).Some?
            <==> DatagramTag(key, dir, payload) == DatagramTag(key, other, payload)
  {
    var pkt := Seal(key, dir, payload);
    assert pkt[..DATAGRAM_OVERHEAD] == DatagramTag(key, dir, payload) && pkt[DATAGRAM_OVERHEAD..] == payload;
  }

  /** What is assumed of an accepted truncated code. */
  ghost predicate NoForgery(key: Key, signed: set<(Token, Bytes)>, dir: Direction, pkt: Bytes) {
    Open(key, dir, pkt).Some? ==>
      (key.token, Encode(Datagram(dir, pkt[DATAGRAM_OVERHEAD..]))) in signed
  }

  /** datagramTag: one byte of direction and the payload go into the hash, and 16 bytes come out. */
  method TagOf(key: Key, dir: Direction, payload: Bytes) returns (tag: Bytes)
    ensures tag == DatagramTag(key, dir, payload)
  {
    var direction: byte := if dir == ClientToServer then 1 else 2;
    var full := SignParts(key.mac, key.token, "gtun/v1/udp", [[direction], payload]);
    tag := full[..DATAGRAM_OVERHEAD];
  }

  /** OpenDatagram: a length check, then the tag. */
  method OpenDatagram(key: Key, dir: Direction, pkt: Bytes) returns (payload: Option<Bytes>)
    ensures payload == Open(key, dir, pkt)
  {
    if |pkt| < DATAGRAM_OVERHEAD { return None; }
    var tag, rest := pkt[..DATAGRAM_OVERHEAD], pkt[DATAGRAM_OVERHEAD..];
    var expected := TagOf(key, dir, rest);
    if tag != expected { return None; }
    return Some(rest);
  }

  /** The tag covers all of the payload and the direction: a datagram altered in either can be
      told from the genuine one under some code, so nothing is left out of it. */
  lemma TagCoversAll(token: Token, dir: Direction, payload: Bytes, other: Direction, altered: Bytes)
      returns (key: Key)
    requires dir != other || payload != altered
    ensures key.token == token
    ensures Open(key, other, DatagramTag(key, dir, payload) + altered) == None
  {
    var mac := TagsTellInputs(token, Datagram(dir, payload), Datagram(other, altered));
    key := Key(mac, token);
    var pkt := DatagramTag(key, dir, payload) + altered;
    assert pkt[..DATAGRAM_OVERHEAD] == DatagramTag(key, dir, payload) && pkt[DATAGRAM_OVERHEAD..] == altered;
  }

  /** SealDatagram copies the code and the payload into one fresh buffer. */
  method SealDatagram(key: Key, dir: Direction, payload: Bytes) returns (out: array<byte>)
    ensures fresh(out) && out[..] == Seal(key, dir, payload)
  {
    out := new byte[DATAGRAM_OVERHEAD + |payload|];
    var tag := TagOf(key, dir, payload);
    forall i | 0 <= i < DATAGRAM_OVERHEAD { out[i] := tag[i]; }
    forall i | 0 <= i < |payload| { out[DATAGRAM_OVERHEAD + i] := payload[i]; }
    assert out[..DATAGRAM_OVERHEAD] == tag && out[DATAGRAM_OVERHEAD..] == payload;
    assert out[..] == out[..DATAGRAM_OVERHEAD] + out[DATAGRAM_OVERHEAD..];
  }
}
