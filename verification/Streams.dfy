/** A connection as the handshake sees it: bytes that arrive in pieces of any size, and
    writes that may start to fail. */
module Streams {
  import opened Bytes

  /** The connection without its chunking: all the bytes that will still arrive, all bytes
      written so far, and how many more writes succeed. */
  datatype View = View(input: Bytes, output: Bytes, writes: nat)

  function Written(v: View, data: Bytes): Option<View> {
    if v.writes == 0 then None else Some(v.(output := v.output + data, writes := v.writes - 1))
  }

  /** io.ReadFull: exactly n bytes, or an error and nothing left to read. */
  function Taken(v: View, n: nat): (Option<Bytes>, View) {
    if n <= |v.input| then (Some(v.input[..n]), v.(input := v.input[n..]))
    else (None, v.(input := []))
  }

  class Conn {
    var chunks: seq<Bytes>
    var output: Bytes
    var writes: nat

    ghost function Abs(): View
      reads this
    {
      View(Flatten(chunks), output, writes)
    }

    constructor (chunks: seq<Bytes>, writes: nat)
      ensures Abs() == View(Flatten(chunks), [], writes)
    {
      this.chunks, this.output, this.writes := chunks, [], writes;
    }

    method Write(data: Bytes) returns (ok: bool)
      modifies this`output, this`writes
      ensures ok == Written(old(Abs()), data).Some?
      ensures Abs() == if ok then Written(old(Abs()), data).value else old(Abs())
    {
      ok := writes != 0;
      if ok {
        output, writes := output + data, writes - 1;
      }
    }

    /** One Read: some bytes of the next chunk, as many as fit behind position pos of buf. */
    method Read(buf: array<byte>, pos: nat) returns (n: nat)
      requires pos <= buf.Length && chunks != []
      modifies this`chunks, buf
      ensures pos + n <= buf.Length && n <= |old(Flatten(chunks))|
      ensures buf[..pos] == old(buf[..pos])
      ensures buf[pos..pos + n] + Flatten(chunks) == old(Flatten(chunks))
      ensures pos + n == buf.Length || |chunks| < |old(chunks)|
    {
      var head := chunks[0];
      n := if |head| <= buf.Length - pos then |head| else buf.Length - pos;
      forall k | 0 <= k < n {
        buf[pos + k] := head[k];
      }
      assert buf[pos..pos + n] == head[..n];
      if n == |head| {
        chunks := chunks[1..];
      } else {
        chunks := [head[n..]] + chunks[1..];
        assert head == head[..n] + head[n..];
      }
    }

    /** io.ReadFull consumes exactly the bytes it was asked for, however they are chunked. */
    method ReadFull(n: nat) returns (r: Option<Bytes>)
      modifies this`chunks
      ensures (r, Abs()) == Taken(old(Abs()), n)
    {
      var buf := new byte[n];
      var filled: nat := 0;
      ghost var all := Flatten(chunks);
      while filled < n && chunks != []
        invariant filled <= n && filled <= |all|
        invariant buf[..filled] == all[..filled] && Flatten(chunks) == all[filled..]
        decreases n - filled, |chunks|
      {
        var k := Read(buf, filled);
        NextPart(all, filled, buf[filled..filled + k], Flatten(chunks));
        assert buf[..filled + k] == buf[..filled] + buf[filled..filled + k];
        filled := filled + k;
      }
      assert buf[..] == buf[..n];
      r := if filled == n then Some(buf[..]) else None;
    }

    static lemma NextPart(all: Bytes, filled: nat, part: Bytes, rest: Bytes)
      requires filled <= |all| && all[filled..] == part + rest
      ensures filled + |part| <= |all| && all[..filled + |part|] == all[..filled] + part
      ensures all[filled + |part|..] == rest
    {
      assert all == all[..filled] + part + rest;
    }
  }
}
