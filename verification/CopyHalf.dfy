/** copyHalf (internal/netutil/pipe.go) as the loop it is, over one reused buffer, and the steps
    of Pipe that it takes. */
module CopyHalf {
  import opened Bytes
  import opened Pipe
  import Runs

  /** chunks: what reads will return, piece by piece; readBreaks: whether the data ends with an
      error instead of an end of file; writes: how many writes succeed before they fail. */
  class Endpoint {
    var chunks: seq<Bytes>
    const readBreaks: bool
    var written: Bytes
    var writes: nat
    var sendDone: bool
    var closed: bool
    const halfClose: bool

    constructor (chunks: seq<Bytes>, readBreaks: bool, writes: nat, halfClose: bool)
      ensures this.chunks == chunks && this.readBreaks == readBreaks && this.writes == writes
      ensures this.halfClose == halfClose && written == [] && !sendDone && !closed
    {
      this.chunks, this.readBreaks, this.writes, this.halfClose := chunks, readBreaks, writes, halfClose;
      written, sendDone, closed := [], false, false;
    }

    /** Fills the front of buf; 0 means that there is nothing more, be it for an error or not. */
    method Read(buf: array<byte>) returns (n: nat)
      requires buf.Length > 0 && forall k :: 0 <= k < |chunks| ==> chunks[k] != []
      modifies this`chunks, buf
      ensures n <= buf.Length && (n == 0 <==> old(chunks) == []) && (n == 0 ==> chunks == [])
      ensures buf[..n] + Flatten(chunks) == old(Flatten(chunks))
      ensures forall k :: 0 <= k < |chunks| ==> chunks[k] != []
    {
      if chunks == [] { return 0; }
      var head := chunks[0];
      n := if |head| <= buf.Length then |head| else buf.Length;
      forall k | 0 <= k < n {
        buf[k] := head[k];
      }
      assert buf[..n] == head[..n];
      if n == |head| {
        chunks := chunks[1..];
      } else {
        chunks := [head[n..]] + chunks[1..];
        assert head == head[..n] + head[n..];
      }
    }

    method Write(data: Bytes) returns (ok: bool)
      modifies this`written, this`writes
      ensures ok <==> old(writes) > 0
      ensures ok ==> written == old(written) + data && writes == old(writes) - 1
      ensures !ok ==> written == old(written) && writes == old(writes)
    {
      ok := writes > 0;
      if ok {
        written, writes := written + data, writes - 1;
      }
    }
  }

  // ---- the steps of Pipe behind a round of the loop ----

  ghost predicate Path(s: State, trace: seq<State>) {
    Runs.IsRun(x => x == s, Next, trace)
  }

  lemma Then(s: State, trace: seq<State>, e: Event) returns (longer: seq<State>, t: State)
    requires Path(s, trace) && Enabled(trace[|trace| - 1], e)
    ensures t == Apply(trace[|trace| - 1], e) && longer == trace + [t] && Path(s, longer)
  {
    t := Apply(trace[|trace| - 1], e);
    assert Step(trace[|trace| - 1], e, t);
    longer := Runs.Extend(x => x == s, Next, trace, t);
  }

  /** The half towards d has just come round, between two ends that are open. */
  predicate AtRead(s: State, d: Side) {
    && HalfTo(s, d) == Half(Reading, false, false)
    && !Source(s, d).closed && !EndOf(s, d).closed && !EndOf(s, d).sendDone
    && Source(s, d).taken <= |Source(s, d).arrived|
  }

  function Unread(s: State, d: Side): Bytes
    requires AtRead(s, d)
  {
    Source(s, d).arrived[Source(s, d).taken..]
  }

  /** The next n bytes have been read and written. */
  function Copied(s: State, d: Side, n: nat): State
    requires AtRead(s, d) && n <= |Unread(s, d)|
  {
    var src, dst := Source(s, d), EndOf(s, d);
    WithEnd(WithEnd(s, Other(d), src.(taken := src.taken + n)), d, dst.(written := dst.written + Unread(s, d)[..n]))
  }

  lemma CopiedIsSteps(s: State, trace: seq<State>, d: Side, n: nat) returns (longer: seq<State>, t: State)
    requires Path(s, trace) && AtRead(trace[|trace| - 1], d)
    requires 0 < n <= COPY_BUFFER_SIZE && n <= |Unread(trace[|trace| - 1], d)|
    ensures Path(s, longer) && trace <= longer && t == longer[|longer| - 1]
    ensures t == Copied(trace[|trace| - 1], d, n)
  {
    var chunk := Unread(trace[|trace| - 1], d)[..n];
    longer, t := Then(s, trace, ReadsSome(d, n));
    assert HalfTo(t, d).phase == Writing(chunk);
    longer, t := Then(s, longer, Takes(d, n));
    assert chunk[..n] == chunk && chunk[n..] == [];
    longer, t := Then(s, longer, WritesSome(d, n));
  }

  /** The half is done: destination shut down or closed. */
  function Finished(s: State, d: Side, broke: bool): State {
    var dst := EndOf(s, d);
    var shut := if dst.halfClose then dst.(sendDone := true) else dst.(closed := true);
    WithHalf(WithEnd(s, d, shut), d, Half(Done, broke, false))
  }

  lemma FailedWriteIsSteps(s: State, trace: seq<State>, d: Side, n: nat) returns (longer: seq<State>, t: State)
    requires Path(s, trace) && AtRead(trace[|trace| - 1], d)
    requires 0 < n <= COPY_BUFFER_SIZE && n <= |Unread(trace[|trace| - 1], d)|
    ensures Path(s, longer) && trace <= longer && t == longer[|longer| - 1]
    ensures
      var u := trace[|trace| - 1];
      t == Finished(WithEnd(u, Other(d), Source(u, d).(taken := Source(u, d).taken + n)), d, true)
  {
    longer, t := Then(s, trace, ReadsSome(d, n));
    longer, t := Then(s, longer, WriteBreaks(d));
    longer, t := Then(s, longer, ShutsDown(d));
  }

  lemma EndIsSteps(s: State, trace: seq<State>, d: Side, broke: bool) returns (longer: seq<State>, t: State)
    requires Path(s, trace) && AtRead(trace[|trace| - 1], d)
    requires Unread(trace[|trace| - 1], d) == [] && (!broke ==> Source(trace[|trace| - 1], d).eof)
    ensures Path(s, longer) && trace <= longer && t == longer[|longer| - 1]
    ensures t == Finished(trace[|trace| - 1], d, broke)
  {
    longer, t := Then(s, trace, if broke then ReadBreaks(d) else ReadsEof(d));
    longer, t := Then(s, longer, ShutsDown(d));
  }

  // ---- the loop ----

  /** The ends look like this between two reads: pending is still to be copied. */
  ghost predicate Shows(s: State, d: Side, dst: Endpoint, src: Endpoint, pending: Bytes)
    reads dst, src
  {
    && AtRead(s, d) && Unread(s, d) == pending && (Source(s, d).eof || src.readBreaks)
    && EndOf(s, d).written == dst.written && EndOf(s, d).halfClose == dst.halfClose
    && !dst.sendDone && !dst.closed
  }

  lemma CopiedShows(s: State, d: Side, n: nat, pending: Bytes)
    requires AtRead(s, d) && Unread(s, d) == pending && n <= |pending|
    ensures AtRead(Copied(s, d, n), d) && Unread(Copied(s, d, n), d) == pending[n..]
    ensures EndOf(Copied(s, d, n), d).written == EndOf(s, d).written + pending[..n]
    ensures EndOf(Copied(s, d, n), d).halfClose == EndOf(s, d).halfClose
        && Source(Copied(s, d, n), d).eof == Source(s, d).eof
  {
  }

  /** Only the half towards d and the two ends have moved. */
  predicate OthersRest(s: State, t: State, d: Side) {
    HalfTo(t, Other(d)) == HalfTo(s, Other(d)) && t.caller == s.caller
  }

  /** One write of the loop, and the steps of Pipe that it and the read before it are. */
  method WriteChunk(dst: Endpoint, src: Endpoint, chunk: Bytes, ghost d: Side, ghost s: State,
      ghost trace: seq<State>, ghost rest: Bytes)
    returns (ok: bool, ghost longer: seq<State>)
    requires dst != src && 0 < |chunk| <= COPY_BUFFER_SIZE
    requires Path(s, trace) && OthersRest(s, trace[|trace| - 1], d)
        && Shows(trace[|trace| - 1], d, dst, src, chunk + rest)
    modifies dst`written, dst`writes
    ensures ok ==> dst.written == old(dst.written) + chunk && dst.writes < old(dst.writes)
    ensures !ok ==> dst.written == old(dst.written) && dst.writes == 0
    ensures Path(s, longer) && OthersRest(s, longer[|longer| - 1], d)
    ensures Shows(longer[|longer| - 1], d, dst, src, if ok then rest else chunk + rest)
  {
    longer := trace;
    ok := dst.Write(chunk);
    if ok {
      ghost var u;
      assert (chunk + rest)[..|chunk|] == chunk && (chunk + rest)[|chunk|..] == rest;
      CopiedShows(trace[|trace| - 1], d, |chunk|, chunk + rest);
      longer, u := CopiedIsSteps(s, trace, d, |chunk|);
    }
  }

  /** io.CopyBuffer: dst gets a prefix of what src held, all of it unless a write failed. Stale
      bytes of the buffer from earlier rounds never get out. Round by round it takes steps of
      Pipe, dst's peer taking what is written. */
  method CopyBuffer(dst: Endpoint, src: Endpoint, buf: array<byte>, ghost d: Side, ghost s: State)
    returns (ghost lost: Bytes, ghost trace: seq<State>)
    requires dst != src && 0 < buf.Length <= COPY_BUFFER_SIZE
    requires forall k :: 0 <= k < |src.chunks| ==> src.chunks[k] != []
    requires Shows(s, d, dst, src, Flatten(src.chunks))
    modifies dst`written, dst`writes, src`chunks, buf
    ensures old(dst.written) + old(Flatten(src.chunks)) == dst.written + lost + Flatten(src.chunks)
    ensures lost == [] ==> src.chunks == []
    ensures |lost| <= buf.Length && (lost != [] ==> dst.writes == 0)
    ensures Path(s, trace) && OthersRest(s, trace[|trace| - 1], d)
    ensures Shows(trace[|trace| - 1], d, dst, src, lost + Flatten(src.chunks))
  {
    lost, trace := [], [s];
    var n: nat := src.Read(buf);
    while n > 0
      invariant n <= buf.Length
      invariant forall k :: 0 <= k < |src.chunks| ==> src.chunks[k] != []
      invariant dst.written + buf[..n] + Flatten(src.chunks) == old(dst.written) + old(Flatten(src.chunks))
      invariant n == 0 ==> src.chunks == []
      invariant Path(s, trace) && OthersRest(s, trace[|trace| - 1], d)
      invariant Shows(trace[|trace| - 1], d, dst, src, buf[..n] + Flatten(src.chunks))
      decreases dst.writes, n
    {
      var ok;
      ok, trace := WriteChunk(dst, src, buf[..n], d, s, trace, Flatten(src.chunks));
      if !ok {
        lost := buf[..n];
        return;
      }
      n := src.Read(buf);
    }
  }

  /** copyHalf: after the copying, dst's sending side is shut down, or dst is closed if it has no
      such thing. In the end Pipe's half towards d is done, with the same bytes written, and has
      met an error exactly if a write failed or src's data ended in one. */
  method Copy(dst: Endpoint, src: Endpoint, buf: array<byte>, ghost d: Side, ghost s: State)
    returns (ghost lost: Bytes, ghost trace: seq<State>)
    requires dst != src && 0 < buf.Length <= COPY_BUFFER_SIZE
    requires forall k :: 0 <= k < |src.chunks| ==> src.chunks[k] != []
    requires Shows(s, d, dst, src, Flatten(src.chunks))
    modifies dst`written, dst`writes, dst`sendDone, dst`closed, src`chunks, buf
    ensures old(dst.written) + old(Flatten(src.chunks)) == dst.written + lost + Flatten(src.chunks)
    ensures dst.writes > 0 ==> lost == [] && src.chunks == []
    ensures if dst.halfClose then dst.sendDone && !dst.closed else dst.closed && !dst.sendDone
    ensures Path(s, trace) && OthersRest(s, trace[|trace| - 1], d)
    ensures
      var t := trace[|trace| - 1];
      && HalfTo(t, d) == Half(Done, lost != [] || src.readBreaks, false)
      && EndOf(t, d).written == dst.written && EndOf(t, d).sendDone == dst.sendDone && EndOf(t, d).closed == dst.closed
  {
    lost, trace := CopyBuffer(dst, src, buf, d, s);
    ghost var t := trace[|trace| - 1];
    if lost != [] {
      trace, t := FailedWriteIsSteps(s, trace, d, |lost|);
    } else {
      trace, t := EndIsSteps(s, trace, d, src.readBreaks);
    }
    if dst.halfClose {
      dst.sendDone := true;
    } else {
      dst.closed := true;
    }
  }
}
