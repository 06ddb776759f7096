/** The stream path end to end: the client's Pipe between an application and a stream
    (internal/transport/client.go), the stream, and the server's Pipe between the stream and the
    target (internal/transport/server.go). The stream delivers in order, at its own pace, and
    reports the end only after everything written before it. */
module StreamTunnel {
  import opened Bytes
  import opened Pipe
  import Runs

  /** client: a is the application, b the stream; server: a is the stream, b the target. */
  datatype World = World(client: State, server: State)

  /** The first and the second Pipe on the way towards d: B is the target, A the application.
      Between them, the stream is the end d of the first and the other end of the second. */
  function First(w: World, d: Side): State { if d == B then w.client else w.server }
  function Second(w: World, d: Side): State { if d == B then w.server else w.client }

  function Both(d: Side, first: State, second: State): World {
    if d == B then World(first, second) else World(second, first)
  }

  /** A step of the first or of the second Pipe on the way towards d, or of what is around it. */
  datatype Move = InFirst(e: Event) | InSecond(e: Event)

  /** The stream brings to the second Pipe what the first one wrote, and the end after that. */
  predicate StreamAllows(w: World, d: Side, e: Event) {
    var near, far := EndOf(First(w, d), d), Source(Second(w, d), d);
    match e
    case Arrives(x, data) => x == Other(d) ==> far.arrived + data <= near.written
    case Finishes(x) => x == Other(d) ==> (near.sendDone || near.closed) && far.arrived == near.written
    case _ => true
  }

  predicate Init(w: World) {
    Pipe.Init(w.client) && Pipe.Init(w.server)
  }

  predicate Allowed(w: World, d: Side, move: Move) {
    match move
    case InFirst(e) => Enabled(First(w, d), e) && StreamAllows(w, Other(d), e)
    case InSecond(e) => Enabled(Second(w, d), e) && StreamAllows(w, d, e)
  }

  function Moved(w: World, d: Side, move: Move): World
    requires Allowed(w, d, move)
  {
    match move
    case InFirst(e) => Both(d, Apply(First(w, d), e), Second(w, d))
    case InSecond(e) => Both(d, First(w, d), Apply(Second(w, d), e))
  }

  ghost predicate Next(w: World, v: World) {
    exists d, move :: Allowed(w, d, move) && v == Moved(w, d, move)
  }

  ghost predicate IsRun(trace: seq<World>) {
    Runs.IsRun(Init, Next, trace)
  }

  // ---- the invariant ----

  /** What has come out of the stream on the way towards d, and its end. */
  predicate InOrder(w: World, d: Side) {
    var near, far := EndOf(First(w, d), d), Source(Second(w, d), d);
    && far.arrived <= near.written
    && (far.eof ==> far.arrived == near.written && HalfTo(First(w, d), d).phase == Done)
  }

  predicate StreamInv(w: World) {
    Inv(w.client) && Inv(w.server) && InOrder(w, A) && InOrder(w, B)
  }

  /** A finished half writes no more, and no half takes back what it has written. */
  lemma WrittenGrows(s: State, e: Event, t: State, d: Side)
    requires Inv(s) && Step(s, e, t)
    ensures EndOf(s, d).written <= EndOf(t, d).written
    ensures HalfTo(s, d).phase == Done ==>
      HalfTo(t, d).phase == Done && EndOf(t, d).written == EndOf(s, d).written
  {
  }

  /** Only the stream adds to what its far end has got. */
  lemma OnlyPeersAdd(s: State, e: Event, t: State, x: Side)
    requires Step(s, e, t)
    ensures EndOf(t, x).arrived == if e.Arrives? && e.d == x then EndOf(s, x).arrived + e.data else EndOf(s, x).arrived
    ensures EndOf(t, x).eof == (EndOf(s, x).eof || e == Finishes(x))
    ensures EndOf(s, x).eof ==> EndOf(t, x).arrived == EndOf(s, x).arrived
  {
  }

  /** Seen on the way towards d, whichever of the two Pipes moves. */
  lemma MoveKeepsOrder(w: World, d: Side, move: Move, v: World)
    requires StreamInv(w) && Allowed(w, d, move) && v == Moved(w, d, move)
    ensures InOrder(v, d)
  {
    match move {
      case InFirst(e) => WrittenGrows(First(w, d), e, First(v, d), d);
      case InSecond(e) => OnlyPeersAdd(Second(w, d), e, Second(v, d), Other(d));
    }
  }

  /** The same move, seen the other way round. */
  function Reversed(move: Move): Move {
    match move case InFirst(e) => InSecond(e) case InSecond(e) => InFirst(e)
  }

  lemma ReversedIsSame(w: World, d: Side, move: Move)
    requires Allowed(w, d, move)
    ensures Allowed(w, Other(d), Reversed(move)) && Moved(w, Other(d), Reversed(move)) == Moved(w, d, move)
  {
  }

  lemma NextKeepsInv(w: World, v: World)
    requires StreamInv(w) && Next(w, v)
    ensures StreamInv(v)
  {
    var d, move :| Allowed(w, d, move) && v == Moved(w, d, move);
    match move {
      case InFirst(e) => StepKeepsInv(First(w, d), e, First(v, d));
      case InSecond(e) => StepKeepsInv(Second(w, d), e, Second(v, d));
    }
    MoveKeepsOrder(w, d, move, v);
    ReversedIsSame(w, d, move);
    MoveKeepsOrder(w, Other(d), Reversed(move), v);
  }

  lemma RunsKeepInv(trace: seq<World>, k: nat)
    requires IsRun(trace) && k < |trace|
    ensures StreamInv(trace[k])
  {
    forall w, v | StreamInv(w) && Next(w, v) ensures StreamInv(v) { NextKeepsInv(w, v); }
    Runs.Invariance(Init, Next, w => StreamInv(w), trace, k);
  }

  // ---- main results ----

  /** At every moment of every interleaving, whatever breaks, the target has got a prefix of
      what the application sent, and the application a prefix of what the target sent. */
  lemma EndToEndPrefix(trace: seq<World>, k: nat, d: Side)
    requires IsRun(trace) && k < |trace|
    ensures EndOf(Second(trace[k], d), d).written <= Source(First(trace[k], d), d).arrived
  {
    RunsKeepInv(trace, k);
    var first, second := First(trace[k], d), Second(trace[k], d);
    assert Conserved(Source(first, d), HalfTo(first, d), EndOf(first, d));
    assert Conserved(Source(second, d), HalfTo(second, d), EndOf(second, d));
  }

  /** Both Pipes have returned, without any network error. */
  predicate QuietReturns(w: World) {
    QuietReturn(w.client, w.client.a.halfClose, w.client.b.halfClose)
    && QuietReturn(w.server, w.server.a.halfClose, w.server.b.halfClose)
  }

  predicate Delivered(w: World, d: Side) {
    EndOf(Second(w, d), d).written == Source(First(w, d), d).arrived && Source(First(w, d), d).eof
  }

  /** Which of the four ends have CloseWrite. */
  datatype Ends = Ends(app: bool, near: bool, far: bool, target: bool)

  predicate Has(w: World, k: Ends) {
    && w.client.a.halfClose == k.app && w.client.b.halfClose == k.near
    && w.server.a.halfClose == k.far && w.server.b.halfClose == k.target
  }

  function Fresh(k: Ends): World {
    World(FreshState(k.app, k.near), FreshState(k.far, k.target))
  }

  /** Both sources on the way towards d have CloseWrite. */
  predicate SourcesHalfClose(k: Ends, d: Side) {
    Source(First(Fresh(k), d), d).halfClose && Source(Second(Fresh(k), d), d).halfClose
  }

  lemma DeliveredIfSourcesHalfClose(trace: seq<World>, n: nat, k: Ends, d: Side)
    requires IsRun(trace) && n < |trace| && QuietReturns(trace[n]) && Has(trace[n], k) && SourcesHalfClose(k, d)
    ensures Delivered(trace[n], d)
  {
    RunsKeepInv(trace, n);
    var first, second := First(trace[n], d), Second(trace[n], d);
    CompleteWhenDone(first, d);
    CompleteWhenDone(second, d);
  }

  lemma CompleteWhenDone(s: State, d: Side)
    requires Inv(s) && s.caller == Returned && !HalfTo(s, d).broke && Source(s, d).halfClose
    ensures Complete(s, d)
  {
    var src := Source(s, d);
    assert Coherent(src, HalfTo(s, d), EndOf(s, d), s.caller) && Conserved(src, HalfTo(s, d), EndOf(s, d));
    assert src.arrived[..src.taken] == src.arrived;
  }

  // ---- a run that loses ----

  lemma Then(trace: seq<World>, d: Side, move: Move) returns (longer: seq<World>, v: World)
    requires IsRun(trace) && Allowed(trace[|trace| - 1], d, move)
    ensures v == Moved(trace[|trace| - 1], d, move) && longer == trace + [v] && IsRun(longer)
  {
    v := Moved(trace[|trace| - 1], d, move);
    longer := Runs.Extend(Init, Next, trace, v);
  }

  /** A Pipe by the end d (dst), the other end (src), and the halves towards them. */
  function At(d: Side, dst: End, src: End, toDst: Half, toSrc: Half, caller: Caller): State {
    if d == A then State(dst, src, toDst, toSrc, caller) else State(src, dst, toSrc, toDst, caller)
  }

  const BUSY := Half(Reading, false, false)
  const OVER := Half(Done, false, false)

  /** An end that was told that there is no more, or closed for want of a way to tell it. */
  function Told(arrived: Bytes, taken: nat, eof: bool, halfClose: bool): End {
    End(arrived, taken, eof, [], 0, halfClose, !halfClose, halfClose)
  }

  function Silent(eof: bool, halfClose: bool): End {
    End([], 0, eof, [], 0, false, false, halfClose)
  }

  /** The half towards the end d is over, its destination told or closed. */
  function Shut(d: Side, dst: End, src: End, toDst: Half, toSrc: Half, caller: Caller): State {
    At(d, if dst.halfClose then dst.(sendDone := true) else dst.(closed := true), src,
       toDst.(phase := Done), toSrc, caller)
  }

  lemma ShuttingDown(d: Side, dst: End, src: End, toDst: Half, toSrc: Half, caller: Caller)
    requires toDst.phase == Shutting
    ensures Enabled(At(d, dst, src, toDst, toSrc, caller), ShutsDown(d))
    ensures Apply(At(d, dst, src, toDst, toSrc, caller), ShutsDown(d)) == Shut(d, dst, src, toDst, toSrc, caller)
  {
  }

  lemma FirstShuts(trace: seq<World>, d: Side, dst: End, src: End, toDst: Half, toSrc: Half, caller: Caller)
      returns (longer: seq<World>, v: World)
    requires IsRun(trace) && First(trace[|trace| - 1], d) == At(d, dst, src, toDst, toSrc, caller)
    requires toDst.phase == Shutting
    ensures IsRun(longer) && v == longer[|longer| - 1]
    ensures First(v, d) == Shut(d, dst, src, toDst, toSrc, caller) && Second(v, d) == Second(trace[|trace| - 1], d)
  {
    ShuttingDown(d, dst, src, toDst, toSrc, caller);
    longer, v := Then(trace, d, InFirst(ShutsDown(d)));
  }

  lemma SecondShuts(trace: seq<World>, d: Side, dst: End, src: End, toDst: Half, toSrc: Half, caller: Caller)
      returns (longer: seq<World>, v: World)
    requires IsRun(trace) && Second(trace[|trace| - 1], d) == At(d, dst, src, toDst, toSrc, caller)
    requires toDst.phase == Shutting
    ensures IsRun(longer) && v == longer[|longer| - 1]
    ensures Second(v, d) == Shut(d, dst, src, toDst, toSrc, caller) && First(v, d) == First(trace[|trace| - 1], d)
  {
    ShuttingDown(d, dst, src, toDst, toSrc, caller);
    longer, v := Then(trace, d, InSecond(ShutsDown(d)));
  }

  /** The peer at the other end of the path finishes. */
  lemma PeerFinishes(d: Side, k: Ends) returns (trace: seq<World>, w: World)
    ensures IsRun(trace) && w == trace[|trace| - 1]
    ensures
      var first, second := First(Fresh(k), d), Second(Fresh(k), d);
      && First(w, d) == At(d, Silent(false, EndOf(first, d).halfClose), Silent(false, Source(first, d).halfClose),
                           BUSY, BUSY, Joining)
      && Second(w, d) == At(d, Silent(true, EndOf(second, d).halfClose), Silent(false, Source(second, d).halfClose),
                            BUSY, BUSY, Joining)
  {
    w := Fresh(k);
    trace := [w];
    trace, w := Then(trace, d, InSecond(Finishes(d)));
  }

  /** The source sends a byte. */
  lemma SourceSends(d: Side, k: Ends, x: byte) returns (trace: seq<World>, w: World)
    ensures IsRun(trace) && w == trace[|trace| - 1]
    ensures
      var first, second := First(Fresh(k), d), Second(Fresh(k), d);
      && First(w, d) == At(d, Silent(false, EndOf(first, d).halfClose),
                           End([x], 0, false, [], 0, false, false, Source(first, d).halfClose), BUSY, BUSY, Joining)
      && Second(w, d) == At(d, Silent(true, EndOf(second, d).halfClose),
                            Silent(false, Source(second, d).halfClose), BUSY, BUSY, Joining)
  {
    trace, w := PeerFinishes(d, k);
    assert [] + [x] == [x];
    trace, w := Then(trace, d, InFirst(Arrives(Other(d), [x])));
  }

  /** The other direction ends, first in the second Pipe. */
  lemma OtherWayEnds(d: Side, k: Ends, x: byte) returns (trace: seq<World>, w: World)
    ensures IsRun(trace) && w == trace[|trace| - 1]
    ensures
      var first, second := First(Fresh(k), d), Second(Fresh(k), d);
      && First(w, d) == At(d, Silent(false, EndOf(first, d).halfClose),
                           End([x], 0, false, [], 0, false, false, Source(first, d).halfClose), BUSY, BUSY, Joining)
      && Second(w, d) == At(d, Silent(true, EndOf(second, d).halfClose),
                            Told([], 0, false, Source(second, d).halfClose), BUSY, OVER, Joining)
  {
    trace, w := SourceSends(d, k, x);
    trace, w := Then(trace, d, InSecond(ReadsEof(Other(d))));
    trace, w := Then(trace, d, InSecond(ShutsDown(Other(d))));
  }

  /** The first Pipe comes to know. */
  lemma OtherWayComes(d: Side, k: Ends, x: byte) returns (trace: seq<World>, w: World)
    ensures IsRun(trace) && w == trace[|trace| - 1]
    ensures
      var first, second := First(Fresh(k), d), Second(Fresh(k), d);
      && First(w, d) == At(d, Silent(true, EndOf(first, d).halfClose),
                           End([x], 0, false, [], 0, false, false, Source(first, d).halfClose),
                           BUSY, Half(Shutting, false, false), Joining)
      && Second(w, d) == At(d, Silent(true, EndOf(second, d).halfClose),
                            Told([], 0, false, Source(second, d).halfClose), BUSY, OVER, Joining)
  {
    trace, w := OtherWayEnds(d, k, x);
    trace, w := Then(trace, d, InFirst(Finishes(d)));
    trace, w := Then(trace, d, InFirst(ReadsEof(Other(d))));
  }

  /** Its other direction ends too, and the source finishes. */
  lemma OtherWayOver(d: Side, k: Ends, x: byte) returns (trace: seq<World>, w: World)
    ensures IsRun(trace) && w == trace[|trace| - 1]
    ensures
      var first, second := First(Fresh(k), d), Second(Fresh(k), d);
      && First(w, d) == At(d, Silent(true, EndOf(first, d).halfClose),
                           Told([x], 0, true, Source(first, d).halfClose), BUSY, OVER, Joining)
      && Second(w, d) == At(d, Silent(true, EndOf(second, d).halfClose),
                            Told([], 0, false, Source(second, d).halfClose), BUSY, OVER, Joining)
  {
    var c := Other(d);
    trace, w := OtherWayComes(d, k, x);
    trace, w := Then(trace, d, InFirst(ShutsDown(c)));
    trace, w := Then(trace, d, InFirst(Finishes(c)));
  }

  /** Nothing is left to do but to return, in the first Pipe or in the second. */
  lemma FirstReturns(trace: seq<World>, d: Side) returns (longer: seq<World>, v: World)
    requires IsRun(trace)
    requires var s := First(trace[|trace| - 1], d); s.toA.phase == Done && s.toB.phase == Done && s.caller == Joining
    ensures IsRun(longer) && v == longer[|longer| - 1]
    ensures
      var w := trace[|trace| - 1];
      var s := First(w, d);
      v == Both(d, State(s.a.(closed := true), s.b.(closed := true), s.toA, s.toB, Returned), Second(w, d))
  {
    longer, v := Then(trace, d, InFirst(Joins));
    longer, v := Then(longer, d, InFirst(ClosesB));
    longer, v := Then(longer, d, InFirst(ClosesA));
  }

  lemma SecondReturns(trace: seq<World>, d: Side) returns (longer: seq<World>, v: World)
    requires IsRun(trace)
    requires var s := Second(trace[|trace| - 1], d); s.toA.phase == Done && s.toB.phase == Done && s.caller == Joining
    ensures IsRun(longer) && v == longer[|longer| - 1]
    ensures
      var w := trace[|trace| - 1];
      var s := Second(w, d);
      v == Both(d, First(w, d), State(s.a.(closed := true), s.b.(closed := true), s.toA, s.toB, Returned))
  {
    longer, v := Then(trace, d, InSecond(Joins));
    longer, v := Then(longer, d, InSecond(ClosesB));
    longer, v := Then(longer, d, InSecond(ClosesA));
  }

  /** The first Pipe's way towards d has come to its end: it has passed the byte on, or found
      its source closed. */
  function Ended(d: Side, first: State, x: byte): State {
    var n := Source(first, d).halfClose;
    At(d, End([], 0, true, if n then [x] else [], 0, false, false, EndOf(first, d).halfClose),
       End([x], if n then 1 else 0, true, [], 0, n, !n, n), Half(Shutting, false, !n), OVER, Joining)
  }

  lemma FirstReads(d: Side, k: Ends, x: byte) returns (trace: seq<World>, w: World)
    requires Source(First(Fresh(k), d), d).halfClose
    ensures IsRun(trace) && w == trace[|trace| - 1]
    ensures
      var first, second := First(Fresh(k), d), Second(Fresh(k), d);
      && First(w, d) == At(d, End([], 0, true, [], 1, false, false, EndOf(first, d).halfClose),
                           Told([x], 1, true, true), Half(Writing([x]), false, false), OVER, Joining)
      && Second(w, d) == At(d, Silent(true, EndOf(second, d).halfClose),
                            Told([], 0, false, Source(second, d).halfClose), BUSY, OVER, Joining)
  {
    trace, w := OtherWayOver(d, k, x);
    assert [x][0..1] == [x];
    trace, w := Then(trace, d, InFirst(ReadsSome(d, 1)));
    trace, w := Then(trace, d, InFirst(Takes(d, 1)));
  }

  lemma FirstPassesOn(d: Side, k: Ends, x: byte) returns (trace: seq<World>, w: World)
    requires Source(First(Fresh(k), d), d).halfClose
    ensures IsRun(trace) && w == trace[|trace| - 1] && First(w, d) == Ended(d, First(Fresh(k), d), x)
    ensures
      var second := Second(Fresh(k), d);
      Second(w, d) == At(d, Silent(true, EndOf(second, d).halfClose),
                         Told([], 0, false, Source(second, d).halfClose), BUSY, OVER, Joining)
  {
    trace, w := FirstReads(d, k, x);
    assert [x][..1] == [x] && [x][1..] == [];
    trace, w := Then(trace, d, InFirst(WritesSome(d, 1)));
    trace, w := Then(trace, d, InFirst(ReadsEof(d)));
  }

  lemma FirstFindsClosed(d: Side, k: Ends, x: byte) returns (trace: seq<World>, w: World)
    requires !Source(First(Fresh(k), d), d).halfClose
    ensures IsRun(trace) && w == trace[|trace| - 1] && First(w, d) == Ended(d, First(Fresh(k), d), x)
    ensures
      var second := Second(Fresh(k), d);
      Second(w, d) == At(d, Silent(true, EndOf(second, d).halfClose),
                         Told([], 0, false, Source(second, d).halfClose), BUSY, OVER, Joining)
  {
    trace, w := OtherWayOver(d, k, x);
    trace, w := Then(trace, d, InFirst(ReadsClosed(d)));
  }

  /** Either way it returns. */
  function Over(d: Side, first: State, x: byte): State {
    var n, h := Source(first, d).halfClose, EndOf(first, d).halfClose;
    At(d, End([], 0, true, if n then [x] else [], 0, h, true, h),
       End([x], if n then 1 else 0, true, [], 0, n, true, n), Half(Done, false, !n), OVER, Returned)
  }

  lemma FirstIsDone(d: Side, k: Ends, x: byte) returns (trace: seq<World>, w: World)
    ensures IsRun(trace) && w == trace[|trace| - 1]
    ensures
      var second := Second(Fresh(k), d);
      && First(w, d) == Over(d, First(Fresh(k), d), x)
      && Second(w, d) == At(d, Silent(true, EndOf(second, d).halfClose),
                            Told([], 0, false, Source(second, d).halfClose), BUSY, OVER, Joining)
  {
    if Source(First(Fresh(k), d), d).halfClose {
      trace, w := FirstPassesOn(d, k, x);
    } else {
      trace, w := FirstFindsClosed(d, k, x);
    }
    var s := First(w, d);
    trace, w := FirstShuts(trace, d, EndOf(s, d), Source(s, d), HalfTo(s, d), OVER, Joining);
    trace, w := FirstReturns(trace, d);
  }

  /** The second Pipe reads nothing, for its source has been closed or brings nothing. */
  lemma SecondReadsNothing(d: Side, k: Ends, x: byte) returns (trace: seq<World>, w: World)
    requires !SourcesHalfClose(k, d)
    ensures IsRun(trace) && w == trace[|trace| - 1] && First(w, d) == Over(d, First(Fresh(k), d), x)
    ensures
      var second := Second(Fresh(k), d);
      var h := Source(second, d).halfClose;
      Second(w, d) == At(d, Silent(true, EndOf(second, d).halfClose), Told([], 0, h, h),
                         Half(Shutting, false, !h), OVER, Joining)
  {
    trace, w := FirstIsDone(d, k, x);
    if Source(Second(Fresh(k), d), d).halfClose {
      trace, w := Then(trace, d, InSecond(Finishes(Other(d))));
      trace, w := Then(trace, d, InSecond(ReadsEof(d)));
    } else {
      trace, w := Then(trace, d, InSecond(ReadsClosed(d)));
    }
  }

  /** So it writes nothing, and returns. */
  lemma ByteIsLost(d: Side, k: Ends, x: byte) returns (trace: seq<World>)
    requires !SourcesHalfClose(k, d)
    ensures IsRun(trace)
    ensures var w := trace[|trace| - 1];
      QuietReturns(w) && Has(w, k) && Source(First(w, d), d).arrived == [x] && EndOf(Second(w, d), d).written == []
  {
    var w: World;
    trace, w := SecondReadsNothing(d, k, x);
    var s := Second(w, d);
    trace, w := SecondShuts(trace, d, EndOf(s, d), Source(s, d), HalfTo(s, d), OVER, Joining);
    trace, w := SecondReturns(trace, d);
  }

  /** Where the network makes no error, everything the application sent has reached the target
      on every return of both Pipes if and only if the application's connection and the
      server's end of the stream have CloseWrite; likewise, the other way, the target's
      connection and the client's end of the stream. */
  lemma EverythingArrivesIff(k: Ends, d: Side)
    ensures (forall trace: seq<World>, n: nat ::
               IsRun(trace) && n < |trace| && QuietReturns(trace[n]) && Has(trace[n], k) ==> Delivered(trace[n], d))
            <==> SourcesHalfClose(k, d)
  {
    if SourcesHalfClose(k, d) {
      forall trace: seq<World>, n: nat | IsRun(trace) && n < |trace| && QuietReturns(trace[n]) && Has(trace[n], k)
        ensures Delivered(trace[n], d)
      {
        DeliveredIfSourcesHalfClose(trace, n, k, d);
      }
    } else {
      var trace := ByteIsLost(d, k, 0);
      assert !Delivered(trace[|trace| - 1], d);
    }
  }
}
