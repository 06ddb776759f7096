/** netutil.Pipe (internal/netutil/pipe.go): two copy loops, one per direction, and the caller
    that waits for both, interleaved in any way, over any chunking of the data. */
module Pipe {
  import opened Bytes
  import Runs

  const COPY_BUFFER_SIZE := 32 * 1024

  /** One connection given to Pipe. arrived: all bytes its peer has sent so far, of which taken
      have been read; eof: the peer has finished sending; written: what Pipe has written to it;
      room: how much more of it the peer and the buffers on the way will take; sendDone:
      CloseWrite was called; halfClose: whether it has CloseWrite at all. */
  datatype End = End(arrived: Bytes, taken: nat, eof: bool, written: Bytes, room: nat,
                     sendDone: bool, closed: bool, halfClose: bool)

  datatype Phase = Reading | Writing(chunk: Bytes) | Shutting | Done

  /** One copyHalf; broke: it met an error of the network; cut: it found its source closed by
      Pipe itself. */
  datatype Half = Half(phase: Phase, broke: bool, cut: bool)

  datatype Caller = Joining | ClosingB | ClosingA | Returned

  /** toA copies from b to a, toB from a to b. */
  datatype State = State(a: End, b: End, toA: Half, toB: Half, caller: Caller)

  datatype Side = A | B

  function Other(d: Side): Side { if d == A then B else A }

  function EndOf(s: State, d: Side): End { if d == A then s.a else s.b }

  function HalfTo(s: State, d: Side): Half { if d == A then s.toA else s.toB }

  function WithEnd(s: State, d: Side, e: End): State {
    if d == A then s.(a := e) else s.(b := e)
  }

  function WithHalf(s: State, d: Side, h: Half): State {
    if d == A then s.(toA := h) else s.(toB := h)
  }

  function Source(s: State, d: Side): End { EndOf(s, Other(d)) }

  datatype Event =
    | ReadsSome(d: Side, n: nat)
    | ReadsEof(d: Side)
    | ReadsClosed(d: Side)
    | ReadBreaks(d: Side)
    | WritesSome(d: Side, n: nat)
    | WriteBreaks(d: Side)
    | ShutsDown(d: Side)
    | Joins
    | ClosesB
    | ClosesA
    | Arrives(d: Side, data: Bytes)
    | Finishes(d: Side)
    | Takes(d: Side, n: nat)

  predicate Fresh(e: End) {
    e.arrived == [] && e.taken == 0 && !e.eof && e.written == [] && !e.sendDone && !e.closed
  }

  predicate Init(s: State) {
    && Fresh(s.a) && Fresh(s.b) && s.caller == Joining
    && s.toA == Half(Reading, false, false) && s.toB == Half(Reading, false, false)
  }

  predicate Enabled(s: State, e: Event) {
    match e
    case ReadsSome(d, n) =>
      && HalfTo(s, d).phase == Reading && !Source(s, d).closed
      && 0 < n <= COPY_BUFFER_SIZE && Source(s, d).taken + n <= |Source(s, d).arrived|
    case ReadsEof(d) =>
      && HalfTo(s, d).phase == Reading && !Source(s, d).closed
      && Source(s, d).eof && Source(s, d).taken == |Source(s, d).arrived|
    case ReadsClosed(d) => HalfTo(s, d).phase == Reading && Source(s, d).closed
    case ReadBreaks(d) => HalfTo(s, d).phase == Reading
    case WritesSome(d, n) =>
      && HalfTo(s, d).phase.Writing? && !EndOf(s, d).closed && !EndOf(s, d).sendDone
      && 0 < n <= |HalfTo(s, d).phase.chunk| && n <= EndOf(s, d).room
    case WriteBreaks(d) => HalfTo(s, d).phase.Writing?
    case ShutsDown(d) => HalfTo(s, d).phase == Shutting
    case Joins => s.caller == Joining && s.toA.phase == Done && s.toB.phase == Done
    case ClosesB => s.caller == ClosingB
    case ClosesA => s.caller == ClosingA
    case Arrives(d, _) => !EndOf(s, d).eof
    case Finishes(d) => true
    case Takes(d, _) => true
  }

  /** A write goes on until the chunk is out. */
  function AfterWrite(chunk: Bytes): Phase {
    if chunk == [] then Reading else Writing(chunk)
  }

  function Apply(s: State, e: Event): State
    requires Enabled(s, e)
  {
    match e
    case ReadsSome(d, n) =>
      var src := Source(s, d);
      WithHalf(WithEnd(s, Other(d), src.(taken := src.taken + n)), d,
               HalfTo(s, d).(phase := Writing(src.arrived[src.taken..src.taken + n])))
    case ReadsEof(d) => WithHalf(s, d, HalfTo(s, d).(phase := Shutting))
    case ReadsClosed(d) => WithHalf(s, d, HalfTo(s, d).(phase := Shutting, cut := true))
    case ReadBreaks(d) => WithHalf(s, d, HalfTo(s, d).(phase := Shutting, broke := true))
    case WritesSome(d, n) =>
      var dst, chunk := EndOf(s, d), HalfTo(s, d).phase.chunk;
      WithHalf(WithEnd(s, d, dst.(written := dst.written + chunk[..n], room := dst.room - n)), d,
               HalfTo(s, d).(phase := AfterWrite(chunk[n..])))
    case WriteBreaks(d) => WithHalf(s, d, HalfTo(s, d).(phase := Shutting, broke := true))
    case ShutsDown(d) =>
      var dst := EndOf(s, d);
      WithHalf(WithEnd(s, d, if dst.halfClose then dst.(sendDone := true) else dst.(closed := true)), d,
               HalfTo(s, d).(phase := Done))
    case Joins => s.(caller := ClosingB)
    case ClosesB => s.(b := s.b.(closed := true), caller := ClosingA)
    case ClosesA => s.(a := s.a.(closed := true), caller := Returned)
    case Arrives(d, data) => WithEnd(s, d, EndOf(s, d).(arrived := EndOf(s, d).arrived + data))
    case Finishes(d) => WithEnd(s, d, EndOf(s, d).(eof := true))
    case Takes(d, n) => WithEnd(s, d, EndOf(s, d).(room := EndOf(s, d).room + n))
  }

  ghost predicate Step(s: State, e: Event, t: State) {
    Enabled(s, e) && t == Apply(s, e)
  }

  ghost predicate Next(s: State, t: State) {
    exists e :: Step(s, e, t)
  }

  ghost predicate IsRun(trace: seq<State>) {
    Runs.IsRun(Init, Next, trace)
  }

  // ---- the invariant, direction by direction ----

  function InHand(h: Half): Bytes {
    if h.phase.Writing? then h.phase.chunk else []
  }

  /** Bytes are conserved: what was read is what was written and what is in hand, unless a
      write broke, and then what was written is a prefix of it. */
  predicate Conserved(src: End, h: Half, dst: End) {
    && src.taken <= |src.arrived|
    && dst.written <= src.arrived[..src.taken]
    && (!h.broke ==> dst.written + InHand(h) == src.arrived[..src.taken])
    && (h.phase.Writing? ==> !h.broke && h.phase.chunk != [])
  }

  /** How far a half has got is visible on its two ends. */
  predicate Coherent(src: End, h: Half, dst: End, caller: Caller) {
    && (h.phase in {Shutting, Done} && !h.broke && !h.cut ==> src.eof && src.taken == |src.arrived|)
    && (h.phase != Done ==> !dst.closed && !dst.sendDone && caller == Joining)
    && (h.phase == Done ==> if dst.halfClose then dst.sendDone else dst.closed)
    && (dst.closed ==> (h.phase == Done && (!dst.halfClose || caller != Joining)))
    && (!(h.phase in {Shutting, Done}) ==> !h.broke && !h.cut)
    && (h.cut ==> !src.halfClose)
  }

  predicate Inv(s: State) {
    && Conserved(s.b, s.toA, s.a) && Conserved(s.a, s.toB, s.b)
    && Coherent(s.b, s.toA, s.a, s.caller) && Coherent(s.a, s.toB, s.b, s.caller)
    && (s.caller in {ClosingA, Returned} ==> s.b.closed)
    && (s.caller == Returned ==> s.a.closed)
  }

  lemma ReadConserves(src: End, h: Half, dst: End, n: nat)
    requires Conserved(src, h, dst) && h.phase == Reading && !h.broke && 0 < n && src.taken + n <= |src.arrived|
    ensures Conserved(src.(taken := src.taken + n), h.(phase := Writing(src.arrived[src.taken..src.taken + n])), dst)
  {
    var chunk := src.arrived[src.taken..src.taken + n];
    assert src.arrived[..src.taken] + chunk == src.arrived[..src.taken + n];
    assert dst.written == src.arrived[..src.taken];
  }

  lemma WriteConserves(src: End, h: Half, dst: End, n: nat)
    requires Conserved(src, h, dst) && h.phase.Writing? && n <= |h.phase.chunk| && n <= dst.room
    ensures Conserved(src, h.(phase := AfterWrite(h.phase.chunk[n..])),
                      dst.(written := dst.written + h.phase.chunk[..n], room := dst.room - n))
  {
    var chunk := h.phase.chunk;
    assert chunk[..n] + chunk[n..] == chunk;
    assert (dst.written + chunk[..n]) + chunk[n..] == src.arrived[..src.taken];
  }

  lemma ArrivalConserves(src: End, h: Half, dst: End, data: Bytes)
    requires Conserved(src, h, dst)
    ensures Conserved(src.(arrived := src.arrived + data), h, dst)
  {
    assert (src.arrived + data)[..src.taken] == src.arrived[..src.taken];
  }

  /** The event is a step of the half that copies towards d. */
  predicate IsHalfStep(e: Event, d: Side) {
    match e
    case ReadsSome(c, _) => c == d
    case ReadsEof(c) => c == d
    case ReadsClosed(c) => c == d
    case ReadBreaks(c) => c == d
    case WritesSome(c, _) => c == d
    case WriteBreaks(c) => c == d
    case ShutsDown(c) => c == d
    case _ => false
  }

  /** A step of Pipe, not of a peer. */
  predicate IsPipeStep(e: Event) {
    !e.Arrives? && !e.Finishes? && !e.Takes?
  }

  /** The event moves bytes of the direction towards d. */
  predicate Moves(e: Event, d: Side) {
    || (e.ReadsSome? && e.d == d) || (e.WritesSome? && e.d == d) || (e.WriteBreaks? && e.d == d)
    || (e.Arrives? && e.d == Other(d))
  }

  /** The bytes of the direction towards d, and what its half holds of them, are as before. */
  predicate Unmoved(s: State, t: State, d: Side) {
    && Source(t, d).arrived == Source(s, d).arrived && Source(t, d).taken == Source(s, d).taken
    && EndOf(t, d).written == EndOf(s, d).written
    && (HalfTo(t, d).phase.Writing? || HalfTo(s, d).phase.Writing? ==> HalfTo(t, d) == HalfTo(s, d))
    && (HalfTo(s, d).broke ==> HalfTo(t, d).broke)
  }

  lemma OtherHalfMovesNothing(s: State, e: Event, t: State, d: Side)
    requires Step(s, e, t) && IsHalfStep(e, Other(d))
    ensures Unmoved(s, t, d)
  {
  }

  /** Every event that does not move bytes of the direction leaves them alone. */
  lemma OthersMoveNothing(s: State, e: Event, t: State, d: Side)
    requires Step(s, e, t) && !Moves(e, d)
    ensures Unmoved(s, t, d)
  {
    if IsHalfStep(e, Other(d)) { OtherHalfMovesNothing(s, e, t, d); }
  }

  lemma UntouchedConserves(src: End, h: Half, dst: End, src': End, h': Half, dst': End)
    requires Conserved(src, h, dst)
    requires src'.arrived == src.arrived && src'.taken == src.taken && dst'.written == dst.written
    requires h.phase.Writing? || h'.phase.Writing? ==> h' == h
    requires h.broke ==> h'.broke
    ensures Conserved(src', h', dst')
  {
  }

  lemma MovesConserve(s: State, e: Event, t: State, d: Side)
    requires Conserved(Source(s, d), HalfTo(s, d), EndOf(s, d)) && !(HalfTo(s, d).phase == Reading
        && HalfTo(s, d).broke)
    requires Step(s, e, t) && Moves(e, d)
    ensures Conserved(Source(t, d), HalfTo(t, d), EndOf(t, d))
  {
    var src, h, dst := Source(s, d), HalfTo(s, d), EndOf(s, d);
    match e {
      case ReadsSome(_, n) => ReadConserves(src, h, dst, n);
      case WritesSome(_, n) => WriteConserves(src, h, dst, n);
      case Arrives(_, data) => ArrivalConserves(src, h, dst, data);
      case _ =>
    }
  }

  lemma StepKeepsConserved(s: State, e: Event, t: State, d: Side)
    requires Inv(s) && Step(s, e, t)
    ensures Conserved(Source(t, d), HalfTo(t, d), EndOf(t, d))
  {
    if Moves(e, d) {
      MovesConserve(s, e, t, d);
    } else {
      OthersMoveNothing(s, e, t, d);
      UntouchedConserves(Source(s, d), HalfTo(s, d), EndOf(s, d), Source(t, d), HalfTo(t, d), EndOf(t, d));
    }
  }

  lemma OwnStepKeepsCoherent(s: State, e: Event, t: State, d: Side)
    requires Inv(s) && Step(s, e, t) && IsHalfStep(e, d)
    ensures Coherent(Source(t, d), HalfTo(t, d), EndOf(t, d), t.caller)
  {
  }

  lemma OtherHalfKeepsCoherent(s: State, e: Event, t: State, d: Side)
    requires Inv(s) && Step(s, e, t) && IsHalfStep(e, Other(d))
    ensures Coherent(Source(t, d), HalfTo(t, d), EndOf(t, d), t.caller)
  {
  }

  lemma CallerKeepsCoherent(s: State, e: Event, t: State, d: Side)
    requires Inv(s) && Step(s, e, t) && (e == Joins || e == ClosesB || e == ClosesA)
    ensures Coherent(Source(t, d), HalfTo(t, d), EndOf(t, d), t.caller)
  {
  }

  lemma OutsideKeepsCoherent(s: State, e: Event, t: State, d: Side)
    requires Inv(s) && Step(s, e, t) && !IsPipeStep(e)
    ensures Coherent(Source(t, d), HalfTo(t, d), EndOf(t, d), t.caller)
  {
  }

  lemma StepKeepsCoherent(s: State, e: Event, t: State, d: Side)
    requires Inv(s) && Step(s, e, t)
    ensures Coherent(Source(t, d), HalfTo(t, d), EndOf(t, d), t.caller)
  {
    if IsHalfStep(e, d) {
      OwnStepKeepsCoherent(s, e, t, d);
    } else if IsHalfStep(e, Other(d)) {
      OtherHalfKeepsCoherent(s, e, t, d);
    } else if IsPipeStep(e) {
      CallerKeepsCoherent(s, e, t, d);
    } else {
      OutsideKeepsCoherent(s, e, t, d);
    }
  }

  lemma StepKeepsInv(s: State, e: Event, t: State)
    requires Inv(s) && Step(s, e, t)
    ensures Inv(t)
  {
    StepKeepsConserved(s, e, t, A);
    StepKeepsConserved(s, e, t, B);
    StepKeepsCoherent(s, e, t, A);
    StepKeepsCoherent(s, e, t, B);
  }

  lemma RunsKeepInv(trace: seq<State>, k: nat)
    requires IsRun(trace) && k < |trace|
    ensures Inv(trace[k])
  {
    forall s, t | Inv(s) && Next(s, t) ensures Inv(t) {
      var e :| Step(s, e, t);
      StepKeepsInv(s, e, t);
    }
    Runs.Invariance(Init, Next, s => Inv(s), trace, k);
  }

  // ---- main results ----

  /** At every moment of every interleaving, what has been written to each end is a prefix of
      what has been read from the other, hence of what the other's peer has sent. */
  lemma WrittenIsPrefixOfRead(trace: seq<State>, k: nat, d: Side)
    requires IsRun(trace) && k < |trace|
    ensures Source(trace[k], d).taken <= |Source(trace[k], d).arrived|
    ensures EndOf(trace[k], d).written <= Source(trace[k], d).arrived[..Source(trace[k], d).taken]
  {
    RunsKeepInv(trace, k);
  }

  /** With CloseWrite on both ends and no network error, whichever direction ends first, both
      have delivered everything up to the end of their source by the time they are done; and
      nobody is cut off before that. */
  lemma BothDirectionsComplete(trace: seq<State>, k: nat, d: Side)
    requires IsRun(trace) && k < |trace|
    requires trace[k].a.halfClose && trace[k].b.halfClose
    requires !HalfTo(trace[k], d).broke && HalfTo(trace[k], d).phase == Done
    ensures EndOf(trace[k], d).written == Source(trace[k], d).arrived && Source(trace[k], d).eof
  {
    RunsKeepInv(trace, k);
    var src := Source(trace[k], d);
    assert src.arrived[..src.taken] == src.arrived;
  }

  /** On return both ends are closed, and each direction has either delivered everything up to
      the end of its source, or met a network error, or been cut off by the other direction
      finishing towards an end without CloseWrite. */
  lemma OnReturn(trace: seq<State>, k: nat, d: Side)
    requires IsRun(trace) && k < |trace| && trace[k].caller == Returned
    ensures trace[k].a.closed && trace[k].b.closed
    ensures
      || (EndOf(trace[k], d).written == Source(trace[k], d).arrived && Source(trace[k], d).eof)
      || HalfTo(trace[k], d).broke
      || (HalfTo(trace[k], d).cut && !Source(trace[k], d).halfClose)
  {
    RunsKeepInv(trace, k);
    var src := Source(trace[k], d);
    if src.taken == |src.arrived| { assert src.arrived[..src.taken] == src.arrived; }
  }

  // ---- termination ----

  /** Bytes a half may still read. */
  function Ahead(src: End): nat {
    if src.closed || src.taken > |src.arrived| then 0 else |src.arrived| - src.taken
  }

  function HalfLeft(src: End, h: Half): nat {
    match h.phase
    case Done => 0
    case Shutting => 1
    case Reading => 3 * Ahead(src) + 2
    case Writing(chunk) => 3 * Ahead(src) + 2 + 2 * |chunk|
  }

  function CallerLeft(c: Caller): nat {
    match c case Joining => 3 case ClosingB => 2 case ClosingA => 1 case Returned => 0
  }

  /** Steps Pipe can still make on the bytes there are. */
  function Left(s: State): nat {
    HalfLeft(s.b, s.toA) + HalfLeft(s.a, s.toB) + CallerLeft(s.caller)
  }

  /** An error of the network; Pipe moves without one. */
  predicate IsTrouble(e: Event) {
    e.ReadBreaks? || e.WriteBreaks?
  }

  /** A step of Pipe's own, with nobody else's doing. */
  predicate IsQuiet(e: Event) {
    IsPipeStep(e) && !IsTrouble(e)
  }

  /** The half waits for its source, which is open, silent and not at its end. */
  predicate Waiting(s: State, d: Side) {
    && HalfTo(s, d).phase == Reading && !Source(s, d).closed
    && Source(s, d).taken == |Source(s, d).arrived| && !Source(s, d).eof
  }

  /** The half is in a write to an end whose peer takes no more. */
  predicate Blocked(s: State, d: Side) {
    HalfTo(s, d).phase.Writing? && EndOf(s, d).room == 0
  }

  /** Pipe waits for its halves, and each is done or cannot go on by itself. */
  predicate Stuck(s: State) {
    && s.caller == Joining && !(s.toA.phase == Done && s.toB.phase == Done)
    && forall d :: HalfTo(s, d).phase == Done || Waiting(s, d) || Blocked(s, d)
  }

  /** A half's own step uses up some of what is left to it. */
  lemma HalfStepRunsOut(s: State, e: Event, t: State, d: Side)
    requires Inv(s) && Step(s, e, t) && IsHalfStep(e, d)
    ensures HalfLeft(Source(t, d), HalfTo(t, d)) < HalfLeft(Source(s, d), HalfTo(s, d))
  {
  }

  /** It adds nothing to what is left to the other. */
  lemma HalfStepAddsNothing(s: State, e: Event, t: State, d: Side)
    requires Step(s, e, t) && IsHalfStep(e, Other(d))
    ensures HalfLeft(Source(t, d), HalfTo(t, d)) <= HalfLeft(Source(s, d), HalfTo(s, d))
    ensures t.caller == s.caller
  {
  }

  /** Every step of Pipe uses up some of what is left. */
  lemma PipeStepsRunOut(s: State, e: Event, t: State)
    requires Inv(s) && Step(s, e, t) && IsPipeStep(e)
    ensures Left(t) < Left(s)
  {
    if IsHalfStep(e, A) {
      HalfStepRunsOut(s, e, t, A);
      HalfStepAddsNothing(s, e, t, B);
    } else if IsHalfStep(e, B) {
      HalfStepRunsOut(s, e, t, B);
      HalfStepAddsNothing(s, e, t, A);
    }
  }

  lemma HalfCanMove(s: State, d: Side) returns (e: Event)
    requires Inv(s) && HalfTo(s, d).phase != Done && !Waiting(s, d) && !Blocked(s, d)
    ensures IsQuiet(e) && Enabled(s, e)
  {
    var src := Source(s, d);
    match HalfTo(s, d).phase {
      case Writing(_) => e := WritesSome(d, 1);
      case Shutting => e := ShutsDown(d);
      case Reading =>
        if src.closed { e := ReadsClosed(d); }
        else if src.taken < |src.arrived| { e := ReadsSome(d, 1); }
        else { e := ReadsEof(d); }
    }
  }

  lemma UnstuckCanMove(s: State) returns (e: Event)
    requires Inv(s) && s.caller != Returned && !Stuck(s)
    ensures IsQuiet(e) && Enabled(s, e)
  {
    if s.caller == ClosingB {
      e := ClosesB;
    } else if s.caller == ClosingA {
      e := ClosesA;
    } else if s.toA.phase == Done && s.toB.phase == Done {
      e := Joins;
    } else {
      var d :| !(HalfTo(s, d).phase == Done || Waiting(s, d) || Blocked(s, d));
      e := HalfCanMove(s, d);
    }
  }

  /** Until it has returned, Pipe can move by itself if and only if some direction is neither
      done, nor waiting for its source, nor blocked in a write (or both are done). */
  lemma PipeCanMove(s: State)
    requires Inv(s) && s.caller != Returned
    ensures (exists e :: IsQuiet(e) && Enabled(s, e)) <==> !Stuck(s)
  {
    if !Stuck(s) { var e := UnstuckCanMove(s); }
  }

  /** The direction towards d is done and d has no CloseWrite. */
  predicate Ending(s: State, d: Side) {
    HalfTo(s, d).phase == Done && !EndOf(s, d).halfClose
  }

  lemma EndingStays(s: State, e: Event, t: State, d: Side)
    requires Inv(s) && Ending(s, d) && Step(s, e, t)
    ensures Ending(t, d)
    ensures !IsPipeStep(e) ==> Left(t) == Left(s)
  {
    assert EndOf(s, d).closed;
  }

  /** Once a direction is done whose destination lacks CloseWrite, the other one gets nothing
      more to read, each step of Pipe uses up what is left and nothing from outside adds to it,
      and until it has returned Pipe can move by itself if and only if the other direction is
      not blocked in a write. */
  lemma EndingIsFinal(s: State, e: Event, t: State, d: Side)
    requires Inv(s) && Ending(s, d) && Step(s, e, t)
    ensures Ending(t, d)
    ensures if IsPipeStep(e) then Left(t) < Left(s) else Left(t) == Left(s)
    ensures s.caller != Returned ==> ((exists f :: IsQuiet(f) && Enabled(s, f)) <==> !Blocked(s, Other(d)))
  {
    EndingStays(s, e, t, d);
    if IsPipeStep(e) { PipeStepsRunOut(s, e, t); }
    if s.caller != Returned {
      PipeCanMove(s);
      assert HalfTo(s, d).phase == Done && !Waiting(s, Other(d));
    }
  }

  /** A blocked write is set free by its peer taking something, or by an error, and by nothing
      else: closing the source it was read from does not help. */
  lemma BlockedUntilTaken(s: State, e: Event, t: State, d: Side)
    requires Inv(s) && Blocked(s, d) && Step(s, e, t)
    ensures s.caller == Joining
    ensures Blocked(t, d) <==> e != WriteBreaks(d) && !(e.Takes? && e.d == d && e.n > 0)
  {
  }

  ghost predicate QuietNext(s: State, t: State) {
    exists e :: IsQuiet(e) && Step(s, e, t)
  }

  /** trace consists of steps of Pipe's own from s on, without errors. */
  ghost predicate Alone(s: State, trace: seq<State>) {
    Runs.IsRun(x => x == s, QuietNext, trace)
  }

  /** The peer of d will take what the direction towards d has in hand. */
  predicate Fits(s: State, d: Side) {
    |InHand(HalfTo(s, d))| <= EndOf(s, d).room
  }

  /** Pipe's own steps make no difference to that once the source is closed. */
  lemma QuietKeepsFits(s: State, e: Event, t: State, d: Side)
    requires Inv(s) && Ending(s, d) && IsQuiet(e) && Step(s, e, t)
    ensures Fits(t, Other(d)) <==> Fits(s, Other(d))
  {
    assert EndOf(s, d).closed;
  }

  lemma {:induction false} ReturnsAlone(s: State, d: Side) returns (trace: seq<State>)
    requires Inv(s) && Ending(s, d) && Fits(s, Other(d))
    ensures Alone(s, trace) && trace[|trace| - 1].caller == Returned
    decreases Left(s)
  {
    trace := [s];
    if s.caller != Returned {
      assert HalfTo(s, d).phase == Done && !Waiting(s, Other(d)) && !Blocked(s, Other(d));
      var e := UnstuckCanMove(s);
      var t := Apply(s, e);
      EndingIsFinal(s, e, t, d);
      QuietKeepsFits(s, e, t, d);
      StepKeepsInv(s, e, t);
      var rest := ReturnsAlone(t, d);
      trace := [s] + rest;
      assert QuietNext(s, t);
      forall k | 0 < k < |trace| ensures QuietNext(trace[k - 1], trace[k]) {
        if k > 1 { assert QuietNext(rest[k - 2], rest[k - 1]); }
      }
    }
  }

  lemma StaysUnfit(s: State, d: Side, trace: seq<State>, k: nat)
    requires Inv(s) && Ending(s, d) && !Fits(s, Other(d)) && Alone(s, trace) && k < |trace|
    ensures trace[k].caller == Joining
  {
    var unfit := (x: State) => Inv(x) && Ending(x, d) && !Fits(x, Other(d));
    forall x, y | unfit(x) && QuietNext(x, y) ensures unfit(y) {
      var e :| IsQuiet(e) && Step(x, e, y);
      EndingIsFinal(x, e, y, d);
      QuietKeepsFits(x, e, y, d);
      StepKeepsInv(x, e, y);
    }
    Runs.Invariance(x => x == s, QuietNext, unfit, trace, k);
  }

  /** So, once a direction is done whose destination lacks CloseWrite, Pipe returns without
      anything more from the peers if and only if the peer of the other destination takes what
      that direction has in hand. */
  lemma ReturnsAloneIff(s: State, d: Side)
    requires Inv(s) && Ending(s, d)
    ensures (exists trace: seq<State> :: Alone(s, trace) && trace[|trace| - 1].caller == Returned)
        <==> Fits(s, Other(d))
  {
    if Fits(s, Other(d)) {
      var trace := ReturnsAlone(s, d);
    } else {
      forall trace: seq<State> | Alone(s, trace) ensures trace[|trace| - 1].caller == Joining {
        StaysUnfit(s, d, trace, |trace| - 1);
      }
    }
  }

  /** Such a peer: a TCP connection (a) whose application has finished sending but does not
      read, and a mux stream (b). The stream is closed, and Pipe waits in a write to a. */
  lemma BlockedWriteHoldsPipe(data: byte) returns (trace: seq<State>)
    ensures IsRun(trace)
    ensures var s := trace[|trace| - 1];
      && s.a.halfClose && !s.b.halfClose && s.b.closed && Ending(s, B) && Blocked(s, A)
      && !s.toA.broke && !s.toB.broke && !exists e :: IsQuiet(e) && Enabled(s, e)
  {
    var s := FreshState(true, false);
    trace := [s];
    assert s.b.arrived + [data] == [data];
    s := s.(b := s.b.(arrived := [data]));
    trace := Then(trace, Arrives(B, [data]), s);
    assert s.b.arrived[0..1] == [data];
    s := s.(b := s.b.(taken := 1), toA := s.toA.(phase := Writing([data])));
    trace := Then(trace, ReadsSome(A, 1), s);
    s := s.(a := s.a.(eof := true));
    trace := Then(trace, Finishes(A), s);
    s := s.(toB := Half(Shutting, false, false));
    trace := Then(trace, ReadsEof(B), s);
    s := s.(toB := Half(Done, false, false), b := s.b.(closed := true));
    trace := Then(trace, ShutsDown(B), s);
    assert HalfTo(s, A) == s.toA && HalfTo(s, B) == s.toB;
  }

  /** A finished direction sets the other one free exactly when its destination has no
      CloseWrite: the other one, with nothing to read and no end in sight, waits on if it has. */
  lemma OtherDirectionWaitsIff(s: State, d: Side)
    requires Inv(s) && s.caller == Joining && HalfTo(s, d).phase == Done
    requires HalfTo(s, Other(d)).phase == Reading
    requires EndOf(s, d).taken == |EndOf(s, d).arrived| && !EndOf(s, d).eof
    ensures Waiting(s, Other(d)) <==> EndOf(s, d).halfClose
  {
  }

  /** So between a TCP connection (a) and a mux stream (b), the stream ending does not end the
      other direction: here b is finished, a has been told, and Pipe waits for a. */
  lemma StreamEndLeavesPipeWaiting() returns (trace: seq<State>)
    ensures IsRun(trace)
    ensures var s := trace[|trace| - 1];
      && s.a.halfClose && !s.b.halfClose && s.toA.phase == Done && s.a.sendDone
      && Waiting(s, B) && !exists e :: IsQuiet(e) && Enabled(s, e)
  {
    var s0 := FreshState(true, false);
    var s1 := s0.(b := s0.b.(eof := true));
    var s2 := s1.(toA := Half(Shutting, false, false));
    var s3 := s2.(toA := Half(Done, false, false), a := s2.a.(sendDone := true));
    assert Step(s0, Finishes(B), s1) && Step(s1, ReadsEof(A), s2) && Step(s2, ShutsDown(A), s3);
    trace := [s0, s1, s2, s3];
  }

  lemma Then(trace: seq<State>, e: Event, t: State) returns (longer: seq<State>)
    requires IsRun(trace) && Step(trace[|trace| - 1], e, t)
    ensures longer == trace + [t] && IsRun(longer)
  {
    longer := Runs.Extend(Init, Next, trace, t);
  }

  /** Everything the source of direction d ever sent has been delivered. */
  predicate Complete(s: State, d: Side) {
    EndOf(s, d).written == Source(s, d).arrived && Source(s, d).eof
  }

  function FreshEnd(halfClose: bool): End {
    End([], 0, false, [], 0, false, false, halfClose)
  }

  function FreshState(ha: bool, hb: bool): State {
    State(FreshEnd(ha), FreshEnd(hb), Half(Reading, false, false), Half(Reading, false, false), Joining)
  }

  /** The source of d gets data, both peers finish, and the other direction ends first: it
      closes the source of d, which has no CloseWrite. */
  lemma OtherEndsFirst(ha: bool, hb: bool, d: Side, data: Bytes) returns (trace: seq<State>, s: State)
    requires !Source(FreshState(ha, hb), d).halfClose
    ensures IsRun(trace) && s == trace[|trace| - 1]
    ensures s == WithHalf(WithEnd(WithEnd(FreshState(ha, hb),
      Other(d), End(data, 0, true, [], 0, false, true, false)), d, EndOf(FreshState(ha, hb), d).(eof := true)),
      Other(d), Half(Done, false, false))
  {
    var c := Other(d);
    s := FreshState(ha, hb);
    trace := [s];
    assert Source(s, d).arrived + data == data;
    s := WithEnd(s, c, EndOf(s, c).(arrived := data));
    trace := Then(trace, Arrives(c, data), s);
    s := WithEnd(s, c, EndOf(s, c).(eof := true));
    trace := Then(trace, Finishes(c), s);
    s := WithEnd(s, d, EndOf(s, d).(eof := true));
    trace := Then(trace, Finishes(d), s);
    s := WithHalf(s, c, Half(Shutting, false, false));
    trace := Then(trace, ReadsEof(c), s);
    s := WithHalf(WithEnd(s, c, EndOf(s, c).(closed := true)), c, Half(Done, false, false));
    trace := Then(trace, ShutsDown(c), s);
  }

  /** So what had arrived on that source is never relayed, without any network error. */
  lemma ArrivedCanBeLost(ha: bool, hb: bool, d: Side, data: Bytes) returns (trace: seq<State>)
    requires !Source(FreshState(ha, hb), d).halfClose
    ensures IsRun(trace)
    ensures var s := trace[|trace| - 1];
      && QuietReturn(s, ha, hb) && Source(s, d).arrived == data && EndOf(s, d).written == []
  {
    var s;
    trace, s := OtherEndsFirst(ha, hb, d, data);
    s := WithHalf(s, d, Half(Shutting, false, true));
    trace := Then(trace, ReadsClosed(d), s);
    var dst := EndOf(s, d);
    dst := if dst.halfClose then dst.(sendDone := true) else dst.(closed := true);
    s := WithHalf(WithEnd(s, d, dst), d, Half(Done, false, true));
    trace := Then(trace, ShutsDown(d), s);
    s := s.(caller := ClosingB);
    trace := Then(trace, Joins, s);
    s := s.(b := s.b.(closed := true), caller := ClosingA);
    trace := Then(trace, ClosesB, s);
    s := s.(a := s.a.(closed := true), caller := Returned);
    trace := Then(trace, ClosesA, s);
  }

  /** Pipe has returned, between these kinds of end, and the network has made no error. */
  predicate QuietReturn(s: State, ha: bool, hb: bool) {
    s.caller == Returned && s.a.halfClose == ha && s.b.halfClose == hb && !s.toA.broke && !s.toB.broke
  }

  /** Where the network makes no error, a direction is complete on every return of Pipe if and
      only if its source has CloseWrite. A mux stream has none, so its last bytes can be lost. */
  lemma CompleteIffSourceHalfCloses(ha: bool, hb: bool, d: Side)
    ensures (forall trace: seq<State>, k: nat :: IsRun(trace) && k < |trace| && QuietReturn(trace[k], ha, hb)
               ==> Complete(trace[k], d))
            <==> Source(FreshState(ha, hb), d).halfClose
  {
    if Source(FreshState(ha, hb), d).halfClose {
      forall trace: seq<State>, k: nat | IsRun(trace) && k < |trace| && QuietReturn(trace[k], ha, hb)
        ensures Complete(trace[k], d)
      {
        OnReturn(trace, k, d);
      }
    } else {
      var trace := ArrivedCanBeLost(ha, hb, d, [0]);
      assert !Complete(trace[|trace| - 1], d);
    }
  }
}
