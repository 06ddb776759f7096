/** wsConn (internal/transport/wsconn.go): a byte stream carried in the binary messages of a
    WebSocket connection (section 5.6 of RFC 6455), each sent as one or more frames
    (section 5.4). First the reading side, an object; then any number of concurrent writers. */
module WsConn {
  import opened Bytes
  import Runs

  datatype Message = Message(binary: bool, data: Bytes)

  /** The stream that a sequence of messages carries. */
  function Payload(ms: seq<Message>): Bytes {
    if ms == [] then [] else (if ms[0].binary then ms[0].data else []) + Payload(ms[1..])
  }

  lemma {:induction false} PayloadAppend(xs: seq<Message>, ys: seq<Message>)
    ensures Payload(xs + ys) == Payload(xs) + Payload(ys)
  {
    if xs == [] {
      assert xs + ys == ys;
    } else {
      assert (xs + ys)[1..] == xs[1..] + ys;
      PayloadAppend(xs[1..], ys);
    }
  }

  // ---- reading ----

  datatype ReadResult = More | Eof | Broken
  datatype Status = Ok | Ended | Failed

  /** incoming: the messages that will still be delivered; cut: the connection breaks before
      the last of them is finished, which then ends in an error. */
  class Reader {
    var incoming: seq<Message>
    const cut: bool
    var reader: Option<Bytes>   // what is left of the current message

    ghost function Pending(): Bytes
      reads this
    {
      (if reader.Some? then reader.value else []) + Payload(incoming)
    }

    constructor (incoming: seq<Message>, cut: bool)
      ensures Pending() == Payload(incoming) && this.incoming == incoming && this.cut == cut && reader == None
    {
      this.incoming, this.cut, this.reader := incoming, cut, None;
    }

    /** What is to come ends in the middle of a binary message. */
    predicate BreaksOff()
      reads this
    {
      cut && (if incoming != [] then incoming[|incoming| - 1].binary else reader.Some?)
    }

    /** One Read of the message reader: any part of what is left that fits, the end of the
        message reported with the last bytes or by itself, or an error instead of the end. A
        read into a buffer brings bytes or an end. */
    method ReadMessage(max: nat) returns (data: Bytes, r: ReadResult)
      requires reader.Some?
      modifies this`reader
      ensures reader.Some? && data + reader.value == old(reader.value) && |data| <= max
      ensures r != More ==> reader.value == []
      ensures r == Broken ==> cut && incoming == []
      ensures r == Eof ==> !(cut && incoming == [])
      ensures max > 0 && r == More ==> data != []
      ensures data + Pending() == old(Pending())
    {
      var rest := reader.value;
      var n: nat :| n <= max && n <= |rest| && (max > 0 && rest != [] ==> n > 0);
      var ends: bool :| (ends ==> n == |rest|) && (max > 0 && rest == [] ==> ends);
      r := if !ends then More else if cut && incoming == [] then Broken else Eof;
      data := rest[..n];
      reader := Some(rest[n..]);
    }

    /** The same, and a message that is used up is put away. */
    method ReadCurrent(max: nat) returns (data: Bytes, r: ReadResult)
      requires reader.Some?
      modifies this`reader
      ensures data + Pending() == old(Pending()) && |data| <= max && BreaksOff() == old(BreaksOff())
      ensures (r == Eof <==> reader.None?)
      ensures r == Broken ==> BreaksOff() && Pending() == [] && incoming == []
      ensures max > 0 && r == More ==> data != []
    {
      data, r := ReadMessage(max);
      if r == Eof {
        reader := None;
      }
    }

    /** The next message becomes the current one, unless it is not binary. */
    method NextMessage() returns (found: bool)
      requires reader.None?
      modifies this
      ensures Pending() == old(Pending()) && BreaksOff() == old(BreaksOff())
      ensures found <==> old(incoming) != []
      ensures found ==> incoming == old(incoming)[1..]
      ensures !found ==> incoming == [] && reader.None?
    {
      if incoming == [] {
        return false;
      }
      if incoming[0].binary {
        reader := Some(incoming[0].data);
      }
      incoming := incoming[1..];
      return true;
    }

    /** wsConn.Read: nothing is lost, repeated or invented at message ends, text and empty
        messages are passed over, and the loop ends: with bytes, or with the end of the stream,
        or with the error it breaks off in, whichever it is. */
    method Read(max: nat) returns (data: Bytes, status: Status)
      modifies this
      ensures data + Pending() == old(Pending()) && |data| <= max
      ensures max > 0 && status == Ok ==> data != []
      ensures status == Ended ==> data == []
      ensures status != Ok ==> Pending() == [] && incoming == []
      ensures BreaksOff() == old(BreaksOff())
      ensures status != Ok ==> status == if BreaksOff() then Failed else Ended
    {
      while true
        invariant Pending() == old(Pending()) && BreaksOff() == old(BreaksOff())
        decreases |incoming|, if reader.Some? then 1 else 0
      {
        if reader.None? {
          var found := NextMessage();
          if !found {
            return [], Ended;
          }
          if reader.None? {
            continue;
          }
        }
        var r;
        data, r := ReadCurrent(max);
        if r == Eof {
          if |data| > 0 {
            return data, Ok;
          }
          continue;
        }
        return data, if r == Broken then Failed else Ok;
      }
    }

    /** Any number of Reads with buffers of any sizes: what they return, in order, is a prefix
        of the stream, and the rest is still to come. Each Read into a buffer gets further, so
        one more of them than there are bytes to come reaches the end. */
    method ReadMany(sizes: seq<nat>) returns (all: Bytes, ended: bool)
      modifies this
      ensures all + Pending() == old(Pending())
      ensures ended ==> all == old(Pending())
      ensures Positives(sizes) > |old(Pending())| ==> ended
    {
      all, ended := [], false;
      for k := 0 to |sizes|
        invariant all + Pending() == old(Pending())
        invariant ended ==> Pending() == []
        invariant !ended ==> Positives(sizes) <= |all| + Positives(sizes[k..])
      {
        assert sizes[k..][0] == sizes[k] && sizes[k..][1..] == sizes[k + 1..];
        var data, status := Read(sizes[k]);
        all := all + data;
        ended := ended || status != Ok;
      }
    }
  }

  /** How many of the sizes are not 0. */
  function Positives(sizes: seq<nat>): nat {
    if sizes == [] then 0 else (if sizes[0] > 0 then 1 else 0) + Positives(sizes[1..])
  }

  // ---- writing ----

  /** first: the frame carries the opcode (binary or not); the others continue its message. A
      frame that a failing write gets out in part only counts as a shorter frame. */
  datatype Frame = Frame(first: bool, binary: bool, fin: bool, data: Bytes)

  /** What a receiver makes of frames: the finished messages and the one under way. */
  datatype Assembly = Assembly(done: seq<Message>, cur: Option<Message>)

  function Feed(a: Assembly, f: Frame): Assembly {
    var m := if f.first then Message(f.binary, f.data)
             else match a.cur case None => Message(false, f.data) case Some(c) => Message(c.binary, c.data + f.data);
    if f.fin then Assembly(a.done + [m], None) else Assembly(a.done, Some(m))
  }

  function Assemble(frames: seq<Frame>): Assembly {
    if frames == [] then Assembly([], None)
    else Feed(Assemble(frames[..|frames| - 1]), frames[|frames| - 1])
  }

  /** One call of Write: waiting for the lock, holding it with the first sent bytes of its
      message out, and returned, without an error or with one after sent bytes. */
  datatype Writer = Waits(payload: Bytes) | Sending(payload: Bytes, sent: nat, started: bool)
                  | Written(payload: Bytes) | NotWritten(payload: Bytes, sent: nat, started: bool)

  /** order: the calls that have returned without error, in the order they held the lock;
      failed: the first write that failed, after which all do. */
  datatype Link = Link(writers: seq<Writer>, lock: Option<nat>, wire: seq<Frame>, order: seq<nat>, failed: Option<nat>)

  datatype Event =
    | Calls(payload: Bytes)
    | Locks(w: nat)
    | SendsFrame(w: nat, n: nat, fin: bool)
    | Fails(w: nat)
    | OtherMessage(data: Bytes)

  predicate Init(l: Link) {
    l == Link([], None, [], [], None)
  }

  predicate Enabled(l: Link, e: Event) {
    match e
    case Calls(_) => true
    case Locks(w) => w < |l.writers| && l.writers[w].Waits? && l.lock == None
    case SendsFrame(w, n, fin) =>
      && w < |l.writers| && l.writers[w].Sending? && l.failed == None
      && l.writers[w].sent + n <= |l.writers[w].payload|
      && (fin ==> l.writers[w].sent + n == |l.writers[w].payload|)
    case Fails(w) => w < |l.writers| && l.writers[w].Sending?
    case OtherMessage(_) => l.lock == None && l.failed == None
  }

  function Apply(l: Link, e: Event): Link
    requires Enabled(l, e)
  {
    match e
    case Calls(payload) => l.(writers := l.writers + [Waits(payload)])
    case Locks(w) => l.(writers := l.writers[w := Sending(l.writers[w].payload, 0, false)], lock := Some(w))
    case SendsFrame(w, n, fin) =>
      var r := l.writers[w];
      var f := Frame(!r.started, true, fin, r.payload[r.sent..r.sent + n]);
      if fin
      then l.(writers := l.writers[w := Written(r.payload)], lock := None, wire := l.wire + [f], order := l.order + [w])
      else l.(writers := l.writers[w := Sending(r.payload, r.sent + n, true)], wire := l.wire + [f])
    case Fails(w) =>
      var r := l.writers[w];
      l.(writers := l.writers[w := NotWritten(r.payload, r.sent, r.started)], lock := None,
         failed := if l.failed == None then Some(w) else l.failed)
    case OtherMessage(data) => l.(wire := l.wire + [Frame(true, false, true, data)])
  }

  ghost predicate Step(l: Link, e: Event, m: Link) {
    Enabled(l, e) && m == Apply(l, e)
  }

  ghost predicate Next(l: Link, m: Link) {
    exists e :: Step(l, e, m)
  }

  ghost predicate IsRun(trace: seq<Link>) {
    Runs.IsRun(Init, Next, trace)
  }

  /** The payloads of the given calls, run together. */
  function Concat(writers: seq<Writer>, order: seq<nat>): Bytes
    requires forall k :: 0 <= k < |order| ==> order[k] < |writers|
  {
    if order == [] then []
    else Concat(writers, order[..|order| - 1]) + writers[order[|order| - 1]].payload
  }

  lemma {:induction false} ConcatSame(ws: seq<Writer>, vs: seq<Writer>, order: seq<nat>)
    requires forall k :: 0 <= k < |order| ==> order[k] < |ws| && order[k] < |vs|
    requires forall w :: 0 <= w < |ws| && w < |vs| ==> vs[w].payload == ws[w].payload
    ensures Concat(vs, order) == Concat(ws, order)
  {
    if order != [] {
      ConcatSame(ws, vs, order[..|order| - 1]);
    }
  }

  /** Whose message is under way: the first write that failed, or else the holder of the lock. */
  function Author(l: Link): Option<nat> {
    if l.failed.Some? then l.failed else l.lock
  }

  predicate HasStarted(r: Writer) {
    (r.Sending? || r.NotWritten?) && r.started && r.sent <= |r.payload|
  }

  /** What its author has sent of the message under way. */
  function Unfinished(l: Link): Option<Bytes> {
    match Author(l)
    case Some(w) =>
      if w < |l.writers| && HasStarted(l.writers[w]) then Some(l.writers[w].payload[..l.writers[w].sent]) else None
    case None => None
  }

  predicate IsUnderWay(cur: Option<Message>, sent: Option<Bytes>) {
    match sent
    case Some(data) => cur == Some(Message(true, data))
    case None => cur == None
  }

  predicate WriterOk(l: Link, w: nat)
    requires w < |l.writers|
  {
    var r := l.writers[w];
    && (r.Sending? ==> l.lock == Some(w) && r.sent <= |r.payload| && (!r.started ==> r.sent == 0))
    && (w in l.order <==> r.Written?)
  }

  ghost predicate WritersOk(l: Link) {
    && (forall w :: 0 <= w < |l.writers| ==> WriterOk(l, w))
    && (l.lock.Some? ==> l.lock.value < |l.writers| && l.writers[l.lock.value].Sending?)
    && (l.failed.Some? ==> l.failed.value < |l.writers| && l.writers[l.failed.value].NotWritten?)
  }

  ghost predicate OrderOk(l: Link) {
    && (forall k :: 0 <= k < |l.order| ==> l.order[k] < |l.writers|)
    && (forall k, j :: 0 <= k < j < |l.order| ==> l.order[k] != l.order[j])
  }

  ghost predicate Inv(l: Link) {
    && WritersOk(l) && OrderOk(l)
    && IsUnderWay(Assemble(l.wire).cur, Unfinished(l))
    && Payload(Assemble(l.wire).done) == Concat(l.writers, l.order)
  }

  lemma AssembleSnoc(frames: seq<Frame>, f: Frame)
    ensures Assemble(frames + [f]) == Feed(Assemble(frames), f)
  {
    assert (frames + [f])[..|frames|] == frames;
  }

  /** One more frame extends the message under way. */
  lemma FrameExtends(l: Link, e: Event, m: Link)
    requires Inv(l) && Step(l, e, m) && e.SendsFrame? && !e.fin
    ensures var r := l.writers[e.w];
      Assemble(m.wire) == Assembly(Assemble(l.wire).done, Some(Message(true, r.payload[..r.sent + e.n])))
  {
    assert WriterOk(l, e.w);
    var r := l.writers[e.w];
    var f := Frame(!r.started, true, false, r.payload[r.sent..r.sent + e.n]);
    AssembleSnoc(l.wire, f);
    assert r.payload[..r.sent] + f.data == r.payload[..r.sent + e.n];
  }

  /** The call that an event is about. */
  function Subject(e: Event): Option<nat> {
    match e
    case Locks(w) => Some(w)
    case SendsFrame(w, _, _) => Some(w)
    case Fails(w) => Some(w)
    case _ => None
  }

  lemma StepKeepsWriters(l: Link, e: Event, m: Link)
    requires WritersOk(l) && OrderOk(l) && Step(l, e, m)
    ensures WritersOk(m) && OrderOk(m)
  {
    if Subject(e).Some? { assert WriterOk(l, Subject(e).value); }
    forall w | 0 <= w < |m.writers| ensures WriterOk(m, w) {
      if w < |l.writers| { assert WriterOk(l, w); }
      if e.SendsFrame? && e.fin { assert m.order[|l.order|] == e.w; }
    }
  }

  /** No step changes what a call is to write. */
  lemma StepKeepsPayloads(l: Link, e: Event, m: Link)
    requires WritersOk(l) && OrderOk(l) && Step(l, e, m)
    ensures |l.writers| <= |m.writers|
    ensures Concat(m.writers, l.order) == Concat(l.writers, l.order)
  {
    ConcatSame(l.writers, m.writers, l.order);
  }

  lemma FrameAdvances(l: Link, e: Event, m: Link)
    requires WritersOk(l) && OrderOk(l) && Step(l, e, m) && e.SendsFrame? && !e.fin
    ensures Unfinished(m) == Some(l.writers[e.w].payload[..l.writers[e.w].sent + e.n])
    ensures m.order == l.order
  {
    assert WriterOk(l, e.w);
  }

  lemma FrameKeepsStream(l: Link, e: Event, m: Link)
    requires Inv(l) && Step(l, e, m) && e.SendsFrame? && !e.fin && WritersOk(m) && OrderOk(m)
    ensures Inv(m)
  {
    FrameExtends(l, e, m);
    FrameAdvances(l, e, m);
    StepKeepsPayloads(l, e, m);
  }

  /** The last frame completes the message with the whole payload. */
  lemma FinCompletes(l: Link, e: Event, m: Link)
    requires Inv(l) && Step(l, e, m) && e.SendsFrame? && e.fin
    ensures Assemble(m.wire) == Assembly(Assemble(l.wire).done + [Message(true, l.writers[e.w].payload)], None)
  {
    assert WriterOk(l, e.w);
    var r := l.writers[e.w];
    var f := Frame(!r.started, true, true, r.payload[r.sent..r.sent + e.n]);
    AssembleSnoc(l.wire, f);
    assert r.payload[..r.sent] + f.data == r.payload;
  }

  lemma FinKeepsStream(l: Link, e: Event, m: Link)
    requires Inv(l) && Step(l, e, m) && e.SendsFrame? && e.fin && WritersOk(m) && OrderOk(m)
    ensures Inv(m)
  {
    var payload := l.writers[e.w].payload;
    FinCompletes(l, e, m);
    PayloadSnoc(Assemble(l.wire).done, Message(true, payload));
    StepKeepsPayloads(l, e, m);
    assert m.order[..|l.order|] == l.order;
    assert m.writers[e.w].payload == payload;
  }

  lemma PayloadSnoc(ms: seq<Message>, m: Message)
    ensures Payload(ms + [m]) == Payload(ms) + (if m.binary then m.data else [])
  {
    PayloadAppend(ms, [m]);
    assert Payload([m]) == (if m.binary then m.data else []) + Payload([]);
  }

  lemma OtherMessageKeepsStream(l: Link, e: Event, m: Link)
    requires Inv(l) && Step(l, e, m) && e.OtherMessage? && WritersOk(m) && OrderOk(m)
    ensures Inv(m)
  {
    AssembleSnoc(l.wire, Frame(true, false, true, e.data));
    PayloadSnoc(Assemble(l.wire).done, Message(false, e.data));
  }

  /** A write that fails leaves its message under way for good. */
  lemma FailureKeepsStream(l: Link, e: Event, m: Link)
    requires Inv(l) && Step(l, e, m) && e.Fails? && WritersOk(m) && OrderOk(m)
    ensures Inv(m) && Unfinished(m) == Unfinished(l)
  {
    StepKeepsPayloads(l, e, m);
    assert WriterOk(l, e.w);
  }

  lemma LockKeepsStream(l: Link, e: Event, m: Link)
    requires Inv(l) && Step(l, e, m) && (e.Calls? || e.Locks?) && WritersOk(m) && OrderOk(m)
    ensures Inv(m)
  {
    if e.Locks? { assert WriterOk(l, e.w); }
    StepKeepsPayloads(l, e, m);
  }

  lemma StepKeepsInv(l: Link, e: Event, m: Link)
    requires Inv(l) && Step(l, e, m)
    ensures Inv(m)
  {
    StepKeepsWriters(l, e, m);
    match e {
      case SendsFrame(_, _, fin) => if fin { FinKeepsStream(l, e, m); } else { FrameKeepsStream(l, e, m); }
      case OtherMessage(_) => OtherMessageKeepsStream(l, e, m);
      case Fails(_) => FailureKeepsStream(l, e, m);
      case _ => LockKeepsStream(l, e, m);
    }
  }

  lemma RunsKeepInv(trace: seq<Link>, k: nat)
    requires IsRun(trace) && k < |trace|
    ensures Inv(trace[k])
  {
    forall l, m | Inv(l) && Next(l, m) ensures Inv(m) {
      var e :| Step(l, e, m);
      StepKeepsInv(l, e, m);
    }
    Runs.Invariance(Init, Next, l => Inv(l), trace, k);
  }

  /** Concurrent Writes never mix: whatever the interleaving, the fragmentation and the other
      messages in between, the finished messages on the wire carry the payloads of exactly the
      Writes that have returned without error, each once, in the order they held the lock. */
  lemma WritesArriveInLockOrder(trace: seq<Link>, k: nat)
    requires IsRun(trace) && k < |trace|
    ensures forall i :: 0 <= i < |trace[k].order| ==> trace[k].order[i] < |trace[k].writers|
    ensures forall w :: 0 <= w < |trace[k].writers| ==> (w in trace[k].order <==> trace[k].writers[w].Written?)
    ensures forall i, j :: 0 <= i < j < |trace[k].order| ==> trace[k].order[i] != trace[k].order[j]
    ensures Payload(Assemble(trace[k].wire).done) == Concat(trace[k].writers, trace[k].order)
  {
    RunsKeepInv(trace, k);
    forall w | 0 <= w < |trace[k].writers| ensures w in trace[k].order <==> trace[k].writers[w].Written? {
      assert WriterOk(trace[k], w);
    }
  }

  /** What is on the wire: the finished messages and the one under way, if any. */
  function OnWire(l: Link): seq<Message> {
    var a := Assemble(l.wire);
    match a.cur case None => a.done case Some(m) => a.done + [m]
  }

  /** What has got through: some messages in full, and, if the connection broke in the middle
      of one, a part of that one. */
  predicate GotThrough(delivered: seq<Message>, cut: bool, sent: seq<Message>) {
    && |delivered| <= |sent|
    && if !cut then delivered <= sent
       else
         && delivered != [] && delivered[..|delivered| - 1] <= sent
         && delivered[|delivered| - 1].binary == sent[|delivered| - 1].binary
         && delivered[|delivered| - 1].data <= sent[|delivered| - 1].data
  }

  lemma PrefixOfPayload(delivered: seq<Message>, cut: bool, sent: seq<Message>)
    requires GotThrough(delivered, cut, sent)
    ensures Payload(delivered) <= Payload(sent)
  {
    var n := |delivered|;
    if !cut {
      assert sent == delivered + sent[n..];
      PayloadAppend(delivered, sent[n..]);
    } else {
      var last, full := delivered[n - 1], sent[n - 1];
      assert delivered == delivered[..n - 1] + [last] && sent == sent[..n - 1] + [full] + sent[n..];
      assert delivered[..n - 1] == sent[..n - 1];
      PayloadSnoc(delivered[..n - 1], last);
      PayloadSnoc(sent[..n - 1], full);
      PayloadAppend(sent[..n - 1] + [full], sent[n..]);
    }
  }

  /** All that has been put on the wire: the Writes that returned, in lock order, and what is
      out of the one Write that has not, or that has failed. */
  function AllSent(l: Link): Bytes
    requires forall k :: 0 <= k < |l.order| ==> l.order[k] < |l.writers|
  {
    Concat(l.writers, l.order) + (match Unfinished(l) case Some(data) => data case None => [])
  }

  lemma WireCarriesAllSent(trace: seq<Link>, k: nat)
    requires IsRun(trace) && k < |trace|
    ensures forall i :: 0 <= i < |trace[k].order| ==> trace[k].order[i] < |trace[k].writers|
    ensures Payload(OnWire(trace[k])) == AllSent(trace[k])
    ensures Unfinished(trace[k]).Some? ==>
      Author(trace[k]).Some? && Author(trace[k]).value < |trace[k].writers|
      && Unfinished(trace[k]).value <= trace[k].writers[Author(trace[k]).value].payload
  {
    RunsKeepInv(trace, k);
    var a := Assemble(trace[k].wire);
    if a.cur.Some? { PayloadSnoc(a.done, a.cur.value); }
  }

  /** End to end, at any moment, wherever the connection breaks and whichever Write has failed
      midway: what any Reads of any sizes return is a prefix of the payloads of the Writes in
      lock order followed by what is out of the one under way; it is exactly what got through
      once an end or an error has been reported, and all of it if everything got through; and
      that end is reached when there are more Reads into a buffer than bytes that got through. */
  method StreamIsFaithful(ghost trace: seq<Link>, ghost k: nat, delivered: seq<Message>, cut: bool, sizes: seq<nat>)
    returns (all: Bytes, ended: bool)
    requires IsRun(trace) && k < |trace| && GotThrough(delivered, cut, OnWire(trace[k]))
    ensures forall i :: 0 <= i < |trace[k].order| ==> trace[k].order[i] < |trace[k].writers|
    ensures all <= Payload(delivered) <= AllSent(trace[k])
    ensures ended ==> all == Payload(delivered)
    ensures Positives(sizes) > |Payload(delivered)| ==> ended
    ensures ended && delivered == OnWire(trace[k]) ==> all == AllSent(trace[k])
  {
    WireCarriesAllSent(trace, k);
    PrefixOfPayload(delivered, cut, OnWire(trace[k]));
    var r := new Reader(delivered, cut);
    all, ended := r.ReadMany(sizes);
  }
}
