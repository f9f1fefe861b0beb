/** The connection and its streams as the objects the program keeps: a table of
    stream objects, an accept queue, a close signal. Every method is tied to the
    steps of module Mux through State(). */
module MuxConn {
  import opened Frames
  import opened Options
  import M = Mux

  // What a call does when nothing else runs beside it, in steps of module Mux

  /** Open: allocate and register, announce, and withdraw if the OPEN did not go out. */
  function OpenRun(c: M.Conn, raw: M.RawWrite): M.Conn {
    var o := |c.heap|;
    var c1 := M.Step(c, M.BeginOpen);
    var c2 := M.Step(c1, M.SendOpen(o, raw));
    if M.EmitOk(c1, M.OpenFrame(c.nextID), raw) then c2 else M.Step(c2, M.AbortOpen(o))
  }

  /** Close: the signal, the table entry, the frame. */
  function CloseRun(c: M.Conn, o: nat, raw: M.RawWrite): M.Conn
    requires M.Held(c, o) && c.heap[o].closing == M.Live
  {
    var c1 := M.Step(c, M.SignalClose(o));
    var c2 := M.Step(c1, M.UnlistClosed(o));
    M.Step(c2, M.SendClose(o, raw))
  }

  /** The rest of a read loop's turn once the frame has been looked at. `keep` is
      which ready case deliver's select takes. */
  function Settled(c: M.Conn, raw: M.RawWrite, keep: bool): M.Conn
    requires CanSettle(c, keep)
  {
    match c.loop
    case Offering(_) =>
      var c1 := M.Step(c, M.OfferStream);
      if c1.loop.Refusing? then M.Step(M.Step(c1, M.WithdrawStream), M.Reply(raw)) else c1
    case Replying(_) => M.Step(c, M.Reply(raw))
    case Delivering(_, _) => M.Step(c, if keep then M.KeepPayload else M.GiveUpPayload)
    case HangingUp(_) => M.Step(M.Step(c, M.CloseReads), M.Unlink)
    case _ => c
  }

  /** A delivery with no ready case waits. */
  predicate CanSettle(c: M.Conn, keep: bool) {
    match c.loop
    case Offering(o) => o < |c.heap|
    case HangingUp(o) => o < |c.heap|
    case Delivering(_, _) => M.Enabled(c, if keep then M.KeepPayload else M.GiveUpPayload)
    case _ => true
  }

  /** An iteration of the read loop: one frame worked through, or the end of it. */
  function TurnOf(c: M.Conn, reading: Reading, raw: M.RawWrite, keep: bool): M.Conn
    requires c.loop == M.Idle
    requires reading.Got? ==>
      reading.frame.Valid() && CanSettle(M.Step(c, M.Receive(reading.frame)), keep)
  {
    if reading.Got? then Settled(M.Step(c, M.Receive(reading.frame)), raw, keep) else M.Step(c, M.ReadFails)
  }

  /** Which ready case Read's select takes when its buffer is empty. */
  datatype Pick = FromQueue | StreamSignal | ConnSignal

  datatype ReadEnd = More | PeerClosed | StreamClosed | ConnDone

  predicate Ready(c: M.Conn, o: nat, pick: Pick)
    requires o < |c.heap|
  {
    match pick
    case FromQueue => c.heap[o].queue != [] || c.heap[o].readsClosed
    case StreamSignal => c.heap[o].LocallyClosed()
    case ConnSignal => c.Closed()
  }

  /** Read: refill the buffer from the queue if it is empty, then copy out. */
  function ReadRun(c: M.Conn, o: nat, n: nat, pick: Pick): M.Conn
    requires M.Held(c, o)
  {
    if c.heap[o].rbuf != [] then M.Step(c, M.CopyOut(o, n))
    else if pick != FromQueue || c.heap[o].queue == [] then c
    else
      var c1 := M.Step(c, M.TakePayload(o));
      if c1.heap[o].rbuf != [] then M.Step(c1, M.CopyOut(o, n)) else c1
  }

  /** Write: one DATA frame per chunk until the bytes run out or something is
      closed; also how many bytes it reports written. */
  function WriteRun(c: M.Conn, o: nat, p: Bytes, raw: nat -> M.RawWrite, k: nat): (M.Conn, nat)
    requires M.Held(c, o)
    decreases |p|
  {
    if p == [] || c.heap[o].LocallyClosed() || c.Closed() then (c, 0)
    else
      var n := M.Min(|p|, MAX_PAYLOAD);
      var c1 := M.Step(c, M.WriteChunk(o, p[..n], raw(k)));
      if !M.EmitOk(c, M.DataFrame(c.heap[o].id, p[..n]), raw(k)) then (c1, 0)
      else
        var (c2, written) := WriteRun(c1, o, p[n..], raw, k + 1);
        (c2, n + written)
  }

  /** A Write of p has come to c with `rest` still to go. */
  ghost predicate Written(start: M.Conn, o: nat, p: Bytes, raw: nat -> M.RawWrite,
                          c: M.Conn, rest: Bytes, k: nat, written: nat)
    requires M.Held(start, o)
  {
    && M.Held(c, o)
    && var (c', n) := WriteRun(c, o, rest, raw, k);
       WriteRun(start, o, p, raw, 0) == (c', written + n)
  }

  lemma WriteDone(start: M.Conn, o: nat, p: Bytes, raw: nat -> M.RawWrite,
                  c: M.Conn, rest: Bytes, k: nat, written: nat)
    requires M.Held(start, o) && Written(start, o, p, raw, c, rest, k, written)
    requires rest == [] || c.heap[o].LocallyClosed() || c.Closed()
    ensures WriteRun(start, o, p, raw, 0) == (c, written)
  {
  }

  lemma WriteMore(start: M.Conn, o: nat, p: Bytes, raw: nat -> M.RawWrite,
                  c: M.Conn, rest: Bytes, k: nat, written: nat)
    requires M.Held(start, o) && Written(start, o, p, raw, c, rest, k, written)
    requires rest != [] && !c.heap[o].LocallyClosed() && !c.Closed()
    ensures var n := M.Min(|rest|, MAX_PAYLOAD);
      var c1 := M.Step(c, M.WriteChunk(o, rest[..n], raw(k)));
      if M.EmitOk(c, M.DataFrame(c.heap[o].id, rest[..n]), raw(k))
      then Written(start, o, p, raw, c1, rest[n..], k + 1, written + n)
      else WriteRun(start, o, p, raw, 0) == (c1, written)
  {
  }

  class Stream {
    const id: uint32
    var queue: seq<Bytes>
    var readsClosed: bool
    var rbuf: Bytes

    /** How far Close has got; the channel that Close shuts is shut unless Live. */
    var closing: M.Closing

    /** This object's place among all the connection ever made: its identity. */
    const slot: nat

    ghost const mine: bool
    ghost const serial: nat
    ghost var stage: M.Stage
    ghost var handled: seq<M.Handled>
    ghost var returned: Bytes

    constructor (id: uint32, slot: nat, ghost mine: bool, ghost serial: nat)
      ensures State() == M.NewStream(id, mine, serial)
      ensures this.id == id && this.slot == slot
    {
      this.id := id;
      queue, readsClosed, rbuf, closing := [], false, [], M.Live;
      this.slot, this.mine, this.serial := slot, mine, serial;
      stage := if mine then M.Opening else M.Offered;
      handled, returned := [], [];
    }

    predicate Closed()
      reads this
    {
      closing != M.Live
    }

    ghost function State(): M.Stream
      reads this
    {
      M.Stream(id, mine, serial, stage, closing, queue, readsClosed, rbuf, handled, returned)
    }
  }

  ghost function States(hs: seq<Stream>): (r: seq<M.Stream>)
    reads hs
    ensures |r| == |hs| && forall i | 0 <= i < |hs| :: r[i] == hs[i].State()
  {
    seq(|hs|, i requires 0 <= i < |hs| reads hs => hs[i].State())
  }

  ghost function Slots(ss: seq<Stream>): (r: seq<nat>)
    ensures |r| == |ss| && forall i | 0 <= i < |ss| :: r[i] == ss[i].slot
  {
    seq(|ss|, i requires 0 <= i < |ss| => ss[i].slot)
  }

  ghost function Table(m: map<uint32, Stream>): map<uint32, nat> {
    map id <- m :: m[id].slot
  }

  /** A change to one object is a change to its place in the list of states. */
  lemma OneChanged(before: seq<M.Stream>, hs: seq<Stream>, s: Stream)
    requires s.slot < |hs| && hs[s.slot] == s
    requires |before| == |hs| && forall i | 0 <= i < |hs| && i != s.slot :: before[i] == hs[i].State()
    ensures States(hs) == before[s.slot := s.State()]
  {
  }

  lemma OpenReceived(c: M.Conn, f: Frame)
    requires M.Enabled(c, M.Receive(f)) && f.ty == OPEN && f.id !in c.streams
    ensures M.Step(c, M.Receive(f)) ==
            M.AddStream(c, f.id, false).(loop := M.Offering(|c.heap|), seen := c.seen + [f])
  {
  }

  lemma SendCloseIs(c: M.Conn, o: nat, raw: M.RawWrite)
    requires M.Enabled(c, M.SendClose(o, raw))
    ensures M.Step(c, M.SendClose(o, raw)) ==
            M.SetStream(M.Emit(c, M.CloseFrame(c.heap[o].id), raw), o, c.heap[o].(closing := M.Told))
  {
  }

  lemma HandleIs(c: M.Conn, o: nat, b: Bytes)
    requires c.loop == M.Delivering(o, b) && o < |c.heap|
    ensures var s := c.heap[o];
      && (M.Enabled(c, M.KeepPayload) ==>
            M.Step(c, M.KeepPayload) ==
            M.SetStream(c, o, s.(queue := s.queue + [b], handled := s.handled + [M.Handled(b, true)])).(loop := M.Idle))
      && (M.Enabled(c, M.GiveUpPayload) ==>
            M.Step(c, M.GiveUpPayload) ==
            M.SetStream(c, o, s.(handled := s.handled + [M.Handled(b, false)])).(loop := M.Idle))
  {
  }

  lemma WithdrawIs(c: M.Conn, o: nat)
    requires c.loop == M.Refusing(o) && o < |c.heap|
    ensures var s := c.heap[o];
      M.Step(c, M.WithdrawStream) ==
      M.SetStream(M.RemoveStream(c, s.id), o, s.(stage := M.Discarded)).(loop := M.Replying(M.CloseFrame(s.id)))
  {
  }

  function Looked(c: M.Conn, f: Frame): M.Conn {
    var next := if f.id !in c.streams then if f.ty == DATA then M.Replying(M.CloseFrame(f.id)) else M.Idle
                else if f.ty == CLOSE then M.HangingUp(c.streams[f.id])
                else if f.payload == [] then M.Idle
                else M.Delivering(c.streams[f.id], f.payload);
    c.(loop := next, seen := c.seen + [f])
  }

  lemma LookedReceived(c: M.Conn, f: Frame)
    requires M.Enabled(c, M.Receive(f)) && (f.ty == DATA || f.ty == CLOSE)
    ensures M.Step(c, M.Receive(f)) == Looked(c, f)
  {
  }

  function Controlled(c: M.Conn, f: Frame): M.Conn {
    var c' := if f.ty == OPEN then M.CloseWith(c, M.Reopened(f.id))
              else if f.ty == PING then c.(loop := M.Replying(Frame(PONG, 0, [])))
              else if f.ty == PONG then c
              else M.CloseWith(c, M.UnexpectedAuth).(loop := M.Stopped);
    c'.(seen := c.seen + [f])
  }

  lemma ControlReceived(c: M.Conn, f: Frame)
    requires M.Enabled(c, M.Receive(f)) && f.ty != DATA && f.ty != CLOSE && (f.ty == OPEN ==> f.id in c.streams)
    ensures M.Step(c, M.Receive(f)) == Controlled(c, f)
  {
  }

  class Conn {
    const side: M.Side
    var streams: map<uint32, Stream>
    var nextID: uint32
    var accept: seq<Stream>
    var closed: bool
    var err: seq<M.Cause>

    /** Everything written to the raw connection. */
    var sent: seq<Frame>

    /** Where the read loop stands. */
    var loop: M.Loop

    // every stream object ever made, how many this end opened, and what it has read
    var heap: seq<Stream>
    ghost var opens: nat
    ghost var seen: seq<Frame>

    ghost predicate Valid()
      reads this, heap
    {
      && (closed <==> err != [])
      && (forall i | 0 <= i < |heap| :: heap[i].slot == i)
      && (forall id <- streams :: Has(streams[id]) && streams[id].id == id)
      && (forall i | 0 <= i < |accept| :: Has(accept[i]))
    }

    ghost predicate Has(s: Stream)
      reads this
    {
      s.slot < |heap| && heap[s.slot] == s
    }

    ghost function State(): M.Conn
      reads this, heap
    {
      M.Conn(side, States(heap), Table(streams), nextID, opens, Slots(accept), err, loop, sent, seen)
    }

    constructor (side: M.Side)
      ensures Valid() && fresh(heap) && State() == M.NewConn(side)
    {
      this.side := side;
      streams, nextID, accept, closed, err := map[], side.First(), [], false, [];
      sent, heap, opens, loop, seen := [], [], 0, M.Idle, [];
    }

    method CloseWithErr(cause: M.Cause)
      requires Valid()
      modifies this`closed, this`err
      ensures Valid() && State() == M.CloseWith(old(State()), cause)
      ensures closed && err == if old(err) == [] then [cause] else old(err)
    {
      if !closed {
        closed, err := true, [cause];
      }
    }

    /** `raw` is what the raw connection makes of the write, if it gets that far. */
    method WriteFrame(f: Frame, raw: M.RawWrite) returns (ok: bool)
      requires Valid()
      modifies this`closed, this`err, this`sent
      ensures Valid() && State() == M.Emit(old(State()), f, raw)
      ensures ok <==> M.EmitOk(old(State()), f, raw)
      ensures ok <==> f.Valid() && !old(closed) && raw == M.Through
      ensures sent == if f.Valid() && !old(closed) && raw != M.Broken(false) then old(sent) + [f] else old(sent)
      ensures closed <==> old(closed) || (f.Valid() && raw.Broken?)
    {
      if !f.Valid() || closed {
        return false;
      }
      if raw != M.Broken(false) {
        sent := sent + [f];
      }
      ok := raw == M.Through;
      if !ok {
        CloseWithErr(M.NetworkError);
      }
    }

    method AddStream(id: uint32, ghost mine: bool) returns (s: Stream)
      requires Valid()
      modifies this`streams, this`heap
      ensures Valid() && State() == M.AddStream(old(State()), id, mine)
      ensures fresh(s) && heap == old(heap) + [s] && s.id == id && s.slot == |old(heap)|
      ensures streams == old(streams)[id := s]
    {
      s := new Stream(id, |heap|, mine, opens);
      streams, heap := streams[id := s], heap + [s];
      assert States(heap) == old(States(heap)) + [s.State()];
      assert Table(streams) == old(Table(streams))[id := s.slot];
    }

    method RemoveStream(id: uint32)
      requires Valid()
      modifies this`streams
      ensures Valid() && State() == M.RemoveStream(old(State()), id)
      ensures streams == old(streams) - {id}
    {
      streams := streams - {id};
      assert Table(streams) == old(Table(streams)) - {id};
    }

    // Open, one critical section at a time

    method BeginOpen() returns (s: Stream)
      requires Valid()
      modifies this`streams, this`nextID, this`heap, this`opens
      ensures Valid() && State() == M.Step(old(State()), M.BeginOpen)
      ensures fresh(s) && heap == old(heap) + [s] && s.id == old(nextID) && s.slot == |old(heap)|
      ensures streams == old(streams)[old(nextID) := s] && nextID == (old(nextID) + 2) % 0x1_0000_0000
    {
      var id := nextID;
      nextID := (nextID + 2) % 0x1_0000_0000;
      s := AddStream(id, true);
      opens := opens + 1;
    }

    ghost method Enter(s: Stream, stage: M.Stage)
      requires Valid() && Has(s)
      modifies s`stage
      ensures Valid() && State() == M.SetStream(old(State()), s.slot, old(s.State()).(stage := stage))
      ensures s.stage == stage
    {
      var before := States(heap);
      s.stage := stage;
      OneChanged(before, heap, s);
    }

    method SendOpen(s: Stream, raw: M.RawWrite) returns (ok: bool)
      requires Valid() && Has(s) && s.stage == M.Opening
      modifies s`stage, this`closed, this`err, this`sent
      ensures Valid() && State() == M.Step(old(State()), M.SendOpen(s.slot, raw))
      ensures ok <==> M.EmitOk(old(State()), M.OpenFrame(s.id), raw)
      ensures s.stage == if ok then M.Usable else M.Aborting
      ensures ok <==> !old(closed) && s.id != 0 && raw == M.Through
      ensures ok ==> sent == old(sent) + [Frame(OPEN, s.id, [])] && !closed
    {
      ok := WriteFrame(M.OpenFrame(s.id), raw);
      Enter(s, if ok then M.Usable else M.Aborting);
    }

    method AbortOpen(s: Stream)
      requires Valid() && Has(s) && s.stage == M.Aborting
      modifies s`stage, this`streams
      ensures Valid() && State() == M.Step(old(State()), M.AbortOpen(s.slot))
      ensures streams == old(streams) - {s.id}
    {
      RemoveStream(s.id);
      Enter(s, M.Discarded);
    }

    method Open(raw: M.RawWrite) returns (s: Stream?)
      requires Valid()
      modifies this`streams, this`nextID, this`closed, this`err, this`sent, this`heap, this`opens
      ensures Valid()
      ensures old(closed) ==> s == null && State() == old(State())
      ensures !old(closed) ==> State() == OpenRun(old(State()), raw)
      ensures s != null ==> fresh(s) && heap == old(heap) + [s] && s.id == old(nextID)
      ensures s != null <==> !old(closed) && old(nextID) != 0 && raw == M.Through
      ensures s != null ==> sent == old(sent) + [Frame(OPEN, s.id, [])] && streams == old(streams)[s.id := s]
      ensures s == null && !old(closed) ==> old(nextID) !in streams
    {
      if closed {
        return null;
      }
      var added := BeginOpen();
      var ok := SendOpen(added, raw);
      if !ok {
        AbortOpen(added);
        return null;
      }
      s := added;
    }

    /** Accept blocks until a stream is waiting or the connection is closed; with
        both, select takes either. */
    method Accept(preferClosed: bool) returns (s: Stream?)
      requires Valid()
      requires accept != [] || closed
      modifies this`accept, if accept == [] then {} else {accept[0]}
      ensures Valid()
      ensures s == null <==> old(accept) == [] || (preferClosed && closed)
      ensures s == null ==> State() == old(State())
      ensures s != null ==> s == old(accept)[0] && M.Enabled(old(State()), M.Accept)
                            && State() == M.Step(old(State()), M.Accept)
    {
      if accept == [] || (preferClosed && closed) {
        return null;
      }
      s := accept[0];
      accept := accept[1..];
      assert Slots(accept) == old(Slots(accept))[1..];
      Enter(s, M.Usable);
    }

    // Close, one critical section at a time

    method Progress(s: Stream, to: M.Closing)
      requires Valid() && Has(s)
      modifies s`closing
      ensures Valid() && State() == M.SetStream(old(State()), s.slot, old(s.State()).(closing := to))
      ensures s.closing == to
    {
      ghost var before := States(heap);
      s.closing := to;
      OneChanged(before, heap, s);
    }

    method SignalClose(s: Stream)
      requires Valid() && Has(s) && s.stage == M.Usable && s.closing == M.Live
      modifies s`closing
      ensures Valid() && State() == M.Step(old(State()), M.SignalClose(s.slot))
      ensures s.closing == M.Signalled
    {
      Progress(s, M.Signalled);
    }

    method UnlistClosed(s: Stream)
      requires Valid() && Has(s) && s.stage == M.Usable && s.closing == M.Signalled
      modifies s`closing, this`streams
      ensures Valid() && State() == M.Step(old(State()), M.UnlistClosed(s.slot))
      ensures s.closing == M.Unlisted
      ensures streams == old(streams) - {s.id}
    {
      RemoveStream(s.id);
      Progress(s, M.Unlisted);
    }

    method SendClose(s: Stream, raw: M.RawWrite)
      requires Valid() && Has(s) && s.stage == M.Usable && s.closing == M.Unlisted
      modifies s`closing, this`closed, this`err, this`sent
      ensures Valid() && State() == M.Step(old(State()), M.SendClose(s.slot, raw))
      ensures s.closing == M.Told
      ensures !old(closed) && s.id != 0 && raw == M.Through ==>
        sent == old(sent) + [Frame(CLOSE, s.id, [])] && !closed
    {
      SendCloseIs(State(), s.slot, raw);
      var _ := WriteFrame(M.CloseFrame(s.id), raw);
      Progress(s, M.Told);
    }

    /** Close is safe to call again: only the first call does anything. */
    method CloseStream(s: Stream, raw: M.RawWrite)
      requires Valid() && Has(s) && s.stage == M.Usable
      modifies s`closing, this`streams, this`closed, this`err, this`sent
      ensures Valid()
      ensures old(s.Closed()) ==> State() == old(State())
      ensures !old(s.Closed()) ==> State() == CloseRun(old(State()), s.slot, raw)
      ensures s.Closed() && (!old(s.Closed()) ==> s.id !in streams)
      ensures !old(s.Closed()) && !old(closed) && s.id != 0 && raw == M.Through ==>
        sent == old(sent) + [Frame(CLOSE, s.id, [])] && !closed
    {
      if s.Closed() {
        return;
      }
      SignalClose(s);
      UnlistClosed(s);
      SendClose(s, raw);
    }

    // Reading and writing

    method TakePayload(s: Stream)
      requires Valid() && Has(s) && s.stage == M.Usable && s.rbuf == [] && s.queue != []
      modifies s`rbuf, s`queue
      ensures Valid() && State() == M.Step(old(State()), M.TakePayload(s.slot))
      ensures s.rbuf == old(s.queue)[0] && s.queue == old(s.queue)[1..]
    {
      ghost var before := States(heap);
      s.rbuf, s.queue := s.queue[0], s.queue[1..];
      OneChanged(before, heap, s);
    }

    method CopyOut(s: Stream, n: nat) returns (b: Bytes)
      requires Valid() && Has(s) && s.stage == M.Usable && s.rbuf != []
      modifies s`rbuf, s`returned
      ensures Valid() && State() == M.Step(old(State()), M.CopyOut(s.slot, n))
      ensures b + s.rbuf == old(s.rbuf) && |b| == M.Min(n, |old(s.rbuf)|)
      ensures s.returned == old(s.returned) + b
    {
      ghost var before := States(heap);
      var k := M.Min(n, |s.rbuf|);
      b := s.rbuf[..k];
      s.rbuf, s.returned := s.rbuf[k..], s.returned + b;
      OneChanged(before, heap, s);
    }

    /** Read with a buffer of n bytes. An empty buffer and no ready case is a Read
        that waits. `cause` goes with ConnDone. */
    method ReadStream(s: Stream, n: nat, pick: Pick) returns (b: Bytes, end: ReadEnd, cause: Option<M.Cause>)
      requires Valid() && Has(s) && s.stage == M.Usable
      requires s.rbuf == [] ==> Ready(State(), s.slot, pick)
      requires s.queue != [] ==> s.queue[0] != []
      modifies s`queue, s`rbuf, s`returned
      ensures Valid() && State() == ReadRun(old(State()), s.slot, n, pick)
      ensures s.returned == old(s.returned) + b
      ensures end == More <==> old(s.rbuf) != [] || (pick == FromQueue && old(s.queue) != [])
      ensures end == More ==>
        var data := if old(s.rbuf) != [] then old(s.rbuf) else old(s.queue)[0];
        b == data[..if n < |data| then n else |data|]
      ensures end == PeerClosed ==>
        old(s.rbuf) == [] && pick == FromQueue && old(s.queue) == [] && old(s.readsClosed)
      ensures end == StreamClosed <==> old(s.rbuf) == [] && pick == StreamSignal
      ensures end == StreamClosed ==> old(s.Closed())
      ensures end == ConnDone <==> old(s.rbuf) == [] && pick == ConnSignal
      ensures end == ConnDone ==> old(closed) && old(err) != [] && cause == Some(old(err)[0])
      ensures end != ConnDone ==> cause == None
      ensures end != More ==> b == [] && State() == old(State())
    {
      b, end, cause := [], More, None;
      if s.rbuf == [] {
        match pick
        case StreamSignal => return [], StreamClosed, None;
        case ConnSignal => return [], ConnDone, Some(err[0]);
        case FromQueue =>
          if s.queue == [] {
            return [], PeerClosed, None;
          }
          TakePayload(s);
      }
      b := CopyOut(s, n);
    }

    method WriteChunk(s: Stream, chunk: Bytes, raw: M.RawWrite) returns (ok: bool)
      requires Valid() && Has(s) && s.stage == M.Usable && 0 < |chunk| <= MAX_PAYLOAD
      modifies this`closed, this`err, this`sent
      ensures Valid() && State() == M.Step(old(State()), M.WriteChunk(s.slot, chunk, raw))
      ensures ok <==> M.EmitOk(old(State()), M.DataFrame(s.id, chunk), raw)
      ensures ok <==> !old(closed) && s.id != 0 && raw == M.Through
      ensures ok ==> sent == old(sent) + [Frame(DATA, s.id, chunk)] && !closed
    {
      ok := WriteFrame(M.DataFrame(s.id, chunk), raw);
    }

    method WriteStream(s: Stream, p: Bytes, raw: nat -> M.RawWrite) returns (written: nat)
      requires Valid() && Has(s) && s.stage == M.Usable
      modifies this`closed, this`err, this`sent
      ensures Valid() && (State(), written) == WriteRun(old(State()), s.slot, p, raw, 0)
    {
      ghost var start := State();
      written := 0;
      var rest, k := p, 0;
      while rest != [] && !s.Closed() && !closed
        invariant Valid() && Has(s) && s.stage == M.Usable
        invariant Written(start, s.slot, p, raw, State(), rest, k, written)
        decreases |rest|
      {
        var n := M.Min(|rest|, MAX_PAYLOAD);
        WriteMore(start, s.slot, p, raw, State(), rest, k, written);
        var ok := WriteChunk(s, rest[..n], raw(k));
        if !ok {
          return;
        }
        written, rest, k := written + n, rest[n..], k + 1;
      }
      WriteDone(start, s.slot, p, raw, State(), rest, k, written);
    }

    // The read loop

    /** The read loop goes on, */
    method MoveTo(next: M.Loop)
      requires Valid()
      modifies this`loop
      ensures Valid() && State() == old(State()).(loop := next) && loop == next
    {
      loop := next;
    }

    /** having taken in a frame. */
    method Note(f: Frame, next: M.Loop)
      requires Valid()
      modifies this`loop, this`seen
      ensures Valid() && State() == old(State()).(loop := next, seen := old(seen) + [f]) && loop == next
    {
      loop, seen := next, seen + [f];
    }

    /** What deliver and remoteClosed do to the stream, */
    method Handle(s: Stream, b: Bytes, keep: bool)
      requires Valid() && Has(s)
      modifies s`queue, s`handled
      ensures Valid()
      ensures var st := old(s.State());
        State() == M.SetStream(old(State()), s.slot,
          st.(queue := if keep then st.queue + [b] else st.queue, handled := st.handled + [M.Handled(b, keep)]))
    {
      ghost var before := States(heap);
      if keep {
        s.queue := s.queue + [b];
      }
      s.handled := s.handled + [M.Handled(b, keep)];
      OneChanged(before, heap, s);
    }

    method ShutReads(s: Stream)
      requires Valid() && Has(s)
      modifies s`readsClosed
      ensures Valid() && State() == M.SetStream(old(State()), s.slot, old(s.State()).(readsClosed := true))
    {
      ghost var before := States(heap);
      s.readsClosed := true;
      OneChanged(before, heap, s);
    }

    /** and where the loop goes then. */
    method Enqueue(s: Stream, b: Bytes)
      requires Valid() && Has(s) && loop == M.Delivering(s.slot, b) && b != [] && |s.queue| < M.STREAM_BUFFER
      modifies s`queue, s`handled, this`loop
      ensures Valid() && State() == M.Step(old(State()), M.KeepPayload)
      ensures s.queue == old(s.queue) + [b]
    {
      HandleIs(State(), s.slot, b);
      Handle(s, b, true);
      MoveTo(M.Idle);
    }

    method GiveUp(s: Stream, b: Bytes)
      requires Valid() && Has(s) && loop == M.Delivering(s.slot, b) && (s.Closed() || closed)
      modifies s`queue, s`handled, this`loop
      ensures Valid() && State() == M.Step(old(State()), M.GiveUpPayload)
      ensures s.queue == old(s.queue)
    {
      HandleIs(State(), s.slot, b);
      Handle(s, b, false);
      MoveTo(M.Idle);
    }

    method RemoteClosed(s: Stream)
      requires Valid() && Has(s) && loop == M.HangingUp(s.slot)
      modifies s`readsClosed, this`loop
      ensures Valid() && State() == M.Step(old(State()), M.CloseReads)
      ensures s.readsClosed
    {
      ShutReads(s);
      MoveTo(M.Unlinking(s.slot));
    }

    method Withdraw(s: Stream)
      requires Valid() && Has(s) && loop == M.Refusing(s.slot)
      modifies s`stage, this`streams, this`loop
      ensures Valid() && State() == M.Step(old(State()), M.WithdrawStream)
      ensures streams == old(streams) - {s.id}
    {
      WithdrawIs(State(), s.slot);
      RemoveStream(s.id);
      Enter(s, M.Discarded);
      MoveTo(M.Replying(M.CloseFrame(s.id)));
    }

    method Reply(f: Frame, raw: M.RawWrite)
      requires Valid() && loop == M.Replying(f)
      modifies this`loop, this`closed, this`err, this`sent
      ensures Valid() && State() == M.Step(old(State()), M.Reply(raw))
      ensures f.Valid() && !old(closed) && raw == M.Through ==> sent == old(sent) + [f] && !closed
    {
      var _ := WriteFrame(f, raw);
      MoveTo(M.Idle);
    }

    method Unlink(s: Stream)
      requires Valid() && Has(s) && loop == M.Unlinking(s.slot)
      modifies this`streams, this`loop
      ensures Valid() && State() == M.Step(old(State()), M.Unlink)
    {
      RemoveStream(s.id);
      MoveTo(M.Idle);
    }

    method Offer(s: Stream)
      requires Valid() && Has(s) && loop == M.Offering(s.slot)
      modifies this`accept, this`loop
      ensures Valid() && State() == M.Step(old(State()), M.OfferStream)
      ensures loop == M.Idle || loop == M.Refusing(s.slot)
      ensures accept == if |old(accept)| < 64 then old(accept) + [s] else old(accept)
    {
      if |accept| < M.ACCEPT_BUFFER {
        accept, loop := accept + [s], M.Idle;
        assert Slots(accept) == old(Slots(accept)) + [s.slot];
      } else {
        loop := M.Refusing(s.slot);
      }
    }

    method Register(f: Frame) returns (s: Stream)
      requires Valid() && loop == M.Idle && f.Valid() && f.ty == OPEN && f.id !in streams
      modifies this`streams, this`heap, this`loop, this`seen
      ensures Valid()
      ensures var c := old(State());
        State() == M.AddStream(c, f.id, false).(loop := M.Offering(|c.heap|), seen := c.seen + [f])
      ensures loop == M.Offering(s.slot) && heap == old(heap) + [s] && s.slot == |old(heap)| && fresh(s)
    {
      s := AddStream(f.id, false);
      Note(f, M.Offering(s.slot));
    }

    /** DATA and CLOSE look their stream up. */
    method Look(f: Frame) returns (s: Stream?)
      requires Valid() && loop == M.Idle && f.Valid() && (f.ty == DATA || f.ty == CLOSE)
      modifies this`loop, this`seen
      ensures Valid() && State() == Looked(old(State()), f)
      ensures loop.Idle? || loop.Replying? || loop.Delivering? || loop.HangingUp?
      ensures loop.Delivering? || loop.HangingUp? ==> s != null && Has(s) && s.slot == loop.o
      ensures s != null ==> s in heap
      ensures loop.Delivering? ==> loop.b != []
      ensures f.ty == DATA && f.id !in old(streams) ==> loop == M.Replying(Frame(CLOSE, f.id, []))
    {
      s := null;
      if f.id in streams {
        s := streams[f.id];
        assert heap[s.slot] == s;
        if f.ty == CLOSE {
          Note(f, M.HangingUp(s.slot));
        } else if f.payload != [] {
          Note(f, M.Delivering(s.slot, f.payload));
        } else {
          Note(f, M.Idle);
        }
      } else if f.ty == DATA {
        Note(f, M.Replying(M.CloseFrame(f.id)));
      } else {
        Note(f, M.Idle);
      }
    }

    /** Take in one frame: the table lookup or entry it calls for, and where the
        read loop goes next. */
    method Receive(f: Frame) returns (s: Stream?)
      requires Valid() && loop == M.Idle && f.Valid()
      modifies this
      ensures Valid() && State() == M.Step(old(State()), M.Receive(f))
      ensures !loop.Refusing? && !loop.Unlinking?
      ensures (loop.Offering? || loop.Delivering? || loop.HangingUp?) ==> s != null && Has(s) && s.slot == loop.o
      ensures loop.Delivering? ==> loop.b != []
      ensures s != null ==> fresh(s) || s in old(heap)
      ensures f.ty == PING ==> loop == M.Replying(Frame(PONG, 0, []))
      ensures f.ty == DATA && f.id !in old(streams) ==> loop == M.Replying(Frame(CLOSE, f.id, []))
      ensures f.ty == OPEN && f.id in old(streams) && !old(closed) ==> err == [M.Reopened(f.id)]
    {
      s := null;
      if f.ty == OPEN && f.id !in streams {
        OpenReceived(State(), f);
        s := Register(f);
      } else if f.ty == DATA || f.ty == CLOSE {
        LookedReceived(State(), f);
        s := Look(f);
      } else {
        ControlReceived(State(), f);
        Control(f);
      }
    }

    /** Frames that name no stream, or one that may not be opened. */
    method Control(f: Frame)
      requires Valid() && loop == M.Idle && f.Valid() && f.ty != DATA && f.ty != CLOSE
      requires f.ty == OPEN ==> f.id in streams
      modifies this`closed, this`err, this`loop, this`seen
      ensures Valid() && State() == Controlled(old(State()), f)
      ensures loop.Idle? || loop.Replying? || loop.Stopped?
      ensures f.ty == PING ==> loop == M.Replying(Frame(PONG, 0, []))
      ensures f.ty == OPEN && !old(closed) ==> err == [M.Reopened(f.id)]
    {
      var next := M.Idle;
      if f.ty == OPEN {
        CloseWithErr(M.Reopened(f.id));
      } else if f.ty == PING {
        next := M.Replying(Frame(PONG, 0, []));
      } else if f.ty != PONG {
        CloseWithErr(M.UnexpectedAuth);
        next := M.Stopped;
      }
      Note(f, next);
    }

    method SettleOffer(s: Stream, raw: M.RawWrite)
      requires Valid() && Has(s) && loop == M.Offering(s.slot)
      modifies s`stage, this`accept, this`streams, this`loop, this`closed, this`err, this`sent
      ensures Valid() && CanSettle(old(State()), true) && State() == Settled(old(State()), raw, true)
    {
      Offer(s);
      if loop.Refusing? {
        Withdraw(s);
        Reply(M.CloseFrame(s.id), raw);
      }
    }

    method Deliver(s: Stream, b: Bytes, keep: bool)
      requires Valid() && Has(s) && loop == M.Delivering(s.slot, b) && b != [] && CanSettle(State(), keep)
      modifies s`queue, s`handled, this`loop
      ensures Valid() && State() == Settled(old(State()), M.Through, keep)
    {
      if keep {
        Enqueue(s, b);
      } else {
        GiveUp(s, b);
      }
    }

    method HangUp(s: Stream)
      requires Valid() && Has(s) && loop == M.HangingUp(s.slot)
      modifies s`readsClosed, this`streams, this`loop
      ensures Valid() && CanSettle(old(State()), true) && State() == Settled(old(State()), M.Through, true)
    {
      RemoteClosed(s);
      Unlink(s);
    }

    /** What the read loop does with the stream it found or made, with no other
        goroutine in between. */
    method Settle(s: Stream?, raw: M.RawWrite, keep: bool)
      requires Valid() && CanSettle(State(), keep) && !loop.Refusing? && !loop.Unlinking?
      requires (loop.Offering? || loop.Delivering? || loop.HangingUp?) ==> s != null && Has(s) && s.slot == loop.o
      requires loop.Delivering? ==> loop.b != []
      modifies this, if s == null then {} else {s}
      ensures Valid() && State() == Settled(old(State()), raw, keep)
    {
      match loop
      case Offering(_) => SettleOffer(s, raw);
      case Replying(f) => Reply(f, raw);
      case Delivering(_, b) => Deliver(s, b, keep);
      case HangingUp(_) => HangUp(s);
      case _ =>
    }

    /** One iteration of the read loop on the bytes still to come. */
    method ReadTurn(r: Source, raw: M.RawWrite, keep: bool)
      requires Valid() && loop == M.Idle
      requires Decode(r.data).Got? ==> CanSettle(M.Step(State(), M.Receive(Decode(r.data).frame)), keep)
      modifies this, r, heap
      ensures Valid() && State() == TurnOf(old(State()), Decode(old(r.data)), raw, keep)
      ensures r.data == Decode(old(r.data)).rest
    {
      var reading := ReadFrame(r);
      assert State() == old(State());
      if reading.Failed? {
        StopReading();
        return;
      }
      var s := Receive(reading.frame);
      assert State() == M.Step(old(State()), M.Receive(reading.frame));
      Settle(s, raw, keep);
    }

    method StopReading()
      requires Valid() && loop == M.Idle
      modifies this`closed, this`err, this`loop
      ensures Valid() && State() == M.Step(old(State()), M.ReadFails)
    {
      CloseWithErr(M.NetworkError);
      loop := M.Stopped;
    }
  }
}
