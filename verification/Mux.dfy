/** One end of a multiplexed control connection, as a state machine whose steps
    are the critical sections of the code. A stream object is an index into
    `heap`; the table maps a stream id to the object registered under it. */
module Mux {
  import opened Frames

  const STREAM_BUFFER: nat := 16
  const ACCEPT_BUFFER: nat := 64

  datatype Side = RelaySide | TunnelSide {
    function First(): uint32 {
      if this == RelaySide then 1 else 2
    }

    function Peer(): Side {
      if this == RelaySide then TunnelSide else RelaySide
    }

    /** The ids this side allocates: odd at the relay, even at the tunnel. */
    predicate Owns(id: uint32) {
      id % 2 == First() % 2
    }
  }

  /** Where a stream object is in its life: Opening and Aborting inside Open,
      Offered by handleOpen, Usable once an application holds it, Discarded when
      Open failed or nobody would accept it. */
  datatype Stage = Opening | Aborting | Offered | Usable | Discarded

  /** How far Close has got: the local signal, the table entry, the CLOSE frame. */
  datatype Closing = Live | Signalled | Unlisted | Told

  /** One non-empty DATA payload that reached deliver, and which way its select went. */
  datatype Handled = Handled(payload: Bytes, kept: bool)

  /** `handled` and `returned` record what deliver was given and what Read gave out. */
  datatype Stream = Stream(
    id: uint32, mine: bool, serial: nat, stage: Stage, closing: Closing,
    queue: seq<Bytes>, readsClosed: bool, rbuf: Bytes,
    handled: seq<Handled>, returned: Bytes)
  {
    predicate LocallyClosed() {
      closing != Live
    }
  }

  datatype Cause = LocalClose | NetworkError | Reopened(id: uint32) | UnexpectedAuth

  /** Where the read loop stands between two critical sections. */
  datatype Loop =
    | Idle
    | Offering(o: nat)
    | Refusing(o: nat)
    | Replying(f: Frame)
    | Delivering(o: nat, b: Bytes)
    | HangingUp(o: nat)
    | Unlinking(o: nat)
    | Stopped

  /** `sent` and `seen` record the frames written to and read from the wire. */
  datatype Conn = Conn(
    side: Side, heap: seq<Stream>, streams: map<uint32, nat>, nextID: uint32, opens: nat,
    accept: seq<nat>, cause: seq<Cause>, loop: Loop,
    sent: seq<Frame>, seen: seq<Frame>)
  {
    predicate Closed() {
      cause != []
    }
  }

  function NewConn(side: Side): Conn {
    Conn(side, [], map[], side.First(), 0, [], [], Idle, [], [])
  }

  function NewStream(id: uint32, mine: bool, serial: nat): Stream {
    Stream(id, mine, serial, if mine then Opening else Offered, Live, [], false, [], [], [])
  }

  /** What the raw connection makes of one frame write. A write that fails breaks
      the connection; the frame may or may not have crossed. */
  datatype RawWrite = Through | Broken(crossed: bool)

  datatype Action =
    // application
    | BeginOpen
    | SendOpen(o: nat, raw: RawWrite)
    | AbortOpen(o: nat)
    | Accept
    | WriteChunk(o: nat, chunk: Bytes, raw: RawWrite)
    | SignalClose(o: nat)
    | UnlistClosed(o: nat)
    | SendClose(o: nat, raw: RawWrite)
    | TakePayload(o: nat)
    | CopyOut(o: nat, n: nat)
    | SendPing(raw: RawWrite)
    | CloseConn
    // read loop
    | Receive(f: Frame)
    | ReadFails
    | OfferStream
    | WithdrawStream
    | Reply(raw: RawWrite)
    | KeepPayload
    | GiveUpPayload
    | CloseReads
    | Unlink
  {
    /** Steps the read loop takes by itself, without the application or a failure. */
    predicate ByReadLoop() {
      Receive? || OfferStream? || WithdrawStream? || Reply? || KeepPayload? || GiveUpPayload? || CloseReads? || Unlink?
    }
  }

  // Shared pieces

  /** closeWithErr: the first cause sticks. */
  function CloseWith(c: Conn, cause: Cause): Conn {
    c.(cause := if c.Closed() then c.cause else [cause])
  }

  /** writeFrame: an invalid frame is refused, then a closed connection; a frame
      that gets as far as the raw connection crosses or breaks it. */
  function Emit(c: Conn, f: Frame, raw: RawWrite): Conn {
    var tried := f.Valid() && !c.Closed();
    c.(sent := if tried && raw != Broken(false) then c.sent + [f] else c.sent,
       cause := if tried && raw.Broken? then [NetworkError] else c.cause)
  }

  predicate EmitOk(c: Conn, f: Frame, raw: RawWrite) {
    f.Valid() && !c.Closed() && raw == Through
  }

  function SetStream(c: Conn, o: nat, s: Stream): Conn
    requires o < |c.heap|
  {
    c.(heap := c.heap[o := s])
  }

  function RemoveStream(c: Conn, id: uint32): Conn {
    c.(streams := c.streams - {id})
  }

  function OpenFrame(id: uint32): Frame { Frame(OPEN, id, []) }

  function CloseFrame(id: uint32): Frame { Frame(CLOSE, id, []) }

  function DataFrame(id: uint32, chunk: Bytes): Frame { Frame(DATA, id, chunk) }

  /** The stream registered by Open and handleOpen alike. */
  function AddStream(c: Conn, id: uint32, mine: bool): Conn {
    c.(heap := c.heap + [NewStream(id, mine, c.opens)], streams := c.streams[id := |c.heap|])
  }

  // The steps

  predicate Held(c: Conn, o: nat) {
    o < |c.heap| && c.heap[o].stage == Stage.Usable
  }

  predicate Enabled(c: Conn, a: Action) {
    match a
    case BeginOpen => true
    case SendOpen(o, _) => o < |c.heap| && c.heap[o].stage == Opening
    case AbortOpen(o) => o < |c.heap| && c.heap[o].stage == Aborting
    case Accept => c.accept != [] && c.accept[0] < |c.heap|
    case WriteChunk(o, chunk, _) => Held(c, o) && 0 < |chunk| <= MAX_PAYLOAD
    case SignalClose(o) => Held(c, o) && c.heap[o].closing == Live
    case UnlistClosed(o) => Held(c, o) && c.heap[o].closing == Signalled
    case SendClose(o, _) => Held(c, o) && c.heap[o].closing == Unlisted
    case TakePayload(o) => Held(c, o) && c.heap[o].rbuf == [] && c.heap[o].queue != []
    case CopyOut(o, n) => Held(c, o) && c.heap[o].rbuf != []
    case SendPing(_) => true
    case CloseConn => true
    case Receive(f) => c.loop == Idle && f.Valid()
    case ReadFails => c.loop == Idle
    case OfferStream => c.loop.Offering? && c.loop.o < |c.heap|
    case WithdrawStream => c.loop.Refusing? && c.loop.o < |c.heap|
    case Reply(_) => c.loop.Replying?
    case KeepPayload => c.loop.Delivering? && c.loop.o < |c.heap| && |c.heap[c.loop.o].queue| < STREAM_BUFFER
    case GiveUpPayload => c.loop.Delivering? && c.loop.o < |c.heap| && (c.heap[c.loop.o].LocallyClosed() || c.Closed())
    case CloseReads => c.loop.HangingUp? && c.loop.o < |c.heap|
    case Unlink => c.loop.Unlinking? && c.loop.o < |c.heap|
  }

  /** One iteration of the read loop up to its first blocking or locking point. */
  function Dispatch(c: Conn, f: Frame): Conn {
    if f.ty == OPEN then
      if f.id in c.streams then CloseWith(c, Reopened(f.id))
      else AddStream(c, f.id, false).(loop := Offering(|c.heap|))
    else if f.ty == DATA then
      if f.id !in c.streams then c.(loop := Replying(CloseFrame(f.id)))
      else if f.payload == [] then c
      else c.(loop := Delivering(c.streams[f.id], f.payload))
    else if f.ty == CLOSE then
      if f.id in c.streams then c.(loop := HangingUp(c.streams[f.id])) else c
    else if f.ty == PING then c.(loop := Replying(Frame(PONG, 0, [])))
    else if f.ty == PONG then c
    else CloseWith(c, UnexpectedAuth).(loop := Stopped)
  }

  function Min(a: nat, b: nat): nat {
    if a < b then a else b
  }

  function Step(c: Conn, a: Action): Conn
    requires Enabled(c, a)
  {
    match a
    case BeginOpen =>
      AddStream(c, c.nextID, true).(nextID := (c.nextID + 2) % 0x1_0000_0000, opens := c.opens + 1)
    case SendOpen(o, raw) =>
      var f := OpenFrame(c.heap[o].id);
      var stage := if EmitOk(c, f, raw) then Stage.Usable else Aborting;
      SetStream(Emit(c, f, raw), o, c.heap[o].(stage := stage))
    case AbortOpen(o) => SetStream(RemoveStream(c, c.heap[o].id), o, c.heap[o].(stage := Discarded))
    case Accept =>
      SetStream(c.(accept := c.accept[1..]), c.accept[0], c.heap[c.accept[0]].(stage := Stage.Usable))
    case WriteChunk(o, chunk, raw) => Emit(c, DataFrame(c.heap[o].id, chunk), raw)
    case SignalClose(o) => SetStream(c, o, c.heap[o].(closing := Signalled))
    case UnlistClosed(o) =>
      SetStream(RemoveStream(c, c.heap[o].id), o, c.heap[o].(closing := Unlisted))
    case SendClose(o, raw) =>
      SetStream(Emit(c, CloseFrame(c.heap[o].id), raw), o, c.heap[o].(closing := Told))
    case TakePayload(o) =>
      var s := c.heap[o];
      SetStream(c, o, s.(rbuf := s.queue[0], queue := s.queue[1..]))
    case CopyOut(o, n) =>
      var s := c.heap[o];
      var k := Min(n, |s.rbuf|);
      SetStream(c, o, s.(rbuf := s.rbuf[k..], returned := s.returned + s.rbuf[..k]))
    case SendPing(raw) => Emit(c, Frame(PING, 0, []), raw)
    case CloseConn => CloseWith(c, LocalClose)
    case Receive(f) => Dispatch(c, f).(seen := c.seen + [f])
    case ReadFails => CloseWith(c, NetworkError).(loop := Stopped)
    case OfferStream =>
      if |c.accept| < ACCEPT_BUFFER then c.(accept := c.accept + [c.loop.o], loop := Idle)
      else c.(loop := Refusing(c.loop.o))
    case WithdrawStream =>
      var s := c.heap[c.loop.o];
      SetStream(RemoveStream(c, s.id), c.loop.o, s.(stage := Discarded)).(loop := Replying(CloseFrame(s.id)))
    case Reply(raw) => Emit(c, c.loop.f, raw).(loop := Idle)
    case KeepPayload =>
      var s := c.heap[c.loop.o];
      SetStream(c, c.loop.o, s.(queue := s.queue + [c.loop.b], handled := s.handled + [Handled(c.loop.b, true)]))
        .(loop := Idle)
    case GiveUpPayload =>
      var s := c.heap[c.loop.o];
      SetStream(c, c.loop.o, s.(handled := s.handled + [Handled(c.loop.b, false)])).(loop := Idle)
    case CloseReads =>
      SetStream(c, c.loop.o, c.heap[c.loop.o].(readsClosed := true)).(loop := Unlinking(c.loop.o))
    case Unlink => RemoveStream(c, c.heap[c.loop.o].id).(loop := Idle)
  }

  /** A send on a closed channel panics even inside a select, so a delivery that
      faces a closed reads queue is a crash. */
  predicate Panics(c: Conn) {
    c.loop.Delivering? && c.loop.o < |c.heap| && c.heap[c.loop.o].readsClosed
  }

  /** A run of one end under any peer, any application and any scheduling. */
  ghost predicate Run(cs: seq<Conn>, acts: seq<Action>) {
    && |cs| == |acts| + 1
    && forall i {:trigger acts[i]} | 0 <= i < |acts| :: Enabled(cs[i], acts[i]) && cs[i + 1] == Step(cs[i], acts[i])
  }
}
