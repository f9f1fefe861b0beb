/** What one frame comes to: a whole turn of the read loop, for each kind of frame,
    on an end that is at rest. */
module MuxTurns {
  import opened Frames
  import opened Mux
  import MuxConn

  /** A payload can be queued while fewer than 16 are, and given up once the stream or
      the connection is closed at this end. */
  lemma WhenDelivered(c: Conn, o: nat, b: Bytes)
    requires c.loop == Delivering(o, b) && o < |c.heap|
    ensures Enabled(c, KeepPayload) <==> |c.heap[o].queue| < 16
    ensures Enabled(c, GiveUpPayload) <==> c.heap[o].closing != Live || c.cause != []
  {
  }

  predicate CanTake(c: Conn, f: Frame, keep: bool) {
    c.loop == Idle && f.Valid() && MuxConn.CanSettle(Step(c, Receive(f)), keep)
  }

  function Turn(c: Conn, f: Frame, raw: RawWrite, keep: bool): Conn
    requires CanTake(c, f, keep)
  {
    MuxConn.TurnOf(c, Got(f, []), raw, keep)
  }

  /** The frame has been seen, and nothing else is any different. */
  predicate OnlySeen(c: Conn, c': Conn, f: Frame) {
    c' == c.(seen := c.seen + [f])
  }

  /** The frame has been seen and answered, and nothing else is any different. */
  predicate OnlyAnswered(c: Conn, c': Conn, f: Frame, answer: Frame) {
    c' == c.(seen := c.seen + [f], sent := c.sent + [answer])
  }

  lemma PingTurn(c: Conn, f: Frame, keep: bool)
    requires CanTake(c, f, keep) && f.ty == PING && c.cause == []
    ensures OnlyAnswered(c, Turn(c, f, Through, keep), f, Frame(PONG, 0, []))
  {
  }

  lemma PongTurn(c: Conn, f: Frame, raw: RawWrite, keep: bool)
    requires CanTake(c, f, keep) && f.ty == PONG
    ensures OnlySeen(c, Turn(c, f, raw, keep), f)
  {
  }

  lemma AuthTurn(c: Conn, f: Frame, raw: RawWrite, keep: bool)
    requires CanTake(c, f, keep) && (f.ty == AUTH || f.ty == AUTH_OK)
    ensures var c' := Turn(c, f, raw, keep);
      && c'.loop == Stopped && c'.cause == (if c.cause == [] then [UnexpectedAuth] else c.cause)
      && c'.sent == c.sent && c'.heap == c.heap && c'.streams == c.streams && c'.accept == c.accept
  {
  }

  /** An OPEN for a stream that is there closes the connection, */
  lemma ReopenTurn(c: Conn, f: Frame, raw: RawWrite, keep: bool)
    requires CanTake(c, f, keep) && f.ty == OPEN && f.id in c.streams
    ensures var c' := Turn(c, f, raw, keep);
      && c'.cause == (if c.cause == [] then [Reopened(f.id)] else c.cause)
      && c'.sent == c.sent && c'.heap == c.heap && c'.streams == c.streams && c'.accept == c.accept
  {
  }

  ghost predicate NewStreamOf(s: Stream, id: uint32) {
    && s.id == id && !s.mine && s.closing == Live && !s.readsClosed
    && s.queue == [] && s.rbuf == [] && s.returned == []
  }

  /** any other gives a new stream the last place among those waiting, */
  lemma OpenTurn(c: Conn, f: Frame, raw: RawWrite, keep: bool)
    requires CanTake(c, f, keep) && f.ty == OPEN && f.id !in c.streams && |c.accept| < 64
    ensures var c' := Turn(c, f, raw, keep);
      && c'.accept == c.accept + [|c.heap|] && c'.streams == c.streams[f.id := |c.heap|]
      && |c'.heap| == |c.heap| + 1 && c'.heap[..|c.heap|] == c.heap && NewStreamOf(c'.heap[|c.heap|], f.id)
      && c'.sent == c.sent && c'.cause == c.cause && c'.loop == Idle
  {
  }

  /** or, with 64 of them, is refused. */
  lemma RefusalTurn(c: Conn, f: Frame, keep: bool)
    requires CanTake(c, f, keep) && f.ty == OPEN && f.id !in c.streams && |c.accept| >= 64 && c.cause == []
    ensures var c' := Turn(c, f, Through, keep);
      && c'.accept == c.accept && c'.streams == c.streams
      && c'.sent == c.sent + [Frame(CLOSE, f.id, [])] && c'.cause == [] && c'.loop == Idle
  {
    var c1 := Step(c, Receive(f));
    assert c1.streams - {f.id} == c.streams;
  }

  /** DATA for a stream that is there goes to the end of its queue, */
  lemma DataTurn(c: Conn, f: Frame, raw: RawWrite)
    requires CanTake(c, f, true) && f.ty == DATA && f.payload != []
    requires f.id in c.streams && c.streams[f.id] < |c.heap|
    ensures var c', o := Turn(c, f, raw, true), c.streams[f.id];
      && |c'.heap| == |c.heap| && (forall k: nat | k < |c.heap| && k != o :: c'.heap[k] == c.heap[k])
      && c'.heap[o].queue == c.heap[o].queue + [f.payload]
      && c'.heap[o].rbuf == c.heap[o].rbuf && c'.heap[o].readsClosed == c.heap[o].readsClosed
      && c'.sent == c.sent && c'.streams == c.streams && c'.cause == c.cause && c'.loop == Idle
  {
  }

  /** unless there is nothing in it; */
  lemma EmptyDataTurn(c: Conn, f: Frame, raw: RawWrite, keep: bool)
    requires CanTake(c, f, keep) && f.ty == DATA && f.payload == [] && f.id in c.streams
    ensures OnlySeen(c, Turn(c, f, raw, keep), f)
  {
  }

  /** for one that is not there, the peer is told. */
  lemma StrayDataTurn(c: Conn, f: Frame, keep: bool)
    requires CanTake(c, f, keep) && f.ty == DATA && f.id !in c.streams && c.cause == []
    ensures OnlyAnswered(c, Turn(c, f, Through, keep), f, Frame(CLOSE, f.id, []))
  {
  }

  /** CLOSE ends what a stream has to read and takes it out of the table; */
  lemma CloseTurn(c: Conn, f: Frame, raw: RawWrite, keep: bool)
    requires CanTake(c, f, keep) && f.ty == CLOSE && f.id in c.streams && c.streams[f.id] < |c.heap|
    requires c.heap[c.streams[f.id]].id == f.id
    ensures var c', o := Turn(c, f, raw, keep), c.streams[f.id];
      && |c'.heap| == |c.heap| && (forall k: nat | k < |c.heap| && k != o :: c'.heap[k] == c.heap[k])
      && c'.heap[o] == c.heap[o].(readsClosed := true)
      && c'.streams == c.streams - {f.id} && c'.sent == c.sent && c'.cause == c.cause && c'.loop == Idle
  {
  }

  /** for one that is not there it says nothing. */
  lemma StrayCloseTurn(c: Conn, f: Frame, raw: RawWrite, keep: bool)
    requires CanTake(c, f, keep) && f.ty == CLOSE && f.id !in c.streams
    ensures OnlySeen(c, Turn(c, f, raw, keep), f)
  {
  }
}
