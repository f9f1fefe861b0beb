/** What one end says, to whom and why: the frames it sends told by what it was
    asked and what it saw, over every run and against any peer. */
module MuxAnswers {
  import opened Options
  import opened Induction
  import opened Frames
  import opened Mux
  import opened MuxSafety

  // What is asked of an end

  /** The frame that answers f: PONG for a PING, and CLOSE for a frame about a
      stream that is not, or will not be, there. */
  function Answer(f: Frame): Frame {
    if f.ty == PING then Frame(PONG, 0, []) else Frame(CLOSE, f.id, [])
  }

  /** The frame an action is for. Nothing can be said of stream 0. */
  function Asked(c: Conn, a: Action): seq<Frame>
    requires Enabled(c, a)
  {
    match a
    case SendOpen(o, _) => if c.heap[o].id == 0 then [] else [Frame(OPEN, c.heap[o].id, [])]
    case WriteChunk(o, chunk, _) => if c.heap[o].id == 0 then [] else [Frame(DATA, c.heap[o].id, chunk)]
    case SendClose(o, _) => if c.heap[o].id == 0 then [] else [Frame(CLOSE, c.heap[o].id, [])]
    case SendPing(_) => [Frame(PING, 0, [])]
    case Reply(_) => if c.seen == [] then [] else [Answer(c.seen[|c.seen| - 1])]
    case _ => []
  }

  ghost function AskedLog(cs: seq<Conn>, acts: seq<Action>, n: nat): seq<Frame>
    requires Run(cs, acts) && n <= |acts|
  {
    if n == 0 then [] else AskedLog(cs, acts, n - 1) + Asked(cs[n - 1], acts[n - 1])
  }

  /** The frame about to be sent answers the one last seen. */
  predicate AnswersLast(c: Conn) {
    match c.loop
    case Replying(f) => c.seen != [] && f == Answer(c.seen[|c.seen| - 1])
    case Offering(o) => Pending(c, o)
    case Refusing(o) => Pending(c, o)
    case _ => true
  }

  predicate Pending(c: Conn, o: nat) {
    && o < |c.heap| && c.seen != []
    && c.seen[|c.seen| - 1].ty == OPEN && c.seen[|c.seen| - 1].id == c.heap[o].id
  }

  lemma AnswersLastReceive(c: Conn, f: Frame)
    requires Enabled(c, Receive(f)) && AnswersLast(c)
    ensures AnswersLast(Step(c, Receive(f)))
  {
  }

  lemma AnswersLastStep(c: Conn, a: Action)
    requires Enabled(c, a) && AnswersLast(c)
    ensures AnswersLast(Step(c, a))
  {
    if a.Receive? {
      AnswersLastReceive(c, a.f);
    }
  }

  /** One step of an end that is still up afterwards sends exactly what it was asked. */
  lemma StepSends(c: Conn, a: Action)
    requires Enabled(c, a) && Safe(c) && AnswersLast(c) && !Step(c, a).Closed()
    ensures !c.Closed() && Step(c, a).sent == c.sent + Asked(c, a)
  {
    assert c.sent + [] == c.sent;
  }

  lemma ClosedStays(c: Conn, a: Action)
    requires Enabled(c, a) && c.Closed()
    ensures Step(c, a).cause == c.cause && Step(c, a).sent == c.sent
  {
  }

  ghost predicate SaysAsked(cs: seq<Conn>, acts: seq<Action>, n: nat) {
    && Run(cs, acts) && n <= |acts| && Safe(cs[n]) && AnswersLast(cs[n])
    && (!cs[n].Closed() ==> cs[n].sent == AskedLog(cs, acts, n))
  }

  lemma SaysNext(cs: seq<Conn>, acts: seq<Action>, n: nat)
    requires n < |acts| && SaysAsked(cs, acts, n)
    ensures SaysAsked(cs, acts, n + 1)
  {
    var c, a := cs[n], acts[n];
    assert Enabled(c, a) && cs[n + 1] == Step(c, a);
    SafeStep(c, a);
    AnswersLastStep(c, a);
    if !cs[n + 1].Closed() {
      StepSends(c, a);
    }
  }

  /** Over every run, as long as the connection is up, an end has sent exactly the
      frames its application asked for and the answers it gave, in order. */
  lemma {:induction false} SentIsAsked(cs: seq<Conn>, acts: seq<Action>, side: Side, n: nat)
    requires Run(cs, acts) && cs[0] == NewConn(side) && n <= |acts|
    ensures SaysAsked(cs, acts, n)
  {
    if n > 0 {
      SentIsAsked(cs, acts, side, n - 1);
      SaysNext(cs, acts, n - 1);
    }
  }

  // Answers and what they answer

  function Count(fs: seq<Frame>, ty: byte, id: uint32): nat {
    if fs == [] then 0
    else Count(fs[..|fs| - 1], ty, id) + if fs[|fs| - 1].ty == ty && fs[|fs| - 1].id == id then 1 else 0
  }

  lemma CountSnoc(fs: seq<Frame>, f: Frame, ty: byte, id: uint32)
    ensures Count(fs + [f], ty, id) == Count(fs, ty, id) + if f.ty == ty && f.id == id then 1 else 0
  {
    assert (fs + [f])[..|fs|] == fs;
  }

  /** 1 if the read loop is about to send such a frame. */
  function Owed(c: Conn, ty: byte, id: uint32): nat {
    if c.loop.Replying? && c.loop.f.ty == ty && c.loop.f.id == id then 1 else 0
  }

  /** What a step adds to the frames of one type and stream that have been sent or
      are owed. */
  lemma OwedStep(c: Conn, a: Action, ty: byte, id: uint32)
    requires Enabled(c, a) && Safe(c) && AnswersLast(c) && !Step(c, a).Closed()
    ensures var c' := Step(c, a);
      Count(c'.sent, ty, id) + Owed(c', ty, id) ==
      Count(c.sent, ty, id) + Owed(c, ty, id)
      + (if !a.Reply? && Asked(c, a) != [] && Asked(c, a)[0].ty == ty && Asked(c, a)[0].id == id then 1 else 0)
      + (if !c.loop.Replying? then Owed(c', ty, id) else 0)
  {
    StepSends(c, a);
    if Asked(c, a) != [] {
      CountSnoc(c.sent, Asked(c, a)[0], ty, id);
      assert Asked(c, a) == [Asked(c, a)[0]];
    } else {
      assert c.sent + [] == c.sent;
    }
  }

  /** A step that makes the loop owe a frame: a PING seen, DATA for a stream that is
      not in the table, or the refusal of a stream. */
  lemma NewlyOwed(c: Conn, a: Action)
    requires Enabled(c, a) && !c.loop.Replying?
    ensures Step(c, a).loop.Replying? <==>
      (a.Receive? && (a.f.ty == PING || (a.f.ty == DATA && a.f.id !in c.streams))) || a.WithdrawStream?
    ensures a.Receive? && a.f.ty == PING ==> Step(c, a).loop == Replying(Frame(PONG, 0, []))
    ensures a.Receive? && a.f.ty == DATA && a.f.id !in c.streams ==>
              Step(c, a).loop == Replying(Frame(CLOSE, a.f.id, []))
    ensures a.WithdrawStream? ==> Step(c, a).loop == Replying(Frame(CLOSE, c.heap[c.loop.o].id, []))
  {
  }

  ghost predicate PongsMatch(c: Conn) {
    !c.Closed() ==> Count(c.sent, PONG, 0) + Owed(c, PONG, 0) == Count(c.seen, PING, 0)
  }

  lemma PongsStep(c: Conn, a: Action)
    requires Enabled(c, a) && Safe(c) && AnswersLast(c) && PongsMatch(c)
    ensures PongsMatch(Step(c, a))
  {
    var c' := Step(c, a);
    if !c'.Closed() {
      StepSends(c, a);
      OwedStep(c, a, PONG, 0);
      if !c.loop.Replying? {
        NewlyOwed(c, a);
      }
      if a.Receive? {
        CountSnoc(c.seen, a.f, PING, 0);
      }
    }
  }

  lemma SafeAlong(cs: seq<Conn>, acts: seq<Action>, side: Side, n: nat)
    requires Run(cs, acts) && cs[0] == NewConn(side) && n < |acts|
    ensures Safe(cs[n]) && AnswersLast(cs[n]) && Enabled(cs[n], acts[n]) && cs[n + 1] == Step(cs[n], acts[n])
  {
    SentIsAsked(cs, acts, side, n);
  }

  /** Over every run, while the connection is up, every PING seen has been answered
      by one PONG, but for the one the loop is about to answer. */
  lemma {:induction false} PongsAnswerPings(cs: seq<Conn>, acts: seq<Action>, side: Side, n: nat)
    requires Run(cs, acts) && cs[0] == NewConn(side) && n <= |acts|
    ensures PongsMatch(cs[n])
  {
    if n > 0 {
      PongsAnswerPings(cs, acts, side, n - 1);
      SafeAlong(cs, acts, side, n - 1);
      PongsStep(cs[n - 1], acts[n - 1]);
    }
  }

  /** The reasons for a CLOSE about stream id: DATA for it while it is not in the
      table, its refusal, or its Close. */
  predicate CallsForClose(c: Conn, a: Action, id: uint32)
    requires Enabled(c, a)
  {
    || (a.Receive? && a.f.ty == DATA && a.f.id == id && id !in c.streams)
    || (a.WithdrawStream? && c.heap[c.loop.o].id == id)
    || (a.SendClose? && c.heap[a.o].id == id)
  }

  ghost function ClosesCalledFor(cs: seq<Conn>, acts: seq<Action>, id: uint32, n: nat): nat
    requires Run(cs, acts) && n <= |acts|
  {
    if n == 0 then 0
    else ClosesCalledFor(cs, acts, id, n - 1) + if CallsForClose(cs[n - 1], acts[n - 1], id) then 1 else 0
  }

  lemma ClosesStep(c: Conn, a: Action, id: uint32)
    requires Enabled(c, a) && Safe(c) && AnswersLast(c) && id != 0 && !Step(c, a).Closed()
    ensures Count(Step(c, a).sent, CLOSE, id) + Owed(Step(c, a), CLOSE, id) ==
            Count(c.sent, CLOSE, id) + Owed(c, CLOSE, id) + if CallsForClose(c, a, id) then 1 else 0
  {
    OwedStep(c, a, CLOSE, id);
    if !c.loop.Replying? {
      NewlyOwed(c, a);
    }
  }

  /** Over every run, while the connection is up, an end has sent one CLOSE about a
      stream for each reason it had, but for the one it is about to send. */
  lemma {:induction false} ClosesHaveReasons(cs: seq<Conn>, acts: seq<Action>, side: Side, id: uint32, n: nat)
    requires Run(cs, acts) && cs[0] == NewConn(side) && n <= |acts| && id != 0 && !cs[n].Closed()
    ensures Count(cs[n].sent, CLOSE, id) + Owed(cs[n], CLOSE, id) == ClosesCalledFor(cs, acts, id, n)
  {
    if n > 0 {
      SafeAlong(cs, acts, side, n - 1);
      if cs[n - 1].Closed() {
        ClosedStays(cs[n - 1], acts[n - 1]);
        assert false;
      }
      ClosesHaveReasons(cs, acts, side, id, n - 1);
      ClosesStep(cs[n - 1], acts[n - 1], id);
    }
  }

  // Why a connection is closed

  /** What would close the connection, were it still up. */
  function Fails(c: Conn, a: Action): Option<Cause>
    requires Enabled(c, a)
  {
    match a
    case CloseConn => Some(LocalClose)
    case ReadFails => Some(NetworkError)
    case Receive(f) =>
      if f.ty == OPEN && f.id in c.streams then Some(Reopened(f.id))
      else if f.ty == AUTH || f.ty == AUTH_OK then Some(UnexpectedAuth)
      else None
    case SendOpen(_, raw) => if raw.Broken? && Asked(c, a) != [] then Some(NetworkError) else None
    case WriteChunk(_, _, raw) => if raw.Broken? && Asked(c, a) != [] then Some(NetworkError) else None
    case SendClose(_, raw) => if raw.Broken? && Asked(c, a) != [] then Some(NetworkError) else None
    case SendPing(raw) => if raw.Broken? then Some(NetworkError) else None
    case Reply(raw) => if raw.Broken? then Some(NetworkError) else None
    case _ => None
  }

  ghost function FirstFailure(cs: seq<Conn>, acts: seq<Action>, n: nat): Option<Cause>
    requires Run(cs, acts) && n <= |acts|
  {
    if n == 0 then None
    else if FirstFailure(cs, acts, n - 1).Some? then FirstFailure(cs, acts, n - 1)
    else Fails(cs[n - 1], acts[n - 1])
  }

  lemma FailsStep(c: Conn, a: Action)
    requires Enabled(c, a) && Safe(c) && c.cause == []
    ensures Step(c, a).cause == if Fails(c, a).Some? then [Fails(c, a).value] else []
  {
  }

  /** Over every run a connection is closed by the first failure it meets, and that
      is the cause it goes on to report. */
  lemma {:induction false} FirstCause(cs: seq<Conn>, acts: seq<Action>, side: Side, n: nat)
    requires Run(cs, acts) && cs[0] == NewConn(side) && n <= |acts|
    ensures var first := FirstFailure(cs, acts, n);
      cs[n].cause == if first.Some? then [first.value] else []
  {
    if n > 0 {
      FirstCause(cs, acts, side, n - 1);
      SafeAlong(cs, acts, side, n - 1);
      if cs[n - 1].Closed() {
        ClosedStays(cs[n - 1], acts[n - 1]);
      } else {
        FailsStep(cs[n - 1], acts[n - 1]);
      }
    }
  }

  // The order of acceptance

  /** The streams the peer opened, in the order of their OPENs, less those refused
      and the one the loop has yet to offer. */
  function Taken(c: Conn, k: nat): seq<nat>
    requires k <= |c.heap|
  {
    if k == 0 then []
    else
      var st := c.heap[k - 1];
      Taken(c, k - 1) + if st.mine || st.stage == Discarded || Undecided(c, k - 1) then [] else [k - 1]
  }

  predicate Undecided(c: Conn, o: nat) {
    c.loop == Offering(o) || c.loop == Refusing(o)
  }

  ghost function AcceptLog(cs: seq<Conn>, acts: seq<Action>, n: nat): seq<nat>
    requires Run(cs, acts) && n <= |acts|
  {
    if n == 0 then []
    else AcceptLog(cs, acts, n - 1) + if acts[n - 1].Accept? then [cs[n - 1].accept[0]] else []
  }

  /** No stream of the peer's is newer than the one the loop has yet to offer. */
  ghost predicate NewestLast(c: Conn) {
    && (forall k: nat | k < |c.heap| ::
          c.heap[k].mine || c.heap[k].stage == Offered || c.heap[k].stage == Stage.Usable
          || c.heap[k].stage == Discarded)
    && match c.loop
       case Offering(o) => forall k: nat | o < k < |c.heap| :: c.heap[k].mine
       case Refusing(o) => forall k: nat | o < k < |c.heap| :: c.heap[k].mine
       case _ => true
  }

  lemma NewestReceive(c: Conn, f: Frame)
    requires Enabled(c, Receive(f)) && Safe(c) && NewestLast(c)
    ensures NewestLast(Step(c, Receive(f)))
  {
  }

  lemma NewestLoop(c: Conn, a: Action)
    requires Enabled(c, a) && Safe(c) && NewestLast(c) && a.ByReadLoop() && !a.Receive?
    ensures NewestLast(Step(c, a))
  {
  }

  lemma NewestStep(c: Conn, a: Action)
    requires Enabled(c, a) && Safe(c) && NewestLast(c)
    ensures NewestLast(Step(c, a))
  {
    if a.Receive? {
      NewestReceive(c, a.f);
    } else if a.ByReadLoop() {
      NewestLoop(c, a);
    }
  }

  ghost predicate SameSeat(c: Conn, c': Conn, o: nat)
    requires o < |c.heap| && |c.heap| <= |c'.heap|
  {
    && c'.heap[o].mine == c.heap[o].mine
    && (!c.heap[o].mine ==> ((c'.heap[o].stage == Discarded || Undecided(c', o)) <==>
                             (c.heap[o].stage == Discarded || Undecided(c, o))))
  }

  lemma {:induction false} TakenSame(c: Conn, c': Conn, k: nat)
    requires k <= |c.heap| <= |c'.heap| && forall o | 0 <= o < k :: SameSeat(c, c', o)
    ensures Taken(c', k) == Taken(c, k)
  {
    if k > 0 {
      TakenSame(c, c', k - 1);
      assert SameSeat(c, c', k - 1);
    }
  }

  lemma {:induction false} TakenNone(c: Conn, from: nat, k: nat)
    requires from <= k <= |c.heap|
    requires forall o | from <= o < k :: c.heap[o].mine || c.heap[o].stage == Discarded || Undecided(c, o)
    ensures Taken(c, k) == Taken(c, from)
    decreases k
  {
    if k > from {
      TakenNone(c, from, k - 1);
    }
  }

  /** The stream the loop offers comes last. */
  lemma TakenOffer(c: Conn, c': Conn, o: nat)
    requires c.loop == Offering(o) && o < |c.heap| && !c.heap[o].mine && c.heap[o].stage == Offered && NewestLast(c)
    requires c'.heap == c.heap && c'.loop == Idle
    ensures Taken(c', |c'.heap|) == Taken(c, |c.heap|) + [o]
  {
    TakenNone(c, o, |c.heap|);
    assert Taken(c', o + 1) == Taken(c', o) + [o];
    TakenSame(c, c', o);
    TakenNone(c', o + 1, |c'.heap|);
  }

  ghost predicate SameSeats(c: Conn, c': Conn) {
    && |c.heap| <= |c'.heap| && (forall o | 0 <= o < |c.heap| :: SameSeat(c, c', o))
    && (forall o | |c.heap| <= o < |c'.heap| :: c'.heap[o].mine || Undecided(c', o))
  }

  lemma TakenKept(c: Conn, c': Conn)
    requires SameSeats(c, c')
    ensures Taken(c', |c'.heap|) == Taken(c, |c.heap|)
  {
    TakenSame(c, c', |c.heap|);
    TakenNone(c', |c.heap|, |c'.heap|);
  }

  predicate Queues(c: Conn, a: Action) {
    a.OfferStream? && |c.accept| < 64
  }

  lemma SeatsReceive(c: Conn, f: Frame)
    requires Enabled(c, Receive(f)) && Safe(c) && NewestLast(c)
    ensures SameSeats(c, Step(c, Receive(f))) && Step(c, Receive(f)).accept == c.accept
  {
  }

  lemma SeatsLoop(c: Conn, a: Action)
    requires Enabled(c, a) && Safe(c) && NewestLast(c) && !Queues(c, a) && a.ByReadLoop() && !a.Receive?
    ensures SameSeats(c, Step(c, a)) && Step(c, a).accept == c.accept
  {
  }

  lemma SeatsStep(c: Conn, a: Action)
    requires Enabled(c, a) && Safe(c) && NewestLast(c) && !Queues(c, a)
    ensures SameSeats(c, Step(c, a))
    ensures Step(c, a).accept == if a.Accept? then c.accept[1..] else c.accept
  {
    if a.Receive? {
      SeatsReceive(c, a.f);
    } else if a.ByReadLoop() {
      SeatsLoop(c, a);
    }
  }

  /** Fewer than 64 waiting, and the offered stream joins the end of the queue. */
  lemma QueuedLast(c: Conn)
    requires Enabled(c, OfferStream) && |c.accept| < 64
    ensures Step(c, OfferStream).accept == c.accept + [c.loop.o]
    ensures Step(c, OfferStream).heap == c.heap && Step(c, OfferStream).loop == Idle
  {
  }

  /** What has been accepted and what waits make up what was taken in. */
  ghost predicate Adds(log: seq<nat>, c: Conn) {
    log + c.accept == Taken(c, |c.heap|)
  }

  ghost predicate InOrder(cs: seq<Conn>, acts: seq<Action>, n: nat) {
    && Run(cs, acts) && n <= |acts| && NewestLast(cs[n])
    && Adds(AcceptLog(cs, acts, n), cs[n])
  }

  lemma AddsQueue(c: Conn, log: seq<nat>)
    requires Enabled(c, OfferStream) && |c.accept| < 64 && Safe(c) && NewestLast(c) && Adds(log, c)
    ensures Adds(log, Step(c, OfferStream))
  {
    QueuedLast(c);
    TakenOffer(c, Step(c, OfferStream), c.loop.o);
    assert log + (c.accept + [c.loop.o]) == log + c.accept + [c.loop.o];
  }

  lemma AddsTake(c: Conn, c': Conn, log: seq<nat>)
    requires SameSeats(c, c') && |c.accept| > 0 && c'.accept == c.accept[1..] && Adds(log, c)
    ensures Adds(log + [c.accept[0]], c')
  {
    TakenKept(c, c');
    assert log + [c.accept[0]] + c.accept[1..] == log + c.accept;
  }

  lemma AddsKeep(c: Conn, c': Conn, log: seq<nat>)
    requires SameSeats(c, c') && c'.accept == c.accept && Adds(log, c)
    ensures Adds(log, c')
  {
    TakenKept(c, c');
  }

  lemma AddsOther(c: Conn, a: Action, log: seq<nat>)
    requires Enabled(c, a) && !Queues(c, a) && Safe(c) && NewestLast(c) && Adds(log, c)
    ensures a.Accept? ==> Adds(log + [c.accept[0]], Step(c, a))
    ensures !a.Accept? ==> Adds(log, Step(c, a))
  {
    SeatsStep(c, a);
    if a.Accept? {
      AddsTake(c, Step(c, a), log);
    } else {
      AddsKeep(c, Step(c, a), log);
    }
  }

  lemma InOrderStep(cs: seq<Conn>, acts: seq<Action>, n: nat)
    requires n < |acts| && InOrder(cs, acts, n) && Safe(cs[n])
    ensures InOrder(cs, acts, n + 1)
  {
    var c, a := cs[n], acts[n];
    assert Enabled(c, a) && cs[n + 1] == Step(c, a);
    NewestStep(c, a);
    var log := AcceptLog(cs, acts, n);
    assert log + [] == log;
    if Queues(c, a) {
      AddsQueue(c, log);
    } else {
      AddsOther(c, a, log);
    }
  }

  /** Over every run and against any peer, the streams accepted and those waiting are
      those the peer opened, in the order in which it opened them, less those refused. */
  lemma AcceptedInOrder(cs: seq<Conn>, acts: seq<Action>, side: Side, n: nat)
    requires Run(cs, acts) && cs[0] == NewConn(side) && n <= |acts|
    ensures InOrder(cs, acts, n)
  {
    forall k: nat | 0 <= k < |acts| && InOrder(cs, acts, k) ensures InOrder(cs, acts, k + 1) {
      SafeAlong(cs, acts, side, k);
      InOrderStep(cs, acts, k);
    }
    Upwards((k: nat) => InOrder(cs, acts, k), 0, |acts|, n);
  }

  /** A stream is refused exactly when 64 are waiting, and with a CLOSE. */
  lemma RefusedWhenFull(c: Conn)
    requires Enabled(c, OfferStream)
    ensures Step(c, OfferStream).loop == (if |c.accept| < 64 then Idle else Refusing(c.loop.o))
    ensures |c.accept| >= 64 ==> Step(c, OfferStream).accept == c.accept
  {
  }
}
