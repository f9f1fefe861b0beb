/** What one end keeps against any peer, any application and any scheduling:
    no send on a closed queue, bounded memory, and an exact account of every
    payload that reached deliver. */
module MuxSafety {
  import opened Frames
  import opened Mux

  // Accounting of payloads

  function Flatten(bs: seq<Bytes>): Bytes {
    if bs == [] then [] else Flatten(bs[..|bs| - 1]) + bs[|bs| - 1]
  }

  lemma {:induction false} FlattenFront(bs: seq<Bytes>)
    requires bs != []
    ensures Flatten(bs) == bs[0] + Flatten(bs[1..])
  {
    var n := |bs| - 1;
    if n == 0 {
      assert bs[..0] == [] && bs[1..] == [];
    } else {
      var mid := bs[1..n];
      FlattenFront(bs[..n]);
      assert bs[..n][1..] == mid && bs[1..][..n - 1] == mid && bs[1..][n - 1] == bs[n];
      assert bs[0] + Flatten(mid) + bs[n] == bs[0] + (Flatten(mid) + bs[n]);
    }
  }

  function Kept(hs: seq<Handled>): Bytes {
    if hs == [] then []
    else Kept(hs[..|hs| - 1]) + if hs[|hs| - 1].kept then hs[|hs| - 1].payload else []
  }

  function HandledBytes(hs: seq<Handled>): Bytes {
    if hs == [] then [] else HandledBytes(hs[..|hs| - 1]) + hs[|hs| - 1].payload
  }

  function Lost(hs: seq<Handled>): nat {
    if hs == [] then 0
    else Lost(hs[..|hs| - 1]) + if hs[|hs| - 1].kept then 0 else |hs[|hs| - 1].payload|
  }

  /** What was kept is what was handled, less the bytes given up. */
  lemma {:induction false} KeptOrLost(hs: seq<Handled>)
    ensures |Kept(hs)| + Lost(hs) == |HandledBytes(hs)|
    ensures Lost(hs) == 0 ==> Kept(hs) == HandledBytes(hs)
  {
    if hs != [] {
      KeptOrLost(hs[..|hs| - 1]);
    }
  }

  lemma SnocHandled(hs: seq<Handled>, h: Handled)
    ensures Kept(hs + [h]) == Kept(hs) + if h.kept then h.payload else []
    ensures HandledBytes(hs + [h]) == HandledBytes(hs) + h.payload
    ensures Lost(hs + [h]) == Lost(hs) + if h.kept then 0 else |h.payload|
  {
    assert (hs + [h])[..|hs|] == hs;
  }

  lemma SnocFlatten(bs: seq<Bytes>, b: Bytes)
    ensures Flatten(bs + [b]) == Flatten(bs) + b
  {
    assert (bs + [b])[..|bs|] == bs;
  }

  // The invariant of the table, the accept queue and the read loop

  /** Outside the CLOSE handler every registered stream has its queue open. */
  ghost predicate TableOk(heap: seq<Stream>, streams: map<uint32, nat>, loop: Loop) {
    forall id <- streams ::
      && streams[id] < |heap|
      && heap[streams[id]].id == id
      && (heap[streams[id]].readsClosed ==> loop == Unlinking(streams[id]))
  }

  ghost predicate Fresh(heap: seq<Stream>, o: nat) {
    o < |heap| && !heap[o].mine && heap[o].stage == Offered
  }

  ghost predicate LoopOk(heap: seq<Stream>, accept: seq<nat>, loop: Loop) {
    match loop
    case Offering(o) => Fresh(heap, o) && o !in accept
    case Refusing(o) => Fresh(heap, o) && o !in accept
    case Replying(f) => f.Valid() && (f.ty == CLOSE || f.ty == PONG) && f.payload == []
    case Delivering(o, b) => o < |heap| && !heap[o].readsClosed && 0 < |b| <= MAX_PAYLOAD
    case HangingUp(o) => o < |heap| && !heap[o].readsClosed
    case Unlinking(o) => o < |heap| && heap[o].readsClosed
    case _ => true
  }

  ghost predicate AcceptOk(heap: seq<Stream>, accept: seq<nat>) {
    && |accept| <= ACCEPT_BUFFER
    && (forall i | 0 <= i < |accept| :: Fresh(heap, accept[i]))
    && forall i, j | 0 <= i < j < |accept| :: accept[i] != accept[j]
  }

  ghost predicate Safe(c: Conn) {
    && TableOk(c.heap, c.streams, c.loop)
    && LoopOk(c.heap, c.accept, c.loop)
    && AcceptOk(c.heap, c.accept)
    && forall o | 0 <= o < |c.heap| :: c.heap[o].mine || c.heap[o].id != 0
  }

  lemma KeepsUpdate(c: Conn, o: nat, s: Stream)
    requires Safe(c) && o < |c.heap|
    requires s.id == c.heap[o].id && s.mine == c.heap[o].mine && s.stage == c.heap[o].stage
    requires s.readsClosed == c.heap[o].readsClosed
    ensures Safe(SetStream(c, o, s))
  {
  }

  lemma KeepsAdd(c: Conn, id: uint32, mine: bool)
    requires Safe(c) && (mine || id != 0)
    ensures Safe(AddStream(c, id, mine))
  {
  }

  lemma SafeReceive(c: Conn, f: Frame)
    requires Safe(c) && Enabled(c, Receive(f))
    ensures Safe(Step(c, Receive(f)))
  {
    if f.ty == OPEN && f.id !in c.streams {
      KeepsAdd(c, f.id, false);
      assert Fresh(Step(c, Receive(f)).heap, |c.heap|);
    }
  }

  lemma SafeByReadLoop(c: Conn, a: Action)
    requires Safe(c) && Enabled(c, a) && a.ByReadLoop()
    ensures Safe(Step(c, a))
  {
    match a
    case Receive(f) => SafeReceive(c, f);
    case KeepPayload => KeepsUpdate(c, c.loop.o, Step(c, a).heap[c.loop.o]);
    case GiveUpPayload => KeepsUpdate(c, c.loop.o, Step(c, a).heap[c.loop.o]);
    case _ =>
  }

  lemma SafeOpening(c: Conn, a: Action)
    requires Safe(c) && Enabled(c, a) && (a.BeginOpen? || a.SendOpen? || a.AbortOpen? || a.Accept?)
    ensures Safe(Step(c, a))
  {
    if a == BeginOpen {
      KeepsAdd(c, c.nextID, true);
    }
  }

  lemma SafeUsing(c: Conn, a: Action)
    requires Safe(c) && Enabled(c, a)
    requires a.SignalClose? || a.UnlistClosed? || a.SendClose? || a.TakePayload? || a.CopyOut?
    ensures Safe(Step(c, a))
  {
    var cleared := if a.UnlistClosed? then RemoveStream(c, c.heap[a.o].id) else c;
    KeepsUpdate(cleared, a.o, Step(c, a).heap[a.o]);
  }

  lemma SafeStep(c: Conn, a: Action)
    requires Safe(c) && Enabled(c, a)
    ensures Safe(Step(c, a))
  {
    if a.ByReadLoop() {
      SafeByReadLoop(c, a);
    } else if a.BeginOpen? || a.SendOpen? || a.AbortOpen? || a.Accept? {
      SafeOpening(c, a);
    } else if a.SignalClose? || a.UnlistClosed? || a.SendClose? || a.TakePayload? || a.CopyOut? {
      SafeUsing(c, a);
    }
  }

  // The account of every stream

  ghost predicate Sized(s: Stream) {
    && |s.queue| <= STREAM_BUFFER
    && |s.rbuf| <= MAX_PAYLOAD
    && forall b <- s.queue :: 0 < |b| <= MAX_PAYLOAD
  }

  /** Kept payloads are exactly what Read returned and what it has yet to return;
      bytes are lost only once this end has closed the stream or the connection. */
  ghost predicate Accounted(s: Stream, closed: bool) {
    && Sized(s)
    && Kept(s.handled) == s.returned + s.rbuf + Flatten(s.queue)
    && (Lost(s.handled) > 0 ==> s.LocallyClosed() || closed)
  }

  ghost predicate Accounts(c: Conn) {
    forall o | 0 <= o < |c.heap| :: Accounted(c.heap[o], c.Closed())
  }

  /** Read takes the next payload for its buffer, */
  lemma AccountedTake(s: Stream, closed: bool)
    requires Accounted(s, closed) && s.rbuf == [] && s.queue != []
    ensures Accounted(s.(rbuf := s.queue[0], queue := s.queue[1..]), closed)
  {
    FlattenFront(s.queue);
    assert s.returned + s.rbuf == s.returned;
    assert s.returned + s.queue[0] + Flatten(s.queue[1..]) == s.returned + (s.queue[0] + Flatten(s.queue[1..]));
  }

  /** and copies out of it. */
  lemma AccountedCopy(s: Stream, k: nat, closed: bool)
    requires Accounted(s, closed) && k <= |s.rbuf|
    ensures Accounted(s.(rbuf := s.rbuf[k..], returned := s.returned + s.rbuf[..k]), closed)
  {
    assert s.rbuf == s.rbuf[..k] + s.rbuf[k..];
    assert s.returned + s.rbuf[..k] + s.rbuf[k..] == s.returned + s.rbuf;
  }

  /** deliver queues a payload */
  lemma AccountedKept(s: Stream, b: Bytes, closed: bool)
    requires Accounted(s, closed) && 0 < |b| <= MAX_PAYLOAD && |s.queue| < STREAM_BUFFER
    ensures Accounted(s.(queue := s.queue + [b], handled := s.handled + [Handled(b, true)]), closed)
  {
    SnocHandled(s.handled, Handled(b, true));
    SnocFlatten(s.queue, b);
    var front := s.returned + s.rbuf;
    assert front + Flatten(s.queue) + b == front + (Flatten(s.queue) + b);
  }

  /** or gives it up. */
  lemma AccountedGivenUp(s: Stream, b: Bytes, closed: bool)
    requires Accounted(s, closed) && (s.LocallyClosed() || closed)
    ensures Accounted(s.(handled := s.handled + [Handled(b, false)]), closed)
  {
    SnocHandled(s.handled, Handled(b, false));
    assert Kept(s.handled) + [] == Kept(s.handled);
  }

  predicate MovesPayload(a: Action) {
    a.TakePayload? || a.CopyOut? || a.KeepPayload? || a.GiveUpPayload?
  }

  /** The account of s is untouched in s', where Close may have got further. */
  ghost predicate SameAccount(s: Stream, s': Stream) {
    && s'.queue == s.queue && s'.rbuf == s.rbuf && s'.handled == s.handled && s'.returned == s.returned
    && (s.LocallyClosed() ==> s'.LocallyClosed())
  }

  ghost predicate Untouched(c: Conn, c': Conn) {
    && |c.heap| <= |c'.heap|
    && (c.Closed() ==> c'.Closed())
    && (forall o | 0 <= o < |c.heap| :: SameAccount(c.heap[o], c'.heap[o]))
    && forall o | |c.heap| <= o < |c'.heap| ::
         var s := c'.heap[o]; s.queue == [] && s.rbuf == [] && s.handled == [] && s.returned == []
  }

  lemma ReceiveUntouched(c: Conn, f: Frame)
    requires Enabled(c, Receive(f))
    ensures Untouched(c, Step(c, Receive(f)))
  {
  }

  lemma LoopUntouched(c: Conn, a: Action)
    requires Enabled(c, a) && !MovesPayload(a) && a.ByReadLoop() && !a.Receive?
    ensures Untouched(c, Step(c, a))
  {
  }

  lemma OthersUntouched(c: Conn, a: Action)
    requires Enabled(c, a) && !MovesPayload(a)
    ensures Untouched(c, Step(c, a))
  {
    if a.Receive? {
      ReceiveUntouched(c, a.f);
    } else if a.ByReadLoop() {
      LoopUntouched(c, a);
    }
  }

  lemma KeepsAccounts(c: Conn, c': Conn)
    requires Accounts(c) && Untouched(c, c')
    ensures Accounts(c')
  {
    forall o | 0 <= o < |c'.heap|
      ensures Accounted(c'.heap[o], c'.Closed())
    {
      if o < |c.heap| {
        assert Accounted(c.heap[o], c.Closed()) && SameAccount(c.heap[o], c'.heap[o]);
      }
    }
  }

  lemma PayloadMoved(c: Conn, a: Action)
    requires Safe(c) && Accounts(c) && Enabled(c, a) && MovesPayload(a)
    ensures var c', o := Step(c, a), if a.TakePayload? || a.CopyOut? then a.o else c.loop.o;
      && o < |c.heap| && c'.Closed() == c.Closed() && c'.heap == c.heap[o := c'.heap[o]]
      && Accounted(c'.heap[o], c'.Closed())
  {
    if a.TakePayload? {
      AccountedTake(c.heap[a.o], c.Closed());
    } else if a.CopyOut? {
      AccountedCopy(c.heap[a.o], Min(a.n, |c.heap[a.o].rbuf|), c.Closed());
    } else if a.KeepPayload? {
      AccountedKept(c.heap[c.loop.o], c.loop.b, c.Closed());
    } else {
      AccountedGivenUp(c.heap[c.loop.o], c.loop.b, c.Closed());
    }
  }

  lemma KeepsOthers(c: Conn, c': Conn, o: nat)
    requires Accounts(c) && o < |c.heap| && |c'.heap| == |c.heap| && c'.heap == c.heap[o := c'.heap[o]]
    requires c'.Closed() == c.Closed() && Accounted(c'.heap[o], c'.Closed())
    ensures Accounts(c')
  {
  }

  lemma AccountsStep(c: Conn, a: Action)
    requires Safe(c) && Accounts(c) && Enabled(c, a)
    ensures Accounts(Step(c, a))
  {
    if !MovesPayload(a) {
      OthersUntouched(c, a);
      KeepsAccounts(c, Step(c, a));
    } else {
      PayloadMoved(c, a);
      var o := if a.TakePayload? || a.CopyOut? then a.o else c.loop.o;
      KeepsOthers(c, Step(c, a), o);
    }
  }

  // Runs

  /** Whatever frames the peer sends, in every state of every run deliver faces an
      open queue, and every stream's bytes are accounted for. */
  lemma {:induction false} RunIsSafe(cs: seq<Conn>, acts: seq<Action>, side: Side, i: nat)
    requires Run(cs, acts) && cs[0] == NewConn(side) && i < |cs|
    ensures Safe(cs[i]) && Accounts(cs[i]) && !Panics(cs[i])
  {
    if i > 0 {
      RunIsSafe(cs, acts, side, i - 1);
      SafeStep(cs[i - 1], acts[i - 1]);
      AccountsStep(cs[i - 1], acts[i - 1]);
    }
  }

  lemma {:induction false} FlattenBound(bs: seq<Bytes>)
    requires forall b <- bs :: |b| <= MAX_PAYLOAD
    ensures |Flatten(bs)| <= |bs| * MAX_PAYLOAD
  {
    if bs != [] {
      FlattenBound(bs[..|bs| - 1]);
    }
  }

  lemma BufferBound(c: Conn, o: nat)
    requires Safe(c) && Accounts(c) && o < |c.heap|
    ensures |c.heap[o].rbuf| + |Flatten(c.heap[o].queue)| <= 17 * 65536 && |c.heap[o].queue| <= 16
    ensures c.loop.Delivering? ==> |c.loop.b| <= 65536
    ensures |c.accept| <= 64
  {
    FlattenBound(c.heap[o].queue);
  }
}
