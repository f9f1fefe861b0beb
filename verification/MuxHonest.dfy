/** What one end keeps when its peer is another honest end and neither has used
    up its stream ids: ids name one stream each, and what has been delivered to a
    stream is what the frames seen so far say it should be. */
module MuxHonest {
  import opened Frames
  import opened Mux
  import opened MuxSafety

  /** 2^31: how many ids of one parity there are, stream 0 counted. */
  const ID_SPACE: nat := 0x8000_0000

  // What a log of frames says about one stream

  ghost predicate Opens(id: uint32, fs: seq<Frame>) {
    exists f <- fs :: f.ty == OPEN && f.id == id
  }

  ghost predicate Closes(id: uint32, fs: seq<Frame>) {
    exists f <- fs :: f.ty == CLOSE && f.id == id
  }

  /** The bytes framed for stream `id` before its first CLOSE. */
  ghost function Body(id: uint32, fs: seq<Frame>): Bytes {
    if fs == [] then []
    else
      var f := fs[|fs| - 1];
      var before := fs[..|fs| - 1];
      Body(id, before) + if f.ty == DATA && f.id == id && !Closes(id, before) then f.payload else []
  }

  lemma BodySnoc(id: uint32, fs: seq<Frame>, f: Frame)
    ensures Body(id, fs + [f]) ==
            Body(id, fs) + if f.ty == DATA && f.id == id && !Closes(id, fs) then f.payload else []
  {
    assert (fs + [f])[..|fs|] == fs;
  }

  lemma ClosesConcat(id: uint32, fs: seq<Frame>, gs: seq<Frame>)
    ensures Closes(id, fs + gs) <==> Closes(id, fs) || Closes(id, gs)
  {
  }

  lemma {:induction false} BodyConcat(id: uint32, fs: seq<Frame>, gs: seq<Frame>)
    ensures Body(id, fs + gs) == Body(id, fs) + if Closes(id, fs) then [] else Body(id, gs)
  {
    if gs == [] {
      assert fs + gs == fs;
    } else {
      var n := |gs| - 1;
      BodyConcat(id, fs, gs[..n]);
      assert fs + gs == (fs + gs[..n]) + [gs[n]];
      BodySnoc(id, fs + gs[..n], gs[n]);
      ClosesConcat(id, fs, gs[..n]);
      Regroup(Body(id, fs), Body(id, gs[..n]), gs[n].payload);
    }
  }

  lemma Regroup(a: Bytes, b: Bytes, c: Bytes)
    ensures a + b + c == a + (b + c) && a + [] == a
  {
  }

  /** A stream no frame names has no bytes. */
  lemma {:induction false} BodyUnnamed(id: uint32, fs: seq<Frame>)
    requires forall f <- fs :: f.ty == DATA ==> f.id != id
    ensures Body(id, fs) == []
  {
    if fs != [] {
      BodyUnnamed(id, fs[..|fs| - 1]);
    }
  }

  /** Only a stream's own frames count towards its bytes. */
  lemma {:induction false} BodyOnlyOwn(id: uint32, fs: seq<Frame>, gs: seq<Frame>)
    requires |fs| == |gs|
    requires forall k | 0 <= k < |fs| :: fs[k] == gs[k] || (fs[k].id != id && gs[k].id != id)
    ensures Body(id, fs) == Body(id, gs)
  {
    if fs != [] {
      var n := |fs| - 1;
      BodyOnlyOwn(id, fs[..n], gs[..n]);
      assert Closes(id, fs[..n]) <==> Closes(id, gs[..n]) by {
        if f :| f in fs[..n] && f.ty == CLOSE && f.id == id {
          var k :| 0 <= k < n && fs[k] == f;
          assert gs[..n][k] == f;
        }
        if f :| f in gs[..n] && f.ty == CLOSE && f.id == id {
          var k :| 0 <= k < n && gs[k] == f;
          assert fs[..n][k] == f;
        }
      }
    }
  }

  // Stream ids

  function IdAt(side: Side, k: nat): uint32 {
    (side.First() + 2 * k) % 0x1_0000_0000
  }

  lemma IdAtOwned(side: Side, k: nat)
    ensures side.Owns(IdAt(side, k)) && !side.Peer().Owns(IdAt(side, k))
    ensures IdAt(side, k + 1) == (IdAt(side, k) + 2) % 0x1_0000_0000
  {
  }

  lemma IdAtInjective(side: Side, j: nat, k: nat)
    requires j < k < ID_SPACE
    ensures IdAt(side, j) != IdAt(side, k)
  {
  }

  ghost predicate Ids(c: Conn) {
    && c.nextID == IdAt(c.side, c.opens)
    && c.opens <= ID_SPACE
    && (forall o | 0 <= o < |c.heap| ::
          if c.heap[o].mine then c.heap[o].serial < c.opens && c.heap[o].id == IdAt(c.side, c.heap[o].serial)
          else !c.side.Owns(c.heap[o].id))
    && forall i, j | 0 <= i < j < |c.heap| :: c.heap[i].id != c.heap[j].id
  }

  lemma FreshId(c: Conn)
    requires Ids(c) && c.opens < ID_SPACE
    ensures forall o | 0 <= o < |c.heap| :: c.heap[o].id != c.nextID
  {
    IdAtOwned(c.side, c.opens);
    forall o | 0 <= o < |c.heap|
      ensures c.heap[o].id != c.nextID
    {
      if c.heap[o].mine {
        IdAtInjective(c.side, c.heap[o].serial, c.opens);
      }
    }
  }

  // Which frames may cross

  /** An end may name a stream it has opened, or one it has seen opened. */
  ghost predicate MayName(c: Conn, id: uint32) {
    if c.side.Owns(id) then Opens(id, c.sent) else Opens(id, c.seen)
  }

  ghost predicate Announced(c: Conn, id: uint32) {
    exists o | 0 <= o < |c.heap| :: c.heap[o].id == id && c.heap[o].mine && c.heap[o].stage != Opening
  }

  /** The frame f, written after the frames `before`, breaks no rule of the protocol. */
  ghost predicate GoodOutput(c: Conn, f: Frame, before: seq<Frame>) {
    && f.Valid()
    && f.ty != AUTH && f.ty != AUTH_OK
    && (f.ty == OPEN ==> c.side.Owns(f.id) && !Opens(f.id, before) && Announced(c, f.id))
    && (f.ty == DATA || f.ty == CLOSE ==> if c.side.Owns(f.id) then Opens(f.id, before) else Opens(f.id, c.seen))
  }

  ghost predicate GoodInput(c: Conn, f: Frame) {
    && f.Valid()
    && f.ty != AUTH && f.ty != AUTH_OK
    && (f.ty == OPEN ==> !c.side.Owns(f.id) && !Opens(f.id, c.seen))
    && (f.ty == DATA || f.ty == CLOSE ==> MayName(c, f.id))
  }

  ghost predicate SentOk(c: Conn) {
    forall k | 0 <= k < |c.sent| :: GoodOutput(c, c.sent[k], c.sent[..k])
  }

  ghost predicate SeenOk(c: Conn) {
    forall f <- c.seen ::
      && (f.ty == OPEN ==> !c.side.Owns(f.id))
      && (f.ty == DATA || f.ty == CLOSE ==> MayName(c, f.id))
  }

  /** How far each stream object's OPEN has got. */
  ghost predicate StagesOk(c: Conn) {
    && (forall o | 0 <= o < |c.heap| ::
          var s := c.heap[o];
          if s.mine then
            && (s.stage == Stage.Usable ==> Opens(s.id, c.sent))
            && (s.stage == Opening ==> !Opens(s.id, c.sent))
            && s.stage != Offered
          else Opens(s.id, c.seen) && s.stage != Opening && s.stage != Aborting)
    && (c.loop.Replying? && c.loop.f.ty == CLOSE ==> MayName(c, c.loop.f.id))
  }

  // Conservation at the receiving end

  function InHand(c: Conn, o: nat): Bytes {
    if c.loop.Delivering? && c.loop.o == o then c.loop.b else []
  }

  /** The streams whose bytes this end still answers for. */
  predicate Tracked(s: Stream) {
    !s.LocallyClosed() && s.stage != Aborting && s.stage != Discarded
  }

  ghost predicate ConservedAt(c: Conn, o: nat)
    requires o < |c.heap|
  {
    var s := c.heap[o];
    && (Closes(s.id, c.seen) <==> s.readsClosed || c.loop == HangingUp(o))
    && (!Closes(s.id, c.seen) ==> s.id in c.streams && c.streams[s.id] == o)
    && HandledBytes(s.handled) + InHand(c, o) == Body(s.id, c.seen)
  }

  ghost predicate Conserved(c: Conn) {
    forall o | 0 <= o < |c.heap| && Tracked(c.heap[o]) :: ConservedAt(c, o)
  }

  ghost predicate Honest(c: Conn) {
    Ids(c) && SentOk(c) && SeenOk(c) && StagesOk(c) && Conserved(c)
  }

  lemma HonestStart(side: Side)
    ensures Honest(NewConn(side))
  {
  }

  // How a step moves one end

  /** A step never renames a stream object, never forgets a frame, and writes at
      most one. */
  ghost predicate Evolves(c: Conn, c': Conn) {
    && c'.side == c.side
    && |c.heap| <= |c'.heap|
    && (forall o | 0 <= o < |c.heap| ::
          && c'.heap[o].id == c.heap[o].id && c'.heap[o].mine == c.heap[o].mine && c'.heap[o].serial == c.heap[o].serial
          && (c'.heap[o].stage == Opening ==> c.heap[o].stage == Opening))
    && (c'.sent == c.sent || (c'.sent != [] && c'.sent[..|c'.sent| - 1] == c.sent))
    && (c'.seen == c.seen || (c'.seen != [] && c'.seen[..|c'.seen| - 1] == c.seen))
  }

  lemma LoopEvolves(c: Conn, a: Action)
    requires Enabled(c, a) && a.ByReadLoop()
    ensures Evolves(c, Step(c, a))
  {
    assert forall f :: (c.sent + [f])[..|c.sent|] == c.sent;
    assert forall f :: (c.seen + [f])[..|c.seen|] == c.seen;
  }

  lemma StepEvolves(c: Conn, a: Action)
    requires Enabled(c, a)
    ensures Evolves(c, Step(c, a))
  {
    assert forall f :: (c.sent + [f])[..|c.sent|] == c.sent;
    if a.ByReadLoop() {
      LoopEvolves(c, a);
    }
  }

  lemma IdsReceive(c: Conn, f: Frame)
    requires Ids(c) && StagesOk(c) && Enabled(c, Receive(f)) && GoodInput(c, f)
    ensures Ids(Step(c, Receive(f)))
  {
    if f.ty == OPEN {
      forall o | 0 <= o < |c.heap|
        ensures c.heap[o].id != f.id
      {
      }
    }
  }

  lemma IdsLoop(c: Conn, a: Action)
    requires Ids(c) && Enabled(c, a) && a.ByReadLoop() && !a.Receive?
    ensures Ids(Step(c, a))
  {
  }

  lemma IdsStep(c: Conn, a: Action)
    requires Ids(c) && StagesOk(c) && Enabled(c, a)
    requires a == BeginOpen ==> c.opens < ID_SPACE
    requires a.Receive? ==> GoodInput(c, a.f)
    ensures Ids(Step(c, a))
  {
    if a == BeginOpen {
      FreshId(c);
      IdAtOwned(c.side, c.opens);
    } else if a.Receive? {
      IdsReceive(c, a.f);
    } else if a.ByReadLoop() {
      IdsLoop(c, a);
    } else {
      IdsApplication(c, a);
    }
  }

  lemma IdsApplication(c: Conn, a: Action)
    requires Ids(c) && Enabled(c, a) && !a.ByReadLoop() && a != BeginOpen
    ensures Ids(Step(c, a))
  {
  }

  lemma SentGrows(c: Conn, c': Conn)
    requires Evolves(c, c') && SentOk(c)
    requires c'.sent != c.sent ==> GoodOutput(c', c'.sent[|c.sent|], c.sent)
    ensures SentOk(c')
  {
    forall k | 0 <= k < |c'.sent|
      ensures GoodOutput(c', c'.sent[k], c'.sent[..k])
    {
      if k < |c.sent| {
        var f := c.sent[k];
        assert c'.sent[k] == f && c'.sent[..k] == c.sent[..k];
        assert GoodOutput(c, f, c.sent[..k]);
        if f.ty == OPEN {
          var o :| 0 <= o < |c.heap| && c.heap[o].id == f.id && c.heap[o].mine && c.heap[o].stage != Opening;
          assert c'.heap[o].id == f.id && c'.heap[o].mine && c'.heap[o].stage != Opening;
        }
        assert forall g <- c.seen :: g in c'.seen;
      } else {
        assert c'.sent[..k] == c.sent;
      }
    }
  }

  /** What a step writes breaks no rule. */
  lemma OutputOk(c: Conn, a: Action)
    requires Safe(c) && Honest(c) && Enabled(c, a)
    ensures var c' := Step(c, a); c'.sent == c.sent || GoodOutput(c', c'.sent[|c.sent|], c.sent)
  {
    var c' := Step(c, a);
    if a.SendOpen? && c'.sent != c.sent {
      IdAtOwned(c.side, c.heap[a.o].serial);
      assert c'.heap[a.o].id == c.heap[a.o].id;
    } else if (a.WriteChunk? || a.SendClose?) && c.heap[a.o].mine {
      IdAtOwned(c.side, c.heap[a.o].serial);
    }
  }

  lemma SeenStep(c: Conn, a: Action)
    requires SeenOk(c) && Enabled(c, a) && (a.Receive? ==> GoodInput(c, a.f))
    ensures SeenOk(Step(c, a))
  {
    StepEvolves(c, a);
    var c' := Step(c, a);
    assert forall g <- c.sent :: g in c'.sent;
    assert forall g <- c.seen :: g in c'.seen;
    assert forall g <- c'.seen :: g in c.seen || (a.Receive? && g == a.f);
  }

  // The stages of the stream objects

  lemma SentOpensKnown(c: Conn, id: uint32)
    requires SentOk(c) && Opens(id, c.sent)
    ensures Announced(c, id)
  {
    var f :| f in c.sent && f.ty == OPEN && f.id == id;
    var k :| 0 <= k < |c.sent| && c.sent[k] == f;
    assert GoodOutput(c, c.sent[k], c.sent[..k]);
  }

  /** No frame has yet crossed, either way, for the id the next Open will take. */
  lemma FreshIdUnsaid(c: Conn)
    requires Honest(c) && c.opens < ID_SPACE
    ensures !Opens(c.nextID, c.sent)
    ensures forall f <- c.seen :: f.ty == DATA || f.ty == CLOSE ==> f.id != c.nextID
  {
    FreshId(c);
    IdAtOwned(c.side, c.opens);
    if Opens(c.nextID, c.sent) {
      SentOpensKnown(c, c.nextID);
    }
  }

  lemma StagesBeginOpen(c: Conn)
    requires Safe(c) && Honest(c) && c.opens < ID_SPACE
    ensures StagesOk(Step(c, BeginOpen))
  {
    FreshId(c);
    FreshIdUnsaid(c);
  }

  lemma StagesReceive(c: Conn, f: Frame)
    requires Safe(c) && Honest(c) && Enabled(c, Receive(f)) && GoodInput(c, f)
    ensures StagesOk(Step(c, Receive(f)))
  {
    var c' := Step(c, Receive(f));
    assert c'.seen[|c.seen|] == f;
    assert forall g <- c.seen :: g in c'.seen;
  }

  lemma StagesSend(c: Conn, a: Action)
    requires Safe(c) && Honest(c) && Enabled(c, a)
    requires a.SendOpen? || a.WriteChunk? || a.SendClose? || a.SendPing? || a.Reply?
    ensures StagesOk(Step(c, a))
  {
    var c' := Step(c, a);
    assert forall g <- c.sent :: g in c'.sent;
    assert a.SendOpen? && c'.heap[a.o].stage == Stage.Usable ==> c'.sent[|c.sent|] == OpenFrame(c.heap[a.o].id);
    assert !a.SendOpen? ==> forall g <- c'.sent :: g in c.sent || g.ty != OPEN;
    assert a.SendOpen? ==> forall g <- c'.sent :: g in c.sent || g.id == c.heap[a.o].id;
  }

  lemma StagesStep(c: Conn, a: Action)
    requires Safe(c) && Honest(c) && Enabled(c, a)
    requires a == BeginOpen ==> c.opens < ID_SPACE
    requires a.Receive? ==> GoodInput(c, a.f)
    ensures StagesOk(Step(c, a))
  {
    if a == BeginOpen {
      StagesBeginOpen(c);
    } else if a.Receive? {
      StagesReceive(c, a.f);
    } else if a.SendOpen? || a.WriteChunk? || a.SendClose? || a.SendPing? || a.Reply? {
      StagesSend(c, a);
    } else if a.WithdrawStream? {
      assert Opens(c.heap[c.loop.o].id, c.seen);
    }
  }

  // Conservation, step by step

  /** Nothing that conservation speaks of has moved, other than streams this end
      stops answering for. */
  ghost predicate Unmoved(c: Conn, c': Conn) {
    && |c'.heap| == |c.heap| && c'.seen == c.seen && c'.loop == c.loop
    && forall o | 0 <= o < |c.heap| && Tracked(c'.heap[o]) ::
         var s, s' := c.heap[o], c'.heap[o];
         && Tracked(s) && s'.id == s.id && s'.readsClosed == s.readsClosed && s'.handled == s.handled
         && (s.id in c.streams && c.streams[s.id] == o ==> s.id in c'.streams && c'.streams[s.id] == o)
  }

  lemma ConservedUnmoved(c: Conn, c': Conn)
    requires Conserved(c) && Unmoved(c, c')
    ensures Conserved(c')
  {
    forall o | 0 <= o < |c'.heap| && Tracked(c'.heap[o])
      ensures ConservedAt(c', o)
    {
      assert ConservedAt(c, o);
    }
  }

  predicate Handles(a: Action) {
    a.TakePayload? || a.CopyOut? || a.SignalClose? || a.UnlistClosed?
  }

  lemma HandlingUnmoved(c: Conn, a: Action)
    requires Safe(c) && Honest(c) && Enabled(c, a) && Handles(a)
    ensures Unmoved(c, Step(c, a))
  {
  }

  lemma OpeningUnmoved(c: Conn, a: Action)
    requires Safe(c) && Honest(c) && Enabled(c, a) && (a.SendOpen? || a.AbortOpen? || a.Accept?)
    ensures Unmoved(c, Step(c, a))
  {
  }

  lemma SendingUnmoved(c: Conn, a: Action)
    requires Enabled(c, a) && (a.WriteChunk? || a.SendClose? || a.SendPing? || a.CloseConn?)
    ensures Unmoved(c, Step(c, a))
  {
  }

  lemma ApplicationUnmoved(c: Conn, a: Action)
    requires Safe(c) && Honest(c) && Enabled(c, a)
    requires !a.ByReadLoop() && a != BeginOpen && a != ReadFails
    ensures Unmoved(c, Step(c, a))
  {
    if Handles(a) {
      HandlingUnmoved(c, a);
    } else if a.SendOpen? || a.AbortOpen? || a.Accept? {
      OpeningUnmoved(c, a);
    } else {
      SendingUnmoved(c, a);
    }
  }

  lemma ConservedBeginOpen(c: Conn)
    requires Safe(c) && Honest(c) && c.opens < ID_SPACE
    ensures Conserved(Step(c, BeginOpen))
  {
    var c', id := Step(c, BeginOpen), c.nextID;
    FreshId(c);
    FreshIdUnsaid(c);
    BodyUnnamed(id, c.seen);
    forall o | 0 <= o < |c'.heap| && Tracked(c'.heap[o])
      ensures ConservedAt(c', o)
    {
      if o < |c.heap| {
        assert ConservedAt(c, o);
      }
    }
  }

  /** Opening a stream at the peer's request: no earlier frame named it. */
  lemma ConservedNewcomer(c: Conn, f: Frame)
    requires Safe(c) && Honest(c) && Enabled(c, Receive(f)) && GoodInput(c, f) && f.ty == OPEN
    ensures forall g <- c.seen :: g.ty == DATA || g.ty == CLOSE ==> g.id != f.id
    ensures f.id !in c.streams
    ensures Body(f.id, c.seen) == []
  {
    assert forall o | 0 <= o < |c.heap| :: c.heap[o].id != f.id by {
      IdsReceive(c, f);
      forall o | 0 <= o < |c.heap|
        ensures c.heap[o].id != f.id
      {
        if c.heap[o].mine {
          IdAtOwned(c.side, c.heap[o].serial);
        }
      }
    }
    BodyUnnamed(f.id, c.seen);
  }

  lemma ConservedOpen(c: Conn, f: Frame, o: nat)
    requires Safe(c) && Honest(c) && Enabled(c, Receive(f)) && GoodInput(c, f) && f.ty == OPEN
    requires o < |c.heap| && Tracked(c.heap[o])
    ensures ConservedAt(Step(c, Receive(f)), o)
  {
    assert ConservedAt(c, o);
    BodySnoc(c.heap[o].id, c.seen, f);
    ConservedNewcomer(c, f);
  }

  /** What a frame seen, other than an OPEN, adds to what is known of stream id. */
  lemma SeenSnoc(id: uint32, seen: seq<Frame>, f: Frame)
    ensures Closes(id, seen + [f]) <==> Closes(id, seen) || (f.ty == CLOSE && f.id == id)
    ensures Body(id, seen + [f]) ==
            if f.ty == DATA && f.id == id && !Closes(id, seen) then Body(id, seen) + f.payload else Body(id, seen)
  {
    BodySnoc(id, seen, f);
    assert Body(id, seen) + [] == Body(id, seen);
  }

  /** A DATA frame that is looked up reaches the stream it names, if that stream has
      not been closed by its peer. */
  lemma DataInHand(c: Conn, f: Frame, o: nat)
    requires TableOk(c.heap, c.streams, c.loop) && c.loop == Idle && f.ty == DATA
    requires o < |c.heap| && ConservedAt(c, o)
    ensures var id, c' := c.heap[o].id, Dispatch(c, f);
      && c'.heap == c.heap && c'.streams == c.streams && !c'.loop.HangingUp?
      && InHand(c', o) == if f.id == id && !Closes(id, c.seen) then f.payload else []
  {
  }

  /** What a frame that is seen does to a stream is told by its loop and its id. */
  lemma ConservedNext(c: Conn, c': Conn, f: Frame, o: nat)
    requires o < |c.heap| && ConservedAt(c, o) && c.loop == Idle && c'.heap == c.heap && c'.streams == c.streams
    requires c'.seen == c.seen + [f]
    requires var id := c.heap[o].id;
      && (Closes(id, c.seen + [f]) <==> Closes(id, c.seen) || c'.loop == HangingUp(o))
      && Body(id, c.seen + [f]) == Body(id, c.seen) + InHand(c', o)
    ensures ConservedAt(c', o)
  {
    var s := c.heap[o];
    assert InHand(c, o) == [] && HandledBytes(s.handled) + [] == HandledBytes(s.handled);
  }

  lemma ConservedData(c: Conn, f: Frame, o: nat)
    requires TableOk(c.heap, c.streams, c.loop) && c.loop == Idle && f.ty == DATA
    requires o < |c.heap| && ConservedAt(c, o)
    ensures ConservedAt(Dispatch(c, f).(seen := c.seen + [f]), o)
  {
    var id := c.heap[o].id;
    DataInHand(c, f, o);
    SeenSnoc(id, c.seen, f);
    assert Body(id, c.seen) + [] == Body(id, c.seen);
    ConservedNext(c, Dispatch(c, f).(seen := c.seen + [f]), f, o);
  }

  lemma CloseHangsUp(c: Conn, f: Frame, o: nat)
    requires TableOk(c.heap, c.streams, c.loop) && c.loop == Idle && f.ty == CLOSE
    requires o < |c.heap| && ConservedAt(c, o)
    ensures var id, c' := c.heap[o].id, Dispatch(c, f);
      && c'.heap == c.heap && c'.streams == c.streams && InHand(c', o) == []
      && (c'.loop == HangingUp(o) <==> f.id == id && !Closes(id, c.seen))
  {
  }

  lemma ConservedClose(c: Conn, f: Frame, o: nat)
    requires TableOk(c.heap, c.streams, c.loop) && c.loop == Idle && f.ty == CLOSE
    requires o < |c.heap| && ConservedAt(c, o)
    ensures ConservedAt(Dispatch(c, f).(seen := c.seen + [f]), o)
  {
    var id := c.heap[o].id;
    CloseHangsUp(c, f, o);
    SeenSnoc(id, c.seen, f);
    assert Body(id, c.seen) + [] == Body(id, c.seen);
    ConservedNext(c, Dispatch(c, f).(seen := c.seen + [f]), f, o);
  }

  lemma ConservedControl(c: Conn, f: Frame, o: nat)
    requires c.loop == Idle && f.ty != OPEN && f.ty != DATA && f.ty != CLOSE
    requires o < |c.heap| && ConservedAt(c, o)
    ensures ConservedAt(Dispatch(c, f).(seen := c.seen + [f]), o)
  {
    var id, c' := c.heap[o].id, Dispatch(c, f).(seen := c.seen + [f]);
    SeenSnoc(id, c.seen, f);
    assert Body(id, c.seen) + [] == Body(id, c.seen);
    assert c'.heap == c.heap && c'.streams == c.streams && InHand(c', o) == [] && !c'.loop.HangingUp?;
    ConservedNext(c, c', f, o);
  }

  lemma ConservedReceive(c: Conn, f: Frame, o: nat)
    requires TableOk(c.heap, c.streams, c.loop) && c.loop == Idle && f.ty != OPEN
    requires o < |c.heap| && ConservedAt(c, o)
    ensures ConservedAt(Dispatch(c, f).(seen := c.seen + [f]), o)
  {
    if f.ty == DATA {
      ConservedData(c, f, o);
    } else if f.ty == CLOSE {
      ConservedClose(c, f, o);
    } else {
      ConservedControl(c, f, o);
    }
  }

  lemma ConservedReceiveAll(c: Conn, f: Frame)
    requires Safe(c) && Honest(c) && Enabled(c, Receive(f)) && GoodInput(c, f)
    ensures Conserved(Step(c, Receive(f)))
  {
    var c' := Step(c, Receive(f));
    forall o | 0 <= o < |c'.heap| && Tracked(c'.heap[o])
      ensures ConservedAt(c', o)
    {
      if o < |c.heap| && f.ty == OPEN {
        ConservedOpen(c, f, o);
      } else if o < |c.heap| {
        assert ConservedAt(c, o);
        ConservedReceive(c, f, o);
      } else {
        ConservedNewcomer(c, f);
        BodySnoc(f.id, c.seen, f);
      }
    }
  }

  lemma ConservedDelivery(c: Conn, a: Action, o: nat)
    requires Enabled(c, a) && (a.KeepPayload? || a.GiveUpPayload?)
    requires o < |c.heap| && ConservedAt(c, o)
    ensures ConservedAt(Step(c, a), o)
  {
    SnocHandled(c.heap[c.loop.o].handled, Handled(c.loop.b, a.KeepPayload?));
  }

  lemma ConservedLoop(c: Conn, a: Action, o: nat)
    requires Safe(c) && Ids(c) && Enabled(c, a) && a.ByReadLoop() && !a.Receive?
    requires o < |c.heap| && Tracked(Step(c, a).heap[o]) && ConservedAt(c, o)
    ensures ConservedAt(Step(c, a), o)
  {
    if MovesPayload(a) {
      ConservedDelivery(c, a, o);
    }
  }

  lemma AlreadyTracked(c: Conn, a: Action)
    requires Safe(c) && Enabled(c, a) && a.ByReadLoop() && !a.Receive?
    ensures |Step(c, a).heap| == |c.heap|
    ensures forall o | 0 <= o < |c.heap| && Tracked(Step(c, a).heap[o]) :: Tracked(c.heap[o])
  {
  }

  lemma ConservedLoopAll(c: Conn, a: Action)
    requires Safe(c) && Ids(c) && Conserved(c) && Enabled(c, a) && a.ByReadLoop() && !a.Receive?
    ensures Conserved(Step(c, a))
  {
    AlreadyTracked(c, a);
    forall o | 0 <= o < |c.heap| && Tracked(Step(c, a).heap[o])
      ensures ConservedAt(Step(c, a), o)
    {
      ConservedLoop(c, a, o);
    }
  }

  lemma ConservedFails(c: Conn)
    requires Honest(c) && Enabled(c, ReadFails)
    ensures Conserved(Step(c, ReadFails))
  {
    forall o | 0 <= o < |c.heap| && Tracked(c.heap[o])
      ensures ConservedAt(Step(c, ReadFails), o)
    {
      assert ConservedAt(c, o);
    }
  }

  lemma ConservedStep(c: Conn, a: Action)
    requires Safe(c) && Honest(c) && Enabled(c, a)
    requires a == BeginOpen ==> c.opens < ID_SPACE
    requires a.Receive? ==> GoodInput(c, a.f)
    ensures Conserved(Step(c, a))
  {
    if a == BeginOpen {
      ConservedBeginOpen(c);
    } else if a.Receive? {
      ConservedReceiveAll(c, a.f);
    } else if a.ByReadLoop() {
      ConservedLoopAll(c, a);
    } else if a == ReadFails {
      ConservedFails(c);
    } else {
      ApplicationUnmoved(c, a);
      ConservedUnmoved(c, Step(c, a));
    }
  }

  lemma HonestStep(c: Conn, a: Action)
    requires Safe(c) && Honest(c) && Enabled(c, a)
    requires a == BeginOpen ==> c.opens < ID_SPACE
    requires a.Receive? ==> GoodInput(c, a.f)
    ensures Honest(Step(c, a))
  {
    IdsStep(c, a);
    StepEvolves(c, a);
    OutputOk(c, a);
    SentGrows(c, Step(c, a));
    SeenStep(c, a);
    StagesStep(c, a);
    ConservedStep(c, a);
  }
}
