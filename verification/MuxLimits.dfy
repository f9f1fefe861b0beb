/** Where the guarantees of two honest ends stop: runs that show the bounds exact. */
module MuxLimits {
  import opened Frames
  import opened Mux
  import opened MuxSafety
  import opened MuxHonest
  import opened MuxSystem

  lemma ReachStart()
    ensures Reachable(Start())
  {
    assert SystemRun([Start()], []);
  }

  lemma ReachStep(s: System, e: Event)
    requires Reachable(s) && CanHappen(s, e)
    ensures Reachable(After(s, e))
  {
    var ss, es :| SystemRun(ss, es) && ss[|es|] == s;
    RunAppend(ss, es, e);
    assert (ss + [After(s, e)])[|es + [e]|] == After(s, e);
  }

  // Reading short of the end

  /** The stream both ends see once the relay has opened stream 1. */
  function Opened(mine: bool): Stream {
    NewStream(1, mine, 0).(stage := Stage.Usable)
  }

  function RelayEnd(closing: Closing, streams: map<uint32, nat>, sent: seq<Frame>): Conn {
    Conn(RelaySide, [Opened(true).(closing := closing)], streams, 3, 1, [], [], Idle, sent, [])
  }

  function TunnelEnd(st: Stream, cause: seq<Cause>, loop: Loop, seen: seq<Frame>): Conn {
    Conn(TunnelSide, [st], map[1 := 0], 2, 0, [], cause, loop, [], seen)
  }

  /** The relay opened stream 1 and the tunnel client accepted it; the relay then
      wrote `b` to it and closed it, and none of that has arrived. */
  function Sending(b: Bytes): System {
    System(
      RelayEnd(Told, map[], [OpenFrame(1), DataFrame(1, b), CloseFrame(1)]),
      TunnelEnd(Opened(false), [], Idle, [OpenFrame(1)]),
      [DataFrame(1, b), CloseFrame(1)], [])
  }

  lemma ReachAnnounced()
    ensures Reachable(System(RelayEnd(Live, map[1 := 0], [OpenFrame(1)]), NewConn(TunnelSide), [OpenFrame(1)], []))
  {
    ReachStart();
    var e0 := Event(RelaySide, BeginOpen);
    ReachStep(Start(), e0);
    var s1 := After(Start(), e0);
    ReachStep(s1, Event(RelaySide, SendOpen(0, Through)));
    assert After(s1, Event(RelaySide, SendOpen(0, Through))).relay.heap == RelayEnd(Live, map[], []).heap;
  }

  lemma ReachOffering()
    ensures Reachable(System(RelayEnd(Live, map[1 := 0], [OpenFrame(1)]),
                             TunnelEnd(NewStream(1, false, 0), [], Offering(0), [OpenFrame(1)]), [], []))
  {
    ReachAnnounced();
    var s2 := System(RelayEnd(Live, map[1 := 0], [OpenFrame(1)]), NewConn(TunnelSide), [OpenFrame(1)], []);
    ReachStep(s2, Event(TunnelSide, Receive(OpenFrame(1))));
    assert [] + [NewStream(1, false, 0)] == [NewStream(1, false, 0)] && [] + [OpenFrame(1)] == [OpenFrame(1)];
    assert After(s2, Event(TunnelSide, Receive(OpenFrame(1)))).tunnel ==
           TunnelEnd(NewStream(1, false, 0), [], Offering(0), [OpenFrame(1)]);
  }

  lemma ReachOffered()
    ensures Reachable(System(RelayEnd(Live, map[1 := 0], [OpenFrame(1)]),
                             TunnelEnd(NewStream(1, false, 0), [], Idle, [OpenFrame(1)]).(accept := [0]), [], []))
  {
    ReachOffering();
    var s3 := System(RelayEnd(Live, map[1 := 0], [OpenFrame(1)]),
                     TunnelEnd(NewStream(1, false, 0), [], Offering(0), [OpenFrame(1)]), [], []);
    ReachStep(s3, Event(TunnelSide, OfferStream));
    assert [] + [0] == [0];
  }

  lemma ReachOpened()
    ensures Reachable(System(RelayEnd(Live, map[1 := 0], [OpenFrame(1)]),
                             TunnelEnd(Opened(false), [], Idle, [OpenFrame(1)]), [], []))
  {
    ReachOffered();
    var s4 := System(RelayEnd(Live, map[1 := 0], [OpenFrame(1)]),
                     TunnelEnd(NewStream(1, false, 0), [], Idle, [OpenFrame(1)]).(accept := [0]), [], []);
    ReachStep(s4, Event(TunnelSide, Accept));
    assert After(s4, Event(TunnelSide, Accept)).tunnel.heap == [Opened(false)];
  }

  lemma ReachSending(b: Bytes)
    requires 0 < |b| <= MAX_PAYLOAD
    ensures Reachable(Sending(b))
  {
    ReachOpened();
    var t := TunnelEnd(Opened(false), [], Idle, [OpenFrame(1)]);
    var sent := [OpenFrame(1), DataFrame(1, b)];
    var s0 := System(RelayEnd(Live, map[1 := 0], [OpenFrame(1)]), t, [], []);
    var s1 := System(RelayEnd(Live, map[1 := 0], sent), t, [DataFrame(1, b)], []);
    ReachStep(s0, Event(RelaySide, WriteChunk(0, b, Through)));
    assert After(s0, Event(RelaySide, WriteChunk(0, b, Through))) == s1;
    ReachStep(s1, Event(RelaySide, SignalClose(0)));
    var s2 := System(RelayEnd(Signalled, map[1 := 0], sent), t, [DataFrame(1, b)], []);
    assert After(s1, Event(RelaySide, SignalClose(0))).relay.heap == s2.relay.heap;
    ReachClosing(s2, b);
  }

  lemma ReachClosing(s2: System, b: Bytes)
    requires 0 < |b| <= MAX_PAYLOAD
    requires s2 == System(RelayEnd(Signalled, map[1 := 0], [OpenFrame(1), DataFrame(1, b)]),
                          TunnelEnd(Opened(false), [], Idle, [OpenFrame(1)]), [DataFrame(1, b)], [])
    requires Reachable(s2)
    ensures Reachable(Sending(b))
  {
    ReachStep(s2, Event(RelaySide, UnlistClosed(0)));
    var s3 := After(s2, Event(RelaySide, UnlistClosed(0)));
    assert s3.relay == RelayEnd(Unlisted, map[], [OpenFrame(1), DataFrame(1, b)]);
    ReachStep(s3, Event(RelaySide, SendClose(0, Through)));
    var s4 := After(s3, Event(RelaySide, SendClose(0, Through)));
    assert s4.relay.sent == Sending(b).relay.sent;
    assert s4.down == Sending(b).down;
  }

  lemma BodySending(b: Bytes)
    ensures Body(1, Sending(b).relay.sent) == b
  {
    var o, d, c := OpenFrame(1), DataFrame(1, b), CloseFrame(1);
    BodySnoc(1, [], o);
    BodySnoc(1, [o], d);
    BodySnoc(1, [o, d], c);
    assert [] + [o] == [o] && [o] + [d] == [o, d] && [o, d] + [c] == [o, d, c];
  }

  lemma ReachInHand(b: Bytes)
    requires 0 < |b| <= MAX_PAYLOAD
    ensures Reachable(System(Sending(b).relay,
      TunnelEnd(Opened(false), [], Delivering(0, b), [OpenFrame(1), DataFrame(1, b)]), [CloseFrame(1)], []))
  {
    ReachSending(b);
    var s0 := Sending(b);
    ReachStep(s0, Event(TunnelSide, Receive(DataFrame(1, b))));
    assert After(s0, Event(TunnelSide, Receive(DataFrame(1, b)))).tunnel.seen == [OpenFrame(1), DataFrame(1, b)];
    assert s0.down[1..] == [CloseFrame(1)];
  }

  lemma ReachGaveUp(b: Bytes) returns (s: System)
    requires 0 < |b| <= MAX_PAYLOAD
    ensures Reachable(s) && s.relay == Sending(b).relay && s.down == [CloseFrame(1)]
    ensures s.tunnel == TunnelEnd(Opened(false).(handled := [Handled(b, false)]), [LocalClose], Idle,
                                  [OpenFrame(1), DataFrame(1, b)])
  {
    ReachInHand(b);
    var s1 := System(Sending(b).relay,
      TunnelEnd(Opened(false), [], Delivering(0, b), [OpenFrame(1), DataFrame(1, b)]), [CloseFrame(1)], []);
    ReachStep(s1, Event(TunnelSide, CloseConn));
    var s2 := After(s1, Event(TunnelSide, CloseConn));
    ReachStep(s2, Event(TunnelSide, GiveUpPayload));
    s := After(s2, Event(TunnelSide, GiveUpPayload));
    assert [] + [Handled(b, false)] == [Handled(b, false)];
  }

  lemma ReachHangingUp(b: Bytes) returns (s: System)
    requires 0 < |b| <= MAX_PAYLOAD
    ensures Reachable(s) && s.relay == Sending(b).relay
    ensures s.tunnel.heap == [Opened(false).(handled := [Handled(b, false)])] && s.tunnel.loop == HangingUp(0)
    ensures s.tunnel.cause == [LocalClose] && s.tunnel.opens == 0
  {
    var s3 := ReachGaveUp(b);
    ReachStep(s3, Event(TunnelSide, Receive(CloseFrame(1))));
    s := After(s3, Event(TunnelSide, Receive(CloseFrame(1))));
  }

  /** The frames that had already arrived when the receiving end closed its
      connection are still worked through. A payload given up there is followed by
      the peer's CLOSE, and Read reports EOF having returned none of it. */
  lemma IncompleteAfterConnClose(b: Bytes) returns (s: System)
    requires 0 < |b| <= MAX_PAYLOAD
    ensures Reachable(s) && IdsLast(s) && s.tunnel.Closed() && |s.tunnel.heap| == 1
    ensures AtClosedReads(s.tunnel.heap[0])
    ensures s.tunnel.heap[0].returned == [] && Body(1, s.relay.sent) == b
  {
    BodySending(b);
    var s4 := ReachHangingUp(b);
    ReachStep(s4, Event(TunnelSide, CloseReads));
    s := After(s4, Event(TunnelSide, CloseReads));
  }
}
