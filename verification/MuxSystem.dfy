/** Two honest ends joined by a FIFO wire each way, over all interleavings. */
module MuxSystem {
  import opened Frames
  import opened Mux
  import opened MuxSafety
  import opened MuxHonest
  import opened Induction

  /** `down` carries the relay's frames to the tunnel client, `up` the other way. */
  datatype System = System(relay: Conn, tunnel: Conn, down: seq<Frame>, up: seq<Frame>) {
    function End(side: Side): Conn {
      if side == RelaySide then relay else tunnel
    }

    /** The frames on their way to `side`. */
    function Inbound(side: Side): seq<Frame> {
      if side == RelaySide then up else down
    }
  }

  datatype Event = Event(side: Side, action: Action)

  function Start(): System {
    System(NewConn(RelaySide), NewConn(TunnelSide), [], [])
  }

  predicate CanHappen(s: System, e: Event) {
    && Enabled(s.End(e.side), e.action)
    && (e.action.Receive? ==> s.Inbound(e.side) != [] && s.Inbound(e.side)[0] == e.action.f)
  }

  /** What a step of an end puts on the wire. */
  function Written(c: Conn, c': Conn): seq<Frame> {
    if |c'.sent| > |c.sent| then c'.sent[|c.sent|..] else []
  }

  function After(s: System, e: Event): System
    requires CanHappen(s, e)
  {
    var c := s.End(e.side);
    var c' := Step(c, e.action);
    var inbound := s.Inbound(e.side);
    var left := if e.action.Receive? then inbound[1..] else inbound;
    if e.side == RelaySide then System(c', s.tunnel, s.down + Written(c, c'), left)
    else System(s.relay, c', left, s.up + Written(c, c'))
  }

  predicate Follows(s: System, e: Event, t: System) {
    CanHappen(s, e) && t == After(s, e)
  }

  ghost predicate SystemRun(ss: seq<System>, es: seq<Event>) {
    && |ss| == |es| + 1
    && ss[0] == Start()
    && forall i {:trigger es[i]} | 0 <= i < |es| :: Follows(ss[i], es[i], ss[i + 1])
  }

  ghost predicate Reachable(s: System) {
    exists ss, es :: SystemRun(ss, es) && ss[|es|] == s
  }

  lemma RunAppend(ss: seq<System>, es: seq<Event>, e: Event)
    requires SystemRun(ss, es) && CanHappen(ss[|es|], e)
    ensures SystemRun(ss + [After(ss[|es|], e)], es + [e])
  {
    var t := After(ss[|es|], e);
    FollowsAppend(ss, es, e, t);
  }

  lemma FollowsAppend(ss: seq<System>, es: seq<Event>, e: Event, t: System)
    requires SystemRun(ss, es) && Follows(ss[|es|], e, t)
    ensures SystemRun(ss + [t], es + [e])
  {
    var ss', es' := ss + [t], es + [e];
    forall i | 0 <= i < |es'| ensures Follows(ss'[i], es'[i], ss'[i + 1]) {
      if i < |es| {
        assert es'[i] == es[i] && ss'[i] == ss[i] && ss'[i + 1] == ss[i + 1];
      }
    }
  }

  /** Neither end has used up its ids. */
  predicate IdsLast(s: System) {
    s.relay.opens <= ID_SPACE && s.tunnel.opens <= ID_SPACE
  }

  // The invariant

  predicate NoProtocolError(c: Conn) {
    forall cause <- c.cause :: !cause.Reopened? && !cause.UnexpectedAuth?
  }

  ghost predicate EndOk(c: Conn) {
    Safe(c) && Accounts(c) && Honest(c) && NoProtocolError(c)
  }

  /** Everything sent has been seen or is on the wire, in order. */
  ghost predicate Joined(sender: Conn, wire: seq<Frame>, receiver: Conn) {
    sender.sent == receiver.seen + wire
  }

  ghost predicate Inv(s: System) {
    && s.relay.side == RelaySide && s.tunnel.side == TunnelSide
    && EndOk(s.relay) && EndOk(s.tunnel)
    && Joined(s.relay, s.down, s.tunnel) && Joined(s.tunnel, s.up, s.relay)
  }

  lemma InvStart()
    ensures Inv(Start())
  {
    HonestStart(RelaySide);
    HonestStart(TunnelSide);
  }

  /** The frame next in line is one the receiver may rely on. */
  lemma NextIsGood(peer: Conn, inbound: seq<Frame>, me: Conn, outbound: seq<Frame>)
    requires Honest(peer) && peer.side == me.side.Peer()
    requires Joined(peer, inbound, me) && Joined(me, outbound, peer)
    requires inbound != []
    ensures GoodInput(me, inbound[0])
  {
    var k, f := |me.seen|, inbound[0];
    assert peer.sent[k] == f && peer.sent[..k] == me.seen;
    assert GoodOutput(peer, f, me.seen);
    assert forall g <- peer.seen :: g in me.sent;
  }

  lemma ErrorFree(c: Conn, a: Action)
    requires Safe(c) && Honest(c) && Enabled(c, a) && NoProtocolError(c)
    requires a.Receive? ==> GoodInput(c, a.f)
    ensures NoProtocolError(Step(c, a))
  {
    if a.Receive? && a.f.ty == OPEN {
      ConservedNewcomer(c, a.f);
    }
  }

  lemma EndKeeps(me: Conn, a: Action)
    requires EndOk(me) && Enabled(me, a)
    requires a.Receive? ==> GoodInput(me, a.f)
    requires a == BeginOpen ==> me.opens < ID_SPACE
    ensures EndOk(Step(me, a))
  {
    SafeStep(me, a);
    AccountsStep(me, a);
    HonestStep(me, a);
    ErrorFree(me, a);
  }

  lemma LogsStep(me: Conn, a: Action)
    requires Enabled(me, a)
    ensures var me' := Step(me, a);
      && me'.side == me.side
      && me'.sent == me.sent + Written(me, me')
      && me'.seen == if a.Receive? then me.seen + [a.f] else me.seen
  {
    StepEvolves(me, a);
  }

  lemma EndStep(peer: Conn, inbound: seq<Frame>, me: Conn, outbound: seq<Frame>, a: Action)
    requires EndOk(me) && EndOk(peer) && peer.side == me.side.Peer()
    requires Joined(peer, inbound, me) && Joined(me, outbound, peer)
    requires Enabled(me, a)
    requires a.Receive? ==> inbound != [] && inbound[0] == a.f
    requires a == BeginOpen ==> me.opens < ID_SPACE
    ensures var me' := Step(me, a);
      && EndOk(me') && me'.side == me.side
      && Joined(peer, if a.Receive? then inbound[1..] else inbound, me')
      && Joined(me', outbound + Written(me, me'), peer)
  {
    if a.Receive? {
      NextIsGood(peer, inbound, me, outbound);
    }
    EndKeeps(me, a);
    WiresStep(peer, inbound, me, outbound, a);
  }

  lemma WiresStep(peer: Conn, inbound: seq<Frame>, me: Conn, outbound: seq<Frame>, a: Action)
    requires Joined(peer, inbound, me) && Joined(me, outbound, peer) && Enabled(me, a)
    requires a.Receive? ==> inbound != [] && inbound[0] == a.f
    ensures var me' := Step(me, a);
      && me'.side == me.side
      && Joined(peer, if a.Receive? then inbound[1..] else inbound, me')
      && Joined(me', outbound + Written(me, me'), peer)
  {
    if a.Receive? {
      assert inbound == [a.f] + inbound[1..];
    }
    LogsStep(me, a);
  }

  lemma InvStep(s: System, e: Event)
    requires Inv(s) && CanHappen(s, e) && IdsLast(After(s, e))
    ensures Inv(After(s, e))
  {
    if e.side == RelaySide {
      EndStep(s.tunnel, s.up, s.relay, s.down, e.action);
    } else {
      EndStep(s.relay, s.down, s.tunnel, s.up, e.action);
    }
  }

  lemma OpensGrow(c: Conn, a: Action)
    requires Enabled(c, a)
    ensures c.opens <= Step(c, a).opens
  {
  }

  lemma IdsLastBefore(s: System, e: Event)
    requires CanHappen(s, e) && IdsLast(After(s, e))
    ensures IdsLast(s)
  {
    OpensGrow(s.End(e.side), e.action);
  }

  lemma RunStep(ss: seq<System>, es: seq<Event>, i: nat)
    requires SystemRun(ss, es) && i < |es|
    ensures CanHappen(ss[i], es[i]) && ss[i + 1] == After(ss[i], es[i])
  {
  }

  ghost predicate InvAt(ss: seq<System>, i: nat) {
    i < |ss| && (IdsLast(ss[i]) ==> Inv(ss[i]))
  }

  lemma InvNext(ss: seq<System>, es: seq<Event>, i: nat)
    requires SystemRun(ss, es) && i < |es| && InvAt(ss, i)
    ensures InvAt(ss, i + 1)
  {
    RunStep(ss, es, i);
    if IdsLast(ss[i + 1]) {
      IdsLastBefore(ss[i], es[i]);
      InvStep(ss[i], es[i]);
    }
  }

  lemma InvAlong(ss: seq<System>, es: seq<Event>, i: nat)
    requires SystemRun(ss, es) && i < |ss|
    ensures IdsLast(ss[i]) ==> Inv(ss[i])
  {
    InvStart();
    forall k: nat | 0 <= k < |es| && InvAt(ss, k) ensures InvAt(ss, k + 1) {
      InvNext(ss, es, k);
    }
    Upwards((k: nat) => InvAt(ss, k), 0, |es|, i);
  }

  /** In every run, while ids last, both ends keep every invariant; in particular
      neither ever reports a reopened stream or an unexpected handshake frame. */
  lemma ReachableInv(s: System)
    requires Reachable(s) && IdsLast(s)
    ensures Inv(s)
    ensures NoProtocolError(s.relay) && NoProtocolError(s.tunnel)
  {
    var ss, es :| SystemRun(ss, es) && ss[|es|] == s;
    InvAlong(ss, es, |es|);
  }

  /** The k-th stream the relay opens is 2k + 1, the tunnel client's 2k + 2. */
  lemma IdsByOpens(k: nat)
    ensures k < ID_SPACE ==> IdAt(RelaySide, k) == 2 * k + 1
    ensures k < ID_SPACE - 1 ==> IdAt(TunnelSide, k) == 2 * k + 2
  {
  }

  lemma Parity(c: Conn, o: nat)
    requires Ids(c) && o < |c.heap|
    ensures c.heap[o].id % 2 == if c.heap[o].mine == (c.side == RelaySide) then 1 else 0
  {
    OwnIds(c);
  }

  lemma OwnIds(c: Conn)
    requires Ids(c)
    ensures forall o | 0 <= o < |c.heap| :: c.heap[o].mine <==> c.side.Owns(c.heap[o].id)
  {
    forall o | 0 <= o < |c.heap| && c.heap[o].mine ensures c.side.Owns(c.heap[o].id) {
      IdAtOwned(c.side, c.heap[o].serial);
    }
  }

  /** The streams the relay opened are odd at both ends, the tunnel client's even. */
  lemma OddAndEven(s: System, side: Side, o: nat)
    requires Reachable(s) && IdsLast(s) && o < |s.End(side).heap|
    ensures var st := s.End(side).heap[o];
      st.id % 2 == if st.mine == (side == RelaySide) then 1 else 0
  {
    ReachableInv(s);
    Parity(s.End(side), o);
  }

  // Conservation across the two ends

  /** What is still on the wire for stream `id`, ahead of any CLOSE. */
  ghost function OnTheWay(s: System, side: Side, id: uint32): Bytes {
    if Closes(id, s.End(side).seen) then [] else Body(id, s.Inbound(side))
  }

  /** For every stream an end still answers for, in every reachable state: the
      payloads handed to deliver, the one in the read loop's hand and those on the
      wire ahead of a CLOSE are, in order, what the peer framed for that stream
      before its first CLOSE. While the connection is up nothing was given up, so
      bytes read, buffered and queued account for the delivered part. */
  lemma Conservation(s: System, side: Side, o: nat)
    requires Reachable(s) && IdsLast(s)
    requires o < |s.End(side).heap| && Tracked(s.End(side).heap[o])
    ensures var c, st := s.End(side), s.End(side).heap[o];
      && HandledBytes(st.handled) + InHand(c, o) + OnTheWay(s, side, st.id) == Body(st.id, s.End(side.Peer()).sent)
      && (!c.Closed() ==>
            st.returned + st.rbuf + Flatten(st.queue) + InHand(c, o) + OnTheWay(s, side, st.id)
            == Body(st.id, s.End(side.Peer()).sent))
  {
    ReachableInv(s);
    var c, peer := s.End(side), s.End(side.Peer());
    var st := c.heap[o];
    assert ConservedAt(c, o) && Accounted(st, c.Closed());
    assert peer.sent == c.seen + s.Inbound(side);
    BodyConcat(st.id, c.seen, s.Inbound(side));
    KeptOrLost(st.handled);
  }

  /** Read is about to report EOF because the peer's CLOSE has closed the queue. */
  predicate AtClosedReads(st: Stream) {
    st.stage == Stage.Usable && !st.LocallyClosed() && st.readsClosed && st.queue == [] && st.rbuf == []
  }

  /** At that EOF Read has returned everything the peer framed before its first
      CLOSE exactly when deliver gave nothing up, which is certain while this
      end's connection is up. */
  lemma Completeness(s: System, side: Side, o: nat)
    requires Reachable(s) && IdsLast(s)
    requires o < |s.End(side).heap| && AtClosedReads(s.End(side).heap[o])
    ensures var st := s.End(side).heap[o];
      && (st.returned == Body(st.id, s.End(side.Peer()).sent) <==> Lost(st.handled) == 0)
      && (!s.End(side).Closed() ==> Lost(st.handled) == 0)
  {
    Conservation(s, side, o);
    ReachableInv(s);
    var c := s.End(side);
    var st := c.heap[o];
    assert ConservedAt(c, o) && Accounted(st, c.Closed());
    assert st.returned == Kept(st.handled);
    assert InHand(c, o) == [];
    KeptOrLost(st.handled);
  }

  /** A Read that has to wait finds its buffer and its queue empty and nothing closed. */
  predicate MustWait(c: Conn, o: nat)
    requires o < |c.heap|
  {
    var st := c.heap[o];
    && st.stage == Stage.Usable && st.rbuf == [] && st.queue == []
    && !st.readsClosed && !st.LocallyClosed() && !c.Closed()
  }

  /** It then waits for nothing but bytes still in the read loop's hand or on the
      wire: everything else the peer framed has been returned. */
  lemma WaitingRead(s: System, side: Side, o: nat)
    requires Reachable(s) && IdsLast(s)
    requires o < |s.End(side).heap| && MustWait(s.End(side), o)
    ensures var c, st := s.End(side), s.End(side).heap[o];
      st.returned + InHand(c, o) + OnTheWay(s, side, st.id) == Body(st.id, s.End(side.Peer()).sent)
  {
    Conservation(s, side, o);
    var st := s.End(side).heap[o];
    assert st.returned + st.rbuf + Flatten(st.queue) == st.returned;
  }
}
