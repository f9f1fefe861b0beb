/** Using up the stream ids: a run that opens and closes one stream after another,
    and shows how many Opens the guarantees of two honest ends are good for. */
module MuxWrap {
  import opened Frames
  import opened Mux
  import opened MuxSafety
  import opened MuxHonest
  import opened MuxSystem
  import opened Induction

  /** No end has more than two streams in its table. */
  predicate Lean(s: System) {
    |s.relay.streams| <= 2 && |s.tunnel.streams| <= 2
  }

  ghost predicate LeanRun(ss: seq<System>, es: seq<Event>) {
    SystemRun(ss, es) && forall i | 0 <= i < |ss| :: Lean(ss[i])
  }

  /** s comes up in a run in which tables never hold more than two streams. */
  ghost predicate LeanReachable(s: System) {
    exists ss, es :: LeanRun(ss, es) && ss[|es|] == s
  }

  lemma LeanIsReachable(s: System)
    requires LeanReachable(s)
    ensures Reachable(s)
  {
  }

  lemma LeanStart()
    ensures LeanReachable(Start())
  {
    assert LeanRun([Start()], []);
  }

  lemma LeanStep(s: System, e: Event)
    requires LeanReachable(s) && CanHappen(s, e) && Lean(After(s, e))
    ensures LeanReachable(After(s, e))
  {
    var ss, es :| LeanRun(ss, es) && ss[|es|] == s;
    RunAppend(ss, es, e);
    assert LeanRun(ss + [After(s, e)], es + [e]);
  }

  /** One event at `side`, and what it leaves at either end and on the wires. */
  lemma Do(s: System, side: Side, a: Action) returns (t: System)
    requires LeanReachable(s) && CanHappen(s, Event(side, a))
    requires |s.End(side.Peer()).streams| <= 2 && |Step(s.End(side), a).streams| <= 2
    ensures LeanReachable(t) && t.End(side) == Step(s.End(side), a) && t.End(side.Peer()) == s.End(side.Peer())
    ensures t.Inbound(side) == if a.Receive? then s.Inbound(side)[1..] else s.Inbound(side)
    ensures t.Inbound(side.Peer()) == s.Inbound(side.Peer()) + Written(s.End(side), t.End(side))
  {
    t := After(s, Event(side, a));
    LeanStep(s, Event(side, a));
  }

  // One end, from rest to rest

  /** Three steps of one end, and what they put on the wire. */
  ghost predicate Three(c: Conn, acts: (Action, Action, Action), cs: (Conn, Conn, Conn), out: seq<Frame>) {
    && Enabled(c, acts.0) && cs.0 == Step(c, acts.0)
    && !acts.1.Receive? && Enabled(cs.0, acts.1) && cs.1 == Step(cs.0, acts.1)
    && !acts.2.Receive? && Enabled(cs.1, acts.2) && cs.2 == Step(cs.1, acts.2)
    && |cs.0.streams| <= 2 && |cs.1.streams| <= 2 && |cs.2.streams| <= 2
    && Written(c, cs.0) + Written(cs.0, cs.1) + Written(cs.1, cs.2) == out
  }

  ghost predicate AtRest(c: Conn, side: Side, live: set<uint32>) {
    && c.side == side && c.cause == [] && c.loop == Idle && c.accept == []
    && c.streams.Keys == live && |live| <= 2
    && forall id <- c.streams :: c.streams[id] < |c.heap| && c.heap[c.streams[id]].id == id
  }

  /** The last stream c made is open and has this id. */
  ghost predicate JustOpened(c: Conn, id: uint32) {
    && c.heap != []
    && var st := c.heap[|c.heap| - 1];
       st.id == id && st.stage == Stage.Usable && st.closing == Live
  }

  lemma BeginsOpen(c: Conn, side: Side, live: set<uint32>)
    requires AtRest(c, side, live) && |live + {c.nextID}| <= 2
    ensures var c1 := Step(c, BeginOpen);
      && AtRest(c1, side, live + {c.nextID}) && Written(c, c1) == []
      && c1.opens == c.opens + 1 && c1.nextID == (c.nextID + 2) % 0x1_0000_0000
      && |c1.heap| == |c.heap| + 1
      && c1.heap[|c.heap|].id == c.nextID && c1.heap[|c.heap|].stage == Opening && c1.heap[|c.heap|].closing == Live
  {
  }

  lemma SendsOpen(c: Conn, side: Side, live: set<uint32>)
    requires AtRest(c, side, live) && c.heap != [] && c.heap[|c.heap| - 1].stage == Opening
    requires c.heap[|c.heap| - 1].id != 0 && c.heap[|c.heap| - 1].closing == Live
    ensures var id := c.heap[|c.heap| - 1].id;
      var c1 := Step(c, SendOpen(|c.heap| - 1, Through));
      && AtRest(c1, side, live) && JustOpened(c1, id) && Written(c, c1) == [OpenFrame(id)]
      && c1.opens == c.opens && c1.nextID == c.nextID
  {
  }

  lemma Fewer(live: set<uint32>, id: uint32)
    ensures |live - {id}| <= |live|
  {
    assert live == (live - {id}) + (live * {id});
  }

  lemma OneMore(live: set<uint32>, id: uint32)
    ensures |live| <= |live + {id}| <= |live| + 1
  {
    assert live + {id} - live <= {id};
    assert live + {id} == live + (live + {id} - live);
  }

  /** The peer takes a new stream in, in three steps, */
  function TakenIn(c: Conn, id: uint32): (Conn, Conn, Conn) {
    var o := |c.heap|;
    var c1 := AddStream(c, id, false).(loop := Offering(o), seen := c.seen + [OpenFrame(id)]);
    var c2 := c1.(accept := [o], loop := Idle);
    (c1, c2, SetStream(c2.(accept := []), o, c2.heap[o].(stage := Stage.Usable)))
  }

  lemma TakesIn(c: Conn, side: Side, live: set<uint32>, id: uint32)
    requires AtRest(c, side, live) && id !in live && id != 0 && |live + {id}| <= 2
    ensures Three(c, (Receive(OpenFrame(id)), OfferStream, Accept), TakenIn(c, id), [])
  {
    var cs := TakenIn(c, id);
    assert cs.0 == Step(c, Receive(OpenFrame(id)));
    OfferedIs(cs.0, |c.heap|);
    AcceptedIs(cs.1, |c.heap|);
    assert cs.0.streams.Keys == live + {id};
  }

  lemma RestsTakenIn(c: Conn, side: Side, live: set<uint32>, id: uint32)
    requires AtRest(c, side, live) && id !in live && |live + {id}| <= 2
    ensures AtRest(TakenIn(c, id).2, side, live + {id})
  {
    var c' := TakenIn(c, id).2;
    assert c'.streams.Keys == live + {id};
    assert forall o | 0 <= o < |c.heap| :: c'.heap[o] == c.heap[o];
  }

  lemma AcceptedIs(c: Conn, o: nat)
    requires c.accept == [o] && o < |c.heap|
    ensures Enabled(c, Accept)
    ensures Step(c, Accept) == SetStream(c.(accept := []), o, c.heap[o].(stage := Stage.Usable))
  {
  }

  lemma OfferedIs(c: Conn, o: nat)
    requires c.loop == Offering(o) && o < |c.heap| && c.accept == []
    ensures Enabled(c, OfferStream) && Step(c, OfferStream) == c.(accept := [o], loop := Idle)
  {
  }

  /** and forgets it, in three more. */
  function Forgotten(c: Conn, id: uint32): (Conn, Conn, Conn)
    requires id in c.streams && c.streams[id] < |c.heap|
  {
    var o := c.streams[id];
    var c1 := c.(loop := HangingUp(o), seen := c.seen + [CloseFrame(id)]);
    var c2 := SetStream(c1, o, c.heap[o].(readsClosed := true)).(loop := Unlinking(o));
    (c1, c2, RemoveStream(c2, id).(loop := Idle))
  }

  lemma ForgetsIt(c: Conn, side: Side, live: set<uint32>, id: uint32)
    requires AtRest(c, side, live) && id in live && id != 0
    ensures Three(c, (Receive(CloseFrame(id)), CloseReads, Unlink), Forgotten(c, id), [])
    ensures AtRest(Forgotten(c, id).2, side, live - {id})
  {
    var cs := Forgotten(c, id);
    assert cs.0 == Step(c, Receive(CloseFrame(id)));
    assert cs.1 == Step(cs.0, CloseReads);
    assert cs.2 == Step(cs.1, Unlink);
    Fewer(live, id);
  }

  /** The end that opened it closes it in three, */
  function ClosedDown(c: Conn): (Conn, Conn, Conn)
    requires c.heap != []
  {
    var o := |c.heap| - 1;
    var st := c.heap[o];
    var c1 := SetStream(c, o, st.(closing := Signalled));
    var c2 := SetStream(RemoveStream(c1, st.id), o, st.(closing := Unlisted));
    (c1, c2, SetStream(c2.(sent := c2.sent + [CloseFrame(st.id)]), o, st.(closing := Told)))
  }

  lemma ClosesIt(c: Conn, side: Side, live: set<uint32>, id: uint32)
    requires AtRest(c, side, live) && JustOpened(c, id) && id != 0
    ensures var o := |c.heap| - 1;
      Three(c, (SignalClose(o), UnlistClosed(o), SendClose(o, Through)), ClosedDown(c), [CloseFrame(id)])
  {
    var o := |c.heap| - 1;
    SignalledIs(c, o);
    UnlistedIs(ClosedDown(c).0, o);
    ToldIs(ClosedDown(c).1, o);
    ClosedWrites(c, live, id);
  }

  lemma ClosedWrites(c: Conn, live: set<uint32>, id: uint32)
    requires c.heap != [] && c.heap[|c.heap| - 1].id == id && c.streams.Keys == live
    ensures var cs := ClosedDown(c);
      && Written(c, cs.0) + Written(cs.0, cs.1) + Written(cs.1, cs.2) == [CloseFrame(id)]
      && cs.0.streams == c.streams && cs.1.streams == cs.2.streams && |cs.1.streams| <= |c.streams|
  {
    assert ClosedDown(c).1.streams.Keys == live - {id};
    Fewer(live, id);
  }

  lemma SignalledIs(c: Conn, o: nat)
    requires o < |c.heap| && c.heap[o].stage == Stage.Usable && c.heap[o].closing == Live
    ensures Enabled(c, SignalClose(o))
    ensures Step(c, SignalClose(o)) == SetStream(c, o, c.heap[o].(closing := Signalled))
  {
  }

  lemma UnlistedIs(c: Conn, o: nat)
    requires o < |c.heap| && c.heap[o].stage == Stage.Usable && c.heap[o].closing == Signalled
    ensures Enabled(c, UnlistClosed(o))
    ensures Step(c, UnlistClosed(o)) == SetStream(RemoveStream(c, c.heap[o].id), o, c.heap[o].(closing := Unlisted))
  {
  }

  lemma ToldIs(c: Conn, o: nat)
    requires o < |c.heap| && c.heap[o].stage == Stage.Usable && c.heap[o].closing == Unlisted
    requires c.cause == [] && c.heap[o].id != 0
    ensures Enabled(c, SendClose(o, Through))
    ensures Step(c, SendClose(o, Through)) ==
            SetStream(c.(sent := c.sent + [CloseFrame(c.heap[o].id)]), o, c.heap[o].(closing := Told))
  {
  }

  lemma RestsClosed(c: Conn, side: Side, live: set<uint32>, id: uint32)
    requires AtRest(c, side, live) && JustOpened(c, id)
    ensures var c' := ClosedDown(c).2;
      AtRest(c', side, live - {id}) && c'.opens == c.opens && c'.nextID == c.nextID
  {
    var c' := ClosedDown(c).2;
    Fewer(live, id);
    assert c'.streams == c.streams - {id};
    assert forall o | 0 <= o < |c.heap| :: c'.heap[o].id == c.heap[o].id;
  }

  /** and an Open whose id is 0, which goes out on no OPEN, fails in three. */
  function FailedAtZero(c: Conn): (Conn, Conn, Conn) {
    var o := |c.heap|;
    var c1 := AddStream(c, 0, true).(nextID := 2, opens := c.opens + 1);
    var c2 := SetStream(c1, o, c1.heap[o].(stage := Aborting));
    (c1, c2, SetStream(RemoveStream(c2, 0), o, c2.heap[o].(stage := Discarded)))
  }

  lemma FailsAtZero(c: Conn, side: Side, live: set<uint32>)
    requires AtRest(c, side, live) && |live| <= 1 && c.nextID == 0
    ensures Three(c, (BeginOpen, SendOpen(|c.heap|, Through), AbortOpen(|c.heap|)), FailedAtZero(c), [])
  {
    var cs, o := FailedAtZero(c), |c.heap|;
    assert cs.0 == Step(c, BeginOpen);
    assert cs.1 == Step(cs.0, SendOpen(o, Through));
    assert cs.2 == Step(cs.1, AbortOpen(o));
    assert cs.0.streams.Keys == live + {0};
    OneMore(live, 0);
    Fewer(live + {0}, 0);
    assert cs.2.streams.Keys == live + {0} - {0};
  }

  lemma RestsFailed(c: Conn, side: Side, live: set<uint32>)
    requires AtRest(c, side, live) && 0 !in live
    ensures var c' := FailedAtZero(c).2; AtRest(c', side, live) && c'.opens == c.opens + 1 && c'.nextID == 2
  {
    var c' := FailedAtZero(c).2;
    assert c'.streams == c.streams;
    assert forall o | 0 <= o < |c.heap| :: c'.heap[o] == c.heap[o];
  }

  // Both ends

  /** Both ends rest with the same streams in their tables and nothing on the wires. */
  ghost predicate Quiet(s: System, side: Side, k: nat, live: set<uint32>) {
    && LeanReachable(s) && Counts(s.End(side), side, k, live) && AtRest(s.End(side.Peer()), side.Peer(), live)
    && s.Inbound(side) == [] && s.Inbound(side.Peer()) == []
  }

  ghost predicate Counts(c: Conn, side: Side, k: nat, live: set<uint32>) {
    AtRest(c, side, live) && c.opens == k && c.nextID == IdAt(side, k)
  }

  lemma DoThree(s: System, side: Side, acts: (Action, Action, Action), cs: (Conn, Conn, Conn), out: seq<Frame>)
    returns (t: System)
    requires LeanReachable(s) && Three(s.End(side), acts, cs, out) && |s.End(side.Peer()).streams| <= 2
    requires acts.0.Receive? ==> s.Inbound(side) == [acts.0.f]
    ensures LeanReachable(t) && t.End(side) == cs.2 && t.End(side.Peer()) == s.End(side.Peer())
    ensures t.Inbound(side) == if acts.0.Receive? then [] else s.Inbound(side)
    ensures t.Inbound(side.Peer()) == s.Inbound(side.Peer()) + out
  {
    var s1 := Do(s, side, acts.0);
    var s2 := Do(s1, side, acts.1);
    t := Do(s2, side, acts.2);
    Regroup(s.Inbound(side.Peer()), Written(s.End(side), cs.0), Written(cs.0, cs.1), Written(cs.1, cs.2));
  }

  lemma Regroup(w: seq<Frame>, w0: seq<Frame>, w1: seq<Frame>, w2: seq<Frame>)
    ensures w + w0 + w1 + w2 == w + (w0 + w1 + w2)
  {
  }

  lemma BeginNext(s: System, side: Side, k: nat, live: set<uint32>, both: set<uint32>) returns (t: System)
    requires Quiet(s, side, k, live) && both == live + {IdAt(side, k)} && |both| <= 2
    ensures LeanReachable(t) && Counts(t.End(side), side, k + 1, both) && t.End(side.Peer()) == s.End(side.Peer())
    ensures t.Inbound(side) == t.Inbound(side.Peer()) == []
    ensures var heap := t.End(side).heap;
      heap != [] && var st := heap[|heap| - 1]; st.id == IdAt(side, k) && st.stage == Opening && st.closing == Live
  {
    IdAtOwned(side, k);
    BeginsOpen(s.End(side), side, live);
    t := Do(s, side, BeginOpen);
  }

  lemma OpenNext(s: System, side: Side, k: nat, live: set<uint32>, both: set<uint32>) returns (t: System)
    requires Quiet(s, side, k, live) && both == live + {IdAt(side, k)} && |both| <= 2 && IdAt(side, k) != 0
    ensures var id := IdAt(side, k);
      && LeanReachable(t) && Counts(t.End(side), side, k + 1, both) && JustOpened(t.End(side), id)
      && t.End(side.Peer()) == s.End(side.Peer())
      && t.Inbound(side) == [] && t.Inbound(side.Peer()) == [OpenFrame(id)]
  {
    var s1 := BeginNext(s, side, k, live, both);
    t := SendNext(s1, side, both);
  }

  lemma SendNext(s: System, side: Side, both: set<uint32>) returns (t: System)
    requires LeanReachable(s) && AtRest(s.End(side), side, both) && |s.End(side.Peer()).streams| <= 2
    requires s.Inbound(side) == s.Inbound(side.Peer()) == []
    requires var heap := s.End(side).heap;
      heap != [] && var st := heap[|heap| - 1]; st.id != 0 && st.stage == Opening && st.closing == Live
    ensures var c := s.End(side);
      var id := c.heap[|c.heap| - 1].id;
      && LeanReachable(t) && AtRest(t.End(side), side, both) && JustOpened(t.End(side), id)
      && t.End(side).opens == c.opens && t.End(side).nextID == c.nextID
      && t.End(side.Peer()) == s.End(side.Peer())
      && t.Inbound(side) == [] && t.Inbound(side.Peer()) == [OpenFrame(id)]
  {
    var c := s.End(side);
    SendsOpen(c, side, both);
    var send := SendOpen(|c.heap| - 1, Through);
    assert Enabled(c, send);
    t := Do(s, side, send);
  }

  lemma TakeIn(s: System, side: Side, k: nat, live: set<uint32>, id: uint32, both: set<uint32>) returns (t: System)
    requires both == live + {id} && LeanReachable(s)
    requires Counts(s.End(side), side, k, both) && JustOpened(s.End(side), id)
    requires AtRest(s.End(side.Peer()), side.Peer(), live) && id !in live && id != 0
    requires s.Inbound(side) == [] && s.Inbound(side.Peer()) == [OpenFrame(id)]
    ensures Quiet(t, side, k, both) && JustOpened(t.End(side), id)
  {
    var cs := TakenIn(s.End(side.Peer()), id);
    TakesIn(s.End(side.Peer()), side.Peer(), live, id);
    RestsTakenIn(s.End(side.Peer()), side.Peer(), live, id);
    t := DoThree(s, side.Peer(), (Receive(OpenFrame(id)), OfferStream, Accept), cs, []);
  }

  lemma CloseIt(s: System, side: Side, k: nat, live: set<uint32>, id: uint32, left: set<uint32>) returns (t: System)
    requires left == live - {id} && Quiet(s, side, k, live) && JustOpened(s.End(side), id) && id != 0
    ensures LeanReachable(t) && Counts(t.End(side), side, k, left) && t.End(side.Peer()) == s.End(side.Peer())
    ensures t.Inbound(side) == [] && t.Inbound(side.Peer()) == [CloseFrame(id)]
  {
    var o := |s.End(side).heap| - 1;
    var cs := ClosedDown(s.End(side));
    ClosesIt(s.End(side), side, live, id);
    RestsClosed(s.End(side), side, live, id);
    t := DoThree(s, side, (SignalClose(o), UnlistClosed(o), SendClose(o, Through)), cs, [CloseFrame(id)]);
  }

  lemma ForgetIt(s: System, side: Side, k: nat, live: set<uint32>, id: uint32, left: set<uint32>) returns (t: System)
    requires left == live - {id} && LeanReachable(s) && Counts(s.End(side), side, k, left)
    requires AtRest(s.End(side.Peer()), side.Peer(), live) && id in live && id != 0
    requires s.Inbound(side) == [] && s.Inbound(side.Peer()) == [CloseFrame(id)]
    ensures Quiet(t, side, k, left)
  {
    var cs := Forgotten(s.End(side.Peer()), id);
    ForgetsIt(s.End(side.Peer()), side.Peer(), live, id);
    t := DoThree(s, side.Peer(), (Receive(CloseFrame(id)), CloseReads, Unlink), cs, []);
  }

  lemma AfterZero(side: Side, k: nat)
    requires IdAt(side, k) == 0
    ensures IdAt(side, k + 1) == 2
  {
    IdAtOwned(side, k);
  }

  lemma SkipZero(s: System, side: Side, k: nat, live: set<uint32>) returns (t: System)
    requires Quiet(s, side, k, live) && |live| <= 1 && 0 !in live && IdAt(side, k) == 0
    ensures Quiet(t, side, k + 1, live)
  {
    var o := |s.End(side).heap|;
    AfterZero(side, k);
    var cs := FailedAtZero(s.End(side));
    FailsAtZero(s.End(side), side, live);
    RestsFailed(s.End(side), side, live);
    t := DoThree(s, side, (BeginOpen, SendOpen(o, Through), AbortOpen(o)), cs, []);
  }

  // Up to the last id, and one further

  /** After k Opens nothing but the first stream is live. */
  ghost predicate OneLeft(side: Side, k: nat) {
    exists s :: Quiet(s, side, k, {side.First()})
  }

  lemma StartsQuiet(side: Side)
    ensures Quiet(Start(), side, 0, {})
  {
    LeanStart();
  }

  lemma FirstStream(side: Side)
    ensures OneLeft(side, 1)
  {
    StartsQuiet(side);
    var s := OpenUp(Start(), side, 0, {}, side.First(), {side.First()});
    assert Quiet(s, side, 1, {side.First()});
  }

  lemma OpenUp(s: System, side: Side, k: nat, live: set<uint32>, id: uint32, both: set<uint32>) returns (t: System)
    requires Quiet(s, side, k, live) && id == IdAt(side, k) && id !in live && id != 0
    requires both == live + {id} && |both| <= 2
    ensures Quiet(t, side, k + 1, both) && JustOpened(t.End(side), id)
  {
    var s1 := OpenNext(s, side, k, live, both);
    t := TakeIn(s1, side, k + 1, live, id, both);
  }

  lemma ShutDown(s: System, side: Side, k: nat, both: set<uint32>, id: uint32, live: set<uint32>) returns (t: System)
    requires Quiet(s, side, k, both) && JustOpened(s.End(side), id) && id in both && id != 0 && live == both - {id}
    ensures Quiet(t, side, k, live)
  {
    var s1 := CloseIt(s, side, k, both, id, live);
    t := ForgetIt(s1, side, k, both, id, live);
  }

  /** One more stream is opened, taken in, closed and forgotten; */
  lemma OpenAndClose(s: System, side: Side, k: nat, live: set<uint32>, id: uint32) returns (t: System)
    requires Quiet(s, side, k, live) && |live| <= 1 && id == IdAt(side, k) && id !in live && id != 0
    ensures Quiet(t, side, k + 1, live)
  {
    var both := live + {id};
    OneMore(live, id);
    assert both - {id} == live;
    var s1 := OpenUp(s, side, k, live, id, both);
    t := ShutDown(s1, side, k + 1, both, id, live);
  }

  /** or its Open fails because its id would be 0. */
  lemma Cycle(s: System, side: Side, k: nat) returns (t: System)
    requires Quiet(s, side, k, {side.First()}) && 1 <= k < ID_SPACE
    ensures Quiet(t, side, k + 1, {side.First()})
  {
    var live, id := {side.First()}, IdAt(side, k);
    NewId(side, k);
    if id == 0 {
      t := SkipZero(s, side, k, live);
    } else {
      t := OpenAndClose(s, side, k, live, id);
    }
  }

  lemma NewId(side: Side, k: nat)
    requires 1 <= k < ID_SPACE
    ensures IdAt(side, k) !in {side.First()} && 0 !in {side.First()}
  {
    IdAtInjective(side, 0, k);
  }

  lemma CycleOn(side: Side, k: nat)
    requires OneLeft(side, k) && 1 <= k < ID_SPACE
    ensures OneLeft(side, k + 1)
  {
    var s :| Quiet(s, side, k, {side.First()});
    var t := Cycle(s, side, k);
  }

  lemma Cycles(side: Side, n: nat)
    requires n == ID_SPACE
    ensures OneLeft(side, n)
  {
    FirstStream(side);
    EachCycle(side, n);
    Upwards((k: nat) => OneLeft(side, k), 1, n, n);
  }

  lemma EachCycle(side: Side, n: nat)
    requires n == ID_SPACE
    ensures forall k: nat | 1 <= k < n && OneLeft(side, k) :: OneLeft(side, k + 1)
  {
    forall k: nat | 1 <= k < n && OneLeft(side, k) ensures OneLeft(side, k + 1) {
      CycleOn(side, k);
    }
  }

  lemma IdsWrap(side: Side)
    ensures IdAt(side, ID_SPACE) == side.First()
    ensures IdAt(TunnelSide, ID_SPACE - 1) == 0
  {
  }

  /** Ids come round again after 2^31 Opens, and the very next one can then reopen a
      stream that is still live: the bound of ReachableInv is exact on both sides.
      It takes no more than two streams at a time, each but the first closed by both
      ends before the next is opened. The tunnel client's last id before that is 0,
      which no OPEN may name. */
  lemma ReopenAfterWrap(side: Side) returns (s: System)
    ensures LeanReachable(s) && Reachable(s)
    ensures s.End(side).opens == ID_SPACE + 1
    ensures s.End(side.Peer()).cause == [Reopened(side.First())]
  {
    var n :| n == ID_SPACE;
    Cycles(side, n);
    var s0 :| Quiet(s0, side, n, {side.First()});
    s := OneOpenMore(s0, side, n);
  }

  lemma OneOpenMore(s: System, side: Side, n: nat) returns (t: System)
    requires Quiet(s, side, n, {side.First()}) && n == ID_SPACE
    ensures LeanReachable(t) && Reachable(t) && t.End(side).opens == n + 1
    ensures t.End(side.Peer()).cause == [Reopened(side.First())]
  {
    var first := side.First();
    IdsWrap(side);
    var s1 := OpenNext(s, side, n, {first}, {first});
    t := Reopen(s1, side.Peer(), {first}, first);
  }

  lemma Reopen(s: System, side: Side, live: set<uint32>, id: uint32) returns (t: System)
    requires LeanReachable(s) && AtRest(s.End(side), side, live) && id in live && id != 0
    requires |s.End(side.Peer()).streams| <= 2 && s.Inbound(side) == [OpenFrame(id)]
    ensures LeanReachable(t) && Reachable(t) && t.End(side.Peer()) == s.End(side.Peer())
    ensures t.End(side).cause == [Reopened(id)]
  {
    ReopensAt(s.End(side), side, live, id);
    t := Do(s, side, Receive(OpenFrame(id)));
    LeanIsReachable(t);
  }

  lemma ReopensAt(c: Conn, side: Side, live: set<uint32>, id: uint32)
    requires AtRest(c, side, live) && id in live && id != 0
    ensures var c1 := Step(c, Receive(OpenFrame(id)));
      c1.cause == [Reopened(id)] && c1.streams == c.streams
  {
  }
}
