/** Control traffic dies out: answering frames never feeds itself. */
module MuxTraffic {
  import opened Frames
  import opened Mux
  import opened MuxSystem

  /** OPEN, DATA and PING may each call for one answer; the other types never do. */
  predicate MayBeAnswered(f: Frame) {
    f.ty == OPEN || f.ty == DATA || f.ty == PING
  }

  function Traffic(fs: seq<Frame>): nat {
    if fs == [] then 0
    else Traffic(fs[..|fs| - 1]) + if MayBeAnswered(fs[|fs| - 1]) then 2 else 1
  }

  lemma {:induction false} TrafficConcat(fs: seq<Frame>, gs: seq<Frame>)
    ensures Traffic(fs + gs) == Traffic(fs) + Traffic(gs)
  {
    if gs == [] {
      assert fs + gs == fs;
    } else {
      var n := |gs| - 1;
      TrafficConcat(fs, gs[..n]);
      assert (fs + gs)[..|fs + gs| - 1] == fs + gs[..n];
    }
  }

  lemma TrafficFront(fs: seq<Frame>)
    requires fs != []
    ensures Traffic(fs) == Traffic(fs[1..]) + if MayBeAnswered(fs[0]) then 2 else 1
  {
    TrafficConcat([fs[0]], fs[1..]);
    assert [fs[0]] + fs[1..] == fs && [fs[0]][..0] == [];
  }

  /** The work a half-handled frame still stands for, in quarters of a frame. */
  function LoopWork(loop: Loop): nat {
    match loop
    case Offering(_) => 7
    case Refusing(_) => 6
    case Replying(f) => if MayBeAnswered(f) then 9 else 5
    case Delivering(_, _) => 1
    case HangingUp(_) => 2
    case Unlinking(_) => 1
    case _ => 0
  }

  function Work(s: System): nat {
    4 * (Traffic(s.down) + Traffic(s.up)) + LoopWork(s.relay.loop) + LoopWork(s.tunnel.loop)
  }

  lemma EndWork(c: Conn, a: Action)
    requires Enabled(c, a) && a.ByReadLoop()
    ensures var c' := Step(c, a);
      4 * Traffic(Written(c, c')) + LoopWork(c'.loop) <
      LoopWork(c.loop) + if !a.Receive? then 0 else if MayBeAnswered(a.f) then 8 else 4
  {
    var w := Written(c, Step(c, a));
    if a.Reply? && w != [] {
      assert w == [c.loop.f] && w[..0] == [];
    }
  }

  lemma WorkStep(s: System, e: Event)
    requires CanHappen(s, e) && e.action.ByReadLoop()
    ensures Work(After(s, e)) < Work(s)
  {
    var c := s.End(e.side);
    var w := Written(c, Step(c, e.action));
    EndWork(c, e.action);
    TrafficConcat(s.down, w);
    TrafficConcat(s.up, w);
    if e.action.Receive? {
      TrafficFront(s.Inbound(e.side));
    }
  }

  /** From any state of two ends whatsoever, the read loops alone take no more
      steps than the work in sight. */
  lemma {:induction false} TrafficDiesOut(ss: seq<System>, es: seq<Event>)
    requires |ss| == |es| + 1
    requires forall i | 0 <= i < |es| ::
      CanHappen(ss[i], es[i]) && es[i].action.ByReadLoop() && ss[i + 1] == After(ss[i], es[i])
    ensures |es| + Work(ss[|es|]) <= Work(ss[0])
  {
    if es != [] {
      var n := |es| - 1;
      TrafficDiesOut(ss[..n + 1], es[..n]);
      assert ss[..n + 1][n] == ss[n];
      WorkStep(ss[n], es[n]);
    }
  }

  /** Between two moments when both loops rest, the weighted count of frames on the
      two wires strictly falls. */
  lemma TrafficFalls(ss: seq<System>, es: seq<Event>)
    requires |ss| == |es| + 1 && es != []
    requires forall i | 0 <= i < |es| ::
      CanHappen(ss[i], es[i]) && es[i].action.ByReadLoop() && ss[i + 1] == After(ss[i], es[i])
    requires ss[0].relay.loop == Idle && ss[0].tunnel.loop == Idle
    ensures var s, t := ss[0], ss[|es|];
      Traffic(t.down) + Traffic(t.up) < Traffic(s.down) + Traffic(s.up)
  {
    TrafficDiesOut(ss, es);
  }
}
