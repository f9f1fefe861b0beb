/** From one application to the other: what Read returns at one end is what Write
    was given at the other, whatever the two ends do between two chunks of a Write. */
module MuxWrites {
  import opened Frames
  import opened Mux
  import opened MuxSafety
  import opened MuxHonest
  import opened MuxSystem
  import opened Induction

  /** This step is a Write putting a chunk for stream object o on the wire, no
      CLOSE for that stream having gone before. */
  ghost predicate Crosses(c: Conn, a: Action, o: nat) {
    && Enabled(c, a) && a.WriteChunk? && a.o == o
    && Step(c, a).sent != c.sent && !Closes(c.heap[o].id, c.sent)
  }

  /** The chunks the application at `side` got across on stream object o, in the
      order of the run. Everything else that happens may come in between. */
  ghost function ChunkLog(ss: seq<System>, es: seq<Event>, side: Side, o: nat, n: nat): seq<Bytes>
    requires n <= |es| < |ss|
  {
    if n == 0 then []
    else
      ChunkLog(ss, es, side, o, n - 1) +
      if es[n - 1].side == side && Crosses(ss[n - 1].End(side), es[n - 1].action, o)
      then [es[n - 1].action.chunk] else []
  }

  // Only Write sends DATA

  /** What one step of one end adds to the bytes framed for `id`. */
  lemma BodyStep(c: Conn, a: Action, id: uint32)
    requires Enabled(c, a) && LoopOk(c.heap, c.accept, c.loop)
    ensures Body(id, Step(c, a).sent) ==
            Body(id, c.sent) + if a.WriteChunk? && c.heap[a.o].id == id && Crosses(c, a, a.o) then a.chunk else []
  {
    if a.WriteChunk? {
      BodySnoc(id, c.sent, DataFrame(c.heap[a.o].id, a.chunk));
    } else {
      NoData(c, a);
      var sent := Step(c, a).sent;
      if sent != c.sent {
        assert sent == c.sent + [sent[|c.sent|]];
        BodySnoc(id, c.sent, sent[|c.sent|]);
      }
    }
  }

  lemma NoData(c: Conn, a: Action)
    requires Enabled(c, a) && LoopOk(c.heap, c.accept, c.loop) && !a.WriteChunk?
    ensures var sent := Step(c, a).sent;
      sent == c.sent || (|sent| == |c.sent| + 1 && sent[..|c.sent|] == c.sent && sent[|c.sent|].ty != DATA)
  {
    assert forall f :: (c.sent + [f])[..|c.sent|] == c.sent;
  }

  // Stream objects keep their ids

  lemma {:induction false} IdsKept(ss: seq<System>, es: seq<Event>, side: Side, m: nat, n: nat)
    requires SystemRun(ss, es) && m <= n <= |es|
    ensures |ss[m].End(side).heap| <= |ss[n].End(side).heap|
    ensures forall o | 0 <= o < |ss[m].End(side).heap| :: ss[m].End(side).heap[o].id == ss[n].End(side).heap[o].id
    decreases n
  {
    if m < n {
      IdsKept(ss, es, side, m, n - 1);
      RunStep(ss, es, n - 1);
      if es[n - 1].side == side {
        StepEvolves(ss[n - 1].End(side), es[n - 1].action);
      }
    }
  }

  lemma {:induction false} IdsLastSooner(ss: seq<System>, es: seq<Event>, m: nat, n: nat)
    requires SystemRun(ss, es) && m <= n <= |es| && IdsLast(ss[n])
    ensures IdsLast(ss[m])
    decreases n
  {
    if m < n {
      RunStep(ss, es, n - 1);
      IdsLastBefore(ss[n - 1], es[n - 1]);
      IdsLastSooner(ss, es, m, n - 1);
    }
  }

  lemma EndInv(ss: seq<System>, es: seq<Event>, side: Side, m: nat, n: nat)
    requires SystemRun(ss, es) && m <= n <= |es| && IdsLast(ss[n])
    ensures EndOk(ss[m].End(side))
  {
    IdsLastSooner(ss, es, m, n);
    InvAlong(ss, es, m);
  }

  lemma FlattenSnoc(bs: seq<Bytes>, b: Bytes)
    ensures Flatten(bs + [b]) == Flatten(bs) + b
  {
    assert (bs + [b])[..|bs|] == bs;
  }

  /** What event m contributes to the chunks of o. */
  ghost function Crossed(ss: seq<System>, es: seq<Event>, side: Side, o: nat, m: nat): Bytes
    requires m < |es| < |ss|
  {
    if es[m].side == side && Crosses(ss[m].End(side), es[m].action, o) then es[m].action.chunk else []
  }

  lemma LogStep(ss: seq<System>, es: seq<Event>, side: Side, o: nat, m: nat)
    requires m < |es| < |ss|
    ensures Flatten(ChunkLog(ss, es, side, o, m + 1)) ==
            Flatten(ChunkLog(ss, es, side, o, m)) + Crossed(ss, es, side, o, m)
  {
    if es[m].side == side && Crosses(ss[m].End(side), es[m].action, o) {
      FlattenSnoc(ChunkLog(ss, es, side, o, m), es[m].action.chunk);
    } else {
      assert ChunkLog(ss, es, side, o, m + 1) == ChunkLog(ss, es, side, o, m);
    }
  }

  lemma FramedStep(ss: seq<System>, es: seq<Event>, side: Side, o: nat, m: nat, n: nat)
    requires SystemRun(ss, es) && m < n <= |es| && IdsLast(ss[n]) && o < |ss[n].End(side).heap|
    ensures var id := ss[n].End(side).heap[o].id;
      Body(id, ss[m + 1].End(side).sent) == Body(id, ss[m].End(side).sent) + Crossed(ss, es, side, o, m)
  {
    RunStep(ss, es, m);
    if es[m].side == side {
      EndInv(ss, es, side, m, n);
      EndInv(ss, es, side, n, n);
      IdsKept(ss, es, side, m, n);
      ChunkAdds(ss[m].End(side), es[m].action, ss[n].End(side), o);
    }
  }

  ghost predicate FramedAt(ss: seq<System>, es: seq<Event>, side: Side, o: nat, id: uint32, m: nat)
    requires m <= |es| < |ss|
  {
    Body(id, ss[m].End(side).sent) == Flatten(ChunkLog(ss, es, side, o, m))
  }

  lemma FramedNext(ss: seq<System>, es: seq<Event>, side: Side, o: nat, id: uint32, m: nat, n: nat)
    requires SystemRun(ss, es) && m < n <= |es| && IdsLast(ss[n])
    requires o < |ss[n].End(side).heap| && ss[n].End(side).heap[o].id == id
    requires FramedAt(ss, es, side, o, id, m)
    ensures FramedAt(ss, es, side, o, id, m + 1)
  {
    FramedStep(ss, es, side, o, m, n);
    LogStep(ss, es, side, o, m);
  }

  /** Over every run, the bytes framed for a stream before its first CLOSE are the
      chunks the application got across on it, in order. */
  lemma FramedIsWritten(ss: seq<System>, es: seq<Event>, side: Side, o: nat, n: nat)
    requires SystemRun(ss, es) && n <= |es| && IdsLast(ss[n]) && o < |ss[n].End(side).heap|
    ensures FramedAt(ss, es, side, o, ss[n].End(side).heap[o].id, n)
  {
    var id := ss[n].End(side).heap[o].id;
    assert ss[0].End(side).sent == [];
    forall k: nat | 0 <= k < n && FramedAt(ss, es, side, o, id, k) ensures FramedAt(ss, es, side, o, id, k + 1) {
      FramedNext(ss, es, side, o, id, k, n);
    }
    Upwards((k: nat) => k <= n && FramedAt(ss, es, side, o, id, k), 0, n, n);
  }

  lemma ChunkAdds(c: Conn, a: Action, later: Conn, o: nat)
    requires Enabled(c, a) && Safe(c) && Ids(later) && o < |later.heap| && |c.heap| <= |later.heap|
    requires forall i | 0 <= i < |c.heap| :: c.heap[i].id == later.heap[i].id
    ensures Body(later.heap[o].id, Step(c, a).sent) ==
            Body(later.heap[o].id, c.sent) + if Crosses(c, a, o) then a.chunk else []
  {
    BodyStep(c, a, later.heap[o].id);
  }

  // A stream has an object at both ends

  ghost predicate Knows(c: Conn, id: uint32) {
    exists o | 0 <= o < |c.heap| :: c.heap[o].id == id
  }

  lemma KnowsStep(c: Conn, a: Action)
    requires Enabled(c, a) && TableOk(c.heap, c.streams, c.loop)
    requires forall f <- c.seen | f.ty == OPEN :: Knows(c, f.id)
    ensures forall f <- Step(c, a).seen | f.ty == OPEN :: Knows(Step(c, a), f.id)
  {
    var c' := Step(c, a);
    StepEvolves(c, a);
    forall id | Knows(c, id) ensures Knows(c', id) {
      var o :| 0 <= o < |c.heap| && c.heap[o].id == id;
      assert c'.heap[o].id == id;
    }
    if a.Receive? && a.f.ty == OPEN {
      if a.f.id in c.streams {
        assert c.heap[c.streams[a.f.id]].id == a.f.id;
      } else {
        assert c'.heap[|c.heap|].id == a.f.id;
      }
    } else {
      assert forall f <- c'.seen | f.ty == OPEN :: f in c.seen;
    }
  }

  ghost predicate KnownAt(ss: seq<System>, side: Side, k: nat) {
    k < |ss| && forall f <- ss[k].End(side).seen | f.ty == OPEN :: Knows(ss[k].End(side), f.id)
  }

  lemma KnownNext(ss: seq<System>, es: seq<Event>, side: Side, k: nat, n: nat)
    requires SystemRun(ss, es) && k < n <= |es| && IdsLast(ss[n]) && KnownAt(ss, side, k)
    ensures KnownAt(ss, side, k + 1)
  {
    RunStep(ss, es, k);
    if es[k].side == side {
      EndInv(ss, es, side, k, n);
      KnowsStep(ss[k].End(side), es[k].action);
    }
  }

  lemma SeenKnown(ss: seq<System>, es: seq<Event>, side: Side, n: nat)
    requires SystemRun(ss, es) && n <= |es| && IdsLast(ss[n])
    ensures KnownAt(ss, side, n)
  {
    assert ss[0].End(side).seen == [];
    forall k: nat | 0 <= k < n && KnownAt(ss, side, k) ensures KnownAt(ss, side, k + 1) {
      KnownNext(ss, es, side, k, n);
    }
    Upwards((k: nat) => KnownAt(ss, side, k), 0, n, n);
  }

  /** A stream that one end has seen closed has an object at the other end. */
  lemma PeerObject(ss: seq<System>, es: seq<Event>, side: Side, id: uint32) returns (w: nat)
    requires SystemRun(ss, es) && IdsLast(ss[|es|]) && Closes(id, ss[|es|].End(side).seen)
    ensures var peer := ss[|es|].End(side.Peer()); w < |peer.heap| && peer.heap[w].id == id
  {
    var s := ss[|es|];
    var c, peer := s.End(side), s.End(side.Peer());
    InvAlong(ss, es, |es|);
    SeenKnown(ss, es, side.Peer(), |es|);
    assert peer.sent == c.seen + s.Inbound(side);
    var k :| 0 <= k < |c.seen| && c.seen[k].ty == CLOSE && c.seen[k].id == id;
    assert peer.sent[k] == c.seen[k];
    w := NamedObject(peer, k);
  }

  lemma NamedObject(peer: Conn, k: nat) returns (w: nat)
    requires SentOk(peer) && k < |peer.sent| && peer.sent[k].ty == CLOSE
    requires forall f <- peer.seen | f.ty == OPEN :: Knows(peer, f.id)
    ensures w < |peer.heap| && peer.heap[w].id == peer.sent[k].id
  {
    var id := peer.sent[k].id;
    assert GoodOutput(peer, peer.sent[k], peer.sent[..k]);
    if peer.side.Owns(id) {
      var j :| 0 <= j < k && peer.sent[..k][j].ty == OPEN && peer.sent[..k][j].id == id;
      assert peer.sent[j] == peer.sent[..k][j];
      assert GoodOutput(peer, peer.sent[j], peer.sent[..j]);
      w :| w < |peer.heap| && peer.heap[w].id == id;
    } else {
      var f :| f in peer.seen && f.ty == OPEN && f.id == id;
      w :| w < |peer.heap| && peer.heap[w].id == id;
    }
  }

  // Reading what was written

  /** At the closed-reads EOF the reader has exactly the chunks that the peer's
      application got across before its Close, if and only if deliver gave nothing
      up; and while the reader's connection is up it gave nothing up. */
  lemma ReadIsWritten(ss: seq<System>, es: seq<Event>, side: Side, o: nat) returns (w: nat)
    requires SystemRun(ss, es) && IdsLast(ss[|es|])
    requires o < |ss[|es|].End(side).heap| && AtClosedReads(ss[|es|].End(side).heap[o])
    ensures var c, peer := ss[|es|].End(side), ss[|es|].End(side.Peer());
      && w < |peer.heap| && peer.heap[w].id == c.heap[o].id
      && (c.heap[o].returned == Flatten(ChunkLog(ss, es, side.Peer(), w, |es|)) <==> Lost(c.heap[o].handled) == 0)
      && (!c.Closed() ==> Lost(c.heap[o].handled) == 0)
  {
    var s := ss[|es|];
    var st := s.End(side).heap[o];
    assert Reachable(s);
    Completeness(s, side, o);
    EndInv(ss, es, side, |es|, |es|);
    assert ConservedAt(s.End(side), o);
    w := PeerObject(ss, es, side, st.id);
    FramedIsWritten(ss, es, side.Peer(), w, |es|);
  }

  /** At any moment before either end of the reader's side closes, it has returned
      some first part of what the peer's application got across. */
  lemma ReadIsPrefix(ss: seq<System>, es: seq<Event>, side: Side, o: nat, w: nat)
    requires SystemRun(ss, es) && IdsLast(ss[|es|])
    requires var c, peer := ss[|es|].End(side), ss[|es|].End(side.Peer());
      && o < |c.heap| && Tracked(c.heap[o]) && !c.Closed()
      && w < |peer.heap| && peer.heap[w].id == c.heap[o].id
    ensures ss[|es|].End(side).heap[o].returned <= Flatten(ChunkLog(ss, es, side.Peer(), w, |es|))
  {
    assert Reachable(ss[|es|]);
    Conservation(ss[|es|], side, o);
    FramedIsWritten(ss, es, side.Peer(), w, |es|);
  }

  // Whole Writes

  /** The chunks Write cuts its bytes into. */
  function Chunking(p: Bytes): seq<Bytes> {
    if p == [] then []
    else
      var n := Min(|p|, MAX_PAYLOAD);
      [p[..n]] + Chunking(p[n..])
  }

  /** The chunks of several Writes, one after the other. */
  function Chunkings(ps: seq<Bytes>): seq<Bytes> {
    if ps == [] then [] else Chunkings(ps[..|ps| - 1]) + Chunking(ps[|ps| - 1])
  }

  lemma {:induction false} FlattenConcat(xs: seq<Bytes>, ys: seq<Bytes>)
    ensures Flatten(xs + ys) == Flatten(xs) + Flatten(ys)
  {
    if ys == [] {
      assert xs + ys == xs;
    } else {
      FlattenConcat(xs, ys[..|ys| - 1]);
      assert (xs + ys)[..|xs + ys| - 1] == xs + ys[..|ys| - 1];
    }
  }

  lemma FlattenOne(b: Bytes)
    ensures Flatten([b]) == b
  {
    FlattenSnoc([], b);
    assert [] + [b] == [b];
  }

  lemma {:induction false} FlattenChunking(p: Bytes)
    ensures Flatten(Chunking(p)) == p
  {
    if p != [] {
      var first, rest := p[..Min(|p|, MAX_PAYLOAD)], p[Min(|p|, MAX_PAYLOAD)..];
      FlattenChunking(rest);
      FlattenConcat([first], Chunking(rest));
      FlattenOne(first);
      assert first + rest == p;
    }
  }

  /** No chunk is empty or too long for a frame, and none but the last is shorter than
      a frame allows. */
  lemma {:induction false} ChunksFit(p: Bytes)
    ensures forall i | 0 <= i < |Chunking(p)| :: 0 < |Chunking(p)[i]| <= 65536
    ensures forall i | 0 <= i < |Chunking(p)| - 1 :: |Chunking(p)[i]| == 65536
  {
    if p != [] {
      ChunksFit(p[Min(|p|, MAX_PAYLOAD)..]);
    }
  }

  lemma {:induction false} FlattenChunkings(ps: seq<Bytes>)
    ensures Flatten(Chunkings(ps)) == Flatten(ps)
  {
    if ps != [] {
      var n := |ps| - 1;
      FlattenChunkings(ps[..n]);
      FlattenChunking(ps[n]);
      FlattenConcat(Chunkings(ps[..n]), Chunking(ps[n]));
    }
  }

  /** An application writes ps, one Write after another, with anything at all
      happening between two chunks. At EOF the other application has read a first
      part of exactly those bytes, in reads of any sizes, and all of them if every
      chunk got across, unless its own end went down first. */
  lemma WritesAreRead(ss: seq<System>, es: seq<Event>, side: Side, o: nat, w: nat, ps: seq<Bytes>)
    requires SystemRun(ss, es) && IdsLast(ss[|es|])
    requires var c, peer := ss[|es|].End(side), ss[|es|].End(side.Peer());
      && o < |c.heap| && AtClosedReads(c.heap[o]) && !c.Closed()
      && w < |peer.heap| && peer.heap[w].id == c.heap[o].id
    requires ChunkLog(ss, es, side.Peer(), w, |es|) <= Chunkings(ps)
    ensures var log, returned := ChunkLog(ss, es, side.Peer(), w, |es|), ss[|es|].End(side).heap[o].returned;
      returned <= Flatten(ps) && (log == Chunkings(ps) ==> returned == Flatten(ps))
  {
    var v := ReadIsWritten(ss, es, side, o);
    EndInv(ss, es, side.Peer(), |es|, |es|);
    OneObject(ss[|es|].End(side.Peer()), v, w);
    FlattenChunkings(ps);
    FlattenPrefix(ChunkLog(ss, es, side.Peer(), w, |es|), Chunkings(ps));
  }

  lemma OneObject(c: Conn, v: nat, w: nat)
    requires Ids(c) && v < |c.heap| && w < |c.heap| && c.heap[v].id == c.heap[w].id
    ensures v == w
  {
  }

  lemma FlattenPrefix(xs: seq<Bytes>, ys: seq<Bytes>)
    requires xs <= ys
    ensures Flatten(xs) <= Flatten(ys)
  {
    assert ys == xs + ys[|xs|..];
    FlattenConcat(xs, ys[|xs|..]);
  }
}
