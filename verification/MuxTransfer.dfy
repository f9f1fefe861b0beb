/** What a Write adds to its stream's bytes, and what a whole turn of the read
    loop or a whole call keeps. */
module MuxTransfer {
  import opened Frames
  import opened Mux
  import opened MuxSafety
  import opened MuxHonest
  import opened MuxWrites
  import MuxConn

  /** The frames one Write may put on the wire for stream `id`. */
  ghost predicate Chunks(id: uint32, fs: seq<Frame>) {
    forall f <- fs :: f.ty == DATA && f.id == id && 0 < |f.payload| <= MAX_PAYLOAD
  }

  lemma ChunkFirst(id: uint32, f: Frame, fs: seq<Frame>)
    requires Chunks(id, [f]) && Chunks(id, fs)
    ensures Chunks(id, [f] + fs) && Body(id, [f] + fs) == f.payload + Body(id, fs)
  {
    assert f in [f];
    BodySnoc(id, [], f);
    assert [] + [f] == [f];
    BodyConcat(id, [f], fs);
  }

  /** What a Write that reported `written` of the bytes p has put on the wire:
      non-empty DATA frames within the limit, together a prefix of p; all of it when
      it reports all of it, and otherwise what it reports plus at most the chunk
      whose write broke the connection. */
  ghost predicate Framed(c: Conn, o: nat, p: Bytes, c': Conn, written: nat, fs: seq<Frame>, n: nat)
    requires o < |c.heap|
  {
    && c'.sent == c.sent + fs && Chunks(c.heap[o].id, fs)
    && written <= n <= |p| && n - written <= MAX_PAYLOAD && (written == |p| ==> n == written)
    && (written < |p| ==> c'.Closed() || c.heap[o].LocallyClosed())
    && Body(c.heap[o].id, fs) == p[..n] && AreChunks(fs, p)
  }

  /** The payloads are the first of the chunks that Write cuts p into. */
  ghost predicate AreChunks(fs: seq<Frame>, p: Bytes) {
    |fs| <= |Chunking(p)| && forall i | 0 <= i < |fs| :: fs[i].payload == Chunking(p)[i]
  }

  lemma WriteStops(c: Conn, o: nat, p: Bytes, raw: nat -> RawWrite, k: nat) returns (fs: seq<Frame>, n: nat)
    requires Held(c, o) && c.heap[o].id != 0
    requires p == [] || c.heap[o].LocallyClosed() || c.Closed() || raw(k).Broken?
    ensures var (c', written) := MuxConn.WriteRun(c, o, p, raw, k); Framed(c, o, p, c', written, fs, n)
  {
    fs, n := [], 0;
    var id, m := c.heap[o].id, Min(|p|, MAX_PAYLOAD);
    if p != [] && !c.heap[o].LocallyClosed() && !c.Closed() && raw(k).crossed {
      var f := DataFrame(id, p[..m]);
      ChunkFirst(id, f, []);
      assert [f] + [] == [f];
      fs, n := [f], m;
    }
  }

  lemma {:induction false} WriteFrames(c: Conn, o: nat, p: Bytes, raw: nat -> RawWrite, k: nat)
    returns (fs: seq<Frame>, n: nat)
    requires Held(c, o) && c.heap[o].id != 0
    ensures var (c', written) := MuxConn.WriteRun(c, o, p, raw, k); Framed(c, o, p, c', written, fs, n)
    decreases |p|
  {
    if p == [] || c.heap[o].LocallyClosed() || c.Closed() || raw(k).Broken? {
      fs, n := WriteStops(c, o, p, raw, k);
    } else {
      var m := Min(|p|, MAX_PAYLOAD);
      var f := DataFrame(c.heap[o].id, p[..m]);
      var c1 := WriteOne(c, o, p, raw, k);
      var rest, j := WriteFrames(c1, o, p[m..], raw, k + 1);
      fs, n := [f] + rest, m + j;
      var (c', written) := MuxConn.WriteRun(c1, o, p[m..], raw, k + 1);
      FramedMore(c, o, p, c1, m, c', written, rest, j);
    }
  }

  lemma FramedMore(c: Conn, o: nat, p: Bytes, c1: Conn, m: nat, c': Conn, written: nat, rest: seq<Frame>, j: nat)
    requires o < |c.heap| && c1.heap == c.heap && 0 < m <= |p| && m <= MAX_PAYLOAD
    requires c1.sent == c.sent + [DataFrame(c.heap[o].id, p[..m])]
    requires Framed(c1, o, p[m..], c', written, rest, j) && m == Min(|p|, MAX_PAYLOAD)
    ensures Framed(c, o, p, c', m + written, [DataFrame(c.heap[o].id, p[..m])] + rest, m + j)
  {
    var f := DataFrame(c.heap[o].id, p[..m]);
    ChunkFirst(c.heap[o].id, f, rest);
    assert p[..m + j] == p[..m] + p[m..][..j];
    assert c.sent + ([f] + rest) == c.sent + [f] + rest;
  }

  lemma WriteOne(c: Conn, o: nat, p: Bytes, raw: nat -> RawWrite, k: nat) returns (c1: Conn)
    requires Held(c, o) && c.heap[o].id != 0 && p != [] && !c.heap[o].LocallyClosed() && !c.Closed()
    requires raw(k) == Through
    ensures var m := Min(|p|, MAX_PAYLOAD);
      && c1.sent == c.sent + [DataFrame(c.heap[o].id, p[..m])] && c1.heap == c.heap && Held(c1, o) && !c1.Closed()
      && var (c2, j) := MuxConn.WriteRun(c1, o, p[m..], raw, k + 1);
         MuxConn.WriteRun(c, o, p, raw, k) == (c2, m + j)
  {
    c1 := Step(c, WriteChunk(o, p[..Min(|p|, MAX_PAYLOAD)], raw(k)));
  }

  /** So a Write to a stream not yet closed adds exactly those bytes to what the
      receiving end is owed. */
  lemma WriteFramed(c: Conn, o: nat, p: Bytes, raw: nat -> RawWrite)
    requires Held(c, o) && c.heap[o].id != 0 && !Closes(c.heap[o].id, c.sent)
    ensures var (c', written) := MuxConn.WriteRun(c, o, p, raw, 0);
      && !Closes(c.heap[o].id, c'.sent) && written <= |p|
      && (written == |p| ==> Body(c.heap[o].id, c'.sent) == Body(c.heap[o].id, c.sent) + p)
      && Body(c.heap[o].id, c.sent) + p[..written] <= Body(c.heap[o].id, c'.sent) <= Body(c.heap[o].id, c.sent) + p
  {
    var fs, n := WriteFrames(c, o, p, raw, 0);
    var id := c.heap[o].id;
    BodyConcat(id, c.sent, fs);
    ClosesConcat(id, c.sent, fs);
    assert !Closes(id, fs);
    Prefixes(Body(id, c.sent), p, MuxConn.WriteRun(c, o, p, raw, 0).1, n);
  }

  lemma Prefixes(front: Bytes, p: Bytes, k: nat, n: nat)
    requires k <= n <= |p|
    ensures front + p[..k] <= front + p[..n] <= front + p
    ensures n == |p| ==> front + p[..n] == front + p
  {
    assert p[..k] <= p[..n] <= p;
    assert p[..|p|] == p;
  }

  lemma SettledOfferSafe(c: Conn, raw: RawWrite)
    requires Safe(c) && Accounts(c) && c.loop.Offering?
    ensures var c' := MuxConn.Settled(c, raw, true);
      Safe(c') && Accounts(c') && c'.loop == Idle && c' == MuxConn.Settled(c, raw, false)
  {
    var c1 := Kept1(c, OfferStream);
    if c1.loop.Refusing? {
      var c2 := Kept1(c1, WithdrawStream);
      var _ := Kept1(c2, Reply(raw));
    }
  }

  /** A whole turn of the read loop keeps the safety invariants. */
  lemma SettledSafe(c: Conn, raw: RawWrite, keep: bool)
    requires Safe(c) && Accounts(c) && MuxConn.CanSettle(c, keep) && !c.loop.Refusing? && !c.loop.Unlinking?
    ensures var c' := MuxConn.Settled(c, raw, keep);
      Safe(c') && Accounts(c') && (c'.loop == Idle || c'.loop == Stopped)
  {
    match c.loop
    case Offering(_) => SettledOfferSafe(c, raw);
    case Replying(_) => var _ := Kept1(c, Reply(raw));
    case Delivering(_, _) => var _ := Kept1(c, if keep then KeepPayload else GiveUpPayload);
    case HangingUp(_) =>
      var c1 := Kept1(c, CloseReads);
      var _ := Kept1(c1, Unlink);
    case _ =>
  }

  lemma ReceivedLoop(c: Conn, f: Frame)
    requires c.loop == Idle && f.Valid()
    ensures var loop := Step(c, Receive(f)).loop; !loop.Refusing? && !loop.Unlinking?
  {
  }

  /** Whatever bytes the peer sends, an iteration of the read loop that does not
      wait keeps the safety invariants and is done with its frame. */
  lemma TurnIsSafe(c: Conn, bytes: Bytes, raw: RawWrite, keep: bool)
    requires Safe(c) && Accounts(c) && c.loop == Idle
    requires Decode(bytes).Got? ==> MuxConn.CanSettle(Step(c, Receive(Decode(bytes).frame)), keep)
    ensures var c' := MuxConn.TurnOf(c, Decode(bytes), raw, keep);
      Safe(c') && Accounts(c') && (c'.loop == Idle || c'.loop == Stopped)
  {
    if Decode(bytes).Got? {
      ReceivedLoop(c, Decode(bytes).frame);
      var c1 := Kept1(c, Receive(Decode(bytes).frame));
      SettledSafe(c1, raw, keep);
    } else {
      var _ := Kept1(c, ReadFails);
    }
  }

  lemma Kept1(c: Conn, a: Action) returns (c': Conn)
    requires Safe(c) && Accounts(c) && Enabled(c, a)
    ensures c' == Step(c, a) && Safe(c') && Accounts(c')
  {
    SafeStep(c, a);
    AccountsStep(c, a);
    c' := Step(c, a);
  }
}
