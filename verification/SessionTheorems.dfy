/** What the session table promises its users, in every state it can reach. */
module SessionTheorems {
  import opened Options
  import opened Sessions
  import opened SessionInv
  import opened SessionTable

  ghost predicate Reachable(t: Table) {
    exists ts, acts, maxSessions :: Run(ts, acts, maxSessions) && ts[|acts|] == t
  }

  lemma ReachableInv(t: Table)
    requires Reachable(t)
    ensures Inv(t)
  {
    var ts, acts, maxSessions :| Run(ts, acts, maxSessions) && ts[|acts|] == t;
    RunInv(ts, acts, maxSessions, |acts|);
  }

  lemma ReachStart(maxSessions: nat)
    ensures Reachable(NewTable(maxSessions))
  {
    assert Run([NewTable(maxSessions)], [], maxSessions);
  }

  lemma ReachStep(t: Table, a: Action)
    requires Reachable(t) && Enabled(t, a)
    ensures Reachable(Step(t, a))
  {
    var ts, acts, m :| Run(ts, acts, m) && ts[|acts|] == t;
    var ts', acts' := ts + [Step(t, a)], acts + [a];
    forall i | 0 <= i < |acts'|
      ensures Enabled(ts'[i], acts'[i]) && ts'[i + 1] == Step(ts'[i], acts'[i])
    {
      if i < |acts| {
        assert ts'[i] == ts[i] && ts'[i + 1] == ts[i + 1] && acts'[i] == acts[i];
      }
    }
    assert Run(ts', acts', m);
  }

  // The index

  /** A lookup that succeeds finds a live session that announced that call, and the
      number of live sessions stays within the cap. */
  lemma LookupSound(t: Table, id: CallID)
    requires Reachable(t)
    ensures var found := LookupCall(t, id);
      found.Some? ==> found.value in t.live && Owns(t, found.value, id) && !t.sessions[found.value].reaped
    ensures |t.live| <= t.maxSessions
  {
    ReachableInv(t);
  }

  predicate Unresolved(s: Session, id: CallID) {
    exists i | 0 <= i < |s.pending| :: s.pending[i].id == id && !s.pending[i].resolved
  }

  /** With no registration or resolution between its two critical sections, the ids
      indexed to a live session are exactly its unresolved calls. */
  lemma QuiescentIndex(t: Table, sid: SessionID, id: CallID)
    requires Reachable(t) && t.halves == {} && sid in t.live
    ensures sid in t.sessions && (LookupCall(t, id) == Some(sid) <==> Unresolved(t.sessions[sid], id))
  {
    ReachableInv(t);
    var s := t.sessions[sid];
    if LookupCall(t, id) == Some(sid) {
      assert Owns(t, sid, id);
      var i :| 0 <= i < |s.pending| && s.pending[i].id == id;
      assert IndexExactAt(t.index, t.halves, s.pending[i].id, s.pending[i].resolved);
    }
    if Unresolved(s, id) {
      var i :| 0 <= i < |s.pending| && s.pending[i].id == id && !s.pending[i].resolved;
      assert IndexExactAt(t.index, t.halves, s.pending[i].id, s.pending[i].resolved);
      assert Owns(t, sid, id) && Owns(t, t.index[id], id);
    }
  }

  /** A call of a live session that is indexed is unresolved, but for the moment
      before its resolution's second critical section takes it out. */
  lemma IndexedIsUnresolved(t: Table, sid: SessionID, id: CallID)
    requires Reachable(t) && LookupCall(t, id) == Some(sid)
    ensures sid in t.sessions && (Unresolved(t.sessions[sid], id) <==> UnindexCall(id) !in t.halves)
  {
    ReachableInv(t);
    var s := t.sessions[sid];
    assert Owns(t, sid, id);
    var i :| 0 <= i < |s.pending| && s.pending[i].id == id;
    assert IndexExactAt(t.index, t.halves, s.pending[i].id, s.pending[i].resolved);
  }

  /** Only a resolution leaves the index to be changed by a second section. */
  lemma HalvesAreResolved(t: Table, sid: SessionID)
    requires Reachable(t) && sid in t.sessions
    ensures HalvesResolved(t, sid)
  {
    ReachableInv(t);
    forall i | 0 <= i < |t.sessions[sid].pending| && UnindexCall(t.sessions[sid].pending[i].id) in t.halves
      ensures t.sessions[sid].pending[i].resolved
    {
      var c := t.sessions[sid].pending[i];
      if sid in t.live {
        assert IndexExactAt(t.index, t.halves, c.id, c.resolved);
      } else {
        assert SessionOk(t.sessions[sid]) && t.sessions[sid].reaped;
      }
    }
  }

  // The resolvers

  /** A resolver still unresolved is empty, so the send under the session's lock never
      blocks and never meets a closed channel, and reaping never closes one twice;
      over a whole run each sees one send or one close at most. */
  lemma ResolverUsedOnce(t: Table, sid: SessionID, i: nat)
    requires Reachable(t) && sid in t.sessions && i < |t.sessions[sid].pending|
    ensures var c := t.sessions[sid].pending[i];
      && (!c.resolved <==> c.resolver == Empty)
      && |c.uses| <= 1 && (c.uses == [] <==> !c.resolved)
  {
    ReachableInv(t);
    assert CallOk(t.sessions[sid].pending[i]);
  }

  ghost predicate Keeps(c: Call, c': Call) {
    && c'.id == c.id && c.given <= c'.given
    && (c.resolved ==> c'.uses == c.uses && c'.resolved
                       && (c'.resolver == c.resolver ||
                           (c.resolver.Full? && c'.resolver == Drained(c.resolver.result))))
  }

  lemma CallKept(t: Table, a: Action, sid: SessionID, i: nat)
    requires Enabled(t, a) && sid in t.sessions && i < |t.sessions[sid].pending|
    ensures var t' := Step(t, a);
      && sid in t'.sessions && i < |t'.sessions[sid].pending|
      && Keeps(t.sessions[sid].pending[i], t'.sessions[sid].pending[i])
  {
  }

  /** Over any further run a used resolver stays as it is, but for the one receive
      that drains it, and no recorded offer is forgotten. */
  lemma {:induction false} UsesStick(ts: seq<Table>, acts: seq<Action>, sid: SessionID, i: nat, n: nat)
    requires |ts| == |acts| + 1 && n < |ts|
    requires forall j | 0 <= j < |acts| :: Enabled(ts[j], acts[j]) && ts[j + 1] == Step(ts[j], acts[j])
    requires sid in ts[0].sessions && i < |ts[0].sessions[sid].pending|
    ensures sid in ts[n].sessions && i < |ts[n].sessions[sid].pending|
    ensures Keeps(ts[0].sessions[sid].pending[i], ts[n].sessions[sid].pending[i])
  {
    if n > 0 {
      UsesStick(ts, acts, sid, i, n - 1);
      CallKept(ts[n - 1], acts[n - 1], sid, i);
    }
  }

  /** What a parked tools/call receives is the first result any client gave for its
      own id, whether before or after the claim; otherwise the channel was closed
      and no result was, or ever will be, sent on it. */
  lemma ParkedReceives(t: Table, sid: SessionID, i: nat)
    requires Reachable(t) && sid in t.sessions && i < |t.sessions[sid].pending|
    ensures var c := t.sessions[sid].pending[i];
      match c.resolver
      case Empty => c.given == [] && !t.sessions[sid].reaped
      case Full(r) => c.given != [] && r == c.given[0] && c.uses == [Sent(r)]
      case Drained(r) => c.given != [] && r == c.given[0] && c.uses == [Sent(r)]
      case Shut => c.uses == [Closed] && t.sessions[sid].reaped
  {
    ReachableInv(t);
    assert CallOk(t.sessions[sid].pending[i]);
  }

  /** Once reaped, a session has no unresolved call and is never given another. */
  lemma ReapedIsFinal(t: Table, a: Action, sid: SessionID)
    requires Reachable(t) && Enabled(t, a) && sid in t.sessions && t.sessions[sid].reaped
    ensures forall i | 0 <= i < |t.sessions[sid].pending| :: t.sessions[sid].pending[i].resolved
    ensures var t' := Step(t, a);
      sid in t'.sessions && t'.sessions[sid].reaped && |t'.sessions[sid].pending| == |t.sessions[sid].pending|
      && sid !in t'.live
  {
    ReachableInv(t);
    ReapedStep(t, a, sid);
  }

  lemma ReapedStep(t: Table, a: Action, sid: SessionID)
    requires LiveOk(t) && Enabled(t, a) && sid in t.sessions && t.sessions[sid].reaped
    ensures var t' := Step(t, a);
      sid in t'.sessions && t'.sessions[sid].reaped && |t'.sessions[sid].pending| == |t.sessions[sid].pending|
      && sid !in t'.live
  {
  }

  // Claims

  /** Over every run, the claims made for a pair of name and arguments took the calls
      announced for it, in order and each once. */
  lemma ClaimsAreFifo(t: Table, sid: SessionID, name: Text, args: Text)
    requires Reachable(t) && sid in t.sessions
    ensures var s := t.sessions[sid];
      Claimed(s.pending, s.claims, name, args) <= Announced(s.pending, name, args)
  {
    ReachableInv(t);
    assert ClaimsOk(t.sessions[sid]);
  }

  // Resolving

  /** A result changes the one call it names, in the one session it is given to;
      an id that session never announced changes nothing anywhere. */
  lemma ResolveFrame(t: Table, sid: SessionID, id: CallID, result: Text)
    requires Reachable(t) && Enabled(t, Resolve(sid, id, result))
    ensures !Has(t.sessions[sid], id) ==> Step(t, Resolve(sid, id, result)) == t
    ensures var t' := Step(t, Resolve(sid, id, result));
      && t'.index == t.index && t'.live == t.live && t'.sessions.Keys == t.sessions.Keys
      && forall x, i | x in t.sessions && 0 <= i < |t.sessions[x].pending| ::
           && |t'.sessions[x].pending| == |t.sessions[x].pending|
           && (x != sid || t.sessions[x].pending[i].id != id ==> t'.sessions[x].pending[i] == t.sessions[x].pending[i])
  {
    var s := t.sessions[sid];
    var k := Find(s.pending, id);
    if k < |s.pending| {
      assert Has(s, id);
    }
  }

  // Superseding

  /** What ReapSuperseded does, exactly: of the live sessions it reaps those named by
      an indexed id, save the one kept; the rest are untouched and are still found
      by the same ids, and no named id finds anything but the kept session. */
  lemma SupersededFrame(t: Table, ids: seq<CallID>, keep: Option<SessionID>, sid: SessionID)
    requires Reachable(t) && sid in t.live
    ensures var t', named := Step(t, ReapSuperseded(ids, keep)),
                exists i | 0 <= i < |ids| :: LookupCall(t, ids[i]) == Some(sid);
      && sid in t.sessions && sid in t'.sessions
      && (sid in t'.live <==> keep == Some(sid) || !named)
      && (sid in t'.live ==> t'.sessions[sid] == t.sessions[sid])
      && (sid !in t'.live ==> t'.sessions[sid].reaped)
      && (sid in t'.live ==> forall id :: LookupCall(t', id) == Some(sid) <==> LookupCall(t, id) == Some(sid))
  {
    ReachableInv(t);
    var gone := Superseded(t, ids, keep);
    if i :| 0 <= i < |ids| && LookupCall(t, ids[i]) == Some(sid) {
      assert keep != Some(sid) ==> t.index[ids[i]] in gone;
    }
  }

  lemma SupersededClears(t: Table, ids: seq<CallID>, keep: Option<SessionID>, i: nat)
    requires Reachable(t) && i < |ids|
    ensures var found := LookupCall(Step(t, ReapSuperseded(ids, keep)), ids[i]);
      found == None || found == keep
  {
    var gone := Superseded(t, ids, keep);
    if ids[i] in t.index && Some(t.index[ids[i]]) != keep {
      assert t.index[ids[i]] in gone;
    }
  }

  /** ReapSuperseded reports how many sessions it named. That is how many it reaped
      exactly when none of the ids is left over from a session already gone. */
  lemma SupersededCount(t: Table, ids: seq<CallID>, keep: Option<SessionID>)
    requires Reachable(t)
    ensures var t', reported := Step(t, ReapSuperseded(ids, keep)), |Superseded(t, ids, keep)|;
      reported == |t.live| - |t'.live| <==>
      forall i | 0 <= i < |ids| && ids[i] in t.index && Some(t.index[ids[i]]) != keep :: LookupCall(t, ids[i]).Some?
  {
    var gone := Superseded(t, ids, keep);
    var t' := Step(t, ReapSuperseded(ids, keep));
    assert t'.live == t.live - gone;
    assert t.live == (t.live - gone) + (t.live * gone);
    assert gone == (gone - t.live) + (t.live * gone);
    assert |gone| == |t.live| - |t'.live| <==> gone - t.live == {};
    forall i | 0 <= i < |ids| && ids[i] in t.index && Some(t.index[ids[i]]) != keep
      ensures t.index[ids[i]] in gone
    {
    }
    if gone - t.live == {} {
      forall i | 0 <= i < |ids| && ids[i] in t.index && Some(t.index[ids[i]]) != keep
        ensures LookupCall(t, ids[i]).Some?
      {
        assert t.index[ids[i]] !in gone - t.live;
      }
    }
  }

  // Two windows between critical sections

  /** A session reaped between the halves of a registration leaves its ids in the
      index for good; looking them up still finds nothing, but ReapSuperseded counts
      them as a session reaped. */
  lemma StaleIndex(u: ToolUse) returns (t: Table)
    ensures Reachable(t) && t.halves == {} && t.live == {}
    ensures 7 in t.index && LookupCall(t, 7) == None
    ensures Superseded(t, [7], None) == {1}
  {
    ReachStart(1);
    var t0 := NewTable(1);
    ReachStep(t0, Create(1));
    var t1 := Step(t0, Create(1));
    ReachStep(t1, Announce(1, [u], [7]));
    var t2 := Step(t1, Announce(1, [u], [7]));
    ReachStep(t2, Reap(1));
    var t3 := Step(t2, Reap(1));
    var half := IndexCalls(1, [7]);
    ReachStep(t3, FinishHalf(half));
    t := Step(t3, FinishHalf(half));
    assert t.halves == {};
    assert [7][0] == 7;
    assert t.index[7] == 1;
  }

  lemma ReachIndexed(u: ToolUse)
    ensures Reachable(Table(map[1 := Session([NewCall(u, 7)], false, [])], {1}, map[7 := 1], {}, 1))
  {
    ReachStart(1);
    var t0 := NewTable(1);
    ReachStep(t0, Create(1));
    var t1 := Step(t0, Create(1));
    ReachStep(t1, Announce(1, [u], [7]));
    var t2 := Step(t1, Announce(1, [u], [7]));
    var half := IndexCalls(1, [7]);
    ReachStep(t2, FinishHalf(half));
    var t3 := Step(t2, FinishHalf(half));
    assert [7][0] == 7 && t3.index[7] == 1;
    assert t3.sessions[1].pending == [NewCall(u, 7)];
    assert t3 == Table(map[1 := Session([NewCall(u, 7)], false, [])], {1}, map[7 := 1], {}, 1);
  }

  /** Between the halves of a resolution an indexed call is already resolved: a
      request that names it meanwhile reaps a session that is waiting for nothing. */
  lemma ResolvedStillIndexed(u: ToolUse, result: Text) returns (t: Table)
    ensures Reachable(t) && LookupCall(t, 7) == Some(1)
    ensures 1 in t.live && 1 in t.sessions && !Unresolved(t.sessions[1], 7)
    ensures 1 !in Step(t, ReapSuperseded([7], None)).live
  {
    ReachIndexed(u);
    var t3 := Table(map[1 := Session([NewCall(u, 7)], false, [])], {1}, map[7 := 1], {}, 1);
    ReachStep(t3, Resolve(1, 7, result));
    t := Step(t3, Resolve(1, 7, result));
    assert t.sessions[1].pending == [ResolveCall(NewCall(u, 7), result)];
    assert [7][0] in t.index && 1 in Superseded(t, [7], None);
  }
}
