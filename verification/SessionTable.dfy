/** The index, the two tables and the session cap, over every interleaving. */
module SessionTable {
  import opened Options
  import opened Sessions
  import opened SessionInv

  // The invariant

  ghost predicate Owns(t: Table, sid: SessionID, id: CallID) {
    sid in t.sessions && Has(t.sessions[sid], id)
  }

  /** No id is ever announced twice. */
  ghost predicate IdsUnique(t: Table) {
    && (forall sid, sid', id | Owns(t, sid, id) && Owns(t, sid', id) :: sid == sid')
    && forall sid <- t.sessions ::
         forall i, j | 0 <= i < j < |t.sessions[sid].pending| ::
           t.sessions[sid].pending[i].id != t.sessions[sid].pending[j].id
  }

  ghost predicate LiveOk(t: Table) {
    && |t.live| <= t.maxSessions
    && (forall sid <- t.live :: sid in t.sessions)
    && forall sid <- t.sessions :: sid in t.live <==> !t.sessions[sid].reaped
  }

  /** What is in flight concerns calls that exist, and no call is registered twice. */
  ghost predicate HalvesOk(t: Table) {
    && (forall h <- t.halves | h.IndexCalls? :: forall i | 0 <= i < |h.ids| :: Owns(t, h.sid, h.ids[i]))
    && (forall h <- t.halves | h.UnindexCall? :: Known(t, h.id))
    && forall h, h' | h in t.halves && h' in t.halves && h.IndexCalls? && h'.IndexCalls? && h != h' ::
         forall id <- h.ids :: id !in h'.ids
  }

  ghost predicate IndexSound(t: Table) {
    forall id <- t.index :: Owns(t, t.index[id], id)
  }

  /** For a live session the index holds exactly its unresolved calls, but for a call
      whose registration has yet to index it and one whose resolution has yet to
      take it out. */
  ghost predicate IndexExactAt(index: map<CallID, SessionID>, halves: set<Half>, id: CallID, resolved: bool) {
    && (id in index <==> !Adding(halves, id) && (!resolved || UnindexCall(id) in halves))
    && (Adding(halves, id) ==> !resolved)
    && (UnindexCall(id) in halves ==> resolved)
  }

  ghost predicate IndexExact(t: Table) {
    forall sid, i | sid in t.live && sid in t.sessions && 0 <= i < |t.sessions[sid].pending| ::
      IndexExactAt(t.index, t.halves, t.sessions[sid].pending[i].id, t.sessions[sid].pending[i].resolved)
  }

  ghost predicate SessionsOk(t: Table) {
    forall sid <- t.sessions :: SessionOk(t.sessions[sid])
  }

  ghost predicate Inv(t: Table) {
    IdsUnique(t) && LiveOk(t) && HalvesOk(t) && IndexSound(t) && IndexExact(t) && SessionsOk(t)
  }

  lemma InvStart(maxSessions: nat)
    ensures Inv(NewTable(maxSessions))
  {
  }

  // Sessions one at a time

  lemma SessionResolve(s: Session, k: nat, result: Text)
    requires SessionOk(s) && k < |s.pending|
    ensures SessionOk(s.(pending := s.pending[k := ResolveCall(s.pending[k], result)]))
  {
    ClaimsKept(s, s.(pending := s.pending[k := ResolveCall(s.pending[k], result)]));
  }

  lemma SessionReap(s: Session)
    requires SessionOk(s)
    ensures SessionOk(s.(pending := ShutCalls(s.pending), reaped := true))
  {
    ClaimsKept(s, s.(pending := ShutCalls(s.pending), reaped := true));
  }

  lemma SessionCollect(s: Session, k: nat)
    requires SessionOk(s) && k < |s.pending| && s.pending[k].claimed && s.pending[k].resolver.Full?
    ensures var c := s.pending[k]; SessionOk(s.(pending := s.pending[k := c.(resolver := Drained(c.resolver.result))]))
  {
    var c := s.pending[k];
    ClaimsKept(s, s.(pending := s.pending[k := c.(resolver := Drained(c.resolver.result))]));
  }

  lemma SessionClaim(s: Session, name: Text, args: Text)
    requires SessionOk(s) && FirstUnclaimed(s.pending, name, args) < |s.pending|
    ensures var k := FirstUnclaimed(s.pending, name, args);
      SessionOk(s.(pending := s.pending[k := s.pending[k].(claimed := true)], claims := s.claims + [k]))
  {
    ClaimsClaim(s, name, args);
  }

  lemma SessionAnnounce(s: Session, uses: seq<ToolUse>, ids: seq<CallID>)
    requires SessionOk(s) && |uses| == |ids| && !s.reaped
    ensures SessionOk(s.(pending := s.pending + NewCalls(uses, ids)))
  {
    ClaimsAnnounce(s, uses, ids);
  }

  lemma SessionsStep(t: Table, a: Action)
    requires SessionsOk(t) && Enabled(t, a)
    ensures SessionsOk(Step(t, a))
  {
    match a
    case Announce(sid, uses, ids) =>
      if !t.sessions[sid].reaped {
        SessionAnnounce(t.sessions[sid], uses, ids);
      }
    case Resolve(sid, id, result) =>
      var k := Find(t.sessions[sid].pending, id);
      if k < |t.sessions[sid].pending| {
        SessionResolve(t.sessions[sid], k, result);
      }
    case Claim(sid, name, args) =>
      if FirstUnclaimed(t.sessions[sid].pending, name, args) < |t.sessions[sid].pending| {
        SessionClaim(t.sessions[sid], name, args);
      }
    case Collect(sid, k) => SessionCollect(t.sessions[sid], k);
    case Reap(_) => forall sid <- t.sessions { SessionReap(t.sessions[sid]); }
    case ReapSuperseded(_, _) => forall sid <- t.sessions { SessionReap(t.sessions[sid]); }
    case Close => forall sid <- t.sessions { SessionReap(t.sessions[sid]); }
    case _ =>
  }

  // The tables

  ghost predicate SameIds(t: Table, t': Table) {
    && t'.sessions.Keys == t.sessions.Keys
    && forall sid <- t.sessions ::
         && |t'.sessions[sid].pending| == |t.sessions[sid].pending|
         && forall i | 0 <= i < |t.sessions[sid].pending| ::
              t'.sessions[sid].pending[i].id == t.sessions[sid].pending[i].id
  }

  lemma SameIdsReap(t: Table, gone: set<SessionID>)
    ensures SameIds(t, ReapAll(t, gone))
  {
  }

  lemma SameIdsOne(t: Table, t': Table, sid: SessionID, k: nat, c: Call)
    requires sid in t.sessions && k < |t.sessions[sid].pending| && c.id == t.sessions[sid].pending[k].id
    requires t'.sessions.Keys == t.sessions.Keys && forall x <- t.sessions | x != sid :: t'.sessions[x] == t.sessions[x]
    requires t'.sessions[sid].pending == t.sessions[sid].pending[k := c]
    ensures SameIds(t, t')
  {
  }

  lemma SameIdsResolve(t: Table, a: Action)
    requires Enabled(t, a) && a.Resolve?
    ensures SameIds(t, Step(t, a))
  {
    var k := Find(t.sessions[a.sid].pending, a.id);
    if k < |t.sessions[a.sid].pending| {
      ResolveShape(t, a, k);
      SameIdsOne(t, Step(t, a), a.sid, k, ResolveCall(t.sessions[a.sid].pending[k], a.result));
    }
  }

  lemma ResolveShape(t: Table, a: Action, k: nat)
    requires Enabled(t, a) && a.Resolve? && k == Find(t.sessions[a.sid].pending, a.id) < |t.sessions[a.sid].pending|
    ensures var s, t' := t.sessions[a.sid], Step(t, a);
      && t'.sessions == t.sessions[a.sid := s.(pending := s.pending[k := ResolveCall(s.pending[k], a.result)])]
      && t'.index == t.index && t'.live == t.live
      && t'.halves == if s.pending[k].resolved then t.halves else t.halves + {UnindexCall(a.id)}
  {
  }

  lemma SameIdsCall(t: Table, a: Action)
    requires Enabled(t, a) && (a.Claim? || a.Collect? || a.FinishHalf?)
    ensures SameIds(t, Step(t, a))
  {
    if a.Claim? {
      var k := FirstUnclaimed(t.sessions[a.sid].pending, a.name, a.args);
      if k < |t.sessions[a.sid].pending| {
        SameIdsOne(t, Step(t, a), a.sid, k, t.sessions[a.sid].pending[k].(claimed := true));
      }
    } else if a.Collect? {
      SameIdsOne(t, Step(t, a), a.sid, a.k, Step(t, a).sessions[a.sid].pending[a.k]);
    }
  }

  lemma SameIdsStep(t: Table, a: Action)
    requires Enabled(t, a) && !a.Create? && !a.Announce?
    ensures SameIds(t, Step(t, a))
  {
    match a
    case Reap(sid) => SameIdsReap(t, {sid});
    case ReapSuperseded(ids, keep) => SameIdsReap(t, Superseded(t, ids, keep));
    case Close => SameIdsReap(t, t.live);
    case Resolve(_, _, _) => SameIdsResolve(t, a);
    case _ => SameIdsCall(t, a);
  }

  lemma SameIdsOwn(t: Table, t': Table)
    requires SameIds(t, t')
    ensures forall sid, id :: Owns(t, sid, id) <==> Owns(t', sid, id)
    ensures IdsUnique(t) ==> IdsUnique(t')
  {
    forall sid, id
      ensures Owns(t, sid, id) <==> Owns(t', sid, id)
    {
      if sid in t.sessions {
        var ps, qs := t.sessions[sid].pending, t'.sessions[sid].pending;
        if i :| 0 <= i < |ps| && ps[i].id == id { assert qs[i].id == id; }
        if i :| 0 <= i < |qs| && qs[i].id == id { assert ps[i].id == id; }
      }
    }
  }

  /** Announcing gives a session exactly the new ids on top of its old ones. */
  lemma AnnounceOwns(t: Table, sid: SessionID, uses: seq<ToolUse>, ids: seq<CallID>)
    requires Enabled(t, Announce(sid, uses, ids)) && !t.sessions[sid].reaped
    ensures forall x, id ::
      Owns(Step(t, Announce(sid, uses, ids)), x, id) <==> Owns(t, x, id) || (x == sid && id in ids)
  {
    var t' := Step(t, Announce(sid, uses, ids));
    var ps, qs := t.sessions[sid].pending, t'.sessions[sid].pending;
    forall id
      ensures Has(t'.sessions[sid], id) <==> Has(t.sessions[sid], id) || id in ids
    {
      if i :| 0 <= i < |ps| && ps[i].id == id { assert qs[i].id == id; }
      if j :| 0 <= j < |ids| && ids[j] == id { assert qs[|ps| + j].id == id; }
    }
  }

  /** Only announcing makes a session own anything new. */
  lemma OthersOwn(t: Table, a: Action)
    requires Enabled(t, a) && (a.Announce? ==> t.sessions[a.sid].reaped)
    ensures forall x, id :: Owns(Step(t, a), x, id) <==> Owns(t, x, id)
  {
    if !a.Create? && !a.Announce? {
      SameIdsStep(t, a);
      SameIdsOwn(t, Step(t, a));
    }
  }

  lemma IdsStep(t: Table, a: Action)
    requires IdsUnique(t) && Enabled(t, a)
    ensures IdsUnique(Step(t, a))
  {
    if a.Announce? && !t.sessions[a.sid].reaped {
      AnnounceOwns(t, a.sid, a.uses, a.ids);
      IdsAnnounce(t, a);
    } else {
      OthersOwn(t, a);
      if !a.Create? && !a.Announce? {
        SameIdsStep(t, a);
      }
    }
  }

  lemma IdsAnnounce(t: Table, a: Action)
    requires IdsUnique(t) && Enabled(t, a) && a.Announce? && !t.sessions[a.sid].reaped
    ensures forall i, j | 0 <= i < j < |Step(t, a).sessions[a.sid].pending| ::
      Step(t, a).sessions[a.sid].pending[i].id != Step(t, a).sessions[a.sid].pending[j].id
  {
    var ps, qs := t.sessions[a.sid].pending, Step(t, a).sessions[a.sid].pending;
    forall i, j | 0 <= i < j < |qs|
      ensures qs[i].id != qs[j].id
    {
      if i < |ps| && |ps| <= j {
        assert Has(t.sessions[a.sid], ps[i].id) && !Known(t, a.ids[j - |ps|]);
      }
    }
  }

  lemma LiveStep(t: Table, a: Action)
    requires LiveOk(t) && Enabled(t, a)
    ensures LiveOk(Step(t, a))
  {
    if a.Reap? || a.ReapSuperseded? || a.Close? {
      LiveReap(t, if a.Reap? then {a.sid} else if a.Close? then t.live else Superseded(t, a.ids, a.keep));
    } else if a.Create? {
      LiveCreate(t, a.sid);
    } else {
      LiveOthers(t, a);
    }
  }

  lemma LiveCreate(t: Table, sid: SessionID)
    requires LiveOk(t) && Enabled(t, Create(sid))
    ensures LiveOk(Step(t, Create(sid)))
  {
  }

  lemma LiveReap(t: Table, gone: set<SessionID>)
    requires LiveOk(t)
    ensures LiveOk(ReapAll(t, gone))
  {
    Shrinks(t.live, gone);
  }

  lemma LiveOthers(t: Table, a: Action)
    requires LiveOk(t) && Enabled(t, a) && !(a.Reap? || a.ReapSuperseded? || a.Close? || a.Create?)
    ensures LiveOk(Step(t, a))
  {
    assert Step(t, a).live == t.live && Step(t, a).sessions.Keys == t.sessions.Keys;
  }

  lemma Shrinks<T>(s: set<T>, gone: set<T>)
    ensures |s - gone| <= |s|
  {
    assert s == (s - gone) + (s * gone);
  }

  lemma HalvesAnnounce(t: Table, a: Action)
    requires HalvesOk(t) && Enabled(t, a) && a.Announce? && !t.sessions[a.sid].reaped
    ensures HalvesOk(Step(t, a))
  {
    AnnounceOwns(t, a.sid, a.uses, a.ids);
    KnownGrows(t, a);
    forall h | h in t.halves && h.IndexCalls?
      ensures forall id <- h.ids :: id !in a.ids
    {
      assert forall i | 0 <= i < |h.ids| :: Owns(t, h.sid, h.ids[i]);
    }
  }

  lemma HalvesOthers(t: Table, a: Action)
    requires Enabled(t, a) && (a.Announce? ==> t.sessions[a.sid].reaped)
    ensures forall h <- Step(t, a).halves :: h in t.halves || (h.UnindexCall? && Known(t, h.id))
  {
    if a.Resolve? && Find(t.sessions[a.sid].pending, a.id) < |t.sessions[a.sid].pending| {
      assert Has(t.sessions[a.sid], a.id);
    }
  }

  lemma KnownGrows(t: Table, a: Action)
    requires Enabled(t, a)
    ensures forall id :: Known(t, id) ==> Known(Step(t, a), id)
  {
    forall id | Known(t, id)
      ensures Known(Step(t, a), id)
    {
      var sid :| sid in t.sessions && Has(t.sessions[sid], id);
      assert Owns(t, sid, id);
      if a.Announce? && !t.sessions[a.sid].reaped {
        AnnounceOwns(t, a.sid, a.uses, a.ids);
      } else {
        OthersOwn(t, a);
      }
      assert Owns(Step(t, a), sid, id);
    }
  }

  lemma HalvesStep(t: Table, a: Action)
    requires HalvesOk(t) && Enabled(t, a)
    ensures HalvesOk(Step(t, a))
  {
    if a.Announce? && !t.sessions[a.sid].reaped {
      HalvesAnnounce(t, a);
    } else {
      OthersOwn(t, a);
      HalvesOthers(t, a);
      KnownGrows(t, a);
    }
  }

  lemma IndexSoundStep(t: Table, a: Action)
    requires IndexSound(t) && HalvesOk(t) && Enabled(t, a)
    ensures IndexSound(Step(t, a))
  {
    if a.Announce? && !t.sessions[a.sid].reaped {
      AnnounceOwns(t, a.sid, a.uses, a.ids);
    } else {
      OthersOwn(t, a);
    }
  }

  // The index of the live sessions

  /** Every live session's calls, as far as the index is concerned, are as before. */
  ghost predicate SameCalls(t: Table, t': Table) {
    && t'.live <= t.live
    && forall sid <- t'.live | sid in t.sessions && sid in t'.sessions ::
         && |t'.sessions[sid].pending| == |t.sessions[sid].pending|
         && forall i | 0 <= i < |t.sessions[sid].pending| ::
              && t'.sessions[sid].pending[i].id == t.sessions[sid].pending[i].id
              && t'.sessions[sid].pending[i].resolved == t.sessions[sid].pending[i].resolved
  }

  lemma ExactSame(t: Table, t': Table)
    requires IndexExact(t) && LiveOk(t) && SameCalls(t, t') && t'.index == t.index && t'.halves == t.halves
    ensures IndexExact(t')
  {
    forall sid, i | sid in t'.live && sid in t'.sessions && 0 <= i < |t'.sessions[sid].pending|
      ensures IndexExactAt(t'.index, t'.halves, t'.sessions[sid].pending[i].id, t'.sessions[sid].pending[i].resolved)
    {
      assert sid in t.live && sid in t.sessions;
      assert IndexExactAt(t.index, t.halves, t.sessions[sid].pending[i].id, t.sessions[sid].pending[i].resolved);
    }
  }

  lemma ExactCreate(t: Table, sid: SessionID)
    requires Inv(t) && Enabled(t, Create(sid))
    ensures IndexExact(Step(t, Create(sid)))
  {
  }

  lemma ExactAnnounce(t: Table, a: Action)
    requires Inv(t) && Enabled(t, a) && a.Announce? && !t.sessions[a.sid].reaped
    ensures IndexExact(Step(t, a))
  {
    var t' := Step(t, a);
    var half := IndexCalls(a.sid, a.ids);
    assert half in t'.halves;
    forall sid, i | sid in t'.live && sid in t'.sessions && 0 <= i < |t'.sessions[sid].pending|
      ensures IndexExactAt(t'.index, t'.halves, t'.sessions[sid].pending[i].id, t'.sessions[sid].pending[i].resolved)
    {
      var c := t'.sessions[sid].pending[i];
      if i < |t.sessions[sid].pending| {
        assert IndexExactAt(t.index, t.halves, c.id, c.resolved);
        assert Has(t.sessions[sid], c.id);
        assert Adding(t'.halves, c.id) <==> Adding(t.halves, c.id);
      } else {
        assert c.id in a.ids && !Known(t, c.id);
        assert c.id !in t.index;
        if Adding(t.halves, c.id) {
          HalvesKnown(t, c.id);
        }
      }
    }
  }

  lemma HalvesKnown(t: Table, id: CallID)
    requires HalvesOk(t) && Adding(t.halves, id)
    ensures Known(t, id)
  {
    var h :| h in t.halves && h.IndexCalls? && id in h.ids;
    var i :| 0 <= i < |h.ids| && h.ids[i] == id;
    assert Owns(t, h.sid, h.ids[i]);
  }

  /** Two calls of live sessions that share an id are one call. */
  lemma SameCall(t: Table, sid: SessionID, i: nat, sid': SessionID, j: nat)
    requires IdsUnique(t) && sid in t.sessions && sid' in t.sessions
    requires i < |t.sessions[sid].pending| && j < |t.sessions[sid'].pending|
    requires t.sessions[sid].pending[i].id == t.sessions[sid'].pending[j].id
    ensures sid == sid' && i == j
  {
    assert Owns(t, sid, t.sessions[sid].pending[i].id) && Owns(t, sid', t.sessions[sid].pending[i].id);
  }

  lemma ExactResolve(t: Table, a: Action)
    requires Inv(t) && Enabled(t, a) && a.Resolve?
    ensures IndexExact(Step(t, a))
  {
    var t', k := Step(t, a), Find(t.sessions[a.sid].pending, a.id);
    if k < |t.sessions[a.sid].pending| {
      assert forall id :: Adding(t'.halves, id) <==> Adding(t.halves, id);
      forall sid, i | sid in t'.live && sid in t'.sessions && 0 <= i < |t'.sessions[sid].pending|
        ensures IndexExactAt(t'.index, t'.halves, t'.sessions[sid].pending[i].id, t'.sessions[sid].pending[i].resolved)
      {
        ResolveShape(t, a, k);
        ExactResolveAt(t, t', a.sid, k, a.result, sid, i);
      }
    }
  }

  lemma ExactResolveAt(t: Table, t': Table, x: SessionID, k: nat, result: Text, sid: SessionID, i: nat)
    requires Inv(t) && x in t.sessions && k < |t.sessions[x].pending|
    requires !Adding(t.halves, t.sessions[x].pending[k].id)
    requires var s := t.sessions[x];
      && t'.sessions == t.sessions[x := s.(pending := s.pending[k := ResolveCall(s.pending[k], result)])]
      && t'.index == t.index
      && t'.halves == if s.pending[k].resolved then t.halves else t.halves + {UnindexCall(s.pending[k].id)}
    requires sid in t.live && sid in t.sessions && i < |t.sessions[sid].pending|
    requires forall id :: Adding(t'.halves, id) <==> Adding(t.halves, id)
    ensures var c := t'.sessions[sid].pending[i]; IndexExactAt(t'.index, t'.halves, c.id, c.resolved)
  {
    var c := t.sessions[sid].pending[i];
    assert IndexExactAt(t.index, t.halves, c.id, c.resolved);
    if c.id == t.sessions[x].pending[k].id {
      SameCall(t, sid, i, x, k);
    }
  }

  lemma ExactFinish(t: Table, half: Half)
    requires Inv(t) && half in t.halves
    ensures IndexExact(Step(t, FinishHalf(half)))
  {
    var t' := Step(t, FinishHalf(half));
    forall sid, i | sid in t'.live && sid in t'.sessions && 0 <= i < |t'.sessions[sid].pending|
      ensures IndexExactAt(t'.index, t'.halves, t'.sessions[sid].pending[i].id, t'.sessions[sid].pending[i].resolved)
    {
      var c := t.sessions[sid].pending[i];
      assert IndexExactAt(t.index, t.halves, c.id, c.resolved);
      if half.IndexCalls? && c.id in half.ids {
        assert Adding(t.halves, c.id) && !Adding(t'.halves, c.id);
      } else if Adding(t.halves, c.id) {
        var h :| h in t.halves && h.IndexCalls? && c.id in h.ids;
        assert h in t'.halves;
      }
    }
  }

  lemma ExactReap(t: Table, gone: set<SessionID>)
    requires Inv(t)
    ensures IndexExact(ReapAll(t, gone))
  {
    var t' := ReapAll(t, gone);
    forall sid, i | sid in t'.live && sid in t'.sessions && 0 <= i < |t'.sessions[sid].pending|
      ensures IndexExactAt(t'.index, t'.halves, t'.sessions[sid].pending[i].id, t'.sessions[sid].pending[i].resolved)
    {
      var c := t.sessions[sid].pending[i];
      assert IndexExactAt(t.index, t.halves, c.id, c.resolved);
      assert Owns(t, sid, c.id);
      assert c.id in t.index ==> Owns(t, t.index[c.id], c.id) && t.index[c.id] == sid;
    }
  }

  lemma ExactQuiet(t: Table, a: Action)
    requires Inv(t) && Enabled(t, a) && (a.Claim? || a.Collect?)
    ensures IndexExact(Step(t, a))
  {
    QuietSame(t, a);
    ExactSame(t, Step(t, a));
  }

  lemma QuietSame(t: Table, a: Action)
    requires Enabled(t, a) && (a.Claim? || a.Collect?)
    ensures var t' := Step(t, a); SameCalls(t, t') && t'.index == t.index && t'.halves == t.halves
  {
  }

  lemma ExactStep(t: Table, a: Action)
    requires Inv(t) && Enabled(t, a)
    ensures IndexExact(Step(t, a))
  {
    match a
    case Create(sid) => ExactCreate(t, sid);
    case Announce(sid, _, _) => if !t.sessions[sid].reaped { ExactAnnounce(t, a); }
    case FinishHalf(half) => ExactFinish(t, half);
    case Resolve(_, _, _) => ExactResolve(t, a);
    case Claim(_, _, _) => ExactQuiet(t, a);
    case Collect(_, _) => ExactQuiet(t, a);
    case Reap(sid) => ExactReap(t, {sid});
    case ReapSuperseded(ids, keep) => ExactReap(t, Superseded(t, ids, keep));
    case Close => ExactReap(t, t.live);
  }

  lemma InvStep(t: Table, a: Action)
    requires Inv(t) && Enabled(t, a)
    ensures Inv(Step(t, a))
  {
    IdsStep(t, a);
    LiveStep(t, a);
    HalvesStep(t, a);
    IndexSoundStep(t, a);
    ExactStep(t, a);
    SessionsStep(t, a);
  }

  lemma {:induction false} RunInv(ts: seq<Table>, acts: seq<Action>, maxSessions: nat, i: nat)
    requires Run(ts, acts, maxSessions) && i < |ts|
    ensures Inv(ts[i])
  {
    if i == 0 {
      InvStart(maxSessions);
    } else {
      RunInv(ts, acts, maxSessions, i - 1);
      InvStep(ts[i - 1], acts[i - 1]);
    }
  }
}
