/** What becomes of the calls the model announced: who claims them and what they
    are answered, told by the announcements, claims and results of a run. */
module SessionCalls {
  import opened Options
  import opened Induction
  import opened Sessions
  import opened SessionInv
  import opened SessionTable
  import opened SessionTheorems

  // From announcing to claiming

  /** What has been announced on a session while it was alive, over a run. */
  ghost function UsesLog(ts: seq<Table>, acts: seq<Action>, sid: SessionID, n: nat): seq<ToolUse>
    requires n <= |acts| < |ts|
  {
    if n == 0 then []
    else UsesLog(ts, acts, sid, n - 1) + if Takes(ts[n - 1], acts[n - 1], sid) then acts[n - 1].uses else []
  }

  ghost function IdsLog(ts: seq<Table>, acts: seq<Action>, sid: SessionID, n: nat): seq<CallID>
    requires n <= |acts| < |ts|
  {
    if n == 0 then []
    else IdsLog(ts, acts, sid, n - 1) + if Takes(ts[n - 1], acts[n - 1], sid) then acts[n - 1].ids else []
  }

  predicate Takes(t: Table, a: Action, sid: SessionID) {
    a.Announce? && a.sid == sid && sid in t.sessions && !t.sessions[sid].reaped
  }

  /** The calls of a session are these uses under these ids. */
  ghost predicate AreUses(cs: seq<Call>, uses: seq<ToolUse>, ids: seq<CallID>) {
    && |cs| == |uses| == |ids|
    && forall i | 0 <= i < |cs| :: cs[i].name == uses[i].name && cs[i].args == uses[i].args && cs[i].id == ids[i]
  }

  /** A call keeps its name, its arguments and its id. */
  ghost predicate SameNames(cs: seq<Call>, cs': seq<Call>) {
    && |cs'| == |cs|
    && forall i | 0 <= i < |cs| :: cs'[i].name == cs[i].name && cs'[i].args == cs[i].args && cs'[i].id == cs[i].id
  }

  lemma NamesKept(t: Table, a: Action, sid: SessionID)
    requires Enabled(t, a) && sid in t.sessions && !Takes(t, a, sid)
    ensures sid in Step(t, a).sessions && SameNames(t.sessions[sid].pending, Step(t, a).sessions[sid].pending)
  {
  }

  lemma NamesAdded(t: Table, a: Action, sid: SessionID)
    requires Enabled(t, a) && Takes(t, a, sid)
    ensures sid in Step(t, a).sessions
    ensures var cs, cs' := t.sessions[sid].pending, Step(t, a).sessions[sid].pending;
      && |cs'| == |cs| + |a.uses| && cs'[..|cs|] == cs && AreUses(cs'[|cs|..], a.uses, a.ids)
      && forall c <- cs'[|cs|..] :: !c.claimed && !c.resolved && c.resolver == Empty
  {
  }

  ghost predicate PendingAt(ts: seq<Table>, acts: seq<Action>, sid: SessionID, n: nat) {
    && n <= |acts| < |ts|
    && (if sid in ts[n].sessions
        then AreUses(ts[n].sessions[sid].pending, UsesLog(ts, acts, sid, n), IdsLog(ts, acts, sid, n))
        else UsesLog(ts, acts, sid, n) == [] && IdsLog(ts, acts, sid, n) == [])
  }

  lemma UsesMore(cs: seq<Call>, cs': seq<Call>, uses: seq<ToolUse>, ids: seq<CallID>,
                 more: seq<ToolUse>, moreIds: seq<CallID>)
    requires AreUses(cs, uses, ids) && |cs'| == |cs| + |more| && cs'[..|cs|] == cs
    requires AreUses(cs'[|cs|..], more, moreIds)
    ensures AreUses(cs', uses + more, ids + moreIds)
  {
    forall i | 0 <= i < |cs'|
      ensures cs'[i] == if i < |cs| then cs[i] else cs'[|cs|..][i - |cs|]
    {
      assert i < |cs| ==> cs'[..|cs|][i] == cs'[i];
    }
  }

  lemma UsesSame(cs: seq<Call>, cs': seq<Call>, uses: seq<ToolUse>, ids: seq<CallID>)
    requires AreUses(cs, uses, ids) && SameNames(cs, cs')
    ensures AreUses(cs', uses + [], ids + [])
  {
    assert uses + [] == uses && ids + [] == ids;
  }

  lemma PendingNext(ts: seq<Table>, acts: seq<Action>, maxSessions: nat, sid: SessionID, n: nat)
    requires Run(ts, acts, maxSessions) && n < |acts| && PendingAt(ts, acts, sid, n)
    ensures PendingAt(ts, acts, sid, n + 1)
  {
    var t, a := ts[n], acts[n];
    assert Enabled(t, a) && ts[n + 1] == Step(t, a);
    if Takes(t, a, sid) {
      NamesAdded(t, a, sid);
      UsesMore(t.sessions[sid].pending, ts[n + 1].sessions[sid].pending,
               UsesLog(ts, acts, sid, n), IdsLog(ts, acts, sid, n), a.uses, a.ids);
    } else if sid in t.sessions {
      NamesKept(t, a, sid);
      UsesSame(t.sessions[sid].pending, ts[n + 1].sessions[sid].pending,
               UsesLog(ts, acts, sid, n), IdsLog(ts, acts, sid, n));
    } else {
      NoneBefore(t, a, sid);
    }
  }

  lemma NoneBefore(t: Table, a: Action, sid: SessionID)
    requires Enabled(t, a) && sid !in t.sessions
    ensures sid in Step(t, a).sessions ==> Step(t, a).sessions[sid].pending == []
  {
  }

  /** Over every run the calls of a session are the uses announced on it while it was
      alive, in the order in which they were announced. */
  lemma PendingIsAnnounced(ts: seq<Table>, acts: seq<Action>, maxSessions: nat, sid: SessionID, n: nat)
    requires Run(ts, acts, maxSessions) && n <= |acts|
    ensures PendingAt(ts, acts, sid, n)
  {
    forall k: nat | 0 <= k < |acts| && PendingAt(ts, acts, sid, k) ensures PendingAt(ts, acts, sid, k + 1) {
      PendingNext(ts, acts, maxSessions, sid, k);
    }
    Upwards((k: nat) => PendingAt(ts, acts, sid, k), 0, |acts|, n);
  }

  /** The positions of one name and one set of arguments among uses. */
  function Places(uses: seq<ToolUse>, name: Text, args: Text): seq<nat> {
    if uses == [] then []
    else
      var n := |uses| - 1;
      Places(uses[..n], name, args) + if uses[n].name == name && uses[n].args == args then [n] else []
  }

  lemma {:induction false} PlacesAnnounced(cs: seq<Call>, uses: seq<ToolUse>, ids: seq<CallID>, name: Text, args: Text)
    requires AreUses(cs, uses, ids)
    ensures Announced(cs, name, args) == Places(uses, name, args)
  {
    if uses != [] {
      var n := |uses| - 1;
      PlacesAnnounced(cs[..n], uses[..n], ids[..n], name, args);
    }
  }

  /** Over every run the k-th claim that took a call of this name and these arguments
      took the k-th use announced with them. */
  lemma ClaimsTakeUses(ts: seq<Table>, acts: seq<Action>, maxSessions: nat, sid: SessionID, name: Text, args: Text)
    requires Run(ts, acts, maxSessions) && sid in ts[|acts|].sessions
    ensures var s, uses := ts[|acts|].sessions[sid], UsesLog(ts, acts, sid, |acts|);
      Claimed(s.pending, s.claims, name, args) <= Places(uses, name, args)
  {
    var n := |acts|;
    assert Reachable(ts[n]);
    ClaimsAreFifo(ts[n], sid, name, args);
    PendingIsAnnounced(ts, acts, maxSessions, sid, n);
    PlacesAnnounced(ts[n].sessions[sid].pending, UsesLog(ts, acts, sid, n), IdsLog(ts, acts, sid, n), name, args);
  }

  /** Nobody has left a call of this name and these arguments unclaimed. */
  ghost predicate NoneOpen(cs: seq<Call>, name: Text, args: Text) {
    forall i | 0 <= i < |cs| :: cs[i].claimed || cs[i].name != name || cs[i].args != args
  }

  /** The first use of this name and these arguments is at j. */
  ghost predicate FirstUse(uses: seq<ToolUse>, name: Text, args: Text, j: nat) {
    && j < |uses| && uses[j].name == name && uses[j].args == args
    && forall i | 0 <= i < j :: uses[i].name != name || uses[i].args != args
  }

  /** A tools/call that follows an announcement takes the first use announced with its
      name and arguments, */
  lemma AnnouncedIsClaimed(t: Table, a: Action, name: Text, args: Text, j: nat)
    requires Enabled(t, a) && a.Announce? && !t.sessions[a.sid].reaped
    requires NoneOpen(t.sessions[a.sid].pending, name, args)
    requires FirstUse(a.uses, name, args, j)
    ensures var n, t1 := |t.sessions[a.sid].pending|, Step(t, a);
      && a.sid in t1.sessions && n + j < |t1.sessions[a.sid].pending|
      && var cs, t2 := t1.sessions[a.sid].pending, Step(t1, Claim(a.sid, name, args));
         a.sid in t2.sessions && t2.sessions[a.sid].pending == cs[n + j := cs[n + j].(claimed := true)]
  {
    PlaceAfter(t, a, name, args);
    ClaimTakes(Step(t, a), a.sid, name, args);
  }

  /** and for a pair that was not announced there is nothing to take. */
  lemma UnannouncedIsNot(t: Table, a: Action, name: Text, args: Text)
    requires Enabled(t, a) && a.Announce? && !t.sessions[a.sid].reaped
    requires NoneOpen(t.sessions[a.sid].pending, name, args)
    requires forall j: nat :: !FirstUse(a.uses, name, args, j)
    ensures a.sid in Step(t, a).sessions && Step(Step(t, a), Claim(a.sid, name, args)) == Step(t, a)
  {
    PlaceAfter(t, a, name, args);
    ClaimTakes(Step(t, a), a.sid, name, args);
  }

  lemma PlaceAfter(t: Table, a: Action, name: Text, args: Text)
    requires Enabled(t, a) && a.Announce? && !t.sessions[a.sid].reaped
    requires NoneOpen(t.sessions[a.sid].pending, name, args)
    ensures a.sid in Step(t, a).sessions
    ensures var n, cs := |t.sessions[a.sid].pending|, Step(t, a).sessions[a.sid].pending;
      var k := FirstUnclaimed(cs, name, args);
      && (k < |cs| ==> n <= k && FirstUse(a.uses, name, args, k - n))
      && (forall j: nat | FirstUse(a.uses, name, args, j) :: k == n + j < |cs|)
  {
    NamesAdded(t, a, a.sid);
    FirstPlace(Step(t, a).sessions[a.sid].pending, |t.sessions[a.sid].pending|, a.uses, a.ids, name, args);
  }

  lemma FirstPlace(cs: seq<Call>, n: nat, uses: seq<ToolUse>, ids: seq<CallID>, name: Text, args: Text)
    requires n <= |cs| && NoneOpen(cs[..n], name, args) && AreUses(cs[n..], uses, ids)
    requires forall c <- cs[n..] :: !c.claimed
    ensures var k := FirstUnclaimed(cs, name, args);
      && (k < |cs| ==> n <= k && FirstUse(uses, name, args, k - n))
      && forall j: nat | FirstUse(uses, name, args, j) :: k == n + j
  {
    var k := FirstUnclaimed(cs, name, args);
    forall i | 0 <= i < |cs|
      ensures i < n ==> cs[i].claimed || cs[i].name != name || cs[i].args != args
      ensures n <= i ==> cs[i].name == uses[i - n].name && cs[i].args == uses[i - n].args && !cs[i].claimed
    {
      if i < n {
        assert cs[i] == cs[..n][i];
      } else {
        assert cs[i] == cs[n..][i - n];
      }
    }
    forall j: nat | FirstUse(uses, name, args, j) ensures k == n + j {
      assert cs[n + j].name == name;
    }
  }

  lemma ClaimTakes(t: Table, sid: SessionID, name: Text, args: Text)
    requires sid in t.sessions
    ensures var t', cs := Step(t, Claim(sid, name, args)), t.sessions[sid].pending;
      var k := FirstUnclaimed(cs, name, args);
      && (k == |cs| ==> t' == t)
      && (k < |cs| ==> sid in t'.sessions && t'.sessions[sid].pending == cs[k := cs[k].(claimed := true)])
  {
  }

  // What a call is answered

  /** The first result given for an unresolved call is what its channel holds. */
  lemma ResolveDelivers(t: Table, sid: SessionID, id: CallID, result: Text, k: nat)
    requires Enabled(t, Resolve(sid, id, result)) && k < |t.sessions[sid].pending|
    requires t.sessions[sid].pending[k].id == id && !t.sessions[sid].pending[k].resolved
    requires forall i | 0 <= i < k :: t.sessions[sid].pending[i].id != id
    ensures var t' := Step(t, Resolve(sid, id, result));
      && sid in t'.sessions && k < |t'.sessions[sid].pending|
      && var c := t'.sessions[sid].pending[k]; c.resolved && c.resolver == Full(result)
  {
  }

  /** A reaped session's unresolved calls are told that it is gone, the others keep
      what they have. */
  lemma ReapShuts(t: Table, sid: SessionID, k: nat)
    requires sid in t.live && sid in t.sessions && k < |t.sessions[sid].pending|
    ensures var t' := Step(t, Reap(sid));
      && sid in t'.sessions && sid !in t'.live && k < |t'.sessions[sid].pending|
      && var c, c' := t.sessions[sid].pending[k], t'.sessions[sid].pending[k];
         c'.resolved && c'.resolver == if c.resolved then c.resolver else Shut
  {
  }
}
