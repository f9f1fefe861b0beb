/** The session manager and its sessions as the objects the program keeps, each
    critical section a method tied to a step of module Sessions through State(). */
module SessionObjects {
  import opened Options
  import S = Sessions

  /** A message of a request's history, as far as continuing a session goes. */
  datatype HistoryItem = HistoryItem(tool: bool, id: S.CallID, calls: seq<S.CallID>, text: S.Text)

  /** The empty id, which a message that is not a tool's result carries. */
  const NO_ID: S.CallID := 0

  /** The request's history names this call, as a result or among an assistant's calls. */
  predicate Mentions(messages: seq<HistoryItem>, id: S.CallID) {
    id != NO_ID && exists m <- messages :: m.id == id || id in m.calls
  }

  predicate MentionsSession(t: S.Table, messages: seq<HistoryItem>, sid: S.SessionID) {
    exists id <- t.index :: S.LookupCall(t, id) == Some(sid) && Mentions(messages, id)
  }

  /** The live sessions a request abandons: those it names and does not continue. */
  function Abandoned(t: S.Table, messages: seq<HistoryItem>, keep: Option<S.SessionID>): set<S.SessionID> {
    set sid <- t.live | Some(sid) != keep && MentionsSession(t, messages, sid)
  }

  /** The answer to a tools/call: a result or an error, never both; or none yet. */
  datatype Reply = ToolResult(result: S.Text) | NeverAnnounced | SessionGone | Parked(k: nat)

  /** The tool messages a request ends with. */
  function Trailing(messages: seq<HistoryItem>): (r: seq<HistoryItem>) {
    if messages == [] || !messages[|messages| - 1].tool then []
    else Trailing(messages[..|messages| - 1]) + [messages[|messages| - 1]]
  }

  lemma {:induction false} TrailingIs(messages: seq<HistoryItem>, i: nat)
    requires i <= |messages| && (i > 0 ==> !messages[i - 1].tool)
    requires forall j | i <= j < |messages| :: messages[j].tool
    ensures Trailing(messages) == messages[i..]
  {
    if i < |messages| {
      var n := |messages| - 1;
      TrailingIs(messages[..n], i);
      assert messages[i..] == messages[..n][i..] + [messages[n]];
    }
  }

  /** One result resolved, with both its critical sections. */
  function DeliveredOne(t: S.Table, sid: S.SessionID, m: HistoryItem): (r: S.Table)
    requires CanDeliver(t, sid, m)
    ensures r.halves == t.halves && sid in r.sessions && S.HalvesResolved(r, sid)
  {
    var t1 := S.Step(t, S.Resolve(sid, m.id, m.text));
    if Resolves(t.sessions[sid], m.id) then S.Step(t1, S.FinishHalf(S.UnindexCall(m.id))) else t1
  }

  predicate Resolves(s: S.Session, id: S.CallID) {
    var k := S.Find(s.pending, id); k < |s.pending| && !s.pending[k].resolved
  }

  predicate CanDeliver(t: S.Table, sid: S.SessionID, m: HistoryItem) {
    S.Enabled(t, S.Resolve(sid, m.id, m.text)) && S.HalvesResolved(t, sid)
  }

  function Delivered(t: S.Table, sid: S.SessionID, results: seq<HistoryItem>): S.Table
    requires sid in t.sessions && forall i | 0 <= i < |results| :: CanDeliver(t, sid, results[i])
    decreases |results|
  {
    if results == [] then t
    else
      var t1 := DeliveredOne(t, sid, results[0]);
      assert forall i | 0 < i < |results| :: CanDeliver(t, sid, results[i]) && CanDeliver(t1, sid, results[i]);
      Delivered(t1, sid, results[1..])
  }

  // What delivering a list of results comes to

  function ResultsFor(results: seq<HistoryItem>, id: S.CallID): seq<S.Text> {
    if results == [] then []
    else (if results[0].id == id then [results[0].text] else []) + ResultsFor(results[1..], id)
  }

  /** A call given these results, of which the first one counts. */
  function Given(c: S.Call, rs: seq<S.Text>): S.Call {
    if rs == [] then c
    else if c.resolved then c.(given := c.given + rs)
    else c.(resolved := true, resolver := S.Full(rs[0]), uses := c.uses + [S.Sent(rs[0])], given := c.given + rs)
  }

  /** The ids whose calls these results resolve. */
  function NewlyResolved(s: S.Session, results: seq<HistoryItem>): set<S.CallID> {
    set i | 0 <= i < |s.pending| && !s.pending[i].resolved && ResultsFor(results, s.pending[i].id) != []
      :: s.pending[i].id
  }

  ghost predicate DistinctIds(s: S.Session) {
    forall i, j | 0 <= i < j < |s.pending| :: s.pending[i].id != s.pending[j].id
  }

  /** r is t after the results: each call of the session has the results for its own
      id, those resolved by them are no longer indexed, and nothing else changed. */
  ghost predicate NetEffect(t: S.Table, sid: S.SessionID, results: seq<HistoryItem>, r: S.Table)
    requires sid in t.sessions
  {
    var s := t.sessions[sid];
    && r.sessions.Keys == t.sessions.Keys && (forall x <- t.sessions | x != sid :: r.sessions[x] == t.sessions[x])
    && r.sessions[sid] == s.(pending := r.sessions[sid].pending) && |r.sessions[sid].pending| == |s.pending|
    && (forall i | 0 <= i < |s.pending| ::
          r.sessions[sid].pending[i] == Given(s.pending[i], ResultsFor(results, s.pending[i].id)))
    && r.index == t.index - NewlyResolved(s, results)
    && r.live == t.live && r.halves == t.halves && r.maxSessions == t.maxSessions
  }

  lemma GivenOne(c: S.Call, x: S.Text, rs: seq<S.Text>)
    ensures S.ResolveCall(c, x) == Given(c, [x])
    ensures Given(Given(c, [x]), rs) == Given(c, [x] + rs)
  {
    assert c.given + [x] + rs == c.given + ([x] + rs);
  }

  lemma ForCons(m: HistoryItem, rest: seq<HistoryItem>, id: S.CallID)
    ensures ResultsFor([m], id) == if m.id == id then [m.text] else []
    ensures ResultsFor([m] + rest, id) == ResultsFor([m], id) + ResultsFor(rest, id)
  {
    assert ResultsFor([m][1..], id) == [];
    assert ([m] + rest)[1..] == rest;
  }

  lemma DeliveredOneNet(t: S.Table, sid: S.SessionID, m: HistoryItem)
    requires CanDeliver(t, sid, m) && DistinctIds(t.sessions[sid])
    ensures NetEffect(t, sid, [m], DeliveredOne(t, sid, m))
  {
    var s, r := t.sessions[sid], DeliveredOne(t, sid, m);
    var k := S.Find(s.pending, m.id);
    forall id ensures ResultsFor([m], id) == if m.id == id then [m.text] else [] {
      ForCons(m, [], id);
    }
    if k < |s.pending| {
      GivenOne(s.pending[k], m.text, []);
    }
    var gone := NewlyResolved(s, [m]);
    if k < |s.pending| && !s.pending[k].resolved {
      assert gone == {m.id};
    } else {
      assert gone == {};
    }
  }

  lemma NetTwice(t: S.Table, sid: S.SessionID, m: HistoryItem, rest: seq<HistoryItem>, t1: S.Table, r: S.Table)
    requires sid in t.sessions && NetEffect(t, sid, [m], t1) && NetEffect(t1, sid, rest, r)
    ensures NetEffect(t, sid, [m] + rest, r)
  {
    var s, s1, all := t.sessions[sid], t1.sessions[sid], [m] + rest;
    forall i | 0 <= i < |s.pending|
      ensures r.sessions[sid].pending[i] == Given(s.pending[i], ResultsFor(all, s.pending[i].id))
      ensures s1.pending[i].id == s.pending[i].id
      ensures s1.pending[i].resolved == (s.pending[i].resolved || ResultsFor([m], s.pending[i].id) != [])
    {
      ForCons(m, rest, s.pending[i].id);
      GivenOne(s.pending[i], m.text, ResultsFor(rest, s.pending[i].id));
    }
    assert NewlyResolved(s, all) == NewlyResolved(s, [m]) + NewlyResolved(s1, rest);
  }

  /** After a request's results each unresolved call they name holds the first one
      for its id and has left the index; nothing else is any different. */
  lemma {:induction false} DeliveredNet(t: S.Table, sid: S.SessionID, results: seq<HistoryItem>)
    requires sid in t.sessions && DistinctIds(t.sessions[sid])
    requires forall i | 0 <= i < |results| :: CanDeliver(t, sid, results[i])
    ensures NetEffect(t, sid, results, Delivered(t, sid, results))
    decreases |results|
  {
    if results != [] {
      var m, rest := results[0], results[1..];
      var t1 := DeliveredOne(t, sid, m);
      DeliveredOneNet(t, sid, m);
      DeliveredNet(t1, sid, rest);
      NetTwice(t, sid, m, rest, t1, Delivered(t, sid, results));
      assert [m] + rest == results;
    }
  }

  /** The first result a list has for an id. */
  ghost predicate FirstResult(results: seq<HistoryItem>, id: S.CallID, k: nat) {
    k < |results| && results[k].id == id && forall i | 0 <= i < k :: results[i].id != id
  }

  lemma {:induction false} ResultsForFirst(results: seq<HistoryItem>, id: S.CallID)
    ensures ResultsFor(results, id) == [] ==> forall k: nat :: !FirstResult(results, id, k)
    ensures forall k: nat | FirstResult(results, id, k) ::
      ResultsFor(results, id) != [] && ResultsFor(results, id)[0] == results[k].text
  {
    if results != [] && results[0].id != id {
      ResultsForFirst(results[1..], id);
      forall k: nat | FirstResult(results, id, k)
        ensures k > 0 && FirstResult(results[1..], id, k - 1) && results[k] == results[1..][k - 1]
      {
      }
    }
  }

  /** An unresolved call is answered with the first result a request has for its id;
      one the request has no result for is left as it was. */
  lemma DeliversFirst(t: S.Table, sid: S.SessionID, results: seq<HistoryItem>, i: nat)
    requires sid in t.sessions && DistinctIds(t.sessions[sid]) && i < |t.sessions[sid].pending|
    requires forall j | 0 <= j < |results| :: CanDeliver(t, sid, results[j])
    ensures var c, r := t.sessions[sid].pending[i], Delivered(t, sid, results);
      && sid in r.sessions && i < |r.sessions[sid].pending|
      && var c' := r.sessions[sid].pending[i];
         && (forall k: nat | FirstResult(results, c.id, k) && !c.resolved ::
               c'.resolved && c'.resolver == S.Full(results[k].text))
         && ((forall k: nat :: !FirstResult(results, c.id, k)) ==> c' == c)
         && (c.resolved ==> c'.resolver == c.resolver)
  {
    DeliveredNet(t, sid, results);
    ResultsForFirst(results, t.sessions[sid].pending[i].id);
    SomeFirst(results, t.sessions[sid].pending[i].id);
  }

  lemma {:induction false} SomeFirst(results: seq<HistoryItem>, id: S.CallID)
    ensures ResultsFor(results, id) != [] ==> exists k: nat :: FirstResult(results, id, k)
  {
    if results != [] {
      if results[0].id == id {
        assert FirstResult(results, id, 0);
      } else {
        SomeFirst(results[1..], id);
        if k: nat :| FirstResult(results[1..], id, k) {
          assert FirstResult(results, id, k + 1);
        }
      }
    }
  }

  predicate Waiting(s: S.Session) {
    exists i | 0 <= i < |s.pending| :: !s.pending[i].resolved
  }

  /** How long ago each session was last active, and how long it may be. */
  datatype Clock = Clock(age: map<S.SessionID, nat>, toolTimeout: nat, idleTimeout: nat)

  /** Whether a sweep reaps a session. */
  predicate Due(t: S.Table, sid: S.SessionID, clock: Clock) {
    sid in t.live && sid in t.sessions && sid in clock.age &&
    clock.age[sid] > if Waiting(t.sessions[sid]) then clock.toolTimeout else clock.idleTimeout
  }

  /** The calls of `uses`, in order, after those that were there, waiting for a claim
      and a result. */
  ghost predicate TakesUses(before: seq<S.Call>, after: seq<S.Call>, uses: seq<S.ToolUse>, ids: seq<S.CallID>) {
    && |uses| == |ids| && |after| == |before| + |uses| && after[..|before|] == before
    && forall j | 0 <= j < |uses| ::
         var c := after[|before| + j];
         && c.name == uses[j].name && c.args == uses[j].args && c.id == ids[j]
         && !c.claimed && !c.resolved && c.resolver == S.Empty
  }

  /** The unresolved call k, the first of this id, gets the result; nothing else changes. */
  ghost predicate GivesResult(before: seq<S.Call>, after: seq<S.Call>, k: nat, id: S.CallID, result: S.Text) {
    && k < |before| && |after| == |before| && before[k].id == id && !before[k].resolved
    && (forall i | 0 <= i < k :: before[i].id != id)
    && after[k].resolved && after[k].resolver == S.Full(result)
    && after[k].name == before[k].name && after[k].args == before[k].args && after[k].claimed == before[k].claimed
    && forall i | 0 <= i < |before| && i != k :: after[i] == before[i]
  }

  /** The call k is the first nobody has claimed with this name and these arguments. */
  ghost predicate FirstOpen(pending: seq<S.Call>, name: S.Text, args: S.Text, k: nat) {
    && k < |pending| && pending[k].name == name && pending[k].args == args && !pending[k].claimed
    && forall i | 0 <= i < k :: pending[i].name != name || pending[i].args != args || pending[i].claimed
  }

  class Session {
    const id: S.SessionID
    var pending: seq<S.Call>
    var reaped: bool
    ghost var claims: seq<nat>

    constructor (id: S.SessionID)
      ensures this.id == id && State() == S.Session([], false, [])
    {
      this.id, pending, reaped, claims := id, [], false, [];
    }

    ghost function State(): S.Session
      reads this
    {
      S.Session(pending, reaped, claims)
    }

    /** The first critical section of RegisterAnnouncedCalls. */
    method Announce(uses: seq<S.ToolUse>, ids: seq<S.CallID>) returns (ok: bool)
      requires |uses| == |ids|
      modifies this
      ensures ok <==> !old(reaped)
      ensures State() == if ok then old(State()).(pending := old(pending) + S.NewCalls(uses, ids)) else old(State())
      ensures ok ==> TakesUses(old(pending), pending, uses, ids)
    {
      if reaped {
        return false;
      }
      for i := 0 to |uses|
        invariant pending == old(pending) + S.NewCalls(uses, ids)[..i]
        invariant !reaped && claims == old(claims)
      {
        pending := pending + [S.NewCall(uses[i], ids[i])];
      }
      ok := true;
    }

    /** The first critical section of ResolveToolCall. */
    method Resolve(id: S.CallID, result: S.Text) returns (ok: bool)
      modifies this
      ensures var k := S.Find(old(pending), id);
        && (ok <==> k < |old(pending)| && !old(pending)[k].resolved)
        && State() == if k == |old(pending)| then old(State())
                      else old(State()).(pending := old(pending)[k := S.ResolveCall(old(pending)[k], result)])
      ensures ok ==> GivesResult(old(pending), pending, S.Find(old(pending), id), id, result)
    {
      var k := S.Find(pending, id);
      if k == |pending| {
        return false;
      }
      ok := !pending[k].resolved;
      pending := pending[k := S.ResolveCall(pending[k], result)];
    }

    method ClaimPendingCall(name: S.Text, args: S.Text) returns (k: nat)
      modifies this
      ensures k == S.FirstUnclaimed(old(pending), name, args)
      ensures State() == if k == |old(pending)| then old(State())
        else S.Session(old(pending)[k := old(pending)[k].(claimed := true)], old(reaped), old(claims) + [k])
      ensures k < |old(pending)| ==> FirstOpen(old(pending), name, args, k) && |pending| > k && pending[k].claimed
      ensures k == |old(pending)| ==> forall i: nat :: !FirstOpen(old(pending), name, args, i)
    {
      k := 0;
      while k < |pending|
        invariant k <= |pending| && State() == old(State())
        invariant forall i | 0 <= i < k :: pending[i].claimed || !S.Matches(pending[i], name, args)
      {
        if !pending[k].claimed && S.Matches(pending[k], name, args) {
          pending, claims := pending[k := pending[k].(claimed := true)], claims + [k];
          return;
        }
        k := k + 1;
      }
    }

    method HasPending() returns (b: bool)
      ensures b <==> exists i | 0 <= i < |pending| :: !pending[i].resolved
    {
      b := false;
      for i := 0 to |pending|
        invariant !b && forall j | 0 <= j < i :: pending[j].resolved
      {
        if !pending[i].resolved {
          return true;
        }
      }
    }

    /** The part of a reap done under the session's own lock. */
    method Shut()
      modifies this
      ensures State() == old(State()).(pending := S.ShutCalls(old(pending)), reaped := true)
      ensures |pending| == |old(pending)| && reaped
      ensures forall i | 0 <= i < |pending| && old(pending)[i].resolved :: pending[i] == old(pending)[i]
      ensures forall i | 0 <= i < |pending| && !old(pending)[i].resolved ::
                pending[i].resolved && pending[i].resolver == S.Shut
    {
      reaped := true;
      for i := 0 to |pending|
        invariant |pending| == |old(pending)| && reaped && claims == old(claims)
        invariant forall j | 0 <= j < i :: pending[j] == S.ShutCall(old(pending)[j])
        invariant forall j | i <= j < |pending| :: pending[j] == old(pending)[j]
      {
        pending := pending[i := S.ShutCall(pending[i])];
      }
      assert pending == S.ShutCalls(old(pending));
    }
  }

  ghost function States(all: map<S.SessionID, Session>): (r: map<S.SessionID, S.Session>)
    reads set sid | sid in all :: all[sid]
    ensures r.Keys == all.Keys && forall sid <- all :: r[sid] == all[sid].State()
  {
    map sid | sid in all :: all[sid].State()
  }

  /** A change to one session is a change to its entry. */
  lemma OneChanged(before: map<S.SessionID, S.Session>, all: map<S.SessionID, Session>, s: Session)
    requires s.id in all && all[s.id] == s && before.Keys == all.Keys
    requires forall sid <- all | sid != s.id :: before[sid] == all[sid].State()
    ensures States(all) == before[s.id := s.State()]
    ensures before[s.id] == s.State() ==> States(all) == before
  {
  }

  /** Reaping one session, in terms of its entries alone. */
  lemma ReapOne(t: S.Table, sid: S.SessionID)
    ensures sid !in t.live ==> S.ReapAll(t, {sid}) == t
    ensures sid in t.live && sid in t.sessions ==>
      var s := t.sessions[sid];
      S.ReapAll(t, {sid}) == t.(
        sessions := t.sessions[sid := s.(pending := S.ShutCalls(s.pending), reaped := true)],
        live := t.live - {sid},
        index := map id <- t.index | t.index[id] != sid :: t.index[id])
  {
    var r := S.ReapAll(t, {sid});
    if sid !in t.live {
      assert r.sessions == t.sessions && r.live == t.live && r.index == t.index;
    } else if sid in t.sessions {
      var s := t.sessions[sid];
      assert r.sessions == t.sessions[sid := s.(pending := S.ShutCalls(s.pending), reaped := true)];
      assert r.index == map id <- t.index | t.index[id] != sid :: t.index[id];
    }
  }

  method ReferencedToolCallIDs(messages: seq<HistoryItem>) returns (ids: seq<S.CallID>)
    ensures forall id :: id in ids <==> Mentions(messages, id)
  {
    ids := [];
    for i := 0 to |messages|
      invariant forall id :: id in ids <==> Mentions(messages[..i], id)
    {
      assert messages[..i + 1] == messages[..i] + [messages[i]];
      ghost var before := ids;
      if messages[i].id != NO_ID {
        ids := ids + [messages[i].id];
      }
      var calls := messages[i].calls;
      for j := 0 to |calls|
        invariant forall id :: id in ids <==>
          id in before || (id != NO_ID && (id == messages[i].id || id in calls[..j]))
      {
        assert calls[..j + 1] == calls[..j] + [calls[j]];
        if calls[j] != NO_ID {
          ids := ids + [calls[j]];
        }
      }
      assert calls[..|calls|] == calls;
    }
    assert messages[..|messages|] == messages;
  }

  /** The step of resolving, told by what it does to the session and the owed half. */
  lemma ResolveStep(t: S.Table, sid: S.SessionID, id: S.CallID, result: S.Text)
    requires S.Enabled(t, S.Resolve(sid, id, result))
    ensures var s, k := t.sessions[sid], S.Find(t.sessions[sid].pending, id);
      S.Step(t, S.Resolve(sid, id, result)) ==
      if k == |s.pending| then t
      else t.(sessions := t.sessions[sid := s.(pending := s.pending[k := S.ResolveCall(s.pending[k], result)])],
              halves := t.halves + if Resolves(s, id) then {S.UnindexCall(id)} else {})
  {
    assert t.halves + {} == t.halves;
  }

  lemma Created(t: S.Table, sid: S.SessionID)
    requires |t.live| < t.maxSessions && sid !in t.sessions
    ensures S.Step(t, S.Create(sid)) ==
            t.(sessions := t.sessions[sid := S.Session([], false, [])], live := t.live + {sid})
  {
  }

  class SessionManager {
    const maxSessions: nat
    var sessions: map<S.SessionID, Session>
    var index: map<S.CallID, S.SessionID>

    // every session ever made, and what its registrations and resolutions still owe
    ghost var all: map<S.SessionID, Session>
    ghost var halves: set<S.Half>

    ghost function Repr(): set<object>
      reads this
    {
      set sid | sid in all :: all[sid] as object
    }

    ghost predicate Valid()
      reads this, Repr()
    {
      && (forall sid <- all :: all[sid].id == sid)
      && (forall sid <- sessions :: sid in all && sessions[sid] == all[sid])
    }

    ghost function State(): S.Table
      reads this, Repr()
    {
      S.Table(States(all), sessions.Keys, index, halves, maxSessions)
    }

    constructor (maxSessions: nat)
      ensures Valid() && State() == S.NewTable(maxSessions) && Repr() == {}
    {
      this.maxSessions := maxSessions;
      sessions, index, all, halves := map[], map[], map[], {};
    }

    /** `sid` is the generator's fresh id. */
    method CreateSession(sid: S.SessionID) returns (s: Session?)
      requires Valid() && sid !in all
      modifies this
      ensures Valid() && State() == S.Step(old(State()), S.Create(sid))
      ensures s == null <==> |old(sessions)| >= maxSessions
      ensures s != null ==> fresh(s) && sessions == old(sessions)[sid := s] && s.pending == [] && !s.reaped
      ensures s == null ==> sessions == old(sessions)
    {
      assert |sessions| == |State().live|;
      if |sessions| >= maxSessions {
        return null;
      }
      Created(State(), sid);
      s := AddSession(sid);
    }

    method AddSession(sid: S.SessionID) returns (s: Session)
      requires Valid() && sid !in all
      modifies this`sessions, this`all
      ensures Valid() && fresh(s) && sessions == old(sessions)[sid := s] && s.pending == [] && !s.reaped
      ensures var t := old(State());
        State() == t.(sessions := t.sessions[sid := S.Session([], false, [])], live := t.live + {sid})
    {
      s := new Session(sid);
      sessions, all := sessions[sid := s], all[sid := s];
      assert States(all) == old(States(all))[sid := s.State()];
      assert sessions.Keys == old(sessions.Keys) + {sid};
    }

    method GetSessionByToolCallID(id: S.CallID) returns (s: Session?)
      requires Valid()
      ensures var found := S.LookupCall(State(), id);
        if found.Some? then found.value in sessions && s == sessions[found.value] else s == null
      ensures if id in index && index[id] in sessions then s == sessions[index[id]] else s == null
    {
      if id in index && index[id] in sessions {
        return sessions[index[id]];
      }
      s := null;
    }

    // Registering and resolving, two critical sections each

    method AnnounceFirst(s: Session, uses: seq<S.ToolUse>, ids: seq<S.CallID>) returns (ok: bool)
      requires Valid() && s.id in all && all[s.id] == s && S.Enabled(State(), S.Announce(s.id, uses, ids))
      modifies s, this`halves
      ensures Valid() && State() == S.Step(old(State()), S.Announce(s.id, uses, ids))
      ensures ok <==> !old(s.reaped)
      ensures ok ==> S.IndexCalls(s.id, ids) in halves
      ensures ok ==> TakesUses(old(s.pending), s.pending, uses, ids)
    {
      ghost var before := States(all);
      ok := s.Announce(uses, ids);
      OneChanged(before, all, s);
      if ok {
        halves := halves + {S.IndexCalls(s.id, ids)};
      }
    }

    method AnnounceSecond(sid: S.SessionID, ids: seq<S.CallID>)
      requires Valid() && S.IndexCalls(sid, ids) in halves
      modifies this`index, this`halves
      ensures Valid() && State() == S.Step(old(State()), S.FinishHalf(S.IndexCalls(sid, ids)))
      ensures forall id :: id in index <==> id in old(index) || id in ids
      ensures forall id <- index :: index[id] == if id in ids then sid else old(index)[id]
    {
      for i := 0 to |ids|
        invariant Valid() && halves == old(halves)
        invariant index == old(index) + (map id | id in ids[..i] :: sid)
      {
        index := index[ids[i] := sid];
        assert ids[..i + 1] == ids[..i] + [ids[i]];
      }
      assert ids[..|ids|] == ids;
      halves := halves - {S.IndexCalls(sid, ids)};
    }

    method ResolveFirst(s: Session, id: S.CallID, result: S.Text) returns (ok: bool)
      requires Valid() && s.id in all && all[s.id] == s && S.Enabled(State(), S.Resolve(s.id, id, result))
      modifies s, this`halves
      ensures Valid() && State() == S.Step(old(State()), S.Resolve(s.id, id, result))
      ensures halves == old(halves) + if ok then {S.UnindexCall(id)} else {}
      ensures ok <==> Resolves(old(s.State()), id)
      ensures ok ==> GivesResult(old(s.pending), s.pending, S.Find(old(s.pending), id), id, result)
    {
      ResolveStep(State(), s.id, id, result);
      ok := ResolveIn(s, id, result);
      if ok {
        halves := halves + {S.UnindexCall(id)};
      }
    }

    method ResolveIn(s: Session, id: S.CallID, result: S.Text) returns (ok: bool)
      requires Valid() && s.id in all && all[s.id] == s
      modifies s
      ensures Valid() && (ok <==> Resolves(old(s.State()), id))
      ensures var was, k := old(s.State()), S.Find(old(s.pending), id);
        States(all) == if k == |was.pending| then old(States(all))
        else old(States(all))[s.id := was.(pending := was.pending[k := S.ResolveCall(was.pending[k], result)])]
      ensures ok ==> GivesResult(old(s.pending), s.pending, S.Find(old(s.pending), id), id, result)
    {
      ghost var before := States(all);
      ok := s.Resolve(id, result);
      OneChanged(before, all, s);
    }

    method ResolveSecond(id: S.CallID)
      requires Valid() && S.UnindexCall(id) in halves
      modifies this`index, this`halves
      ensures Valid() && State() == S.Step(old(State()), S.FinishHalf(S.UnindexCall(id)))
      ensures forall x :: x in index <==> x in old(index) && x != id
      ensures forall x <- index :: index[x] == old(index)[x]
    {
      index := index - {id};
      halves := halves - {S.UnindexCall(id)};
    }

    method Claim(s: Session, name: S.Text, args: S.Text) returns (k: nat)
      requires Valid() && s.id in all && all[s.id] == s
      modifies s
      ensures Valid() && State() == S.Step(old(State()), S.Claim(s.id, name, args))
      ensures k == S.FirstUnclaimed(old(s.pending), name, args)
    {
      ghost var before, was := States(all), s.State();
      k := s.ClaimPendingCall(name, args);
      assert k == |was.pending| ==> s.State() == was && before[s.id] == was;
      OneChanged(before, all, s);
    }

    // A parked tools/call

    method Collect(s: Session, k: nat) returns (result: S.Text)
      requires Valid() && s.id in all && all[s.id] == s && S.Enabled(State(), S.Collect(s.id, k))
      modifies s
      ensures Valid() && State() == S.Step(old(State()), S.Collect(s.id, k))
      ensures result == old(s.pending[k].resolver).result
    {
      ghost var before := States(all);
      result := s.pending[k].resolver.result;
      s.pending := s.pending[k := s.pending[k].(resolver := S.Drained(result))];
      OneChanged(before, all, s);
    }

    /** What a claimed call is answered, or that its request stays parked. */
    method Answer(s: Session, k: nat) returns (reply: Reply)
      requires Valid() && s.id in all && all[s.id] == s
      requires k < |s.pending| && s.pending[k].claimed && !s.pending[k].resolver.Drained?
      modifies s
      ensures Valid()
      ensures match old(s.pending)[k].resolver
        case Empty => reply == Parked(k) && State() == old(State())
        case Shut => reply == SessionGone && State() == old(State())
        case Full(r) => reply == ToolResult(r) && State() == S.Step(old(State()), S.Collect(s.id, k))
        case Drained(_) => false
    {
      match s.pending[k].resolver
      case Empty => reply := Parked(k);
      case Full(_) =>
        var result := Collect(s, k);
        reply := ToolResult(result);
      case _ => reply := SessionGone;
    }

    /** One pass of handleMCPToolsCall from its arguments on. A try that claims
        nothing is a step of its own that changes nothing, so the tries before this
        one may have anything between them. */
    method ToolsCall(s: Session, name: S.Text, args: S.Text) returns (reply: Reply)
      requires Valid() && s.id in all && all[s.id] == s
      requires forall i | 0 <= i < |s.pending| :: s.pending[i].resolver.Drained? ==> s.pending[i].claimed
      modifies s
      ensures Valid()
      ensures var k := S.FirstUnclaimed(old(s.pending), name, args);
        if k == |old(s.pending)| then reply == NeverAnnounced && State() == old(State())
        else
          var t := S.Step(old(State()), S.Claim(s.id, name, args));
          match old(s.pending)[k].resolver
          case Empty => reply == Parked(k) && State() == t
          case Shut => reply == SessionGone && State() == t
          case Full(r) => reply == ToolResult(r) && S.Enabled(t, S.Collect(s.id, k))
                          && State() == S.Step(t, S.Collect(s.id, k))
          case Drained(_) => false
      ensures reply == NeverAnnounced ==> forall i: nat :: !FirstOpen(old(s.pending), name, args, i)
      ensures reply != NeverAnnounced ==>
                FirstOpen(old(s.pending), name, args, S.FirstUnclaimed(old(s.pending), name, args))
    {
      var k := Claim(s, name, args);
      if k == |s.pending| {
        return NeverAnnounced;
      }
      reply := Answer(s, k);
    }

    // A request that continues a session

    method FindContinuation(messages: seq<HistoryItem>) returns (s: Session?, results: seq<HistoryItem>)
      requires Valid()
      ensures results == Trailing(messages)
      ensures s == null ==> forall i | 0 <= i < |results| :: S.LookupCall(State(), results[i].id) == None
      ensures s != null ==> exists i | 0 <= i < |results| ::
        && S.LookupCall(State(), results[i].id) == Some(s.id)
        && forall j | 0 <= j < i :: S.LookupCall(State(), results[j].id) == None
    {
      results := [];
      var i := |messages|;
      while i > 0 && messages[i - 1].tool
        invariant 0 <= i <= |messages| && results == messages[i..]
        invariant forall j | i <= j < |messages| :: messages[j].tool
      {
        i := i - 1;
        results := [messages[i]] + results;
      }
      TrailingIs(messages, i);
      for k := 0 to |results|
        invariant forall j | 0 <= j < k :: S.LookupCall(State(), results[j].id) == None
      {
        s := GetSessionByToolCallID(results[k].id);
        if s != null {
          return;
        }
      }
      s := null;
    }

    /** What every request does before it waits for a slot: find the session it
        continues, and reap the live ones it names but does not continue. */
    method BeginRequest(messages: seq<HistoryItem>) returns (s: Session?, results: seq<HistoryItem>)
      requires Valid()
      modifies this, Repr()
      ensures Valid() && results == Trailing(messages)
      ensures s != null ==> s.id in old(State()).live
      ensures var t, keep := old(State()), if s == null then None else Some(s.id);
        State() == S.ReapAll(t, Abandoned(t, messages, keep))
      ensures forall sid <- old(sessions) ::
        sid !in sessions <==>
        (s == null || s.id != sid) && NamesCallOf(old(index), messages, sid)
    {
      s, results := FindContinuation(messages);
      var ids := ReferencedToolCallIDs(messages);
      var keep := if s == null then None else Some(s.id);
      AbandonedAre(State(), messages, ids, keep);
      AbandonedNamed(State(), messages, keep);
      assert State().live == sessions.Keys;
      var _ := ReapSuperseded(ids, keep);
      assert State().live == sessions.Keys;
    }

    method DeliverOne(s: Session, m: HistoryItem)
      requires Valid() && s.id in all && all[s.id] == s && CanDeliver(State(), s.id, m)
      modifies s, this`index, this`halves
      ensures Valid() && State() == DeliveredOne(old(State()), s.id, m) && halves == old(halves)
    {
      var ok := ResolveFirst(s, m.id, m.text);
      if ok {
        ResolveSecond(m.id);
      }
    }

    /** The resume branch of handleToolTurn. */
    method DeliverResults(s: Session, results: seq<HistoryItem>)
      requires Valid() && s.id in all && all[s.id] == s
      requires forall i | 0 <= i < |results| :: CanDeliver(State(), s.id, results[i])
      modifies s, this`index, this`halves
      ensures Valid() && State() == Delivered(old(State()), s.id, results)
      ensures DistinctIds(old(s.State())) ==> NetEffect(old(State()), s.id, results, State())
    {
      ghost var t := State();
      var rest := results;
      while rest != []
        invariant Valid() && all == old(all) && halves == t.halves
        invariant forall i | 0 <= i < |rest| :: CanDeliver(State(), s.id, rest[i])
        invariant Delivered(t, s.id, results) == Delivered(State(), s.id, rest)
        decreases |rest|
      {
        DeliverOne(s, rest[0]);
        rest := rest[1..];
      }
      if DistinctIds(t.sessions[s.id]) {
        DeliveredNet(t, s.id, results);
      }
    }

    // Reaping

    method ReapSessionLocked(sid: S.SessionID)
      requires Valid()
      modifies this, Repr()
      ensures Valid() && State() == S.ReapAll(old(State()), {sid}) && all == old(all)
      ensures sessions == old(sessions) - {sid}
      ensures sid in old(sessions) ==>
        all[sid].reaped && forall id :: id in index <==> id in old(index) && old(index)[id] != sid
      ensures sid !in old(sessions) ==> index == old(index)
    {
      ReapOne(State(), sid);
      if sid !in sessions {
        return;
      }
      ShutIn(sessions[sid]);
      ForgetSession(sid);
    }

    method ForgetSession(sid: S.SessionID)
      requires Valid()
      modifies this`sessions, this`index
      ensures Valid() && sessions == old(sessions) - {sid}
      ensures State() == old(State()).(
        live := old(sessions.Keys) - {sid}, index := map id <- old(index) | old(index)[id] != sid :: old(index)[id])
    {
      sessions := sessions - {sid};
      index := map id <- index | index[id] != sid :: index[id];
    }

    method ShutIn(s: Session)
      requires Valid() && s.id in all && all[s.id] == s
      modifies s
      ensures Valid() && s.reaped
      ensures var was := old(s.State());
        States(all) == old(States(all))[s.id := was.(pending := S.ShutCalls(was.pending), reaped := true)]
    {
      ghost var before := States(all);
      s.Shut();
      OneChanged(before, all, s);
    }

    method SweepOne(sid: S.SessionID, clock: Clock) returns (reaped: bool)
      requires Valid() && sid in sessions && sid in clock.age
      modifies this, Repr()
      ensures Valid() && all == old(all)
      ensures reaped <==> Due(old(State()), sid, clock)
      ensures State() == S.ReapAll(old(State()), if reaped then {sid} else {})
    {
      var waiting := sessions[sid].HasPending();
      assert waiting <==> Waiting(State().sessions[sid]);
      ReapNone(State());
      reaped := (waiting && clock.age[sid] > clock.toolTimeout) || (!waiting && clock.age[sid] > clock.idleTimeout);
      if reaped {
        ReapSessionLocked(sid);
      }
    }

    /** What a sweep has done to the table t it found, with `todo` still to look at. */
    ghost predicate Swept(t: S.Table, due: set<S.SessionID>, todo: set<S.SessionID>,
                          clock: Clock)
      reads this, Repr()
    {
      && Valid() && State() == S.ReapAll(t, due - todo) && todo <= sessions.Keys
      && forall sid <- todo :: sid in due <==> Due(State(), sid, clock)
    }

    lemma SweepBegins(due: set<S.SessionID>, clock: Clock)
      requires Valid() && forall sid :: sid in due <==> Due(State(), sid, clock)
      ensures Swept(State(), due, sessions.Keys, clock)
    {
      ReapNone(State());
      assert due - sessions.Keys == {};
    }

    lemma SweepEnds(t: S.Table, due: set<S.SessionID>, todo: set<S.SessionID>,
                    clock: Clock)
      requires Swept(t, due, todo, clock) && todo == {}
      ensures Valid() && State() == S.ReapAll(t, due)
    {
      assert due - todo == due;
    }

    method SweepNext(ghost t: S.Table, ghost due: set<S.SessionID>, ghost todo: set<S.SessionID>, sid: S.SessionID,
                     clock: Clock)
      requires Swept(t, due, todo, clock) && sid in todo && sid in clock.age
      modifies this, Repr()
      ensures all == old(all) && Swept(t, due, todo - {sid}, clock)
    {
      var reaped := SweepOne(sid, clock);
      ghost var gone := if reaped then {sid} else {};
      assert due - (todo - {sid}) == due - todo + gone;
      StillDue(old(State()), gone, clock);
      ReapMore(t, due - todo, gone);
    }

    /** Waiting sessions go by the tool timeout, the others by the idle timeout. */
    method Sweep(clock: Clock)
      requires Valid() && sessions.Keys <= clock.age.Keys
      modifies this, Repr()
      ensures Valid() && all == old(all)
      ensures forall sid <- old(sessions) ::
        var waiting := exists i | 0 <= i < |old(all[sid].pending)| :: !old(all[sid].pending)[i].resolved;
        sid in sessions <==> clock.age[sid] <= if waiting then clock.toolTimeout else clock.idleTimeout
      ensures State() == S.ReapAll(old(State()), old(State()).live - State().live)
    {
      ghost var t := State();
      ghost var due := set sid <- t.live | Due(t, sid, clock);
      var todo := sessions.Keys;
      SweepBegins(due, clock);
      while todo != {}
        invariant all == old(all) && Swept(t, due, todo, clock)
        decreases todo
      {
        var sid :| sid in todo;
        SweepNext(t, due, todo, sid, clock);
        todo := todo - {sid};
      }
      SweepEnds(t, due, todo, clock);
      SweptAre(t, due, clock);
    }

    lemma SweptAre(t: S.Table, due: set<S.SessionID>, clock: Clock)
      requires State() == S.ReapAll(t, due) && due == set sid <- t.live | Due(t, sid, clock)
      ensures t.live - State().live == due
      ensures forall sid <- t.live | sid in t.sessions && sid in clock.age ::
        sid in sessions <==> clock.age[sid] <= if Waiting(t.sessions[sid]) then clock.toolTimeout else clock.idleTimeout
    {
      assert State().live == sessions.Keys;
    }

    method Close()
      requires Valid()
      modifies this, Repr()
      ensures Valid() && State() == S.Step(old(State()), S.Close) && all == old(all)
      ensures sessions == map[] && forall sid <- old(sessions) :: all[sid].reaped
    {
      ReapSet(sessions.Keys);
    }

    method ReapSuperseded(ids: seq<S.CallID>, keep: Option<S.SessionID>) returns (count: nat)
      requires Valid()
      modifies this, Repr()
      ensures Valid() && State() == S.Step(old(State()), S.ReapSuperseded(ids, keep))
      ensures count == |S.Superseded(old(State()), ids, keep)|
    {
      ghost var t := State();
      var superseded: set<S.SessionID> := {};
      for i := 0 to |ids|
        invariant superseded == S.Superseded(t, ids[..i], keep)
        modifies {}
      {
        SupersededSnoc(t, ids, keep, i);
        if ids[i] in index && Some(index[ids[i]]) != keep {
          superseded := superseded + {index[ids[i]]};
        }
      }
      assert ids[..|ids|] == ids;
      count := |superseded|;
      ReapSet(superseded);
    }

    method ReapSet(sids: set<S.SessionID>)
      requires Valid()
      modifies this, Repr()
      ensures Valid() && State() == S.ReapAll(old(State()), sids) && all == old(all)
    {
      var todo := sids;
      ReapNone(State());
      while todo != {}
        invariant Valid() && todo <= sids && all == old(all)
        invariant State() == S.ReapAll(old(State()), sids - todo)
        decreases |todo|
      {
        var sid :| sid in todo;
        assert sids - (todo - {sid}) == (sids - todo) + {sid};
        ReapMore(old(State()), sids - todo, {sid});
        ReapSessionLocked(sid);
        todo := todo - {sid};
      }
      assert sids - {} == sids;
    }
  }

  /** The messages name a call that the index has under this session. */
  ghost predicate NamesCallOf(index: map<S.CallID, S.SessionID>, messages: seq<HistoryItem>, sid: S.SessionID) {
    exists id <- index :: index[id] == sid && id != 0 && exists m <- messages :: m.id == id || id in m.calls
  }

  lemma AbandonedNamed(t: S.Table, messages: seq<HistoryItem>, keep: Option<S.SessionID>)
    ensures var t' := S.ReapAll(t, Abandoned(t, messages, keep));
      forall sid <- t.live ::
        sid !in t'.live <==> Some(sid) != keep && NamesCallOf(t.index, messages, sid)
  {
    forall sid <- t.live
      ensures MentionsSession(t, messages, sid) <==> NamesCallOf(t.index, messages, sid)
    {
      if id :| id in t.index && t.index[id] == sid && id != 0 && exists m <- messages :: m.id == id || id in m.calls {
        assert S.LookupCall(t, id) == Some(sid) && Mentions(messages, id);
      }
    }
  }

  lemma AbandonedAre(t: S.Table, messages: seq<HistoryItem>, ids: seq<S.CallID>, keep: Option<S.SessionID>)
    requires forall id :: id in ids <==> Mentions(messages, id)
    ensures S.Step(t, S.ReapSuperseded(ids, keep)) == S.ReapAll(t, Abandoned(t, messages, keep))
  {
    var named, gone := S.Superseded(t, ids, keep), Abandoned(t, messages, keep);
    forall sid ensures sid in named * t.live <==> sid in gone {
      if sid in named * t.live {
        var i :| 0 <= i < |ids| && ids[i] in t.index && t.index[ids[i]] == sid && Some(sid) != keep;
        assert S.LookupCall(t, ids[i]) == Some(sid) && Mentions(messages, ids[i]);
      }
      if sid in gone {
        var id :| id in t.index && S.LookupCall(t, id) == Some(sid) && Mentions(messages, id);
        assert id in ids;
      }
    }
    assert named * t.live == gone * t.live;
    var r, u := S.ReapAll(t, named), S.ReapAll(t, gone);
    assert r.sessions == u.sessions && r.live == u.live && r.index == u.index;
  }

  /** Reaping others does not change whether a session is due. */
  lemma StillDue(t: S.Table, gone: set<S.SessionID>, clock: Clock)
    ensures forall sid | sid !in gone ::
      Due(S.ReapAll(t, gone), sid, clock) <==> Due(t, sid, clock)
  {
  }

  lemma SupersededSnoc(t: S.Table, ids: seq<S.CallID>, keep: Option<S.SessionID>, i: nat)
    requires i < |ids|
    ensures S.Superseded(t, ids[..i + 1], keep) == S.Superseded(t, ids[..i], keep)
      + if ids[i] in t.index && Some(t.index[ids[i]]) != keep then {t.index[ids[i]]} else {}
  {
    var was, now := ids[..i], ids[..i + 1];
    forall sid
      ensures sid in S.Superseded(t, was, keep) ==> sid in S.Superseded(t, now, keep)
    {
      if sid in S.Superseded(t, was, keep) {
        var j :| 0 <= j < |was| && was[j] in t.index && Some(t.index[was[j]]) != keep && t.index[was[j]] == sid;
        assert now[j] == was[j];
      }
    }
    assert now[i] == ids[i];
    forall sid | sid in S.Superseded(t, now, keep)
      ensures sid in S.Superseded(t, was, keep) || (ids[i] in t.index && sid == t.index[ids[i]])
    {
      var j :| 0 <= j < |now| && now[j] in t.index && Some(t.index[now[j]]) != keep && t.index[now[j]] == sid;
      assert j < i ==> was[j] == now[j];
    }
  }

  lemma ReapNone(t: S.Table)
    ensures S.ReapAll(t, {}) == t
  {
    var r := S.ReapAll(t, {});
    assert r.sessions == t.sessions && r.live == t.live && r.index == t.index;
  }

  lemma ReapMore(t: S.Table, sids: set<S.SessionID>, more: set<S.SessionID>)
    ensures S.ReapAll(S.ReapAll(t, sids), more) == S.ReapAll(t, sids + more)
  {
    var r, u := S.ReapAll(S.ReapAll(t, sids), more), S.ReapAll(t, sids + more);
    assert r.sessions == u.sessions && r.live == u.live && r.index == u.index;
  }
}
