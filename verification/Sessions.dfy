/** The table of live tool-calling sessions. Each critical section of the code,
    under the manager's lock or one session's, is one step; registering calls and
    resolving one take two steps each. */
module Sessions {
  import opened Options

  type SessionID = nat
  type CallID = nat

  /** Tool names, canonical arguments and results: compared, never looked into. */
  type Text(==, !new)

  /** The one-slot channel that carries a result to a parked tools/call. */
  datatype Resolver = Empty | Full(result: Text) | Drained(result: Text) | Shut

  datatype ChannelUse = Sent(result: Text) | Closed

  /** `uses` is what has been done to the channel, `given` every result a client
      has offered for this call. */
  datatype Call = Call(
    id: CallID, name: Text, args: Text, claimed: bool, resolved: bool,
    resolver: Resolver, uses: seq<ChannelUse>, given: seq<Text>)

  /** Calls in announcement order; `claims` lists the positions claimed, in order. */
  datatype Session = Session(pending: seq<Call>, reaped: bool, claims: seq<nat>)

  datatype ToolUse = ToolUse(name: Text, args: Text)

  /** The second critical section a registration or a resolution still owes. */
  datatype Half = IndexCalls(sid: SessionID, ids: seq<CallID>) | UnindexCall(id: CallID)

  /** `sessions` holds every session ever created, `live` those still in the manager's map. */
  datatype Table = Table(
    sessions: map<SessionID, Session>, live: set<SessionID>, index: map<CallID, SessionID>,
    halves: set<Half>, maxSessions: nat)

  datatype Action =
    | Create(sid: SessionID)
    | Announce(sid: SessionID, uses: seq<ToolUse>, ids: seq<CallID>)
    | FinishHalf(half: Half)
    | Resolve(sid: SessionID, id: CallID, result: Text)
    | Claim(sid: SessionID, name: Text, args: Text)
    | Collect(sid: SessionID, k: nat)
    | Reap(sid: SessionID)
    | ReapSuperseded(ids: seq<CallID>, keep: Option<SessionID>)
    | Close

  function NewTable(maxSessions: nat): Table {
    Table(map[], {}, map[], {}, maxSessions)
  }

  // Calls of one session

  function IdsOf(s: Session): (ids: set<CallID>) {
    set i | 0 <= i < |s.pending| :: s.pending[i].id
  }

  predicate Has(s: Session, id: CallID) {
    exists i | 0 <= i < |s.pending| :: s.pending[i].id == id
  }

  /** Where PendingByID finds a call: its position, or |pending|. */
  function Find(pending: seq<Call>, id: CallID): (k: nat)
    ensures k <= |pending|
    ensures k < |pending| ==> pending[k].id == id
    ensures forall i | 0 <= i < k :: pending[i].id != id
  {
    if pending == [] || pending[0].id == id then 0 else 1 + Find(pending[1..], id)
  }

  function NewCall(u: ToolUse, id: CallID): Call {
    Call(id, u.name, u.args, false, false, Empty, [], [])
  }

  function NewCalls(uses: seq<ToolUse>, ids: seq<CallID>): (cs: seq<Call>)
    requires |uses| == |ids|
    ensures |cs| == |ids| && forall i | 0 <= i < |ids| :: cs[i] == NewCall(uses[i], ids[i])
  {
    seq(|ids|, i requires 0 <= i < |ids| => NewCall(uses[i], ids[i]))
  }

  predicate Matches(c: Call, name: Text, args: Text) {
    c.name == name && c.args == args
  }

  /** The call ClaimPendingCall picks: the first unclaimed match, or |pending|. */
  function FirstUnclaimed(pending: seq<Call>, name: Text, args: Text): (k: nat)
    ensures k <= |pending|
    ensures k < |pending| ==> !pending[k].claimed && pending[k].name == name && pending[k].args == args
    ensures forall i | 0 <= i < k :: pending[i].claimed || pending[i].name != name || pending[i].args != args
  {
    if pending == [] then 0
    else if !pending[0].claimed && Matches(pending[0], name, args) then 0
    else 1 + FirstUnclaimed(pending[1..], name, args)
  }

  function ResolveCall(c: Call, result: Text): Call {
    if c.resolved then c.(given := c.given + [result])
    else c.(resolved := true, resolver := Full(result), uses := c.uses + [Sent(result)], given := c.given + [result])
  }

  function ShutCall(c: Call): Call {
    if c.resolved then c else c.(resolved := true, resolver := Shut, uses := c.uses + [Closed])
  }

  function ShutCalls(cs: seq<Call>): (r: seq<Call>)
    ensures |r| == |cs| && forall i | 0 <= i < |cs| :: r[i] == ShutCall(cs[i])
  {
    seq(|cs|, i requires 0 <= i < |cs| => ShutCall(cs[i]))
  }

  // The table

  predicate Adding(halves: set<Half>, id: CallID) {
    exists h <- halves :: h.IndexCalls? && id in h.ids
  }

  predicate Known(t: Table, id: CallID) {
    exists sid <- t.sessions :: Has(t.sessions[sid], id)
  }

  /** A call whose entry is about to be taken out of the index is resolved. */
  predicate HalvesResolved(t: Table, sid: SessionID)
    requires sid in t.sessions
  {
    forall i | 0 <= i < |t.sessions[sid].pending| ::
      UnindexCall(t.sessions[sid].pending[i].id) in t.halves ==> t.sessions[sid].pending[i].resolved
  }

  function LookupCall(t: Table, id: CallID): Option<SessionID> {
    if id in t.index && t.index[id] in t.live then Some(t.index[id]) else None
  }

  /** Fresh ids are assumed of the random generator, and a client learns a call's
      id only after its registration has returned. */
  predicate Enabled(t: Table, a: Action) {
    match a
    case Create(sid) => sid !in t.sessions
    case Announce(sid, uses, ids) =>
      && sid in t.sessions && |uses| == |ids|
      && (forall i | 0 <= i < |ids| :: !Known(t, ids[i]))
      && forall i, j | 0 <= i < j < |ids| :: ids[i] != ids[j]
    case FinishHalf(half) => half in t.halves
    case Resolve(sid, id, _) => sid in t.sessions && !Adding(t.halves, id)
    case Claim(sid, _, _) => sid in t.sessions
    case Collect(sid, k) =>
      && sid in t.sessions && k < |t.sessions[sid].pending|
      && t.sessions[sid].pending[k].claimed && t.sessions[sid].pending[k].resolver.Full?
    case _ => true
  }

  /** Reaping a set of sessions under one hold of the manager's lock. */
  function ReapAll(t: Table, sids: set<SessionID>): Table {
    t.(sessions := map sid <- t.sessions ::
         if sid in sids && sid in t.live
         then t.sessions[sid].(pending := ShutCalls(t.sessions[sid].pending), reaped := true)
         else t.sessions[sid],
       live := t.live - sids,
       index := map id <- t.index | t.index[id] !in sids * t.live :: t.index[id])
  }

  function Superseded(t: Table, ids: seq<CallID>, keep: Option<SessionID>): set<SessionID> {
    set i | 0 <= i < |ids| && ids[i] in t.index && Some(t.index[ids[i]]) != keep :: t.index[ids[i]]
  }

  function Step(t: Table, a: Action): Table
    requires Enabled(t, a)
  {
    match a
    case Create(sid) =>
      if |t.live| >= t.maxSessions then t
      else t.(sessions := t.sessions[sid := Session([], false, [])], live := t.live + {sid})
    case Announce(sid, uses, ids) =>
      var s := t.sessions[sid];
      if s.reaped then t
      else t.(sessions := t.sessions[sid := s.(pending := s.pending + NewCalls(uses, ids))],
              halves := t.halves + {IndexCalls(sid, ids)})
    case FinishHalf(half) =>
      var index := match half
        case IndexCalls(sid, ids) => t.index + (map id | id in ids :: sid)
        case UnindexCall(id) => t.index - {id};
      t.(index := index, halves := t.halves - {half})
    case Resolve(sid, id, result) =>
      var s := t.sessions[sid];
      var k := Find(s.pending, id);
      if k == |s.pending| then t
      else
        var t' := t.(sessions := t.sessions[sid := s.(pending := s.pending[k := ResolveCall(s.pending[k], result)])]);
        if s.pending[k].resolved then t' else t'.(halves := t.halves + {UnindexCall(id)})
    case Claim(sid, name, args) =>
      var s := t.sessions[sid];
      var k := FirstUnclaimed(s.pending, name, args);
      if k == |s.pending| then t
      else t.(sessions := t.sessions[sid :=
        s.(pending := s.pending[k := s.pending[k].(claimed := true)], claims := s.claims + [k])])
    case Collect(sid, k) =>
      var s := t.sessions[sid];
      var c := s.pending[k];
      t.(sessions := t.sessions[sid := s.(pending := s.pending[k := c.(resolver := Drained(c.resolver.result))])])
    case Reap(sid) => ReapAll(t, {sid})
    case ReapSuperseded(ids, keep) => ReapAll(t, Superseded(t, ids, keep))
    case Close => ReapAll(t, t.live)
  }

  ghost predicate Run(ts: seq<Table>, acts: seq<Action>, maxSessions: nat) {
    && |ts| == |acts| + 1 && ts[0] == NewTable(maxSessions)
    && forall i {:trigger acts[i]} | 0 <= i < |acts| :: Enabled(ts[i], acts[i]) && ts[i + 1] == Step(ts[i], acts[i])
  }
}
