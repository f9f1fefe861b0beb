/** Resuming a conversation: a hit is the conversation that was recorded, and a
    recorded conversation is a hit. */
module Resume {
  import opened Options
  import opened Conversations
  import opened Lru
  import opened ResumeStores

  datatype Plan = Plan(persist: bool, hit: bool, cliSessionId: string, systemPrompt: string, prompt: string)

  const FLATTEN: Plan := Plan(false, false, "", "", "")

  function Answered(ms: seq<Message>, text: string): seq<Message> {
    ms + [Message(Assistant, Str(text), "", [])]
  }

  /** What the server does with its store of resumable sessions. `Recorded` has
      the reply and the session of a completion; no session is "". */
  datatype Event =
    | Planned(ms: seq<Message>, model: string, effort: string)
    | Recorded(ms: seq<Message>, model: string, effort: string, text: string, cliSessionId: string)

  /** Through the last reply, or nothing when the turn cannot be resumed. */
  ghost function Prefix(ms: seq<Message>): Option<seq<Message>> {
    if exists n, text :: SplitsAt(ms, n, text) then
      var n: nat, text: string :| SplitsAt(ms, n, text);
      Some(ms[..n])
    else None
  }

  lemma PrefixIs(ms: seq<Message>, n: nat, text: string)
    requires SplitsAt(ms, n, text)
    ensures Prefix(ms) == Some(ms[..n])
  {
    var n': nat, text': string :| SplitsAt(ms, n', text') && Prefix(ms) == Some(ms[..n']);
    SplitOnce(ms, n, text, n', text');
  }

  /** An event that leaves the store alone is a Get of no key. */
  ghost function OpOf(e: Event): Op {
    match e
    case Planned(ms, model, effort) =>
      if Resumable(ms) && Prefix(ms).Some? then Op.Get(FingerprintOf(Prefix(ms).value, model, effort))
      else Op.Get(NoKey)
    case Recorded(ms, model, effort, text, id) =>
      if Resumable(ms) then Op.Put(FingerprintOf(Answered(ms, text), model, effort), id)
      else Op.Get(NoKey)
  }

  ghost function Ops(run: seq<Event>): seq<Op> {
    seq(|run|, i requires 0 <= i < |run| => OpOf(run[i]))
  }

  /** What planning decides when the store holds c. */
  ghost predicate PlanIs(ms: seq<Message>, model: string, effort: string, c: Cache, plan: Plan) {
    var op := OpOf(Planned(ms, model, effort));
    && plan.persist == Resumable(ms)
    && plan.hit == (op.key.Key? && op.key in c.ids)
    && (if plan.hit then
          && plan.cliSessionId == c.ids[op.key] && plan.systemPrompt == SystemPrompt(ms)
          && (exists n :: SplitsAt(ms, n, plan.prompt))
        else plan == FLATTEN.(persist := plan.persist))
  }

  // The server

  class Server {
    const resume: ResumeStore?

    constructor (resume: ResumeStore?)
      ensures this.resume == resume
    {
      this.resume := resume;
    }

    method PlanResumeTurn(ms: seq<Message>, model: string, effort: string) returns (plan: Plan)
      requires resume != null ==> resume.Valid()
      modifies resume
      ensures resume == null ==> plan == FLATTEN
      ensures resume != null ==>
        && resume.Valid() && PlanIs(ms, model, effort, old(resume.Contents()), plan)
        && resume.Contents() == Step(old(resume.Contents()), OpOf(Planned(ms, model, effort)), resume.max)
    {
      if resume == null {
        return FLATTEN;
      }
      var resumable := IsResumableConversation(ms);
      if !resumable {
        return FLATTEN;
      }
      plan := FLATTEN.(persist := true);
      var split := SplitResumeTurn(ms);
      if split == NoSplit {
        return;
      }
      PrefixIs(ms, |split.prefix|, split.userText);
      var id, hit := LookUp(split.prefix, model, effort);
      if !hit {
        return;
      }
      var systemPrompt := SystemPromptOf(ms);
      plan := Plan(true, true, id, systemPrompt, split.userText);
    }

    method LookUp(prefix: seq<Message>, model: string, effort: string) returns (id: string, hit: bool)
      requires resume != null && resume.Valid()
      modifies resume
      ensures resume.Valid()
      ensures var was, key := old(resume.Contents()), FingerprintOf(prefix, model, effort);
        && resume.Contents() == Step(was, Op.Get(key), resume.max)
        && hit == (key.Key? && key in was.ids) && (hit ==> id == was.ids[key])
    {
      var key := ResumeFingerprint(prefix, model, effort);
      id, hit := resume.Get(key);
    }

    method RecordResumableSession(ms: seq<Message>, model: string, effort: string, text: string, cliSessionId: string)
      requires resume != null ==> resume.Valid()
      modifies resume, if resume == null then {} else resume.entries.Values
      ensures resume != null ==>
        && resume.Valid()
        && resume.Contents() ==
           Step(old(resume.Contents()), OpOf(Recorded(ms, model, effort, text, cliSessionId)), resume.max)
    {
      if resume == null || cliSessionId == "" {
        return;
      }
      var resumable := IsResumableConversation(ms);
      if !resumable {
        return;
      }
      var next := ms + [Message(Assistant, Str(text), "", [])];
      var key := ResumeFingerprint(next, model, effort);
      resume.Put(key, cliSessionId);
    }
  }

  // A hit is the conversation that was recorded

  lemma {:induction false} LatestAt(ops: seq<Op>, k: Fingerprint) returns (i: nat)
    requires Latest(ops, k).Some?
    ensures i < |ops| && ops[i].Stores() && ops[i].key == k && Latest(ops, k) == Some(ops[i].id)
    ensures forall j | i < j < |ops| :: !(ops[j].Stores() && ops[j].key == k)
  {
    var last := |ops| - 1;
    if ops[last].Stores() && ops[last].key == k {
      i := last;
    } else {
      i := LatestAt(ops[..last], k);
    }
  }

  ghost predicate Stored(e: Event) {
    e.Recorded? && e.cliSessionId != "" && Resumable(e.ms)
  }

  ghost predicate RecordedTalk(e: Event, prefix: seq<Message>, model: string, effort: string) {
    && Stored(e)
    && e.model == model && e.effort == effort && SameTalk(prefix, Answered(e.ms, e.text))
  }

  lemma StoresTalk(e: Event, prefix: seq<Message>, model: string, effort: string)
    requires Readable(prefix)
    ensures OpOf(e).Stores() && OpOf(e).key == FingerprintOf(prefix, model, effort) <==>
            RecordedTalk(e, prefix, model, effort)
  {
    if e.Recorded? {
      SameKey(prefix, model, effort, Answered(e.ms, e.text), e.model, e.effort);
    }
  }

  /** A hit names the session that was last recorded for a conversation of the
      same roles and texts, under the same model and effort. */
  lemma HitIsRecorded(run: seq<Event>, max: nat, ms: seq<Message>, model: string, effort: string, plan: Plan)
    returns (i: nat)
    requires max >= 1 && PlanIs(ms, model, effort, Run(Ops(run), max), plan) && plan.hit
    ensures Resumable(ms) && Prefix(ms).Some?
    ensures i < |run| && RecordedTalk(run[i], Prefix(ms).value, model, effort)
    ensures plan.cliSessionId == run[i].cliSessionId
    ensures forall j | i < j < |run| :: !RecordedTalk(run[j], Prefix(ms).value, model, effort)
  {
    var prefix := Prefix(ms).value;
    var ops, key := Ops(run), FingerprintOf(prefix, model, effort);
    RunRefines(ops, max);
    i := LatestAt(ops, key);
    forall j | i <= j < |run|
      ensures ops[j].Stores() && ops[j].key == key <==> RecordedTalk(run[j], prefix, model, effort)
    {
      StoresTalk(run[j], prefix, model, effort);
    }
  }

  // A recorded conversation is a hit

  ghost predicate UserTurns(users: seq<Message>, text: string) {
    && users != [] && Resumable(users) && (forall m <- users :: m.role == User)
    && text == Join(NonEmpty(Texts(users)), PARAGRAPH) && text != ""
  }

  lemma NextTurn(ms: seq<Message>, reply: Message, users: seq<Message>, text: string)
    requires Resumable(ms) && reply.role == Assistant && reply.toolCalls == [] && TextOf(reply).Some?
    requires UserTurns(users, text)
    ensures var next := ms + [reply] + users;
      Resumable(next) && SplitsAt(next, |ms| + 1, text) && Prefix(next) == Some(ms + [reply])
  {
    var next := ms + [reply] + users;
    assert next[..|ms| + 1] == ms + [reply];
    assert next[|ms| + 1..] == users;
    PrefixIs(next, |ms| + 1, text);
  }

  lemma {:induction false} LatestIs(ops: seq<Op>, i: nat)
    requires i < |ops| && ops[i].Stores()
    requires forall j | i < j < |ops| :: !(ops[j].Stores() && ops[j].key == ops[i].key)
    ensures Latest(ops, ops[i].key) == Some(ops[i].id)
  {
    var last := |ops| - 1;
    if i < last {
      LatestIs(ops[..last], i);
    }
  }

  ghost predicate Replies(reply: Message, text: string) {
    reply.role == Assistant && reply.toolCalls == [] && TextOf(reply) == Some(text)
  }

  lemma NextKey(e: Event, reply: Message, users: seq<Message>, text: string)
    requires Stored(e) && Replies(reply, e.text) && UserTurns(users, text)
    ensures OpOf(e).Stores()
    ensures OpOf(Planned(e.ms + [reply] + users, e.model, e.effort)) == Op.Get(OpOf(e).key)
  {
    NextTurn(e.ms, reply, users, text);
    SameKey(e.ms + [reply], e.model, e.effort, Answered(e.ms, e.text), e.model, e.effort);
  }

  lemma LatestRecorded(run: seq<Event>, i: nat, max: nat)
    requires max >= 1 && i < |run| && OpOf(run[i]).Stores()
    requires forall j | i < j < |run| :: !(OpOf(run[j]).Stores() && OpOf(run[j]).key == OpOf(run[i]).key)
    requires OpOf(run[i]).key in Run(Ops(run), max).ids
    ensures Run(Ops(run), max).ids[OpOf(run[i]).key] == OpOf(run[i]).id
  {
    RunRefines(Ops(run), max);
    LatestIs(Ops(run), i);
  }

  lemma OnePrompt(ms: seq<Message>, n: nat, text: string)
    requires SplitsAt(ms, n, text)
    ensures forall n', text' :: SplitsAt(ms, n', text') ==> text' == text
  {
    forall n', text' | SplitsAt(ms, n', text') ensures text' == text {
      SplitOnce(ms, n, text, n', text');
    }
  }

  /** While its key is in the store, the conversation recorded last under it is
      resumed when the client sends it back with more user turns: the session is
      the recorded one and the prompt is exactly the new text. */
  lemma RecordedIsHit(run: seq<Event>, i: nat, max: nat, reply: Message, users: seq<Message>, text: string, plan: Plan)
    requires max >= 1 && i < |run| && Stored(run[i]) && Replies(reply, run[i].text) && UserTurns(users, text)
    requires forall j | i < j < |run| :: !(OpOf(run[j]).Stores() && OpOf(run[j]).key == OpOf(run[i]).key)
    requires OpOf(run[i]).key in Run(Ops(run), max).ids
    requires PlanIs(run[i].ms + [reply] + users, run[i].model, run[i].effort, Run(Ops(run), max), plan)
    ensures plan == Plan(true, true, run[i].cliSessionId, SystemPrompt(run[i].ms + [reply] + users), text)
  {
    var e := run[i];
    NextKey(e, reply, users, text);
    LatestRecorded(run, i, max);
    NextTurn(e.ms, reply, users, text);
    OnePrompt(e.ms + [reply] + users, |e.ms| + 1, text);
  }

  lemma {:induction false} TouchesSince(ops: seq<Op>, i: nat, max: nat) returns (since: seq<Fingerprint>)
    requires i <= |ops|
    ensures Touches(ops, max) == Touches(ops[..i], max) + since && |since| <= |ops| - i
  {
    if i == |ops| {
      assert ops[..i] == ops;
      since := [];
    } else {
      var front := ops[..|ops| - 1];
      assert front[..i] == ops[..i];
      since := TouchesSince(front, i, max);
      if Touches(ops, max) != Touches(front, max) {
        since := since + [ops[|ops| - 1].key];
      }
    }
  }

  lemma {:induction false} LastPlace(t: seq<Fingerprint>, from: nat) returns (j: nat)
    requires from < |t|
    ensures from <= j < |t| && t[j] == t[from] && t[j] !in t[j + 1..]
    decreases |t| - from
  {
    if t[from] in t[from + 1..] {
      var k :| 0 <= k < |t[from + 1..]| && t[from + 1..][k] == t[from];
      j := LastPlace(t, from + 1 + k);
    } else {
      j := from;
    }
  }

  lemma {:induction false} FewElements(t: seq<Fingerprint>)
    ensures |Elements(t)| <= |t|
  {
    if t != [] {
      FewElements(t[..|t| - 1]);
      assert Elements(t) == Elements(t[..|t| - 1]) + {t[|t| - 1]};
    }
  }

  /** What was recorded is not evicted by fewer than `max` later events. */
  lemma NotYetEvicted(ops: seq<Op>, i: nat, max: nat)
    requires i < |ops| && ops[i].Stores() && |ops| - i <= max
    ensures ops[i].key in Run(ops, max).ids
  {
    var t, before := Touches(ops, max), Touches(ops[..i], max);
    assert ops[..i + 1][..i] == ops[..i];
    assert Touches(ops[..i + 1], max) == before + [ops[i].key];
    var since := TouchesSince(ops, i + 1, max);
    assert t == before + [ops[i].key] + since;
    var j := LastPlace(t, |before|);
    FewElements(t[j + 1..]);
    KeptIff(ops, max, j);
  }

  // Resuming never lets in what replaying would reject

  /** A session is recorded only for a request that was resumed or whose history
      could be flattened. */
  ghost predicate GatewayRun(run: seq<Event>, max: nat) {
    forall i | 0 <= i < |run| && run[i].Recorded? :: Accepted(run[i].ms) || WasHit(run, i, max)
  }

  ghost predicate WasHit(run: seq<Event>, i: nat, max: nat)
    requires i < |run| && run[i].Recorded?
  {
    var e := run[i];
    exists j, plan :: 0 <= j < i && PlanIs(e.ms, e.model, e.effort, Run(Ops(run[..j]), max), plan) && plan.hit
  }

  lemma SameRoles(prefix: seq<Message>, ms: seq<Message>, text: string)
    requires SameTalk(prefix, Answered(ms, text)) && Accepted(ms)
    ensures forall m <- prefix :: !m.role.Other?
  {
    forall i | 0 <= i < |prefix| ensures !prefix[i].role.Other? {
      if i < |ms| {
        assert Acceptable(ms[i]);
      }
    }
  }

  lemma {:induction false} HitIsAccepted(run: seq<Event>, n: nat, max: nat,
                                         ms: seq<Message>, model: string, effort: string, plan: Plan)
    requires max >= 1 && n <= |run| && GatewayRun(run, max)
    requires PlanIs(ms, model, effort, Run(Ops(run[..n]), max), plan) && plan.hit
    ensures Accepted(ms)
    decreases n
  {
    var i := HitIsRecorded(run[..n], max, ms, model, effort, plan);
    var e := run[i];
    if !Accepted(e.ms) {
      assert WasHit(run, i, max);
      var j, before :| 0 <= j < i && PlanIs(e.ms, e.model, e.effort, Run(Ops(run[..j]), max), before) && before.hit;
      HitIsAccepted(run, j, max, e.ms, e.model, e.effort, before);
    }
    ResumedIsAccepted(ms, e.ms, e.text);
  }

  lemma ResumedIsAccepted(ms: seq<Message>, recorded: seq<Message>, text: string)
    requires Resumable(ms) && Prefix(ms).Some? && SameTalk(Prefix(ms).value, Answered(recorded, text))
    requires Accepted(recorded)
    ensures Accepted(ms)
  {
    var n: nat, said: string :| SplitsAt(ms, n, said) && Prefix(ms) == Some(ms[..n]);
    SameRoles(ms[..n], recorded, text);
    SplitIsAccepted(ms, n, said);
  }
}
