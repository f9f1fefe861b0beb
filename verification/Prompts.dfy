/** What is said to the CLI, told by the messages of the request. */
module Prompts {
  import opened Options
  import opened Conversations

  // Texts

  predicate Instruction(m: Message) {
    m.role == System || m.role == Developer
  }

  /** A message without content has an empty text; text parts are run together; any
      other content has none. */
  lemma ContentText(m: Message)
    ensures m.content.Absent? ==> TextOf(m) == Some("")
    ensures m.content.Str? ==> TextOf(m) == Some(m.content.text)
    ensures m.content.Unsupported? ==> TextOf(m) == None
    ensures m.content.Parts? ==> TextOf(m) == PartsText(m.content.parts)
  {
  }

  lemma {:induction false} PartsConcat(a: seq<Part>, b: seq<Part>)
    ensures PartsText(a + b).Some? <==> PartsText(a).Some? && PartsText(b).Some?
    ensures PartsText(a + b).Some? ==> PartsText(a + b).value == PartsText(a).value + PartsText(b).value
  {
    if b == [] {
      assert a + b == a;
    } else {
      PartsConcat(a, b[..|b| - 1]);
      assert (a + b)[..|a + b| - 1] == a + b[..|b| - 1];
    }
  }

  lemma OnePart(p: Part)
    ensures PartsText([p]) == if p.TextPart? then Some(p.text) else None
  {
    assert [p][..0] == [];
    assert PartsText([]) == Some("");
    if p.TextPart? {
      assert "" + p.text == p.text;
    }
  }

  // Joining

  lemma JoinOne(x: string, sep: string)
    ensures Join([x], sep) == x
  {
  }

  lemma {:induction false} JoinConcat(a: seq<string>, b: seq<string>, sep: string)
    requires a != [] && b != []
    ensures Join(a + b, sep) == Join(a, sep) + sep + Join(b, sep)
  {
    var n := |b| - 1;
    assert (a + b)[..|a + b| - 1] == a + b[..n];
    if n == 0 {
      assert a + b[..0] == a;
    } else {
      JoinConcat(a, b[..n], sep);
      assert Join(a, sep) + sep + Join(b[..n], sep) + sep + b[n]
          == Join(a, sep) + sep + (Join(b[..n], sep) + sep + b[n]);
    }
  }

  lemma {:induction false} NonEmptyConcat(a: seq<string>, b: seq<string>)
    ensures NonEmpty(a + b) == NonEmpty(a) + NonEmpty(b)
  {
    if b == [] {
      assert a + b == a;
    } else {
      NonEmptyConcat(a, b[..|b| - 1]);
      assert (a + b)[..|a + b| - 1] == a + b[..|b| - 1];
    }
  }

  lemma NonEmptyOne(x: string)
    ensures NonEmpty([x]) == if x == "" then [] else [x]
  {
    assert [x][..0] == [];
    assert NonEmpty([]) == [];
  }

  // System prompts

  lemma Front(a: seq<Message>, b: seq<Message>)
    requires b != []
    ensures (a + b)[..|a + b| - 1] == a + b[..|b| - 1] && (a + b)[|a + b| - 1] == b[|b| - 1]
  {
  }

  lemma {:induction false} SystemConcat(a: seq<Message>, b: seq<Message>)
    ensures SystemTexts(a + b) == SystemTexts(a) + SystemTexts(b)
  {
    if b == [] {
      assert a + b == a;
    } else {
      SystemConcat(a, b[..|b| - 1]);
      Front(a, b);
    }
  }

  lemma SystemOne(m: Message)
    ensures SystemTexts([m]) == if m.role == System || m.role == Developer then [Text(m)] else []
  {
    assert [m][..0] == [];
    assert SystemTexts([]) == [];
  }

  /** Two texts are set apart by an empty line. */
  lemma TwoSystems(m: Message, m': Message)
    requires Instruction(m) && Instruction(m') && TextOf(m).Some? && TextOf(m').Some?
    requires Text(m) != "" && Text(m') != ""
    ensures SystemPrompt([m, m']) == Text(m) + "\n\n" + Text(m')
  {
    SystemOne(m);
    SystemOne(m');
    SystemConcat([m], [m']);
    assert [m] + [m'] == [m, m'];
    NonEmptyOne(Text(m));
    NonEmptyOne(Text(m'));
    NonEmptyConcat([Text(m)], [Text(m')]);
    JoinConcat([Text(m)], [Text(m')], PARAGRAPH);
  }

  lemma NoSystem(ms: seq<Message>)
    requires forall m <- ms :: m.role != System && m.role != Developer
    ensures SystemTexts(ms) == [] && SystemPrompt(ms) == "You are a helpful assistant."
  {
    NoSystemTexts(ms);
  }

  /** One that cannot be read costs all of them. */
  lemma UnreadableSystem(ms: seq<Message>, m: Message)
    requires m in ms && Instruction(m) && TextOf(m) == None
    ensures SystemPrompt(ms) == "You are a helpful assistant."
  {
    assert Instructs(m);
  }

  lemma {:induction false} NoSystemTexts(ms: seq<Message>)
    requires forall m <- ms :: m.role != System && m.role != Developer
    ensures SystemTexts(ms) == []
  {
    if ms != [] {
      assert ms[|ms| - 1] in ms;
      NoSystemTexts(ms[..|ms| - 1]);
    }
  }

  // Turns

  /** What a message adds to the transcript, by its role. */
  ghost predicate AddedBy(before: seq<Message>, m: Message, added: seq<PromptTurn>) {
    match m.role
    case User => |added| == 1 && added[0].UserSaid? && added[0].text == Text(m)
    case Assistant =>
      var said := if Text(m) != "" || m.toolCalls == [] then 1 else 0;
      && |added| == said + |m.toolCalls|
      && (said == 1 ==> added[0].AssistantSaid? && added[0].text == Text(m))
      && forall i | 0 <= i < |m.toolCalls| :: added[said + i].Called? && added[said + i].call == m.toolCalls[i]
    case Tool =>
      && |added| == 1 && added[0].Returned? && added[0].id == m.toolCallId && added[0].text == Text(m)
      && added[0].name == (if NameOf(before, m.toolCallId) == "" then "unknown" else NameOf(before, m.toolCallId))
    case _ => added == []
  }

  lemma TurnsSnoc(before: seq<Message>, m: Message)
    ensures var n, all := |PromptTurns(before)|, PromptTurns(before + [m]);
      n <= |all| && all[..n] == PromptTurns(before) && AddedBy(before, m, all[n..])
  {
    assert (before + [m])[..|before|] == before;
    assert (PromptTurns(before) + TurnsAdded(before, m))[|PromptTurns(before)|..] == TurnsAdded(before, m);
  }

  /** A result goes under the name of the last call made with its id, */
  predicate Calls(m: Message, id: string, j: nat) {
    m.role == Assistant && j < |m.toolCalls| && m.toolCalls[j].id == id
  }

  lemma {:induction false} CallNameLast(calls: seq<ToolCall>, id: string, j: nat)
    requires j < |calls| && calls[j].id == id && forall k | j < k < |calls| :: calls[k].id != id
    ensures CallName(calls, id) == Some(calls[j].name)
  {
    if j < |calls| - 1 {
      CallNameLast(calls[..|calls| - 1], id, j);
    }
  }

  lemma {:induction false} CallNameNone(calls: seq<ToolCall>, id: string)
    requires forall k | 0 <= k < |calls| :: calls[k].id != id
    ensures CallName(calls, id) == None
  {
    if calls != [] {
      CallNameNone(calls[..|calls| - 1], id);
    }
  }

  lemma {:induction false} NameOfLast(ms: seq<Message>, id: string, i: nat, j: nat)
    requires i < |ms| && Calls(ms[i], id, j) && forall k | j < k < |ms[i].toolCalls| :: ms[i].toolCalls[k].id != id
    requires forall k, l: nat | i < k < |ms| :: !Calls(ms[k], id, l)
    ensures NameOf(ms, id) == ms[i].toolCalls[j].name
  {
    var last := |ms| - 1;
    if i == last {
      CallNameLast(ms[i].toolCalls, id, j);
    } else {
      NoCall(ms[last], id);
      NameOfLast(ms[..last], id, i, j);
    }
  }

  lemma NoCall(m: Message, id: string)
    requires forall l: nat :: !Calls(m, id, l)
    ensures m.role == Assistant ==> CallName(m.toolCalls, id) == None
  {
    if m.role == Assistant {
      forall k | 0 <= k < |m.toolCalls| ensures m.toolCalls[k].id != id {
        assert !Calls(m, id, k);
      }
      CallNameNone(m.toolCalls, id);
    }
  }

  /** and one that answers no call under none. */
  lemma {:induction false} NameOfNone(ms: seq<Message>, id: string)
    requires forall k, l: nat | 0 <= k < |ms| :: !Calls(ms[k], id, l)
    ensures NameOf(ms, id) == ""
  {
    if ms != [] {
      NoCall(ms[|ms| - 1], id);
      NameOfNone(ms[..|ms| - 1], id);
    }
  }

  // Which requests are accepted

  ghost predicate WellFormed(m: Message) {
    && (m.role == System || m.role == Developer || m.role == User || m.role == Assistant || m.role == Tool)
    && TextOf(m) != None && (m.role == Tool ==> m.toolCallId != "")
  }

  /** Message i is the last that is not an instruction, and is not a plain reply. */
  ghost predicate AsksAt(ms: seq<Message>, i: nat) {
    && i < |ms| && !Instruction(ms[i]) && (ms[i].role == Assistant ==> ms[i].toolCalls != [])
    && forall k | i < k < |ms| :: Instruction(ms[k])
  }

  lemma LastAsks(before: seq<Message>, m: Message)
    requires WellFormed(m) && !Instruction(m)
    ensures Asks(PromptTurns(before + [m])) <==> (m.role == Assistant ==> m.toolCalls != [])
  {
    TurnsSnoc(before, m);
    var all, n := PromptTurns(before + [m]), |PromptTurns(before)|;
    assert all[n..] != [];
    assert all[|all| - 1] == all[n..][|all[n..]| - 1];
  }

  lemma InstructionAsks(before: seq<Message>, m: Message)
    requires Instruction(m)
    ensures Asks(PromptTurns(before + [m])) <==> Asks(PromptTurns(before))
    ensures forall i: nat :: AsksAt(before + [m], i) <==> AsksAt(before, i)
  {
    TurnsSnoc(before, m);
    assert PromptTurns(before + [m]) == PromptTurns(before);
    assert forall i | 0 <= i < |before| :: (before + [m])[i] == before[i];
  }

  lemma {:induction false} AsksIff(ms: seq<Message>)
    requires forall m <- ms :: WellFormed(m)
    ensures Asks(PromptTurns(ms)) <==> exists i: nat :: AsksAt(ms, i)
  {
    if ms != [] {
      var front, last := ms[..|ms| - 1], ms[|ms| - 1];
      assert ms == front + [last] && last in ms;
      if Instruction(last) {
        AsksIff(front);
        InstructionAsks(front, last);
      } else {
        LastAsks(front, last);
        if last.role == Assistant ==> last.toolCalls != [] {
          assert AsksAt(ms, |ms| - 1);
        }
      }
    }
  }

  /** A request is accepted exactly when every message is well formed and the last one
      that is not an instruction is a user's, a tool's or calls a tool. */
  lemma AcceptedIff(ms: seq<Message>)
    ensures Accepted(ms) <==> (forall m <- ms :: WellFormed(m)) && exists i: nat :: AsksAt(ms, i)
  {
    assert (forall i | 0 <= i < |ms| :: Acceptable(ms[i])) <==> forall m <- ms :: WellFormed(m) by {
      assert forall i | 0 <= i < |ms| :: Acceptable(ms[i]) <==> WellFormed(ms[i]);
    }
    if forall m <- ms :: WellFormed(m) {
      AsksIff(ms);
    }
  }
}
