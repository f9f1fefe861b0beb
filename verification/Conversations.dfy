/** Requests as conversations: what can be resumed, what a fingerprint says, and
    the two ways to a system prompt. */
module Conversations {
  import opened Options

  /** `Other` is any role the program gives no meaning to. */
  datatype Role = System | Developer | User | Assistant | Tool | Other(name: string)

  datatype Part = TextPart(text: string) | OtherPart

  datatype Content = Absent | Str(text: string) | Parts(parts: seq<Part>) | Unsupported

  datatype ToolCall = ToolCall(id: string, name: string, arguments: string)

  datatype Message = Message(role: Role, content: Content, toolCallId: string, toolCalls: seq<ToolCall>)

  // Text

  function PartsText(parts: seq<Part>): Option<string> {
    if parts == [] then Some("")
    else
      var front, last := PartsText(parts[..|parts| - 1]), parts[|parts| - 1];
      if front.Some? && last.TextPart? then Some(front.value + last.text) else None
  }

  function TextOf(m: Message): Option<string> {
    match m.content
    case Absent => Some("")
    case Str(text) => Some(text)
    case Parts(parts) => PartsText(parts)
    case Unsupported => None
  }

  function Text(m: Message): string {
    if TextOf(m).Some? then TextOf(m).value else ""
  }

  predicate Readable(ms: seq<Message>) {
    forall m <- ms :: TextOf(m).Some?
  }

  function Texts(ms: seq<Message>): seq<string> {
    seq(|ms|, i requires 0 <= i < |ms| => Text(ms[i]))
  }

  lemma {:induction false} PartsTextNone(parts: seq<Part>, i: nat)
    requires i < |parts| && parts[i].OtherPart?
    ensures PartsText(parts) == None
  {
    if i < |parts| - 1 {
      PartsTextNone(parts[..|parts| - 1], i);
    }
  }

  method ReadText(m: Message) returns (text: Option<string>)
    ensures text == TextOf(m)
  {
    match m.content
    case Absent => return Some("");
    case Str(s) => return Some(s);
    case Unsupported => return None;
    case Parts(parts) =>
      var all := "";
      for i := 0 to |parts|
        invariant PartsText(parts[..i]) == Some(all)
      {
        if parts[i].OtherPart? {
          PartsTextNone(parts, i);
          return None;
        }
        assert parts[..i + 1][..i] == parts[..i];
        all := all + parts[i].text;
      }
      assert parts[..|parts|] == parts;
      return Some(all);
  }

  // Joining

  function Join(parts: seq<string>, sep: string): string {
    if parts == [] then ""
    else if |parts| == 1 then parts[0]
    else Join(parts[..|parts| - 1], sep) + sep + parts[|parts| - 1]
  }

  function NonEmpty(parts: seq<string>): seq<string> {
    if parts == [] then []
    else
      var last := parts[|parts| - 1];
      NonEmpty(parts[..|parts| - 1]) + if last == "" then [] else [last]
  }

  lemma {:induction false} JoinedLength(parts: seq<string>, sep: string)
    ensures |Join(parts, sep)| == |Join(parts, "")| + if parts == [] then 0 else |sep| * (|parts| - 1)
  {
    if |parts| > 1 {
      JoinedLength(parts[..|parts| - 1], sep);
    }
  }

  lemma NonEmptySnoc(front: seq<string>, last: string)
    ensures NonEmpty(front + [last]) == NonEmpty(front) + if last == "" then [] else [last]
  {
    assert (front + [last])[..|front|] == front;
  }

  lemma JoinSnoc(front: seq<string>, last: string, sep: string)
    ensures |Join(front + [last], sep)| ==
            |Join(front, sep)| + |last| + if front == [] then 0 else |sep|
  {
    assert (front + [last])[..|front|] == front;
  }

  /** Empty parts add nothing but separators. */
  lemma {:induction false} NonEmptyLength(parts: seq<string>)
    ensures |Join(NonEmpty(parts), "")| == |Join(parts, "")|
    ensures NonEmpty(parts) == [] <==> Join(NonEmpty(parts), "") == ""
  {
    if parts != [] {
      var front, last := parts[..|parts| - 1], parts[|parts| - 1];
      assert parts == front + [last];
      NonEmptyLength(front);
      NonEmptySnoc(front, last);
      JoinSnoc(front, last, "");
      if last != "" {
        JoinSnoc(NonEmpty(front), last, "");
      } else {
        assert NonEmpty(parts) == NonEmpty(front);
      }
    }
  }

  lemma {:induction false} NonEmptyCount(parts: seq<string>)
    ensures |NonEmpty(parts)| <= |parts|
    ensures |NonEmpty(parts)| == |parts| <==> forall i | 0 <= i < |parts| :: parts[i] != ""
  {
    if parts != [] {
      var n := |parts| - 1;
      NonEmptyCount(parts[..n]);
      assert forall i | 0 <= i < n :: parts[..n][i] == parts[i];
    }
  }

  /** The test on what has been joined so far is a test for a part before. */
  method JoinNonEmpty(parts: seq<string>, sep: string) returns (out: string)
    ensures out == Join(NonEmpty(parts), sep)
  {
    out := "";
    for i := 0 to |parts|
      invariant out == Join(NonEmpty(parts[..i]), sep)
    {
      var p, before := parts[i], NonEmpty(parts[..i]);
      assert parts[..i + 1][..i] == parts[..i];
      if p == "" {
        assert NonEmpty(parts[..i + 1]) == before;
        continue;
      }
      assert (before + [p])[..|before|] == before;
      JoinedLength(before, sep);
      NonEmptyLength(parts[..i]);
      if out != "" {
        out := out + sep;
      }
      out := out + p;
    }
    assert parts[..|parts|] == parts;
  }

  // What can be resumed

  ghost predicate Resumable(ms: seq<Message>) {
    Readable(ms) && forall m <- ms :: !m.role.Tool? && m.toolCalls == []
  }

  method IsResumableConversation(ms: seq<Message>) returns (ok: bool)
    ensures ok == Resumable(ms)
    ensures ok <==> forall m <- ms :: m.role != Tool && m.toolCalls == [] && TextOf(m) != None
  {
    for i := 0 to |ms|
      invariant Resumable(ms[..i])
    {
      var text := ReadText(ms[i]);
      if ms[i].role == Tool || |ms[i].toolCalls| > 0 || text.None? {
        return false;
      }
      assert ms[..i + 1] == ms[..i] + [ms[i]];
    }
    assert ms[..|ms|] == ms;
    return true;
  }

  const PARAGRAPH: string := "\n\n"

  /** The first n messages end in the last reply, and `text` is what the user has
      said since. */
  ghost predicate SplitsAt(ms: seq<Message>, n: nat, text: string) {
    && 1 <= n < |ms| && ms[n - 1].role == Assistant
    && (forall m <- ms[n..] :: m.role == User) && Readable(ms[n..])
    && text == Join(NonEmpty(Texts(ms[n..])), PARAGRAPH) && text != ""
  }

  lemma UserTail(ms: seq<Message>, n: nat, text: string, k: nat)
    requires SplitsAt(ms, n, text) && n <= k < |ms|
    ensures ms[k].role == User
  {
    assert ms[k] == ms[n..][k - n];
  }

  lemma SplitOnce(ms: seq<Message>, n: nat, text: string, n': nat, text': string)
    requires SplitsAt(ms, n, text) && SplitsAt(ms, n', text')
    ensures n == n' && text == text'
  {
    forall k | n <= k < |ms| ensures ms[k].role == User {
      UserTail(ms, n, text, k);
    }
    forall k | n' <= k < |ms| ensures ms[k].role == User {
      UserTail(ms, n', text', k);
    }
  }

  datatype Split = NoSplit | Split(prefix: seq<Message>, userText: string)

  ghost predicate SplitOf(ms: seq<Message>, s: Split) {
    match s
    case Split(prefix, text) => |prefix| <= |ms| && prefix == ms[..|prefix|] && SplitsAt(ms, |prefix|, text)
    case NoSplit => forall n, text :: !SplitsAt(ms, n, text)
  }

  /** A split, and the want of one, in terms of roles and texts. */
  lemma SplitMeans(ms: seq<Message>, s: Split)
    requires SplitOf(ms, s)
    ensures s.Split? ==>
      var n := |s.prefix|;
      && 1 <= n < |ms| && s.prefix == ms[..n] && ms[n - 1].role == Assistant
      && (forall i | n <= i < |ms| :: ms[i].role == User && TextOf(ms[i]) != None)
      && s.userText == Join(NonEmpty(Texts(ms[n..])), "\n\n") != ""
    ensures s.NoSplit? ==>
      forall n | 1 <= n < |ms| && ms[n - 1].role == Assistant && forall i | n <= i < |ms| :: ms[i].role == User ::
        Join(NonEmpty(Texts(ms[n..])), "\n\n") == "" || exists i :: n <= i < |ms| && TextOf(ms[i]) == None
  {
    if s.NoSplit? {
      forall n | 1 <= n < |ms| && ms[n - 1].role == Assistant && forall i | n <= i < |ms| :: ms[i].role == User
        ensures Join(NonEmpty(Texts(ms[n..])), "\n\n") == "" || exists i :: n <= i < |ms| && TextOf(ms[i]) == None
      {
        assert !SplitsAt(ms, n, Join(NonEmpty(Texts(ms[n..])), PARAGRAPH));
        assert forall i | n <= i < |ms| :: ms[n..][i - n] == ms[i];
      }
    } else {
      var n := |s.prefix|;
      assert forall i | n <= i < |ms| :: ms[i] == ms[n..][i - n];
    }
  }

  method SplitResumeTurn(ms: seq<Message>) returns (s: Split)
    ensures SplitOf(ms, s)
  {
    var n := 0;
    for i := 0 to |ms|
      invariant n <= i && (n > 0 ==> ms[n - 1].role == Assistant)
      invariant forall j | n <= j < i :: ms[j].role != Assistant
    {
      if ms[i].role == Assistant {
        n := i + 1;
      }
    }
    if n == 0 || n == |ms| {
      assert forall k, text :: SplitsAt(ms, k, text) ==> k == n;
      return NoSplit;
    }
    assert forall k, text :: SplitsAt(ms, k, text) ==> k == n;
    var userParts := ReadUserTurns(ms[n..]);
    if userParts.None? {
      return NoSplit;
    }
    var userText := JoinNonEmpty(userParts.value, PARAGRAPH);
    if userText == "" {
      return NoSplit;
    }
    return Split(ms[..n], userText);
  }

  /** The loop over what follows the last reply. */
  method ReadUserTurns(tail: seq<Message>) returns (parts: Option<seq<string>>)
    ensures parts.Some? <==> Readable(tail) && forall m <- tail :: m.role == User
    ensures parts.Some? ==> parts.value == Texts(tail)
  {
    var userParts: seq<string> := [];
    for i := 0 to |tail|
      invariant userParts == Texts(tail[..i])
      invariant Readable(tail[..i]) && forall m <- tail[..i] :: m.role == User
    {
      var text := ReadText(tail[i]);
      if tail[i].role != User || text.None? {
        assert tail[i] in tail;
        return None;
      }
      assert tail[..i + 1] == tail[..i] + [tail[i]];
      userParts := userParts + [text.value];
    }
    assert tail[..|tail|] == tail;
    return Some(userParts);
  }

  // Fingerprints

  datatype Turn = Turn(role: Role, content: string)

  /** "" in the program is `NoKey`. The encoding and the digest are taken to be
      free of collisions, so a key is what was digested. */
  datatype Fingerprint =
    | NoKey
    | Key(model: string, effort: string, turns: seq<Turn>)

  function TurnsOf(ms: seq<Message>): seq<Turn> {
    seq(|ms|, i requires 0 <= i < |ms| => Turn(ms[i].role, Text(ms[i])))
  }

  function FingerprintOf(ms: seq<Message>, model: string, effort: string): Fingerprint {
    if Readable(ms) then Key(model, effort, TurnsOf(ms)) else NoKey
  }

  method ResumeFingerprint(ms: seq<Message>, model: string, effort: string) returns (key: Fingerprint)
    ensures key == FingerprintOf(ms, model, effort)
  {
    var turns: seq<Turn> := [];
    for i := 0 to |ms|
      invariant Readable(ms[..i]) && turns == TurnsOf(ms[..i])
    {
      var text := ReadText(ms[i]);
      if text.None? {
        return NoKey;
      }
      assert ms[..i + 1] == ms[..i] + [ms[i]];
      turns := turns + [Turn(ms[i].role, text.value)];
    }
    assert ms[..|ms|] == ms;
    return Key(model, effort, turns);
  }

  ghost predicate SameTalk(a: seq<Message>, b: seq<Message>) {
    && |a| == |b|
    && forall i | 0 <= i < |a| :: a[i].role == b[i].role && TextOf(a[i]) == TextOf(b[i]) != None
  }

  /** Equal keys are equal conversations under equal parameters. */
  lemma SameKey(a: seq<Message>, model: string, effort: string, b: seq<Message>, model': string, effort': string)
    requires FingerprintOf(a, model, effort).Key?
    ensures FingerprintOf(a, model, effort) == FingerprintOf(b, model', effort') <==>
            SameTalk(a, b) && model == model' && effort == effort'
  {
    var s, t := TurnsOf(a), TurnsOf(b);
    if FingerprintOf(a, model, effort) == FingerprintOf(b, model', effort') {
      assert |s| == |t|;
      forall i | 0 <= i < |a|
        ensures a[i].role == b[i].role && TextOf(a[i]) == TextOf(b[i]) != None
      {
        assert s[i] == t[i];
        assert a[i] in a && b[i] in b;
      }
    }
    if SameTalk(a, b) {
      assert s == t;
    }
  }

  // System prompts

  const DEFAULT: string := "You are a helpful assistant."

  function OrDefault(prompt: string): string {
    if prompt == "" then DEFAULT else prompt
  }

  predicate Instructs(m: Message) {
    m.role == System || m.role == Developer
  }

  function SystemTexts(ms: seq<Message>): seq<string> {
    if ms == [] then []
    else
      var last := ms[|ms| - 1];
      SystemTexts(ms[..|ms| - 1]) + if Instructs(last) then [Text(last)] else []
  }

  /** The system prompt of a resumed turn. */
  ghost function SystemPrompt(ms: seq<Message>): string {
    if exists m <- ms :: Instructs(m) && TextOf(m).None? then DEFAULT
    else OrDefault(Join(NonEmpty(SystemTexts(ms)), PARAGRAPH))
  }

  method SystemPromptOf(ms: seq<Message>) returns (prompt: string)
    ensures prompt == SystemPrompt(ms)
  {
    var parts: seq<string> := [];
    for i := 0 to |ms|
      invariant parts == SystemTexts(ms[..i])
      invariant forall m <- ms[..i] | Instructs(m) :: TextOf(m).Some?
    {
      assert ms[..i + 1] == ms[..i] + [ms[i]];
      assert ms[..i + 1][..i] == ms[..i];
      if ms[i].role != System && ms[i].role != Developer {
        continue;
      }
      var text := ReadText(ms[i]);
      if text.None? {
        return DEFAULT;
      }
      parts := parts + [text.value];
    }
    assert ms[..|ms|] == ms;
    prompt := JoinNonEmpty(parts, PARAGRAPH);
    if prompt == "" {
      prompt := DEFAULT;
    }
  }

  lemma {:induction false} JoinedEmpties(parts: seq<string>)
    requires |parts| >= 2 && NonEmpty(parts) == []
    ensures Join(parts, PARAGRAPH) != "" && Join(parts, PARAGRAPH)[0] == '\n'
  {
    var front, last := parts[..|parts| - 1], parts[|parts| - 1];
    if |parts| > 2 {
      JoinedEmpties(front);
    } else {
      assert Join(front, PARAGRAPH) == parts[0] == "" by {
        assert NonEmpty(front) == [];
        assert front[..0] == [];
      }
    }
  }

  /** Leaving empty parts out gives the prompt that keeping them gives exactly
      when there are no separators to lose: at most one part, or none empty. */
  lemma JoinsAgree(parts: seq<string>)
    ensures OrDefault(Join(NonEmpty(parts), PARAGRAPH)) == OrDefault(Join(parts, PARAGRAPH)) <==>
            |parts| <= 1 || forall i | 0 <= i < |parts| :: parts[i] != ""
  {
    var kept := NonEmpty(parts);
    JoinedLength(parts, PARAGRAPH);
    JoinedLength(kept, PARAGRAPH);
    NonEmptyLength(parts);
    NonEmptyCount(parts);
    if |parts| == 1 {
      assert parts[..0] == [];
    } else if |parts| >= 2 && kept == [] {
      JoinedEmpties(parts);
    }
    if |kept| == |parts| {
      AllKept(parts);
    }
  }

  lemma {:induction false} AllKept(parts: seq<string>)
    requires forall i | 0 <= i < |parts| :: parts[i] != ""
    ensures NonEmpty(parts) == parts
  {
    if parts != [] {
      assert parts == parts[..|parts| - 1] + [parts[|parts| - 1]];
      AllKept(parts[..|parts| - 1]);
    }
  }

  // Flattening

  datatype PromptTurn =
    | UserSaid(text: string)
    | AssistantSaid(text: string)
    | Called(call: ToolCall)
    | Returned(name: string, id: string, text: string)

  /** One user turn is sent as it is. Anything else is sent as a transcript, with
      the instructions for one. */
  datatype Prompt = Raw(text: string) | Transcript(turns: seq<PromptTurn>)

  datatype Built = Rejected | Built(system: string, prompt: Prompt)

  predicate Acceptable(m: Message) {
    && !m.role.Other? && TextOf(m).Some?
    && (m.role == Tool ==> m.toolCallId != "")
  }

  function CallName(calls: seq<ToolCall>, id: string): Option<string> {
    if calls == [] then None
    else if calls[|calls| - 1].id == id then Some(calls[|calls| - 1].name)
    else CallName(calls[..|calls| - 1], id)
  }

  function OrElse(name: Option<string>, otherwise: string): string {
    if name.Some? then name.value else otherwise
  }

  function NameAfter(m: Message, id: string, before: string): string {
    OrElse(if m.role == Assistant then CallName(m.toolCalls, id) else None, before)
  }

  /** The name of the last call the assistant made under this id. */
  function NameOf(ms: seq<Message>, id: string): string {
    if ms == [] then ""
    else NameAfter(ms[|ms| - 1], id, NameOf(ms[..|ms| - 1], id))
  }

  function Calls(calls: seq<ToolCall>): seq<PromptTurn> {
    seq(|calls|, i requires 0 <= i < |calls| => Called(calls[i]))
  }

  /** The turns m adds to those of the messages before it. */
  function TurnsAdded(before: seq<Message>, m: Message): seq<PromptTurn> {
    match m.role
    case User => [UserSaid(Text(m))]
    case Assistant =>
      (if Text(m) != "" || m.toolCalls == [] then [AssistantSaid(Text(m))] else []) + Calls(m.toolCalls)
    case Tool =>
      var name := NameOf(before, m.toolCallId);
      [Returned(if name == "" then "unknown" else name, m.toolCallId, Text(m))]
    case _ => []
  }

  function PromptTurns(ms: seq<Message>): seq<PromptTurn> {
    if ms == [] then []
    else PromptTurns(ms[..|ms| - 1]) + TurnsAdded(ms[..|ms| - 1], ms[|ms| - 1])
  }

  ghost predicate Asks(turns: seq<PromptTurn>) {
    turns != [] && !turns[|turns| - 1].AssistantSaid?
  }

  ghost predicate Accepted(ms: seq<Message>) {
    (forall i | 0 <= i < |ms| :: Acceptable(ms[i])) && Asks(PromptTurns(ms))
  }

  function PromptFrom(turns: seq<PromptTurn>): Prompt {
    if |turns| == 1 && turns[0].UserSaid? then Raw(turns[0].text) else Transcript(turns)
  }

  function Lookup(names: map<string, string>, id: string): string {
    if id in names then names[id] else ""
  }

  ghost predicate Names(names: map<string, string>, ms: seq<Message>) {
    forall id :: Lookup(names, id) == NameOf(ms, id)
  }

  lemma OneMore(ms: seq<Message>, i: nat)
    requires i < |ms|
    ensures SystemTexts(ms[..i + 1]) == SystemTexts(ms[..i]) + if Instructs(ms[i]) then [Text(ms[i])] else []
    ensures PromptTurns(ms[..i + 1]) == PromptTurns(ms[..i]) + TurnsAdded(ms[..i], ms[i])
    ensures forall id :: NameOf(ms[..i + 1], id) == NameAfter(ms[i], id, NameOf(ms[..i], id))
  {
    assert ms[..i + 1][..i] == ms[..i];
  }

  ghost predicate ReadUpTo(ms: seq<Message>, i: nat, systemParts: seq<string>, turns: seq<PromptTurn>,
                           names: map<string, string>)
    requires i <= |ms|
  {
    && (forall j | 0 <= j < i :: Acceptable(ms[j]))
    && systemParts == SystemTexts(ms[..i]) && turns == PromptTurns(ms[..i]) && Names(names, ms[..i])
  }

  lemma ReadAll(ms: seq<Message>, systemParts: seq<string>, turns: seq<PromptTurn>, names: map<string, string>)
    requires ReadUpTo(ms, |ms|, systemParts, turns, names)
    ensures systemParts == SystemTexts(ms) && turns == PromptTurns(ms)
    ensures Accepted(ms) <==> Asks(turns)
  {
    assert ms[..|ms|] == ms;
  }

  method BuildPrompt(ms: seq<Message>) returns (r: Built)
    ensures r.Built? <==> Accepted(ms)
    ensures r.Built? ==>
      r == Built(OrDefault(Join(SystemTexts(ms), PARAGRAPH)), PromptFrom(PromptTurns(ms)))
    ensures r.Built? && r.prompt.Raw? ==> PromptTurns(ms) == [UserSaid(r.prompt.text)]
    ensures r.Built? && r.prompt.Transcript? ==>
      r.prompt.turns == PromptTurns(ms) && !(|PromptTurns(ms)| == 1 && PromptTurns(ms)[0].UserSaid?)
  {
    if |ms| == 0 {
      return Rejected;
    }
    var systemParts: seq<string> := [];
    var turns: seq<PromptTurn> := [];
    var toolNames: map<string, string> := map[];
    for i := 0 to |ms|
      invariant ReadUpTo(ms, i, systemParts, turns, toolNames)
    {
      var ok: bool;
      ok, systemParts, turns, toolNames := ReadMessage(ms, i, systemParts, turns, toolNames);
      if !ok {
        return Rejected;
      }
    }
    ReadAll(ms, systemParts, turns, toolNames);
    if |turns| == 0 || turns[|turns| - 1].AssistantSaid? {
      return Rejected;
    }
    r := PutTogether(systemParts, turns);
  }

  method PutTogether(systemParts: seq<string>, turns: seq<PromptTurn>) returns (r: Built)
    ensures r == Built(OrDefault(Join(systemParts, PARAGRAPH)), PromptFrom(turns))
  {
    var system := JoinAll(systemParts, PARAGRAPH);
    if system == "" {
      system := DEFAULT;
    }
    if |turns| == 1 && turns[0].UserSaid? {
      return Built(system, Raw(turns[0].text));
    }
    return Built(system, Transcript(turns));
  }

  /** One pass of the loop over the messages. */
  method ReadMessage(ms: seq<Message>, i: nat, systemParts: seq<string>, turns: seq<PromptTurn>,
                     toolNames: map<string, string>)
    returns (ok: bool, systemParts': seq<string>, turns': seq<PromptTurn>, toolNames': map<string, string>)
    requires i < |ms| && ReadUpTo(ms, i, systemParts, turns, toolNames)
    ensures ok == Acceptable(ms[i])
    ensures ok ==> ReadUpTo(ms, i + 1, systemParts', turns', toolNames')
  {
    var m := ms[i];
    OneMore(ms, i);
    ok, systemParts', turns', toolNames' := false, systemParts, turns, toolNames;
    if m.role.Other? || (m.role == Tool && m.toolCallId == "") {
      return;
    }
    var text := ReadText(m);
    if text.None? {
      return;
    }
    ok := true;
    match m.role
    case System => systemParts' := systemParts + [text.value];
    case Developer => systemParts' := systemParts + [text.value];
    case User => turns' := turns + [UserSaid(text.value)];
    case Assistant =>
      var added: seq<PromptTurn> := [];
      if text.value != "" || |m.toolCalls| == 0 {
        added := [AssistantSaid(text.value)];
      }
      var made: seq<PromptTurn>;
      made, toolNames' := NoteCalls(m.toolCalls, toolNames);
      turns' := turns + (added + made);
    case Tool =>
      var name := Lookup(toolNames, m.toolCallId);
      turns' := turns + [Returned(if name == "" then "unknown" else name, m.toolCallId, text.value)];
  }

  method NoteCalls(calls: seq<ToolCall>, names: map<string, string>)
    returns (made: seq<PromptTurn>, names': map<string, string>)
    ensures made == Calls(calls)
    ensures forall id :: Lookup(names', id) == OrElse(CallName(calls, id), Lookup(names, id))
  {
    made, names' := [], names;
    for i := 0 to |calls|
      invariant made == Calls(calls[..i])
      invariant forall id :: Lookup(names', id) == OrElse(CallName(calls[..i], id), Lookup(names, id))
    {
      assert calls[..i + 1][..i] == calls[..i];
      names' := names'[calls[i].id := calls[i].name];
      made := made + [Called(calls[i])];
    }
    assert calls[..|calls|] == calls;
  }

  method JoinAll(parts: seq<string>, sep: string) returns (out: string)
    ensures out == Join(parts, sep)
  {
    out := "";
    for i := 0 to |parts|
      invariant out == Join(parts[..i], sep)
    {
      assert parts[..i + 1][..i] == parts[..i];
      out := if i == 0 then parts[0] else out + sep + parts[i];
    }
    assert parts[..|parts|] == parts;
  }

  /** A conversation that can be resumed and split would have been accepted for
      replay too, if its prefix has only roles that mean something. */
  lemma SplitIsAccepted(ms: seq<Message>, n: nat, text: string)
    requires Resumable(ms) && SplitsAt(ms, n, text)
    requires forall m <- ms[..n] :: !m.role.Other?
    ensures Accepted(ms)
  {
    forall i | 0 <= i < |ms| ensures Acceptable(ms[i]) {
      assert ms[i] in ms;
      if i < n {
        assert ms[..n][i] == ms[i];
      } else {
        UserTail(ms, n, text, i);
      }
    }
    UserTail(ms, n, text, |ms| - 1);
  }

  /** When the prompt of a resumed turn and that of a replayed one rest on the
      same system prompt. */
  lemma SystemPromptsAgree(ms: seq<Message>)
    requires Readable(ms)
    ensures SystemPrompt(ms) == OrDefault(Join(SystemTexts(ms), PARAGRAPH)) <==>
            |SystemTexts(ms)| <= 1 || forall i | 0 <= i < |SystemTexts(ms)| :: SystemTexts(ms)[i] != ""
  {
    JoinsAgree(SystemTexts(ms));
  }

  lemma JoinTwo(first: string, second: string)
    ensures Join([first, second], PARAGRAPH) == first + PARAGRAPH + second
    ensures NonEmpty([first, second]) == (if first == "" then [] else [first]) + if second == "" then [] else [second]
  {
    var parts := [first, second];
    assert parts[..1] == [first] && [first][..0] == [];
    assert NonEmpty([]) == [];
  }

  /** A request whose resumed turn and whose replay get different system prompts:
      an empty system message comes before another. */
  lemma SystemPromptsDiffer(text: string) returns (ms: seq<Message>)
    requires text != ""
    ensures Readable(ms) && SystemTexts(ms) == ["", text]
    ensures SystemPrompt(ms) == text && OrDefault(Join(SystemTexts(ms), PARAGRAPH)) == PARAGRAPH + text
  {
    var empty, second := Message(System, Str(""), "", []), Message(System, Str(text), "", []);
    var user := Message(User, Str(text), "", []);
    ms := [empty, second, user];
    assert ms[..2] == [empty, second] && [empty, second][..1] == [empty] && [empty][..0] == [];
    assert SystemTexts([]) == [];
    assert SystemTexts([empty]) == [""];
    assert SystemTexts([empty, second]) == [""] + [text];
    JoinTwo("", text);
    assert Join([text], PARAGRAPH) == text;
  }
}
