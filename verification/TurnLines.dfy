/** What a turn says, told by the lines the CLI wrote while it lasted. */
module TurnLines {
  import opened Options
  import opened Turns

  // Events, part by part

  lemma Front(a: seq<Event>, b: seq<Event>)
    requires b != []
    ensures (a + b)[..|a + b| - 1] == a + b[..|b| - 1] && (a + b)[|a + b| - 1] == b[|b| - 1]
  {
  }

  lemma {:induction false} TextConcat(a: seq<Event>, b: seq<Event>)
    ensures TextIn(a + b) == TextIn(a) + TextIn(b)
    ensures ReasoningIn(a + b) == ReasoningIn(a) + ReasoningIn(b)
  {
    if b == [] {
      assert a + b == a;
    } else {
      TextConcat(a, b[..|b| - 1]);
      Front(a, b);
    }
  }

  lemma OneText(e: Event)
    ensures TextIn([e]) == if e.TextEvent? then e.text else ""
    ensures ReasoningIn([e]) == if e.Reasoning? then e.text else ""
  {
    assert [e][..0] == [];
    assert TextIn([]) == "" == ReasoningIn([]);
  }

  lemma TextInOrder()
    ensures TextIn([TextEvent("Hel"), TextEvent("lo")]) == "Hello"
  {
    TextConcat([TextEvent("Hel")], [TextEvent("lo")]);
    OneText(TextEvent("Hel"));
    OneText(TextEvent("lo"));
    assert [TextEvent("Hel")] + [TextEvent("lo")] == [TextEvent("Hel"), TextEvent("lo")];
  }

  predicate NamesModel(e: Event) {
    e.ToolCalls? && e.model != ""
  }

  /** The model is the one named last, */
  lemma {:induction false} ModelIsLast(turn: seq<Event>, i: nat)
    requires i < |turn| && NamesModel(turn[i]) && forall j | i < j < |turn| :: !NamesModel(turn[j])
    ensures Model(turn) == turn[i].model
  {
    if i < |turn| - 1 {
      ModelIsLast(turn[..|turn| - 1], i);
    }
  }

  lemma {:induction false} NoModel(turn: seq<Event>)
    requires forall e <- turn :: !NamesModel(e)
    ensures Model(turn) == ""
  {
    if turn != [] {
      assert turn[|turn| - 1] in turn;
      NoModel(turn[..|turn| - 1]);
    }
  }

  predicate GivesReason(e: Event) {
    (e.Stop? || (e.RunEnd? && e.err == None)) && e.stopReason != None
  }

  /** and so is the reason for stopping, */
  lemma {:induction false} ReasonIsLast(turn: seq<Event>, i: nat)
    requires i < |turn| && GivesReason(turn[i]) && forall j | i < j < |turn| :: !GivesReason(turn[j])
    ensures StopReason(turn) == turn[i].stopReason
  {
    if i < |turn| - 1 {
      ReasonIsLast(turn[..|turn| - 1], i);
    }
  }

  lemma {:induction false} NoReason(turn: seq<Event>)
    requires forall e <- turn :: !GivesReason(e)
    ensures StopReason(turn) == None
  {
    if turn != [] {
      assert turn[|turn| - 1] in turn;
      NoReason(turn[..|turn| - 1]);
    }
  }

  predicate GivesUsage(e: Event) {
    (e.Stop? || (e.RunEnd? && e.err == None)) && e.usage != None
  }

  /** and the usage. */
  lemma {:induction false} UsageIsLast(turn: seq<Event>, i: nat)
    requires i < |turn| && GivesUsage(turn[i]) && forall j | i < j < |turn| :: !GivesUsage(turn[j])
    ensures Some(UsageIn(turn)) == turn[i].usage
  {
    if i < |turn| - 1 {
      UsageIsLast(turn[..|turn| - 1], i);
    }
  }

  lemma {:induction false} NoUsage(turn: seq<Event>)
    requires forall e <- turn :: !GivesUsage(e)
    ensures UsageIn(turn) == 0
  {
    if turn != [] {
      assert turn[|turn| - 1] in turn;
      NoUsage(turn[..|turn| - 1]);
    }
  }

  predicate StopsForTools(e: Event) {
    e.Stop? && e.stopReason == Some("tool_use")
  }

  /** A turn is over with the run, or when a stop for tools and a call have both been
      seen, whichever came first. */
  lemma TurnOver(turn: seq<Event>)
    ensures Ends(turn) <==>
      || (turn != [] && turn[|turn| - 1].RunEnd?)
      || ((exists i | 0 <= i < |turn| :: StopsForTools(turn[i])) &&
          (exists i | 0 <= i < |turn| :: turn[i].ToolCalls? && turn[i].calls != []))
  {
    SomeCall(turn);
    assert ToolStop(turn) <==> exists i | 0 <= i < |turn| :: StopsForTools(turn[i]);
  }

  lemma {:induction false} SomeCall(turn: seq<Event>)
    ensures CallsIn(turn) != [] <==> exists i | 0 <= i < |turn| :: turn[i].ToolCalls? && turn[i].calls != []
  {
    if turn != [] {
      var n := |turn| - 1;
      SomeCall(turn[..n]);
      if i :| 0 <= i < n && turn[..n][i].ToolCalls? && turn[..n][i].calls != [] {
        assert turn[i] == turn[..n][i];
      }
    }
  }

  // Tool uses

  lemma {:induction false} UsesConcat(a: seq<Block>, b: seq<Block>)
    ensures Uses(a + b) == Uses(a) + Uses(b)
  {
    if b == [] {
      assert a + b == a;
    } else {
      UsesConcat(a, b[..|b| - 1]);
      assert (a + b)[..|a + b| - 1] == a + b[..|b| - 1];
    }
  }

  lemma OneUse(b: Block)
    ensures Uses([b]) == if b.ToolUse? then [b] else []
  {
    assert [b][..0] == [];
    assert Uses([]) == [];
  }

  /** The tool uses on lines read while the session was alive. */
  function Blocks(inputs: seq<Input>): seq<Block> {
    if inputs == [] then []
    else
      var last := inputs[|inputs| - 1];
      Blocks(inputs[..|inputs| - 1]) +
      if last.line.AssistantMessage? && !last.reaped then Uses(last.line.content) else []
  }

  lemma {:induction false} UsesAreUses(content: seq<Block>)
    ensures forall b <- Uses(content) :: b.ToolUse?
  {
    if content != [] {
      UsesAreUses(content[..|content| - 1]);
    }
  }

  /** The calls registered are the tool uses announced, in order, each with its own
      name, input and id. */
  lemma {:induction false} CallsAreUses(inputs: seq<Input>)
    ensures |Pending(inputs)| == |Blocks(inputs)|
    ensures forall i | 0 <= i < |Blocks(inputs)| ::
      && Blocks(inputs)[i].ToolUse? && Pending(inputs)[i].id == i
      && Pending(inputs)[i].name == Blocks(inputs)[i].name && Pending(inputs)[i].input == Blocks(inputs)[i].input
  {
    if inputs != [] {
      var front, last := inputs[..|inputs| - 1], inputs[|inputs| - 1];
      CallsAreUses(front);
      if last.line.AssistantMessage? {
        UsesAreUses(last.line.content);
      }
    }
  }

  // Lines

  function LinesText(lines: seq<Input>): string {
    if lines == [] then ""
    else
      var last := lines[|lines| - 1].line;
      LinesText(lines[..|lines| - 1]) + if last.TextDelta? then last.text else ""
  }

  function LinesReasoning(lines: seq<Input>, expose: bool): string {
    if lines == [] then ""
    else
      var last := lines[|lines| - 1].line;
      LinesReasoning(lines[..|lines| - 1], expose) + if expose && last.ThinkingDelta? then last.text else ""
  }

  function LinesModel(lines: seq<Input>): string {
    if lines == [] then ""
    else
      var last := lines[|lines| - 1].line;
      if last.AssistantMessage? && last.model != "" then last.model else LinesModel(lines[..|lines| - 1])
  }

  function LinesReason(lines: seq<Input>): Option<string> {
    if lines == [] then None
    else
      var last := lines[|lines| - 1].line;
      if last.MessageDelta? && last.stopReason.Some? then last.stopReason else LinesReason(lines[..|lines| - 1])
  }

  function LinesUsage(lines: seq<Input>): Usage {
    if lines == [] then 0
    else
      var last := lines[|lines| - 1].line;
      if last.MessageDelta? && last.usage.Some? then last.usage.value else LinesUsage(lines[..|lines| - 1])
  }

  /** These events say what these lines say. */
  ghost predicate Says(evs: seq<Event>, lines: seq<Input>, expose: bool) {
    && TextIn(evs) == LinesText(lines) && ReasoningIn(evs) == LinesReasoning(lines, expose)
    && Model(evs) == LinesModel(lines) && StopReason(evs) == LinesReason(lines) && UsageIn(evs) == LinesUsage(lines)
  }

  lemma EventSnoc(evs: seq<Event>, e: Event)
    ensures TextIn(evs + [e]) == TextIn(evs) + if e.TextEvent? then e.text else ""
    ensures ReasoningIn(evs + [e]) == ReasoningIn(evs) + if e.Reasoning? then e.text else ""
    ensures Model(evs + [e]) == if NamesModel(e) then e.model else Model(evs)
    ensures StopReason(evs + [e]) == if GivesReason(e) then e.stopReason else StopReason(evs)
    ensures UsageIn(evs + [e]) == if GivesUsage(e) then e.usage.value else UsageIn(evs)
  {
    assert (evs + [e])[..|evs|] == evs;
  }

  lemma LineSnoc(lines: seq<Input>, input: Input, expose: bool)
    ensures var l, all := input.line, lines + [input];
      && LinesText(all) == LinesText(lines) + (if l.TextDelta? then l.text else "")
      && LinesReasoning(all, expose)
         == LinesReasoning(lines, expose) + (if expose && l.ThinkingDelta? then l.text else "")
      && LinesModel(all) == (if l.AssistantMessage? && l.model != "" then l.model else LinesModel(lines))
      && LinesReason(all) == (if l.MessageDelta? && l.stopReason.Some? then l.stopReason else LinesReason(lines))
      && LinesUsage(all) == (if l.MessageDelta? && l.usage.Some? then l.usage.value else LinesUsage(lines))
  {
    assert (lines + [input])[..|lines|] == lines;
  }

  lemma NoEvent(input: Input, base: nat, expose: bool)
    requires !input.line.ResultLine? && EventsOf(input, base, expose) == []
    ensures input.line.TextDelta? || (expose && input.line.ThinkingDelta?) ==> input.line.text == ""
    ensures !input.line.MessageDelta? && (input.line.AssistantMessage? ==> input.line.model == "")
  {
  }

  /** What an event of a line says is what the line says. */
  lemma EventOfLine(input: Input, base: nat, expose: bool)
    requires !input.line.ResultLine? && EventsOf(input, base, expose) != []
    ensures var l, e := input.line, EventsOf(input, base, expose)[0];
      && EventsOf(input, base, expose) == [e]
      && (if e.TextEvent? then e.text else "") == (if l.TextDelta? then l.text else "")
      && (if e.Reasoning? then e.text else "") == (if expose && l.ThinkingDelta? then l.text else "")
      && (NamesModel(e) <==> l.AssistantMessage? && l.model != "") && (NamesModel(e) ==> e.model == l.model)
      && (e.Stop? <==> l.MessageDelta?) && (e.Stop? ==> e.stopReason == l.stopReason && e.usage == l.usage)
      && !e.RunEnd?
  {
  }

  lemma SaysMore(evs: seq<Event>, lines: seq<Input>, input: Input, base: nat, expose: bool)
    requires Says(evs, lines, expose) && !input.line.ResultLine?
    ensures Says(evs + EventsOf(input, base, expose), lines + [input], expose)
  {
    var more := EventsOf(input, base, expose);
    LineSnoc(lines, input, expose);
    if more == [] {
      NoEvent(input, base, expose);
      assert LinesText(lines) + "" == LinesText(lines);
      assert LinesReasoning(lines, expose) + "" == LinesReasoning(lines, expose);
      assert evs + more == evs;
    } else {
      EventOfLine(input, base, expose);
      EventSnoc(evs, more[0]);
    }
  }

  /** The events of `lines`, coming after those of `before`. */
  ghost function EventsSince(before: seq<Input>, lines: seq<Input>, expose: bool): seq<Event> {
    Events(before + lines, expose)[SafeLength(before, lines, expose)..]
  }

  ghost function SafeLength(before: seq<Input>, lines: seq<Input>, expose: bool): (n: nat)
    ensures n <= |Events(before + lines, expose)| && n == |Events(before, expose)|
    ensures Events(before + lines, expose)[..n] == Events(before, expose)
  {
    EventsSplit(before + lines, |before|, expose);
    assert (before + lines)[..|before|] == before;
    |Events(before, expose)|
  }

  lemma SinceGrows(before: seq<Input>, front: seq<Input>, last: Input, expose: bool)
    ensures EventsSince(before, front + [last], expose) ==
            EventsSince(before, front, expose) + EventsOf(last, |Pending(before + front)|, expose)
  {
    var all := before + front;
    assert before + (front + [last]) == all + [last] && (all + [last])[..|all|] == all;
    var n := SafeLength(before, front, expose);
    Suffix(Events(all, expose), EventsOf(last, |Pending(all)|, expose), n);
  }

  lemma Suffix(a: seq<Event>, b: seq<Event>, n: nat)
    requires n <= |a|
    ensures (a + b)[n..] == a[n..] + b
  {
  }

  lemma SinceNone(before: seq<Input>, expose: bool)
    ensures EventsSince(before, [], expose) == []
  {
    assert before + [] == before;
  }

  lemma {:induction false} LinesSay(before: seq<Input>, lines: seq<Input>, expose: bool)
    requires !HasResult(lines)
    ensures Says(EventsSince(before, lines, expose), lines, expose)
  {
    if lines == [] {
      SinceNone(before, expose);
    } else {
      var front, last := lines[..|lines| - 1], lines[|lines| - 1];
      assert lines == front + [last] && !last.line.ResultLine?;
      assert forall i | 0 <= i < |front| :: front[i] == lines[i];
      LinesSay(before, front, expose);
      SinceGrows(before, front, last, expose);
      SaysMore(EventsSince(before, front, expose), front, last, |Pending(before + front)|, expose);
    }
  }

  // Where a turn's lines begin and end

  /** How many lines it takes to make n events. */
  ghost function Cut(lines: seq<Input>, expose: bool, n: nat): (c: nat)
    ensures c <= |lines|
  {
    if lines == [] || |Events(lines[..|lines| - 1], expose)| < n then |lines|
    else Cut(lines[..|lines| - 1], expose, n)
  }

  lemma OneAtMost(input: Input, base: nat, expose: bool)
    ensures |EventsOf(input, base, expose)| <= 1
  {
  }

  lemma Prefix(a: seq<Event>, b: seq<Event>)
    ensures forall n: nat | n <= |a| :: (a + b)[..n] == a[..n]
  {
  }

  lemma FrontEvents(lines: seq<Input>, expose: bool)
    requires lines != []
    ensures var some, all := Events(lines[..|lines| - 1], expose), Events(lines, expose);
      |some| <= |all| <= |some| + 1 && forall n: nat | n <= |some| :: all[..n] == some[..n]
  {
    var front, last := lines[..|lines| - 1], lines[|lines| - 1];
    OneAtMost(last, |Pending(front)|, expose);
    Prefix(Events(front, expose), EventsOf(last, |Pending(front)|, expose));
  }

  lemma {:induction false} CutIs(lines: seq<Input>, expose: bool, n: nat)
    requires n <= |Events(lines, expose)|
    ensures Events(lines[..Cut(lines, expose, n)], expose) == Events(lines, expose)[..n]
  {
    if lines == [] {
      assert lines[..0] == [];
    } else {
      FrontEvents(lines, expose);
      var front := lines[..|lines| - 1];
      if |Events(front, expose)| < n {
        assert lines[..|lines|] == lines;
      } else {
        CutIs(front, expose, n);
        assert front[..Cut(front, expose, n)] == lines[..Cut(front, expose, n)];
      }
    }
  }

  lemma {:induction false} CutsInOrder(lines: seq<Input>, expose: bool, a: nat, b: nat)
    requires a <= b
    ensures Cut(lines, expose, a) <= Cut(lines, expose, b)
  {
    if lines != [] && |Events(lines[..|lines| - 1], expose)| >= b {
      CutsInOrder(lines[..|lines| - 1], expose, a, b);
    }
  }

  lemma LinesBetween(lines: seq<Input>, expose: bool, ca: nat, cb: nat)
    requires !HasResult(lines) && ca <= cb <= |lines|
    ensures |Events(lines[..ca], expose)| <= |Events(lines[..cb], expose)|
    ensures Says(Events(lines[..cb], expose)[|Events(lines[..ca], expose)|..], lines[ca..cb], expose)
  {
    var before, stretch := lines[..ca], lines[ca..cb];
    assert forall i | 0 <= i < |stretch| :: stretch[i] == lines[ca + i];
    LinesSay(before, stretch, expose);
    assert before + stretch == lines[..cb];
  }

  /** A stretch of events says what its stretch of lines says. */
  lemma StretchSays(lines: seq<Input>, expose: bool, a: nat, b: nat)
    requires !HasResult(lines) && a <= b <= |Events(lines, expose)|
    ensures Cut(lines, expose, a) <= Cut(lines, expose, b)
    ensures Says(Events(lines, expose)[a..b], lines[Cut(lines, expose, a)..Cut(lines, expose, b)], expose)
  {
    CutsInOrder(lines, expose, a, b);
    CutIs(lines, expose, a);
    CutIs(lines, expose, b);
    LinesBetween(lines, expose, Cut(lines, expose, a), Cut(lines, expose, b));
    Middle(Events(lines, expose), a, b);
  }

  lemma Middle(all: seq<Event>, a: nat, b: nat)
    requires a <= b <= |all|
    ensures all[..b][a..] == all[a..b] && all[..a] + all[a..b] == all[..b]
    ensures |all[..a]| == a
  {
  }

  lemma StretchToEnd(lines: seq<Input>, expose: bool, a: nat)
    requires !HasResult(lines) && a <= |Events(lines, expose)|
    ensures Says(Events(lines, expose)[a..], lines[Cut(lines, expose, a)..], expose)
  {
    CutIs(lines, expose, a);
    LinesBetween(lines, expose, Cut(lines, expose, a), |lines|);
    assert lines[..|lines|] == lines && lines[Cut(lines, expose, a)..|lines|] == lines[Cut(lines, expose, a)..];
  }

  lemma StretchCalls(lines: seq<Input>, expose: bool, a: nat, b: nat)
    requires a <= b <= |Events(lines, expose)|
    ensures Pending(lines[..Cut(lines, expose, b)]) ==
            Pending(lines[..Cut(lines, expose, a)]) + CallsIn(Events(lines, expose)[a..b])
  {
    var all := Events(lines, expose);
    CutIs(lines, expose, a);
    CutIs(lines, expose, b);
    CallsRelayed(lines[..Cut(lines, expose, a)], expose);
    CallsRelayed(lines[..Cut(lines, expose, b)], expose);
    CallsConcat(all[..a], all[a..b]);
    Middle(all, a, b);
  }

  // A whole run

  lemma {:induction false} FlattenSplit(turns: seq<seq<Event>>, i: nat)
    requires i <= |turns|
    ensures Flatten(turns) == Flatten(turns[..i]) + Flatten(turns[i..])
  {
    if i == 0 {
      assert turns[..0] == [] && turns[0..] == turns;
    } else {
      FlattenSplit(turns[1..], i - 1);
      assert turns[1..][..i - 1] == turns[..i][1..] && turns[1..][i - 1..] == turns[i..];
      assert turns[0] + (Flatten(turns[1..][..i - 1]) + Flatten(turns[i..]))
          == turns[0] + Flatten(turns[1..][..i - 1]) + Flatten(turns[i..]);
    }
  }

  ghost function StartOf(turns: seq<seq<Event>>, i: nat): nat
    requires i <= |turns|
  {
    |Flatten(turns[..i])|
  }

  lemma StartNext(turns: seq<seq<Event>>, i: nat)
    requires i < |turns|
    ensures StartOf(turns, i + 1) == StartOf(turns, i) + |turns[i]|
    ensures Flatten(turns[..i + 1]) == Flatten(turns[..i]) + turns[i]
  {
    FlattenSplit(turns[..i + 1], i);
    assert turns[..i + 1][..i] == turns[..i] && turns[..i + 1][i..] == [turns[i]];
    FlattenLast(turns[i]);
  }

  lemma FlattenLast(turn: seq<Event>)
    ensures Flatten([turn]) == turn
  {
    assert [turn][1..] == [];
    assert turn + [] == turn;
  }

  lemma Inner(a: seq<Event>, t: seq<Event>, b: seq<Event>)
    ensures (a + t + b)[|a|..|a| + |t|] == t && |a| + |t| <= |a + t + b|
  {
  }

  lemma TurnAt(turns: seq<seq<Event>>, i: nat)
    requires i < |turns|
    ensures var a, b := StartOf(turns, i), StartOf(turns, i + 1);
      a <= b <= |Flatten(turns)| && Flatten(turns)[a..b] == turns[i]
  {
    StartNext(turns, i);
    FlattenSplit(turns, i + 1);
    Inner(Flatten(turns[..i]), turns[i], Flatten(turns[i + 1..]));
  }

  /** The outcome of a turn that is not the last, told by its lines. */
  ghost predicate TellsLines(out: Outcome, lines: seq<Input>, expose: bool) {
    && out.text == LinesText(lines) && out.reasoning == LinesReasoning(lines, expose)
    && out.model == LinesModel(lines) && out.stopReason == LinesReason(lines) && out.usage == LinesUsage(lines)
    && out.cost == None && out.err == None && !out.final
  }

  /** It says what the lines from a to b say, and hands out the calls they announce. */
  ghost predicate TellsStretch(out: Outcome, inputs: seq<Input>, a: nat, b: nat, expose: bool) {
    && a <= b <= |inputs| && TellsLines(out, inputs[a..b], expose)
    && Pending(inputs[..b]) == Pending(inputs[..a]) + out.calls
  }

  /** The last outcome, told by its lines and by how the run ended. */
  ghost predicate TellsEnd(out: Outcome, lines: seq<Input>, rest: seq<Input>, expose: bool) {
    && out.reasoning == LinesReasoning(lines, expose) && out.model == LinesModel(lines) && out.final
    && if rest == [] then
         && out.err == Some(NoResult) && out.text == LinesText(lines)
         && out.stopReason == LinesReason(lines) && out.usage == LinesUsage(lines) && out.cost == None
       else
         var r := rest[0].line;
         && r.ResultLine?
         && (if r.isError then
               && out.err == Some(Reported(if r.result != "" then r.result
                                           else if r.subtype != "" then r.subtype
                                           else "unknown error"))
               && out.text == LinesText(lines) && out.cost == None
               && out.stopReason == LinesReason(lines) && out.usage == LinesUsage(lines)
             else
               && out.err == None && out.cost == r.cost
               && out.text == (if r.result != "" then r.result else LinesText(lines))
               && out.stopReason == (if r.stopReason.Some? then r.stopReason else LinesReason(lines))
               && out.usage == (if r.usage.Some? then r.usage.value else LinesUsage(lines)))
  }

  ghost predicate TellsRest(out: Outcome, inputs: seq<Input>, a: nat, b: nat, expose: bool) {
    a <= b <= |inputs| && TellsEnd(out, inputs[a..b], inputs[b..], expose)
  }

  lemma EarlyTurnTells(turn: seq<Event>, lines: seq<Input>, expose: bool)
    requires Says(turn, lines, expose) && !Final(turn)
    ensures TellsLines(OutcomeOf(turn), lines, expose)
  {
  }

  lemma LastTurnTells(evs: seq<Event>, end: Event, lines: seq<Input>, rest: seq<Input>, base: nat, expose: bool)
    requires Says(evs, lines, expose)
    requires if rest == [] then end == NO_RESULT
             else rest[0].line.ResultLine? && [end] == EventsOf(rest[0], base, expose)
    ensures TellsEnd(OutcomeOf(evs + [end]), lines, rest, expose)
  {
    EventSnoc(evs, end);
    assert (evs + [end])[|evs|] == end;
    assert TextIn(evs) + "" == TextIn(evs) && ReasoningIn(evs) + "" == ReasoningIn(evs);
  }

  /** The run_end and the line it is from. */
  lemma EndOfStream(inputs: seq<Input>, expose: bool)
    ensures var q, all := UpToResult(inputs), Stream(inputs, expose);
      var r := |Events(inputs[..q], expose)|;
      && r < |all| && all[..r] == Events(inputs[..q], expose)
      && (if q == |inputs| then all[r] == NO_RESULT
          else [all[r]] == EventsOf(inputs[q], |Pending(inputs[..q])|, expose))
  {
    var q, all := UpToResult(inputs), Stream(inputs, expose);
    StreamUpTo(inputs, expose);
    if q == |inputs| {
      assert inputs[..q] == inputs;
    } else {
      assert HasResult(inputs);
      ResultEvent(inputs, q, expose);
    }
  }

  lemma ResultEvent(inputs: seq<Input>, q: nat, expose: bool)
    requires q < |inputs| && inputs[q].line.ResultLine?
    ensures var r := |Events(inputs[..q], expose)|;
      r < |Events(inputs, expose)| && [Events(inputs, expose)[r]] == EventsOf(inputs[q], |Pending(inputs[..q])|, expose)
  {
    ResultEvents(inputs, q, expose);
    EventsSplit(inputs, q + 1, expose);
    assert inputs[..q + 1][..q] == inputs[..q];
    var some, all := Events(inputs[..q + 1], expose), Events(inputs, expose);
    assert all[..|some|] == some;
    assert all[|some| - 1] == some[|some| - 1];
  }

  /** Where the lines of the turns begin: turn i has the lines from the i-th of these
      places to the next. The last place is that of the first result line, or the end. */
  ghost function Places(inputs: seq<Input>, expose: bool, turns: seq<seq<Event>>): (ps: seq<nat>)
    ensures |ps| == |turns| + 1
  {
    var lines := inputs[..UpToResult(inputs)];
    seq(|turns| + 1, i requires 0 <= i <= |turns| =>
      if i == |turns| then |lines| else Cut(lines, expose, StartOf(turns, i)))
  }

  ghost predicate Tiles(inputs: seq<Input>, expose: bool, turns: seq<seq<Event>>) {
    && turns != [] && (forall i | 0 <= i < |turns| :: Final(turns[i]) <==> i == |turns| - 1)
    && var r := |Events(inputs[..UpToResult(inputs)], expose)|;
       r < |Stream(inputs, expose)| && Flatten(turns) == Stream(inputs, expose)[..r + 1]
  }

  /** A turn before the last is a stretch of the events before the run_end. */
  lemma EarlyStretch(turns: seq<seq<Event>>, all: seq<Event>, r: nat, i: nat)
    requires i < |turns| - 1 && Final(turns[|turns| - 1]) && r < |all| && Flatten(turns) == all[..r + 1]
    ensures var a, b := StartOf(turns, i), StartOf(turns, i + 1);
      a <= b <= r && turns[i] == all[..r][a..b]
  {
    TurnAt(turns, i);
    BeforeLast(turns, i);
    var a, b := StartOf(turns, i), StartOf(turns, i + 1);
    assert all[..r + 1][a..b] == all[..r][a..b];
  }

  lemma EarlyTurn(inputs: seq<Input>, expose: bool, turns: seq<seq<Event>>, i: nat)
    requires Tiles(inputs, expose, turns) && i < |turns| - 1
    ensures var ps, lines := Places(inputs, expose, turns), inputs[..UpToResult(inputs)];
      && ps[i] <= ps[i + 1] <= |lines|
      && TellsLines(OutcomeOf(turns[i]), lines[ps[i]..ps[i + 1]], expose)
      && Pending(lines[..ps[i + 1]]) == Pending(lines[..ps[i]]) + CallsIn(turns[i])
  {
    var lines := inputs[..UpToResult(inputs)];
    var a, b := StartOf(turns, i), StartOf(turns, i + 1);
    EndOfStream(inputs, expose);
    EarlyStretch(turns, Stream(inputs, expose), |Events(lines, expose)|, i);
    StretchSays(lines, expose, a, b);
    StretchCalls(lines, expose, a, b);
    EarlyTurnTells(turns[i], lines[Cut(lines, expose, a)..Cut(lines, expose, b)], expose);
  }

  /** The last turn is not empty. */
  lemma BeforeLast(turns: seq<seq<Event>>, i: nat)
    requires i < |turns| - 1 && Final(turns[|turns| - 1])
    ensures StartOf(turns, i + 1) < |Flatten(turns)|
  {
    FlattenSplit(turns, |turns| - 1);
    FlattenSplit(turns[..|turns| - 1], i + 1);
    assert turns[..|turns| - 1][..i + 1] == turns[..i + 1];
    assert turns[|turns| - 1..] == [turns[|turns| - 1]];
    assert Flatten([turns[|turns| - 1]]) == turns[|turns| - 1] + Flatten([]);
  }

  lemma LastStretch(turns: seq<seq<Event>>, all: seq<Event>, r: nat)
    requires turns != [] && Final(turns[|turns| - 1]) && r < |all| && Flatten(turns) == all[..r + 1]
    ensures var a := StartOf(turns, |turns| - 1);
      a <= r && turns[|turns| - 1] == all[..r][a..] + [all[r]]
  {
    var last := |turns| - 1;
    TurnAt(turns, last);
    StartNext(turns, last);
    assert turns[..last + 1] == turns;
    LastPart(all, all[..r], StartOf(turns, last));
  }

  lemma LastTurn(inputs: seq<Input>, expose: bool, turns: seq<seq<Event>>)
    requires Tiles(inputs, expose, turns)
    ensures var ps, last := Places(inputs, expose, turns), |turns| - 1;
      var q := UpToResult(inputs);
      ps[last] <= q && TellsEnd(OutcomeOf(turns[last]), inputs[ps[last]..q], inputs[q..], expose)
  {
    var q, last := UpToResult(inputs), |turns| - 1;
    var lines, all := inputs[..q], Stream(inputs, expose);
    var evs, a := Events(lines, expose), StartOf(turns, last);
    EndOfStream(inputs, expose);
    LastStretch(turns, all, |evs|);
    StretchToEnd(lines, expose, a);
    var c := Cut(lines, expose, a);
    assert lines[c..] == inputs[c..q];
    LastTurnTells(evs[a..], all[|evs|], inputs[c..q], inputs[q..], |Pending(lines)|, expose);
  }

  lemma LastPart(all: seq<Event>, evs: seq<Event>, a: nat)
    requires |evs| < |all| && all[..|evs|] == evs && a <= |evs|
    ensures all[..|evs| + 1][a..|evs| + 1] == evs[a..] + [all[|evs|]]
  {
    assert forall i | a <= i < |evs| :: all[i] == all[..|evs|][i] == evs[i];
  }

  /** A whole run, from the CLI's lines to the answers. The lines up to the first
      result fall into stretches, one for each outcome; each outcome says what its
      lines say and hands out the calls they announce, and the last one says how the
      run ended. No turn meets a closed channel. */
  method RunSession(inputs: seq<Input>, expose: bool) returns (outs: seq<Outcome>, ghost places: seq<nat>)
    ensures outs != [] && |places| == |outs| + 1 && places[|outs|] == UpToResult(inputs)
    ensures OutcomeCalls(outs) == Pending(inputs[..UpToResult(inputs)])
    ensures forall i | 0 <= i < |outs| - 1 :: TellsStretch(outs[i], inputs, places[i], places[i + 1], expose)
    ensures var last := |outs| - 1;
      TellsRest(outs[last], inputs, places[last], places[last + 1], expose)
  {
    var s := new SessionStream();
    s.Relay(inputs, expose);
    ghost var r := RunIsTiled(inputs, expose);
    ghost var turns := TurnsOf(s.events);
    outs := CollectAll(s, r);
    OutcomesCalls(outs, turns);
    places := Places(inputs, expose, turns);
    SameEnd(inputs, expose, r);
    forall i | 0 <= i < |outs| - 1
      ensures TellsStretch(outs[i], inputs, places[i], places[i + 1], expose)
    {
      EarlyTurn(inputs, expose, turns, i);
      Within(inputs, UpToResult(inputs), places[i], places[i + 1]);
    }
    LastTurn(inputs, expose, turns);
  }

  lemma Within(inputs: seq<Input>, q: nat, a: nat, b: nat)
    requires a <= b <= q <= |inputs|
    ensures inputs[..q][a..b] == inputs[a..b] && inputs[..q][..a] == inputs[..a] && inputs[..q][..b] == inputs[..b]
  {
  }

  lemma SameEnd(inputs: seq<Input>, expose: bool, r: nat)
    requires FirstRunEnd(Stream(inputs, expose), r)
    ensures r == |Events(inputs[..UpToResult(inputs)], expose)|
  {
    var all, evs := Stream(inputs, expose), Events(inputs[..UpToResult(inputs)], expose);
    StreamUpTo(inputs, expose);
    NoEarlyEnd(inputs[..UpToResult(inputs)], expose);
    assert forall i | 0 <= i < |evs| :: all[i] == all[..|evs|][i];
  }
}
