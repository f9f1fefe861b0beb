/** One run of the CLI: its output lines become session events, and the requests
    that drive the session cut the events into turns. */
module Turns {
  import opened Options

  // Lines

  datatype Block = ToolUse(name: string, input: string) | OtherBlock

  type Usage = nat

  /** A line of output. `Blank` is any line the relay passes over: empty, not
      JSON, of another type or without its body. */
  datatype Line =
    | Blank
    | TextDelta(text: string)
    | ThinkingDelta(text: string)
    | MessageDelta(stopReason: Option<string>, usage: Option<Usage>)
    | AssistantMessage(model: string, content: seq<Block>)
    | ResultLine(result: string, stopReason: Option<string>, usage: Option<Usage>, cost: Option<real>,
                 isError: bool, subtype: string)

  /** A line, and whether its session had been reaped when it was read. */
  datatype Input = Input(line: Line, reaped: bool)

  // Events

  datatype Call = Call(id: nat, name: string, input: string)

  datatype Failure = Reported(detail: string) | NoResult | Unexpected | TimedOut | Disconnected

  datatype Event =
    | TextEvent(text: string)
    | Reasoning(text: string)
    | ToolCalls(model: string, calls: seq<Call>)
    | Stop(stopReason: Option<string>, usage: Option<Usage>)
    | RunEnd(resultText: Option<string>, stopReason: Option<string>, usage: Option<Usage>, cost: Option<real>,
             err: Option<Failure>)

  function Uses(content: seq<Block>): seq<Block> {
    if content == [] then []
    else
      var last := content[|content| - 1];
      Uses(content[..|content| - 1]) + if last.ToolUse? then [last] else []
  }

  /** Ids are taken to be fresh; the position in announcement order serves as one. */
  function NewCalls(uses: seq<Block>, base: nat): (calls: seq<Call>)
    ensures |calls| == |uses|
  {
    seq(|uses|, i requires 0 <= i < |uses| =>
      if uses[i].ToolUse? then Call(base + i, uses[i].name, uses[i].input) else Call(base + i, "", ""))
  }

  /** The calls a line announces, after `base` others. A reaped session takes none. */
  function Announced(input: Input, base: nat): seq<Call> {
    if input.line.AssistantMessage? && !input.reaped then NewCalls(Uses(input.line.content), base) else []
  }

  function Pending(inputs: seq<Input>): seq<Call> {
    if inputs == [] then []
    else
      var before := Pending(inputs[..|inputs| - 1]);
      before + Announced(inputs[|inputs| - 1], |before|)
  }

  function Detail(result: string, subtype: string): string {
    if result != "" then result else if subtype != "" then subtype else "unknown error"
  }

  function EventsOf(input: Input, base: nat, expose: bool): seq<Event> {
    match input.line
    case Blank => []
    case TextDelta(text) => if text != "" then [TextEvent(text)] else []
    case ThinkingDelta(text) => if expose && text != "" then [Reasoning(text)] else []
    case MessageDelta(reason, usage) => [Stop(reason, usage)]
    case AssistantMessage(model, _) =>
      var calls := Announced(input, base);
      if model != "" || calls != [] then [ToolCalls(model, calls)] else []
    case ResultLine(result, reason, usage, cost, isError, subtype) =>
      [RunEnd(if result != "" then Some(result) else None, reason, usage, cost,
              if isError then Some(Reported(Detail(result, subtype))) else None)]
  }

  function Events(inputs: seq<Input>, expose: bool): seq<Event> {
    if inputs == [] then []
    else
      var front := inputs[..|inputs| - 1];
      Events(front, expose) + EventsOf(inputs[|inputs| - 1], |Pending(front)|, expose)
  }

  predicate HasResult(inputs: seq<Input>) {
    exists i | 0 <= i < |inputs| :: inputs[i].line.ResultLine?
  }

  const NO_RESULT: Event := RunEnd(None, None, None, None, Some(NoResult))

  /** All that goes through the session's channel before it is closed. */
  function Stream(inputs: seq<Input>, expose: bool): seq<Event> {
    Events(inputs, expose) + if HasResult(inputs) then [] else [NO_RESULT]
  }

  // Turns

  /** A request that stops waiting, by its timer or with its client, does so after
      some number of events. */
  datatype Interrupt = Interrupt(after: nat, why: Failure)

  datatype Outcome = Outcome(
    text: string, reasoning: string, calls: seq<Call>, model: string, stopReason: Option<string>,
    usage: Usage, cost: Option<real>, final: bool, err: Option<Failure>)

  const NOTHING: Outcome := Outcome("", "", [], "", None, 0, None, false, None)

  const TOOL_USE: string := "tool_use"

  predicate ToolStop(turn: seq<Event>) {
    exists i | 0 <= i < |turn| :: turn[i].Stop? && turn[i].stopReason == Some(TOOL_USE)
  }

  function CallsIn(turn: seq<Event>): seq<Call> {
    if turn == [] then []
    else
      var last := turn[|turn| - 1];
      CallsIn(turn[..|turn| - 1]) + if last.ToolCalls? then last.calls else []
  }

  function TextIn(turn: seq<Event>): string {
    if turn == [] then ""
    else
      var last := turn[|turn| - 1];
      TextIn(turn[..|turn| - 1]) + if last.TextEvent? then last.text else ""
  }

  function ReasoningIn(turn: seq<Event>): string {
    if turn == [] then ""
    else
      var last := turn[|turn| - 1];
      ReasoningIn(turn[..|turn| - 1]) + if last.Reasoning? then last.text else ""
  }

  function Model(turn: seq<Event>): string {
    if turn == [] then ""
    else
      var last := turn[|turn| - 1];
      if last.ToolCalls? && last.model != "" then last.model else Model(turn[..|turn| - 1])
  }

  /** Events that say how the run went. An error leaves the rest of a run_end unread. */
  predicate Tells(e: Event) {
    e.Stop? || (e.RunEnd? && e.err.None?)
  }

  function StopReason(turn: seq<Event>): Option<string> {
    if turn == [] then None
    else
      var last := turn[|turn| - 1];
      if Tells(last) && last.stopReason.Some? then last.stopReason else StopReason(turn[..|turn| - 1])
  }

  function UsageIn(turn: seq<Event>): Usage {
    if turn == [] then 0
    else
      var last := turn[|turn| - 1];
      if Tells(last) && last.usage.Some? then last.usage.value else UsageIn(turn[..|turn| - 1])
  }

  predicate Final(turn: seq<Event>) {
    turn != [] && turn[|turn| - 1].RunEnd?
  }

  function OutcomeOf(turn: seq<Event>): Outcome {
    var end := if Final(turn) then turn[|turn| - 1] else RunEnd(None, None, None, None, None);
    var text := if end.err.None? && end.resultText.Some? then end.resultText.value else TextIn(turn);
    var cost := if end.err.None? then end.cost else None;
    Outcome(text, ReasoningIn(turn), CallsIn(turn), Model(turn), StopReason(turn), UsageIn(turn), cost,
            Final(turn), end.err)
  }

  /** A turn ends with the run, or once the model has stopped for tools and has
      announced a call, in either order. */
  predicate Ends(turn: seq<Event>) {
    Final(turn) || (ToolStop(turn) && CallsIn(turn) != [])
  }

  lemma TurnGrows(turn: seq<Event>, ev: Event)
    ensures (turn + [ev])[..|turn|] == turn
    ensures ToolStop(turn + [ev]) <==> ToolStop(turn) || (ev.Stop? && ev.stopReason == Some(TOOL_USE))
  {
    assert forall i | 0 <= i < |turn| :: (turn + [ev])[i] == turn[i];
    assert (turn + [ev])[|turn|] == ev;
  }

  // The relay

  class SessionStream {
    var events: seq<Event>
    var closed: bool
    var pending: seq<Call>

    constructor ()
      ensures events == [] && !closed && pending == []
    {
      events, closed, pending := [], false, [];
    }

    method RegisterAnnouncedCalls(uses: seq<Block>, reaped: bool) returns (calls: seq<Call>)
      modifies this`pending
      ensures calls == if reaped then [] else NewCalls(uses, |old(pending)|)
      ensures pending == old(pending) + calls
    {
      if reaped {
        return [];
      }
      calls := NewCalls(uses, |pending|);
      pending := pending + calls;
    }

    method Send(ev: Event)
      requires !closed
      modifies this`events
      ensures events == old(events) + [ev]
    {
      events := events + [ev];
    }

    method RelayLine(input: Input, expose: bool)
      requires !closed
      modifies this`events, this`pending
      ensures events == old(events) + EventsOf(input, |old(pending)|, expose)
      ensures pending == old(pending) + Announced(input, |old(pending)|)
    {
      match input.line
      case Blank =>
      case TextDelta(text) =>
        if text != "" {
          Send(TextEvent(text));
        }
      case ThinkingDelta(text) =>
        if expose && text != "" {
          Send(Reasoning(text));
        }
      case MessageDelta(reason, usage) => Send(Stop(reason, usage));
      case AssistantMessage(model, content) =>
        var uses: seq<Block> := [];
        for i := 0 to |content|
          invariant uses == Uses(content[..i])
        {
          assert content[..i + 1][..i] == content[..i];
          if content[i].ToolUse? {
            uses := uses + [content[i]];
          }
        }
        assert content[..|content|] == content;
        var calls: seq<Call> := [];
        if |uses| > 0 {
          calls := RegisterAnnouncedCalls(uses, input.reaped);
        }
        if model != "" || |calls| > 0 {
          Send(ToolCalls(model, calls));
        }
      case ResultLine(result, reason, usage, cost, isError, subtype) =>
        var resultText: Option<string> := None;
        if result != "" {
          resultText := Some(result);
        }
        var err: Option<Failure> := None;
        if isError {
          var detail := result;
          if detail == "" {
            detail := subtype;
          }
          if detail == "" {
            detail := "unknown error";
          }
          err := Some(Reported(detail));
        }
        Send(RunEnd(resultText, reason, usage, cost, err));
    }

    method Relay(inputs: seq<Input>, expose: bool)
      requires events == [] && pending == [] && !closed
      modifies this
      ensures events == Stream(inputs, expose) && pending == Pending(inputs) && closed
    {
      var sawResult := false;
      for i := 0 to |inputs|
        invariant events == Events(inputs[..i], expose) && pending == Pending(inputs[..i]) && !closed
        invariant sawResult == HasResult(inputs[..i])
      {
        assert inputs[..i + 1] == inputs[..i] + [inputs[i]];
        RelayLine(inputs[i], expose);
        sawResult := sawResult || inputs[i].line.ResultLine?;
      }
      assert inputs[..|inputs|] == inputs;
      if !sawResult {
        Send(NO_RESULT);
      }
      closed := true;
    }

    /** Takes events off the channel until the turn ends, the request gives up, or
        the channel turns out to be closed. */
    method CollectTurn(interrupt: Option<Interrupt>) returns (out: Outcome)
      requires closed
      modifies this`events
      ensures |events| <= |old(events)|
      ensures var n := |old(events)| - |events|;
        events == old(events)[n..] && Collected(old(events), n, interrupt, out)
    {
      out := NOTHING;
      var sawToolStop, taken, ended := false, 0, false;
      ghost var all := events;
      while !ended
        invariant taken <= |all| && events == all[taken..]
        invariant Collecting(all, taken, interrupt, out, sawToolStop, ended)
        decreases |events|, !ended
      {
        if interrupt.Some? && interrupt.value.after == taken {
          out := out.(err := Some(interrupt.value.why));
          return;
        }
        if events == [] {
          out := out.(err := Some(Unexpected));
          return;
        }
        var ev := events[0];
        NextEvent(all, taken);
        events := events[1..];
        out, sawToolStop, ended := TakeEvent(all[..taken], ev, out, sawToolStop);
        taken := taken + 1;
      }
    }
  }

  /** The first n events of `all` make the outcome of a turn: they end it, as early
      as may be, or the request gave up after them, or there were no more. */
  ghost predicate Collected(all: seq<Event>, n: nat, interrupt: Option<Interrupt>, out: Outcome)
    requires n <= |all|
  {
    && (forall k | 0 <= k < n :: !Ends(all[..k]))
    && (interrupt.Some? ==> n <= interrupt.value.after)
    && (if Ends(all[..n]) then out == OutcomeOf(all[..n])
        else if interrupt.Some? && interrupt.value.after == n then
          out == OutcomeOf(all[..n]).(err := Some(interrupt.value.why))
        else n == |all| && out == OutcomeOf(all[..n]).(err := Some(Unexpected)))
  }

  /** A turn that does not end says why: the request gave up, by its timer or with its
      client, or the channel was closed. */
  lemma Unended(all: seq<Event>, n: nat, interrupt: Option<Interrupt>, out: Outcome)
    requires n <= |all| && Collected(all, n, interrupt, out) && !Ends(all[..n])
    ensures !out.final && out.cost == None && out.err != None
    ensures out.err == Some(if interrupt.Some? && interrupt.value.after == n then interrupt.value.why else Unexpected)
    ensures n < |all| ==> interrupt.Some? && interrupt.value.after == n
  {
  }

  ghost predicate Collecting(all: seq<Event>, n: nat, interrupt: Option<Interrupt>,
                             out: Outcome, sawToolStop: bool, ended: bool)
    requires n <= |all|
  {
    && out == OutcomeOf(all[..n]) && sawToolStop == ToolStop(all[..n]) && ended == Ends(all[..n])
    && (forall k | 0 <= k < n :: !Ends(all[..k]))
    && (interrupt.Some? ==> n <= interrupt.value.after)
  }

  lemma NextEvent(all: seq<Event>, n: nat)
    requires n < |all|
    ensures all[n..][0] == all[n] && all[n..][1..] == all[n + 1..]
    ensures all[..n + 1] == all[..n] + [all[n]]
  {
  }

  /** One pass of the loop of CollectTurn. */
  method TakeEvent(ghost turn: seq<Event>, ev: Event, was: Outcome, sawBefore: bool)
    returns (out: Outcome, sawToolStop: bool, ended: bool)
    requires !Ends(turn) && was == OutcomeOf(turn) && sawBefore == ToolStop(turn)
    ensures out == OutcomeOf(turn + [ev]) && sawToolStop == ToolStop(turn + [ev])
    ensures ended == Ends(turn + [ev])
  {
    out, sawToolStop := was, sawBefore;
    TurnGrows(turn, ev);
    match ev {
      case TextEvent(text) => out := out.(text := out.text + text);
      case Reasoning(text) => out := out.(reasoning := out.reasoning + text);
      case ToolCalls(model, calls) =>
        if model != "" {
          out := out.(model := model);
        }
        out := out.(calls := out.calls + calls);
      case Stop(reason, usage) =>
        if reason.Some? {
          out := out.(stopReason := reason);
          if reason.value == TOOL_USE {
            sawToolStop := true;
          }
        }
        if usage.Some? {
          out := out.(usage := usage.value);
        }
      case RunEnd(resultText, reason, usage, cost, err) =>
        out := out.(final := true);
        if err.Some? {
          return out.(err := err), sawToolStop, true;
        }
        if resultText.Some? {
          out := out.(text := resultText.value);
        }
        if reason.Some? {
          out := out.(stopReason := reason);
        }
        if usage.Some? {
          out := out.(usage := usage.value);
        }
        return out.(cost := cost), sawToolStop, true;
    }
    ended := sawToolStop && |out.calls| > 0;
  }

  // Turns tile the run

  /** The earliest end, or all there is. */
  ghost function TurnLength(all: seq<Event>, from: nat): (n: nat)
    requires from <= |all|
    ensures from <= n <= |all| && (n < |all| ==> Ends(all[..n]))
    ensures forall k | from <= k < n :: !Ends(all[..k])
    decreases |all| - from
  {
    if from == |all| || Ends(all[..from]) then from else TurnLength(all, from + 1)
  }

  ghost function TurnsOf(all: seq<Event>): seq<seq<Event>>
    decreases |all|
  {
    if all == [] then []
    else
      var n := TurnLength(all, 1);
      [all[..n]] + if Final(all[..n]) then [] else TurnsOf(all[n..])
  }

  function Flatten<T>(parts: seq<seq<T>>): seq<T> {
    if parts == [] then [] else parts[0] + Flatten(parts[1..])
  }

  function CallsOf(turns: seq<seq<Event>>): seq<Call> {
    if turns == [] then [] else CallsIn(turns[0]) + CallsOf(turns[1..])
  }

  ghost predicate FirstRunEnd(all: seq<Event>, r: nat) {
    r < |all| && all[r].RunEnd? && forall i | 0 <= i < r :: !all[i].RunEnd?
  }

  ghost predicate EarliestEnd(turn: seq<Event>) {
    Ends(turn) && forall k | 0 <= k < |turn| :: !Ends(turn[..k])
  }

  /** Until the run ends turns neither overlap nor leave anything out; each ends as
      early as it can, only the last with the run; so none ever finds the channel
      closed. */
  lemma {:induction false} TurnsTile(all: seq<Event>, r: nat)
    requires FirstRunEnd(all, r)
    ensures var turns := TurnsOf(all);
      && Flatten(turns) == all[..r + 1] && turns != []
      && (forall i | 0 <= i < |turns| :: EarliestEnd(turns[i]))
      && (forall i | 0 <= i < |turns| :: Final(turns[i]) <==> i == |turns| - 1)
    decreases |all|
  {
    var n := TurnLength(all, 1);
    var turn := all[..n];
    assert EarliestEnd(turn) && n <= r + 1 by {
      TurnIsEarliest(all, r);
    }
    if n == r + 1 {
      assert TurnsOf(all) == [turn];
      assert Flatten([turn]) == turn + Flatten([]);
    } else {
      var rest := all[n..];
      RestEnds(all, r, n);
      TurnsTile(rest, r - n);
      assert TurnsOf(all) == [turn] + TurnsOf(rest);
      assert Flatten([turn] + TurnsOf(rest)) == turn + Flatten(TurnsOf(rest));
    }
  }

  lemma RestEnds(all: seq<Event>, r: nat, n: nat)
    requires FirstRunEnd(all, r) && 1 <= n <= r
    ensures FirstRunEnd(all[n..], r - n) && !Final(all[..n])
    ensures all[..n] + all[n..][..r - n + 1] == all[..r + 1]
  {
    assert forall i | 0 <= i <= r - n :: all[n..][i] == all[n + i];
    assert all[..n][n - 1] == all[n - 1];
  }

  lemma TurnIsEarliest(all: seq<Event>, r: nat)
    requires FirstRunEnd(all, r)
    ensures var n := TurnLength(all, 1); EarliestEnd(all[..n]) && 1 <= n <= r + 1
  {
    var n := TurnLength(all, 1);
    assert Ends(all[..r + 1]) by {
      assert all[..r + 1][r] == all[r];
    }
    assert !Ends(all[..0]);
    forall k | 0 <= k < n ensures !Ends(all[..n][..k]) {
      assert all[..n][..k] == all[..k];
    }
    assert all[..|all|] == all;
  }

  lemma {:induction false} CallsConcat(a: seq<Event>, b: seq<Event>)
    ensures CallsIn(a + b) == CallsIn(a) + CallsIn(b)
  {
    if b == [] {
      assert a + b == a;
    } else {
      CallsConcat(a, b[..|b| - 1]);
      assert (a + b)[..|a + b| - 1] == a + b[..|b| - 1];
    }
  }

  lemma {:induction false} CallsFlatten(turns: seq<seq<Event>>)
    ensures CallsOf(turns) == CallsIn(Flatten(turns))
  {
    if turns != [] {
      CallsFlatten(turns[1..]);
      CallsConcat(turns[0], Flatten(turns[1..]));
    }
  }

  // What the relay puts on the channel

  lemma OneEvent(ev: Event)
    ensures CallsIn([ev]) == if ev.ToolCalls? then ev.calls else []
  {
    assert [ev][..0] == [];
    assert CallsIn([]) == [];
  }

  lemma LineCalls(input: Input, base: nat, expose: bool)
    ensures CallsIn(EventsOf(input, base, expose)) == Announced(input, base)
  {
    var evs := EventsOf(input, base, expose);
    if evs != [] {
      assert evs == [evs[0]];
      OneEvent(evs[0]);
    }
  }

  lemma {:induction false} CallsRelayed(inputs: seq<Input>, expose: bool)
    ensures CallsIn(Events(inputs, expose)) == Pending(inputs)
  {
    if inputs != [] {
      var front, last := inputs[..|inputs| - 1], inputs[|inputs| - 1];
      CallsRelayed(front, expose);
      CallsConcat(Events(front, expose), EventsOf(last, |Pending(front)|, expose));
      LineCalls(last, |Pending(front)|, expose);
    }
  }

  lemma {:induction false} EventsSplit(inputs: seq<Input>, q: nat, expose: bool)
    requires q <= |inputs|
    ensures Events(inputs[..q], expose) <= Events(inputs, expose)
    decreases |inputs|
  {
    if q < |inputs| {
      var front := inputs[..|inputs| - 1];
      assert front[..q] == inputs[..q];
      EventsSplit(front, q, expose);
    } else {
      assert inputs[..q] == inputs;
    }
  }

  lemma {:induction false} NoEarlyEnd(inputs: seq<Input>, expose: bool)
    requires !HasResult(inputs)
    ensures forall i | 0 <= i < |Events(inputs, expose)| :: !Events(inputs, expose)[i].RunEnd?
  {
    if inputs != [] {
      var front := inputs[..|inputs| - 1];
      assert forall i | 0 <= i < |front| :: front[i] == inputs[i];
      NoEarlyEnd(front, expose);
      assert !inputs[|inputs| - 1].line.ResultLine?;
    }
  }

  /** The lines up to the first result, or all of them. */
  function UpToResult(inputs: seq<Input>): (q: nat)
    ensures q <= |inputs| && !HasResult(inputs[..q])
    ensures q < |inputs| ==> inputs[q].line.ResultLine?
    ensures HasResult(inputs) ==> q < |inputs|
  {
    if inputs == [] then 0
    else
      var front := inputs[..|inputs| - 1];
      var q := UpToResult(front);
      assert front[..q] == inputs[..q];
      if q < |front| || inputs[|front|].line.ResultLine? then q else |inputs|
  }

  lemma ThroughResult(inputs: seq<Input>, q: nat, expose: bool)
    requires q < |inputs| && inputs[q].line.ResultLine?
    ensures var before := Events(inputs[..q], expose);
      && |before| < |Events(inputs, expose)| && Events(inputs, expose)[..|before|] == before
      && Events(inputs, expose)[|before|].RunEnd?
  {
    ResultEvents(inputs, q, expose);
    EventsSplit(inputs, q + 1, expose);
    var all, before, some := Events(inputs, expose), Events(inputs[..q], expose), Events(inputs[..q + 1], expose);
    assert all[..|some|] == some;
    assert all[|before|] == some[|before|];
    assert all[..|before|] == some[..|before|];
  }

  lemma ResultEvents(inputs: seq<Input>, q: nat, expose: bool)
    requires q < |inputs| && inputs[q].line.ResultLine?
    ensures var before, some := Events(inputs[..q], expose), Events(inputs[..q + 1], expose);
      |some| == |before| + 1 && some[..|before|] == before && some[|before|].RunEnd?
  {
    assert inputs[..q + 1][..q] == inputs[..q];
  }

  lemma CallsBeforeEnd(all: seq<Event>, r: nat)
    requires r < |all| && all[r].RunEnd?
    ensures CallsIn(all[..r + 1]) == CallsIn(all[..r])
  {
    assert all[..r + 1] == all[..r] + [all[r]];
    OneEvent(all[r]);
    CallsConcat(all[..r], [all[r]]);
  }

  lemma StreamUpTo(inputs: seq<Input>, expose: bool)
    ensures var before := Events(inputs[..UpToResult(inputs)], expose);
      && |before| < |Stream(inputs, expose)| && Stream(inputs, expose)[..|before|] == before
      && Stream(inputs, expose)[|before|].RunEnd?
  {
    var q := UpToResult(inputs);
    if q < |inputs| {
      assert HasResult(inputs);
      ThroughResult(inputs, q, expose);
      assert Stream(inputs, expose) == Events(inputs, expose);
    } else {
      assert inputs[..q] == inputs;
    }
  }

  /** The channel always carries a run_end, and the calls before it are those
      announced before the first result line. */
  lemma StreamEnds(inputs: seq<Input>, expose: bool) returns (r: nat)
    ensures FirstRunEnd(Stream(inputs, expose), r)
    ensures CallsIn(Stream(inputs, expose)[..r + 1]) == Pending(inputs[..UpToResult(inputs)])
  {
    var front, all := inputs[..UpToResult(inputs)], Stream(inputs, expose);
    r := |Events(front, expose)|;
    StreamUpTo(inputs, expose);
    NoEarlyEnd(front, expose);
    assert forall i | 0 <= i < r :: all[i] == all[..r][i];
    CallsBeforeEnd(all, r);
    CallsRelayed(front, expose);
  }

  /** Whatever lines the CLI writes, the turns that follow one another tile the
      events up to the end of the run and hand out every call announced until
      then, once and in order. */
  lemma RunIsTiled(inputs: seq<Input>, expose: bool) returns (r: nat)
    ensures FirstRunEnd(Stream(inputs, expose), r)
    ensures var turns := TurnsOf(Stream(inputs, expose));
      && Flatten(turns) == Stream(inputs, expose)[..r + 1] && turns != []
      && CallsOf(turns) == Pending(inputs[..UpToResult(inputs)])
      && (forall i | 0 <= i < |turns| :: EarliestEnd(turns[i]))
      && (forall i | 0 <= i < |turns| :: Final(turns[i]) <==> i == |turns| - 1)
  {
    r := StreamEnds(inputs, expose);
    TurnsTile(Stream(inputs, expose), r);
    CallsFlatten(TurnsOf(Stream(inputs, expose)));
  }

  lemma OneTurnEnd(all: seq<Event>, r: nat, n: nat)
    requires FirstRunEnd(all, r) && n <= |all|
    requires forall k | 0 <= k < n :: !Ends(all[..k])
    requires Ends(all[..n]) || n == |all|
    ensures n == TurnLength(all, 1) && Ends(all[..n])
  {
    TurnIsEarliest(all, r);
    assert !Ends(all[..0]);
    assert all[..|all|] == all;
  }

  lemma FinalEnd(all: seq<Event>, r: nat, n: nat)
    requires FirstRunEnd(all, r) && 1 <= n <= r + 1
    ensures Final(all[..n]) <==> n == r + 1
  {
    assert all[..n][n - 1] == all[n - 1];
  }

  /** The requests that drive a session, one after the other, until the run is over:
      each collects one turn of the tiling, and none finds the channel closed. */
  method CollectAll(s: SessionStream, ghost r: nat) returns (outs: seq<Outcome>)
    requires s.closed && FirstRunEnd(s.events, r)
    modifies s`events
    ensures var turns := TurnsOf(old(s.events));
      |outs| == |turns| && forall i | 0 <= i < |outs| :: outs[i] == OutcomeOf(turns[i])
    decreases |s.events|
  {
    ghost var all := s.events;
    var out := s.CollectTurn(None);
    ghost var n := |all| - |s.events|;
    OneTurnEnd(all, r, n);
    TurnIsEarliest(all, r);
    FinalEnd(all, r, n);
    outs := [out];
    if !out.final {
      RestEnds(all, r, n);
      assert TurnsOf(all) == [all[..n]] + TurnsOf(all[n..]);
      var rest := CollectAll(s, r - n);
      outs := outs + rest;
    }
  }

  function OutcomeCalls(outs: seq<Outcome>): seq<Call> {
    if outs == [] then [] else outs[0].calls + OutcomeCalls(outs[1..])
  }

  lemma {:induction false} OutcomesCalls(outs: seq<Outcome>, turns: seq<seq<Event>>)
    requires |outs| == |turns| && forall i | 0 <= i < |outs| :: outs[i] == OutcomeOf(turns[i])
    ensures OutcomeCalls(outs) == CallsOf(turns)
  {
    if outs != [] {
      OutcomesCalls(outs[1..], turns[1..]);
    }
  }
}
