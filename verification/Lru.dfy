/** The bounded store of resumable sessions, first as values: what it does, and
    the history that tells what it must hold. */
module Lru {
  import opened Options
  import opened Conversations

  datatype Op =
    | Get(key: Fingerprint)
    | Put(key: Fingerprint, id: string)
  {
    predicate Stores() {
      Put? && key.Key? && id != ""
    }
  }

  // The store

  /** Keys are listed from the most to the least recently used. */
  datatype Cache = Cache(keys: seq<Fingerprint>, ids: map<Fingerprint, string>)

  function Take(s: seq<Fingerprint>, max: nat): seq<Fingerprint> {
    if |s| <= max then s else s[..max]
  }

  function Drop(s: seq<Fingerprint>, x: Fingerprint): (r: seq<Fingerprint>)
    ensures forall y :: y in r <==> y in s && y != x
  {
    if s == [] then []
    else if s[|s| - 1] == x then Drop(s[..|s| - 1], x)
    else Drop(s[..|s| - 1], x) + [s[|s| - 1]]
  }

  function Only(m: map<Fingerprint, string>, keys: seq<Fingerprint>): map<Fingerprint, string> {
    map k | k in m && k in keys :: m[k]
  }

  function Step(c: Cache, op: Op, max: nat): Cache {
    match op
    case Get(k) =>
      if k.Key? && k in c.ids then Cache([k] + Drop(c.keys, k), c.ids) else c
    case Put(k, id) =>
      if !op.Stores() then c
      else if k in c.ids then Cache([k] + Drop(c.keys, k), c.ids[k := id])
      else
        var keys := Take([k] + c.keys, max);
        Cache(keys, Only(c.ids[k := id], keys))
  }

  function Run(ops: seq<Op>, max: nat): Cache {
    if ops == [] then Cache([], map[])
    else Step(Run(ops[..|ops| - 1], max), ops[|ops| - 1], max)
  }

  // The history

  predicate Distinct(s: seq<Fingerprint>) {
    forall i, j | 0 <= i < j < |s| :: s[i] != s[j]
  }

  function Elements(s: seq<Fingerprint>): set<Fingerprint> {
    set x <- s
  }

  /** The distinct keys of a sequence of touches, the latest touched first. */
  function Recent(touches: seq<Fingerprint>): (r: seq<Fingerprint>)
    ensures forall k :: k in r <==> k in touches
  {
    if touches == [] then []
    else
      var before, k := touches[..|touches| - 1], touches[|touches| - 1];
      assert touches == before + [k];
      [k] + Drop(Recent(before), k)
  }

  /** A hit is a Get of one of the `max` most recently touched keys. */
  function Touches(ops: seq<Op>, max: nat): seq<Fingerprint> {
    if ops == [] then []
    else
      var before, op := Touches(ops[..|ops| - 1], max), ops[|ops| - 1];
      if op.Stores() || (op.Get? && op.key in Take(Recent(before), max)) then before + [op.key]
      else before
  }

  /** The id most recently stored under k. */
  function Latest(ops: seq<Op>, k: Fingerprint): Option<string> {
    if ops == [] then None
    else
      var op := ops[|ops| - 1];
      if op.Stores() && op.key == k then Some(op.id) else Latest(ops[..|ops| - 1], k)
  }

  // The store does what the history says

  lemma {:induction false} DropAt(s: seq<Fingerprint>, p: nat)
    requires Distinct(s) && p < |s|
    ensures Drop(s, s[p]) == s[..p] + s[p + 1..]
  {
    var x, last := s[p], |s| - 1;
    if p == last {
      DropNone(s[..last], x);
      assert s[..p] + s[p + 1..] == s[..last];
    } else {
      DropAt(s[..last], p);
      assert s[..last][..p] + s[..last][p + 1..] + [s[last]] == s[..p] + s[p + 1..];
    }
  }

  lemma {:induction false} DropNone(s: seq<Fingerprint>, x: Fingerprint)
    requires x !in s
    ensures Drop(s, x) == s
  {
    if s != [] {
      DropNone(s[..|s| - 1], x);
    }
  }

  lemma TouchDistinct(s: seq<Fingerprint>, x: Fingerprint)
    requires Distinct(s)
    ensures Distinct([x] + Drop(s, x))
  {
    if x in s {
      var p :| 0 <= p < |s| && s[p] == x;
      DropAt(s, p);
    } else {
      DropNone(s, x);
    }
  }

  lemma {:induction false} RecentDistinct(touches: seq<Fingerprint>)
    ensures Distinct(Recent(touches))
  {
    if touches != [] {
      RecentDistinct(touches[..|touches| - 1]);
      TouchDistinct(Recent(touches[..|touches| - 1]), touches[|touches| - 1]);
    }
  }

  lemma PlaceOf(s: seq<Fingerprint>, x: Fingerprint) returns (p: nat)
    requires x in s
    ensures p < |s| && s[p] == x
  {
    p :| p < |s| && s[p] == x;
  }

  /** Bounding the list at every touch keeps what bounding the whole history would:
      for a key that the bounded list has, */
  lemma TakeKept(s: seq<Fingerprint>, x: Fingerprint, max: nat)
    requires Distinct(s) && max >= 1 && x in Take(s, max)
    ensures Take([x] + Drop(s, x), max) == [x] + Drop(Take(s, max), x)
  {
    var p := PlaceOf(Take(s, max), x);
    DropAt(Take(s, max), p);
    DropAt(s, p);
    if |s| > max {
      assert ([x] + (s[..p] + s[p + 1..]))[..max] == [x] + (s[..max][..p] + s[..max][p + 1..]);
    }
  }

  /** and for one that it has not. */
  lemma TakeNew(s: seq<Fingerprint>, x: Fingerprint, max: nat)
    requires Distinct(s) && max >= 1 && x !in Take(s, max)
    ensures Take([x] + Drop(s, x), max) == Take([x] + Take(s, max), max)
  {
    if x in s {
      var p := PlaceOf(s, x);
      DropAt(s, p);
      assert p >= max;
      assert ([x] + (s[..p] + s[p + 1..]))[..max] == ([x] + s[..max])[..max];
    } else {
      DropNone(s, x);
    }
  }

  ghost predicate Refines(c: Cache, ops: seq<Op>, max: nat) {
    && c.keys == Take(Recent(Touches(ops, max)), max)
    && c.ids.Keys == Elements(c.keys)
    && forall k <- c.ids :: k.Key? && Latest(ops, k) == Some(c.ids[k])
  }

  lemma HistoryStep(ops: seq<Op>, op: Op, max: nat)
    ensures var t := Touches(ops, max);
      var touched := op.Stores() || (op.Get? && op.key in Take(Recent(t), max));
      && Touches(ops + [op], max) == (if touched then t + [op.key] else t)
      && Recent(t + [op.key]) == [op.key] + Drop(Recent(t), op.key)
    ensures forall k :: Latest(ops + [op], k) == if op.Stores() && op.key == k then Some(op.id) else Latest(ops, k)
  {
    assert (ops + [op])[..|ops|] == ops;
    var t := Touches(ops, max);
    assert (t + [op.key])[..|t|] == t;
  }

  lemma SameTouched(keys: seq<Fingerprint>, k: Fingerprint)
    requires k in keys
    ensures Elements([k] + Drop(keys, k)) == Elements(keys)
  {
  }

  lemma StepKept(c: Cache, ops: seq<Op>, op: Op, max: nat)
    requires max >= 1 && Refines(c, ops, max) && op.key in c.ids
    ensures Refines(Step(c, op, max), ops + [op], max)
  {
    HistoryStep(ops, op, max);
    var recent := Recent(Touches(ops, max));
    RecentDistinct(Touches(ops, max));
    assert op.key in Take(recent, max);
    TakeKept(recent, op.key, max);
    SameTouched(c.keys, op.key);
  }

  lemma StepNew(c: Cache, ops: seq<Op>, op: Op, max: nat)
    requires max >= 1 && Refines(c, ops, max) && op.key !in c.ids
    ensures Refines(Step(c, op, max), ops + [op], max)
  {
    HistoryStep(ops, op, max);
    var recent := Recent(Touches(ops, max));
    RecentDistinct(Touches(ops, max));
    assert op.key !in Take(recent, max);
    TakeNew(recent, op.key, max);
  }

  lemma StepRefines(c: Cache, ops: seq<Op>, op: Op, max: nat)
    requires max >= 1 && Refines(c, ops, max)
    ensures Refines(Step(c, op, max), ops + [op], max)
  {
    if op.key in c.ids {
      StepKept(c, ops, op, max);
    } else {
      StepNew(c, ops, op, max);
    }
  }

  /** Over every run the store lists exactly the `max` most recently touched
      keys, the latest first, each with the id last stored under it. */
  lemma {:induction false} RunRefines(ops: seq<Op>, max: nat)
    requires max >= 1
    ensures Refines(Run(ops, max), ops, max)
    ensures Distinct(Run(ops, max).keys)
  {
    RecentDistinct(Touches(ops, max));
    if ops != [] {
      var before, op := ops[..|ops| - 1], ops[|ops| - 1];
      RunRefines(before, max);
      assert before + [op] == ops;
      StepRefines(Run(before, max), before, op, max);
    }
  }

  // When a key is still there

  lemma {:induction false} ElementsCount(s: seq<Fingerprint>)
    requires Distinct(s)
    ensures |Elements(s)| == |s|
  {
    if s != [] {
      ElementsCount(s[..|s| - 1]);
      assert Elements(s) == Elements(s[..|s| - 1]) + {s[|s| - 1]};
    }
  }

  lemma TouchBefore(was: seq<Fingerprint>, x: Fingerprint, p: nat) returns (p': nat)
    requires Distinct(was) && p < |was| && was[p] != x
    ensures var now := [x] + Drop(was, x);
      p' < |now| && now[p'] == was[p] && Elements(now[..p']) == Elements(was[..p]) + {x}
  {
    if x in was[..p] {
      var q := PlaceOf(was[..p], x);
      DropAt(was, q);
      assert ([x] + (was[..q] + was[q + 1..]))[..p] == [x] + was[..q] + was[q + 1..p];
      assert was[..p] == was[..q] + [x] + was[q + 1..p];
      SameElements([x], was[..q], was[q + 1..p]);
      p' := p;
    } else {
      DropLater(was, x, p);
      assert ([x] + Drop(was, x))[..p + 1] == [x] + was[..p];
      assert Elements([x] + was[..p]) == {x} + Elements(was[..p]);
      p' := p + 1;
    }
  }

  /** The keys before k are those touched since k was. */
  lemma {:induction false} RecentBefore(touches: seq<Fingerprint>, i: nat) returns (p: nat)
    requires i < |touches| && touches[i] !in touches[i + 1..]
    ensures p < |Recent(touches)| && Recent(touches)[p] == touches[i]
    ensures Elements(Recent(touches)[..p]) == Elements(touches[i + 1..])
  {
    var last := |touches| - 1;
    if i == last {
      p := 0;
    } else {
      var before, x := touches[..last], touches[last];
      var since := before[i + 1..];
      assert since + [x] == touches[i + 1..];
      assert touches[i + 1..][last - i - 1] == x;
      p := RecentBefore(before, i);
      RecentDistinct(before);
      p := TouchBefore(Recent(before), x, p);
      assert Elements(touches[i + 1..]) == Elements(since) + {x};
    }
  }

  lemma SameElements(a: seq<Fingerprint>, b: seq<Fingerprint>, c: seq<Fingerprint>)
    ensures Elements(a + b + c) == Elements(b + a + c) == Elements(a) + Elements(b + a + c)
  {
  }

  lemma DropLater(s: seq<Fingerprint>, x: Fingerprint, p: nat)
    requires Distinct(s) && p < |s| && x !in s[..p] && x != s[p]
    ensures |Drop(s, x)| > p && Drop(s, x)[..p] == s[..p] && Drop(s, x)[p] == s[p]
  {
    if x in s {
      var q :| 0 <= q < |s| && s[q] == x;
      assert forall j | 0 <= j < p :: s[..p][j] == s[j];
      DropAt(s, q);
    } else {
      DropNone(s, x);
    }
  }

  /** A touched key is kept just as long as fewer than `max` different keys have
      been touched since its last touch. */
  lemma KeptIff(ops: seq<Op>, max: nat, i: nat)
    requires max >= 1
    requires var t := Touches(ops, max); i < |t| && t[i] !in t[i + 1..]
    ensures var t := Touches(ops, max);
      t[i] in Run(ops, max).ids <==> |Elements(t[i + 1..])| < max
  {
    var t := Touches(ops, max);
    RunRefines(ops, max);
    RecentDistinct(t);
    var recent := Recent(t);
    var p := RecentBefore(t, i);
    ElementsCount(recent[..p]);
    if p < max {
      assert Take(recent, max)[p] == t[i];
    } else {
      assert t[i] !in recent[..max];
    }
  }

  // The order, told by the operations

  /** This operation is a Put that stores, or a Get that finds its key. */
  predicate Touching(c: Cache, op: Op) {
    op.key.Key? && ((op.Put? && op.id != "") || (op.Get? && op.key in c.ids))
  }

  /** The last operation that touched k, or -1. */
  function LastTouch(ops: seq<Op>, max: nat, k: Fingerprint): int {
    if ops == [] then -1
    else
      var front, op := ops[..|ops| - 1], ops[|ops| - 1];
      if Touching(Run(front, max), op) && op.key == k then |ops| - 1 else LastTouch(front, max, k)
  }

  lemma {:induction false} LastTouchBelow(ops: seq<Op>, max: nat, k: Fingerprint)
    ensures -1 <= LastTouch(ops, max, k) < |ops|
  {
    if ops != [] {
      LastTouchBelow(ops[..|ops| - 1], max, k);
    }
  }

  /** The history counts as touches exactly the operations that store or find. */
  lemma TouchesAre(ops: seq<Op>, max: nat)
    requires max >= 1 && ops != []
    ensures var front, op := ops[..|ops| - 1], ops[|ops| - 1];
      Touches(ops, max) == Touches(front, max) + if Touching(Run(front, max), op) then [op.key] else []
  {
    var front, op := ops[..|ops| - 1], ops[|ops| - 1];
    RunRefines(front, max);
    var c := Run(front, max);
    assert op.key in c.ids <==> op.key in c.keys;
    assert Touches(front, max) + [] == Touches(front, max);
  }

  ghost predicate ByRecency(keys: seq<Fingerprint>, ops: seq<Op>, max: nat) {
    forall a, b | 0 <= a < b < |keys| :: LastTouch(ops, max, keys[a]) > LastTouch(ops, max, keys[b])
  }

  lemma TouchFront(keys: seq<Fingerprint>, k: Fingerprint, ops: seq<Op>, max: nat)
    requires ops != [] && Distinct(keys) && ByRecency(keys, ops[..|ops| - 1], max)
    requires Touching(Run(ops[..|ops| - 1], max), ops[|ops| - 1]) && ops[|ops| - 1].key == k
    ensures ByRecency([k] + Drop(keys, k), ops, max)
  {
    var front := ops[..|ops| - 1];
    forall x ensures LastTouch(front, max, x) < |ops| - 1 {
      LastTouchBelow(front, max, x);
    }
    if k in keys {
      var p := PlaceOf(keys, k);
      DropAt(keys, p);
    } else {
      DropNone(keys, k);
    }
  }

  lemma TouchNone(keys: seq<Fingerprint>, ops: seq<Op>, max: nat)
    requires ops != [] && ByRecency(keys, ops[..|ops| - 1], max)
    requires !Touching(Run(ops[..|ops| - 1], max), ops[|ops| - 1])
    ensures ByRecency(keys, ops, max)
  {
  }

  lemma RecencyTake(keys: seq<Fingerprint>, ops: seq<Op>, max: nat)
    requires ByRecency(keys, ops, max)
    ensures ByRecency(Take(keys, max), ops, max)
  {
  }

  lemma KeysAfter(c: Cache, op: Op, max: nat)
    requires c.ids.Keys == Elements(c.keys)
    ensures var keys := Step(c, op, max).keys;
      if !Touching(c, op) then keys == c.keys
      else keys == [op.key] + Drop(c.keys, op.key) || keys == Take([op.key] + Drop(c.keys, op.key), max)
  {
    if op.key !in c.keys {
      DropNone(c.keys, op.key);
    }
  }

  lemma RecencyStep(c: Cache, ops: seq<Op>, max: nat)
    requires max >= 1 && ops != [] && c == Run(ops[..|ops| - 1], max)
    requires Distinct(c.keys) && c.ids.Keys == Elements(c.keys) && ByRecency(c.keys, ops[..|ops| - 1], max)
    ensures ByRecency(Run(ops, max).keys, ops, max)
  {
    var op := ops[|ops| - 1];
    KeysAfter(c, op, max);
    if Touching(c, op) {
      TouchFront(c.keys, op.key, ops, max);
      RecencyTake([op.key] + Drop(c.keys, op.key), ops, max);
    } else {
      TouchNone(c.keys, ops, max);
    }
  }

  /** Over every run the keys are in the order in which they were last stored or found,
      the latest first. */
  lemma {:induction false} OrderIsRecency(ops: seq<Op>, max: nat)
    requires max >= 1
    ensures ByRecency(Run(ops, max).keys, ops, max)
  {
    if ops != [] {
      var front := ops[..|ops| - 1];
      OrderIsRecency(front, max);
      RunRefines(front, max);
      RecencyStep(Run(front, max), ops, max);
    }
  }

  /** A Put that stores is first and has its id, a Get that finds is first and has the
      id it had, and anything else changes nothing. */
  lemma WhatIsStored(ops: seq<Op>, op: Op, max: nat)
    requires max >= 1
    ensures var c, c' := Run(ops, max), Run(ops + [op], max);
      && (!Touching(c, op) ==> c' == c)
      && (Touching(c, op) ==>
            && |c'.keys| > 0 && c'.keys[0] == op.key && op.key in c'.ids
            && (op.Put? ==> c'.ids[op.key] == op.id) && (op.Get? ==> c'.ids == c.ids))
      && forall k <- c'.ids | k != op.key :: k in c.ids && c'.ids[k] == c.ids[k]
  {
    assert (ops + [op])[..|ops|] == ops;
  }
}
