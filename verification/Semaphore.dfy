/** The gateway's FIFO semaphore. Acquire queues a channel under the lock and parks
    on it afterwards; Release hands its permit to the first channel in the queue
    with a send that gives up when nobody is parked there. */
module Semaphore {
  import opened Induction

  /** One waiter taken off the queue, and whether it was parked to take the permit. */
  datatype Pop = Pop(waiter: nat, parked: bool)

  /** `held` counts permits in use; `arrivals` and `pops` are the history of the
      queue; `entering` holds the waiters queued but not yet parked. */
  datatype Sem = Sem(
    size: nat, available: nat, waiters: seq<nat>, entering: set<nat>, parked: set<nat>,
    held: nat, arrivals: seq<nat>, pops: seq<Pop>)

  datatype Action =
    | Acquire(t: nat)
    | Park(t: nat)
    | Cancel(t: nat)
    | Release

  function New(size: int): Sem {
    var n := if size < 1 then 1 else size;
    Sem(n, n, [], {}, {}, 0, [], [])
  }

  /** Each call of Acquire is a waiter of its own; only a holder releases. */
  predicate Enabled(s: Sem, a: Action) {
    match a
    case Acquire(t) => t !in s.arrivals
    case Park(t) => t in s.entering
    case Cancel(t) => t in s.entering || t in s.parked
    case Release => s.held > 0
  }

  function Step(s: Sem, a: Action): Sem
    requires Enabled(s, a)
  {
    match a
    case Acquire(t) =>
      if s.available > 0 then s.(available := s.available - 1, held := s.held + 1)
      else s.(waiters := s.waiters + [t], entering := s.entering + {t}, arrivals := s.arrivals + [t])
    case Park(t) => s.(entering := s.entering - {t}, parked := s.parked + {t})
    case Cancel(t) => s.(entering := s.entering - {t}, parked := s.parked - {t})
    case Release =>
      if s.waiters == [] then s.(available := s.available + 1, held := s.held - 1)
      else
        var t := s.waiters[0];
        if t in s.parked then
          s.(waiters := s.waiters[1..], parked := s.parked - {t}, pops := s.pops + [Pop(t, true)])
        else s.(waiters := s.waiters[1..], held := s.held - 1, pops := s.pops + [Pop(t, false)])
  }

  // The history

  /** Permits that Release gave to nobody. */
  function Dropped(pops: seq<Pop>): nat {
    if pops == [] then 0
    else Dropped(pops[..|pops| - 1]) + if pops[|pops| - 1].parked then 0 else 1
  }

  function Popped(pops: seq<Pop>): (ts: seq<nat>)
    ensures |ts| == |pops| && forall i | 0 <= i < |pops| :: ts[i] == pops[i].waiter
  {
    seq(|pops|, i requires 0 <= i < |pops| => pops[i].waiter)
  }

  /** The waiters granted a permit, in the order they were granted it. */
  function Granted(pops: seq<Pop>): seq<nat> {
    if pops == [] then []
    else Granted(pops[..|pops| - 1]) + if pops[|pops| - 1].parked then [pops[|pops| - 1].waiter] else []
  }

  /** xs is ys with some elements left out. */
  predicate Subsequence(xs: seq<nat>, ys: seq<nat>) {
    if xs == [] then true
    else if ys == [] then false
    else if xs[|xs| - 1] == ys[|ys| - 1] && Subsequence(xs[..|xs| - 1], ys[..|ys| - 1]) then true
    else Subsequence(xs, ys[..|ys| - 1])
  }

  lemma SnocPop(pops: seq<Pop>, p: Pop)
    ensures Dropped(pops + [p]) == Dropped(pops) + if p.parked then 0 else 1
    ensures Granted(pops + [p]) == Granted(pops) + if p.parked then [p.waiter] else []
    ensures Popped(pops + [p]) == Popped(pops) + [p.waiter]
  {
    assert (pops + [p])[..|pops|] == pops;
  }

  /** A permit is dropped exactly when some popped waiter was not parked. */
  lemma {:induction false} DroppedMeansUnparked(pops: seq<Pop>)
    ensures Dropped(pops) == 0 <==> forall i | 0 <= i < |pops| :: pops[i].parked
  {
    if pops != [] {
      var n := |pops| - 1;
      DroppedMeansUnparked(pops[..n]);
      if forall i | 0 <= i < |pops| :: pops[i].parked {
        assert pops[n].parked;
      }
      assert forall i | 0 <= i < n :: pops[i] == pops[..n][i];
    }
  }

  lemma {:induction false} GrantedInOrder(pops: seq<Pop>)
    ensures Subsequence(Granted(pops), Popped(pops))
  {
    if pops != [] {
      var n := |pops| - 1;
      GrantedInOrder(pops[..n]);
      SnocPop(pops[..n], pops[n]);
      assert pops == pops[..n] + [pops[n]];
      assert Popped(pops)[..n] == Popped(pops[..n]);
      var xs, ys := Granted(pops), Popped(pops);
      if pops[n].parked {
        assert xs[..|xs| - 1] == Granted(pops[..n]) && ys[|ys| - 1] == xs[|xs| - 1];
      } else {
        assert xs == Granted(pops[..n]);
      }
      assert ys[..|ys| - 1] == Popped(pops[..n]);
    }
  }

  lemma {:induction false} SubsequenceGrows(xs: seq<nat>, ys: seq<nat>, more: seq<nat>)
    requires Subsequence(xs, ys)
    ensures Subsequence(xs, ys + more)
  {
    if more == [] {
      assert ys + more == ys;
    } else {
      var n := |more| - 1;
      SubsequenceGrows(xs, ys, more[..n]);
      assert (ys + more)[..|ys + more| - 1] == ys + more[..n];
    }
  }

  // The invariant

  ghost predicate Inv(s: Sem) {
    && s.held + s.available + Dropped(s.pops) == s.size
    && (s.waiters != [] ==> s.available == 0)
    && Popped(s.pops) + s.waiters == s.arrivals
    && forall i, j | 0 <= i < j < |s.arrivals| :: s.arrivals[i] != s.arrivals[j]
  }

  lemma InvStep(s: Sem, a: Action)
    requires Inv(s) && Enabled(s, a)
    ensures Inv(Step(s, a))
  {
    if a == Release && s.waiters != [] {
      var p := Pop(s.waiters[0], s.waiters[0] in s.parked);
      SnocPop(s.pops, p);
      assert Popped(s.pops) + s.waiters == Popped(s.pops) + [p.waiter] + s.waiters[1..];
    } else if a.Acquire? && s.available == 0 {
      assert Popped(s.pops) + (s.waiters + [a.t]) == s.arrivals + [a.t];
    }
  }

  ghost predicate Run(ss: seq<Sem>, acts: seq<Action>) {
    && |ss| == |acts| + 1
    && forall i {:trigger acts[i]} | 0 <= i < |acts| :: Enabled(ss[i], acts[i]) && ss[i + 1] == Step(ss[i], acts[i])
  }

  lemma {:induction false} InvAlong(ss: seq<Sem>, acts: seq<Action>, i: nat)
    requires Run(ss, acts) && Inv(ss[0]) && i < |ss|
    ensures Inv(ss[i]) && ss[i].size == ss[0].size
  {
    if i > 0 {
      InvAlong(ss, acts, i - 1);
      InvStep(ss[i - 1], acts[i - 1]);
    }
  }

  /** In every run no permit is made up: those held, those available and those
      dropped make up the size. Nobody waits while one is available, queued waiters
      are served in the order they arrived, and held plus available is the size
      exactly on the runs where every waiter popped was still parked. */
  lemma Safety(ss: seq<Sem>, acts: seq<Action>, size: int, i: nat)
    requires Run(ss, acts) && ss[0] == New(size) && i < |ss|
    ensures var s := ss[i];
      && s.held + s.available + Dropped(s.pops) == s.size && s.size == (if size < 1 then 1 else size)
      && (s.waiters != [] ==> s.available == 0)
      && Subsequence(Granted(s.pops), s.arrivals)
      && (s.held + s.available == s.size <==> forall k | 0 <= k < |s.pops| :: s.pops[k].parked)
  {
    InvAlong(ss, acts, i);
    var s := ss[i];
    DroppedMeansUnparked(s.pops);
    GrantedInOrder(s.pops);
    SubsequenceGrows(Granted(s.pops), Popped(s.pops), s.waiters);
  }

  /** t was taken off the queue and got no permit. */
  predicate Unserved(s: Sem, t: nat) {
    t in Popped(s.pops) && t !in Granted(s.pops)
  }

  lemma NotServedTwice(s: Sem, a: Action, t: nat)
    requires Inv(s) && Enabled(s, a) && Unserved(s, t)
    ensures Unserved(Step(s, a), t)
  {
    if a == Release && s.waiters != [] {
      var k :| 0 <= k < |s.pops| && Popped(s.pops)[k] == t;
      assert s.arrivals[k] == t && s.arrivals[|s.pops|] == s.waiters[0];
      SnocPop(s.pops, Pop(s.waiters[0], s.waiters[0] in s.parked));
    }
  }

  lemma StaysUnserved(ss: seq<Sem>, acts: seq<Action>, t: nat, i: nat)
    requires Run(ss, acts) && Inv(ss[0]) && i < |acts| && Unserved(ss[i], t)
    ensures Unserved(ss[i + 1], t)
  {
    InvAlong(ss, acts, i);
    NotServedTwice(ss[i], acts[i], t);
  }

  /** A waiter popped before it was parked is never granted a permit afterwards. */
  lemma LostWaiter(ss: seq<Sem>, acts: seq<Action>, t: nat, i: nat)
    requires Run(ss, acts) && Inv(ss[0]) && i < |ss| && Unserved(ss[0], t)
    ensures Unserved(ss[i], t)
  {
    forall k: nat | 0 <= k < |acts| && Unserved(ss[k], t) ensures Unserved(ss[k + 1], t) {
      StaysUnserved(ss, acts, t, k);
    }
    Upwards((k: nat) => k < |ss| && Unserved(ss[k], t), 0, |acts|, i);
  }

  /** With every permit dropped the semaphore is dead: nothing is ever held again. */
  lemma DeadForever(ss: seq<Sem>, acts: seq<Action>, i: nat)
    requires Run(ss, acts) && Inv(ss[0]) && Dropped(ss[0].pops) == ss[0].size && i < |ss|
    ensures ss[i].held == 0 && ss[i].available == 0
  {
    InvAlong(ss, acts, i);
    DroppedGrows(ss, acts, i);
  }

  lemma {:induction false} DroppedGrows(ss: seq<Sem>, acts: seq<Action>, i: nat)
    requires Run(ss, acts) && i < |ss|
    ensures Dropped(ss[0].pops) <= Dropped(ss[i].pops)
  {
    if i > 0 {
      DroppedGrows(ss, acts, i - 1);
      var s := ss[i - 1];
      if acts[i - 1] == Release && s.waiters != [] {
        SnocPop(s.pops, Pop(s.waiters[0], s.waiters[0] in s.parked));
      }
    }
  }

  /** It takes one release between a waiter's queueing and its parking: with a size
      of one, nobody cancelling, the gateway then serves nobody any more. */
  lemma DropsWithoutCancel() returns (ss: seq<Sem>, acts: seq<Action>)
    ensures Run(ss, acts) && ss[0] == New(1) && |acts| == 4
    ensures forall i | 0 <= i < |acts| :: !acts[i].Cancel?
    ensures ss[4].held == 0 && ss[4].available == 0 && ss[4].waiters == [] && ss[4].parked == {1}
  {
    acts := [Acquire(0), Acquire(1), Release, Park(1)];
    var s0 := New(1);
    var s1 := Step(s0, acts[0]);
    var s2 := Step(s1, acts[1]);
    var s3 := Step(s2, acts[2]);
    ss := [s0, s1, s2, s3, Step(s3, acts[3])];
  }

  // Who holds a permit

  /** How many were given a permit at once, and how many permits were given back. */
  ghost function Immediate(ss: seq<Sem>, acts: seq<Action>, n: nat): nat
    requires n <= |acts| < |ss|
  {
    if n == 0 then 0
    else Immediate(ss, acts, n - 1) + if acts[n - 1].Acquire? && ss[n - 1].available > 0 then 1 else 0
  }

  function Released(acts: seq<Action>, n: nat): nat
    requires n <= |acts|
  {
    if n == 0 then 0 else Released(acts, n - 1) + if acts[n - 1] == Release then 1 else 0
  }

  lemma HeldStep(s: Sem, a: Action)
    requires Enabled(s, a)
    ensures var s' := Step(s, a);
      s'.held + (if a == Release then 1 else 0) + |Granted(s.pops)| ==
      s.held + (if a.Acquire? && s.available > 0 then 1 else 0) + |Granted(s'.pops)|
  {
    if a == Release && s.waiters != [] {
      SnocPop(s.pops, Pop(s.waiters[0], s.waiters[0] in s.parked));
    }
  }

  /** In every run the permits held are those given at once and those handed to a
      waiter, less those given back. */
  lemma {:induction false} HeldAreGiven(ss: seq<Sem>, acts: seq<Action>, size: int, n: nat)
    requires Run(ss, acts) && ss[0] == New(size) && n <= |acts|
    ensures ss[n].held + Released(acts, n) == Immediate(ss, acts, n) + |Granted(ss[n].pops)|
  {
    if n > 0 {
      HeldAreGiven(ss, acts, size, n - 1);
      assert Enabled(ss[n - 1], acts[n - 1]);
      HeldStep(ss[n - 1], acts[n - 1]);
    }
  }

  /** A release hands its permit to the first in the queue if that one is parked, and
      otherwise to nobody; with an empty queue it puts it back. */
  lemma ReleaseGives(s: Sem)
    requires Enabled(s, Release)
    ensures var s' := Step(s, Release);
      if s.waiters == [] then s'.available == s.available + 1 && s'.pops == s.pops && s'.parked == s.parked
      else
        && s'.available == s.available && s'.waiters == s.waiters[1..]
        && Granted(s'.pops) == Granted(s.pops) + (if s.waiters[0] in s.parked then [s.waiters[0]] else [])
        && s.waiters[0] !in s'.parked
  {
    if s.waiters != [] {
      SnocPop(s.pops, Pop(s.waiters[0], s.waiters[0] in s.parked));
      assert Granted(s.pops) + [] == Granted(s.pops);
    }
  }

  /** Everyone on the way to a permit, or parked for one, has arrived and has none. */
  ghost predicate Seated(s: Sem) {
    && (forall t <- s.entering :: t in s.arrivals && t !in s.parked && t !in Granted(s.pops))
    && (forall t <- s.parked :: t in s.arrivals && t !in Granted(s.pops))
    && (forall t <- Granted(s.pops) :: t in s.arrivals)
  }

  /** t has left, and without a permit. */
  predicate LeftWithout(s: Sem, t: nat) {
    t in s.arrivals && t !in s.entering && t !in s.parked && t !in Granted(s.pops)
  }

  lemma SeatedStep(s: Sem, a: Action)
    requires Inv(s) && Enabled(s, a) && Seated(s)
    ensures Seated(Step(s, a))
    ensures forall t :: LeftWithout(s, t) ==> LeftWithout(Step(s, a), t)
    ensures a.Cancel? ==> LeftWithout(Step(s, a), a.t)
  {
    if a == Release && s.waiters != [] {
      SeatedRelease(s);
    }
  }

  lemma SeatedRelease(s: Sem)
    requires Inv(s) && s.held > 0 && s.waiters != [] && Seated(s)
    ensures Seated(Step(s, Release))
    ensures forall t :: LeftWithout(s, t) ==> LeftWithout(Step(s, Release), t)
  {
    SnocPop(s.pops, Pop(s.waiters[0], s.waiters[0] in s.parked));
    FrontNotServed(s);
  }

  /** Whoever is first in the queue has not been served. */
  lemma FrontNotServed(s: Sem)
    requires Inv(s) && s.waiters != []
    ensures s.waiters[0] in s.arrivals && s.waiters[0] !in Popped(s.pops)
  {
    assert s.arrivals[|s.pops|] == s.waiters[0];
    forall k | 0 <= k < |s.pops| ensures Popped(s.pops)[k] != s.waiters[0] {
      assert s.arrivals[k] == Popped(s.pops)[k];
    }
  }

  lemma SeatedAlong(ss: seq<Sem>, acts: seq<Action>, size: int, n: nat)
    requires Run(ss, acts) && ss[0] == New(size) && n <= |acts|
    ensures Inv(ss[n]) && Seated(ss[n])
  {
    if n > 0 {
      SeatedAlong(ss, acts, size, n - 1);
      assert Enabled(ss[n - 1], acts[n - 1]);
      SeatedStep(ss[n - 1], acts[n - 1]);
    }
    InvAlong(ss, acts, n);
  }

  /** In every run, whoever gives up waiting is not handed a permit afterwards. */
  lemma {:induction false} CancelledGetsNone(ss: seq<Sem>, acts: seq<Action>, size: int, t: nat, i: nat, n: nat)
    requires Run(ss, acts) && ss[0] == New(size) && i < n <= |acts| && acts[i] == Cancel(t)
    ensures LeftWithout(ss[n], t)
    decreases n
  {
    SeatedAlong(ss, acts, size, n - 1);
    assert Enabled(ss[n - 1], acts[n - 1]);
    if i < n - 1 {
      CancelledGetsNone(ss, acts, size, t, i, n - 1);
    }
    SeatedStep(ss[n - 1], acts[n - 1]);
  }

  // The semaphore object

  class FifoSemaphore {
    var available: nat
    var waiters: seq<nat>

    // the goroutines around it
    var parked: set<nat>
    ghost const size: nat
    ghost var entering: set<nat>
    ghost var held: nat
    ghost var arrivals: seq<nat>
    ghost var pops: seq<Pop>

    ghost function State(): Sem
      reads this
    {
      Sem(size, available, waiters, entering, parked, held, arrivals, pops)
    }

    constructor (n: int)
      ensures State() == New(n)
    {
      var permits := if n < 1 then 1 else n;
      available, waiters, parked := permits, [], {};
      size, entering, held, arrivals, pops := permits, {}, 0, [], [];
    }

    /** Acquire up to its select: a permit at once, or a place in the queue. */
    method BeginAcquire(t: nat) returns (acquired: bool)
      requires t !in arrivals
      modifies this
      ensures State() == Step(old(State()), Acquire(t))
      ensures acquired <==> old(available) > 0
      ensures available == old(available) - (if acquired then 1 else 0)
      ensures waiters == old(waiters) + (if acquired then [] else [t])
    {
      acquired := available > 0;
      if acquired {
        available, held := available - 1, held + 1;
      } else {
        waiters, entering, arrivals := waiters + [t], entering + {t}, arrivals + [t];
      }
    }

    /** The select of Acquire: the waiter is ready to be handed a permit, */
    method Park(t: nat)
      requires t in entering
      modifies this`parked, this`entering
      ensures State() == Step(old(State()), Action.Park(t)) && t in parked
    {
      parked, entering := parked + {t}, entering - {t};
    }

    /** until its context is done. It stays in the queue. */
    method Cancel(t: nat)
      requires t in entering || t in parked
      modifies this`parked, this`entering
      ensures State() == Step(old(State()), Action.Cancel(t)) && t !in parked && t !in entering
    {
      parked, entering := parked - {t}, entering - {t};
    }

    method ReleasePermit() returns (handedTo: seq<nat>)
      requires held > 0
      modifies this
      ensures State() == Step(old(State()), Release)
      ensures handedTo == if old(waiters) != [] && old(waiters)[0] in old(parked) then [old(waiters)[0]] else []
      ensures available == old(available) + (if old(waiters) == [] then 1 else 0)
      ensures waiters == if old(waiters) == [] then [] else old(waiters)[1..]
    {
      handedTo := [];
      if |waiters| > 0 {
        var ch := waiters[0];
        waiters := waiters[1..];
        pops := pops + [Pop(ch, ch in parked)];
        if ch in parked {
          parked, handedTo := parked - {ch}, [ch];
        } else {
          held := held - 1;
        }
      } else {
        available, held := available + 1, held - 1;
      }
    }
  }
}
