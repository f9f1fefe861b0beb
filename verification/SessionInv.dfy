/** What every interleaving of the session table's critical sections keeps. */
module SessionInv {
  import opened Options
  import opened Sessions

  // One call, one session

  /** A resolver is used once at most: for the first result offered, or to say that
      the session is gone. */
  ghost predicate CallOk(c: Call) {
    match c.resolver
    case Empty => !c.resolved && c.uses == [] && c.given == []
    case Full(r) => c.resolved && c.uses == [Sent(r)] && c.given != [] && c.given[0] == r
    case Drained(r) => c.resolved && c.claimed && c.uses == [Sent(r)] && c.given != [] && c.given[0] == r
    case Shut => c.resolved && c.uses == [Closed]
  }

  /** Positions of the calls announced with this name and these arguments. */
  function Announced(pending: seq<Call>, name: Text, args: Text): (ps: seq<nat>)
    ensures forall j | 0 <= j < |ps| :: ps[j] < |pending| && Matches(pending[ps[j]], name, args)
    ensures forall i, j | 0 <= i < j < |ps| :: ps[i] < ps[j]
    ensures forall k | 0 <= k < |pending| && Matches(pending[k], name, args) :: k in ps
  {
    if pending == [] then []
    else
      var n := |pending| - 1;
      Announced(pending[..n], name, args) + if Matches(pending[n], name, args) then [n] else []
  }

  /** The claims that took such a call, in the order they were made. */
  function Claimed(pending: seq<Call>, claims: seq<nat>, name: Text, args: Text): (ps: seq<nat>)
    ensures forall k <- ps :: k in claims
  {
    if claims == [] then []
    else
      var k := claims[|claims| - 1];
      Claimed(pending, claims[..|claims| - 1], name, args)
      + if k < |pending| && Matches(pending[k], name, args) then [k] else []
  }

  ghost predicate ClaimsOk(s: Session) {
    && (forall j | 0 <= j < |s.claims| :: s.claims[j] < |s.pending|)
    && (forall k | 0 <= k < |s.pending| :: s.pending[k].claimed <==> k in s.claims)
    && forall name, args {:trigger Claimed(s.pending, s.claims, name, args)} ::
         Claimed(s.pending, s.claims, name, args) <= Announced(s.pending, name, args)
  }

  ghost predicate SessionOk(s: Session) {
    && (forall i | 0 <= i < |s.pending| ::
          && CallOk(s.pending[i])
          && (s.reaped ==> s.pending[i].resolved)
          && (s.pending[i].resolver == Shut ==> s.reaped))
    && ClaimsOk(s)
  }

  lemma {:induction false} AnnouncedSame(ps: seq<Call>, qs: seq<Call>, name: Text, args: Text)
    requires |ps| == |qs| && forall i | 0 <= i < |ps| :: ps[i].name == qs[i].name && ps[i].args == qs[i].args
    ensures Announced(ps, name, args) == Announced(qs, name, args)
  {
    if ps != [] {
      AnnouncedSame(ps[..|ps| - 1], qs[..|ps| - 1], name, args);
    }
  }

  lemma {:induction false} AnnouncedGrows(ps: seq<Call>, more: seq<Call>, name: Text, args: Text)
    ensures Announced(ps, name, args) <= Announced(ps + more, name, args)
  {
    if more == [] {
      assert ps + more == ps;
    } else {
      var n := |more| - 1;
      AnnouncedGrows(ps, more[..n], name, args);
      var all := ps + more;
      assert all[..|all| - 1] == ps + more[..n];
      assert Announced(all[..|all| - 1], name, args) <= Announced(all, name, args);
    }
  }

  /** Claims look only at names and arguments. */
  lemma {:induction false} ClaimedSame(ps: seq<Call>, qs: seq<Call>, claims: seq<nat>, name: Text, args: Text)
    requires |ps| <= |qs| && forall i | 0 <= i < |ps| :: ps[i].name == qs[i].name && ps[i].args == qs[i].args
    requires forall j | 0 <= j < |claims| :: claims[j] < |ps|
    ensures Claimed(ps, claims, name, args) == Claimed(qs, claims, name, args)
  {
    if claims != [] {
      ClaimedSame(ps, qs, claims[..|claims| - 1], name, args);
    }
  }

  lemma {:induction false} ClaimedHas(ps: seq<Call>, claims: seq<nat>, name: Text, args: Text, k: nat)
    requires k in claims && k < |ps| && Matches(ps[k], name, args)
    ensures k in Claimed(ps, claims, name, args)
  {
    var n := |claims| - 1;
    if claims[n] != k {
      assert k in claims[..n];
      ClaimedHas(ps, claims[..n], name, args, k);
    }
  }

  /** Among the calls announced for a pair, the claimed ones are the first ones. */
  lemma ClaimedFirst(s: Session, name: Text, args: Text, j: nat)
    requires ClaimsOk(s)
    requires j < |Announced(s.pending, name, args)|
    ensures j < |Claimed(s.pending, s.claims, name, args)| <==> s.pending[Announced(s.pending, name, args)[j]].claimed
  {
    var claimed, announced := Claimed(s.pending, s.claims, name, args), Announced(s.pending, name, args);
    assert claimed <= announced;
    if j < |claimed| {
      assert claimed[j] == announced[j] && claimed[j] in claimed;
    }
    if s.pending[announced[j]].claimed {
      ClaimedHas(s.pending, s.claims, name, args, announced[j]);
      var i :| 0 <= i < |claimed| && claimed[i] == announced[j];
      assert announced[i] == announced[j];
    }
  }

  lemma FirstUnclaimedIsNext(s: Session, name: Text, args: Text, j: nat)
    requires ClaimsOk(s)
    requires j < |Announced(s.pending, name, args)|
    requires Announced(s.pending, name, args)[j] == FirstUnclaimed(s.pending, name, args)
    ensures j == |Claimed(s.pending, s.claims, name, args)|
  {
    ClaimedFirst(s, name, args, j);
    ClaimedFirst(s, name, args, |Claimed(s.pending, s.claims, name, args)|);
  }

  /** The k-th claim of a pair takes the k-th call announced for it, and a claim
      fails only when every such call is taken. */
  lemma ClaimIsNext(s: Session, name: Text, args: Text)
    requires ClaimsOk(s)
    ensures var k, claimed, announced := FirstUnclaimed(s.pending, name, args),
                Claimed(s.pending, s.claims, name, args), Announced(s.pending, name, args);
      if k < |s.pending| then |claimed| < |announced| && announced[|claimed|] == k else claimed == announced
  {
    var k, announced := FirstUnclaimed(s.pending, name, args), Announced(s.pending, name, args);
    if k < |s.pending| {
      assert k in announced;
      var j :| 0 <= j < |announced| && announced[j] == k;
      FirstUnclaimedIsNext(s, name, args, j);
    } else if announced != [] {
      assert Claimed(s.pending, s.claims, name, args) <= announced;
      ClaimedFirst(s, name, args, |announced| - 1);
    }
  }

  lemma ClaimedSnoc(ps: seq<Call>, claims: seq<nat>, k: nat, name: Text, args: Text)
    ensures Claimed(ps, claims + [k], name, args) ==
            Claimed(ps, claims, name, args) + if k < |ps| && Matches(ps[k], name, args) then [k] else []
  {
    assert (claims + [k])[..|claims|] == claims;
  }

  // What each critical section does to one session

  /** Resolving, collecting and reaping change neither a call's identity nor its claim. */
  ghost predicate SameClaims(s: Session, s': Session) {
    && s'.claims == s.claims && |s'.pending| == |s.pending|
    && forall i | 0 <= i < |s.pending| ::
         var c, c' := s.pending[i], s'.pending[i];
         c'.id == c.id && c'.name == c.name && c'.args == c.args && c'.claimed == c.claimed
  }

  lemma ClaimsKept(s: Session, s': Session)
    requires ClaimsOk(s) && SameClaims(s, s')
    ensures ClaimsOk(s')
  {
    forall name, args
      ensures Claimed(s'.pending, s'.claims, name, args) <= Announced(s'.pending, name, args)
    {
      ClaimedSame(s.pending, s'.pending, s.claims, name, args);
      AnnouncedSame(s.pending, s'.pending, name, args);
    }
  }

  lemma ClaimsAnnounce(s: Session, uses: seq<ToolUse>, ids: seq<CallID>)
    requires ClaimsOk(s) && |uses| == |ids|
    ensures ClaimsOk(s.(pending := s.pending + NewCalls(uses, ids)))
  {
    var more := NewCalls(uses, ids);
    forall name, args
      ensures Claimed(s.pending + more, s.claims, name, args) <= Announced(s.pending + more, name, args)
    {
      ClaimedSame(s.pending, s.pending + more, s.claims, name, args);
      AnnouncedGrows(s.pending, more, name, args);
    }
  }

  lemma ClaimsClaimPair(s: Session, k: nat, n: Text, a: Text)
    requires ClaimsOk(s) && k < |s.pending| && k == FirstUnclaimed(s.pending, s.pending[k].name, s.pending[k].args)
    ensures var pending := s.pending[k := s.pending[k].(claimed := true)];
      Claimed(pending, s.claims + [k], n, a) <= Announced(pending, n, a)
  {
    var pending := s.pending[k := s.pending[k].(claimed := true)];
    ClaimedSnoc(pending, s.claims, k, n, a);
    ClaimedSame(s.pending, pending, s.claims, n, a);
    AnnouncedSame(s.pending, pending, n, a);
    var claimed, announced := Claimed(s.pending, s.claims, n, a), Announced(s.pending, n, a);
    assert claimed <= announced;
    if Matches(s.pending[k], n, a) {
      ClaimIsNext(s, n, a);
      PrefixSnoc(claimed, announced);
    }
  }

  lemma PrefixSnoc(ps: seq<nat>, qs: seq<nat>)
    requires ps <= qs && |ps| < |qs|
    ensures ps + [qs[|ps|]] <= qs
  {
  }

  lemma ClaimsClaim(s: Session, name: Text, args: Text)
    requires ClaimsOk(s) && FirstUnclaimed(s.pending, name, args) < |s.pending|
    ensures var k := FirstUnclaimed(s.pending, name, args);
      ClaimsOk(s.(pending := s.pending[k := s.pending[k].(claimed := true)], claims := s.claims + [k]))
  {
    var k := FirstUnclaimed(s.pending, name, args);
    var pending := s.pending[k := s.pending[k].(claimed := true)];
    forall n, a
      ensures Claimed(pending, s.claims + [k], n, a) <= Announced(pending, n, a)
    {
      ClaimsClaimPair(s, k, n, a);
    }
  }
}
