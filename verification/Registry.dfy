/** Which tunnel client the relay pipes public connections to: registration,
    displacement and disconnection under every interleaving, before Close. */
module Registry {
  import opened Options

  /** One authenticated client's goroutine. `displaced` is the mux its register
      step took the place of and has yet to close. */
  datatype Client = Client(registered: bool, displaced: Option<nat>, closed: bool, left: bool)

  /** `log` lists registrations in the order of their critical sections. */
  datatype Relay = Relay(tun: Option<nat>, clients: seq<Client>, log: seq<nat>)

  datatype Action =
    | Connect
    | Register(m: nat)
    | CloseDisplaced(m: nat)
    | Disconnect(m: nat)
    | Unregister(m: nat)

  predicate Enabled(r: Relay, a: Action) {
    match a
    case Connect => true
    case Register(m) => m < |r.clients| && !r.clients[m].registered
    case CloseDisplaced(m) =>
      m < |r.clients| && r.clients[m].displaced.Some? && r.clients[m].displaced.value < |r.clients|
    case Disconnect(m) => m < |r.clients|
    case Unregister(m) =>
      && m < |r.clients| && r.clients[m].registered && r.clients[m].displaced.None?
      && r.clients[m].closed && !r.clients[m].left
  }

  function Step(r: Relay, a: Action): Relay
    requires Enabled(r, a)
  {
    match a
    case Connect => r.(clients := r.clients + [Client(false, None, false, false)])
    case Register(m) =>
      Relay(Some(m), r.clients[m := r.clients[m].(registered := true, displaced := r.tun)], r.log + [m])
    case CloseDisplaced(m) =>
      var previous := r.clients[m].displaced.value;
      var clients := r.clients[m := r.clients[m].(displaced := None)];
      r.(clients := clients[previous := clients[previous].(closed := true)])
    case Disconnect(m) => r.(clients := r.clients[m := r.clients[m].(closed := true)])
    case Unregister(m) =>
      r.(clients := r.clients[m := r.clients[m].(left := true)], tun := if r.tun == Some(m) then None else r.tun)
  }

  /** The most recently registered client, if any ever registered. */
  function Latest(r: Relay): Option<nat> {
    if r.log == [] then None else Some(r.log[|r.log| - 1])
  }

  predicate AboutToClose(r: Relay, m: nat) {
    exists n | 0 <= n < |r.clients| :: r.clients[n].displaced == Some(m)
  }

  ghost predicate ClientsOk(r: Relay) {
    && (forall i | 0 <= i < |r.log| :: r.log[i] < |r.clients| && r.clients[r.log[i]].registered)
    && forall m | 0 <= m < |r.clients| ::
         var c := r.clients[m];
         && (c.registered ==> m in r.log)
         && (!c.registered ==> c.displaced.None? && !c.left)
         && (c.displaced.Some? ==> c.displaced.value in r.log)
         && (c.left ==> c.closed)
  }

  /** The registered tunnel is the latest one, until that one has left; every other
      registered mux is closed, or its successor is about to close it. */
  ghost predicate Inv(r: Relay) {
    && ClientsOk(r)
    && (match Latest(r)
        case None => r.tun == None
        case Some(m) => r.tun == if r.clients[m].left then None else Some(m))
    && forall m <- r.log | Latest(r) != Some(m) :: r.clients[m].closed || AboutToClose(r, m)
  }

  lemma InvStart()
    ensures Inv(Relay(None, [], []))
  {
  }

  lemma InvRegister(r: Relay, m: nat)
    requires Inv(r) && Enabled(r, Register(m))
    ensures Inv(Step(r, Register(m)))
  {
    var r' := Step(r, Register(m));
    forall k <- r'.log | k != m
      ensures r'.clients[k].closed || AboutToClose(r', k)
    {
      if Latest(r) == Some(k) {
        assert r.tun == Some(k) ==> r'.clients[m].displaced == Some(k);
      } else if AboutToClose(r, k) {
        var n :| 0 <= n < |r.clients| && r.clients[n].displaced == Some(k);
        assert r'.clients[n].displaced == Some(k);
      }
    }
  }

  /** No step but CloseDisplaced forgets a displaced mux, and that one closes it. */
  lemma StillClosing(r: Relay, a: Action, k: nat)
    requires Inv(r) && Enabled(r, a) && !a.Register? && k < |r.clients|
    requires r.clients[k].closed || AboutToClose(r, k)
    ensures Step(r, a).clients[k].closed || AboutToClose(Step(r, a), k)
  {
    var r' := Step(r, a);
    if !r.clients[k].closed {
      var n :| 0 <= n < |r.clients| && r.clients[n].displaced == Some(k);
      assert r'.clients[n].displaced == Some(k) || r'.clients[k].closed;
    }
  }

  lemma InvStep(r: Relay, a: Action)
    requires Inv(r) && Enabled(r, a)
    ensures Inv(Step(r, a))
  {
    if a.Register? {
      InvRegister(r, a.m);
    } else {
      forall k <- r.log | Latest(r) != Some(k)
        ensures Step(r, a).clients[k].closed || AboutToClose(Step(r, a), k)
      {
        StillClosing(r, a, k);
      }
    }
  }

  ghost predicate Run(rs: seq<Relay>, acts: seq<Action>) {
    && |rs| == |acts| + 1 && rs[0] == Relay(None, [], [])
    && forall i {:trigger acts[i]} | 0 <= i < |acts| :: Enabled(rs[i], acts[i]) && rs[i + 1] == Step(rs[i], acts[i])
  }

  lemma {:induction false} LastRegisteredWins(rs: seq<Relay>, acts: seq<Action>, i: nat)
    requires Run(rs, acts) && i < |rs|
    ensures Inv(rs[i])
  {
    if i > 0 {
      LastRegisteredWins(rs, acts, i - 1);
      InvStep(rs[i - 1], acts[i - 1]);
    }
  }

  // The relay object

  /** A mux and, in its ghost fields, the goroutine that serves it. */
  class Mux {
    var closed: bool

    const slot: nat
    ghost var registered: bool
    ghost var displaced: Option<nat>
    ghost var left: bool

    constructor (slot: nat)
      ensures this.slot == slot && State() == Client(false, None, false, false)
    {
      closed, this.slot := false, slot;
      registered, displaced, left := false, None, false;
    }

    ghost function State(): Client
      reads this
    {
      Client(registered, displaced, closed, left)
    }

    method Close()
      modifies this`closed
      ensures closed
    {
      closed := true;
    }
  }

  ghost function States(ms: seq<Mux>): (r: seq<Client>)
    reads ms
    ensures |r| == |ms| && forall i | 0 <= i < |ms| :: r[i] == ms[i].State()
  {
    seq(|ms|, i requires 0 <= i < |ms| reads ms => ms[i].State())
  }

  class RelayServer {
    var tun: Mux?

    // every mux ever made, and the order in which they were registered
    ghost var clients: seq<Mux>
    ghost var log: seq<nat>

    ghost predicate Valid()
      reads this, clients
    {
      && (forall i | 0 <= i < |clients| :: clients[i].slot == i)
      && (tun != null ==> Has(tun))
    }

    ghost predicate Has(mux: Mux)
      reads this
    {
      mux.slot < |clients| && clients[mux.slot] == mux
    }

    ghost function State(): Relay
      reads this, clients
    {
      Relay(if tun == null then None else Some(tun.slot), States(clients), log)
    }

    constructor ()
      ensures Valid() && State() == Relay(None, [], [])
    {
      tun, clients, log := null, [], [];
    }

    method ConnectMux(slot: nat) returns (mux: Mux)
      requires Valid() && slot == |clients|
      modifies this`clients
      ensures Valid() && fresh(mux) && Has(mux) && mux.slot == slot
      ensures State() == Step(old(State()), Connect)
      ensures !mux.closed && !mux.registered && !mux.left && mux.displaced == None
    {
      mux := new Mux(slot);
      clients := clients + [mux];
      assert States(clients) == old(States(clients)) + [mux.State()];
    }

    /** The critical section of register. */
    method Swap(mux: Mux) returns (previous: Mux?)
      requires Valid() && Has(mux) && !mux.registered
      modifies this`tun, this`log, mux`registered, mux`displaced
      ensures Valid() && State() == Step(old(State()), Register(mux.slot))
      ensures previous == old(tun) && tun == mux && mux.registered && log == old(log) + [mux.slot]
      ensures mux.displaced == if previous == null then None else Some(previous.slot)
    {
      previous := tun;
      tun := mux;
      log := log + [mux.slot];
      mux.registered, mux.displaced := true, if previous == null then None else Some(previous.slot);
      assert States(clients) == old(States(clients))[mux.slot := mux.State()];
    }

    /** What register does once it has let go of the lock. */
    method CloseReplaced(mux: Mux, previous: Mux)
      requires Valid() && Has(mux) && Has(previous) && mux.displaced == Some(previous.slot)
      modifies mux`displaced, previous`closed
      ensures Valid() && State() == Step(old(State()), CloseDisplaced(mux.slot))
      ensures previous.closed
    {
      previous.Close();
      mux.displaced := None;
      var before := old(States(clients));
      var own := before[mux.slot := before[mux.slot].(displaced := None)];
      assert States(clients) == own[previous.slot := own[previous.slot].(closed := true)];
    }

    /** With no other client in between: the newcomer is in place, and the one it
        displaced is closed. */
    method RegisterMux(mux: Mux)
      requires Valid() && Has(mux) && !mux.registered
      modifies this, mux, if tun == null then {} else {tun}
      ensures Valid() && tun == mux
      ensures State() == Registered(old(State()), mux.slot)
      ensures old(tun) != null ==> old(tun).closed
    {
      var previous := Swap(mux);
      if previous != null {
        CloseReplaced(mux, previous);
      }
    }

    /** The connection is lost, or closed by either side. */
    method DisconnectMux(mux: Mux)
      requires Valid() && Has(mux)
      modifies mux`closed
      ensures Valid() && State() == Step(old(State()), Disconnect(mux.slot))
      ensures mux.closed
    {
      mux.Close();
      assert States(clients) == old(States(clients))[mux.slot := mux.State()];
    }

    /** A connection that was replaced does not clear its replacement. */
    method UnregisterMux(mux: Mux)
      requires Valid() && Has(mux) && Enabled(State(), Unregister(mux.slot))
      modifies this`tun, mux`left
      ensures Valid() && State() == Step(old(State()), Unregister(mux.slot))
      ensures tun == (if old(tun) == mux then null else old(tun)) && mux.left
    {
      if tun == mux {
        tun := null;
      }
      mux.left := true;
      assert States(clients) == old(States(clients))[mux.slot := mux.State()];
    }

    /** The mux public connections are piped down: the latest to register, unless
        it has left. */
    method Tunnel() returns (mux: Mux?)
      requires Valid() && Inv(State())
      ensures mux == tun
      ensures match Latest(State())
        case None => mux == null
        case Some(m) => (mux == null <==> clients[m].left) && (mux != null ==> mux == clients[m])
    {
      mux := tun;
    }
  }

  function Registered(r: Relay, m: nat): Relay
    requires Enabled(r, Register(m)) && (r.tun.Some? ==> r.tun.value < |r.clients|)
  {
    var r1 := Step(r, Register(m));
    if r.tun == None then r1 else Step(r1, CloseDisplaced(m))
  }
}
