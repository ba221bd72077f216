/** The rebinder's watcher itself: its methods, call by call, take the steps that module Rebinder describes. */
module RebinderWatcher {
  import opened GoStrings
  import opened References
  import opened Rebinder

  datatype DisconnectError = Nil | NotAttached | Failed

  /** What the daemon says when the follower is already on the network. */
  const ALREADY := "already exists"

  lemma AlreadyIsSuccess()
    ensures IsAlreadyConnected(ALREADY)
  {
    var s := ToLower(ALREADY);
    assert s == ALREADY;
    assert HasPrefix(s[0..], "already exists");
  }

  /** The target network in the daemon; others move before every call. */
  class Network {
    const cfg: Cfg
    const listing: nat -> seq<Container>
    var foreign: set<string>
    var attached: bool
    var queue: seq<Event>
    var clock: nat
    var writes: seq<Write>
    var seen: bool

    constructor (cfg: Cfg, listing: nat -> seq<Container>, w: World)
      ensures this.cfg == cfg && this.listing == listing && At(w.parked) == w
    {
      this.cfg, this.listing := cfg, listing;
      foreign, attached, queue, clock, writes, seen := w.foreign, w.attached, w.queue, w.clock, w.writes, w.seen;
    }

    function At(parked: bool): World
      reads this
    {
      World(foreign, attached, queue, clock, parked, writes, seen)
    }

    method Become(w: World)
      modifies this
      ensures At(w.parked) == w
    {
      foreign, attached, queue, clock, writes, seen := w.foreign, w.attached, w.queue, w.clock, w.writes, w.seen;
    }

    method NetworkInspectByName(parked: bool) returns (members: Option<set<string>>)
      modifies this
      ensures At(parked) == Tick(cfg, old(At(parked)))
      ensures members == if cfg.fails(old(clock)) then None else Some(Endpoints(cfg, At(parked)))
    {
      var n := clock;
      EnvTick(cfg, At(parked));
      Become(Tick(cfg, At(parked)));
      members := if cfg.fails(n) then None else Some(Endpoints(cfg, At(parked)));
    }

    method ContainerList(parked: bool) returns (all: Option<seq<Container>>)
      modifies this
      ensures At(parked) == Tick(cfg, old(At(parked)))
      ensures all == if cfg.fails(old(clock)) then None else Some(listing(old(clock)))
    {
      EnvTick(cfg, At(parked));
      all := if cfg.fails(clock) then None else Some(listing(clock));
      Become(Tick(cfg, At(parked)));
    }

    /** ContainerInspect of the follower: whether it is on the network as it is now. */
    method ContainerInspect(parked: bool) returns (current: Option<bool>)
      modifies this
      ensures At(parked) == Tick(cfg, old(At(parked)))
      ensures current == if cfg.fails(old(clock)) then None else Some(attached)
    {
      var n := clock;
      EnvTick(cfg, At(parked));
      Become(Tick(cfg, At(parked)));
      current := if cfg.fails(n) then None else Some(attached);
    }

    method NetworkDisconnect(parked: bool) returns (err: DisconnectError)
      modifies this
      ensures var w := Tick(cfg, old(At(parked))).(writes := old(writes) + [DisconnectCall]);
              At(parked) == if cfg.fails(old(clock)) then w else Detached(cfg, w)
      ensures err.Failed? <==> cfg.fails(old(clock))
    {
      EnvTick(cfg, At(parked));
      var w := Tick(cfg, At(parked)).(writes := writes + [DisconnectCall]);
      if cfg.fails(clock) {
        err := Failed;
        Become(w);
      } else {
        err := if w.attached then Nil else NotAttached;
        Become(Detached(cfg, w));
      }
    }

    method NetworkConnect(parked: bool) returns (err: Option<string>)
      modifies this
      ensures var w := Tick(cfg, old(At(parked))).(writes := old(writes) + [ConnectCall]);
              At(parked) == if cfg.connectErr(old(clock)).Some? then w else Attached(cfg, w)
      ensures cfg.connectErr(old(clock)).Some? ==> err == cfg.connectErr(old(clock))
      ensures cfg.connectErr(old(clock)).None? ==> err.None? || err == Some(ALREADY)
    {
      EnvTick(cfg, At(parked));
      var w := Tick(cfg, At(parked)).(writes := writes + [ConnectCall]);
      err := cfg.connectErr(clock);
      if err.Some? {
        Become(w);
      } else {
        err := if w.attached then Some(ALREADY) else None;
        Become(Attached(cfg, w));
      }
    }
  }

  /** The watcher's view at one instant. */
  datatype View = View(followerID: string, followerAttached: bool, foreignCount: nat)

  class Watcher {
    const net: Network
    const followTarget: string
    const selfProject: string
    var parked: bool

    /** Full-length IDs, and a follower that each listing resolves to the same container or does not show. */
    ghost predicate Valid()
      reads this, net
    {
      && ValidCfg(net.cfg) && (forall x | x in net.foreign :: Foreign(net.cfg, x))
      && forall n: nat ::
           ResolveFollower(net.listing(n), followTarget, selfProject) ==
           if net.cfg.found(n) then net.cfg.follower else ""
    }

    constructor (net: Network, followTarget: string, selfProject: string)
      ensures this.net == net && this.followTarget == followTarget && this.selfProject == selfProject && !parked
    {
      this.net, this.followTarget, this.selfProject, this.parked := net, followTarget, selfProject, false;
    }

    function State(): World
      reads this, net
    {
      net.At(parked)
    }

    method InspectMembership() returns (m: Option<View>)
      requires Valid()
      modifies net
      ensures Valid()
      ensures State() == Membership(net.cfg, old(State())).0
      ensures m == ViewOf(net.cfg, old(State()))
      ensures m.Some? <==> !net.cfg.fails(old(net.clock)) && !net.cfg.fails(old(net.clock) + 1)
      ensures m.Some? ==>
                && (m.value.followerAttached <==> old(net.attached) && net.cfg.found(old(net.clock) + 1))
                && m.value.foreignCount ==
                   |Tick(net.cfg, old(State())).foreign| +
                   if old(net.attached) && !net.cfg.found(old(net.clock) + 1) then 1 else 0
    {
      ghost var w := State();
      ViewExactly(net.cfg, w);
      EnvForeign(net.cfg, w);
      EnvForeign(net.cfg, Tick(net.cfg, w));
      MembershipWorld(net.cfg, w);
      hide Tick, ResolveFollower, Membership, Endpoints, ViewOf, Foreign;
      var members := net.NetworkInspectByName(parked);
      if members.None? {
        return None;
      }
      var all := net.ContainerList(parked);
      if all.None? {
        return None;
      }
      var followerID := ResolveFollower(all.value, followTarget, selfProject);
      EndpointIds(net.cfg, Tick(net.cfg, w));
      var followerAttached, foreignCount := CountMembers(members.value, followerID);
      ViewIs(net.cfg, w, followerID, followerAttached, foreignCount);
      m := Some(View(followerID, followerAttached, foreignCount));
    }

    /** Ranges over the endpoints in whatever order. */
    static method CountMembers(members: set<string>, followerID: string)
      returns (followerAttached: bool, foreignCount: nat)
      requires (followerID == "" || |followerID| == 64) && forall x | x in members :: |x| == 64
      ensures followerAttached <==> followerID in members
      ensures foreignCount == |members - {followerID}|
    {
      followerAttached, foreignCount := false, 0;
      var rest := members;
      while rest != {}
        invariant rest <= members && (followerAttached <==> followerID in members && followerID !in rest)
        invariant foreignCount + |rest - {followerID}| == |members - {followerID}|
        decreases |rest|
      {
        var id :| id in rest;
        if followerID != "" {
          IdMatchFull(id, followerID);
        }
        OneLess(rest, id, followerID);
        rest := rest - {id};
        if followerID != "" && IdMatch(id, followerID) {
          followerAttached := true;
          continue;
        }
        foreignCount := foreignCount + 1;
      }
    }

    static lemma OneLess(rest: set<string>, id: string, followerID: string)
      requires id in rest
      ensures |rest - {id} - {followerID}| == |rest - {followerID}| - if id == followerID then 0 else 1
    {
      if id == followerID {
        assert rest - {id} - {followerID} == rest - {followerID};
      } else {
        assert rest - {id} - {followerID} == rest - {followerID} - {id};
      }
    }

    method MaybePark()
      requires Valid()
      modifies this`parked, net
      ensures Valid() && State() == Parking(net.cfg, old(State()))
    {
      hide Membership, Tick, Released, ResolveFollower;
      if parked {
        return;
      }
      var m := InspectMembership();
      if m.None? {
        return;
      }
      if !m.value.followerAttached {
        parked := true;
        return;
      }
      if m.value.foreignCount > 0 {
        return;
      }
      ReleaseFollower();
    }

    method ReleaseFollower()
      requires Valid()
      modifies this`parked, net
      ensures Valid() && State() == Released(net.cfg, old(State()))
    {
      EnvForeign(net.cfg, State());
      hide Tick, ResolveFollower;
      var err := net.NetworkDisconnect(parked);
      if err.Failed? {
        return;
      }
      parked := true;
    }

    method WaitForSettle() returns (o: Outcome)
      requires Valid()
      modifies net
      ensures Valid() && (State(), o) == Settled(net.cfg, old(State()))
    {
      hide Membership, Tick, ResolveFollower;
      if net.cfg.backoff > 0 {
        if net.cfg.cancelled(net.clock) {
          return Cancelled;
        }
      }
      var last: int, stable: int, elapsed: int := -1, 0, 0;
      while true
        invariant Valid()
        invariant SettleFrom(net.cfg, State(), last, stable, elapsed) == Settled(net.cfg, old(State()))
        decreases if elapsed < net.cfg.maxWait then net.cfg.maxWait - elapsed else 0
      {
        var m := InspectMembership();
        if m.None? {
          return Aborted;
        }
        var c := m.value.foreignCount;
        if c > 0 && c == last {
          stable := stable + net.cfg.poll;
          if stable >= net.cfg.quiet {
            return Ready;
          }
        } else {
          last := c;
          stable := 0;
        }
        if elapsed >= net.cfg.maxWait {
          return TimedOut;
        }
        if net.cfg.cancelled(net.clock) {
          return Cancelled;
        }
        elapsed := elapsed + net.cfg.poll;
      }
    }

    method ConnectWithRetry() returns (ok: bool)
      requires Valid()
      modifies net
      ensures Valid() && (State(), ok) == Connecting(net.cfg, old(State()), 1)
    {
      AlreadyIsSuccess();
      hide Tick, IsAlreadyConnected, IsAddressInUse, ResolveFollower;
      var attempt: nat := 1;
      while true
        invariant Valid() && Connecting(net.cfg, State(), attempt) == Connecting(net.cfg, old(State()), 1)
        decreases if attempt < net.cfg.connectAttempts then net.cfg.connectAttempts - attempt else 0
      {
        ghost var w := State();
        EnvForeign(net.cfg, w);
        var err := net.NetworkConnect(parked);
        if err.None? || IsAlreadyConnected(err.value) {
          return true;
        }
        if IsAddressInUse(err.value) && attempt < net.cfg.connectAttempts {
          if net.cfg.cancelled(net.clock) {
            return false;
          }
          EnvForeign(net.cfg, State());
          var _ := net.NetworkInspectByName(parked);
          attempt := attempt + 1;
          continue;
        }
        return false;
      }
    }

    method Reattach()
      requires Valid()
      modifies this`parked, net
      ensures Valid() && State() == Reattached(net.cfg, old(State()))
    {
      hide Tick, Connecting, ResolveFollower;
      EnvForeign(net.cfg, State());
      var members := net.NetworkInspectByName(parked);
      if members.None? {
        return;
      }
      EnvForeign(net.cfg, State());
      var all := net.ContainerList(parked);
      if all.None? {
        return;
      }
      var followerID := ResolveFollower(all.value, followTarget, selfProject);
      if followerID == "" {
        return;
      }
      EnvForeign(net.cfg, State());
      var _ := net.NetworkDisconnect(parked);
      var ok := ConnectWithRetry();
      if !ok {
        return;
      }
      parked := false;
    }

    method SettleAndReattach()
      requires Valid()
      modifies this`parked, net
      ensures Valid() && State() == SettledAndReattached(net.cfg, old(State()))
    {
      hide Settled, Reattached, ResolveFollower;
      var o := WaitForSettle();
      if o.Cancelled? || o.Aborted? {
        return;
      }
      Reattach();
    }

    /** bootstrapRecheck. */
    method BootstrapRecheck()
      requires Valid()
      modifies this`parked, net
      ensures Valid() && State() == Bootstrapped(net.cfg, old(State()))
    {
      hide Tick, Reattached, ResolveFollower;
      EnvForeign(net.cfg, State());
      var members := net.NetworkInspectByName(parked);
      if members.None? {
        return;
      }
      EnvForeign(net.cfg, State());
      var all := net.ContainerList(parked);
      if all.None? {
        return;
      }
      var followerID := ResolveFollower(all.value, followTarget, selfProject);
      if followerID == "" {
        return;
      }
      EnvForeign(net.cfg, State());
      var current := net.ContainerInspect(parked);
      if current.None? {
        return;
      }
      if current.value {
        return;
      }
      Reattach();
    }

    /** consume, on the event at the head of the stream. */
    method HandleEvent()
      requires Valid() && net.queue != []
      modifies this`parked, net
      ensures Valid() && State() == Handled(net.cfg, old(State()))
    {
      hide SettledAndReattached, Parking, ResolveFollower;
      var msg := net.queue[0];
      net.queue := net.queue[1..];
      match msg
      case Create =>
        SettleAndReattach();
      case Destroy =>
        parked := true;
      case Disconnect(_) =>
        MaybePark();
      case Connect(_) =>
        if parked {
          SettleAndReattach();
        }
      case OtherNetwork =>
    }

    /** consume: `n` turns of its loop, each waiting for the others to move first. */
    method Consume(n: nat)
      requires Valid()
      modifies this`parked, net
      ensures Valid() && State() == Turns(net.cfg, old(State()), n)
    {
      hide Tick, Handled, ResolveFollower;
      for i := 0 to n
        invariant Valid() && State() == Turns(net.cfg, old(State()), i)
      {
        EnvForeign(net.cfg, State());
        net.Become(Tick(net.cfg, State()));
        if net.queue != [] {
          HandleEvent();
        }
      }
    }
  }

  /** What inspectMembership reports; the follower's ID is empty when the list does not show it. */
  function ViewOf(cfg: Cfg, w: World): Option<View> {
    var seen := Membership(cfg, w).1;
    if seen.None? then None
    else Some(View(if cfg.found(w.clock + 1) then cfg.follower else "", seen.value.attached, |seen.value.foreign|))
  }

  lemma ViewExactly(cfg: Cfg, w: World)
    requires forall x | x in w.foreign :: Foreign(cfg, x)
    ensures ViewOf(cfg, w).Some? <==> !cfg.fails(w.clock) && !cfg.fails(w.clock + 1)
    ensures ViewOf(cfg, w).Some? ==>
              && (ViewOf(cfg, w).value.followerAttached <==> w.attached && cfg.found(w.clock + 1))
              && ViewOf(cfg, w).value.foreignCount ==
                 |Tick(cfg, w).foreign| + if w.attached && !cfg.found(w.clock + 1) then 1 else 0
  {
    EnvForeign(cfg, w);
    EnvTick(cfg, w);
    hide Tick;
  }

  lemma MembershipWorld(cfg: Cfg, w: World)
    ensures Membership(cfg, w).0 == if cfg.fails(w.clock) then Tick(cfg, w) else Tick(cfg, Tick(cfg, w))
    ensures cfg.fails(w.clock) || cfg.fails(Tick(cfg, w).clock) ==> ViewOf(cfg, w).None?
  {
    hide Tick;
  }

  lemma EndpointIds(cfg: Cfg, w: World)
    requires |cfg.follower| == 64 && forall x | x in w.foreign :: Foreign(cfg, x)
    ensures forall x | x in Endpoints(cfg, w) :: |x| == 64
  {
  }

  lemma ViewIs(cfg: Cfg, w: World, followerID: string, attached: bool, count: nat)
    requires |cfg.follower| == 64 && forall x | x in Tick(cfg, w).foreign :: Foreign(cfg, x)
    requires !cfg.fails(w.clock) && !cfg.fails(w.clock + 1)
    requires followerID == if cfg.found(w.clock + 1) then cfg.follower else ""
    requires var members := Endpoints(cfg, Tick(cfg, w));
             (attached <==> followerID in members) && count == |members - {followerID}|
    ensures ViewOf(cfg, w) == Some(View(followerID, attached, count))
  {
    EndpointsWithout(cfg, Tick(cfg, w));
    EnvForeign(cfg, w);
    hide Tick, Endpoints, Foreign;
  }

  lemma EndpointsWithout(cfg: Cfg, w: World)
    requires |cfg.follower| == 64 && forall x | x in w.foreign :: Foreign(cfg, x)
    ensures Endpoints(cfg, w) - {cfg.follower} == w.foreign && Endpoints(cfg, w) - {""} == Endpoints(cfg, w)
    ensures "" !in Endpoints(cfg, w) && (cfg.follower in Endpoints(cfg, w) <==> w.attached)
  {
  }

  lemma EnvForeign(cfg: Cfg, w: World)
    ensures (forall x | x in w.foreign :: Foreign(cfg, x)) ==> forall x | x in Tick(cfg, w).foreign :: Foreign(cfg, x)
    ensures Tick(cfg, w).parked == w.parked && Tick(cfg, w).clock == w.clock + 1 && Tick(cfg, w).writes == w.writes
  {
    EnvTick(cfg, w);
    hide Tick;
  }

  /**
   A run of the watcher whose calls succeed, from a good start: release-before-recreate
   holds when it has handled any number of events.
   */
  method RunFromGoodStart(w: Watcher, n: nat)
    requires w.Valid() && Succeeds(w.net.cfg) && Inv(w.net.cfg, w.State())
    modifies w`parked, w.net
    ensures w.Valid() && w.State() == Turns(w.net.cfg, old(w.State()), n)
    ensures Inv(w.net.cfg, w.State()) && (w.net.attached <==> !w.parked)
  {
    hide Succeeds, Inv, Turns;
    RunKeeps(w.net.cfg, w.State(), n);
    w.Consume(n);
    InvPaired(w.net.cfg, w.State());
  }
}
