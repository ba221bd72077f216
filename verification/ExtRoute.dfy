/**
 The external default-route enforcer: gateway by priority (DHCP push, pin, IPAM),
 re-asserted on every tick and push.
 */
module ExtRoute {
  import opened GoBase
  import opened GoStrings
  import opened NetIP
  import opened NatTypes
  import opened KernelRoutes

  /** What the loop's select may find ready, and somebody else changing a route in between. */
  datatype Event = Tick | Push(gw: Option<IP>) | Close | Outside(f: Family, gateway: Option<IP>)

  predicate ValidEvent(e: Event) {
    e.Outside? && e.gateway.Some? ==> ValidFor(e.f, e.gateway.value)
  }

  // ---- the independent account of the run ---------------------------------------

  predicate Closed(events: seq<Event>) {
    Close in events
  }

  /** A push with a gateway that is an IPv4 address. */
  predicate UsablePush(e: Event) {
    e.Push? && e.gw.Some? && IsV4(e.gw.value)
  }

  /** Event `i` is a usable push that the loop still listens to; without a channel (`open` false) it never does. */
  predicate Taken(open: bool, events: seq<Event>, i: nat)
    requires i < |events|
  {
    open && UsablePush(events[i]) && !Closed(events[..i])
  }

  /** The last push taken. */
  function LastPush(open: bool, events: seq<Event>): Option<IP> {
    if events == [] then None
    else
      var k := |events| - 1;
      if Taken(open, events, k) then Some(Wire(events[k].gw.value)) else LastPush(open, events[..k])
  }

  /** An IPv4 gateway is pushed by event `i`, on a channel that has not been closed before. */
  predicate PushedAt(open: bool, events: seq<Event>, i: nat)
    requires i < |events|
  {
    && open && events[i].Push? && events[i].gw.Some? && IsV4(events[i].gw.value)
    && forall j | 0 <= j < i :: events[j] != Close
  }

  predicate LastPushedAt(open: bool, events: seq<Event>, i: nat) {
    i < |events| && PushedAt(open, events, i) && forall j | i < j < |events| :: !PushedAt(open, events, j)
  }

  /** By place: the last push is the one that no later one follows; there is none if none was taken. */
  lemma {:induction false} LastPushExactly(open: bool, events: seq<Event>, i: nat)
    ensures LastPushedAt(open, events, i) ==> LastPush(open, events) == Some(Wire(events[i].gw.value))
    ensures LastPush(open, events).None? <==> forall j | 0 <= j < |events| :: !PushedAt(open, events, j)
  {
    if events != [] {
      var k := |events| - 1;
      LastPushExactly(open, events[..k], i);
      forall j | 0 <= j < k {
        PushedBefore(open, events, j, k);
      }
      OneEvent(open, events, k);
      assert events[..k + 1] == events;
      hide Wire, IsV4, PushedAt, Taken;
      if LastPushedAt(open, events, i) && i < k {
        assert !PushedAt(open, events, k);
      }
    }
  }

  lemma PushedBefore(open: bool, events: seq<Event>, j: nat, k: nat)
    requires j < k <= |events|
    ensures PushedAt(open, events[..k], j) <==> PushedAt(open, events, j)
  {
  }

  /** Once a push has been taken, no later event makes the gateway fall back. */
  lemma {:induction false} PushSticks(open: bool, events: seq<Event>, more: seq<Event>)
    requires LastPush(open, events).Some?
    ensures LastPush(open, events + more).Some?
    ensures Closed(events) ==> LastPush(open, events + more) == LastPush(open, events)
  {
    if more == [] {
      assert events + more == events;
    } else {
      var k := |more| - 1;
      assert (events + more)[..|events| + k] == events + more[..k];
      PushSticks(open, events, more[..k]);
      assert Closed(events) ==> Close in (events + more[..k]);
    }
  }

  datatype Config = Config(extNetwork: string, pinV4: Option<IP>, pinV6: Option<IP>)

  /** Gateways the configuration and Docker may give are of their family. */
  ghost predicate Usable(f: Family, gw: Option<IP>) {
    gw.Some? ==> ValidFor(f, gw.value)
  }

  class Manager {
    const cfg: Config
    const router: Kernel
    var ipamV4: Option<IP>
    var ipamV6: Option<IP>
    var dynV4: Option<IP>
    var dynSrc: bool

    constructor (cfg: Config, router: Kernel, dynSrc: bool)
      requires router.Valid() && Usable(V4, cfg.pinV4) && Usable(V6, cfg.pinV6)
      ensures this.cfg == cfg && this.router == router && this.dynSrc == dynSrc && dynV4.None? && ipamV4.None? &&
              ipamV6.None?
      ensures Valid()
    {
      this.cfg, this.router, this.dynSrc := cfg, router, dynSrc;
      ipamV4, ipamV6, dynV4 := None, None, None;
    }

    ghost predicate Valid()
      reads this, router
    {
      && router.Valid() && Usable(V4, cfg.pinV4) && Usable(V6, cfg.pinV6)
      && Usable(V4, ipamV4) && Usable(V6, ipamV6) && Usable(V4, dynV4)
    }

    /** The gateway that priority gives `f` now. */
    function Effective(f: Family): Option<IP>
      reads this
    {
      if f.V4? then EffectiveV4() else EffectiveV6()
    }

    function EffectiveV4(): Option<IP>
      reads this
    {
      if dynV4.Some? then dynV4 else if cfg.pinV4.Some? then cfg.pinV4 else ipamV4
    }

    function EffectiveV6(): Option<IP>
      reads this
    {
      if cfg.pinV6.Some? then cfg.pinV6 else ipamV6
    }

    /** assert: no gateway, no touch; otherwise the route is read and replaced if it is another one. */
    method Assert(f: Family, gw: Option<IP>)
      requires Valid() && Usable(f, gw)
      modifies router`routes, router`calls
      ensures Valid()
      ensures gw.None? ==> router.routes == old(router.routes) && router.calls == old(router.calls)
      ensures gw.Some? ==>
        var n := old(router.calls);
        var there := router.works(n) && f in old(router.routes) && Wire(old(router.routes)[f]) == Wire(gw.value);
        && router.calls == n + (if there then 1 else 2)
        && router.routes == if !there && router.works(n + 1)
          then old(router.routes)[f := Wire(gw.value)] else old(router.routes)
      ensures gw.Some? && (forall n: nat :: router.works(n)) ==>
                f in router.routes && Wire(router.routes[f]) == Wire(gw.value)
      ensures SameAt(old(router.routes), router.routes, Other(f))
      ensures !SameAt(old(router.routes), router.routes, f) ==>
                gw.Some? && f in router.routes && Wire(router.routes[f]) == Wire(gw.value)
    {
      hide Wire, Equal, To4, Stored, ValidFor;
      if gw.None? {
        return;
      }
      RoutesExactly(router.routes, f, gw.value);
      StoredEqual(f, gw.value);
      var cur := router.CurrentGateway(f);
      if cur.Ok? && cur.value.Some? && Equal(cur.value.value, gw.value) {
        return;
      }
      var _ := router.ReplaceDefaultRoute(f, gw.value);
    }

    method AssertAll()
      requires Valid()
      modifies router`routes, router`calls
      ensures Valid()
      ensures (forall n: nat :: router.works(n)) ==> forall f: Family :: Enforced(f)
      ensures forall f: Family :: SameAt(old(router.routes), router.routes, f) || (Effective(f).Some? && Enforced(f))
    {
      hide SameAt, Wire, Valid, Follows, KernelRoutes.Kernel.Valid;
      UsableGateways();
      ghost var r0 := router.routes;
      Assert(V4, EffectiveV4());
      ghost var r1 := router.routes;
      Assert(V6, EffectiveV6());
      SameTwice(r0, r1, router.routes);
      EnforcedBy(V4);
      EnforcedBy(V6);
    }

    lemma UsableGateways()
      requires Valid()
      ensures Usable(V4, EffectiveV4()) && Usable(V6, EffectiveV6())
    {
    }

    /** The rule, for a route that goes via the effective gateway. */
    lemma EnforcedBy(f: Family)
      ensures Effective(f).None? || (f in router.routes && Wire(router.routes[f]) == Wire(Effective(f).value)) ==>
                Enforced(f)
    {
      hide Wire;
    }

    /** The kernel's default route is the effective gateway, if there is one. */
    ghost predicate Enforced(f: Family)
      reads this, router
    {
      Follows(router.routes, f, dynV4, if f.V4? then cfg.pinV4 else cfg.pinV6, if f.V4? then ipamV4 else ipamV6)
    }

    /** The IPAM lookup that Run starts with; None is a failed one. */
    method LookupIpam(gateways: Option<(Option<IP>, Option<IP>)>)
      requires Valid() && (gateways.Some? ==> Usable(V4, gateways.value.0) && Usable(V6, gateways.value.1))
      modifies this`ipamV4, this`ipamV6
      ensures Valid()
      ensures if cfg.extNetwork != "" && (cfg.pinV4.None? || cfg.pinV6.None?) && gateways.Some?
              then ipamV4 == gateways.value.0 && ipamV6 == gateways.value.1
              else ipamV4 == old(ipamV4) && ipamV6 == old(ipamV6)
    {
      if cfg.extNetwork != "" && (cfg.pinV4.None? || cfg.pinV6.None?) {
        if gateways.Some? {
          ipamV4, ipamV6 := gateways.value.0, gateways.value.1;
        }
      }
    }

    /** One turn of Run's select loop, or an outside change between two turns. */
    method HandleEvent(e: Event)
      requires Valid() && ValidEvent(e)
      modifies this`dynV4, this`dynSrc, router`routes, router`calls
      ensures Valid()
      ensures dynSrc == (old(dynSrc) && e != Close)
      ensures dynV4 == if old(dynSrc) && UsablePush(e) then Some(Wire(e.gw.value)) else old(dynV4)
      ensures e.Tick? && (forall n: nat :: router.works(n)) ==> forall f: Family :: Enforced(f)
      ensures old(dynSrc) && UsablePush(e) && (forall n: nat :: router.works(n)) ==> Enforced(V4)
      ensures forall f: Family | !(e.Outside? && e.f == f) ::
              SameAt(old(router.routes), router.routes, f) || (Effective(f).Some? && Enforced(f))
      ensures e.Outside? ==> router.routes == Meddled(old(router.routes), e.f, e.gateway)
    {
      hide SameAt, Wire, Follows, To4, IsV4, ValidFor, Meddled;
      SameItself(router.routes);
      match e
      case Tick =>
        AssertAll();
      case Push(gw) =>
        if dynSrc {
          if gw.Some? {
            FormsExactly(gw.value);
          }
          if gw.None? || To4(gw.value).None? {
            return;
          }
          ShortForm(gw.value);
          dynV4 := To4(gw.value);
          Assert(V4, EffectiveV4());
          EnforcedBy(V4);
        }
      case Close =>
        dynSrc := false;
      case Outside(f, gateway) =>
        OnlyThere(router.routes, f, gateway);
        router.Outside(f, gateway);
    }
  }

  lemma SameItself(r: Routes)
    ensures SameAt(r, r, V4) && SameAt(r, r, V6)
  {
  }

  lemma OnlyThere(r: Routes, f: Family, gateway: Option<IP>)
    ensures SameAt(r, Meddled(r, f, gateway), Other(f))
  {
  }

  lemma ShortForm(gw: IP)
    ensures To4(gw).Some? ==> ValidFor(V4, To4(gw).value)
  {
  }

  lemma SameTwice(r0: Routes, r1: Routes, r2: Routes)
    ensures SameAt(r0, r1, V4) && SameAt(r1, r2, V4) ==> SameAt(r0, r2, V4)
    ensures SameAt(r0, r1, V6) && SameAt(r1, r2, V6) ==> SameAt(r0, r2, V6)
    ensures SameAt(r0, r1, V6) && !SameAt(r0, r2, V6) ==> !SameAt(r1, r2, V6)
    ensures SameAt(r1, r2, V4) && V4 in r1 ==> V4 in r2 && r2[V4] == r1[V4]
  {
  }

  /** The default route of `f` was not touched. */
  predicate SameAt(r: Routes, r': Routes, f: Family) {
    (f in r <==> f in r') && (f in r ==> r'[f] == r[f])
  }

  /** One turn of the run, the routing table before and after it. */
  datatype Turn = Turn(before: Routes, after: Routes)

  /** The route goes via the last push, else the pin, else IPAM's gateway; pushes are for v4 alone. */
  predicate Follows(r: Routes, f: Family, push: Option<IP>, pin: Option<IP>, ipam: Option<IP>) {
    && (f.V4? && push.Some? ==> f in r && Wire(r[f]) == Wire(push.value))
    && ((f.V6? || push.None?) && pin.Some? ==> f in r && Wire(r[f]) == Wire(pin.value))
    && ((f.V6? || push.None?) && pin.None? && ipam.Some? ==> f in r && Wire(r[f]) == Wire(ipam.value))
  }

  /**
   With a working router the kernel is on the gateway after a tick, and for v4 after every
   push that is taken, also one that repeats it; and whatever calls fail, nobody but others
   puts it on anything else, or touches a family without a gateway.
   */
  ghost predicate Sound(t: Turn, working: bool, cfg: Config, open: bool, ipamV4: Option<IP>, ipamV6: Option<IP>,
                        events: seq<Event>, i: nat)
    requires i < |events|
  {
    var push := LastPush(open, events[..i + 1]);
    && (working && (events[i].Tick? || PushedAt(open, events, i)) ==> Follows(t.after, V4, push, cfg.pinV4, ipamV4))
    && (working && events[i].Tick? ==> Follows(t.after, V6, push, cfg.pinV6, ipamV6))
    && (!SameAt(t.before, t.after, V4) && !(events[i].Outside? && events[i].f.V4?) ==>
        (push.Some? || cfg.pinV4.Some? || ipamV4.Some?) && Follows(t.after, V4, push, cfg.pinV4, ipamV4))
    && (!SameAt(t.before, t.after, V6) && !(events[i].Outside? && events[i].f.V6?) ==>
        (cfg.pinV6.Some? || ipamV6.Some?) && Follows(t.after, V6, push, cfg.pinV6, ipamV6))
  }

  /** Each turn starts where the one before it ended. */
  ghost predicate Chained(start: Routes, trace: seq<Turn>, end: Routes) {
    if trace == [] then end == start
    else
      && trace[0].before == start && trace[|trace| - 1].after == end
      && forall i | 0 < i < |trace| :: trace[i].before == trace[i - 1].after
  }

  /** Run: the startup lookup and assert, then the events as they come. */
  method Run(m: Manager, gateways: Option<(Option<IP>, Option<IP>)>, events: seq<Event>)
    returns (ghost start: Routes, ghost trace: seq<Turn>)
    requires m.Valid() && m.dynV4.None? && m.ipamV4.None? && m.ipamV6.None?
    requires gateways.Some? ==> Usable(V4, gateways.value.0) && Usable(V6, gateways.value.1)
    requires forall e | e in events :: ValidEvent(e)
    modifies m`ipamV4, m`ipamV6, m`dynV4, m`dynSrc, m.router`routes, m.router`calls
    ensures m.Valid() && |trace| == |events| && m.dynV4 == LastPush(old(m.dynSrc), events)
    ensures if m.cfg.extNetwork != "" && (m.cfg.pinV4.None? || m.cfg.pinV6.None?) && gateways.Some?
            then m.ipamV4 == gateways.value.0 && m.ipamV6 == gateways.value.1
            else m.ipamV4.None? && m.ipamV6.None?
    ensures (forall n: nat :: m.router.works(n)) ==>
            Follows(start, V4, None, m.cfg.pinV4, m.ipamV4) && Follows(start, V6, None, m.cfg.pinV6, m.ipamV6)
    ensures Chained(start, trace, m.router.routes)
    ensures forall i | 0 <= i < |events| ::
            Sound(trace[i], forall n: nat :: m.router.works(n), m.cfg, old(m.dynSrc), m.ipamV4, m.ipamV6, events, i)
  {
    m.LookupIpam(gateways);
    m.AssertAll();
    start := m.router.routes;
    assert (forall n: nat :: m.router.works(n)) ==> m.Enforced(V4) && m.Enforced(V6);
    hide Follows;
    trace := HandleAll(m, events);
  }

  /** The select loop over the events. */
  method HandleAll(m: Manager, events: seq<Event>) returns (ghost trace: seq<Turn>)
    requires m.Valid() && m.dynV4.None? && forall e | e in events :: ValidEvent(e)
    modifies m`dynV4, m`dynSrc, m.router`routes, m.router`calls
    ensures m.Valid() && |trace| == |events| && m.dynV4 == LastPush(old(m.dynSrc), events)
    ensures Chained(old(m.router.routes), trace, m.router.routes)
    ensures forall i | 0 <= i < |events| ::
            Sound(trace[i], forall n: nat :: m.router.works(n), m.cfg, old(m.dynSrc), m.ipamV4, m.ipamV6, events, i)
  {
    hide Sound, ValidEvent;
    trace := [];
    ghost var working := forall n: nat :: m.router.works(n);
    for i := 0 to |events|
      invariant m.Valid() && |trace| == i && Chained(old(m.router.routes), trace, m.router.routes)
      invariant m.dynSrc == (old(m.dynSrc) && !Closed(events[..i])) && m.dynV4 == LastPush(old(m.dynSrc), events[..i])
      invariant forall j | 0 <= j < i :: Sound(trace[j], working, m.cfg, old(m.dynSrc), m.ipamV4, m.ipamV6, events, j)
    {
      ghost var before := m.router.routes;
      TakeOne(m, old(m.dynSrc), events, i, working);
      trace := trace + [Turn(before, m.router.routes)];
    }
    assert events[..|events|] == events;
  }

  method TakeOne(m: Manager, ghost open: bool, events: seq<Event>, i: nat, ghost working: bool)
    requires m.Valid() && i < |events| && (forall e | e in events :: ValidEvent(e))
    requires working <==> forall n: nat :: m.router.works(n)
    requires m.dynSrc == (open && !Closed(events[..i])) && m.dynV4 == LastPush(open, events[..i])
    modifies m`dynV4, m`dynSrc, m.router`routes, m.router`calls
    ensures m.Valid() && m.dynSrc == (open && !Closed(events[..i + 1])) && m.dynV4 == LastPush(open, events[..i + 1])
    ensures Sound(Turn(old(m.router.routes), m.router.routes), working, m.cfg, open, m.ipamV4, m.ipamV6, events, i)
  {
    OneEvent(open, events, i);
    hide Via, ValidFor, LastPush, Taken, Closed, ValidEvent, UsablePush, PushedAt, Follows, SameAt;
    assert ValidEvent(events[i]);
    m.HandleEvent(events[i]);
    assert working && events[i].Tick? ==> m.Enforced(V4) && m.Enforced(V6);
  }

  lemma OneEvent(open: bool, events: seq<Event>, i: nat)
    requires i < |events|
    ensures Closed(events[..i + 1]) <==> Closed(events[..i]) || events[i] == Close
    ensures Taken(open, events, i) <==> open && !Closed(events[..i]) && UsablePush(events[i])
    ensures Taken(open, events, i) <==> PushedAt(open, events, i)
    ensures UsablePush(events[i]) ==> events[i].Push? && events[i].gw.Some?
    ensures LastPush(open, events[..i + 1]) ==
            if Taken(open, events, i) then Some(Wire(events[i].gw.value)) else LastPush(open, events[..i])
  {
    assert events[..i + 1][..i] == events[..i] && events[..i + 1] == events[..i] + [events[i]];
    hide Wire, IsV4;
  }
}
