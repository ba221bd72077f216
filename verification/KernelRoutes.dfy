/** The kernel's default routes, one per family, behind a router interface whose calls may fail. */
module KernelRoutes {
  import opened GoBase
  import opened GoStrings
  import opened NetIP
  import opened NatTypes

  type Routes = map<Family, IP>

  /** defaultRouteFor takes `gw`, and the kernel too. */
  predicate ValidFor(f: Family, gw: IP) {
    if f.V4? then To4(gw).Some? else To4(gw).None? && |gw| == 16
  }

  /** The form the kernel reports it in. */
  function Stored(f: Family, gw: IP): IP {
    if f.V4? && To4(gw).Some? then To4(gw).value else gw
  }

  lemma StoredEqual(f: Family, gw: IP)
    ensures Equal(Stored(f, gw), gw) && Equal(gw, Stored(f, gw)) && (ValidFor(f, gw) ==> ValidFor(f, Stored(f, gw)))
  {
    EqualIsCanon(Stored(f, gw), gw);
    EqualIsCanon(gw, Stored(f, gw));
  }

  ghost predicate AllValid(r: Routes) {
    forall f | f in r :: ValidFor(f, r[f])
  }

  /** The default route of `f` goes via `gw`. */
  predicate Via(r: Routes, f: Family, gw: IP) {
    f in r && Equal(r[f], gw)
  }

  /** In bytes: a gateway fits when it is of the family, and the route is compared by address, not by form. */
  lemma RoutesExactly(r: Routes, f: Family, gw: IP)
    ensures ValidFor(f, gw) <==> if f.V4? then IsV4(gw) else IsV6(gw)
    ensures ValidFor(f, gw) ==> Stored(f, gw) == Wire(gw)
    ensures Via(r, f, gw) <==> f in r && Wire(r[f]) == Wire(gw)
    ensures Wire(Wire(gw)) == Wire(gw)
  {
    FormsExactly(gw);
    assert IsV4(gw) ==> |Wire(gw)| == 4 && Wire(gw)[0..] == Wire(gw);
    if f in r {
      FormsExactly(r[f]);
      EqualIsCanon(r[f], gw);
    }
    hide Canon, Equal;
  }

  function Other(f: Family): Family {
    if f.V4? then V6 else V4
  }

  class Kernel {
    /** Whether the n-th router call goes through. */
    const works: nat -> bool
    var routes: Routes
    var calls: nat

    ghost predicate Valid()
      reads this
    {
      AllValid(routes)
    }

    constructor (works: nat -> bool, routes: Routes)
      requires AllValid(routes)
      ensures Valid() && this.works == works && this.routes == routes && calls == 0
    {
      this.works, this.routes, this.calls := works, routes, 0;
    }

    /** Err is a failed lookup; Ok(None) is no default route. */
    method CurrentGateway(f: Family) returns (r: Result<Option<IP>, ()>)
      modifies this`calls
      ensures calls == old(calls) + 1
      ensures r == if works(old(calls)) then Ok(if f in routes then Some(routes[f]) else None) else Err(())
    {
      r := if works(calls) then Ok(if f in routes then Some(routes[f]) else None) else Err(());
      calls := calls + 1;
    }

    method ReplaceDefaultRoute(f: Family, gw: IP) returns (ok: bool)
      requires Valid()
      modifies this`calls, this`routes
      ensures Valid() && calls == old(calls) + 1
      ensures ok <==> works(old(calls)) && ValidFor(f, gw)
      ensures routes == if ok then old(routes)[f := Stored(f, gw)] else old(routes)
    {
      ok := works(calls) && ValidFor(f, gw);
      calls := calls + 1;
      if ok {
        StoredEqual(f, gw);
        routes := routes[f := Stored(f, gw)];
      }
    }

    /** Deletes the default route, if it goes via `gw`. */
    method RemoveDefaultRoute(f: Family, gw: IP) returns (ok: bool)
      requires Valid()
      modifies this`calls, this`routes
      ensures Valid() && calls == old(calls) + 1
      ensures ok <==> works(old(calls)) && ValidFor(f, gw) && Via(old(routes), f, gw)
      ensures routes == if ok then old(routes) - {f} else old(routes)
    {
      ok := works(calls) && ValidFor(f, gw) && Via(routes, f, gw);
      calls := calls + 1;
      if ok {
        routes := routes - {f};
      }
    }

    /** Somebody else changes the default route of `f`; None removes it. */
    method Outside(f: Family, gw: Option<IP>)
      requires Valid() && (gw.Some? ==> ValidFor(f, gw.value))
      modifies this`routes
      ensures Valid()
      ensures routes == Meddled(old(routes), f, gw)
    {
      routes := Meddled(routes, f, gw);
    }
  }

  function Meddled(r: Routes, f: Family, gw: Option<IP>): Routes {
    if gw.Some? then r[f := gw.value] else r - {f}
  }
}
