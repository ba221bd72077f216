/**
 The service-anchor's route manager: keeps the default routes on the resolved gateway
 while others change them, and puts the recorded originals back on shutdown.
 */
module ServiceAnchor {
  import opened GoBase
  import opened GoStrings
  import opened NetIP
  import opened NatTypes
  import opened KernelRoutes

  /** One lookup's answer; None is a failed lookup. */
  type Lookup = Option<seq<IP>>

  /** The first address of the family, in the resolver's order. */
  function FirstOf(f: Family, addrs: seq<IP>): (r: Option<IP>)
    ensures r.Some? ==> ValidFor(f, r.value)
  {
    if addrs == [] then None
    else if f.V4? && To4(addrs[0]).Some? then To4(addrs[0])
    else if f.V6? && To4(addrs[0]).None? && To16(addrs[0]).Some? then To16(addrs[0])
    else FirstOf(f, addrs[1..])
  }

  lemma {:induction false} FirstOfSnoc(f: Family, addrs: seq<IP>, a: IP)
    ensures FirstOf(f, addrs + [a]) == if FirstOf(f, addrs).Some? then FirstOf(f, addrs) else FirstOf(f, [a])
  {
    if addrs != [] {
      assert (addrs + [a])[1..] == addrs[1..] + [a];
      FirstOfSnoc(f, addrs[1..], a);
    } else {
      assert addrs + [a] == [a];
    }
  }

  function Wanted(f: Family, lookup: Lookup): (r: Option<IP>)
    ensures r.Some? ==> ValidFor(f, r.value)
  {
    if lookup.None? then None else FirstOf(f, lookup.value)
  }

  predicate Fits(f: Family, a: IP) {
    if f.V4? then IsV4(a) else IsV6(a)
  }

  /** No address before `i` is of the family, and the one at `i` is. */
  predicate FirstFit(f: Family, addrs: seq<IP>, i: nat) {
    i < |addrs| && Fits(f, addrs[i]) && forall j | 0 <= j < i :: !Fits(f, addrs[j])
  }

  /** By place and bytes: the first address of the family, wherever those of the other one stand. */
  lemma {:induction false} FirstOfExactly(f: Family, addrs: seq<IP>, i: nat)
    ensures FirstFit(f, addrs, i) ==> FirstOf(f, addrs) == Some(Wire(addrs[i]))
    ensures (forall a | a in addrs :: !Fits(f, a)) ==> FirstOf(f, addrs).None?
  {
    if addrs != [] {
      FormsExactly(addrs[0]);
      assert addrs[0] in addrs && forall a | a in addrs[1..] :: a in addrs;
      if i > 0 {
        FirstOfExactly(f, addrs[1..], i - 1);
        assert FirstFit(f, addrs, i) ==> !Fits(f, addrs[0]) && FirstFit(f, addrs[1..], i - 1);
      } else {
        FirstOfExactly(f, addrs[1..], 0);
      }
      hide IsV4, Wire, To4, To16, ValidFor;
    }
  }

  /** What a lookup asks for: nothing when it fails or shows no address of the family, otherwise the first one. */
  lemma WantedExactly(f: Family, lookup: Lookup, i: nat)
    ensures lookup.Some? && FirstFit(f, lookup.value, i) ==> Wanted(f, lookup) == Some(Wire(lookup.value[i]))
    ensures lookup.None? || (forall a | a in lookup.value :: !Fits(f, a)) ==> Wanted(f, lookup).None?
  {
    if lookup.Some? {
      FirstOfExactly(f, lookup.value, i);
    }
  }

  /** With every router call going through: the routes after one reconcile. */
  function Reconciled(r: Routes, lookup: Lookup): Routes {
    Asserted(Asserted(r, V4, Wanted(V4, lookup)), V6, Wanted(V6, lookup))
  }

  function Asserted(r: Routes, f: Family, gw: Option<IP>): Routes {
    if gw.None? || Via(r, f, gw.value) then r else r[f := Stored(f, gw.value)]
  }

  /** Afterwards each family goes via its first address, or as before when there is none. */
  lemma ReconciledFollowsLookup(r: Routes, lookup: Lookup, f: Family)
    ensures Wanted(f, lookup).Some? ==> Via(Reconciled(r, lookup), f, Wanted(f, lookup).value)
    ensures Wanted(f, lookup).None? ==>
              (f in Reconciled(r, lookup) <==> f in r) && (f in r ==> Reconciled(r, lookup)[f] == r[f])
    ensures lookup.None? ==> Reconciled(r, lookup) == r
  {
    if Wanted(V4, lookup).Some? {
      StoredEqual(V4, Wanted(V4, lookup).value);
    }
    if Wanted(V6, lookup).Some? {
      StoredEqual(V6, Wanted(V6, lookup).value);
    }
  }

  /** current after one reconcile. */
  function Remembered(current: Routes, lookup: Lookup): Routes {
    var c := if Wanted(V4, lookup).Some? then current[V4 := Wanted(V4, lookup).value] else current;
    if Wanted(V6, lookup).Some? then c[V6 := Wanted(V6, lookup).value] else c
  }

  /** A route is the one before, or (a form of) the wanted one. */
  predicate OldOrWanted(before: Option<IP>, after: Option<IP>, wanted: Option<IP>) {
    after == before || (wanted.Some? && after.Some? && Equal(after.value, wanted.value))
  }

  lemma StoredWanted(lookup: Lookup)
    ensures forall f: Family | Wanted(f, lookup).Some? ::
              Equal(Stored(f, Wanted(f, lookup).value), Wanted(f, lookup).value) && ValidFor(f, Wanted(f, lookup).value)
  {
    forall f: Family | Wanted(f, lookup).Some?
      ensures Equal(Stored(f, Wanted(f, lookup).value), Wanted(f, lookup).value)
    {
      StoredEqual(f, Wanted(f, lookup).value);
    }
  }

  // ---- shutdown -----------------------------------------------------------------

  /** What cleanup does to one family when the router works. */
  function CleanedUp(r: Routes, current: Routes, original: Routes, f: Family): Option<IP> {
    if f in current && f in original && !Equal(current[f], original[f]) then Some(Stored(f, original[f]))
    else if f in current && Via(r, f, current[f]) then None
    else if f in r then Some(r[f]) else None
  }

  function At(r: Routes, f: Family): Option<IP> {
    if f in r then Some(r[f]) else None
  }

  /**
   Shutdown leaves the recorded original in place exactly when the last gateway was
   another one; when they are the same, it is removed like any route of ours.
   */
  lemma RestoresExactly(r: Routes, current: Routes, original: Routes, after: Routes, f: Family)
    requires At(after, f) == CleanedUp(r, current, original, f) && f in original
    ensures Via(after, f, original[f]) <==>
            if f in current then !Equal(current[f], original[f]) else Via(r, f, original[f])
    ensures f !in current || (Equal(current[f], original[f]) && !Via(r, f, current[f])) ==> At(after, f) == At(r, f)
  {
    StoredEqual(f, original[f]);
    if f in current {
      EqualIsCanon(current[f], original[f]);
      if f in r {
        EqualIsCanon(r[f], current[f]);
        EqualIsCanon(r[f], original[f]);
      }
    }
  }

  /** Without a recorded original, none of our routes is left behind, and nobody else's is removed. */
  lemma LeavesNoRouteOfOurs(r: Routes, current: Routes, original: Routes, after: Routes, f: Family)
    requires At(after, f) == CleanedUp(r, current, original, f) && f !in original
    ensures f in current ==> !Via(after, f, current[f])
    ensures !(f in current && Via(r, f, current[f])) ==> At(after, f) == At(r, f)
  {
  }

  // ---- the manager --------------------------------------------------------------------

  class Manager {
    const router: Kernel
    var current: Routes
    var original: Routes

    constructor (router: Kernel)
      requires router.Valid()
      ensures this.router == router && current == map[] && original == map[] && Valid()
    {
      this.router, this.current, this.original := router, map[], map[];
    }

    ghost predicate Valid()
      reads this, router
    {
      router.Valid() && AllValid(current) && AllValid(original)
    }

    method RecordOriginals()
      requires Valid() && original == map[]
      modifies this`original, router`calls
      ensures Valid()
      ensures router.calls == old(router.calls) + 2
      ensures forall f: Family ::
                var works := router.works(old(router.calls) + if f.V4? then 0 else 1);
                At(original, f) == if works then At(router.routes, f) else None
    {
      var families := [V4, V6];
      for i := 0 to 2
        invariant Valid() && router.calls == old(router.calls) + i
        invariant forall f: Family :: At(original, f) ==
                    if i > (if f.V4? then 0 else 1) && router.works(old(router.calls) + if f.V4? then 0 else 1)
                      then At(router.routes, f) else None
      {
        var fam := families[i];
        var gw := router.CurrentGateway(fam);
        if gw.Err? {
          continue;
        }
        if gw.value.None? {
          continue;
        }
        original := original[fam := gw.value.value];
      }
    }

    /** applyRoute: reads the kernel's own route each time instead of trusting `current`. */
    method ApplyRoute(f: Family, gw: IP)
      requires Valid()
      modifies this`current, router`routes, router`calls
      ensures Valid()
      ensures var n := old(router.calls);
              var there := router.works(n) && Via(old(router.routes), f, gw);
              var installed := !there && router.works(n + 1) && ValidFor(f, gw);
              && router.calls == n + (if there then 1 else 2)
              && router.routes == (if installed then old(router.routes)[f := Stored(f, gw)] else old(router.routes))
              && current == (if there || installed then old(current)[f := gw] else old(current))
    {
      StoredEqual(f, gw);
      var kernelGW := router.CurrentGateway(f);
      if kernelGW.Ok? && kernelGW.value.Some? && Equal(kernelGW.value.value, gw) {
        ViaMeansValid(f, kernelGW.value.value, gw);
        current := current[f := gw];
        return;
      }
      var ok := router.ReplaceDefaultRoute(f, gw);
      if !ok {
        return;
      }
      current := current[f := gw];
    }

    /** The first usable address per family. */
    static method FirstPerFamily(addrs: seq<IP>) returns (v4: Option<IP>, v6: Option<IP>)
      ensures v4 == FirstOf(V4, addrs) && v6 == FirstOf(V6, addrs)
    {
      v4, v6 := None, None;
      for i := 0 to |addrs|
        invariant v4 == FirstOf(V4, addrs[..i]) && v6 == FirstOf(V6, addrs[..i])
      {
        var a := addrs[i];
        assert addrs[..i + 1] == addrs[..i] + [a];
        FirstOfSnoc(V4, addrs[..i], a);
        FirstOfSnoc(V6, addrs[..i], a);
        if To4(a).Some? {
          if v4.None? {
            v4 := To4(a);
          }
        } else if To16(a).Some? {
          if v6.None? {
            v6 := To16(a);
          }
        }
      }
      assert addrs[..|addrs|] == addrs;
    }

    method Reconcile(lookup: Lookup)
      requires Valid()
      modifies this`current, router`routes, router`calls
      ensures Valid()
      ensures (forall n: nat :: router.works(n)) ==>
                router.routes == Reconciled(old(router.routes), lookup) && current == Remembered(old(current), lookup)
      ensures lookup.None? ==> router.routes == old(router.routes) && current == old(current)
      // However the calls go: each family has its old route or the wanted one, and `current` changes only
      // when it has that.
      ensures forall f: Family :: OldOrWanted(At(old(router.routes), f), At(router.routes, f), Wanted(f, lookup))
      ensures forall f: Family :: At(current, f) == At(old(current), f) ||
                                  (At(current, f) == Wanted(f, lookup) != None && Via(router.routes, f, current[f]))
    {
      StoredWanted(lookup);
      hide Equal, ValidFor, Stored;
      if lookup.None? {
        return;
      }
      var v4, v6 := FirstPerFamily(lookup.value);
      if v4.Some? {
        ApplyRoute(V4, v4.value);
      }
      if v6.Some? {
        ApplyRoute(V6, v6.value);
      }
    }

    /** cleanup: removes what was installed, then restores what was recorded. */
    method Cleanup()
      requires Valid()
      modifies this`current, this`original, router`routes, router`calls
      ensures Valid() && current == map[] && original == map[]
      ensures (forall n: nat :: router.works(n)) ==>
                forall f: Family :: At(router.routes, f) ==
                  CleanedUp(old(router.routes), old(current), old(original), f)
    {
      ghost var r := router.routes;
      RemoveOurs();
      ghost var removed := router.routes;
      RestoreOriginals();
      if forall n: nat :: router.works(n) {
        forall f: Family ensures At(router.routes, f) == CleanedUp(r, current, original, f) {
          CleanupComposes(r, removed, router.routes, current, original, f);
        }
      }
      current, original := map[], map[];
    }

    method RemoveOurs()
      requires Valid()
      modifies router`routes, router`calls
      ensures Valid()
      ensures (forall n: nat :: router.works(n)) ==>
              forall f: Family :: At(router.routes, f) == Removed(old(router.routes), current, f)
      ensures forall f: Family :: At(router.routes, f) in {At(old(router.routes), f),
        Removed(old(router.routes), current, f)}
    {
      var families := RangeOrder(current);
      ghost var r := router.routes;
      hide Equal, ValidFor;
      for i := 0 to |families|
        invariant Valid()
        invariant (forall n: nat :: router.works(n)) ==>
                    forall f: Family :: At(router.routes, f) ==
                      if f in families[..i] then Removed(r, current, f) else At(r, f)
        invariant forall f: Family :: At(router.routes, f) in {At(r, f), Removed(r, current, f)}
        invariant forall f: Family | f !in families[..i] :: At(router.routes, f) == At(r, f)
      {
        assert families[..i + 1] == families[..i] + [families[i]];
        assert families[i] !in families[..i];
        var _ := router.RemoveDefaultRoute(families[i], current[families[i]]);
      }
      assert families[..|families|] == families;
    }

    method RestoreOriginals()
      requires Valid()
      modifies router`routes, router`calls
      ensures Valid()
      ensures (forall n: nat :: router.works(n)) ==>
              forall f: Family :: At(router.routes, f) == Restored(old(router.routes), current, original, f)
      ensures forall f: Family :: At(router.routes, f) in {At(old(router.routes), f),
        Restored(old(router.routes), current, original, f)}
    {
      var families := RangeOrder(original);
      ghost var r := router.routes;
      hide Equal, ValidFor;
      for i := 0 to |families|
        invariant Valid()
        invariant (forall n: nat :: router.works(n)) ==>
                    forall f: Family :: At(router.routes, f) ==
                      if f in families[..i] then Restored(r, current, original, f) else At(r, f)
        invariant forall f: Family :: At(router.routes, f) in {At(r, f), Restored(r, current, original, f)}
        invariant forall f: Family | f !in families[..i] :: At(router.routes, f) == At(r, f)
      {
        var family := families[i];
        assert families[..i + 1] == families[..i] + [family];
        assert family !in families[..i];
        if family !in current || Equal(current[family], original[family]) {
          continue;
        }
        var _ := router.ReplaceDefaultRoute(family, original[family]);
      }
      assert families[..|families|] == families;
    }
  }

  /** The two halves of cleanup, on one family. */
  function Removed(r: Routes, current: Routes, f: Family): Option<IP> {
    if f in current && Via(r, f, current[f]) then None else At(r, f)
  }

  function Restored(r: Routes, current: Routes, original: Routes, f: Family): Option<IP> {
    if f in current && f in original && !Equal(current[f], original[f]) then Some(Stored(f, original[f])) else At(r, f)
  }

  lemma CleanupComposes(r: Routes, removed: Routes, after: Routes, current: Routes, original: Routes, f: Family)
    requires At(removed, f) == Removed(r, current, f) && At(after, f) == Restored(removed, current, original, f)
    ensures At(after, f) == CleanedUp(r, current, original, f)
  {
  }

  lemma ViaMeansValid(f: Family, a: IP, gw: IP)
    requires ValidFor(f, a) && Equal(a, gw)
    ensures ValidFor(f, gw)
  {
    EqualIsCanon(a, gw);
  }

  // ---- whole runs -------------------------------------------------------------------------

  /** A tick of the resolve loop, or somebody else changing a default route. */
  datatype Event = Tick(lookup: Lookup) | Outside(f: Family, gw: Option<IP>)

  predicate ValidEvent(e: Event) {
    e.Outside? && e.gw.Some? ==> ValidFor(e.f, e.gw.value)
  }

  function Step(r: Routes, e: Event): Routes {
    if e.Tick? then Reconciled(r, e.lookup) else Meddled(r, e.f, e.gw)
  }

  function RoutesAfter(r: Routes, events: seq<Event>): Routes {
    if events == [] then r else Step(RoutesAfter(r, events[..|events| - 1]), events[|events| - 1])
  }

  function CurrentAfter(events: seq<Event>): Routes {
    if events == [] then map[] else NextCurrent(CurrentAfter(events[..|events| - 1]), events[|events| - 1])
  }

  function NextCurrent(current: Routes, e: Event): Routes {
    if e.Tick? then Remembered(current, e.lookup) else current
  }

  /** The last gateway any tick resolved for the family. */
  function LastResolved(f: Family, events: seq<Event>): Option<IP> {
    if events == [] then None
    else if events[|events| - 1].Tick? && Wanted(f, events[|events| - 1].lookup).Some?
      then Wanted(f, events[|events| - 1].lookup)
    else LastResolved(f, events[..|events| - 1])
  }

  lemma {:induction false} CurrentIsLastResolved(f: Family, events: seq<Event>)
    ensures At(CurrentAfter(events), f) == LastResolved(f, events)
  {
    if events != [] {
      CurrentIsLastResolved(f, events[..|events| - 1]);
    }
  }

  predicate LastResolvedAt(f: Family, events: seq<Event>, i: nat) {
    i < |events| && Resolves(f, events[i]) && forall j | i < j < |events| :: !Resolves(f, events[j])
  }

  /** By place: the tick that no later one with an address of the family follows. */
  lemma {:induction false} LastResolvedExactly(f: Family, events: seq<Event>, i: nat)
    ensures LastResolvedAt(f, events, i) ==> LastResolved(f, events) == Wanted(f, events[i].lookup)
    ensures LastResolved(f, events).None? <==> forall e | e in events :: !Resolves(f, e)
  {
    if events != [] {
      var k := |events| - 1;
      LastResolvedExactly(f, events[..k], i);
      assert events == events[..k] + [events[k]];
      SomeFits(f, events[k]);
      hide Wanted, Resolves;
    }
  }

  /** A tick whose lookup shows an address of the family. */
  predicate Resolves(f: Family, e: Event) {
    e.Tick? && e.lookup.Some? && exists a | a in e.lookup.value :: Fits(f, a)
  }

  lemma SomeFits(f: Family, e: Event)
    ensures Resolves(f, e) <==> e.Tick? && Wanted(f, e.lookup).Some?
  {
    if e.Tick? && e.lookup.Some? {
      if Resolves(f, e) {
        var i := FindFirst(f, e.lookup.value);
        WantedExactly(f, e.lookup, i);
      } else {
        WantedExactly(f, e.lookup, 0);
      }
    }
    hide Wanted, Fits;
  }

  lemma {:induction false} FindFirst(f: Family, addrs: seq<IP>) returns (i: nat)
    requires exists a :: a in addrs && Fits(f, a)
    ensures FirstFit(f, addrs, i)
  {
    hide Fits;
    i := 0;
    if !Fits(f, addrs[0]) {
      assert addrs == [addrs[0]] + addrs[1..];
      i := FindFirst(f, addrs[1..]);
      i := i + 1;
    }
  }

  /**
   Whatever others did before, each tick leaves the family on its first resolved address, and a
   failed lookup changes nothing.
   */
  lemma EachTickHeals(r: Routes, events: seq<Event>, i: nat, f: Family)
    requires i < |events| && events[i].Tick?
    ensures var before, after, gw := RoutesAfter(r, events[..i]), RoutesAfter(r, events[..i + 1]),
            Wanted(f, events[i].lookup);
            && (gw.Some? ==> Via(after, f, gw.value))
            && (gw.None? ==> At(after, f) == At(before, f))
            && (events[i].lookup.None? ==> after == before)
  {
    assert events[..i + 1][..i] == events[..i];
    ReconciledFollowsLookup(RoutesAfter(r, events[..i]), events[i].lookup, f);
  }

  /** The DNS-mode run up to and including shutdown. */
  method RunDNSMode(m: Manager, first: Lookup, events: seq<Event>)
    requires m.Valid() && m.current == map[] && m.original == map[] && forall e | e in events :: ValidEvent(e)
    modifies m`current, m`original, m.router`routes, m.router`calls
    ensures m.Valid()
    ensures (forall n: nat :: m.router.works(n)) ==>
              forall f: Family :: At(m.router.routes, f) ==
                CleanedUp(RoutesAfter(old(m.router.routes), [Tick(first)] + events),
                          CurrentAfter([Tick(first)] + events), old(m.router.routes), f)
  {
    ghost var r, all := m.router.routes, [Tick(first)] + events;
    m.RecordOriginals();
    ghost var original := m.original;
    m.Reconcile(first);
    assert all[..1] == [Tick(first)];
    FirstStep(r, first);
    for i := 0 to |events|
      invariant m.Valid() && m.original == original
      invariant (forall n: nat :: m.router.works(n)) ==>
                  m.router.routes == RoutesAfter(r, all[..i + 1]) && m.current == CurrentAfter(all[..i + 1])
    {
      assert all[..i + 2][..i + 1] == all[..i + 1] && all[i + 1] == events[i];
      hide Step, NextCurrent, Via, Equal, OldOrWanted, CleanedUp;
      HandleEvent(m, events[i]);
    }
    assert all[..|events| + 1] == all;
    if forall n: nat :: m.router.works(n) {
      SameRoutes(original, r);
    }
    m.Cleanup();
  }

  /** One turn of the select loop, or an outside change between two. */
  method HandleEvent(m: Manager, e: Event)
    requires m.Valid() && ValidEvent(e)
    modifies m`current, m.router`routes, m.router`calls
    ensures m.Valid()
    ensures (forall n: nat :: m.router.works(n)) ==>
              m.router.routes == Step(old(m.router.routes), e) && m.current == NextCurrent(old(m.current), e)
  {
    hide Reconciled, Remembered, OldOrWanted;
    match e
    case Tick(lookup) => m.Reconcile(lookup);
    case Outside(f, gw) => m.router.Outside(f, gw);
  }

  lemma FirstStep(r: Routes, first: Lookup)
    ensures RoutesAfter(r, [Tick(first)]) == Reconciled(r, first) &&
            CurrentAfter([Tick(first)]) == Remembered(map[], first)
  {
    assert RoutesAfter(r, []) == r;
  }

  lemma SameRoutes(a: Routes, b: Routes)
    requires forall f: Family :: At(a, f) == At(b, f)
    ensures a == b
  {
    forall f: Family ensures (f in a <==> f in b) && (f in a ==> a[f] == b[f]) {
      assert At(a, f) == At(b, f);
    }
  }

  /**
   The life cycle: after shutdown a wrapped application has its recorded gateway back
   exactly when the last resolved one was different, and where none was recorded no
   route of ours is left.
   */
  lemma LifecycleRestores(r: Routes, events: seq<Event>, after: Routes, f: Family)
    requires At(after, f) == CleanedUp(RoutesAfter(r, events), CurrentAfter(events), r, f)
    requires LastResolved(f, events).Some?
    ensures f in r ==> (Via(after, f, r[f]) <==> !Equal(LastResolved(f, events).value, r[f]))
    ensures f !in r ==> !Via(after, f, LastResolved(f, events).value)
  {
    CurrentIsLastResolved(f, events);
    if f in r {
      RestoresExactly(RoutesAfter(r, events), CurrentAfter(events), r, after, f);
    } else {
      LeavesNoRouteOfOurs(RoutesAfter(r, events), CurrentAfter(events), r, after, f);
    }
  }

  /**
   For one, a host whose default route already goes via the gateway that the name
   resolves to is left without a default route by the shutdown.
   */
  lemma OriginalNotRestored() returns (r: Routes, events: seq<Event>)
    ensures AllValid(r) && V4 in r && events == [Tick(Some([r[V4]]))]
    ensures forall after: Routes | At(after, V4) == CleanedUp(RoutesAfter(r, events), CurrentAfter(events), r, V4) ::
            V4 !in after
  {
    var gw: IP := [10, 0, 0, 1];
    r := map[V4 := gw];
    var lookup: Lookup := Some([gw]);
    events := [Tick(lookup)];
    FirstStep(r, lookup);
    assert Wanted(V4, lookup) == Some(gw) && Wanted(V6, lookup).None? by {
      assert FirstOf(V6, lookup.value[1..]).None?;
    }
    assert RoutesAfter(r, events) == r && CurrentAfter(events) == map[V4 := gw];
  }

  /** A family that never resolved is never touched. */
  lemma {:induction false} UnresolvedUntouched(r: Routes, events: seq<Event>, after: Routes, f: Family)
    requires LastResolved(f, events).None? && forall e | e in events && e.Outside? :: e.f != f
    ensures At(RoutesAfter(r, events), f) == At(r, f)
    ensures At(after, f) == CleanedUp(RoutesAfter(r, events), CurrentAfter(events), r, f) ==> At(after, f) == At(r, f)
  {
    CurrentIsLastResolved(f, events);
    if events != [] {
      var k := |events| - 1;
      UnresolvedUntouched(r, events[..k], r, f);
      if events[k].Tick? {
        ReconciledFollowsLookup(RoutesAfter(r, events[..k]), events[k].lookup, f);
      }
    }
  }
}
