/**
 Reconciler.apply: pushes the desired table as four maps and flushes the
 connections that the change leaves behind, while new connections keep arriving.
 */
module Reconciler {
  import opened GoBase
  import opened GoStrings
  import opened NetIP
  import opened NatTypes
  import opened NatProgram
  import NftVM
  import Nat
  import opened Discovery

  type Programmed = Nat.Programmed

  // ---- the four maps ---------------------------------------------------------

  /** Family outside, protocol inside: the order of the pushes. */
  const PUSHES: seq<(Family, string)> := [(V4, "tcp"), (V4, "udp"), (V6, "tcp"), (V6, "udp")]

  function EntriesOf(d: Desired, fam: Family, proto: string): Entries {
    map p: uint16 | 0 <= p < 0x1_0000 && Key(fam, proto, p) in d :: d[Key(fam, proto, p)]
  }

  function TablesOf(d: Desired): Programmed {
    Nat.Programmed(EntriesOf(d, V4, "tcp"), EntriesOf(d, V4, "udp"), EntriesOf(d, V6, "tcp"), EntriesOf(d, V6, "udp"))
  }

  /** The maps after the first `n` pushes. */
  function Pushed(prog: Programmed, d: Desired, n: nat): Programmed
    requires n <= 4
  {
    if n == 0 then prog
    else Pushed(prog, d, n - 1).Put(PUSHES[n - 1].0, PUSHES[n - 1].1, EntriesOf(d, PUSHES[n - 1].0, PUSHES[n - 1].1))
  }

  lemma PushedShape(prog: Programmed, d: Desired, n: nat)
    requires n <= 4
    ensures Pushed(prog, d, n) ==
            Nat.Programmed(if n >= 1 then EntriesOf(d, V4, "tcp") else prog.v4tcp,
                           if n >= 2 then EntriesOf(d, V4, "udp") else prog.v4udp,
                           if n >= 3 then EntriesOf(d, V6, "tcp") else prog.v6tcp,
                           if n >= 4 then EntriesOf(d, V6, "udp") else prog.v6udp)
  {
    if n > 0 {
      PushedShape(prog, d, n - 1);
      assert PUSHES[n - 1] == (if n <= 2 then V4 else V6, if n == 1 || n == 3 then "tcp" else "udp");
      assert "udp" != "tcp";
    }
  }

  lemma TablesGet(d: Desired, fam: Family, proto: string)
    requires KnownProto(proto)
    ensures TablesOf(d).Get(fam, proto) == EntriesOf(d, fam, proto)
  {
    hide EntriesOf;
    assert "udp" != "tcp";
  }

  lemma PushedAll(prog: Programmed, d: Desired)
    ensures Pushed(prog, d, 4) == TablesOf(d)
  {
    PushedShape(prog, d, 4);
  }

  /** The four maps together are exactly the desired table: no key is lost or invented. */
  lemma TablesAreDesired(d: Desired, k: Key)
    requires KnownProto(k.proto)
    ensures k in d <==> k.port in TablesOf(d).Get(k.family, k.proto)
    ensures k in d ==> TablesOf(d).Get(k.family, k.proto)[k.port] == d[k]
  {
    TablesGet(d, k.family, k.proto);
    hide TablesOf;
    assert k == Key(k.family, k.proto, k.port);
  }

  // ---- tracked connections ------------------------------------------------------

  /** A tracked connection: the key it came in by and where it was sent; None when no entry applied. */
  datatype Conn = Conn(key: Key, target: Option<(Bytes, uint16)>)

  /** Where the programmed maps send a new connection for `k`. */
  function Where(prog: Programmed, k: Key): Option<(Bytes, uint16)> {
    if KnownProto(k.proto) && k.port in prog.Get(k.family, k.proto)
    then Some((Canon(prog.Get(k.family, k.proto)[k.port].ip), prog.Get(k.family, k.proto)[k.port].port))
    else None
  }

  /** The connection goes where a new one for its key would. */
  predicate Points(c: Conn, prog: Programmed) {
    Where(prog, c.key) == c.target
  }

  predicate Complete(conns: set<Conn>, prog: Programmed) {
    forall c | c in conns :: Points(c, prog)
  }

  /** Complete as far as translated connections go. */
  predicate Current(conns: set<Conn>, prog: Programmed) {
    forall c | c in conns && c.target.Some? :: Points(c, prog)
  }

  /** New connections for these keys: the first packet decides, and the kernel remembers it. */
  function Arrive(conns: set<Conn>, prog: Programmed, keys: seq<Key>): set<Conn> {
    conns + set k | k in keys :: Conn(k, Where(prog, k))
  }

  /** Where is what the nftables program does with the first packet of a connection that a guard lets through. */
  lemma WhereIsForwarding(rs: NftVM.Ruleset, layers: Nat.Layers, prog: Programmed, le: bool, k: Key,
                          pkt: NftVM.Packet, regs: NftVM.Regs)
    requires Nat.Implements(rs, layers, prog) && OnHost(layers.Get(k.family), le)
    requires KernelName(pkt.iif) && KernelName(pkt.oif) && AnyGuarded(layers.Get(k.family), k.family, pkt)
    requires KnownProto(k.proto) && pkt.l4proto == ProtoNumber(k.proto)
    requires |pkt.transport| >= 4 && DestPort(pkt) == k.port
    ensures Nat.TableOf(k.family) in rs
    ensures Redirected(pkt, NftVM.RunHook(rs[Nat.TableOf(k.family)], PREROUTING, pkt, le, regs)) == Where(prog, k)
  {
    Nat.ForwardingFollowsTable(rs, layers, prog, le, k.family, pkt, regs);
    var tcp, udp := prog.Get(k.family, "tcp"), prog.Get(k.family, "udp");
    assert EntriesFor(tcp, udp, pkt) == prog.Get(k.family, k.proto);
    assert Nat.Holds(rs, layers, prog, k.family);
    assert ProtoCompiled(rs[Nat.TableOf(k.family)], k.family, k.proto, prog.Get(k.family, k.proto));
    if k.port in prog.Get(k.family, k.proto) {
      AcceptableExactly(k.family, prog.Get(k.family, k.proto)[k.port]);
      FormsExactly(prog.Get(k.family, k.proto)[k.port].ip);
    }
    hide NftVM.RunHook, Nat.Implements, OnHost, AnyGuarded, ProtoCompiled;
  }

  // ---- what is flushed ---------------------------------------------------------------

  predicate Changed(last: Desired, desired: Desired, k: Key) {
    k in last && (k !in desired || !Equal(last[k].ip, desired[k].ip) || last[k].port != desired[k].port)
  }

  function FlushSet(last: Desired, desired: Desired): set<Bytes> {
    set k | k in last && Changed(last, desired, k) :: Canon(last[k].ip)
  }

  /** The address of a key that is gone, or has another port or address: nothing else is flushed. */
  lemma FlushSetExactly(last: Desired, d: Desired, a: Bytes)
    ensures a in FlushSet(last, d) <==>
            exists k :: k in last && Wire(last[k].ip) == a &&
                        (k in d ==> d[k].port != last[k].port || Wire(d[k].ip) != a)
  {
    forall k | k in last
      ensures Canon(last[k].ip) == Wire(last[k].ip)
      ensures Changed(last, d, k) <==>
              (k in d ==> d[k].port != last[k].port || Wire(d[k].ip) != Wire(last[k].ip))
    {
      FormsExactly(last[k].ip);
      if k in d {
        FormsExactly(d[k].ip);
        EqualIsCanon(last[k].ip, d[k].ip);
      }
      hide Wire, Canon, Equal;
    }
    hide Wire, Canon, Changed;
  }

  /** The connections there can be when the four pushes are done, before any flush. */
  function Exposed(conns: set<Conn>, prog: Programmed, d: Desired, arrive: nat -> seq<Key>, n: nat): set<Conn>
    requires n <= 4
  {
    if n == 0 then Arrive(conns, prog, arrive(0))
    else Arrive(Exposed(conns, prog, d, arrive, n - 1), Pushed(prog, d, n), arrive(n))
  }

  predicate Hit(c: Conn, addrs: set<Bytes>) {
    c.target.Some? && c.target.value.0 in addrs
  }

  function Spared(conns: set<Conn>, addrs: set<Bytes>): set<Conn> {
    set c | c in conns && !Hit(c, addrs)
  }

  /** What the flushes make of the exposed connections: the ones not hit stay, and all others go where `prog` says. */
  predicate Reduced(exposed: set<Conn>, prog: Programmed, addrs: set<Bytes>, conns: set<Conn>) {
    && (forall c | c in exposed && !Hit(c, addrs) :: c in conns)
    && (forall c | c in conns && !Points(c, prog) :: c in exposed && !Hit(c, addrs))
  }

  /** `last` is what the kernel holds: true initially and after every successful apply. */
  ghost predicate InSync(last: Desired, prog: Programmed) {
    prog == TablesOf(last) && ProtosKnown(last)
  }

  /** Which of the four pushes replaces the map of `k`. */
  function PushNumber(k: Key): nat {
    (if k.family == V4 then 0 else 2) + (if k.proto == "tcp" then 1 else 2)
  }

  lemma PushedGet(prog: Programmed, d: Desired, n: nat, k: Key)
    requires n <= 4 && KnownProto(k.proto)
    ensures Pushed(prog, d, n).Get(k.family, k.proto) ==
            (if n >= PushNumber(k) then TablesOf(d) else prog).Get(k.family, k.proto)
  {
    PushedShape(prog, d, n);
    hide Pushed, EntriesOf;
    assert "udp" != "tcp";
  }

  /** After any prefix of the pushes a key is looked up in its old map until its own push, then in its new one. */
  lemma WherePushed(prog: Programmed, d: Desired, n: nat, k: Key)
    requires n <= 4
    ensures Where(Pushed(prog, d, n), k) == if n >= PushNumber(k) then Where(TablesOf(d), k) else Where(prog, k)
  {
    hide Pushed, EntriesOf, TablesOf, Canon, PushNumber, Nat.Programmed.Get;
    if KnownProto(k.proto) {
      PushedGet(prog, d, n, k);
    }
  }

  /** Where an exposed connection comes from: from before, or it arrived after some prefix of the pushes. */
  lemma {:induction false} ExposedFrom(conns: set<Conn>, prog: Programmed, d: Desired, arrive: nat -> seq<Key>,
                                       n: nat, c: Conn)
    returns (m: nat)
    requires n <= 4 && c in Exposed(conns, prog, d, arrive, n)
    ensures m <= n
    ensures c in conns || (c.key in arrive(m) && Points(c, Pushed(prog, d, m)))
  {
    NothingPushed(prog, d);
    hide Where, Pushed;
    m := n;
    if n > 0 && c in Exposed(conns, prog, d, arrive, n - 1) {
      m := ExposedFrom(conns, prog, d, arrive, n - 1, c);
    }
  }

  /** Whenever connections arrive during the pushes, each goes by the old or by the new table. */
  lemma ExposedOldOrNew(conns: set<Conn>, prog: Programmed, d: Desired, arrive: nat -> seq<Key>, n: nat, c: Conn)
    requires n <= 4 && c in Exposed(conns, prog, d, arrive, n)
    ensures c in conns || Points(c, prog) || Points(c, TablesOf(d))
  {
    var m := ExposedFrom(conns, prog, d, arrive, n, c);
    WherePushed(prog, d, m, c.key);
    hide Where, Pushed, TablesOf, Exposed;
  }

  lemma {:induction false} ExposedKeeps(conns: set<Conn>, prog: Programmed, d: Desired, arrive: nat -> seq<Key>,
                                        n: nat, c: Conn)
    requires n <= 4 && c in conns
    ensures c in Exposed(conns, prog, d, arrive, n)
  {
    if n > 0 {
      ExposedKeeps(conns, prog, d, arrive, n - 1, c);
    }
  }

  lemma {:induction false} ArrivalIsExposed(conns: set<Conn>, prog: Programmed, d: Desired, arrive: nat -> seq<Key>,
                                            m: nat, n: nat, k: Key)
    requires m <= n <= 4 && k in arrive(m)
    ensures Conn(k, Where(Pushed(prog, d, m), k)) in Exposed(conns, prog, d, arrive, n)
    decreases n
  {
    hide Where, Pushed;
    if m < n {
      ArrivalIsExposed(conns, prog, d, arrive, m, n - 1, k);
    } else {
      assert m == 0 ==> Pushed(prog, d, m) == prog by { NothingPushed(prog, d); }
    }
  }

  lemma NothingPushed(prog: Programmed, d: Desired)
    ensures Pushed(prog, d, 0) == prog
  {
  }

  /** With `last` in step with the kernel, every stale translated connection is hit. */
  lemma InSyncHits(prog: Programmed, last: Desired, d: Desired, c: Conn)
    requires InSync(last, prog) && c.target.Some? && Points(c, prog) && !Points(c, TablesOf(d))
    ensures Hit(c, FlushSet(last, d))
  {
    var k := c.key;
    TablesAreDesired(last, k);
    TablesAreDesired(d, k);
    if !Changed(last, d, k) {
      EqualIsCanon(last[k].ip, d[k].ip);
    }
    assert Changed(last, d, k);
    assert c.target.value.0 == Canon(last[k].ip);
  }

  // ---- one apply, on values ------------------------------------------------------

  /** What apply works on: the tracked connections, the entries in the kernel, and `last`. */
  datatype World = World(conns: set<Conn>, prog: Programmed, last: Desired)

  /** One apply of which `n` pushes go through: a failed one stops there, a successful one flushes. */
  ghost predicate Applied(w: World, d: Desired, arrive: nat -> seq<Key>, n: nat, w': World) {
    && n <= 4
    && w'.prog == Pushed(w.prog, d, n)
    && if n < 4 then w'.last == w.last && w'.conns == Exposed(w.conns, w.prog, d, arrive, n)
       else w'.last == d && Reduced(Exposed(w.conns, w.prog, d, arrive, 4), w'.prog, FlushSet(w.last, d), w'.conns)
  }

  /** A connection tracked after an apply was tracked before, arrived during the pushes, or is up to date. */
  lemma AppliedFrom(w: World, d: Desired, arrive: nat -> seq<Key>, n: nat, w': World, c: Conn) returns (m: nat)
    requires Applied(w, d, arrive, n, w') && c in w'.conns && !Points(c, w'.prog)
    ensures m <= n
    ensures c in w.conns || (c.key in arrive(m) && Points(c, Pushed(w.prog, d, m)))
    ensures n == 4 ==> !Hit(c, FlushSet(w.last, d))
  {
    hide Where, Pushed, FlushSet;
    m := ExposedFrom(w.conns, w.prog, d, arrive, n, c);
  }

  /** As long as applies succeed, translated connections stay up to date. */
  lemma SuccessKeepsCurrent(w: World, d: Desired, arrive: nat -> seq<Key>, w': World)
    requires Applied(w, d, arrive, 4, w') && InSync(w.last, w.prog) && Current(w.conns, w.prog) && ProtosKnown(d)
    ensures InSync(w'.last, w'.prog) && Current(w'.conns, w'.prog)
  {
    PushedAll(w.prog, d);
    hide Where, Pushed, TablesOf, FlushSet, Exposed;
    forall c | c in w'.conns && c.target.Some?
      ensures Points(c, w'.prog)
    {
      if !Points(c, w'.prog) {
        assert c in Exposed(w.conns, w.prog, d, arrive, 4) && !Hit(c, FlushSet(w.last, d));
        ExposedOldOrNew(w.conns, w.prog, d, arrive, 4, c);
        InSyncHits(w.prog, w.last, d, c);
        assert false;
      }
    }
  }

  /**
   Untranslated connections are not among them. The apply ends with every connection
   going where its key points exactly when, for the keys `d` has, no untranslated
   connection is tracked, and none arrives for an added key before that key's own push.
   */
  lemma InSyncCompleteIff(w: World, d: Desired, arrive: nat -> seq<Key>, w': World)
    requires Applied(w, d, arrive, 4, w') && InSync(w.last, w.prog) && Current(w.conns, w.prog) && ProtosKnown(d)
    ensures Complete(w'.conns, w'.prog) <==> Undisturbed(w, d, arrive)
  {
    SuccessKeepsCurrent(w, d, arrive, w');
    hide Where, Pushed, TablesOf, FlushSet, Exposed, InSync;
    if Undisturbed(w, d, arrive) {
      forall c | c in w'.conns
        ensures Points(c, w'.prog)
      {
        if !Points(c, w'.prog) {
          StaleIsDisturbance(w, d, arrive, w', c);
        }
      }
    }
    if Complete(w'.conns, w'.prog) {
      forall k | k in d
        ensures UndisturbedAt(w, d, arrive, k)
      {
        if !UndisturbedAt(w, d, arrive, k) {
          DisturbanceIsStale(w, d, arrive, w', k);
        }
      }
    }
  }

  predicate UndisturbedAt(w: World, d: Desired, arrive: nat -> seq<Key>, k: Key) {
    && Conn(k, None) !in w.conns
    && (k !in w.last ==> forall m | 0 <= m < PushNumber(k) :: k !in arrive(m))
  }

  predicate Undisturbed(w: World, d: Desired, arrive: nat -> seq<Key>) {
    forall k | k in d :: UndisturbedAt(w, d, arrive, k)
  }

  lemma StaleIsDisturbance(w: World, d: Desired, arrive: nat -> seq<Key>, w': World, c: Conn)
    requires Applied(w, d, arrive, 4, w') && InSync(w.last, w.prog) && ProtosKnown(d)
    requires c in w'.conns && c.target.None? && !Points(c, w'.prog)
    ensures !Undisturbed(w, d, arrive)
  {
    var k := c.key;
    var m := AppliedFrom(w, d, arrive, 4, w', c);
    WherePushed(w.prog, d, 4, k);
    WherePushed(w.prog, d, m, k);
    TablesAreDesired(d, k);
    TablesAreDesired(w.last, k);
    hide Pushed, TablesOf, FlushSet, Exposed, Applied;
    assert k in d;
    if c !in w.conns {
      assert k !in w.last;
      assert !UndisturbedAt(w, d, arrive, k);
    } else {
      assert c == Conn(k, None);
      assert !UndisturbedAt(w, d, arrive, k);
    }
  }

  lemma DisturbanceIsStale(w: World, d: Desired, arrive: nat -> seq<Key>, w': World, k: Key)
    requires Applied(w, d, arrive, 4, w') && InSync(w.last, w.prog) && ProtosKnown(d)
    requires k in d && !UndisturbedAt(w, d, arrive, k)
    ensures Conn(k, None) in w'.conns && !Points(Conn(k, None), w'.prog)
  {
    TablesAreDesired(d, k);
    TablesAreDesired(w.last, k);
    WherePushed(w.prog, d, 4, k);
    if Conn(k, None) in w.conns {
      ExposedKeeps(w.conns, w.prog, d, arrive, 4, Conn(k, None));
    } else {
      var m: nat :| m < PushNumber(k) && k in arrive(m);
      WherePushed(w.prog, d, m, k);
      ArrivalIsExposed(w.conns, w.prog, d, arrive, m, 4, k);
    }
    hide Pushed, TablesOf, FlushSet, Exposed;
  }

  /** And no apply ever ends an untranslated connection. */
  lemma UntranslatedStays(w: World, d: Desired, arrive: nat -> seq<Key>, n: nat, w': World, c: Conn)
    requires Applied(w, d, arrive, n, w') && c in w.conns && c.target.None?
    ensures c in w'.conns
  {
    ExposedKeeps(w.conns, w.prog, d, arrive, n, c);
    hide Exposed, Pushed, FlushSet;
  }

  /**
   And a success ends no connection to a backend that it leaves alone: one stays when
   every key of the last table for its address has that address and port in the new one.
   */
  lemma UnchangedStays(w: World, d: Desired, arrive: nat -> seq<Key>, w': World, c: Conn)
    requires Applied(w, d, arrive, 4, w') && c in w.conns && c.target.Some?
    requires forall k | k in w.last && Wire(w.last[k].ip) == c.target.value.0 ::
               k in d && d[k].port == w.last[k].port && Wire(d[k].ip) == Wire(w.last[k].ip)
    ensures c in w'.conns
  {
    ExposedKeeps(w.conns, w.prog, d, arrive, 4, c);
    FlushSetExactly(w.last, d, c.target.value.0);
    hide Exposed, Pushed, FlushSet, Wire;
  }

  // ---- runs of applies, on values ----------------------------------------------------

  /** How many of the four pushes of an apply go through. */
  type Count = n: nat | n <= 4 witness 0

  /** A run: one apply after the other, each with connections arriving. */
  ghost predicate Ran(ws: seq<World>, ds: seq<Desired>, arrs: seq<nat -> seq<Key>>, ns: seq<Count>) {
    && |ws| == |ds| + 1 == |arrs| + 1 == |ns| + 1
    && forall i | 0 <= i < |ds| :: Applied(ws[i], ds[i], arrs[i], ns[i], ws[i + 1])
  }

  function ProgAfter(prog: Programmed, ds: seq<Desired>, ns: seq<Count>): Programmed
    requires |ds| == |ns|
  {
    if ds == [] then prog
    else Pushed(ProgAfter(prog, ds[..|ds| - 1], ns[..|ds| - 1]), ds[|ds| - 1], ns[|ds| - 1])
  }

  function LastAfter(last: Desired, ds: seq<Desired>, ns: seq<Count>): Desired
    requires |ds| == |ns|
  {
    if ds == [] then last
    else if ns[|ds| - 1] == 4 then ds[|ds| - 1]
    else LastAfter(last, ds[..|ds| - 1], ns[..|ds| - 1])
  }

  lemma {:induction false} RunState(ws: seq<World>, ds: seq<Desired>, arrs: seq<nat -> seq<Key>>, ns: seq<Count>)
    requires Ran(ws, ds, arrs, ns)
    ensures ws[|ds|].prog == ProgAfter(ws[0].prog, ds, ns) && ws[|ds|].last == LastAfter(ws[0].last, ds, ns)
    decreases |ds|
  {
    if ds != [] {
      var k := |ds| - 1;
      assert Applied(ws[k], ds[k], arrs[k], ns[k], ws[k + 1]);
      InitRan(ws, ds, arrs, ns);
      RunState(ws[..k + 1], ds[..k], arrs[..k], ns[..k]);
      hide Exposed, Pushed, Reduced;
    }
  }

  lemma InitRan(ws: seq<World>, ds: seq<Desired>, arrs: seq<nat -> seq<Key>>, ns: seq<Count>)
    requires Ran(ws, ds, arrs, ns) && ds != []
    ensures var k := |ds| - 1; Ran(ws[..k + 1], ds[..k], arrs[..k], ns[..k])
  {
    var k := |ds| - 1;
    hide Applied;
    forall i | 0 <= i < k
      ensures Applied(ws[..k + 1][i], ds[..k][i], arrs[..k][i], ns[..k][i], ws[..k + 1][i + 1])
    {
      assert Applied(ws[i], ds[i], arrs[i], ns[i], ws[i + 1]);
    }
  }

  lemma RanSnoc(ws: seq<World>, ds: seq<Desired>, arrs: seq<nat -> seq<Key>>, ns: seq<Count>,
                d: Desired, arrive: nat -> seq<Key>, n: Count, w: World)
    requires Ran(ws, ds, arrs, ns) && Applied(ws[|ds|], d, arrive, n, w)
    ensures Ran(ws + [w], ds + [d], arrs + [arrive], ns + [n])
  {
    hide Applied;
    var ws', ds', arrs', ns' := ws + [w], ds + [d], arrs + [arrive], ns + [n];
    forall i | 0 <= i < |ds'|
      ensures Applied(ws'[i], ds'[i], arrs'[i], ns'[i], ws'[i + 1])
    {
      if i < |ds| {
        assert Applied(ws[i], ds[i], arrs[i], ns[i], ws[i + 1]);
        assert ws'[i] == ws[i] && ws'[i + 1] == ws[i + 1] && ds'[i] == ds[i] && arrs'[i] == arrs[i] && ns'[i] == ns[i];
      } else {
        assert ws'[i] == ws[|ds|] && ws'[i + 1] == w && ds'[i] == d && arrs'[i] == arrive && ns'[i] == n;
      }
    }
  }

  /**
   As long as all applies succeed, after each of them the kernel holds `last` and translated
   connections are up to date.
   */
  lemma {:induction false} InSyncRun(ws: seq<World>, ds: seq<Desired>, arrs: seq<nat -> seq<Key>>, ns: seq<Count>)
    requires Ran(ws, ds, arrs, ns) && (forall n | n in ns :: n == 4) && forall d | d in ds :: ProtosKnown(d)
    requires InSync(ws[0].last, ws[0].prog) && Current(ws[0].conns, ws[0].prog)
    ensures InSync(ws[|ds|].last, ws[|ds|].prog) && Current(ws[|ds|].conns, ws[|ds|].prog)
    decreases |ds|
  {
    if ds != [] {
      var k := |ds| - 1;
      InitRan(ws, ds, arrs, ns);
      assert Applied(ws[k], ds[k], arrs[k], ns[k], ws[k + 1]);
      assert ns[k] in ns && ds[k] in ds;
      assert (forall n | n in ns[..k] :: n in ns) && forall d | d in ds[..k] :: d in ds;
      hide Applied, InSync, Current, ProtosKnown;
      InSyncRun(ws[..k + 1], ds[..k], arrs[..k], ns[..k]);
      SuccessKeepsCurrent(ws[k], ds[k], arrs[k], ws[k + 1]);
    }
  }

  /**
   The connections that the run may leave behind: tracked at the start, or sent there
   by the maps of some moment, and hit by no flush since.
   */
  ghost predicate MayHold(w: World, ds: seq<Desired>, ns: seq<Count>, c: Conn)
    requires |ds| == |ns|
    decreases |ds|
  {
    if ds == [] then c in w.conns
    else
      var k := |ds| - 1;
      && (MayHold(w, ds[..k], ns[..k], c) || SentDuring(ProgAfter(w.prog, ds[..k], ns[..k]), ds[k], ns[k], c))
      && (ns[k] == 4 ==> !Hit(c, FlushSet(LastAfter(w.last, ds[..k], ns[..k]), ds[k])))
  }

  lemma MayHoldStep(w: World, ds: seq<Desired>, ns: seq<Count>, c: Conn)
    requires |ds| == |ns| > 0
    ensures var k := |ds| - 1;
            && (MayHold(w, ds, ns, c) <==>
                && (MayHold(w, ds[..k], ns[..k], c) || SentDuring(ProgAfter(w.prog, ds[..k], ns[..k]), ds[k], ns[k], c))
                && (ns[k] == 4 ==> !Hit(c, FlushSet(LastAfter(w.last, ds[..k], ns[..k]), ds[k]))))
            && (ns[k] < 4 ==> LastAfter(w.last, ds, ns) == LastAfter(w.last, ds[..k], ns[..k]))
  {
  }

  /** Some prefix of these pushes sends the connection's key to its target. */
  ghost predicate SentDuring(prog: Programmed, d: Desired, n: Count, c: Conn) {
    exists m: Count | m <= n :: Points(c, Pushed(prog, d, m))
  }

  /** Some run of these applies, with connections arriving somehow, ends with `c` tracked. */
  ghost predicate MayBeTracked(w: World, ds: seq<Desired>, ns: seq<Count>, c: Conn) {
    exists ws: seq<World>, arrs :: Ran(ws, ds, arrs, ns) && ws[0] == w && c in ws[|ds|].conns
  }

  /** Every connection that a run leaves stale is one of them. */
  lemma {:induction false} StaleMayHold(ws: seq<World>, ds: seq<Desired>, arrs: seq<nat -> seq<Key>>, ns: seq<Count>,
                                        c: Conn)
    requires Ran(ws, ds, arrs, ns) && c in ws[|ds|].conns
    ensures MayHold(ws[0], ds, ns, c) || Points(c, ws[|ds|].prog)
    decreases |ds|
  {
    if ds != [] && !Points(c, ws[|ds|].prog) {
      var k := |ds| - 1;
      InitRan(ws, ds, arrs, ns);
      var init := ws[..k + 1];
      RunState(init, ds[..k], arrs[..k], ns[..k]);
      assert init[k] == ws[k] && init[0] == ws[0];
      assert Applied(ws[k], ds[k], arrs[k], ns[k], ws[k + 1]);
      var m := AppliedFrom(ws[k], ds[k], arrs[k], ns[k], ws[k + 1], c);
      hide Applied, Ran, Points, Hit;
      if c in ws[k].conns {
        StaleMayHold(init, ds[..k], arrs[..k], ns[..k], c);
        NothingPushed(ws[k].prog, ds[k]);
        hide Pushed, ProgAfter;
        if Points(c, ws[k].prog) {
          assert Points(c, Pushed(ws[k].prog, ds[k], 0));
        }
      } else {
        hide Pushed, ProgAfter;
        var mc: Count := m;
        assert Points(c, Pushed(ws[k].prog, ds[k], mc));
      }
    }
  }

  /** And each of them is left behind by some run. */
  lemma {:induction false} MayHoldHappens(w: World, ds: seq<Desired>, ns: seq<Count>, c: Conn)
    returns (ws: seq<World>, arrs: seq<nat -> seq<Key>>)
    requires |ds| == |ns| && MayHold(w, ds, ns, c)
    ensures Ran(ws, ds, arrs, ns) && ws[0] == w && c in ws[|ds|].conns
    decreases |ds|
  {
    if ds == [] {
      ws, arrs := [w], [];
    } else {
      var k := |ds| - 1;
      MayHoldStep(w, ds, ns, c);
      hide *;
      assert ds[..k] + [ds[k]] == ds && ns[..k] + [ns[k]] == ns;
      if MayHold(w, ds[..k], ns[..k], c) {
        ws, arrs := MayHoldHappens(w, ds[..k], ns[..k], c);
        ws, arrs := StillHeld(ws, ds[..k], arrs, ns[..k], ds[k], ns[k], c);
      } else {
        ws, arrs := SomeRun(w, ds[..k], ns[..k]);
        ws, arrs := SentHappens(ws, ds[..k], arrs, ns[..k], ds[k], ns[k], c);
      }
    }
  }

  lemma StillHeld(ws: seq<World>, ds: seq<Desired>, arrs: seq<nat -> seq<Key>>, ns: seq<Count>, d: Desired, n: Count,
                  c: Conn)
    returns (ws': seq<World>, arrs': seq<nat -> seq<Key>>)
    requires Ran(ws, ds, arrs, ns) && c in ws[|ds|].conns
    requires n == 4 ==> !Hit(c, FlushSet(LastAfter(ws[0].last, ds, ns), d))
    ensures Ran(ws', ds + [d], arrs', ns + [n]) && ws'[0] == ws[0] && c in ws'[|ds| + 1].conns
  {
    var arrive: nat -> seq<Key> := _ => [];
    RunState(ws, ds, arrs, ns);
    hide *;
    ExposedKeeps(ws[|ds|].conns, ws[|ds|].prog, d, arrive, n, c);
    ws', arrs' := OneMore(ws, ds, arrs, ns, d, arrive, n, c);
  }

  lemma SentHappens(ws: seq<World>, ds: seq<Desired>, arrs: seq<nat -> seq<Key>>, ns: seq<Count>, d: Desired,
                    n: Count, c: Conn)
    returns (ws': seq<World>, arrs': seq<nat -> seq<Key>>)
    requires Ran(ws, ds, arrs, ns) && SentDuring(ProgAfter(ws[0].prog, ds, ns), d, n, c)
    requires n == 4 ==> !Hit(c, FlushSet(LastAfter(ws[0].last, ds, ns), d))
    ensures Ran(ws', ds + [d], arrs', ns + [n]) && ws'[0] == ws[0] && c in ws'[|ds| + 1].conns
  {
    var arrive: nat -> seq<Key> := _ => [c.key];
    RunState(ws, ds, arrs, ns);
    hide *;
    SentIsExposed(ws[|ds|].conns, ws[|ds|].prog, d, n, arrive, c);
    ws', arrs' := OneMore(ws, ds, arrs, ns, d, arrive, n, c);
  }

  lemma OneMore(ws: seq<World>, ds: seq<Desired>, arrs: seq<nat -> seq<Key>>, ns: seq<Count>,
                d: Desired, arrive: nat -> seq<Key>, n: Count, c: Conn)
    returns (ws': seq<World>, arrs': seq<nat -> seq<Key>>)
    requires Ran(ws, ds, arrs, ns)
    requires c in Exposed(ws[|ds|].conns, ws[|ds|].prog, d, arrive, n)
    requires n == 4 ==> !Hit(c, FlushSet(ws[|ds|].last, d))
    ensures Ran(ws', ds + [d], arrs', ns + [n]) && ws'[0] == ws[0] && c in ws'[|ds| + 1].conns
  {
    RanLengths(ws, ds, arrs, ns);
    hide *;
    var w' := Afterwards(ws[|ds|], d, arrive, n);
    HeldAfterwards(ws[|ds|], d, arrive, n, c);
    RanSnoc(ws, ds, arrs, ns, d, arrive, n, w');
    ws', arrs' := ws + [w'], arrs + [arrive];
  }

  lemma RanLengths(ws: seq<World>, ds: seq<Desired>, arrs: seq<nat -> seq<Key>>, ns: seq<Count>)
    requires Ran(ws, ds, arrs, ns)
    ensures |ws| == |ds| + 1 == |arrs| + 1
  {
  }

  lemma SentIsExposed(conns: set<Conn>, prog: Programmed, d: Desired, n: Count, arrive: nat -> seq<Key>, c: Conn)
    requires SentDuring(prog, d, n, c) && forall m :: arrive(m) == [c.key]
    ensures c in Exposed(conns, prog, d, arrive, n)
  {
    var m: Count :| m <= n && Points(c, Pushed(prog, d, m));
    hide Where, Pushed;
    ArrivalIsExposed(conns, prog, d, arrive, m, n, c.key);
    assert c == Conn(c.key, Where(Pushed(prog, d, m), c.key));
  }

  lemma HeldAfterwards(w: World, d: Desired, arrive: nat -> seq<Key>, n: Count, c: Conn)
    requires c in Exposed(w.conns, w.prog, d, arrive, n) && (n == 4 ==> !Hit(c, FlushSet(w.last, d)))
    ensures c in Afterwards(w, d, arrive, n).conns
  {
    hide Exposed, FlushSet, Pushed, Hit;
  }

  /** An apply with no connection arriving while it flushes. */
  function Afterwards(w: World, d: Desired, arrive: nat -> seq<Key>, n: Count): (w': World)
    ensures Applied(w, d, arrive, n, w')
  {
    var exposed := Exposed(w.conns, w.prog, d, arrive, n);
    if n < 4 then World(exposed, Pushed(w.prog, d, n), w.last)
    else World(Spared(exposed, FlushSet(w.last, d)), Pushed(w.prog, d, n), d)
  }

  lemma {:induction false} SomeRun(w: World, ds: seq<Desired>, ns: seq<Count>)
    returns (ws: seq<World>, arrs: seq<nat -> seq<Key>>)
    requires |ds| == |ns|
    ensures Ran(ws, ds, arrs, ns) && ws[0] == w
    decreases |ds|
  {
    ws, arrs := [w], [];
    if ds != [] {
      var k := |ds| - 1;
      ws, arrs := SomeRun(w, ds[..k], ns[..k]);
      hide Applied;
      var arrive: nat -> seq<Key> := _ => [];
      var w' := Afterwards(ws[k], ds[k], arrive, ns[k]);
      RanSnoc(ws, ds[..k], arrs, ns[..k], ds[k], arrive, ns[k], w');
      ws, arrs := ws + [w'], arrs + [arrive];
      assert ds[..k] + [ds[k]] == ds && ns[..k] + [ns[k]] == ns;
    }
  }

  /** Exactly which connections a run of applies, any of them failed, can leave stale. */
  lemma StaleExactly(w: World, ds: seq<Desired>, ns: seq<Count>, c: Conn)
    requires |ds| == |ns| && !Points(c, ProgAfter(w.prog, ds, ns))
    ensures MayBeTracked(w, ds, ns, c) <==> MayHold(w, ds, ns, c)
  {
    if MayBeTracked(w, ds, ns, c) {
      var ws: seq<World>, arrs :| Ran(ws, ds, arrs, ns) && ws[0] == w && c in ws[|ds|].conns;
      StaleMayHold(ws, ds, arrs, ns, c);
      RunState(ws, ds, arrs, ns);
    }
    if MayHold(w, ds, ns, c) {
      var ws, arrs := MayHoldHappens(w, ds, ns, c);
    }
    hide MayHold, Ran, Points;
  }

  // ---- after failures -----------------------------------------------------------------

  /** Every run of these applies ends complete. */
  ghost predicate EndsComplete(w: World, ds: seq<Desired>, ns: seq<Count>)
    requires |ds| == |ns|
  {
    forall c | MayBeTracked(w, ds, ns, c) :: Points(c, ProgAfter(w.prog, ds, ns))
  }

  /** Every run of these applies ends with the translated connections up to date. */
  ghost predicate EndsCurrent(w: World, ds: seq<Desired>, ns: seq<Count>)
    requires |ds| == |ns|
  {
    forall c | MayBeTracked(w, ds, ns, c) && c.target.Some? :: Points(c, ProgAfter(w.prog, ds, ns))
  }

  /** The maps there have been since the start: every prefix of the pushes of every apply. */
  ghost predicate WasProgrammed(prog: Programmed, ds: seq<Desired>, ns: seq<Count>, q: Programmed)
    requires |ds| == |ns|
    decreases |ds|
  {
    if ds == [] then q == prog
    else
      var k := |ds| - 1;
      || WasProgrammed(prog, ds[..k], ns[..k], q)
      || exists m: Count | m <= ns[k] :: q == Pushed(ProgAfter(prog, ds[..k], ns[..k]), ds[k], m)
  }

  /** Nothing of these maps survives the flushes of a step from `last` to `d`, but what `d` has as well. */
  predicate ForgottenAt(q: Programmed, last: Desired, d: Desired, k: Key) {
    Points(Conn(k, Where(q, k)), TablesOf(d)) || Hit(Conn(k, Where(q, k)), FlushSet(last, d))
  }

  ghost predicate SentBefore(prog: Programmed, ds: seq<Desired>, ns: seq<Count>, c: Conn)
    requires |ds| == |ns|
  {
    exists q | WasProgrammed(prog, ds, ns, q) :: Points(c, q)
  }

  /** Without a success in between, connections go by any map state there has been. */
  lemma {:induction false} HeldAfterFailures(w: World, ds: seq<Desired>, ns: seq<Count>, c: Conn)
    requires |ds| == |ns| && (forall n | n in ns :: n < 4) && Complete(w.conns, w.prog)
    ensures LastAfter(w.last, ds, ns) == w.last
    ensures SentBefore(w.prog, ds, ns, c) <==> MayHold(w, ds, ns, c) || Points(c, ProgAfter(w.prog, ds, ns))
    decreases |ds|
  {
    if ds == [] {
      assert WasProgrammed(w.prog, ds, ns, w.prog);
    } else {
      var k := |ds| - 1;
      assert ns[k] in ns && forall n | n in ns[..k] :: n in ns;
      MayHoldStep(w, ds, ns, c);
      hide *;
      HeldAfterFailures(w, ds[..k], ns[..k], c);
      SentBeforeSnoc(w.prog, ds, ns, c);
    }
  }

  lemma SentBeforeSnoc(prog: Programmed, ds: seq<Desired>, ns: seq<Count>, c: Conn)
    requires |ds| == |ns| > 0
    ensures var k := |ds| - 1;
            var before := ProgAfter(prog, ds[..k], ns[..k]);
            && (SentBefore(prog, ds, ns, c) <==>
                SentBefore(prog, ds[..k], ns[..k], c) || SentDuring(before, ds[k], ns[k], c))
            && (Points(c, before) ==> SentDuring(before, ds[k], ns[k], c))
            && (Points(c, ProgAfter(prog, ds, ns)) ==> SentDuring(before, ds[k], ns[k], c))
  {
    var k := |ds| - 1;
    var before := ProgAfter(prog, ds[..k], ns[..k]);
    NothingPushed(before, ds[k]);
    assert Points(c, before) ==> Points(c, Pushed(before, ds[k], 0));
    hide Points, Pushed;
    if SentBefore(prog, ds[..k], ns[..k], c) {
      var q :| WasProgrammed(prog, ds[..k], ns[..k], q) && Points(c, q);
      assert WasProgrammed(prog, ds, ns, q);
    }
    if SentDuring(before, ds[k], ns[k], c) {
      var m: Count :| m <= ns[k] && Points(c, Pushed(before, ds[k], m));
      assert WasProgrammed(prog, ds, ns, Pushed(before, ds[k], m));
    }
  }

  lemma SentDuringSuccess(prog: Programmed, d: Desired, c: Conn)
    ensures SentDuring(prog, d, 4, c) <==> Points(c, prog) || Points(c, TablesOf(d))
  {
    forall m: Count
      ensures Points(c, Pushed(prog, d, m)) ==> Points(c, prog) || Points(c, TablesOf(d))
    {
      WherePushed(prog, d, m, c.key);
    }
    NothingPushed(prog, d);
    PushedAll(prog, d);
    hide Where, Pushed, TablesOf;
    assert Points(c, prog) ==> Points(c, Pushed(prog, d, 0));
    assert Points(c, TablesOf(d)) ==> Points(c, Pushed(prog, d, 4));
  }

  /** The next success leaves a connection behind exactly when it went by an old map and no flush hits it. */
  lemma StaleAfterFailures(w: World, ds: seq<Desired>, ns: seq<Count>, d: Desired, c: Conn)
    requires |ds| == |ns| && (forall n | n in ns :: n < 4) && Complete(w.conns, w.prog)
    ensures ProgAfter(w.prog, ds + [d], ns + [4]) == TablesOf(d)
    ensures !Points(c, TablesOf(d)) ==>
              (MayBeTracked(w, ds + [d], ns + [4], c) <==>
               SentBefore(w.prog, ds, ns, c) && !Hit(c, FlushSet(w.last, d)))
  {
    var ds', ns' := ds + [d], ns + [4];
    assert ds'[..|ds|] == ds && ns'[..|ds|] == ns && ds'[|ds|] == d && ns'[|ds|] == 4;
    PushedAll(ProgAfter(w.prog, ds, ns), d);
    assert ProgAfter(w.prog, ds', ns') == TablesOf(d);
    HeldAfterFailures(w, ds, ns, c);
    SentDuringSuccess(ProgAfter(w.prog, ds, ns), d, c);
    if !Points(c, TablesOf(d)) {
      StaleExactly(w, ds', ns', c);
    }
    hide Points, Pushed, TablesOf, FlushSet, SentBefore, SentDuring, MayBeTracked, Hit;
  }

  /**
   After any number of failed applies the next success leaves nothing stale, whenever
   connections arrive, exactly when every map state since the last success sends every
   key where it points now or to an address that the diff of `last` flushes.
   */
  lemma HistoryDecides(w: World, ds: seq<Desired>, ns: seq<Count>, d: Desired)
    requires |ds| == |ns| && (forall n | n in ns :: n < 4) && Complete(w.conns, w.prog)
    ensures EndsComplete(w, ds + [d], ns + [4]) <==>
            forall q, k | WasProgrammed(w.prog, ds, ns, q) :: ForgottenAt(q, w.last, d, k)
    ensures EndsCurrent(w, ds + [d], ns + [4]) <==>
            forall q, k | WasProgrammed(w.prog, ds, ns, q) && Where(q, k).Some? :: ForgottenAt(q, w.last, d, k)
  {
    forall c {
      StaleAfterFailures(w, ds, ns, d, c);
    }
    hide Where, TablesOf, FlushSet, MayBeTracked, WasProgrammed;
    forall q, k | WasProgrammed(w.prog, ds, ns, q) && !ForgottenAt(q, w.last, d, k)
      ensures MayBeTracked(w, ds + [d], ns + [4], Conn(k, Where(q, k))) && !Points(Conn(k, Where(q, k)), TablesOf(d))
    {
      assert Points(Conn(k, Where(q, k)), q);
    }
    forall c | MayBeTracked(w, ds + [d], ns + [4], c) && !Points(c, TablesOf(d))
      ensures exists q | WasProgrammed(w.prog, ds, ns, q) ::
              c.target == Where(q, c.key) && !ForgottenAt(q, w.last, d, c.key)
    {
      var q :| WasProgrammed(w.prog, ds, ns, q) && Points(c, q);
      assert Conn(c.key, Where(q, c.key)) == c;
    }
  }

  /** The kernel's table of tracked connections, and the destinations it was told to drop. */
  class Conntrack {
    ghost var conns: set<Conn>
    var flushed: seq<Bytes>

    constructor ()
      ensures conns == {} && flushed == []
    {
      conns := {};
      flushed := [];
    }

    /** conntrack.FlushDestination: removes every entry whose destination is `ip`. */
    method FlushDestination(ip: IP)
      modifies this
      ensures ip == [] ==> conns == old(conns) && flushed == old(flushed)
      ensures ip != [] ==> flushed == old(flushed) + [Wire(ip)]
      ensures ip != [] ==> conns == set c | c in old(conns) && (c.target.None? || c.target.value.0 != Wire(ip))
    {
      FormsExactly(ip);
      if ip != [] {
        conns := set c | c in conns && !Hit(c, {Canon(ip)});
        flushed := flushed + [Canon(ip)];
      }
    }

    ghost method Track(prog: Programmed, keys: seq<Key>)
      modifies this`conns
      ensures conns == Arrive(old(conns), prog, keys)
    {
      conns := Arrive(conns, prog, keys);
    }
  }

  predicate PushTaken(d: Desired, refused: nat -> bool, n: nat)
    requires n < 4
  {
    !refused(n) && forall k | k in d && PUSHES[n] == (k.family, k.proto) :: Carries(k.family, d[k])
  }

  lemma EntriesCarried(d: Desired, fam: Family, proto: string)
    ensures (forall p | p in EntriesOf(d, fam, proto) :: Carries(fam, EntriesOf(d, fam, proto)[p])) <==>
            forall k | k in d && (fam, proto) == (k.family, k.proto) :: Carries(k.family, d[k])
  {
    forall k | k in d && (fam, proto) == (k.family, k.proto)
      ensures k.port in EntriesOf(d, fam, proto) && EntriesOf(d, fam, proto)[k.port] == d[k]
    {
      assert k == Key(fam, proto, k.port);
    }
    hide Carries;
  }

  /** `n` pushes go through; when `n` is short of 4, the next one is turned down. */
  ghost predicate PushesTaken(d: Desired, refused: nat -> bool, n: nat) {
    && n <= 4 && (n < 4 ==> !PushTaken(d, refused, n))
    && forall m: nat | m < n :: PushTaken(d, refused, m)
  }

  /** The pushed prefix: maps and connections after the first `n` pushes. */
  ghost predicate AfterPushes(conns0: set<Conn>, prog0: Programmed, d: Desired, arrive: nat -> seq<Key>, n: nat,
                              conns: set<Conn>, prog: Programmed) {
    n <= 4 && prog == Pushed(prog0, d, n) && conns == Exposed(conns0, prog0, d, arrive, n)
  }

  lemma StartPushes(conns0: set<Conn>, prog0: Programmed, d: Desired, arrive: nat -> seq<Key>)
    ensures AfterPushes(conns0, prog0, d, arrive, 0, Arrive(conns0, prog0, arrive(0)), prog0)
  {
  }

  lemma PushStep(conns0: set<Conn>, prog0: Programmed, d: Desired, arrive: nat -> seq<Key>, n: nat, conns: set<Conn>,
                 prog: Programmed)
    requires n < 4 && AfterPushes(conns0, prog0, d, arrive, n, conns, prog)
    ensures KnownProto(PUSHES[n].1)
    ensures var prog' := prog.Put(PUSHES[n].0, PUSHES[n].1, EntriesOf(d, PUSHES[n].0, PUSHES[n].1));
            AfterPushes(conns0, prog0, d, arrive, n + 1, Arrive(conns, prog', arrive(n + 1)), prog')
  {
    hide EntriesOf, Arrive;
  }

  // ---- the flush loop, on values ---------------------------------------------------

  /**
   State of the flush loop: `flushed` is the local set, `f` the calls made so far.
   Connections still on an old target are exactly the ones no flush has reached.
   */
  ghost predicate Flushing(conns0: set<Conn>, prog: Programmed, flushed: set<Bytes>, f: seq<Bytes>, conns: set<Conn>) {
    && Distinct(f) && (forall a :: a in f <==> a in flushed)
    && Reduced(conns0, prog, flushed, conns)
  }

  lemma FlushStart(conns: set<Conn>, prog: Programmed)
    ensures Flushing(conns, prog, {}, [], conns)
  {
  }

  lemma FlushStep(conns0: set<Conn>, prog: Programmed, flushed: set<Bytes>, f: seq<Bytes>, conns: set<Conn>, a: Bytes)
    requires Flushing(conns0, prog, flushed, f, conns) && a !in flushed
    ensures Flushing(conns0, prog, flushed + {a}, f + [a],
                     set c | c in conns && (c.target.None? || c.target.value.0 != a))
  {
  }

  lemma TrackStep(conns0: set<Conn>, prog: Programmed, flushed: set<Bytes>, f: seq<Bytes>, conns: set<Conn>,
                  keys: seq<Key>)
    requires Flushing(conns0, prog, flushed, f, conns)
    ensures Flushing(conns0, prog, flushed, f, Arrive(conns, prog, keys))
  {
  }

  lemma FlushEnd(conns0: set<Conn>, prog: Programmed, flushed: set<Bytes>, f: seq<Bytes>, conns: set<Conn>)
    requires Flushing(conns0, prog, flushed, f, conns)
    ensures Reduced(conns0, prog, flushed, conns) && Distinct(f) && forall a :: a in f <==> a in flushed
  {
  }

  /** The addresses flushed by the keys seen so far. */
  function FlushedBy(last: Desired, desired: Desired, keys: seq<Key>): set<Bytes>
  {
    if keys == [] then {}
    else
      var k := keys[|keys| - 1];
      FlushedBy(last, desired, keys[..|keys| - 1]) + if Changed(last, desired, k) then {Canon(last[k].ip)} else {}
  }

  lemma {:induction false} FlushedByMember(last: Desired, desired: Desired, keys: seq<Key>, a: Bytes)
    ensures a in FlushedBy(last, desired, keys) <==>
            exists k :: k in keys && Changed(last, desired, k) && Canon(last[k].ip) == a
  {
    if keys != [] {
      FlushedByMember(last, desired, keys[..|keys| - 1], a);
      assert keys == keys[..|keys| - 1] + [keys[|keys| - 1]];
    }
  }

  lemma FlushedByNone(last: Desired, desired: Desired, keys: seq<Key>)
    ensures FlushedBy(last, desired, keys[..0]) == {}
  {
  }

  lemma FlushedBySnoc(last: Desired, desired: Desired, keys: seq<Key>, i: nat)
    requires i < |keys|
    ensures var seen, next := FlushedBy(last, desired, keys[..i]), FlushedBy(last, desired, keys[..i + 1]);
            && (!Changed(last, desired, keys[i]) ==> next == seen)
            && (Changed(last, desired, keys[i]) ==> next == seen + {Canon(last[keys[i]].ip)})
            && (Changed(last, desired, keys[i]) && Canon(last[keys[i]].ip) in seen ==> next == seen)
  {
    assert keys[..i + 1][..i] == keys[..i];
    hide Changed, Canon;
  }

  lemma FlushedByAll(last: Desired, desired: Desired, keys: seq<Key>)
    requires Enumerates(keys, last)
    ensures FlushedBy(last, desired, keys) == FlushSet(last, desired)
    ensures forall a ::
              a in FlushedBy(last, desired, keys) <==>
              exists k :: k in last && Wire(last[k].ip) == a &&
                          (k in desired ==> desired[k].port != last[k].port || Wire(desired[k].ip) != a)
  {
    forall a ensures a in FlushedBy(last, desired, keys) <==> a in FlushSet(last, desired) {
      FlushedByMember(last, desired, keys, a);
    }
    forall a {
      FlushSetExactly(last, desired, a);
    }
    hide Wire, Changed, FlushSet, FlushedBy;
  }

  // ---- collecting one map's entries -------------------------------------------------

  function EntriesSeen(d: Desired, keys: seq<Key>, fam: Family, proto: string): Entries {
    if keys == [] then map[]
    else
      var k := keys[|keys| - 1];
      var before := EntriesSeen(d, keys[..|keys| - 1], fam, proto);
      if k in d && k.family == fam && k.proto == proto then before[k.port := d[k]] else before
  }

  lemma {:induction false} EntriesSeenAt(d: Desired, keys: seq<Key>, k: Key)
    ensures var seen := EntriesSeen(d, keys, k.family, k.proto);
            (k.port in seen <==> k in keys && k in d) && (k.port in seen ==> seen[k.port] == d[k])
  {
    if keys != [] {
      EntriesSeenAt(d, keys[..|keys| - 1], k);
      InSnoc(keys, k);
    }
  }

  lemma InSnoc(keys: seq<Key>, k: Key)
    requires keys != []
    ensures k in keys <==> k in keys[..|keys| - 1] || k == keys[|keys| - 1]
  {
    assert keys == keys[..|keys| - 1] + [keys[|keys| - 1]];
  }

  lemma EntriesSeenAll(d: Desired, keys: seq<Key>, fam: Family, proto: string)
    requires Enumerates(keys, d)
    ensures EntriesSeen(d, keys, fam, proto) == EntriesOf(d, fam, proto)
  {
    var seen, all := EntriesSeen(d, keys, fam, proto), EntriesOf(d, fam, proto);
    forall port: uint16
      ensures port in seen <==> port in all
      ensures port in seen ==> seen[port] == all[port]
    {
      EntriesSeenAt(d, keys, Key(fam, proto, port));
    }
  }

  method CollectEntries(desired: Desired, fam: Family, proto: string) returns (entries: Entries)
    ensures entries == EntriesOf(desired, fam, proto)
  {
    var keys := RangeOrder(desired);
    entries := map[];
    for i := 0 to |keys|
      invariant entries == EntriesSeen(desired, keys[..i], fam, proto)
    {
      var k := keys[i];
      assert keys[..i + 1] == keys[..i] + [k];
      if k.family == fam && k.proto == proto {
        entries := entries[k.port := desired[k]];
      }
    }
    assert keys[..|keys|] == keys;
    EntriesSeenAll(desired, keys, fam, proto);
  }

  lemma TakenExactly(d: Desired, turned: nat -> bool, n: nat)
    requires PushesTaken(d, turned, n) && ProtosKnown(d)
    ensures n == 4 <==> (forall m: nat | m < 4 :: !turned(m)) && forall k | k in d :: Carries(k.family, d[k])
  {
    hide Carries;
    if n == 4 {
      AcceptableKeys(d, turned);
      forall m: nat | m < 4
        ensures !turned(m)
      {
        assert PushTaken(d, turned, m);
      }
    } else {
      assert turned(n) || exists k :: k in d && !Carries(k.family, d[k]);
    }
  }

  lemma AcceptableKeys(desired: Desired, refused: nat -> bool)
    requires PushesTaken(desired, refused, 4)
    ensures Usable(desired)
  {
    forall k | k in desired && KnownProto(k.proto)
      ensures Carries(k.family, desired[k])
    {
      var n := (if k.family == V4 then 0 else 2) + (if k.proto == "tcp" then 0 else 1);
      assert PUSHES[n] == (k.family, k.proto);
      assert PushTaken(desired, refused, n);
      hide Carries;
    }
  }

  /** Targets that SetMap has taken. */
  ghost predicate Usable(d: Desired) {
    forall k | k in d && KnownProto(k.proto) :: Carries(k.family, d[k])
  }

  lemma UsableAddress(d: Desired, k: Key)
    requires Usable(d) && ProtosKnown(d) && k in d
    ensures d[k].ip != []
  {
    assert Carries(k.family, d[k]);
  }

  ghost predicate ProtosKnown(d: Desired) {
    forall k | k in d :: KnownProto(k.proto)
  }

  /** The schedule of refusals as the pushes meet it: the kernel's own, and parts that Setup has not built. */
  function Turned(refused: nat -> bool, down: seq<bool>): nat -> bool {
    (n: nat) => refused(n) || (n < |down| && down[n])
  }

  class Reconciler {
    const nat_: Nat.Manager
    const conntrack: Conntrack
    var last: Desired

    constructor (nat_: Nat.Manager, conntrack: Conntrack)
      requires nat_.Valid()
      ensures this.nat_ == nat_ && this.conntrack == conntrack && last == map[] && Valid()
    {
      this.nat_, this.conntrack, this.last := nat_, conntrack, map[];
    }

    ghost predicate Valid()
      reads this, nat_
    {
      nat_.Valid() && Usable(last) && ProtosKnown(last)
    }

    ghost function Now(): World
      reads this, nat_, conntrack
    {
      World(conntrack.conns, nat_.programmed, last)
    }

    /** The pushes that cannot go through because Setup has not built what they need. */
    ghost function Down(): seq<bool>
      reads nat_
    {
      [!nat_.Takes(V4, "tcp"), !nat_.Takes(V4, "udp"), !nat_.Takes(V6, "tcp"), !nat_.Takes(V6, "udp")]
    }

    /**
     apply. `refused(n)` is the kernel turning the n-th push down; `arrive` is the
     schedule of new connections, before and after every call apply makes; `n` is
     the number of pushes that went through.
     */
    method Apply(st: State, refused: nat -> bool, ghost arrive: nat -> seq<Key>)
      returns (ok: bool, ghost order: seq<string>, ghost n: Count)
      requires Valid() && KnownProtos(st)
      modifies this`last, nat_`kernel, nat_`programmed, conntrack
      ensures Valid() && Enumerates(order, st) && Down() == old(Down())
      ensures PushesTaken(DesiredInOrder(st, order), Turned(refused, old(Down())), n) && (ok <==> n == 4)
      // Maps, `last` and connections, for a success and for every failure.
      ensures Applied(old(Now()), DesiredInOrder(st, order), arrive, n, Now())
      ensures last == if ok then DesiredInOrder(st, order) else old(last)
      ensures ok <==>
                (forall m: nat | m < 4 :: !Turned(refused, old(Down()))(m)) &&
                forall k | k in DesiredInOrder(st, order) :: Carries(k.family, DesiredInOrder(st, order)[k])
      // The flushes: none on a failure, otherwise exactly the addresses of changed or vanished keys, each once.
      ensures !ok ==> conntrack.flushed == old(conntrack.flushed)
      ensures ok ==> FlushedOnce(old(conntrack.flushed), conntrack.flushed, FlushSet(old(last), last))
      ensures ok ==> forall a ::
                       a in conntrack.flushed[|old(conntrack.flushed)|..] <==>
                       exists k :: k in old(last) && Wire(old(last)[k].ip) == a &&
                                   (k in last ==> last[k].port != old(last)[k].port || Wire(last[k].ip) != a)
    {
      hide Nat.Manager.Valid, Nat.Manager.Takes, Pushed, TablesOf, EntriesOf, FlushedOnce, FlushSet, Arrive,
        PushTaken, Reduced;
      var desired;
      desired, order := DesiredFromState(st);
      DesiredProtosKnown(st, order);
      ghost var conns0, prog0 := conntrack.conns, nat_.programmed;
      conntrack.Track(nat_.programmed, arrive(0));
      StartPushes(conns0, prog0, desired, arrive);
      ok, n := PushAll(desired, refused, arrive, conns0, prog0);
      TakenExactly(desired, Turned(refused, old(Down())), n);
      if !ok {
        return;
      }
      FlushChanged(desired, arrive);
      AcceptableKeys(desired, Turned(refused, old(Down())));
      last := desired;
    }

    /** The four pushes, in order, with connections arriving after each. */
    method PushAll(desired: Desired, refused: nat -> bool, ghost arrive: nat -> seq<Key>, ghost conns0: set<Conn>,
                   ghost prog0: Programmed)
      returns (ok: bool, ghost n: Count)
      requires nat_.Valid()
      requires AfterPushes(conns0, prog0, desired, arrive, 0, conntrack.conns, nat_.programmed)
      modifies nat_`kernel, nat_`programmed, conntrack`conns
      ensures nat_.Valid() && Down() == old(Down())
      ensures PushesTaken(desired, Turned(refused, old(Down())), n) && (ok <==> n == 4)
      ensures AfterPushes(conns0, prog0, desired, arrive, n, conntrack.conns, nat_.programmed)
    {
      hide Nat.Manager.Valid, Nat.Manager.Takes, AfterPushes, EntriesOf, Carries, Arrive;
      n := 0;
      for i := 0 to 4
        invariant nat_.Valid() && n == i && Down() == old(Down())
        invariant forall m: nat | m < i :: PushTaken(desired, Turned(refused, old(Down())), m)
        invariant AfterPushes(conns0, prog0, desired, arrive, i, conntrack.conns, nat_.programmed)
      {
        PushStep(conns0, prog0, desired, arrive, i, conntrack.conns, nat_.programmed);
        var (fam, proto) := PUSHES[i];
        DownAt(i);
        EntriesCarried(desired, fam, proto);
        var entries := CollectEntries(desired, fam, proto);
        var ranged := RangeOrder(entries);
        var r := nat_.SetMap(fam, proto, entries, ranged, refused(i));
        if r.Err? {
          return false, i;
        }
        conntrack.Track(nat_.programmed, arrive(i + 1));
        n := n + 1;
      }
      return true, 4;
    }

    lemma DownAt(i: nat)
      requires i < 4
      ensures Down()[i] == !nat_.Takes(PUSHES[i].0, PUSHES[i].1)
    {
      hide Nat.Manager.Takes;
    }

    /** The flush loop over the keys of `last`. */
    method FlushChanged(desired: Desired, ghost arrive: nat -> seq<Key>)
      requires Usable(last) && ProtosKnown(last)
      modifies conntrack
      ensures FlushedOnce(old(conntrack.flushed), conntrack.flushed, FlushSet(last, desired))
      ensures forall a ::
                a in conntrack.flushed[|old(conntrack.flushed)|..] <==>
                exists k :: k in last && Wire(last[k].ip) == a &&
                            (k in desired ==> desired[k].port != last[k].port || Wire(desired[k].ip) != a)
      ensures Reduced(old(conntrack.conns), nat_.programmed, FlushSet(last, desired), conntrack.conns)
    {
      hide Flushing, FlushedOnce, Arrive, Reduced, FlushSet, FlushedBy, Distinct, Canon, Equal, Wire, Usable,
        ProtosKnown;
      var keys := RangeOrder(last);
      var flushed: set<Bytes> := {};
      ghost var f: seq<Bytes> := [];
      ghost var conns0, prog := conntrack.conns, nat_.programmed;
      FlushStart(conns0, prog);
      FlushedByNone(last, desired, keys);
      for i := 0 to |keys|
        invariant conntrack.flushed == old(conntrack.flushed) + f
        invariant flushed == FlushedBy(last, desired, keys[..i])
        invariant Flushing(conns0, prog, flushed, f, conntrack.conns)
      {
        var k := keys[i];
        FlushedBySnoc(last, desired, keys, i);
        if k !in desired || !Equal(last[k].ip, desired[k].ip) || last[k].port != desired[k].port {
          var s := Canon(last[k].ip);
          if s !in flushed {
            UsableAddress(last, k);
            FormsExactly(last[k].ip);
            FlushStep(conns0, prog, flushed, f, conntrack.conns, s);
            conntrack.FlushDestination(last[k].ip);
            flushed := flushed + {s};
            f := f + [s];
          }
        }
        TrackStep(conns0, prog, flushed, f, conntrack.conns, arrive(5 + i));
        conntrack.Track(prog, arrive(5 + i));
      }
      assert keys[..|keys|] == keys;
      FlushedByAll(last, desired, keys);
      FlushEnd(conns0, prog, flushed, f, conntrack.conns);
      FlushedOnceIntro(old(conntrack.flushed), f, flushed);
      forall a {
        FlushSetExactly(last, desired, a);
      }
    }
  }

  /** `after` adds to the log exactly the addresses in `addrs`, each once. */
  ghost predicate FlushedOnce(before: seq<Bytes>, after: seq<Bytes>, addrs: set<Bytes>) {
    && |before| <= |after| && after[..|before|] == before && Distinct(after[|before|..])
    && forall a :: a in after[|before|..] <==> a in addrs
  }

  lemma FlushedOnceIntro(before: seq<Bytes>, f: seq<Bytes>, addrs: set<Bytes>)
    requires Distinct(f) && forall a :: a in f <==> a in addrs
    ensures FlushedOnce(before, before + f, addrs)
  {
    assert (before + f)[..|before|] == before && (before + f)[|before|..] == f;
  }

  // ---- runs ------------------------------------------------------------------------

  /** Nothing programmed, nothing remembered, nothing tracked: where a first run starts. */
  lemma FreshInSync()
    ensures InSync(map[], Nat.NOTHING) && Complete({}, Nat.NOTHING)
  {
    forall fam, proto ensures EntriesOf(map[], fam, proto) == map[] {
    }
  }

  /**
   Run: one apply per update, whatever happens to their pushes. As long as every apply
   succeeds, after each of them the kernel holds `last` and every translated connection
   goes where its key points now.
   */
  method Run(r: Reconciler, updates: seq<State>, refused: nat -> nat -> bool, ghost arrive: nat -> nat -> seq<Key>)
    returns (ghost ws: seq<World>, ghost ds: seq<Desired>, ghost arrs: seq<nat -> seq<Key>>, ghost ns: seq<Count>)
    requires r.Valid() && forall st | st in updates :: KnownProtos(st)
    modifies r`last, r.nat_`kernel, r.nat_`programmed, r.conntrack
    ensures r.Valid() && r.Down() == old(r.Down())
    ensures Ran(ws, ds, arrs, ns) && ws[0] == old(r.Now()) && ws[|ds|] == r.Now()
    ensures |ds| == |updates| && forall i | 0 <= i < |ds| ::
              Asked(updates[i], ds[i]) && arrs[i] == arrive(i) &&
                PushesTaken(ds[i], Turned(refused(i), r.Down()), ns[i])
    ensures (forall n | n in ns :: n == 4) && InSync(old(r.last), old(r.nat_.programmed)) &&
            Current(old(r.conntrack.conns), old(r.nat_.programmed)) ==>
              InSync(r.last, r.nat_.programmed) && Current(r.conntrack.conns, r.nat_.programmed)
  {
    hide Nat.Manager.Valid, Nat.Manager.Takes, Current, InSync, Applied, PushesTaken, KnownProtos, Asked, ProtosKnown;
    ws, ds, arrs, ns := [r.Now()], [], [], [];
    for i := 0 to |updates|
      invariant r.Valid() && r.Down() == old(r.Down()) && |ds| == i
      invariant Ran(ws, ds, arrs, ns) && ws[0] == old(r.Now()) && ws[i] == r.Now()
      invariant forall j | 0 <= j < i :: ProtosKnown(ds[j])
      invariant forall j | 0 <= j < i ::
                  Asked(updates[j], ds[j]) && arrs[j] == arrive(j) &&
                    PushesTaken(ds[j], Turned(refused(j), r.Down()), ns[j])
    {
      var ok;
      ghost var order, n;
      ok, order, n := r.Apply(updates[i], refused(i), arrive(i));
      ghost var d := DesiredInOrder(updates[i], order);
      AskedBy(updates[i], order);
      RanSnoc(ws, ds, arrs, ns, d, arrive(i), n, r.Now());
      ws, ds, arrs, ns := ws + [r.Now()], ds + [d], arrs + [arrive(i)], ns + [n];
    }
    if (forall n | n in ns :: n == 4) && InSync(ws[0].last, ws[0].prog) && Current(ws[0].conns, ws[0].prog) {
      InSyncRun(ws, ds, arrs, ns);
    }
  }

  /** `d` is the desired table of `st`, for some order of its backends. */
  ghost predicate Asked(st: State, d: Desired) {
    exists order :: Enumerates(order, st) && d == DesiredInOrder(st, order)
  }

  lemma AskedBy(st: State, order: seq<string>)
    requires Enumerates(order, st) && KnownProtos(st)
    ensures Asked(st, DesiredInOrder(st, order)) && ProtosKnown(DesiredInOrder(st, order))
  {
    DesiredProtosKnown(st, order);
    hide DesiredInOrder;
  }

  // ---- where it fails ----------------------------------------------------------------

  /**
   A failed apply can break it for good: it moved the key to B before being turned
   down, a connection went to B, and going back to A flushes nothing.
   */
  lemma FailedApplyBreaksCompleteness(refused: nat -> bool)
    returns (w: World, d: Desired, arrs: seq<nat -> seq<Key>>, ws: seq<World>, c: Conn)
    requires !refused(0) && refused(1)
    ensures InSync(w.last, w.prog) && w.conns == {} && PushesTaken(d, refused, 1)
    ensures Ran(ws, [d, w.last], arrs, [1, 4]) && ws[0] == w
    ensures c in ws[2].conns && c.target.Some? && !Points(c, ws[2].prog)
  {
    var k := Key(V4, "tcp", 80);
    var last: Desired := map[k := Target([10, 0, 0, 1], 80)];
    d := map[k := Target([10, 0, 0, 2], 80)];
    c := Conn(k, Some(([10, 0, 0, 2], 80)));
    OnePushTaken(d, refused);
    WhereNow(last, k);
    WhereNow(d, k);
    w := World({}, TablesOf(last), last);
    var often: nat -> seq<Key>, never: nat -> seq<Key> := _ => [k], _ => [];
    var w1 := Afterwards(w, d, often, 1);
    var w2 := Afterwards(w1, last, never, 4);
    WherePushed(w.prog, d, 1, k);
    WherePushed(w1.prog, last, 4, k);
    assert PushNumber(k) == 1;
    hide Where, Pushed, TablesOf, EntriesOf, PushTaken, Exposed, FlushSet, PushesTaken;
    ArrivalIsExposed({}, w.prog, d, often, 1, 1, k);
    ExposedKeeps(w1.conns, w1.prog, last, never, 4, c);
    SameFlushesNothing(last);
    ws, arrs := [w, w1, w2], [often, never];
    hide Applied;
    assert Applied(ws[0], d, often, 1, ws[1]) && Applied(ws[1], last, never, 4, ws[2]);
  }

  lemma SameFlushesNothing(d: Desired)
    ensures FlushSet(d, d) == {}
  {
    forall k | k in d {
      EqualIsCanon(d[k].ip, d[k].ip);
    }
    hide Equal, Canon;
  }

  lemma OnePushTaken(d: Desired, refused: nat -> bool)
    requires d == map[Key(V4, "tcp", 80) := Target([10, 0, 0, 2], 80)] && !refused(0) && refused(1)
    ensures PushesTaken(d, refused, 1)
  {
    assert PUSHES[0] == (V4, "tcp");
    assert forall p | p in EntriesOf(d, V4, "tcp") :: Key(V4, "tcp", p) in d;
    assert PushTaken(d, refused, 0) && !PushTaken(d, refused, 1);
  }

  /**
   And a success misses what was never translated: a flow to a port that arrives before
   its backend appears is still untranslated after the apply that adds the key.
   */
  lemma EarlyFlowStaysUntranslated() returns (w: World, d: Desired, arrive: nat -> seq<Key>, w': World, k: Key)
    ensures InSync(w.last, w.prog) && w.conns == {} && Applied(w, d, arrive, 4, w')
    ensures k in d && Conn(k, None) in w'.conns && Where(w'.prog, k).Some?
  {
    k := Key(V4, "udp", 53);
    d := map[k := Target([10, 0, 0, 1], 53)];
    w := World({}, Nat.NOTHING, map[]);
    arrive := (n: nat) => if n == 0 then [k] else [];
    w' := Afterwards(w, d, arrive, 4);
    FreshInSync();
    WhereNow(d, k);
    WherePushed(w.prog, d, 0, k);
    WherePushed(w.prog, d, 4, k);
    TablesAreDesired(w.last, k);
    hide Pushed, TablesOf, EntriesOf, Exposed, FlushSet;
    assert k in arrive(0);
    ArrivalIsExposed({}, w.prog, d, arrive, 0, 4, k);
  }

  lemma WhereNow(d: Desired, k: Key)
    requires KnownProto(k.proto) && k in d
    ensures Where(TablesOf(d), k) == Some((Canon(d[k].ip), d[k].port))
  {
    TablesAreDesired(d, k);
    hide TablesOf;
  }

  /**
   A restart starts with nothing in `last`, so the first apply flushes nothing: it leaves
   nothing stale exactly when the entries still in the kernel send every key where it
   points now.
   */
  lemma FirstApplyAfterRestart(conns: set<Conn>, left: Programmed, d: Desired)
    requires Complete(conns, left)
    ensures EndsComplete(World(conns, left, map[]), [d], [4]) <==> forall k :: Where(left, k) == Where(TablesOf(d), k)
  {
    var w := World(conns, left, map[]);
    hide EndsComplete, Where, TablesOf, Complete;
    HistoryDecides(w, [], [], d);
    assert [] + [d] == [d] && [] + [4] == [4];
    forall q ensures WasProgrammed(left, [], [], q) <==> q == left {
    }
    hide WasProgrammed;
    forall k ensures ForgottenAt(left, map[], d, k) <==> Where(left, k) == Where(TablesOf(d), k) {
      assert FlushSet(map[], d) == {};
    }
    hide ForgottenAt;
  }
}
