/**
 The nftables program that anchord emits for one address family, and the proof
 that running it means the DNAT table it was compiled from.
 */
module NatProgram {
  import opened GoBase
  import opened GoStrings
  import opened NetIP
  import opened NatTypes
  import opened NftVM

  type Entries = map<uint16, Target>

  datatype Config = Config(extIface: Bytes, v6Fib: bool, littleEndian: bool)

  const TCP: byte := 6
  const UDP: byte := 17

  const PREROUTING := "prerouting"
  const POSTROUTING := "postrouting"

  function ProtoNumber(proto: string): byte {
    if proto == "tcp" then TCP else UDP
  }

  function MapName(proto: string): string { "dnat_" + proto }
  function XlatName(proto: string): string { "dnat_xlat_" + proto }

  // ---- the rules -----------------------------------------------------------

  predicate UsesFib(cfg: Config, fam: Family) {
    fam == V4 || cfg.v6Fib
  }

  function GuardExprs(cfg: Config, fam: Family): Rule {
    if UsesFib(cfg, fam) then [Fib(1), Cmp(CmpEq, 1, NE32(cfg.littleEndian, RTN_LOCAL))]
    else [Meta(IifName, 1), Cmp(CmpEq, 1, PadName(cfg.extIface))]
  }

  function ProtoExprs(proto: byte): Rule {
    [Meta(L4Proto, 1), Cmp(CmpEq, 1, [proto])]
  }

  function XlatJump(cfg: Config, fam: Family, proto: string): Rule {
    GuardExprs(cfg, fam) + (ProtoExprs(ProtoNumber(proto)) + [Jump(XlatName(proto))])
  }

  function MapExprs(fam: Family, proto: string): Rule {
    [Payload(1, 2, 2), Lookup(1, 2, MapName(proto)), Nat(NfFamily(fam), 2, 0)]
  }

  function DnatRule(cfg: Config, fam: Family, proto: string): Rule {
    GuardExprs(cfg, fam) + (ProtoExprs(ProtoNumber(proto)) + MapExprs(fam, proto))
  }

  function XlatRule(fam: Family, dmzPort: uint16, addr: Bytes, backendPort: uint16): Rule {
    [Payload(1, 2, 2),
     Cmp(CmpEq, 1, BE16(dmzPort)),
     Immediate(2, addr),
     Immediate(3, BE16(backendPort)),
     Nat(NfFamily(fam), 2, 3)]
  }

  function PreroutingRules(cfg: Config, fam: Family): seq<Rule> {
    [XlatJump(cfg, fam, "tcp"), DnatRule(cfg, fam, "tcp"), XlatJump(cfg, fam, "udp"), DnatRule(cfg, fam, "udp")]
  }

  function HairpinRule(cfg: Config): Rule {
    var le := cfg.littleEndian;
    [Meta(IifName, 1), Cmp(CmpNeq, 1, PadName(cfg.extIface)),
     CtStatus(1), Bitwise(1, 1, 4, NE32(le, 32), NE32(le, 0)), Cmp(CmpNeq, 1, NE32(le, 0)),
     Masq]
  }

  function MasqueradeRule(cfg: Config): Rule {
    [Meta(OifName, 1), Cmp(CmpEq, 1, PadName(cfg.extIface)), Masq]
  }

  function PostroutingRules(cfg: Config): seq<Rule> {
    [HairpinRule(cfg), MasqueradeRule(cfg)]
  }

  // ---- the compiled table ----------------------------------------------------

  /** The address bytes a family can carry; None when the address does not fit it. */
  function IpBytes(fam: Family, ip: IP): (r: Option<Bytes>)
    ensures r.Some? ==> |r.value| == AddrLen(NfFamily(fam))
  {
    if fam == V4 then To4(ip)
    else if To4(ip).Some? then None
    else To16(ip)
  }

  predicate Acceptable(fam: Family, tgt: Target) {
    tgt.port != 0 && IpBytes(fam, tgt.ip).Some?
  }

  predicate AllAcceptable(fam: Family, entries: Entries) {
    forall p | p in entries :: Acceptable(fam, entries[p])
  }

  /** A target that SetMap is to take, by the bytes of its address. */
  predicate Carries(fam: Family, tgt: Target) {
    tgt.port != 0 && if fam == V4 then IsV4(tgt.ip) else IsV6(tgt.ip)
  }

  /** Exactly these are acceptable, and the bytes sent are the address's own. */
  lemma AcceptableExactly(fam: Family, tgt: Target)
    ensures Acceptable(fam, tgt) <==> Carries(fam, tgt)
    ensures Acceptable(fam, tgt) ==> IpBytes(fam, tgt.ip) == Some(Wire(tgt.ip))
  {
    FormsExactly(tgt.ip);
    hide Wire;
  }

  lemma AllCarried(fam: Family, entries: Entries)
    ensures AllAcceptable(fam, entries) <==> forall p | p in entries :: Carries(fam, entries[p])
  {
    forall p | p in entries
      ensures Acceptable(fam, entries[p]) <==> Carries(fam, entries[p])
    {
      AcceptableExactly(fam, entries[p]);
    }
    hide Acceptable, Carries;
  }

  /** Every port of `order` has an entry the family can carry. */
  predicate Handles(fam: Family, entries: Entries, order: seq<uint16>) {
    forall p | p in order :: p in entries && Acceptable(fam, entries[p])
  }

  /** Literal rules for the translating entries, in the order they are met. */
  function XlatRules(fam: Family, entries: Entries, order: seq<uint16>): seq<Rule>
    requires Handles(fam, entries, order)
  {
    if order == [] then []
    else
      var p := order[|order| - 1];
      XlatRules(fam, entries, order[..|order| - 1]) +
        if entries[p].port == p then []
        else [XlatRule(fam, p, IpBytes(fam, entries[p].ip).value, entries[p].port)]
  }

  /** Map elements for the others. */
  function MapElems(fam: Family, entries: Entries, order: seq<uint16>): seq<(Bytes, Bytes)>
    requires Handles(fam, entries, order)
  {
    if order == [] then []
    else
      var p := order[|order| - 1];
      MapElems(fam, entries, order[..|order| - 1]) +
        if entries[p].port == p then [(BE16(p), IpBytes(fam, entries[p].ip).value)] else []
  }

  /** `rules` are the literal rules of `entries`, emitted in some order. */
  ghost predicate XlatCompiled(rules: seq<Rule>, fam: Family, entries: Entries) {
    && AllAcceptable(fam, entries)
    && exists order :: Enumerates(order, entries) && rules == XlatRules(fam, entries, order)
  }

  /** `m` maps exactly the non-translating ports, each to its backend address. */
  ghost predicate MapCompiled(m: NftMap, fam: Family, entries: Entries) {
    && AllAcceptable(fam, entries)
    && forall p: uint16 ::
      && (BE16(p) in m <==> p in entries && entries[p].port == p)
      && (BE16(p) in m ==> m[BE16(p)] == IpBytes(fam, entries[p].ip).value)
  }

  ghost predicate ProtoCompiled(t: Table, fam: Family, proto: string, entries: Entries) {
    && MapName(proto) in t.maps && MapCompiled(t.maps[MapName(proto)], fam, entries)
    && XlatName(proto) in t.chains && XlatCompiled(t.chains[XlatName(proto)], fam, entries)
  }

  /** The base rules of several runs, one block after the other. */
  function PreStack(cfgs: seq<Config>, fam: Family): seq<Rule> {
    if cfgs == [] then [] else PreStack(cfgs[..|cfgs| - 1], fam) + PreroutingRules(cfgs[|cfgs| - 1], fam)
  }

  function PostStack(cfgs: seq<Config>): seq<Rule> {
    if cfgs == [] then [] else PostStack(cfgs[..|cfgs| - 1]) + PostroutingRules(cfgs[|cfgs| - 1])
  }

  /**
   A table as Setup and SetMap leave it for these two entry maps. Every Setup that
   finds the table of an earlier run adds its own block of base rules.
   */
  ghost predicate Layered(t: Table, cfgs: seq<Config>, fam: Family, tcp: Entries, udp: Entries) {
    && PREROUTING in t.chains && t.chains[PREROUTING] == PreStack(cfgs, fam)
    && POSTROUTING in t.chains && t.chains[POSTROUTING] == PostStack(cfgs)
    && ProtoCompiled(t, fam, "tcp", tcp)
    && ProtoCompiled(t, fam, "udp", udp)
  }

  /** Configurations of one host, with interface names as the environment can hold them. */
  predicate OnHost(cfgs: seq<Config>, le: bool) {
    forall c | c in cfgs :: c.littleEndian == le && NulFree(c.extIface)
  }

  // ---- what the program is meant to do ------------------------------------------

  predicate NulFree(s: Bytes) {
    forall i | 0 <= i < |s| :: s[i] != 0
  }

  /** Names the kernel gives interfaces: at most 15 bytes before the NUL. */
  predicate KernelName(s: Bytes) {
    NulFree(s) && |s| <= 15
  }

  predicate Guarded(cfg: Config, fam: Family, pkt: Packet) {
    if UsesFib(cfg, fam) then pkt.dstType == RTN_LOCAL else pkt.iif == cfg.extIface
  }

  function Be16Value(b: Bytes): uint16
    requires |b| == 2
  {
    var hi: int := b[0];
    hi * 256 + b[1]
  }

  /** Bytes 2 and 3 of a TCP or UDP header. */
  function DestPort(pkt: Packet): uint16
    requires |pkt.transport| >= 4
  {
    Be16Value(pkt.transport[2..4])
  }

  function EntriesFor(tcp: Entries, udp: Entries, pkt: Packet): Entries {
    if pkt.l4proto == TCP then tcp else if pkt.l4proto == UDP then udp else map[]
  }

  /** The backend that the table names for this packet's protocol and port, if any. */
  function Named(tcp: Entries, udp: Entries, pkt: Packet): Option<Target> {
    var entries := EntriesFor(tcp, udp, pkt);
    if |pkt.transport| >= 4 && DestPort(pkt) in entries then Some(entries[DestPort(pkt)]) else None
  }

  /** The backend this packet is meant to be sent to, if any. */
  function Wanted(cfg: Config, fam: Family, tcp: Entries, udp: Entries, pkt: Packet): Option<Target> {
    if Guarded(cfg, fam, pkt) then Named(tcp, udp, pkt) else None
  }

  predicate AnyGuarded(cfgs: seq<Config>, fam: Family, pkt: Packet) {
    exists c | c in cfgs :: Guarded(c, fam, pkt)
  }

  /** Where a verdict sends the packet: None when the destination is left alone. */
  function Redirected(pkt: Packet, v: Verdict): Option<(Bytes, uint16)> {
    match v
    case Dnat(addr, Some(port)) => if |port| == 2 then Some((addr, Be16Value(port))) else None
    case Dnat(addr, None) => if |pkt.transport| >= 4 then Some((addr, DestPort(pkt))) else None
    case _ => None
  }

  // ---- encodings --------------------------------------------------------------

  lemma Be16RoundTrip(n: uint16)
    ensures Be16Value(BE16(n)) == n
  {
  }

  lemma Be16Inverse(b: Bytes)
    requires |b| == 2
    ensures BE16(Be16Value(b)) == b
  {
  }

  /** The padded comparison is exact, also for configured names no interface can have. */
  lemma PadNameExact(configured: Bytes, name: Bytes)
    requires NulFree(configured) && KernelName(name)
    ensures PadName(name) == PadName(configured) <==> name == configured
  {
    if PadName(name) == PadName(configured) {
      PadNameAt(configured, |name|);
      PadNameAt(name, |name|);
      PadNameAt(configured, |configured|);
      PadNameAt(name, |configured|);
      assert name == PadName(name)[..|name|];
      assert configured == PadName(configured)[..|name|];
    }
  }

  lemma PadNameAt(name: Bytes, i: nat)
    requires NulFree(name) && i < 16
    ensures PadName(name)[i] != 0 <==> i < |name|
  {
  }

  /** ct status & IPS_DST_NAT is non-zero exactly when bit 5 is set, in either byte order. */
  lemma StatusMaskExact(le: bool, status: uint32)
    ensures MaskXor(NE32(le, status), NE32(le, 32), NE32(le, 0)) != NE32(le, 0) <==> status / 32 % 2 == 1
  {
    assert NE32(le, 32) == if le then [32, 0, 0, 0] else [0, 0, 0, 32];
    assert NE32(le, 0) == [0, 0, 0, 0];
    var k := if le then 0 else 3;
    OneBitMask(NE32(le, status), NE32(le, 32), NE32(le, 0), k);
    assert NE32(le, status)[k] == status % 256;
    LowByteBit(status);
  }

  lemma LowByteBit(n: nat)
    ensures n % 256 / 32 % 2 == n / 32 % 2
  {
    var q, r := n / 256, n % 256;
    var a, b := r / 32, r % 32;
    SplitByte(n, q, r, a, b);
    DivUnique(32, 8 * q + a, b);
    SameParity(4 * q, a);
  }

  lemma SplitByte(n: nat, q: nat, r: nat, a: nat, b: nat)
    requires n == 256 * q + r && r == 32 * a + b
    ensures n == 32 * (8 * q + a) + b && 8 * q + a == 2 * (4 * q) + a
  {
  }

  lemma SameParity(k: nat, a: nat)
    ensures (2 * k + a) % 2 == a % 2
  {
  }

  lemma OneBitMask(src: Bytes, mask: Bytes, zero: Bytes, k: nat)
    requires |src| == |mask| == |zero| == 4 && k < 4 && mask[k] == 32
    requires forall i | 0 <= i < 4 :: zero[i] == 0 && (i != k ==> mask[i] == 0)
    ensures MaskXor(src, mask, zero) != zero <==> src[k] / 32 % 2 == 1
  {
    var r := MaskXor(src, mask, zero);
    MaskXorAt(src, mask, zero);
    LowByteMask(src[k]);
    assert r[k] == XorBits(AndBits(src[k], mask[k]), zero[k]);
    assert forall i | 0 <= i < 4 && i != k :: r[i] == 0;
    if src[k] / 32 % 2 != 1 {
      assert r == zero;
    }
  }

  lemma LowByteMask(b: byte)
    ensures XorBits(AndBits(b, 32), 0) == if b / 32 % 2 == 1 then 32 else 0
  {
    assert Pow2(5) == 32;
    AndSingleBit(b, 5);
  }

  lemma {:induction false} MaskXorAt(src: Bytes, mask: Bytes, xor: Bytes)
    requires |src| == |mask| == |xor|
    ensures forall i | 0 <= i < |src| :: MaskXor(src, mask, xor)[i] == XorBits(AndBits(src[i], mask[i]), xor[i])
  {
    if src != [] {
      MaskXorAt(src[1..], mask[1..], xor[1..]);
    }
  }

  // ---- running rules ---------------------------------------------------------

  lemma Step(t: Table, d: nat, e: Expr, rest: Rule, pkt: Packet, le: bool, regs: Regs)
    requires !e.Jump?
    ensures EvalRule(t, d, [e] + rest, pkt, le, regs) ==
            var o := EvalExpr(t, e, pkt, le, regs);
            if o.Next? then EvalRule(t, d, rest, pkt, le, o.regs) else o
  {
    var rule := [e] + rest;
    assert rule[0] == e && rule[1..] == rest;
  }

  /** Load a value and compare it: the rule goes on exactly when the comparison holds. */
  lemma LoadAndCompare(t: Table, d: nat, load: Expr, value: Bytes, op: CmpOp, data: Bytes, rest: Rule,
                       pkt: Packet, le: bool, regs: Regs) returns (regs': Regs)
    requires !load.Jump? && |value| == |data| <= 16
    requires EvalExpr(t, load, pkt, le, regs) == Next(Write(regs, 1, value))
    ensures EvalRule(t, d, [load, Cmp(op, 1, data)] + rest, pkt, le, regs) ==
            if (value == data) == op.CmpEq? then EvalRule(t, d, rest, pkt, le, regs') else Break(regs')
  {
    regs' := Write(regs, 1, value);
    ReadWritten(regs, 1, value);
    assert [load, Cmp(op, 1, data)] + rest == [load] + ([Cmp(op, 1, data)] + rest);
    Step(t, d, load, [Cmp(op, 1, data)] + rest, pkt, le, regs);
    Step(t, d, Cmp(op, 1, data), rest, pkt, le, regs');
  }

  lemma GuardRuns(t: Table, d: nat, cfg: Config, fam: Family, rest: Rule, pkt: Packet, regs: Regs)
    returns (regs': Regs)
    requires NulFree(cfg.extIface) && KernelName(pkt.iif)
    ensures EvalRule(t, d, GuardExprs(cfg, fam) + rest, pkt, cfg.littleEndian, regs) ==
            if Guarded(cfg, fam, pkt) then EvalRule(t, d, rest, pkt, cfg.littleEndian, regs') else Break(regs')
  {
    var le := cfg.littleEndian;
    if UsesFib(cfg, fam) {
      NE32Injective(le, pkt.dstType, RTN_LOCAL);
      regs' := LoadAndCompare(t, d, Fib(1), NE32(le, pkt.dstType), CmpEq, NE32(le, RTN_LOCAL), rest, pkt, le, regs);
    } else {
      PadNameExact(cfg.extIface, pkt.iif);
      regs' := LoadAndCompare(t, d, Meta(IifName, 1), PadName(pkt.iif), CmpEq, PadName(cfg.extIface), rest, pkt, le,
                              regs);
    }
  }

  predicate Reaches(cfg: Config, fam: Family, proto: string, pkt: Packet) {
    Guarded(cfg, fam, pkt) && pkt.l4proto == ProtoNumber(proto)
  }

  /** Guard and protocol match together, in front of whatever the rule does next. */
  lemma HeadRuns(t: Table, d: nat, cfg: Config, fam: Family, proto: string, rest: Rule, pkt: Packet, regs: Regs)
    returns (regs': Regs)
    requires NulFree(cfg.extIface) && KernelName(pkt.iif)
    ensures EvalRule(t, d, GuardExprs(cfg, fam) + (ProtoExprs(ProtoNumber(proto)) + rest), pkt, cfg.littleEndian,
                     regs) ==
            if Reaches(cfg, fam, proto, pkt) then EvalRule(t, d, rest, pkt, cfg.littleEndian, regs') else Break(regs')
  {
    var n := ProtoNumber(proto);
    regs' := GuardRuns(t, d, cfg, fam, ProtoExprs(n) + rest, pkt, regs);
    if Guarded(cfg, fam, pkt) {
      regs' := LoadAndCompare(t, d, Meta(L4Proto, 1), [pkt.l4proto], CmpEq, [n], rest, pkt, cfg.littleEndian, regs');
    }
  }

  /** An outcome as seen from outside the rule: the verdict, or that control goes on. */
  predicate Gives(o: Outcome, v: Option<Verdict>) {
    if v.Some? then o == Done(v.value) else !o.Done?
  }

  // ---- the map rule --------------------------------------------------------------

  function MapVerdict(fam: Family, entries: Entries, pkt: Packet): Option<Verdict>
    requires AllAcceptable(fam, entries)
  {
    if |pkt.transport| >= 4 && DestPort(pkt) in entries && entries[DestPort(pkt)].port == DestPort(pkt)
    then Some(Dnat(IpBytes(fam, entries[DestPort(pkt)].ip).value, None))
    else None
  }

  lemma MapExprsGive(t: Table, d: nat, fam: Family, proto: string, entries: Entries, pkt: Packet, le: bool, regs: Regs)
    requires ProtoCompiled(t, fam, proto, entries)
    ensures Gives(EvalRule(t, d, MapExprs(fam, proto), pkt, le, regs), MapVerdict(fam, entries, pkt))
  {
    var m := t.maps[MapName(proto)];
    var look, nat_ := Lookup(1, 2, MapName(proto)), Nat(NfFamily(fam), 2, 0);
    assert MapExprs(fam, proto) == [Payload(1, 2, 2)] + ([look] + ([nat_] + []));
    Step(t, d, Payload(1, 2, 2), [look] + ([nat_] + []), pkt, le, regs);
    if |pkt.transport| >= 4 {
      var key := pkt.transport[2..4];
      var r1 := Write(regs, 1, key);
      ReadWritten(regs, 1, key);
      Be16Inverse(key);
      Step(t, d, look, [nat_] + [], pkt, le, r1);
      if key in m {
        ReadWritten(r1, 2, m[key]);
        Step(t, d, nat_, [], pkt, le, Write(r1, 2, m[key]));
      }
    }
  }

  // ---- the translation chain -------------------------------------------------------

  function XlatVerdict(fam: Family, entries: Entries, order: seq<uint16>, pkt: Packet): Option<Verdict>
    requires Handles(fam, entries, order)
  {
    if |pkt.transport| >= 4 && DestPort(pkt) in order && entries[DestPort(pkt)].port != DestPort(pkt)
    then Some(Dnat(IpBytes(fam, entries[DestPort(pkt)].ip).value, Some(BE16(entries[DestPort(pkt)].port))))
    else None
  }

  /** Loading two literals and translating to them. */
  lemma LiteralDnat(t: Table, d: nat, fam: Family, addr: Bytes, port: Bytes, pkt: Packet, le: bool, regs: Regs)
    requires |addr| == AddrLen(NfFamily(fam)) && |port| == 2
    ensures EvalRule(t, d, [Immediate(2, addr), Immediate(3, port), Nat(NfFamily(fam), 2, 3)], pkt, le, regs) ==
            Done(Dnat(addr, Some(port)))
  {
    var a, p, n := Immediate(2, addr), Immediate(3, port), Nat(NfFamily(fam), 2, 3);
    var r2 := Write(regs, 2, addr);
    var r3 := Write(r2, 3, port);
    assert [a, p, n] == [a] + [p, n] && [p, n] == [p] + [n] && [n] == [n] + [];
    Step(t, d, a, [p, n], pkt, le, regs);
    Step(t, d, p, [n], pkt, le, r2);
    Step(t, d, n, [], pkt, le, r3);
    ReadWritten(regs, 2, addr);
    ReadOther(r2, 3, port, 2, |addr|);
    ReadWritten(r2, 3, port);
  }

  lemma XlatRuleGives(t: Table, d: nat, fam: Family, port: uint16, addr: Bytes, backend: uint16,
                      pkt: Packet, le: bool, regs: Regs)
    requires |addr| == AddrLen(NfFamily(fam))
    ensures Gives(EvalRule(t, d, XlatRule(fam, port, addr, backend), pkt, le, regs),
                  if |pkt.transport| >= 4 && DestPort(pkt) == port then Some(Dnat(addr, Some(BE16(backend)))) else None)
  {
    var load, cmp := Payload(1, 2, 2), Cmp(CmpEq, 1, BE16(port));
    var rest := [Immediate(2, addr), Immediate(3, BE16(backend)), Nat(NfFamily(fam), 2, 3)];
    var rule := XlatRule(fam, port, addr, backend);
    assert rule == [load, cmp] + rest;
    if |pkt.transport| >= 4 {
      var key := pkt.transport[2..4];
      Be16Inverse(key);
      Be16RoundTrip(port);
      var r1 := LoadAndCompare(t, d, load, key, CmpEq, BE16(port), rest, pkt, le, regs);
      LiteralDnat(t, d, fam, addr, BE16(backend), pkt, le, r1);
    } else {
      assert rule == [load] + ([cmp] + rest);
      Step(t, d, load, [cmp] + rest, pkt, le, regs);
    }
  }

  lemma {:induction false} ChainConcat(t: Table, d: nat, a: seq<Rule>, b: seq<Rule>, pkt: Packet, le: bool, regs: Regs)
    ensures EvalChain(t, d, a + b, pkt, le, regs) ==
            var o := EvalChain(t, d, a, pkt, le, regs);
            if o.Done? then o else EvalChain(t, d, b, pkt, le, o.regs)
    decreases |a|
  {
    if a == [] {
      assert a + b == b;
    } else {
      assert (a + b)[0] == a[0] && (a + b)[1..] == a[1..] + b;
      var o := EvalRule(t, d, a[0], pkt, le, regs);
      if !o.Done? {
        ChainConcat(t, d, a[1..], b, pkt, le, o.regs);
      }
    }
  }

  lemma SingleRule(t: Table, d: nat, rule: Rule, pkt: Packet, le: bool, regs: Regs, v: Option<Verdict>)
    requires Gives(EvalRule(t, d, rule, pkt, le, regs), v)
    ensures Gives(EvalChain(t, d, [rule], pkt, le, regs), v)
  {
    assert [rule][1..] == [];
  }

  /** The sub-chain answers for every translating port of the map, whatever order its rules are in. */
  lemma {:induction false} XlatChainGives(t: Table, d: nat, fam: Family, entries: Entries, order: seq<uint16>,
                                          pkt: Packet, le: bool, regs: Regs)
    requires Handles(fam, entries, order)
    ensures Gives(EvalChain(t, d, XlatRules(fam, entries, order), pkt, le, regs), XlatVerdict(fam, entries, order, pkt))
    decreases |order|
  {
    if order != [] {
      var init, p := order[..|order| - 1], order[|order| - 1];
      var rules := XlatRules(fam, entries, init);
      XlatChainGives(t, d, fam, entries, init, pkt, le, regs);
      var o := EvalChain(t, d, rules, pkt, le, regs);
      if entries[p].port != p {
        var addr := IpBytes(fam, entries[p].ip).value;
        var last := XlatRule(fam, p, addr, entries[p].port);
        ChainConcat(t, d, rules, [last], pkt, le, regs);
        if !o.Done? {
          XlatRuleGives(t, d, fam, p, addr, entries[p].port, pkt, le, o.regs);
          var v := if |pkt.transport| >= 4 && DestPort(pkt) == p
            then Some(Dnat(addr, Some(BE16(entries[p].port)))) else None;
          SingleRule(t, d, last, pkt, le, o.regs, v);
        }
      } else {
        assert XlatRules(fam, entries, order) == rules;
      }
    }
  }

  // ---- the whole hook -----------------------------------------------------------------

  /** What the jump and the map rule of one protocol give between them. */
  function ProtoVerdict(cfg: Config, fam: Family, proto: string, entries: Entries, pkt: Packet): Option<Verdict>
    requires AllAcceptable(fam, entries)
  {
    if !Reaches(cfg, fam, proto, pkt) || |pkt.transport| < 4 || DestPort(pkt) !in entries then None
    else
      var tgt := entries[DestPort(pkt)];
      Some(Dnat(IpBytes(fam, tgt.ip).value, if tgt.port == DestPort(pkt) then None else Some(BE16(tgt.port))))
  }

  function Either(v: Option<Verdict>, w: Option<Verdict>): Option<Verdict> {
    if v.Some? then v else w
  }

  /** What the jump gives: the translating half of ProtoVerdict. */
  function JumpVerdict(cfg: Config, fam: Family, proto: string, entries: Entries, pkt: Packet): Option<Verdict>
    requires AllAcceptable(fam, entries)
  {
    if MapVerdict(fam, entries, pkt).Some? then None else ProtoVerdict(cfg, fam, proto, entries, pkt)
  }

  /** What the map rule gives: the other half. */
  function MapRuleVerdict(cfg: Config, fam: Family, proto: string, entries: Entries, pkt: Packet): Option<Verdict>
    requires AllAcceptable(fam, entries)
  {
    if Reaches(cfg, fam, proto, pkt) then MapVerdict(fam, entries, pkt) else None
  }

  lemma HalvesMakeProto(cfg: Config, fam: Family, proto: string, entries: Entries, pkt: Packet, rest: Option<Verdict>)
    requires AllAcceptable(fam, entries)
    ensures Either(JumpVerdict(cfg, fam, proto, entries, pkt),
                   Either(MapRuleVerdict(cfg, fam, proto, entries, pkt), rest)) ==
            Either(ProtoVerdict(cfg, fam, proto, entries, pkt), rest)
  {
  }

  lemma XlatCompiledGives(t: Table, d: nat, fam: Family, entries: Entries, rules: seq<Rule>, pkt: Packet, le: bool,
                          regs: Regs)
    requires XlatCompiled(rules, fam, entries)
    ensures Gives(EvalChain(t, d, rules, pkt, le, regs),
                  if |pkt.transport| >= 4 && DestPort(pkt) in entries && entries[DestPort(pkt)].port != DestPort(pkt)
                  then Some(Dnat(IpBytes(fam, entries[DestPort(pkt)].ip).value,
                                 Some(BE16(entries[DestPort(pkt)].port))))
                  else None)
  {
    var order :| Enumerates(order, entries) && rules == XlatRules(fam, entries, order);
    XlatChainGives(t, d, fam, entries, order, pkt, le, regs);
  }

  lemma JumpGives(t: Table, d: nat, cfg: Config, fam: Family, proto: string, entries: Entries, pkt: Packet, regs: Regs)
    requires NulFree(cfg.extIface) && KernelName(pkt.iif) && d > 0
    requires ProtoCompiled(t, fam, proto, entries)
    ensures Gives(EvalRule(t, d, XlatJump(cfg, fam, proto), pkt, cfg.littleEndian, regs),
                  JumpVerdict(cfg, fam, proto, entries, pkt))
  {
    var jump := [Jump(XlatName(proto))];
    var regs' := HeadRuns(t, d, cfg, fam, proto, jump, pkt, regs);
    if Reaches(cfg, fam, proto, pkt) {
      assert jump[0] == Jump(XlatName(proto));
      XlatCompiledGives(t, d - 1, fam, entries, t.chains[XlatName(proto)], pkt, cfg.littleEndian, regs');
    }
  }

  lemma MapRuleGives(t: Table, d: nat, cfg: Config, fam: Family, proto: string, entries: Entries, pkt: Packet,
                     regs: Regs)
    requires NulFree(cfg.extIface) && KernelName(pkt.iif)
    requires ProtoCompiled(t, fam, proto, entries)
    ensures Gives(EvalRule(t, d, DnatRule(cfg, fam, proto), pkt, cfg.littleEndian, regs),
                  MapRuleVerdict(cfg, fam, proto, entries, pkt))
  {
    var regs' := HeadRuns(t, d, cfg, fam, proto, MapExprs(fam, proto), pkt, regs);
    if Reaches(cfg, fam, proto, pkt) {
      MapExprsGive(t, d, fam, proto, entries, pkt, cfg.littleEndian, regs');
    }
  }

  lemma ProtoRulesGive(t: Table, d: nat, cfg: Config, fam: Family, proto: string, entries: Entries, pkt: Packet)
    requires NulFree(cfg.extIface) && KernelName(pkt.iif) && d > 0
    requires ProtoCompiled(t, fam, proto, entries)
    ensures RuleGives(t, d, XlatJump(cfg, fam, proto), pkt, cfg.littleEndian,
                      JumpVerdict(cfg, fam, proto, entries, pkt))
    ensures RuleGives(t, d, DnatRule(cfg, fam, proto), pkt, cfg.littleEndian,
                      MapRuleVerdict(cfg, fam, proto, entries, pkt))
  {
    forall r: Regs {
      JumpGives(t, d, cfg, fam, proto, entries, pkt, r);
    }
    forall r: Regs {
      MapRuleGives(t, d, cfg, fam, proto, entries, pkt, r);
    }
  }

  /** The first verdict among those of successive rules. */
  function FirstOf(vs: seq<Option<Verdict>>): Option<Verdict> {
    if vs == [] then None else if vs[0].Some? then vs[0] else FirstOf(vs[1..])
  }

  ghost predicate RuleGives(t: Table, d: nat, rule: Rule, pkt: Packet, le: bool, v: Option<Verdict>) {
    forall regs: Regs :: Gives(EvalRule(t, d, rule, pkt, le, regs), v)
  }

  lemma {:induction false} ChainGives(t: Table, d: nat, rules: seq<Rule>, vs: seq<Option<Verdict>>, pkt: Packet,
                                      le: bool, regs: Regs)
    requires |rules| == |vs|
    requires forall i | 0 <= i < |rules| :: RuleGives(t, d, rules[i], pkt, le, vs[i])
    ensures Gives(EvalChain(t, d, rules, pkt, le, regs), FirstOf(vs))
    decreases |rules|
  {
    if rules != [] {
      assert RuleGives(t, d, rules[0], pkt, le, vs[0]);
      var o := EvalRule(t, d, rules[0], pkt, le, regs);
      assert Gives(o, vs[0]);
      if !o.Done? {
        forall i | 0 <= i < |rules| - 1
          ensures RuleGives(t, d, rules[1..][i], pkt, le, vs[1..][i])
        {
          assert RuleGives(t, d, rules[i + 1], pkt, le, vs[i + 1]);
        }
        ChainGives(t, d, rules[1..], vs[1..], pkt, le, o.regs);
      }
    }
  }

  function HookVerdict(cfg: Config, fam: Family, tcp: Entries, udp: Entries, pkt: Packet): Option<Verdict>
    requires AllAcceptable(fam, tcp) && AllAcceptable(fam, udp)
  {
    if ProtoVerdict(cfg, fam, "tcp", tcp, pkt).Some? then ProtoVerdict(cfg, fam, "tcp", tcp, pkt)
    else ProtoVerdict(cfg, fam, "udp", udp, pkt)
  }

  /** What a block gives a packet that its guard lets through; the same for every block. */
  function PacketVerdict(fam: Family, tcp: Entries, udp: Entries, pkt: Packet): Option<Verdict>
    requires AllAcceptable(fam, tcp) && AllAcceptable(fam, udp)
  {
    var w := Named(tcp, udp, pkt);
    if w.None? then None
    else Some(Dnat(IpBytes(fam, w.value.ip).value,
                   if w.value.port == DestPort(pkt) then None else Some(BE16(w.value.port))))
  }

  lemma HookIsPacketVerdict(cfg: Config, fam: Family, tcp: Entries, udp: Entries, pkt: Packet)
    requires AllAcceptable(fam, tcp) && AllAcceptable(fam, udp)
    ensures HookVerdict(cfg, fam, tcp, udp, pkt) ==
            if Guarded(cfg, fam, pkt) then PacketVerdict(fam, tcp, udp, pkt) else None
  {
    assert ProtoNumber("udp") == UDP;
    hide IpBytes, Guarded;
  }

  /** One block of prerouting rules. */
  lemma PreroutingGives(t: Table, cfg: Config, fam: Family, tcp: Entries, udp: Entries, pkt: Packet, regs: Regs)
    requires ProtoCompiled(t, fam, "tcp", tcp) && ProtoCompiled(t, fam, "udp", udp)
    requires NulFree(cfg.extIface) && KernelName(pkt.iif)
    ensures Gives(EvalChain(t, JUMP_STACK, PreroutingRules(cfg, fam), pkt, cfg.littleEndian, regs),
                  if Guarded(cfg, fam, pkt) then PacketVerdict(fam, tcp, udp, pkt) else None)
  {
    var le, d := cfg.littleEndian, JUMP_STACK;
    ProtoRulesGive(t, d, cfg, fam, "tcp", tcp, pkt);
    ProtoRulesGive(t, d, cfg, fam, "udp", udp, pkt);
    var v2, v3 := JumpVerdict(cfg, fam, "udp", udp, pkt), MapRuleVerdict(cfg, fam, "udp", udp, pkt);
    FourRulesGive(t, d, PreroutingRules(cfg, fam), pkt, le, regs,
                  JumpVerdict(cfg, fam, "tcp", tcp, pkt), MapRuleVerdict(cfg, fam, "tcp", tcp, pkt), v2, v3);
    HalvesMakeProto(cfg, fam, "tcp", tcp, pkt, Either(v2, v3));
    HalvesMakeProto(cfg, fam, "udp", udp, pkt, None);
    HookIsPacketVerdict(cfg, fam, tcp, udp, pkt);
    hide PacketVerdict, ProtoVerdict, JumpVerdict, MapRuleVerdict, Gives;
  }

  /** All blocks: the first whose guard lets the packet through decides, and all would decide alike. */
  lemma {:induction false} PreStackGives(t: Table, cfgs: seq<Config>, le: bool, fam: Family, tcp: Entries,
                                         udp: Entries, pkt: Packet, regs: Regs)
    requires ProtoCompiled(t, fam, "tcp", tcp) && ProtoCompiled(t, fam, "udp", udp)
    requires OnHost(cfgs, le) && KernelName(pkt.iif)
    ensures Gives(EvalChain(t, JUMP_STACK, PreStack(cfgs, fam), pkt, le, regs),
                  if AnyGuarded(cfgs, fam, pkt) then PacketVerdict(fam, tcp, udp, pkt) else None)
  {
    if cfgs != [] {
      var init, last := cfgs[..|cfgs| - 1], cfgs[|cfgs| - 1];
      assert cfgs == init + [last];
      PreStackGives(t, init, le, fam, tcp, udp, pkt, regs);
      ChainConcat(t, JUMP_STACK, PreStack(init, fam), PreroutingRules(last, fam), pkt, le, regs);
      var o := EvalChain(t, JUMP_STACK, PreStack(init, fam), pkt, le, regs);
      hide ProtoCompiled, PacketVerdict, Guarded, EvalChain, PreroutingRules;
      if !o.Done? {
        PreroutingGives(t, last, fam, tcp, udp, pkt, o.regs);
      }
    }
  }

  lemma FourRulesGive(t: Table, d: nat, rules: seq<Rule>, pkt: Packet, le: bool, regs: Regs,
                      v0: Option<Verdict>, v1: Option<Verdict>, v2: Option<Verdict>, v3: Option<Verdict>)
    requires |rules| == 4
    requires RuleGives(t, d, rules[0], pkt, le, v0) && RuleGives(t, d, rules[1], pkt, le, v1)
    requires RuleGives(t, d, rules[2], pkt, le, v2) && RuleGives(t, d, rules[3], pkt, le, v3)
    ensures Gives(EvalChain(t, d, rules, pkt, le, regs), Either(v0, Either(v1, Either(v2, v3))))
  {
    var vs := [v0, v1, v2, v3];
    ChainGives(t, d, rules, vs, pkt, le, regs);
    FirstOfFour(vs);
  }

  /** The address and port a target stands for on the wire. */
  function Sent(fam: Family, tgt: Option<Target>): Option<(Bytes, uint16)>
    requires tgt.Some? ==> IpBytes(fam, tgt.value.ip).Some?
  {
    if tgt.Some? then Some((IpBytes(fam, tgt.value.ip).value, tgt.value.port)) else None
  }

  /**
   The emitted program, with whatever blocks of earlier runs are still in front of it:
   from any register contents, a packet that some block's guard lets through is sent
   to exactly the address and port its entry names, and every other is left alone.
   */
  lemma PreroutingRedirects(t: Table, cfgs: seq<Config>, le: bool, fam: Family, tcp: Entries, udp: Entries,
                            pkt: Packet, regs: Regs)
    requires Layered(t, cfgs, fam, tcp, udp) && OnHost(cfgs, le) && KernelName(pkt.iif)
    ensures Redirected(pkt, RunHook(t, PREROUTING, pkt, le, regs)) ==
            Sent(fam, if AnyGuarded(cfgs, fam, pkt) then Named(tcp, udp, pkt) else None)
    ensures !AnyGuarded(cfgs, fam, pkt) || Named(tcp, udp, pkt).None? ==>
            RunHook(t, PREROUTING, pkt, le, regs) == Continue
  {
    PreStackGives(t, cfgs, le, fam, tcp, udp, pkt, regs);
    HookGives(t, PREROUTING, PreStack(cfgs, fam), pkt, le, regs,
              if AnyGuarded(cfgs, fam, pkt) then PacketVerdict(fam, tcp, udp, pkt) else None);
    hide RunHook, Layered, PreStack, AnyGuarded, EvalChain, IpBytes;
    PacketVerdictSends(fam, tcp, udp, pkt);
  }

  lemma HookGives(t: Table, chain: string, rules: seq<Rule>, pkt: Packet, le: bool, regs: Regs, v: Option<Verdict>)
    requires chain in t.chains && t.chains[chain] == rules && Gives(EvalChain(t, JUMP_STACK, rules, pkt, le, regs), v)
    ensures RunHook(t, chain, pkt, le, regs) == if v.Some? then v.value else Continue
  {
    hide EvalChain;
  }

  lemma PacketVerdictSends(fam: Family, tcp: Entries, udp: Entries, pkt: Packet)
    requires AllAcceptable(fam, tcp) && AllAcceptable(fam, udp)
    ensures var v := PacketVerdict(fam, tcp, udp, pkt);
            Redirected(pkt, if v.Some? then v.value else Continue) == Sent(fam, Named(tcp, udp, pkt))
    ensures PacketVerdict(fam, tcp, udp, pkt).Some? <==> Named(tcp, udp, pkt).Some?
  {
    var w := Named(tcp, udp, pkt);
    if w.Some? {
      Be16RoundTrip(w.value.port);
    }
    hide IpBytes, BE16, Be16Value, EntriesFor;
  }

  /** With only its own block the program means the table: exactly the guarded packets are redirected. */
  lemma PreroutingMeansTable(t: Table, cfg: Config, fam: Family, tcp: Entries, udp: Entries, pkt: Packet, regs: Regs)
    requires Layered(t, [cfg], fam, tcp, udp)
    requires NulFree(cfg.extIface) && KernelName(pkt.iif)
    ensures Redirected(pkt, RunHook(t, PREROUTING, pkt, cfg.littleEndian, regs)) ==
            Sent(fam, Wanted(cfg, fam, tcp, udp, pkt))
    ensures Wanted(cfg, fam, tcp, udp, pkt).None? ==> RunHook(t, PREROUTING, pkt, cfg.littleEndian, regs) == Continue
  {
    PreroutingRedirects(t, [cfg], cfg.littleEndian, fam, tcp, udp, pkt, regs);
    assert cfg in [cfg];
    hide Layered, RunHook, Guarded;
  }

  lemma FirstOfFour(vs: seq<Option<Verdict>>)
    requires |vs| == 4
    ensures FirstOf(vs) == Either(vs[0], Either(vs[1], Either(vs[2], vs[3])))
  {
    FirstOfTwo(vs[2..]);
    assert vs[1..][1..] == vs[2..];
  }

  lemma FirstOfTwo(vs: seq<Option<Verdict>>)
    requires |vs| == 2
    ensures FirstOf(vs) == if vs[0].Some? then vs[0] else vs[1]
  {
    assert vs[1..][1..] == [];
    assert FirstOf(vs[1..]) == if vs[1].Some? then vs[1] else FirstOf([]);
  }

  // ---- source rewriting ------------------------------------------------------------------

  predicate WasDnatted(pkt: Packet) {
    pkt.ctStatus / 32 % 2 == 1
  }

  function StatusTest(mask: Bytes, zero: Bytes): Rule {
    [CtStatus(1), Bitwise(1, 1, 4, mask, zero), Cmp(CmpNeq, 1, zero), Masq]
  }

  lemma StatusTestGives(t: Table, d: nat, mask: Bytes, zero: Bytes, status: Bytes, pkt: Packet, le: bool, regs: Regs)
    requires |mask| == |zero| == 4 && status == NE32(le, pkt.ctStatus)
    ensures Gives(EvalRule(t, d, StatusTest(mask, zero), pkt, le, regs),
                  if MaskXor(status, mask, zero) != zero then Some(Masquerade) else None)
  {
    var ct, bw := CtStatus(1), Bitwise(1, 1, 4, mask, zero);
    var tail := [bw, Cmp(CmpNeq, 1, zero)] + ([Masq] + []);
    var r1 := Write(regs, 1, status);
    assert StatusTest(mask, zero) == [ct] + tail;
    Step(t, d, ct, tail, pkt, le, regs);
    ReadWritten(regs, 1, status);
    var r2 := LoadAndCompare(t, d, bw, MaskXor(status, mask, zero), CmpNeq, zero, [Masq] + [], pkt, le, r1);
    Step(t, d, Masq, [], pkt, le, r2);
  }

  lemma HairpinGives(t: Table, d: nat, cfg: Config, pkt: Packet, regs: Regs)
    requires NulFree(cfg.extIface) && KernelName(pkt.iif)
    ensures Gives(EvalRule(t, d, HairpinRule(cfg), pkt, cfg.littleEndian, regs),
                  if pkt.iif != cfg.extIface && WasDnatted(pkt) then Some(Masquerade) else None)
  {
    var le := cfg.littleEndian;
    var mask, zero := NE32(le, 32), NE32(le, 0);
    var test := StatusTest(mask, zero);
    assert HairpinRule(cfg) == [Meta(IifName, 1), Cmp(CmpNeq, 1, PadName(cfg.extIface))] + test;
    PadNameExact(cfg.extIface, pkt.iif);
    var r0 := LoadAndCompare(t, d, Meta(IifName, 1), PadName(pkt.iif), CmpNeq, PadName(cfg.extIface), test, pkt, le,
                             regs);
    if pkt.iif != cfg.extIface {
      StatusTestGives(t, d, mask, zero, NE32(le, pkt.ctStatus), pkt, le, r0);
      StatusMaskExact(le, pkt.ctStatus);
    }
  }

  lemma MasqueradeGives(t: Table, d: nat, cfg: Config, pkt: Packet, regs: Regs)
    requires NulFree(cfg.extIface) && KernelName(pkt.oif)
    ensures Gives(EvalRule(t, d, MasqueradeRule(cfg), pkt, cfg.littleEndian, regs),
                  if pkt.oif == cfg.extIface then Some(Masquerade) else None)
  {
    var le := cfg.littleEndian;
    assert MasqueradeRule(cfg) == [Meta(OifName, 1), Cmp(CmpEq, 1, PadName(cfg.extIface))] + ([Masq] + []);
    PadNameExact(cfg.extIface, pkt.oif);
    var r0 := LoadAndCompare(t, d, Meta(OifName, 1), PadName(pkt.oif), CmpEq, PadName(cfg.extIface), [Masq] + [], pkt,
                             le, regs);
    Step(t, d, Masq, [], pkt, le, r0);
  }

  /** The packets whose source one block of postrouting rules rewrites. */
  predicate Rewrites(cfg: Config, pkt: Packet) {
    pkt.oif == cfg.extIface || (WasDnatted(pkt) && pkt.iif != cfg.extIface)
  }

  lemma PostroutingGives(t: Table, cfg: Config, pkt: Packet, regs: Regs)
    requires NulFree(cfg.extIface) && KernelName(pkt.iif) && KernelName(pkt.oif)
    ensures Gives(EvalChain(t, JUMP_STACK, PostroutingRules(cfg), pkt, cfg.littleEndian, regs),
                  if Rewrites(cfg, pkt) then Some(Masquerade) else None)
  {
    var le, d := cfg.littleEndian, JUMP_STACK;
    var rules := PostroutingRules(cfg);
    var vs := [if pkt.iif != cfg.extIface && WasDnatted(pkt) then Some(Masquerade) else None,
               if pkt.oif == cfg.extIface then Some(Masquerade) else None];
    forall r: Regs {
      HairpinGives(t, d, cfg, pkt, r);
    }
    forall r: Regs {
      MasqueradeGives(t, d, cfg, pkt, r);
    }
    assert RuleGives(t, d, rules[0], pkt, le, vs[0]);
    assert RuleGives(t, d, rules[1], pkt, le, vs[1]);
    ChainGives(t, d, rules, vs, pkt, le, regs);
    FirstOfTwo(vs);
  }

  predicate AnyRewrites(cfgs: seq<Config>, pkt: Packet) {
    exists c | c in cfgs :: Rewrites(c, pkt)
  }

  lemma {:induction false} PostStackGives(t: Table, cfgs: seq<Config>, le: bool, pkt: Packet, regs: Regs)
    requires OnHost(cfgs, le) && KernelName(pkt.iif) && KernelName(pkt.oif)
    ensures Gives(EvalChain(t, JUMP_STACK, PostStack(cfgs), pkt, le, regs),
                  if AnyRewrites(cfgs, pkt) then Some(Masquerade) else None)
  {
    if cfgs != [] {
      var init, last := cfgs[..|cfgs| - 1], cfgs[|cfgs| - 1];
      assert cfgs == init + [last];
      PostStackGives(t, init, le, pkt, regs);
      ChainConcat(t, JUMP_STACK, PostStack(init), PostroutingRules(last), pkt, le, regs);
      var o := EvalChain(t, JUMP_STACK, PostStack(init), pkt, le, regs);
      hide Rewrites, EvalChain, PostroutingRules;
      if !o.Done? {
        PostroutingGives(t, last, pkt, o.regs);
      }
    }
  }

  /** The source is rewritten exactly for the packets that some block rewrites. */
  lemma PostroutingRewrites(t: Table, cfgs: seq<Config>, le: bool, fam: Family, tcp: Entries, udp: Entries,
                            pkt: Packet, regs: Regs)
    requires Layered(t, cfgs, fam, tcp, udp) && OnHost(cfgs, le) && KernelName(pkt.iif) && KernelName(pkt.oif)
    ensures RunHook(t, POSTROUTING, pkt, le, regs) == if AnyRewrites(cfgs, pkt) then Masquerade else Continue
  {
    PostStackGives(t, cfgs, le, pkt, regs);
    hide EvalChain, PostStack, AnyRewrites, ProtoCompiled;
  }

  /**
   With only its own block the source is rewritten exactly for packets leaving by the
   external interface and for DNAT'd packets that did not enter by it.
   */
  lemma PostroutingIsExact(t: Table, cfg: Config, fam: Family, tcp: Entries, udp: Entries, pkt: Packet, regs: Regs)
    requires Layered(t, [cfg], fam, tcp, udp)
    requires NulFree(cfg.extIface) && KernelName(pkt.iif) && KernelName(pkt.oif)
    ensures RunHook(t, POSTROUTING, pkt, cfg.littleEndian, regs) ==
            if pkt.oif == cfg.extIface || (pkt.ctStatus / 32 % 2 == 1 && pkt.iif != cfg.extIface) then Masquerade
            else Continue
  {
    PostroutingRewrites(t, [cfg], cfg.littleEndian, fam, tcp, udp, pkt, regs);
    assert cfg in [cfg];
    hide Layered, RunHook;
  }

  // ---- what is left of earlier runs ---------------------------------------------------------

  /** The table does to every packet what the program of `cfg` alone is meant to do. */
  ghost predicate Means(t: Table, cfg: Config, fam: Family, tcp: Entries, udp: Entries)
    requires AllAcceptable(fam, tcp) && AllAcceptable(fam, udp)
  {
    forall pkt: Packet, regs: Regs | KernelName(pkt.iif) && KernelName(pkt.oif) ::
      && Redirected(pkt, RunHook(t, PREROUTING, pkt, cfg.littleEndian, regs)) ==
        Sent(fam, Wanted(cfg, fam, tcp, udp, pkt))
      && RunHook(t, POSTROUTING, pkt, cfg.littleEndian, regs) == if Rewrites(cfg, pkt) then Masquerade else Continue
  }

  /** No packet gets past the guard of `c` that does not get past that of `cfg`. */
  predicate GuardWithin(c: Config, cfg: Config, fam: Family) {
    if UsesFib(c, fam) then UsesFib(cfg, fam)
    else !KernelName(c.extIface) || (!UsesFib(cfg, fam) && c.extIface == cfg.extIface)
  }

  /** No packet has its source rewritten by `c` only. */
  predicate RewritesWithin(c: Config, cfg: Config) {
    c.extIface == cfg.extIface || (!KernelName(c.extIface) && !KernelName(cfg.extIface))
  }

  /** An interface name that is not `name`. */
  function OtherName(name: Bytes): (r: Bytes)
    ensures KernelName(r) && r != name
  {
    if name == [1] then [2] else [1]
  }

  /** The guards as sets of packets: inclusion, or the packet that shows it fails. */
  lemma GuardWithinIff(c: Config, cfg: Config, fam: Family, l4proto: byte, transport: Bytes) returns (pkt: Packet)
    requires NulFree(c.extIface)
    ensures KernelName(pkt.iif) && KernelName(pkt.oif) && pkt.l4proto == l4proto && pkt.transport == transport
    ensures GuardWithin(c, cfg, fam) ==>
            forall p: Packet | KernelName(p.iif) && Guarded(c, fam, p) :: Guarded(cfg, fam, p)
    ensures !GuardWithin(c, cfg, fam) ==> Guarded(c, fam, pkt) && !Guarded(cfg, fam, pkt)
  {
    var iif := if UsesFib(c, fam) || !KernelName(c.extIface) then OtherName(cfg.extIface) else c.extIface;
    pkt := Packet(l4proto, transport, iif, [1], if UsesFib(c, fam) then RTN_LOCAL else 0, 0);
  }

  lemma RewritesWithinIff(c: Config, cfg: Config) returns (pkt: Packet)
    requires NulFree(c.extIface) && NulFree(cfg.extIface)
    ensures KernelName(pkt.iif) && KernelName(pkt.oif)
    ensures RewritesWithin(c, cfg) ==> forall p: Packet | KernelName(p.iif) && KernelName(p.oif) && Rewrites(c, p) ::
            Rewrites(cfg, p)
    ensures !RewritesWithin(c, cfg) ==> Rewrites(c, pkt) && !Rewrites(cfg, pkt)
  {
    if KernelName(c.extIface) {
      pkt := Packet(TCP, [], [1], c.extIface, 0, 0);
    } else {
      pkt := Packet(TCP, [], if KernelName(cfg.extIface) then cfg.extIface else [1], OtherName(cfg.extIface), 0, 32);
    }
  }

  /**
   No block rewrites sources that `cfg` does not and, as soon as there is an entry at
   all, none lets in packets that `cfg` does not.
   */
  predicate Harmless(cfgs: seq<Config>, cfg: Config, fam: Family, tcp: Entries, udp: Entries) {
    && (forall c | c in cfgs :: RewritesWithin(c, cfg))
    && ((tcp == map[] && udp == map[]) || forall c | c in cfgs :: GuardWithin(c, cfg, fam))
  }

  /** The table means the program of `cfg` alone exactly when the other blocks are harmless. */
  lemma LeftoversHarmlessIff(t: Table, cfgs: seq<Config>, cfg: Config, fam: Family, tcp: Entries, udp: Entries)
    requires Layered(t, cfgs, fam, tcp, udp) && OnHost(cfgs, cfg.littleEndian) && cfg in cfgs
    ensures Means(t, cfg, fam, tcp, udp) <==> Harmless(cfgs, cfg, fam, tcp, udp)
  {
    if Means(t, cfg, fam, tcp, udp) {
      MeansHarmless(t, cfgs, cfg, fam, tcp, udp);
    } else if Harmless(cfgs, cfg, fam, tcp, udp) {
      HarmlessMeans(t, cfgs, cfg, fam, tcp, udp);
    }
    hide Means, Harmless, Layered;
  }

  lemma MeansHarmless(t: Table, cfgs: seq<Config>, cfg: Config, fam: Family, tcp: Entries, udp: Entries)
    requires Layered(t, cfgs, fam, tcp, udp) && OnHost(cfgs, cfg.littleEndian) && cfg in cfgs
    requires Means(t, cfg, fam, tcp, udp)
    ensures Harmless(cfgs, cfg, fam, tcp, udp)
  {
    hide Means, Layered, OnHost, RewritesWithin, GuardWithin;
    forall c | c in cfgs ensures RewritesWithin(c, cfg) {
      RewritesMeans(t, cfgs, cfg, fam, tcp, udp, c);
    }
    if !(tcp == map[] && udp == map[]) {
      forall c | c in cfgs ensures GuardWithin(c, cfg, fam) {
        GuardMeans(t, cfgs, cfg, fam, tcp, udp, c);
      }
    }
  }

  lemma HarmlessMeans(t: Table, cfgs: seq<Config>, cfg: Config, fam: Family, tcp: Entries, udp: Entries)
    requires Layered(t, cfgs, fam, tcp, udp) && OnHost(cfgs, cfg.littleEndian) && cfg in cfgs
    requires Harmless(cfgs, cfg, fam, tcp, udp)
    ensures Means(t, cfg, fam, tcp, udp)
  {
    forall pkt: Packet, regs: Regs | KernelName(pkt.iif) && KernelName(pkt.oif)
      ensures Redirected(pkt, RunHook(t, PREROUTING, pkt, cfg.littleEndian, regs)) ==
              Sent(fam, Wanted(cfg, fam, tcp, udp, pkt))
      ensures RunHook(t, POSTROUTING, pkt, cfg.littleEndian, regs) ==
              if Rewrites(cfg, pkt) then Masquerade else Continue
    {
      HarmlessFor(t, cfgs, cfg, fam, tcp, udp, pkt, regs);
    }
    hide RunHook, Layered, Harmless, OnHost, KernelName, Rewrites, Redirected, Sent, Wanted;
  }

  lemma HarmlessFor(t: Table, cfgs: seq<Config>, cfg: Config, fam: Family, tcp: Entries, udp: Entries, pkt: Packet,
                    regs: Regs)
    requires Layered(t, cfgs, fam, tcp, udp) && OnHost(cfgs, cfg.littleEndian) && cfg in cfgs
    requires Harmless(cfgs, cfg, fam, tcp, udp)
    requires KernelName(pkt.iif) && KernelName(pkt.oif)
    ensures Redirected(pkt, RunHook(t, PREROUTING, pkt, cfg.littleEndian, regs)) ==
            Sent(fam, Wanted(cfg, fam, tcp, udp, pkt))
    ensures RunHook(t, POSTROUTING, pkt, cfg.littleEndian, regs) == if Rewrites(cfg, pkt) then Masquerade else Continue
  {
    PreroutingRedirects(t, cfgs, cfg.littleEndian, fam, tcp, udp, pkt, regs);
    PostroutingRewrites(t, cfgs, cfg.littleEndian, fam, tcp, udp, pkt, regs);
    forall c | c in cfgs && Rewrites(c, pkt) ensures Rewrites(cfg, pkt) {
      var _ := RewritesWithinIff(c, cfg);
    }
    if Named(tcp, udp, pkt).Some? {
      forall c | c in cfgs && Guarded(c, fam, pkt) ensures Guarded(cfg, fam, pkt) {
        var _ := GuardWithinIff(c, cfg, fam, TCP, []);
      }
    }
    hide RunHook, Layered, Rewrites, Guarded, RewritesWithin, GuardWithin;
  }

  lemma RewritesMeans(t: Table, cfgs: seq<Config>, cfg: Config, fam: Family, tcp: Entries, udp: Entries, c: Config)
    requires Layered(t, cfgs, fam, tcp, udp) && OnHost(cfgs, cfg.littleEndian) && cfg in cfgs && c in cfgs
    requires Means(t, cfg, fam, tcp, udp)
    ensures RewritesWithin(c, cfg)
  {
    var pkt := RewritesWithinIff(c, cfg);
    var regs: Regs := seq(REG_BYTES, _ => 0);
    PostroutingRewrites(t, cfgs, cfg.littleEndian, fam, tcp, udp, pkt, regs);
    hide RunHook, Layered, Rewrites, RewritesWithin, Sent, Wanted, Redirected;
  }

  lemma GuardMeans(t: Table, cfgs: seq<Config>, cfg: Config, fam: Family, tcp: Entries, udp: Entries, c: Config)
    requires Layered(t, cfgs, fam, tcp, udp) && OnHost(cfgs, cfg.littleEndian) && cfg in cfgs && c in cfgs
    requires Means(t, cfg, fam, tcp, udp) && !(tcp == map[] && udp == map[])
    ensures GuardWithin(c, cfg, fam)
  {
    var p: uint16 :| p in tcp || p in udp;
    var pkt := GuardWithinIff(c, cfg, fam, if p in tcp then TCP else UDP, [0, 0] + BE16(p));
    Be16RoundTrip(p);
    assert pkt.transport[2..4] == BE16(p);
    assert Named(tcp, udp, pkt).Some?;
    var regs: Regs := seq(REG_BYTES, _ => 0);
    PreroutingRedirects(t, cfgs, cfg.littleEndian, fam, tcp, udp, pkt, regs);
    hide RunHook, Layered, Guarded, GuardWithin, Named, IpBytes;
  }
}
