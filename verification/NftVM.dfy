/**
 The register machine that nftables rules run on, as far as anchord's rules use
 it: one file of bytes seen through 16-byte and 4-byte registers, expressions
 that either go on, break off the rule, or end the hook with a verdict, and
 netlink batches that are applied entirely or not at all.
 */
module NftVM {
  import opened GoBase
  import opened GoStrings
  import opened NetIP
  import opened NatTypes

  datatype MetaKey = IifName | OifName | L4Proto
  datatype CmpOp = CmpEq | CmpNeq

  datatype Expr =
    | Fib(dreg: nat)                                    // address type of the destination
    | Meta(key: MetaKey, dreg: nat)
    | Cmp(op: CmpOp, sreg: nat, data: Bytes)
    | Payload(dreg: nat, offset: nat, len: nat)         // transport header bytes
    | Lookup(sreg: nat, dreg: nat, set_: string)
    | Immediate(dreg: nat, data: Bytes)
    | Bitwise(sreg: nat, dreg: nat, len: nat, mask: Bytes, xor: Bytes)
    | CtStatus(dreg: nat)
    | Nat(natFamily: nat, regAddrMin: nat, regProtoMin: nat)   // 0: register not set
    | Masq
    | Jump(chain: string)

  type Rule = seq<Expr>
  type NftMap = map<Bytes, Bytes>

  datatype Table = Table(maps: map<string, NftMap>, chains: map<string, seq<Rule>>)

  /** What the expressions can see of a packet and its connection. */
  datatype Packet = Packet(
    l4proto: byte,
    transport: Bytes,
    iif: Bytes,
    oif: Bytes,
    dstType: uint32,
    ctStatus: uint32)

  datatype Verdict = Continue | Dnat(addr: Bytes, port: Option<Bytes>) | Masquerade

  /** How an expression, rule or chain ends; the registers live on across rules. */
  datatype Outcome = Next(regs: Bytes) | Break(regs: Bytes) | Done(verdict: Verdict)

  // ---- registers -----------------------------------------------------------

  const REG_BYTES := 80
  const RTN_LOCAL: uint32 := 2
  const NFPROTO_IPV4 := 2
  const NFPROTO_IPV6 := 10
  const JUMP_STACK := 16
  const LOOKUP_KEY := 2

  type Regs = r: Bytes | |r| == REG_BYTES witness seq(REG_BYTES, _ => 0)

  /** Registers 1..4 are 16-byte slots; 8..23 are 4-byte slots over the same bytes. */
  function SlotOf(reg: nat): Option<nat> {
    if 1 <= reg <= 4 then Some(16 * reg)
    else if 8 <= reg <= 23 then Some(16 + 4 * (reg - 8))
    else None
  }

  predicate Fits(reg: nat, len: nat) {
    SlotOf(reg).Some? && SlotOf(reg).value + len <= REG_BYTES
  }

  function Read(regs: Regs, reg: nat, len: nat): (r: Bytes)
    requires Fits(reg, len)
    ensures |r| == len
  {
    regs[SlotOf(reg).value..SlotOf(reg).value + len]
  }

  function Write(regs: Regs, reg: nat, data: Bytes): Regs
    requires Fits(reg, |data|)
  {
    var off := SlotOf(reg).value;
    regs[..off] + data + regs[off + |data|..]
  }

  lemma ReadWritten(regs: Regs, reg: nat, data: Bytes)
    requires Fits(reg, |data|)
    ensures Read(Write(regs, reg, data), reg, |data|) == data
  {
  }

  /** Legacy registers do not overlap: a write of at most 16 bytes to one leaves the others. */
  lemma ReadOther(regs: Regs, reg: nat, data: Bytes, other: nat, len: nat)
    requires 1 <= reg <= 4 && 1 <= other <= 4 && reg != other && |data| <= 16 && len <= 16
    ensures Read(Write(regs, reg, data), other, len) == Read(regs, other, len)
  {
  }

  // ---- byte and bit encodings ------------------------------------------------

  function BE16(n: uint16): Bytes {
    [n / 256, n % 256]
  }

  /** A uint32 in the host's own byte order. */
  function NE32(littleEndian: bool, n: uint32): (r: Bytes)
    ensures |r| == 4
  {
    var b0, b1, b2, b3 := n % 256, n / 256 % 256, n / 0x1_0000 % 256, n / 0x100_0000;
    if littleEndian then [b0, b1, b2, b3] else [b3, b2, b1, b0]
  }

  lemma NE32Injective(le: bool, m: uint32, n: uint32)
    ensures NE32(le, m) == NE32(le, n) <==> m == n
  {
    var a, b := NE32(le, m), NE32(le, n);
    if a == b {
      assert forall i | 0 <= i < 4 :: a[i] == b[i];
      assert a[0] == b[0] && a[1] == b[1] && a[2] == b[2] && a[3] == b[3];
      Recombine(m);
      Recombine(n);
    }
  }

  lemma Recombine(n: uint32)
    ensures n == n % 256 + 256 * (n / 256 % 256) + 0x1_0000 * (n / 0x1_0000 % 256) + 0x100_0000 * (n / 0x100_0000)
  {
    assert n / 0x1_0000 == n / 256 / 256;
    assert n / 0x100_0000 == n / 0x1_0000 / 256;
  }

  function AndBits(a: nat, b: nat): (r: nat)
    ensures r <= a
  {
    if a == 0 || b == 0 then 0 else (a % 2) * (b % 2) + 2 * AndBits(a / 2, b / 2)
  }

  function XorBits(a: nat, b: nat): nat {
    if a == 0 then b else if b == 0 then a
    else (if a % 2 == b % 2 then 0 else 1) + 2 * XorBits(a / 2, b / 2)
  }

  lemma {:induction false} XorByte(a: nat, b: nat, k: nat, bound: nat)
    requires bound == Pow2(k) && a < bound && b < bound
    ensures XorBits(a, b) < bound
    decreases k
  {
    if a != 0 && b != 0 {
      XorByte(a / 2, b / 2, k - 1, bound / 2);
    }
  }

  function Pow2(k: nat): (r: nat)
    ensures r > 0
  {
    if k == 0 then 1 else 2 * Pow2(k - 1)
  }

  lemma AndDoubled(a: nat, b: nat)
    ensures AndBits(a, 2 * b) == 2 * AndBits(a / 2, b)
  {
    if a == 0 || b == 0 {
      assert AndBits(a / 2, b) == 0;
    } else {
      assert 2 * b % 2 == 0 && 2 * b / 2 == b;
      assert (a % 2) * 0 == 0;
    }
  }

  /** Masking with a single bit keeps exactly that bit. */
  lemma {:induction false} AndSingleBit(a: nat, k: nat)
    ensures AndBits(a, Pow2(k)) == if a / Pow2(k) % 2 == 1 then Pow2(k) else 0
  {
    if k == 0 {
      assert Pow2(0) == 1;
      assert AndBits(a / 2, 0) == 0;
    } else {
      AndSingleBit(a / 2, k - 1);
      AndDoubled(a, Pow2(k - 1));
      DivTwice(a, Pow2(k - 1));
    }
  }

  lemma DivTwice(a: nat, p: nat)
    requires p > 0
    ensures a / 2 / p == a / (2 * p)
  {
    var q := a / (2 * p);
    var r := a % (2 * p);
    assert a == 2 * p * q + r;
    assert a / 2 == p * q + r / 2;
    assert 0 <= r / 2 < p;
    assert (p * q + r / 2) / p == q by { DivUnique(p, q, r / 2); }
  }

  lemma DivUnique(p: nat, q: nat, r: nat)
    requires r < p
    ensures (p * q + r) / p == q
  {
    var d := (p * q + r) / p;
    var m := (p * q + r) % p;
    assert p * d + m == p * q + r;
    FactorLess(p, d, q + 1);
    FactorLess(p, q, d + 1);
  }

  lemma FactorLess(p: nat, a: int, b: int)
    requires p * a < p * b
    ensures a < b
  {
    assert a >= b ==> p * (a - b) >= 0;
  }

  /** dest = (src AND mask) XOR xor, byte by byte. */
  function MaskXor(src: Bytes, mask: Bytes, xor: Bytes): (r: Bytes)
    requires |src| == |mask| == |xor|
    ensures |r| == |src|
  {
    if src == [] then []
    else
      XorByte(AndBits(src[0], mask[0]), xor[0], 8, 256);
      [XorBits(AndBits(src[0], mask[0]), xor[0])] + MaskXor(src[1..], mask[1..], xor[1..])
  }

  /** A name as it stands in a 16-byte buffer: cut at 16, padded with NULs. */
  function PadName(name: Bytes): (r: Bytes)
    ensures |r| == 16
  {
    if |name| >= 16 then name[..16] else name + seq(16 - |name|, _ => 0)
  }

  // ---- evaluation -------------------------------------------------------------

  function MetaValue(key: MetaKey, pkt: Packet): (r: Bytes)
    ensures |r| <= 16
  {
    match key
    case IifName => PadName(pkt.iif)
    case OifName => PadName(pkt.oif)
    case L4Proto => [pkt.l4proto]
  }

  function AddrLen(natFamily: nat): nat {
    if natFamily == NFPROTO_IPV6 then 16 else 4
  }

  /** The registers an expression names exist and are wide enough; the kernel checks this at commit. */
  predicate ValidExpr(e: Expr, tableFamily: nat) {
    match e
    case Fib(d) => Fits(d, 4)
    case Meta(_, d) => Fits(d, 16)
    case Cmp(_, s, data) => Fits(s, |data|)
    case Payload(d, _, len) => Fits(d, len)
    case Lookup(s, d, _) => Fits(s, LOOKUP_KEY) && Fits(d, AddrLen(tableFamily))
    case Immediate(d, data) => Fits(d, |data|)
    case Bitwise(s, d, len, mask, xor) => Fits(s, len) && Fits(d, len) && |mask| == len == |xor|
    case CtStatus(d) => Fits(d, 4)
    case Nat(f, a, p) => f == tableFamily && Fits(a, AddrLen(f)) && (p != 0 ==> Fits(p, 2))
    case Masq => true
    case Jump(_) => true
  }

  predicate ValidRule(rule: Rule, tableFamily: nat) {
    forall i | 0 <= i < |rule| :: ValidExpr(rule[i], tableFamily)
  }

  /** One expression other than a jump. An invalid one cannot be committed; it breaks here. */
  function EvalExpr(t: Table, e: Expr, pkt: Packet, le: bool, regs: Regs): (r: Outcome)
    ensures !r.Done? ==> |r.regs| == REG_BYTES
  {
    match e
    case Fib(d) => if Fits(d, 4) then Next(Write(regs, d, NE32(le, pkt.dstType))) else Break(regs)
    case Meta(k, d) => if Fits(d, 16) then Next(Write(regs, d, MetaValue(k, pkt))) else Break(regs)
    case Cmp(op, s, data) =>
      if Fits(s, |data|) && ((Read(regs, s, |data|) == data) == op.CmpEq?) then Next(regs) else Break(regs)
    case Payload(d, off, len) =>
      if Fits(d, len) && off + len <= |pkt.transport| then Next(Write(regs, d, pkt.transport[off..off + len]))
      else Break(regs)
    case Lookup(s, d, name) =>
      if Fits(s, LOOKUP_KEY) && name in t.maps then
        var key := Read(regs, s, LOOKUP_KEY);
        if key in t.maps[name] && Fits(d, |t.maps[name][key]|) then Next(Write(regs, d, t.maps[name][key]))
        else Break(regs)
      else Break(regs)
    case Immediate(d, data) => if Fits(d, |data|) then Next(Write(regs, d, data)) else Break(regs)
    case Bitwise(s, d, len, mask, xor) =>
      if Fits(s, len) && Fits(d, len) && |mask| == len == |xor|
      then Next(Write(regs, d, MaskXor(Read(regs, s, len), mask, xor)))
      else Break(regs)
    case CtStatus(d) => if Fits(d, 4) then Next(Write(regs, d, NE32(le, pkt.ctStatus))) else Break(regs)
    case Nat(f, a, p) =>
      if Fits(a, AddrLen(f)) && (p != 0 ==> Fits(p, 2))
      then Done(Dnat(Read(regs, a, AddrLen(f)), if p != 0 then Some(Read(regs, p, 2)) else None))
      else Break(regs)
    case Masq => Done(Masquerade)
    case Jump(_) => Break(regs)
  }

  /** The expressions of a rule in turn. A jump's target returning sends control to the next rule. */
  function EvalRule(t: Table, depth: nat, rule: Rule, pkt: Packet, le: bool, regs: Regs): (r: Outcome)
    ensures !r.Done? ==> |r.regs| == REG_BYTES
    decreases depth, 0, |rule|
  {
    if rule == [] then Next(regs)
    else if rule[0].Jump? then
      if depth > 0 && rule[0].chain in t.chains then
        match EvalChain(t, depth - 1, t.chains[rule[0].chain], pkt, le, regs)
        case Done(v) => Done(v)
        case Next(r) => Break(r)
        case Break(r) => Break(r)
      else Break(regs)
    else
      match EvalExpr(t, rule[0], pkt, le, regs)
      case Next(r) => EvalRule(t, depth, rule[1..], pkt, le, r)
      case stop => stop
  }

  /** The rules of a chain in turn, until one gives a verdict. */
  function EvalChain(t: Table, depth: nat, rules: seq<Rule>, pkt: Packet, le: bool, regs: Regs): (r: Outcome)
    ensures !r.Done? ==> |r.regs| == REG_BYTES
    decreases depth, 1, |rules|
  {
    if rules == [] then Next(regs)
    else
      match EvalRule(t, depth, rules[0], pkt, le, regs)
      case Done(v) => Done(v)
      case other => EvalChain(t, depth, rules[1..], pkt, le, other.regs)
  }

  /** A base chain; the chain policy is accept. */
  function RunHook(t: Table, chain: string, pkt: Packet, le: bool, regs: Regs): Verdict {
    if chain in t.chains then
      match EvalChain(t, JUMP_STACK, t.chains[chain], pkt, le, regs)
      case Done(v) => v
      case _ => Continue
    else Continue
  }

  // ---- batches ------------------------------------------------------------------

  datatype TableId = TableId(family: Family, name: string)
  type Ruleset = map<TableId, Table>

  datatype Op =
    | DelTable(table: TableId)
    | AddTable(table: TableId)
    | AddMap(table: TableId, name: string)
    | AddChain(table: TableId, name: string)
    | AddRule(table: TableId, chain: string, rule: Rule)
    | FlushSet(table: TableId, name: string)
    | FlushChain(table: TableId, name: string)
    | AddElements(table: TableId, name: string, elems: seq<(Bytes, Bytes)>)

  function NfFamily(f: Family): nat {
    if f == V6 then NFPROTO_IPV6 else NFPROTO_IPV4
  }

  /** Adding elements: sizes must match the set, and a key may not get a second value. */
  function InsertElems(m: NftMap, elems: seq<(Bytes, Bytes)>, valueLen: nat): Option<NftMap> {
    if elems == [] then Some(m)
    else
      match InsertElems(m, elems[..|elems| - 1], valueLen)
      case None => None
      case Some(m') =>
        var (k, v) := elems[|elems| - 1];
        if |k| != LOOKUP_KEY || |v| != valueLen || (k in m' && m'[k] != v) then None else Some(m'[k := v])
  }

  function ApplyOp(rs: Ruleset, op: Op): Option<Ruleset> {
    if op.AddTable? then Some(if op.table in rs then rs else rs[op.table := Table(map[], map[])])
    else if op.table !in rs then None
    else
      var t := rs[op.table];
      match op
      case DelTable(id) => Some(rs - {id})
      case AddTable(_) => None
      case AddMap(id, n) => Some(rs[id := if n in t.maps then t else t.(maps := t.maps[n := map[]])])
      case AddChain(id, n) => Some(rs[id := if n in t.chains then t else t.(chains := t.chains[n := []])])
      case AddRule(id, n, r) =>
        if n in t.chains && ValidRule(r, NfFamily(id.family))
        then Some(rs[id := t.(chains := t.chains[n := t.chains[n] + [r]])])
        else None
      case FlushSet(id, n) =>
        if n in t.maps then Some(rs[id := t.(maps := t.maps[n := map[]])]) else None
      case FlushChain(id, n) =>
        if n in t.chains then Some(rs[id := t.(chains := t.chains[n := []])]) else None
      case AddElements(id, n, elems) =>
        if n !in t.maps then None
        else
          match InsertElems(t.maps[n], elems, AddrLen(NfFamily(id.family)))
          case None => None
          case Some(m) => Some(rs[id := t.(maps := t.maps[n := m])])
  }

  /** A batch is one transaction: None means the kernel refused it and nothing changed. */
  function ApplyBatch(rs: Ruleset, ops: seq<Op>): Option<Ruleset> {
    if ops == [] then Some(rs)
    else
      match ApplyBatch(rs, ops[..|ops| - 1])
      case None => None
      case Some(rs') => ApplyOp(rs', ops[|ops| - 1])
  }

  lemma BatchSnoc(rs: Ruleset, ops: seq<Op>, op: Op)
    ensures ApplyBatch(rs, ops + [op]) ==
            if ApplyBatch(rs, ops).Some? then ApplyOp(ApplyBatch(rs, ops).value, op) else None
  {
    assert (ops + [op])[..|ops + [op]| - 1] == ops;
  }
}
