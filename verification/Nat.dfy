/** nat.Manager: installs the base program and replaces one (family, protocol) at a time. */
module Nat {
  import opened GoBase
  import opened GoStrings
  import opened NetIP
  import opened NatTypes
  import opened NftVM
  import opened NatProgram

  /** The entries last programmed for each (family, protocol). */
  datatype Programmed = Programmed(v4tcp: Entries, v4udp: Entries, v6tcp: Entries, v6udp: Entries) {
    function Get(fam: Family, proto: string): Entries {
      if fam == V4 then if proto == "tcp" then v4tcp else v4udp
      else if proto == "tcp" then v6tcp else v6udp
    }

    function Put(fam: Family, proto: string, e: Entries): Programmed {
      if fam == V4 then if proto == "tcp" then this.(v4tcp := e) else this.(v4udp := e)
      else if proto == "tcp" then this.(v6tcp := e) else this.(v6udp := e)
    }
  }

  const NOTHING := Programmed(map[], map[], map[], map[])

  function TableOf(fam: Family): TableId {
    TableId(fam, if fam == V4 then "anchord_v4" else "anchord_v6")
  }

  /** Per family the configurations whose blocks of base rules are in the table, oldest first. */
  datatype Layers = Layers(v4: seq<Config>, v6: seq<Config>) {
    function Get(fam: Family): seq<Config> {
      if fam == V4 then v4 else v6
    }

    function Add(cfg: Config): Layers {
      Layers(v4 + [cfg], v6 + [cfg])
    }
  }

  const NO_LAYERS := Layers([], [])

  /** Both tables hold the compiled entries of `prog` under these blocks of base rules. */
  ghost predicate Implements(rs: Ruleset, layers: Layers, prog: Programmed) {
    Holds(rs, layers, prog, V4) && Holds(rs, layers, prog, V6)
  }

  ghost predicate Holds(rs: Ruleset, layers: Layers, prog: Programmed, fam: Family) {
    if TableOf(fam) in rs
    then Layered(rs[TableOf(fam)], layers.Get(fam), fam, prog.Get(fam, "tcp"), prog.Get(fam, "udp"))
    else layers.Get(fam) == [] && prog.Get(fam, "tcp") == map[] && prog.Get(fam, "udp") == map[]
  }

  // ---- batches -----------------------------------------------------------------

  lemma {:induction false} BatchConcat(rs: Ruleset, a: seq<Op>, b: seq<Op>)
    ensures ApplyBatch(rs, a + b) ==
            if ApplyBatch(rs, a).Some? then ApplyBatch(ApplyBatch(rs, a).value, b) else None
    decreases |b|
  {
    if b == [] {
      assert a + b == a;
    } else {
      var init, last := b[..|b| - 1], b[|b| - 1];
      BatchConcat(rs, a, init);
      assert a + b == (a + init) + [last];
      BatchSnoc(rs, a + init, last);
    }
  }

  /** The four deletions that Setup starts with: both names, in both families. */
  function WipeOps(): seq<Op> {
    [DelTable(TableId(V4, "anchord_v4")), DelTable(TableId(V6, "anchord_v4")),
     DelTable(TableId(V4, "anchord_v6")), DelTable(TableId(V6, "anchord_v6"))]
  }

  predicate AllFour(rs: Ruleset) {
    && TableId(V4, "anchord_v4") in rs && TableId(V6, "anchord_v4") in rs
    && TableId(V4, "anchord_v6") in rs && TableId(V6, "anchord_v6") in rs
  }

  /** Deleting a table that is not there fails the whole batch, so the wipe needs all four. */
  lemma WipeNeedsAllFour(rs: Ruleset)
    ensures ApplyBatch(rs, WipeOps()).Some? <==> AllFour(rs)
    ensures AllFour(rs) ==> TableOf(V4) !in Wiped(rs) && TableOf(V6) !in Wiped(rs)
    ensures !AllFour(rs) ==> Wiped(rs) == rs
  {
    var ops := WipeOps();
    assert ops[..3] == [ops[0], ops[1], ops[2]] && ops[..3][..2] == [ops[0], ops[1]];
    assert ops[..3][..2][..1] == [ops[0]] && ops[..3][..2][..1][..0] == [];
    assert ApplyBatch(rs, [ops[0]]) == ApplyOp(rs, ops[0]);
    assert ApplyBatch(rs, [ops[0], ops[1]]).Some? <==>
      TableId(V4, "anchord_v4") in rs && TableId(V6, "anchord_v4") in rs;
  }

  /** What is left after the wipe, whose failure is ignored. */
  function Wiped(rs: Ruleset): Ruleset {
    ApplyBatch(rs, WipeOps()).GetOr(rs)
  }

  // ---- installing -----------------------------------------------------------------

  function MapsOps(fam: Family): seq<Op> {
    [AddMap(TableOf(fam), MapName("tcp")), AddMap(TableOf(fam), MapName("udp"))]
  }

  function XlatOps(fam: Family): seq<Op> {
    [AddChain(TableOf(fam), XlatName("tcp")), AddChain(TableOf(fam), XlatName("udp"))]
  }

  function RuleOps(id: TableId, chain: string, rules: seq<Rule>): seq<Op> {
    if rules == [] then []
    else RuleOps(id, chain, rules[..|rules| - 1]) + [AddRule(id, chain, rules[|rules| - 1])]
  }

  lemma RuleOpsSnoc(id: TableId, chain: string, rules: seq<Rule>, rule: Rule)
    ensures RuleOps(id, chain, rules + [rule]) == RuleOps(id, chain, rules) + [AddRule(id, chain, rule)]
  {
    assert (rules + [rule])[..|rules|] == rules;
  }

  /** installChains: two base chains and their rules. */
  function ChainsOps(cfg: Config, fam: Family): seq<Op> {
    [AddChain(TableOf(fam), PREROUTING), AddChain(TableOf(fam), POSTROUTING)]
    + (RuleOps(TableOf(fam), PREROUTING, PreroutingRules(cfg, fam))
       + RuleOps(TableOf(fam), POSTROUTING, PostroutingRules(cfg)))
  }

  function SetupOps(cfg: Config): seq<Op> {
    [AddTable(TableOf(V4)), AddTable(TableOf(V6))]
    + (MapsOps(V4) + (MapsOps(V6) + (XlatOps(V4) + (XlatOps(V6) + (ChainsOps(cfg, V4) + ChainsOps(cfg, V6))))))
  }

  function TableIn(rs: Ruleset, id: TableId): Table {
    if id in rs then rs[id] else Table(map[], map[])
  }

  function WithMaps(t: Table): Table {
    t.(maps := map[MapName("tcp") := map[], MapName("udp") := map[]] + t.maps)
  }

  function WithXlat(t: Table): Table {
    t.(chains := map[XlatName("tcp") := [], XlatName("udp") := []] + t.chains)
  }

  function ChainIn(t: Table, name: string): seq<Rule> {
    if name in t.chains then t.chains[name] else []
  }

  function WithHooks(t: Table, cfg: Config, fam: Family): Table {
    t.(chains := t.chains[PREROUTING := ChainIn(t, PREROUTING) + PreroutingRules(cfg, fam)]
                         [POSTROUTING := ChainIn(t, POSTROUTING) + PostroutingRules(cfg)])
  }

  /** The table Setup builds on whatever table was still there. */
  function Installed(t: Table, cfg: Config, fam: Family): Table {
    WithHooks(WithXlat(WithMaps(t)), cfg, fam)
  }

  lemma NamesDiffer()
    ensures MapName("tcp") != MapName("udp") && XlatName("tcp") != XlatName("udp")
    ensures PREROUTING != POSTROUTING
    ensures forall p | KnownProto(p) :: XlatName(p) != PREROUTING && XlatName(p) != POSTROUTING
  {
    assert MapName("tcp")[5] == 't' && MapName("udp")[5] == 'u';
    assert XlatName("tcp")[10] == 't' && XlatName("udp")[10] == 'u';
    assert forall p :: XlatName(p)[0] == 'd';
    assert PREROUTING[1] == 'r' && POSTROUTING[1] == 'o' && PREROUTING[0] == 'p' == POSTROUTING[0];
  }

  lemma TwoOps(rs: Ruleset, a: Op, b: Op)
    ensures ApplyBatch(rs, [a, b]) == if ApplyOp(rs, a).Some? then ApplyOp(ApplyOp(rs, a).value, b) else None
  {
    assert [a, b] == [] + [a] + [b];
    BatchSnoc(rs, [], a);
    BatchSnoc(rs, [] + [a], b);
  }

  lemma BothMaps(maps: map<string, NftMap>, m: string, n: string)
    requires m != n
    ensures var once := if m in maps then maps else maps[m := map[]];
            (if n in once then once else once[n := map[]]) == map[m := map[], n := map[]] + maps
  {
  }

  lemma BothChains(chains: map<string, seq<Rule>>, m: string, n: string)
    requires m != n
    ensures var once := if m in chains then chains else chains[m := []];
            (if n in once then once else once[n := []]) == map[m := [], n := []] + chains
  {
  }

  lemma AddTwoMaps(rs: Ruleset, id: TableId, m: string, n: string)
    requires id in rs && m != n
    ensures ApplyBatch(rs, [AddMap(id, m), AddMap(id, n)]) ==
            Some(rs[id := rs[id].(maps := map[m := map[], n := map[]] + rs[id].maps)])
  {
    var t := rs[id];
    TwoOps(rs, AddMap(id, m), AddMap(id, n));
    var t1 := if m in t.maps then t else t.(maps := t.maps[m := map[]]);
    var t2 := if n in t1.maps then t1 else t1.(maps := t1.maps[n := map[]]);
    BothMaps(t.maps, m, n);
    Overwrite(rs, id, t1, t2);
  }

  lemma AddTwoChains(rs: Ruleset, id: TableId, m: string, n: string)
    requires id in rs && m != n
    ensures ApplyBatch(rs, [AddChain(id, m), AddChain(id, n)]) ==
            Some(rs[id := rs[id].(chains := map[m := [], n := []] + rs[id].chains)])
  {
    var t := rs[id];
    TwoOps(rs, AddChain(id, m), AddChain(id, n));
    var t1 := if m in t.chains then t else t.(chains := t.chains[m := []]);
    var t2 := if n in t1.chains then t1 else t1.(chains := t1.chains[n := []]);
    BothChains(t.chains, m, n);
    Overwrite(rs, id, t1, t2);
  }

  lemma MapsApply(rs: Ruleset, fam: Family)
    requires TableOf(fam) in rs
    ensures ApplyBatch(rs, MapsOps(fam)) == Some(rs[TableOf(fam) := WithMaps(rs[TableOf(fam)])])
  {
    NamesDiffer();
    AddTwoMaps(rs, TableOf(fam), MapName("tcp"), MapName("udp"));
  }

  lemma XlatApply(rs: Ruleset, fam: Family)
    requires TableOf(fam) in rs
    ensures ApplyBatch(rs, XlatOps(fam)) == Some(rs[TableOf(fam) := WithXlat(rs[TableOf(fam)])])
  {
    NamesDiffer();
    AddTwoChains(rs, TableOf(fam), XlatName("tcp"), XlatName("udp"));
  }

  /** Valid rules queued for an existing chain are appended to it in order. */
  lemma {:induction false} RulesApply(rs: Ruleset, id: TableId, chain: string, rules: seq<Rule>)
    requires id in rs && chain in rs[id].chains
    requires forall i | 0 <= i < |rules| :: ValidRule(rules[i], NfFamily(id.family))
    ensures ApplyBatch(rs, RuleOps(id, chain, rules)) ==
            Some(rs[id := rs[id].(chains := rs[id].chains[chain := rs[id].chains[chain] + rules])])
  {
    var t := rs[id];
    if rules == [] {
      assert t.chains[chain] + [] == t.chains[chain];
      assert t.chains[chain := t.chains[chain]] == t.chains;
      assert rs[id := t] == rs;
    } else {
      var init := rules[..|rules| - 1];
      RulesApply(rs, id, chain, init);
      BatchSnoc(rs, RuleOps(id, chain, init), AddRule(id, chain, rules[|rules| - 1]));
      var mid := rs[id := t.(chains := t.chains[chain := t.chains[chain] + init])];
      assert t.chains[chain] + init + [rules[|rules| - 1]] == t.chains[chain] + rules;
      assert mid[id].chains[chain := t.chains[chain] + rules] == t.chains[chain := t.chains[chain] + rules];
      assert mid[id := t.(chains := t.chains[chain := t.chains[chain] + rules])] ==
             rs[id := t.(chains := t.chains[chain := t.chains[chain] + rules])];
    }
  }

  lemma EmittedRulesValid(cfg: Config, fam: Family)
    ensures forall i | 0 <= i < 4 :: ValidRule(PreroutingRules(cfg, fam)[i], NfFamily(fam))
    ensures forall i | 0 <= i < 2 :: ValidRule(PostroutingRules(cfg)[i], NfFamily(fam))
  {
    GuardedRulesValid(cfg, fam, "tcp");
    GuardedRulesValid(cfg, fam, "udp");
  }

  lemma GuardedRulesValid(cfg: Config, fam: Family, proto: string)
    ensures ValidRule(XlatJump(cfg, fam, proto), NfFamily(fam))
    ensures ValidRule(DnatRule(cfg, fam, proto), NfFamily(fam))
  {
    assert ValidRule(GuardExprs(cfg, fam), NfFamily(fam));
    assert ValidRule(ProtoExprs(ProtoNumber(proto)), NfFamily(fam));
    assert ValidRule(MapExprs(fam, proto), NfFamily(fam));
  }

  function WithBases(t: Table): Table {
    t.(chains := map[PREROUTING := [], POSTROUTING := []] + t.chains)
  }

  lemma BasesApply(rs: Ruleset, id: TableId)
    requires id in rs
    ensures ApplyBatch(rs, [AddChain(id, PREROUTING), AddChain(id, POSTROUTING)]) == Some(rs[id := WithBases(rs[id])])
  {
    NamesDiffer();
    AddTwoChains(rs, id, PREROUTING, POSTROUTING);
  }

  lemma HooksAreBases(t: Table, cfg: Config, fam: Family)
    ensures var b := WithBases(t);
            var c := b.chains[PREROUTING := b.chains[PREROUTING] + PreroutingRules(cfg, fam)];
            PREROUTING in b.chains && POSTROUTING in c &&
            WithHooks(t, cfg, fam) == b.(chains := c[POSTROUTING := c[POSTROUTING] + PostroutingRules(cfg)])
  {
    NamesDiffer();
    var b := WithBases(t);
    var c := b.chains[PREROUTING := b.chains[PREROUTING] + PreroutingRules(cfg, fam)];
    assert b.chains[PREROUTING] == ChainIn(t, PREROUTING);
    assert c[POSTROUTING] == ChainIn(t, POSTROUTING);
    assert WithHooks(t, cfg, fam).chains == c[POSTROUTING := c[POSTROUTING] + PostroutingRules(cfg)];
  }

  lemma ChainsApply(rs: Ruleset, cfg: Config, fam: Family)
    requires TableOf(fam) in rs
    ensures ApplyBatch(rs, ChainsOps(cfg, fam)) == Some(rs[TableOf(fam) := WithHooks(rs[TableOf(fam)], cfg, fam)])
  {
    NamesDiffer();
    EmittedRulesValid(cfg, fam);
    var id := TableOf(fam);
    var pre, post := PreroutingRules(cfg, fam), PostroutingRules(cfg);
    var preOps, postOps := RuleOps(id, PREROUTING, pre), RuleOps(id, POSTROUTING, post);
    var t1 := WithBases(rs[id]);
    var rs1 := rs[id := t1];
    BasesApply(rs, id);
    Then(rs, [AddChain(id, PREROUTING), AddChain(id, POSTROUTING)], preOps + postOps, rs1);
    RulesApply(rs1, id, PREROUTING, pre);
    var t2 := t1.(chains := t1.chains[PREROUTING := t1.chains[PREROUTING] + pre]);
    Then(rs1, preOps, postOps, rs1[id := t2]);
    RulesApply(rs1[id := t2], id, POSTROUTING, post);
    HooksAreBases(rs[id], cfg, fam);
    Overwrite(rs, id, t1, t2);
    Overwrite(rs, id, t2, WithHooks(rs[id], cfg, fam));
  }

  lemma Overwrite(rs: Ruleset, id: TableId, t: Table, t': Table)
    ensures rs[id := t][id := t'] == rs[id := t']
  {
  }

  /** The rulesets met during setup: the two anchord tables over the rest. */
  function Both(rs: Ruleset, t4: Table, t6: Table): Ruleset {
    rs[TableOf(V4) := t4][TableOf(V6) := t6]
  }

  lemma BothUpdate(rs: Ruleset, t4: Table, t6: Table, fam: Family, t: Table)
    ensures Both(rs, t4, t6)[TableOf(fam)] == if fam == V4 then t4 else t6
    ensures Both(rs, t4, t6)[TableOf(fam) := t] == if fam == V4 then Both(rs, t, t6) else Both(rs, t4, t)
  {
    assert TableOf(V4) != TableOf(V6);
  }

  lemma TablesApply(rs: Ruleset)
    ensures ApplyBatch(rs, [AddTable(TableOf(V4)), AddTable(TableOf(V6))]) ==
            Some(Both(rs, TableIn(rs, TableOf(V4)), TableIn(rs, TableOf(V6))))
  {
    assert TableOf(V4) != TableOf(V6);
    TwoOps(rs, AddTable(TableOf(V4)), AddTable(TableOf(V6)));
    var rs' := ApplyOp(ApplyOp(rs, AddTable(TableOf(V4))).value, AddTable(TableOf(V6))).value;
    assert rs' == Both(rs, TableIn(rs, TableOf(V4)), TableIn(rs, TableOf(V6)));
  }

  /** The setup batch is never refused for its own form, and builds exactly Installed on both tables. */
  lemma SetupApplies(rs: Ruleset, cfg: Config)
    ensures ApplyBatch(rs, SetupOps(cfg)) ==
            Some(Both(rs, Installed(TableIn(rs, TableOf(V4)), cfg, V4), Installed(TableIn(rs, TableOf(V6)), cfg, V6)))
  {
    var a, b := TableIn(rs, TableOf(V4)), TableIn(rs, TableOf(V6));
    var ma, mb := WithMaps(a), WithMaps(b);
    var xa, xb := WithXlat(ma), WithXlat(mb);
    var c6 := ChainsOps(cfg, V6);
    var c4 := ChainsOps(cfg, V4) + c6;
    var x6 := XlatOps(V6) + c4;
    var x4 := XlatOps(V4) + x6;
    var m6 := MapsOps(V6) + x4;
    TablesApply(rs);
    Then(rs, [AddTable(TableOf(V4)), AddTable(TableOf(V6))], MapsOps(V4) + m6, Both(rs, a, b));
    BothUpdate(rs, a, b, V4, ma);
    MapsApply(Both(rs, a, b), V4);
    Then(Both(rs, a, b), MapsOps(V4), m6, Both(rs, ma, b));
    BothUpdate(rs, ma, b, V6, mb);
    MapsApply(Both(rs, ma, b), V6);
    Then(Both(rs, ma, b), MapsOps(V6), x4, Both(rs, ma, mb));
    BothUpdate(rs, ma, mb, V4, xa);
    XlatApply(Both(rs, ma, mb), V4);
    Then(Both(rs, ma, mb), XlatOps(V4), x6, Both(rs, xa, mb));
    BothUpdate(rs, xa, mb, V6, xb);
    XlatApply(Both(rs, xa, mb), V6);
    Then(Both(rs, xa, mb), XlatOps(V6), c4, Both(rs, xa, xb));
    BothUpdate(rs, xa, xb, V4, WithHooks(xa, cfg, V4));
    ChainsApply(Both(rs, xa, xb), cfg, V4);
    Then(Both(rs, xa, xb), ChainsOps(cfg, V4), c6, Both(rs, WithHooks(xa, cfg, V4), xb));
    BothUpdate(rs, WithHooks(xa, cfg, V4), xb, V6, WithHooks(xb, cfg, V6));
    ChainsApply(Both(rs, WithHooks(xa, cfg, V4), xb), cfg, V6);
  }

  lemma Then(rs: Ruleset, a: seq<Op>, b: seq<Op>, rs': Ruleset)
    requires ApplyBatch(rs, a) == Some(rs')
    ensures ApplyBatch(rs, a + b) == ApplyBatch(rs', b)
  {
    BatchConcat(rs, a, b);
  }

  lemma InstalledAt(t: Table, cfg: Config, fam: Family, proto: string)
    requires KnownProto(proto)
    ensures var t' := Installed(t, cfg, fam);
            && XlatName(proto) in t'.chains && t'.chains[XlatName(proto)] == ChainIn(t, XlatName(proto))
            && MapName(proto) in t'.maps
            && t'.maps[MapName(proto)] == if MapName(proto) in t.maps then t.maps[MapName(proto)] else map[]
  {
    NamesDiffer();
  }

  /** Setup adds a block of base rules to a table that is there and keeps its entries. */
  lemma InstalledAddsLayer(t: Table, cfgs: seq<Config>, cfg: Config, fam: Family, tcp: Entries, udp: Entries)
    requires Layered(t, cfgs, fam, tcp, udp)
    ensures Layered(Installed(t, cfg, fam), cfgs + [cfg], fam, tcp, udp)
  {
    NamesDiffer();
    InstalledAt(t, cfg, fam, "tcp");
    InstalledAt(t, cfg, fam, "udp");
    InstalledHooks(t, cfg, fam);
    assert (cfgs + [cfg])[..|cfgs|] == cfgs;
    hide Installed, MapCompiled, XlatCompiled, PreroutingRules, PostroutingRules;
  }

  /** On no table at all it builds the program of the empty table. */
  lemma InstalledOnNothing(cfg: Config, fam: Family)
    ensures Layered(Installed(Table(map[], map[]), cfg, fam), [cfg], fam, map[], map[])
  {
    var t := Table(map[], map[]);
    InstalledAt(t, cfg, fam, "tcp");
    InstalledAt(t, cfg, fam, "udp");
    InstalledHooks(t, cfg, fam);
    OneBlock(cfg, fam);
    NoEntries(fam);
    hide Installed, MapCompiled, XlatCompiled, PreroutingRules, PostroutingRules, PreStack, PostStack;
  }

  lemma OneBlock(cfg: Config, fam: Family)
    ensures PreStack([cfg], fam) == PreroutingRules(cfg, fam) && PostStack([cfg]) == PostroutingRules(cfg)
  {
    assert [cfg][..0] == [];
    assert [] + PreroutingRules(cfg, fam) == PreroutingRules(cfg, fam);
    assert [] + PostroutingRules(cfg) == PostroutingRules(cfg);
    hide PreroutingRules, PostroutingRules;
  }

  lemma NoEntries(fam: Family)
    ensures MapCompiled(map[], fam, map[]) && XlatCompiled([], fam, map[])
  {
    var none: Entries, nothing: seq<uint16> := map[], [];
    assert Enumerates(nothing, none) && XlatRules(fam, none, nothing) == [];
  }

  lemma InstalledHooks(t: Table, cfg: Config, fam: Family)
    ensures var c := Installed(t, cfg, fam).chains;
            && PREROUTING in c && c[PREROUTING] == ChainIn(t, PREROUTING) + PreroutingRules(cfg, fam)
            && POSTROUTING in c && c[POSTROUTING] == ChainIn(t, POSTROUTING) + PostroutingRules(cfg)
  {
    NamesDiffer();
    var x := WithXlat(WithMaps(t));
    assert ChainIn(x, PREROUTING) == ChainIn(t, PREROUTING) && ChainIn(x, POSTROUTING) == ChainIn(t, POSTROUTING);
  }

  /** The ruleset after Setup's second batch. */
  function SetUp(rs: Ruleset, cfg: Config): Ruleset {
    Both(rs, Installed(TableIn(rs, TableOf(V4)), cfg, V4), Installed(TableIn(rs, TableOf(V6)), cfg, V6))
  }

  lemma SetupSetsUp(rs: Ruleset, cfg: Config)
    ensures ApplyBatch(rs, SetupOps(cfg)) == Some(SetUp(rs, cfg))
  {
    SetupApplies(rs, cfg);
  }

  lemma WipedBy(rs: Ruleset)
    ensures ApplyBatch(rs, WipeOps()).Some? <==> AllFour(rs)
    ensures Wiped(rs) == if AllFour(rs) then ApplyBatch(rs, WipeOps()).value else rs
  {
    WipeNeedsAllFour(rs);
    hide AllFour, ApplyBatch;
  }

  /** Whatever runs have been before: their blocks stay, their entries stay, and one block is added. */
  lemma SetupAddsLayer(rs: Ruleset, layers: Layers, prog: Programmed, cfg: Config)
    requires Implements(rs, layers, prog)
    ensures Implements(SetUp(rs, cfg), layers.Add(cfg), prog)
  {
    hide Both, Installed, Layered, TableIn;
    FamilyAddsLayer(rs, layers, prog, cfg, V4);
    FamilyAddsLayer(rs, layers, prog, cfg, V6);
  }

  lemma FamilyAddsLayer(rs: Ruleset, layers: Layers, prog: Programmed, cfg: Config, fam: Family)
    requires Holds(rs, layers, prog, fam)
    ensures Holds(SetUp(rs, cfg), layers.Add(cfg), prog, fam)
  {
    var id := TableOf(fam);
    var t := TableIn(rs, id);
    BothUpdate(rs, Installed(TableIn(rs, TableOf(V4)), cfg, V4), Installed(TableIn(rs, TableOf(V6)), cfg, V6), fam, t);
    if id in rs {
      InstalledAddsLayer(t, layers.Get(fam), cfg, fam, prog.Get(fam, "tcp"), prog.Get(fam, "udp"));
    } else {
      InstalledOnNothing(cfg, fam);
      assert [] + [cfg] == [cfg];
    }
    hide Installed, Layered;
  }

  /** A wipe that takes effect leaves nothing of earlier runs. */
  lemma WipeLeavesNothing(rs: Ruleset)
    requires AllFour(rs)
    ensures Implements(Wiped(rs), NO_LAYERS, NOTHING)
  {
    WipeNeedsAllFour(rs);
    hide Wiped;
  }

  // ---- replacing one (family, protocol) ---------------------------------------------

  function SetMapOps(fam: Family, proto: string, entries: Entries, order: seq<uint16>): seq<Op>
    requires Handles(fam, entries, order)
  {
    [FlushSet(TableOf(fam), MapName(proto)), FlushChain(TableOf(fam), XlatName(proto))]
    + RuleOps(TableOf(fam), XlatName(proto), XlatRules(fam, entries, order))
    + [AddElements(TableOf(fam), MapName(proto), MapElems(fam, entries, order))]
  }

  lemma {:induction false} ElemsInsert(fam: Family, entries: Entries, order: seq<uint16>)
    requires Handles(fam, entries, order) && Distinct(order)
    ensures var m := InsertElems(map[], MapElems(fam, entries, order), AddrLen(NfFamily(fam)));
            && m.Some?
            && forall p: uint16 ::
              && (BE16(p) in m.value <==> p in order && entries[p].port == p)
              && (BE16(p) in m.value ==> m.value[BE16(p)] == IpBytes(fam, entries[p].ip).value)
  {
    if order != [] {
      var init, last := order[..|order| - 1], order[|order| - 1];
      ElemsInsert(fam, entries, init);
      assert last !in init;
      forall p: uint16
        ensures BE16(p) == BE16(last) <==> p == last
      {
        Be16RoundTrip(p);
        Be16RoundTrip(last);
      }
      var elems := MapElems(fam, entries, order);
      if entries[last].port == last {
        assert elems[..|elems| - 1] == MapElems(fam, entries, init);
      } else {
        assert elems == MapElems(fam, entries, init);
      }
    }
  }

  lemma {:induction false} XlatRulesValid(fam: Family, entries: Entries, order: seq<uint16>)
    requires Handles(fam, entries, order)
    ensures forall i | 0 <= i < |XlatRules(fam, entries, order)| ::
              ValidRule(XlatRules(fam, entries, order)[i], NfFamily(fam))
  {
    if order != [] {
      XlatRulesValid(fam, entries, order[..|order| - 1]);
    }
  }

  /** Flush, refill and commit: the batch is well formed and leaves exactly the compiled protocol. */
  lemma SetMapApplies(rs: Ruleset, fam: Family, proto: string, entries: Entries, order: seq<uint16>)
    returns (t': Table)
    requires AllAcceptable(fam, entries) && Enumerates(order, entries)
    requires TableOf(fam) in rs
    requires MapName(proto) in rs[TableOf(fam)].maps && XlatName(proto) in rs[TableOf(fam)].chains
    ensures ApplyBatch(rs, SetMapOps(fam, proto, entries, order)) == Some(rs[TableOf(fam) := t'])
    ensures ProtoCompiled(t', fam, proto, entries)
    ensures t'.maps.Keys == rs[TableOf(fam)].maps.Keys && t'.chains.Keys == rs[TableOf(fam)].chains.Keys
    ensures forall n | n in t'.maps && n != MapName(proto) :: t'.maps[n] == rs[TableOf(fam)].maps[n]
    ensures forall n | n in t'.chains && n != XlatName(proto) :: t'.chains[n] == rs[TableOf(fam)].chains[n]
  {
    var id := TableOf(fam);
    var rules, elems := XlatRules(fam, entries, order), MapElems(fam, entries, order);
    XlatRulesValid(fam, entries, order);
    ElemsInsert(fam, entries, order);
    var m := InsertElems(map[], elems, AddrLen(NfFamily(fam))).value;
    t' := RefillApplies(rs, id, MapName(proto), XlatName(proto), rules, elems, m);
  }

  lemma RefillApplies(rs: Ruleset, id: TableId, set_: string, chain: string, rules: seq<Rule>,
                      elems: seq<(Bytes, Bytes)>, m: NftMap) returns (t': Table)
    requires id in rs && set_ in rs[id].maps && chain in rs[id].chains
    requires forall i | 0 <= i < |rules| :: ValidRule(rules[i], NfFamily(id.family))
    requires InsertElems(map[], elems, AddrLen(NfFamily(id.family))) == Some(m)
    ensures ApplyBatch(rs, [FlushSet(id, set_), FlushChain(id, chain)] + RuleOps(id, chain, rules) +
                       [AddElements(id, set_, elems)])
            == Some(rs[id := t'])
    ensures t' == rs[id].(maps := rs[id].maps[set_ := m], chains := rs[id].chains[chain := rules])
  {
    hide ApplyOp, ApplyBatch, InsertElems, ValidRule, RuleOps;
    var t := rs[id];
    var flushes, adds := [FlushSet(id, set_), FlushChain(id, chain)], RuleOps(id, chain, rules);
    var t1 := t.(maps := t.maps[set_ := map[]], chains := t.chains[chain := []]);
    FlushesApply(rs, id, set_, chain, t1);
    Then(rs, flushes, adds, rs[id := t1]);
    RulesApply(rs[id := t1], id, chain, rules);
    var t2 := t.(maps := t.maps[set_ := map[]], chains := t.chains[chain := rules]);
    assert [] + rules == rules;
    assert t1.chains[chain := rules] == t2.chains;
    Overwrite(rs, id, t1, t2);
    t' := t.(maps := t.maps[set_ := m], chains := t.chains[chain := rules]);
    BatchSnoc(rs, flushes + adds, AddElements(id, set_, elems));
    FillApplies(rs, id, set_, t2, elems, m);
    assert t2.maps[set_ := m] == t'.maps;
  }

  lemma FillApplies(rs: Ruleset, id: TableId, set_: string, t: Table, elems: seq<(Bytes, Bytes)>, m: NftMap)
    requires set_ in t.maps && t.maps[set_] == map[]
    requires InsertElems(map[], elems, AddrLen(NfFamily(id.family))) == Some(m)
    ensures ApplyOp(rs[id := t], AddElements(id, set_, elems)) == Some(rs[id := t.(maps := t.maps[set_ := m])])
  {
    Overwrite(rs, id, t, t.(maps := t.maps[set_ := m]));
  }

  lemma FlushesApply(rs: Ruleset, id: TableId, set_: string, chain: string, t1: Table)
    requires id in rs && set_ in rs[id].maps && chain in rs[id].chains
    requires t1 == rs[id].(maps := rs[id].maps[set_ := map[]], chains := rs[id].chains[chain := []])
    ensures ApplyBatch(rs, [FlushSet(id, set_), FlushChain(id, chain)]) == Some(rs[id := t1])
  {
    var t0 := rs[id].(maps := rs[id].maps[set_ := map[]]);
    TwoOps(rs, FlushSet(id, set_), FlushChain(id, chain));
    Overwrite(rs, id, t0, t1);
  }

  /** What SetMap works on: the table, its map and its translation chain are in the kernel. */
  predicate HasParts(rs: Ruleset, fam: Family, proto: string) {
    && TableOf(fam) in rs
    && MapName(proto) in rs[TableOf(fam)].maps && XlatName(proto) in rs[TableOf(fam)].chains
  }

  /** Setup builds them whatever it finds. */
  lemma SetupHasParts(rs: Ruleset, cfg: Config, fam: Family, proto: string)
    requires KnownProto(proto)
    ensures HasParts(SetUp(rs, cfg), fam, proto)
  {
    var t := TableIn(rs, TableOf(fam));
    BothUpdate(rs, Installed(TableIn(rs, TableOf(V4)), cfg, V4), Installed(TableIn(rs, TableOf(V6)), cfg, V6), fam, t);
    InstalledAt(t, cfg, fam, proto);
    hide Installed;
  }

  /** Without them the kernel turns the batch down. */
  lemma PartsNeeded(rs: Ruleset, fam: Family, proto: string, entries: Entries, order: seq<uint16>)
    requires Handles(fam, entries, order)
    ensures ApplyBatch(rs, SetMapOps(fam, proto, entries, order)).Some? ==> HasParts(rs, fam, proto)
  {
    var id := TableOf(fam);
    var flushes := [FlushSet(id, MapName(proto)), FlushChain(id, XlatName(proto))];
    var adds := RuleOps(id, XlatName(proto), XlatRules(fam, entries, order));
    var fill := [AddElements(id, MapName(proto), MapElems(fam, entries, order))];
    BatchConcat(rs, flushes + adds, fill);
    BatchConcat(rs, flushes, adds);
    TwoOps(rs, flushes[0], flushes[1]);
    hide RuleOps, XlatRules, MapElems, InsertElems;
  }

  /** The rulesets agree on every table but `id`. */
  ghost predicate SameElsewhere(rs: Ruleset, rs': Ruleset, id: TableId) {
    forall other | other != id :: (other in rs' <==> other in rs) && (other in rs' ==> rs'[other] == rs[other])
  }

  /** Committing SetMap's batch: well formed whenever its parts are there, and exact. */
  lemma SetMapCommits(rs: Ruleset, fam: Family, proto: string, entries: Entries, order: seq<uint16>)
    requires KnownProto(proto) && AllAcceptable(fam, entries) && Enumerates(order, entries)
    ensures var rs' := ApplyBatch(rs, SetMapOps(fam, proto, entries, order));
            && (rs'.Some? <==> HasParts(rs, fam, proto))
            && (rs'.Some? ==>
                  && SameElsewhere(rs, rs'.value, TableOf(fam))
                  && (forall f, p | KnownProto(p) :: HasParts(rs'.value, f, p) <==> HasParts(rs, f, p))
                  && forall layers, prog | Implements(rs, layers, prog) ::
                       Implements(rs'.value, layers, prog.Put(fam, proto, entries)))
  {
    PartsNeeded(rs, fam, proto, entries, order);
    if HasParts(rs, fam, proto) {
      var t' := SetMapApplies(rs, fam, proto, entries, order);
      hide SetMapOps, Implements, ProtoCompiled;
      forall layers, prog | Implements(rs, layers, prog)
        ensures Implements(rs[TableOf(fam) := t'], layers, prog.Put(fam, proto, entries))
      {
        PutKeepsRest(rs, layers, prog, fam, proto, entries, t');
      }
    }
  }

  /** Replacing one protocol keeps the rest of the program, in both tables. */
  lemma PutKeepsRest(rs: Ruleset, layers: Layers, prog: Programmed, fam: Family, proto: string, entries: Entries,
                     t': Table)
    requires Implements(rs, layers, prog) && KnownProto(proto) && TableOf(fam) in rs
    requires ProtoCompiled(t', fam, proto, entries)
    requires t'.maps.Keys == rs[TableOf(fam)].maps.Keys && t'.chains.Keys == rs[TableOf(fam)].chains.Keys
    requires forall n | n in t'.maps && n != MapName(proto) :: t'.maps[n] == rs[TableOf(fam)].maps[n]
    requires forall n | n in t'.chains && n != XlatName(proto) :: t'.chains[n] == rs[TableOf(fam)].chains[n]
    ensures Implements(rs[TableOf(fam) := t'], layers, prog.Put(fam, proto, entries))
  {
    assert Holds(rs, layers, prog, fam);
    PutInTable(rs[TableOf(fam)], layers.Get(fam), prog, fam, proto, entries, t');
    var rs', prog' := rs[TableOf(fam) := t'], prog.Put(fam, proto, entries);
    LayeredHolds(rs', layers, prog', fam);
    var other := if fam == V4 then V6 else V4;
    OtherFamilyHolds(rs, layers, prog, fam, proto, entries, t', other);
    hide Holds, Layered, ProtoCompiled;
  }

  lemma LayeredHolds(rs: Ruleset, layers: Layers, prog: Programmed, fam: Family)
    requires TableOf(fam) in rs
    requires Layered(rs[TableOf(fam)], layers.Get(fam), fam, prog.Get(fam, "tcp"), prog.Get(fam, "udp"))
    ensures Holds(rs, layers, prog, fam)
  {
  }

  lemma OtherFamilyHolds(rs: Ruleset, layers: Layers, prog: Programmed, fam: Family, proto: string, entries: Entries,
                         t: Table, other: Family)
    requires Holds(rs, layers, prog, other) && other != fam
    ensures Holds(rs[TableOf(fam) := t], layers, prog.Put(fam, proto, entries), other)
  {
    hide Layered;
  }

  lemma PutInTable(t: Table, cfgs: seq<Config>, prog: Programmed, fam: Family, proto: string, entries: Entries,
                   t': Table)
    requires KnownProto(proto)
    requires Layered(t, cfgs, fam, prog.Get(fam, "tcp"), prog.Get(fam, "udp"))
    requires ProtoCompiled(t', fam, proto, entries)
    requires t'.maps.Keys == t.maps.Keys && t'.chains.Keys == t.chains.Keys
    requires forall n | n in t'.maps && n != MapName(proto) :: t'.maps[n] == t.maps[n]
    requires forall n | n in t'.chains && n != XlatName(proto) :: t'.chains[n] == t.chains[n]
    ensures var prog' := prog.Put(fam, proto, entries);
            Layered(t', cfgs, fam, prog'.Get(fam, "tcp"), prog'.Get(fam, "udp"))
  {
    NamesDiffer();
    var other := if proto == "tcp" then "udp" else "tcp";
    assert ProtoCompiled(t, fam, other, prog.Get(fam, other));
    assert MapName(other) in t'.maps && t'.maps[MapName(other)] == t.maps[MapName(other)];
    assert XlatName(other) in t'.chains && t'.chains[XlatName(other)] == t.chains[XlatName(other)];
    assert PREROUTING in t'.chains && POSTROUTING in t'.chains;
    hide PreStack, PostStack, MapCompiled, XlatCompiled;
  }

  datatype SetMapError = NoSuchMap | BadEntry(port: uint16) | Refused

  class Manager {
    const extIface: Bytes
    const littleEndian: bool
    var v6Fib: bool
    /** Setup has run, so that the cached maps and chains are not nil. */
    var ready: bool
    /** The netfilter tables of the namespace; only anchord touches the anchord ones. */
    var kernel: Ruleset
    /** The blocks of base rules in the two tables; None where somebody else has built tables of their names. */
    ghost var layers: Option<Layers>
    /** The entries in the two tables. */
    ghost var programmed: Programmed

    /** New, on whatever earlier runs have left in the kernel. */
    constructor (extIface: Bytes, littleEndian: bool, kernel: Ruleset, ghost layers: Option<Layers>,
                 ghost left: Programmed)
      requires layers.Some? ==> Implements(kernel, layers.value, left)
      ensures this.extIface == extIface && this.littleEndian == littleEndian && this.kernel == kernel
      ensures this.layers == layers && programmed == left && !ready && Valid()
    {
      this.extIface, this.littleEndian, this.kernel := extIface, littleEndian, kernel;
      this.v6Fib, this.ready, this.layers, this.programmed := false, false, layers, left;
    }

    function Cfg(): Config
      reads this
    {
      Config(extIface, v6Fib, littleEndian)
    }

    ghost predicate Valid()
      reads this
    {
      layers.Some? ==> Implements(kernel, layers.value, programmed)
    }

    /** SetMap can work on this family and protocol. */
    predicate Takes(fam: Family, proto: string)
      reads this
    {
      ready && KnownProto(proto) && HasParts(kernel, fam, proto)
    }

    /**
     Setup. `probe` is whether the kernel took the fib probe, `refused` whether it
     turns the batch down for reasons of its own.
     */
    method Setup(probe: bool, refused: bool) returns (ok: bool)
      requires Valid()
      modifies this
      ensures ok <==> !refused
      ensures v6Fib == probe && ready
      ensures kernel == if ok then SetUp(Wiped(old(kernel)), Cfg()) else Wiped(old(kernel))
      ensures var base := if AllFour(old(kernel)) then Some(NO_LAYERS) else old(layers);
              layers == if ok && base.Some? then Some(base.value.Add(Cfg())) else base
      ensures programmed == if AllFour(old(kernel)) then NOTHING else old(programmed)
      ensures Valid()
      ensures ok ==> forall fam, proto | KnownProto(proto) :: Takes(fam, proto)
    {
      hide Implements, Installed, Both, AllFour, WipeOps, SetUp, HasParts, ApplyBatch, SetupOps;
      v6Fib, ready := probe, true;
      var wiped := ApplyBatch(kernel, WipeOps());
      WipedBy(kernel);
      if wiped.Some? {
        WipeLeavesNothing(kernel);
        kernel := wiped.value;
        layers, programmed := Some(NO_LAYERS), NOTHING;
      }
      ghost var base := kernel;
      SetupSetsUp(kernel, Cfg());
      if refused {
        return false;
      }
      kernel := ApplyBatch(kernel, SetupOps(Cfg())).value;
      if layers.Some? {
        SetupAddsLayer(base, layers.value, programmed, Cfg());
        layers := Some(layers.value.Add(Cfg()));
      }
      forall fam, proto | KnownProto(proto)
        ensures HasParts(kernel, fam, proto)
      {
        SetupHasParts(base, Cfg(), fam, proto);
      }
      return true;
    }

    /**
     SetMap: `order` is the order in which Go ranges over `entries`. Nothing changes
     unless everything does, and only this (family, protocol) changes.
     */
    method SetMap(family: Family, proto: string, entries: Entries, order: seq<uint16>, refused: bool)
      returns (r: Result<(), SetMapError>)
      requires Valid() && Enumerates(order, entries)
      modifies this`kernel, this`programmed
      ensures Valid()
      ensures r.Ok? <==>
                old(Takes(family, proto)) && !refused && forall p | p in entries :: Carries(family, entries[p])
      ensures r.Ok? ==> programmed == old(programmed).Put(family, proto, entries)
      ensures r.Ok? ==> SameElsewhere(old(kernel), kernel, TableOf(family))
      ensures r.Err? ==> kernel == old(kernel) && programmed == old(programmed)
      ensures r == Err(NoSuchMap) <==> !ready || !KnownProto(proto)
      ensures r.Err? && r.error.BadEntry? ==> r.error.port in entries && !Carries(family, entries[r.error.port])
      ensures forall fam, p | KnownProto(p) :: Takes(fam, p) <==> old(Takes(fam, p))
    {
      hide Implements, HasParts, AllAcceptable, Carries, SetMapOps, SameElsewhere;
      AllCarried(family, entries);
      if !ready || (proto != "tcp" && proto != "udp") {
        return Err(NoSuchMap);
      }
      var batch := CompileEntries(family, proto, entries, order);
      if batch.Err? {
        return Err(BadEntry(batch.error));
      }
      var committed := ApplyBatch(kernel, batch.value);
      SetMapCommits(kernel, family, proto, entries, order);
      if committed.None? || refused {
        return Err(Refused);
      }
      kernel := committed.value;
      programmed := programmed.Put(family, proto, entries);
      return Ok(());
    }
  }

  /** ifaceBytes: a zeroed 16-byte buffer with the name copied in, cut off where it does not fit. */
  method IfaceBytes(name: Bytes) returns (b: array<byte>)
    ensures fresh(b) && b[..] == PadName(name)
  {
    b := new byte[16](_ => 0);
    var n := if |name| < 16 then |name| else 16;
    for i := 0 to n
      invariant forall j | 0 <= j < i :: b[j] == name[j]
      invariant forall j | i <= j < 16 :: b[j] == 0
    {
      b[i] := name[i];
    }
    assert forall j | 0 <= j < 16 :: b[..][j] == PadName(name)[j];
  }

  /** SetMap's loop: queues the flushes, a literal rule per translating entry, and the elements. */
  method CompileEntries(family: Family, proto: string, entries: Entries, order: seq<uint16>)
    returns (r: Result<seq<Op>, uint16>)
    requires Enumerates(order, entries)
    ensures r.Ok? <==> forall p | p in entries :: Carries(family, entries[p])
    ensures r.Ok? ==> AllAcceptable(family, entries) && r.value == SetMapOps(family, proto, entries, order)
    ensures r.Err? ==> r.error in entries && !Carries(family, entries[r.error])
  {
    hide RuleOps, XlatRules, MapElems, SetMapOps, AllAcceptable, Handles, XlatRule, TableOf, MapName, XlatName, BE16,
      Carries;
    AllCarried(family, entries);
    var table := TableOf(family);
    var c: seq<Op> := [FlushSet(table, MapName(proto)), FlushChain(table, XlatName(proto))];
    var addrElems: seq<(Bytes, Bytes)> := [];
    ghost var flushes := c;
    NothingCompiled(family, proto, entries);
    assert order[..0] == [] && flushes + [] == flushes;
    for i := 0 to |order|
      invariant Handles(family, entries, order[..i])
      invariant c == flushes + RuleOps(table, XlatName(proto), XlatRules(family, entries, order[..i]))
      invariant addrElems == MapElems(family, entries, order[..i])
    {
      var port := order[i];
      assert port in order;
      var target := entries[port];
      NotAcceptable(family, entries, port);
      AcceptableExactly(family, target);
      if target.port == 0 {
        return Err(port);
      }
      var ipBytes := To4(target.ip);
      if family == V6 {
        if To4(target.ip).Some? {
          return Err(port);
        }
        ipBytes := To16(target.ip);
      }
      if ipBytes.None? {
        return Err(port);
      }
      assert order[..i + 1] == order[..i] + [port];
      CompileSnoc(family, entries, order[..i], port);
      if target.port == port {
        addrElems := addrElems + [(BE16(port), ipBytes.value)];
      } else {
        var rule := XlatRule(family, port, ipBytes.value, target.port);
        ghost var rules := XlatRules(family, entries, order[..i]);
        RuleOpsSnoc(table, XlatName(proto), rules, rule);
        AppendLast(flushes, RuleOps(table, XlatName(proto), rules), AddRule(table, XlatName(proto), rule));
        c := c + [AddRule(table, XlatName(proto), rule)];
      }
    }
    assert order[..|order|] == order;
    AllCompiled(family, proto, entries, order);
    return Ok(c + [AddElements(table, MapName(proto), addrElems)]);
  }

  lemma NothingCompiled(fam: Family, proto: string, entries: Entries)
    ensures Handles(fam, entries, [])
    ensures MapElems(fam, entries, []) == [] &&
            RuleOps(TableOf(fam), XlatName(proto), XlatRules(fam, entries, [])) == []
  {
  }

  lemma NotAcceptable(fam: Family, entries: Entries, port: uint16)
    requires port in entries
    ensures !Acceptable(fam, entries[port]) ==> !AllAcceptable(fam, entries)
  {
    hide Acceptable;
  }

  lemma AllCompiled(fam: Family, proto: string, entries: Entries, order: seq<uint16>)
    requires Handles(fam, entries, order) && Enumerates(order, entries)
    ensures AllAcceptable(fam, entries)
    ensures SetMapOps(fam, proto, entries, order) ==
            [FlushSet(TableOf(fam), MapName(proto)), FlushChain(TableOf(fam), XlatName(proto))]
            + RuleOps(TableOf(fam), XlatName(proto), XlatRules(fam, entries, order))
            + [AddElements(TableOf(fam), MapName(proto), MapElems(fam, entries, order))]
  {
    hide Acceptable, XlatRules, MapElems, RuleOps;
  }

  lemma AppendLast(a: seq<Op>, b: seq<Op>, op: Op)
    ensures (a + b) + [op] == a + (b + [op])
  {
  }

  lemma CompileSnoc(fam: Family, entries: Entries, order: seq<uint16>, port: uint16)
    requires Handles(fam, entries, order) && port in entries && Acceptable(fam, entries[port])
    ensures var ip := IpBytes(fam, entries[port].ip).value;
            && Handles(fam, entries, order + [port])
            && MapElems(fam, entries, order + [port]) ==
               (if entries[port].port == port then MapElems(fam, entries, order) + [(BE16(port), ip)]
                else MapElems(fam, entries, order))
            && XlatRules(fam, entries, order + [port]) ==
               (if entries[port].port == port then XlatRules(fam, entries, order)
                else XlatRules(fam, entries, order) + [XlatRule(fam, port, ip, entries[port].port)])
  {
    assert (order + [port])[..|order|] == order;
    assert MapElems(fam, entries, order) + [] == MapElems(fam, entries, order);
    assert XlatRules(fam, entries, order) + [] == XlatRules(fam, entries, order);
  }

  /**
   End to end, whatever runs have been before: a packet that any block lets through is
   sent by the entries last programmed for its family, and its source is rewritten if
   any block asks for it.
   */
  lemma ForwardingFollowsTable(rs: Ruleset, layers: Layers, prog: Programmed, le: bool, fam: Family, pkt: Packet,
                               regs: Regs)
    requires Implements(rs, layers, prog) && OnHost(layers.Get(fam), le) && layers.Get(fam) != []
    requires KernelName(pkt.iif) && KernelName(pkt.oif)
    ensures TableOf(fam) in rs
    ensures Redirected(pkt, RunHook(rs[TableOf(fam)], PREROUTING, pkt, le, regs)) ==
            if AnyGuarded(layers.Get(fam), fam, pkt)
              then Sent(fam, Named(prog.Get(fam, "tcp"), prog.Get(fam, "udp"), pkt))
            else None
    ensures RunHook(rs[TableOf(fam)], POSTROUTING, pkt, le, regs) ==
            if AnyRewrites(layers.Get(fam), pkt) then Masquerade else Continue
  {
    assert Holds(rs, layers, prog, fam);
    PreroutingRedirects(rs[TableOf(fam)], layers.Get(fam), le, fam, prog.Get(fam, "tcp"), prog.Get(fam, "udp"), pkt,
                        regs);
    PostroutingRewrites(rs[TableOf(fam)], layers.Get(fam), le, fam, prog.Get(fam, "tcp"), prog.Get(fam, "udp"), pkt,
                        regs);
    hide RunHook, AnyGuarded, AnyRewrites, IpBytes;
  }

  /** Some block lets the packet in: it is for a local address, or in the fallback came by the external interface. */
  predicate LetIn(cfgs: seq<Config>, fam: Family, pkt: Packet) {
    exists c | c in cfgs :: if fam == V4 || c.v6Fib then pkt.dstType == 2 else pkt.iif == c.extIface
  }

  /**
   Some block rewrites the source: the packet leaves by that block's external interface, or was
   sent on and came by another one.
   */
  predicate Masqueraded(cfgs: seq<Config>, pkt: Packet) {
    exists c | c in cfgs :: pkt.oif == c.extIface || (pkt.ctStatus / 32 % 2 == 1 && pkt.iif != c.extIface)
  }

  /** The entry for a TCP (6) or UDP (17) packet's destination port, bytes 2 and 3 of its header. */
  function EntryFor(prog: Programmed, fam: Family, pkt: Packet): Option<Target> {
    if |pkt.transport| < 4 then None
    else
      var hi: int := pkt.transport[2];
      var port: uint16 := 256 * hi + pkt.transport[3];
      var entries := if pkt.l4proto == 6 then prog.Get(fam, "tcp") else prog.Get(fam, "udp");
      if (pkt.l4proto == 6 || pkt.l4proto == 17) && port in entries then Some(entries[port]) else None
  }

  /**
   The same in the packet's own bytes: it reaches its backend, at the address and port
   that were programmed; a packet of another protocol or port, or that no block lets
   in, is left alone. Its source is rewritten exactly when some block asks for it.
   */
  lemma BackendReached(rs: Ruleset, layers: Layers, prog: Programmed, le: bool, fam: Family, pkt: Packet, regs: Regs)
    requires Implements(rs, layers, prog) && OnHost(layers.Get(fam), le) && layers.Get(fam) != []
    requires KernelName(pkt.iif) && KernelName(pkt.oif)
    ensures TableOf(fam) in rs
    ensures var to := Redirected(pkt, RunHook(rs[TableOf(fam)], PREROUTING, pkt, le, regs));
            var tgt := EntryFor(prog, fam, pkt);
            if LetIn(layers.Get(fam), fam, pkt) && tgt.Some? then to == Some((Wire(tgt.value.ip), tgt.value.port))
            else to.None?
    ensures RunHook(rs[TableOf(fam)], POSTROUTING, pkt, le, regs) ==
            if Masqueraded(layers.Get(fam), pkt) then Masquerade else Continue
  {
    ForwardingFollowsTable(rs, layers, prog, le, fam, pkt, regs);
    assert AnyGuarded(layers.Get(fam), fam, pkt) <==> LetIn(layers.Get(fam), fam, pkt);
    assert AnyRewrites(layers.Get(fam), pkt) <==> Masqueraded(layers.Get(fam), pkt);
    var tcp, udp := prog.Get(fam, "tcp"), prog.Get(fam, "udp");
    NamedIsEntry(prog, fam, pkt);
    NamedAcceptable(rs, layers, prog, fam, pkt);
    var tgt := Named(tcp, udp, pkt);
    if tgt.Some? {
      AcceptableExactly(fam, tgt.value);
    }
    hide *;
  }

  lemma NamedIsEntry(prog: Programmed, fam: Family, pkt: Packet)
    ensures Named(prog.Get(fam, "tcp"), prog.Get(fam, "udp"), pkt) == EntryFor(prog, fam, pkt)
  {
  }

  lemma NamedAcceptable(rs: Ruleset, layers: Layers, prog: Programmed, fam: Family, pkt: Packet)
    requires Implements(rs, layers, prog) && layers.Get(fam) != []
    ensures var tgt := Named(prog.Get(fam, "tcp"), prog.Get(fam, "udp"), pkt);
            tgt.Some? ==> Acceptable(fam, tgt.value)
  {
    assert Holds(rs, layers, prog, fam);
    hide Acceptable, PreStack, PostStack;
  }

  /**
   A LAN client sent on to an internal backend keeps its source address exactly when
   every block names the external interface of this run.
   */
  lemma LanClientKeepsSource(rs: Ruleset, layers: Layers, prog: Programmed, cfg: Config, fam: Family, pkt: Packet,
                             regs: Regs)
    requires Implements(rs, layers, prog) && OnHost(layers.Get(fam), cfg.littleEndian) && layers.Get(fam) != []
    requires KernelName(pkt.iif) && KernelName(pkt.oif) && pkt.ctStatus / 32 % 2 == 1
    requires pkt.iif == cfg.extIface && pkt.oif != cfg.extIface
    ensures TableOf(fam) in rs
    ensures RunHook(rs[TableOf(fam)], POSTROUTING, pkt, cfg.littleEndian, regs) == Continue <==>
            forall c | c in layers.Get(fam) :: c.extIface == cfg.extIface
  {
    ForwardingFollowsTable(rs, layers, prog, cfg.littleEndian, fam, pkt, regs);
    hide RunHook, Implements, OnHost;
  }

  /**
   What Setup's ineffective wipe comes to: with the blocks of earlier runs still there the
   tables do to every packet what this run's program means exactly when no earlier block
   lets in, or rewrites the source of, a packet that this run's would not.
   */
  lemma RestartMeansTableIff(rs: Ruleset, layers: Layers, prog: Programmed, cfg: Config, fam: Family)
    requires Implements(rs, layers, prog) && OnHost(layers.Get(fam), cfg.littleEndian) && cfg in layers.Get(fam)
    ensures TableOf(fam) in rs
    ensures var tcp, udp := prog.Get(fam, "tcp"), prog.Get(fam, "udp");
            && AllAcceptable(fam, tcp) && AllAcceptable(fam, udp)
            && (Means(rs[TableOf(fam)], cfg, fam, tcp, udp) <==> Harmless(layers.Get(fam), cfg, fam, tcp, udp))
  {
    assert Holds(rs, layers, prog, fam);
    LeftoversHarmlessIff(rs[TableOf(fam)], layers.Get(fam), cfg, fam, prog.Get(fam, "tcp"), prog.Get(fam, "udp"));
    hide Means, RewritesWithin, GuardWithin, OnHost;
  }

  /** So a restart with the same interface and probe result is harmless, however often. */
  lemma SameConfigRestart(rs: Ruleset, layers: Layers, prog: Programmed, cfg: Config, fam: Family)
    requires Implements(rs, layers, prog) && NulFree(cfg.extIface)
    requires layers.Get(fam) != [] && forall c | c in layers.Get(fam) :: c == cfg
    ensures TableOf(fam) in rs
    ensures var tcp, udp := prog.Get(fam, "tcp"), prog.Get(fam, "udp");
            && AllAcceptable(fam, tcp) && AllAcceptable(fam, udp)
            && Means(rs[TableOf(fam)], cfg, fam, tcp, udp)
  {
    assert layers.Get(fam)[0] in layers.Get(fam);
    RestartMeansTableIff(rs, layers, prog, cfg, fam);
    hide Means, Implements;
  }

  /** And one after the external interface was renamed is not: from no tables at all, two runs. */
  lemma RenamedInterfaceRestart(le: bool, fam: Family) returns (cfg0: Config, cfg: Config, rs: Ruleset)
    ensures cfg.littleEndian == le && NulFree(cfg.extIface) && rs == SetUp(Wiped(SetUp(Wiped(map[]), cfg0)), cfg)
    ensures TableOf(fam) in rs && !Means(rs[TableOf(fam)], cfg, fam, map[], map[])
  {
    hide SetUp, Implements, Wiped, Means, Layered, GuardWithin, RunHook;
    cfg0, cfg := Config([1], true, le), Config([2], true, le);
    rs := SetUp(Wiped(SetUp(Wiped(map[]), cfg0)), cfg);
    TwoRuns(cfg0, cfg);
    var layers := Layers([cfg0, cfg], [cfg0, cfg]);
    assert layers.Get(fam) == [cfg0, cfg] && cfg0 in [cfg0, cfg] && cfg in [cfg0, cfg];
    RestartMeansTableIff(rs, layers, NOTHING, cfg, fam);
    assert !RewritesWithin(cfg0, cfg);
    assert NOTHING.Get(fam, "tcp") == map[] && NOTHING.Get(fam, "udp") == map[];
  }

  /** From no tables at all, the second run's Setup leaves the block of the first one in place. */
  lemma TwoRuns(cfg0: Config, cfg: Config)
    ensures Implements(SetUp(Wiped(SetUp(Wiped(map[]), cfg0)), cfg), Layers([cfg0, cfg], [cfg0, cfg]), NOTHING)
  {
    hide SetUp, Implements, Wiped;
    var none: Ruleset := map[];
    var first := SetUp(none, cfg0);
    WipeNeedsAllFour(none);
    SetUpTables(none, cfg0);
    assert TableId(V6, "anchord_v4") !in {TableOf(V4), TableOf(V6)};
    WipeNeedsAllFour(first);
    NoTables();
    SetupAddsLayer(none, NO_LAYERS, NOTHING, cfg0);
    SetupAddsLayer(first, NO_LAYERS.Add(cfg0), NOTHING, cfg);
    assert NO_LAYERS.Add(cfg0).Add(cfg) == Layers([cfg0, cfg], [cfg0, cfg]);
  }

  lemma NoTables()
    ensures Implements(map[], NO_LAYERS, NOTHING)
  {
  }

  lemma SetUpTables(rs: Ruleset, cfg: Config)
    ensures SetUp(rs, cfg).Keys == rs.Keys + {TableOf(V4), TableOf(V6)}
  {
    hide Installed;
  }
}
