/** Snapshots of the exposed backends, when two of them are the same, and the DNAT table they ask for. */
module Discovery {
  import opened GoBase
  import opened GoStrings
  import opened NetIP
  import opened NatTypes
  import opened Labels

  /** An address the container does not have is nil, the empty slice. */
  datatype Backend = Backend(id: string, name: string, ipv4: IP, ipv6: IP, spec: Spec)
  type State = map<string, Backend>

  datatype Key = Key(family: Family, proto: string, port: uint16)
  type Desired = map<Key, Target>

  // ---- the desired table ----------------------------------------------------

  /** What one rule of a backend asks for. */
  function RuleEntries(b: Backend, r: Rule): Desired {
    (if b.ipv4 != [] then map[Key(V4, r.proto, r.port) := Target(b.ipv4, r.backendPort)] else map[])
    + (if b.ipv6 != [] && b.spec.v6 != V6Off
       then map[Key(V6, r.proto, r.port) := Target(b.ipv6, r.backendPort)] else map[])
  }

  /** The rules of one backend in turn; a later rule for the same key wins. */
  function RulesEntries(b: Backend, rules: seq<Rule>): Desired {
    if rules == [] then map[]
    else RulesEntries(b, rules[..|rules| - 1]) + RuleEntries(b, rules[|rules| - 1])
  }

  function BackendEntries(b: Backend): Desired {
    RulesEntries(b, b.spec.rules)
  }

  /** The backends in the order they are met; a later backend wins. */
  function DesiredInOrder(st: State, order: seq<string>): Desired
    requires forall id | id in order :: id in st
  {
    if order == [] then map[]
    else DesiredInOrder(st, order[..|order| - 1]) + BackendEntries(st[order[|order| - 1]])
  }

  // ---- the table, key by key ------------------------------------------------------

  /** A rule asks for its protocol and port, in IPv4 and IPv6 each when there is an address and IPv6 is not off. */
  predicate Claims(b: Backend, r: Rule, k: Key) {
    && k.proto == r.proto && k.port == r.port
    && if k.family == V4 then b.ipv4 != [] else b.ipv6 != [] && b.spec.v6 == V6Auto
  }

  predicate ClaimsSome(b: Backend, k: Key) {
    exists r :: r in b.spec.rules && Claims(b, r, k)
  }

  /** Rule `j` asks for `k`, and no later one does. */
  predicate LastRule(b: Backend, rules: seq<Rule>, k: Key, j: nat) {
    j < |rules| && Claims(b, rules[j], k) && forall m | j < m < |rules| :: !Claims(b, rules[m], k)
  }

  lemma RuleExactly(b: Backend, r: Rule, k: Key)
    ensures k in RuleEntries(b, r) <==> Claims(b, r, k)
    ensures Claims(b, r, k) ==> RuleEntries(b, r)[k] == Target(if k.family == V4 then b.ipv4 else b.ipv6, r.backendPort)
  {
  }

  lemma {:induction false} RulesExactly(b: Backend, rules: seq<Rule>, k: Key, j: nat)
    ensures k in RulesEntries(b, rules) <==> exists r :: r in rules && Claims(b, r, k)
    ensures LastRule(b, rules, k, j) ==>
              RulesEntries(b, rules)[k] == Target(if k.family == V4 then b.ipv4 else b.ipv6, rules[j].backendPort)
  {
    hide Claims, RuleEntries;
    if rules != [] {
      var n := |rules| - 1;
      RulesExactly(b, rules[..n], k, j);
      RuleExactly(b, rules[n], k);
      assert rules == rules[..n] + [rules[n]];
      if LastRule(b, rules, k, j) && j < n {
        assert !Claims(b, rules[n], k);
      }
    }
  }

  /** Backend `i` of the walk asks for `k` by its rule `j`, and neither a later rule nor a later backend does. */
  ghost predicate LastClaim(st: State, order: seq<string>, k: Key, i: nat, j: nat)
    requires forall id | id in order :: id in st
  {
    && i < |order| && LastRule(st[order[i]], st[order[i]].spec.rules, k, j)
    && forall m | i < m < |order| :: !ClaimsSome(st[order[m]], k)
  }

  /** A key is in the table exactly when some rule asks for it, and then goes where the last one that does wants it. */
  lemma {:induction false} DesiredExactly(st: State, order: seq<string>, k: Key, i: nat, j: nat)
    requires forall id | id in order :: id in st
    ensures k in DesiredInOrder(st, order) <==> exists id :: id in order && ClaimsSome(st[id], k)
    ensures LastClaim(st, order, k, i, j) ==>
              var b := st[order[i]];
              DesiredInOrder(st, order)[k] ==
              Target(if k.family == V4 then b.ipv4 else b.ipv6, b.spec.rules[j].backendPort)
  {
    hide RulesEntries, Claims;
    if order != [] {
      var n := |order| - 1;
      DesiredExactly(st, order[..n], k, i, j);
      var last := st[order[n]];
      RulesExactly(last, last.spec.rules, k, j);
      assert order == order[..n] + [order[n]];
      if LastClaim(st, order, k, i, j) && i < n {
        assert !ClaimsSome(st[order[n]], k);
      }
    }
  }

  method DesiredFromState(st: State) returns (out: Desired, ghost order: seq<string>)
    ensures Enumerates(order, st) && out == DesiredInOrder(st, order)
  {
    var ids := RangeOrder(st);
    order := ids;
    out := map[];
    for i := 0 to |ids|
      invariant out == DesiredInOrder(st, ids[..i])
    {
      out := AddBackend(out, st[ids[i]]);
      assert ids[..i + 1][..i] == ids[..i];
    }
    assert ids[..|ids|] == ids;
  }

  /** The inner loop: the rules of one backend, written over what is there. */
  method AddBackend(before: Desired, b: Backend) returns (out: Desired)
    ensures out == before + BackendEntries(b)
  {
    out := before;
    for j := 0 to |b.spec.rules|
      invariant out == before + RulesEntries(b, b.spec.rules[..j])
    {
      var rule := b.spec.rules[j];
      ghost var prev := out;
      if b.ipv4 != [] {
        out := out[Key(V4, rule.proto, rule.port) := Target(b.ipv4, rule.backendPort)];
      }
      if b.ipv6 != [] && b.spec.v6 != V6Off {
        out := out[Key(V6, rule.proto, rule.port) := Target(b.ipv6, rule.backendPort)];
      }
      RuleMerges(b, rule, prev, out);
      MergeAssociates(before, RulesEntries(b, b.spec.rules[..j]), RuleEntries(b, rule));
      assert b.spec.rules[..j + 1][..j] == b.spec.rules[..j];
    }
    assert b.spec.rules[..|b.spec.rules|] == b.spec.rules;
  }

  lemma RuleMerges(b: Backend, r: Rule, prev: Desired, out: Desired)
    requires var mid := if b.ipv4 != [] then prev[Key(V4, r.proto, r.port) := Target(b.ipv4, r.backendPort)] else prev;
             out == if b.ipv6 != [] && b.spec.v6 != V6Off
                    then mid[Key(V6, r.proto, r.port) := Target(b.ipv6, r.backendPort)] else mid
    ensures out == prev + RuleEntries(b, r)
  {
  }

  lemma MergeAssociates(a: Desired, b: Desired, c: Desired)
    ensures (a + b) + c == a + (b + c)
  {
  }

  // ---- when the order does not matter ------------------------------------------

  /** Two backends that ask for the same key ask for the same target. */
  ghost predicate Agree(st: State) {
    forall i, j, k | i in st && j in st && k in BackendEntries(st[i]) && k in BackendEntries(st[j]) ::
      BackendEntries(st[i])[k] == BackendEntries(st[j])[k]
  }

  predicate AsksFor(st: State, id: string, k: Key) {
    id in st && k in BackendEntries(st[id])
  }

  lemma {:induction false} DesiredKeys(st: State, order: seq<string>, k: Key)
    requires forall id | id in order :: id in st
    ensures k in DesiredInOrder(st, order) <==> exists id :: id in order && AsksFor(st, id, k)
  {
    if order != [] {
      var init, last := order[..|order| - 1], order[|order| - 1];
      DesiredKeys(st, init, k);
      assert forall id :: id in order <==> id in init || id == last;
      if AsksFor(st, last, k) {
        assert last in order;
      }
      if k in DesiredInOrder(st, init) {
        var id :| id in init && AsksFor(st, id, k);
        assert id in order;
      }
    }
  }

  /** The value is one some backend asked for; under Agree, the one any of them asks for. */
  lemma {:induction false} DesiredValue(st: State, order: seq<string>, k: Key) returns (id: string)
    requires forall id | id in order :: id in st
    requires k in DesiredInOrder(st, order)
    ensures id in order && AsksFor(st, id, k) && DesiredInOrder(st, order)[k] == BackendEntries(st[id])[k]
  {
    var init, last := order[..|order| - 1], order[|order| - 1];
    if k in BackendEntries(st[last]) {
      id := last;
    } else {
      id := DesiredValue(st, init, k);
    }
  }

  ghost predicate OrderIrrelevant(st: State) {
    forall a, b | Enumerates(a, st) && Enumerates(b, st) :: DesiredInOrder(st, a) == DesiredInOrder(st, b)
  }

  lemma EnumerationEndingIn(st: State, id: string) returns (order: seq<string>)
    requires id in st
    ensures Enumerates(order, st) && order[|order| - 1] == id
  {
    var init := EnumerationOf(st.Keys - {id});
    order := init + [id];
  }

  lemma {:induction false} EnumerationOf(s: set<string>) returns (order: seq<string>)
    ensures Distinct(order) && forall k :: k in order <==> k in s
    decreases |s|
  {
    order := [];
    if s != {} {
      var k :| k in s;
      order := EnumerationOf(s - {k});
      order := order + [k];
    }
  }

  /** The table is independent of Go's map order exactly when no two backends disagree about a key. */
  lemma OrderIrrelevantIffAgree(st: State)
    ensures OrderIrrelevant(st) <==> Agree(st)
  {
    if Agree(st) {
      forall a, b | Enumerates(a, st) && Enumerates(b, st)
        ensures DesiredInOrder(st, a) == DesiredInOrder(st, b)
      {
        forall k
          ensures k in DesiredInOrder(st, a) <==> k in DesiredInOrder(st, b)
          ensures k in DesiredInOrder(st, a) ==> DesiredInOrder(st, a)[k] == DesiredInOrder(st, b)[k]
        {
          DesiredKeys(st, a, k);
          DesiredKeys(st, b, k);
          if k in DesiredInOrder(st, a) {
            var i := DesiredValue(st, a, k);
            var j := DesiredValue(st, b, k);
          }
        }
      }
    }
    if OrderIrrelevant(st) {
      forall i, j, k | i in st && j in st && k in BackendEntries(st[i]) && k in BackendEntries(st[j])
        ensures BackendEntries(st[i])[k] == BackendEntries(st[j])[k]
      {
        var a := EnumerationEndingIn(st, i);
        var b := EnumerationEndingIn(st, j);
        assert DesiredInOrder(st, a)[k] == BackendEntries(st[i])[k];
        assert DesiredInOrder(st, b)[k] == BackendEntries(st[j])[k];
      }
    }
  }

  /** Nothing but what the parser yields reaches the table. */
  predicate KnownProtos(st: State) {
    forall id | id in st :: forall r | r in st[id].spec.rules :: KnownProto(r.proto)
  }

  lemma {:induction false} RulesEntriesShape(b: Backend, rules: seq<Rule>, k: Key)
    requires k in RulesEntries(b, rules)
    ensures exists r :: r in rules && k in RuleEntries(b, r) && k.proto == r.proto && k.port == r.port
                        && RulesEntries(b, rules)[k] == RuleEntries(b, r)[k]
  {
    var last := rules[|rules| - 1];
    if k !in RuleEntries(b, last) {
      RulesEntriesShape(b, rules[..|rules| - 1], k);
    } else {
      assert last in rules;
    }
  }

  lemma DesiredProtosKnown(st: State, order: seq<string>)
    requires Enumerates(order, st) && KnownProtos(st)
    ensures forall k | k in DesiredInOrder(st, order) :: KnownProto(k.proto)
  {
    forall k | k in DesiredInOrder(st, order)
      ensures KnownProto(k.proto)
    {
      var id := DesiredValue(st, order, k);
      RulesEntriesShape(st[id], st[id].spec.rules, k);
    }
  }

  // ---- equality of states -----------------------------------------------------------

  predicate RuleLess(a: Rule, b: Rule) {
    if a.proto != b.proto then Less(a.proto, b.proto) else a.port < b.port
  }

  predicate RulesSorted(s: seq<Rule>) {
    forall i, j | 0 <= i < j < |s| :: !RuleLess(s[j], s[i])
  }

  /** No two rules of the slice share protocol and port. */
  predicate NoRepeat(s: seq<Rule>) {
    forall i, j | 0 <= i < j < |s| :: s[i].proto != s[j].proto || s[i].port != s[j].port
  }

  lemma RuleLessTotal(a: Rule, b: Rule)
    ensures RuleLess(a, b) || RuleLess(b, a) || (a.proto == b.proto && a.port == b.port)
    ensures !(RuleLess(a, b) && RuleLess(b, a))
  {
    LessTotal(a.proto, b.proto);
  }

  lemma RuleLessTransitive(a: Rule, b: Rule, c: Rule)
    requires !RuleLess(b, a) && !RuleLess(c, b)
    ensures !RuleLess(c, a)
  {
    LessTotal(a.proto, b.proto);
    LessTotal(b.proto, c.proto);
    LessTotal(a.proto, c.proto);
    if Less(a.proto, b.proto) && Less(b.proto, c.proto) { LessTransitive(a.proto, b.proto, c.proto); }
  }

  /** sort.Slice with ruleLess: some sorted rearrangement, not a stable one, and the caller learns no more. */
  method SortSlice(s: seq<Rule>) returns (r: seq<Rule>)
    ensures RulesSorted(r) && multiset(r) == multiset(s)
  {
    r := [];
    for i := 0 to |s|
      invariant RulesSorted(r) && multiset(r) == multiset(s[..i])
    {
      assert s[..i + 1] == s[..i] + [s[i]];
      r := InsertRule(r, s[i]);
    }
    assert s[..|s|] == s;
  }

  method InsertRule(s: seq<Rule>, x: Rule) returns (r: seq<Rule>)
    requires RulesSorted(s)
    ensures RulesSorted(r) && multiset(r) == multiset(s) + multiset{x}
  {
    var i := |s|;
    while i > 0 && RuleLess(x, s[i - 1])
      invariant 0 <= i <= |s|
      invariant forall j | i <= j < |s| :: RuleLess(x, s[j])
    {
      i := i - 1;
    }
    r := s[..i] + [x] + s[i..];
    InsertedSorted(s, x, i);
  }

  lemma InsertedSorted(s: seq<Rule>, x: Rule, i: nat)
    requires RulesSorted(s) && i <= |s|
    requires forall j | i <= j < |s| :: RuleLess(x, s[j])
    requires i > 0 ==> !RuleLess(x, s[i - 1])
    ensures RulesSorted(s[..i] + [x] + s[i..]) && multiset(s[..i] + [x] + s[i..]) == multiset(s) + multiset{x}
  {
    hide RuleLess;
    KeepsRules(s, x, i);
    forall j | 0 <= j < i
      ensures !RuleLess(x, s[j])
    {
      if j < i - 1 { RuleLessTransitive(s[j], s[i - 1], x); }
    }
    forall j | i <= j < |s|
      ensures !RuleLess(s[j], x)
    {
      RuleLessTotal(s[j], x);
    }
    InsertedBetween(s, x, i);
  }

  lemma KeepsRules(s: seq<Rule>, x: Rule, i: nat)
    requires i <= |s|
    ensures multiset(s[..i] + [x] + s[i..]) == multiset(s) + multiset{x}
  {
    assert s == s[..i] + s[i..];
  }

  lemma InsertedBetween(s: seq<Rule>, x: Rule, i: nat)
    requires RulesSorted(s) && i <= |s|
    requires (forall j | 0 <= j < i :: !RuleLess(x, s[j])) && forall j | i <= j < |s| :: !RuleLess(s[j], x)
    ensures RulesSorted(s[..i] + [x] + s[i..])
  {
    hide RuleLess;
    var r := s[..i] + [x] + s[i..];
    forall j, k | 0 <= j < k < |r|
      ensures !RuleLess(r[k], r[j])
    {
      assert j < i ==> r[j] == s[j];
      assert j > i ==> r[j] == s[j - 1];
      assert k < i ==> r[k] == s[k];
      assert k > i ==> r[k] == s[k - 1];
    }
  }

  /** The same backend, as far as the table is concerned: addresses compared as addresses. */
  predicate SameBackend(a: Backend, b: Backend) {
    && Equal(a.ipv4, b.ipv4) && Equal(a.ipv6, b.ipv6)
    && a.spec.v6 == b.spec.v6
    && multiset(a.spec.rules) == multiset(b.spec.rules)
  }

  lemma SameExactly(a: Backend, b: Backend)
    ensures SameBackend(a, b) <==>
            && Wire(a.ipv4) == Wire(b.ipv4) && Wire(a.ipv6) == Wire(b.ipv6)
            && a.spec.v6 == b.spec.v6 && multiset(a.spec.rules) == multiset(b.spec.rules)
  {
    hide Wire, Canon, Equal;
    FormsExactly(a.ipv4);
    FormsExactly(b.ipv4);
    FormsExactly(a.ipv6);
    FormsExactly(b.ipv6);
    EqualIsCanon(a.ipv4, b.ipv4);
    EqualIsCanon(a.ipv6, b.ipv6);
  }

  lemma SortedHeads(a: seq<Rule>, b: seq<Rule>)
    requires RulesSorted(a) && RulesSorted(b) && multiset(a) == multiset(b) && NoRepeat(a) && a != []
    ensures b != [] && a[0] == b[0]
  {
    assert a[0] in multiset(b);
    var j :| 0 <= j < |b| && b[j] == a[0];
    assert b[0] in multiset(a);
    var i :| 0 <= i < |a| && a[i] == b[0];
    RuleLessTotal(a[0], b[0]);
  }

  lemma TailMultiset(a: seq<Rule>)
    requires a != []
    ensures a == [a[0]] + a[1..] && multiset(a[1..]) == multiset(a) - multiset{a[0]}
  {
    assert a == [a[0]] + a[1..];
  }

  /** Without repeated (proto, port), sorting leaves no choice. */
  lemma {:induction false} SortedUnique(a: seq<Rule>, b: seq<Rule>)
    requires RulesSorted(a) && RulesSorted(b) && multiset(a) == multiset(b) && NoRepeat(a)
    ensures a == b
  {
    if a == [] {
      assert |b| == |multiset(b)| == |multiset(a)| == 0;
    } else {
      SortedHeads(a, b);
      TailMultiset(a);
      TailMultiset(b);
      SortedUnique(a[1..], b[1..]);
    }
  }

  lemma RepeatKept(a: seq<Rule>, b: seq<Rule>)
    requires multiset(a) == multiset(b) && NoRepeat(a)
    ensures NoRepeat(b)
  {
    forall i, j | 0 <= i < j < |b|
      ensures b[i].proto != b[j].proto || b[i].port != b[j].port
    {
      if b[i].proto == b[j].proto && b[i].port == b[j].port {
        assert b[i] in multiset(a) && b[j] in multiset(a);
        var p :| 0 <= p < |a| && a[p] == b[i];
        var q :| 0 <= q < |a| && a[q] == b[j];
        assert b == b[..i] + [b[i]] + b[i + 1..j] + [b[j]] + b[j + 1..];
        assert b[i] == b[j] ==> multiset(b)[b[i]] >= 2;
        NoRepeatOnce(a, b[i]);
      }
    }
  }

  lemma {:induction false} NoRepeatOnce(a: seq<Rule>, r: Rule)
    requires NoRepeat(a)
    ensures multiset(a)[r] <= 1
  {
    if a != [] {
      NoRepeatOnce(a[1..], r);
      assert a == [a[0]] + a[1..];
      assert a[0] == r ==> r !in a[1..];
    }
  }

  /** Never equal for different backends; always for the same one when no (proto, port) repeats. */
  method BackendEqual(a: Backend, b: Backend) returns (eq: bool)
    ensures eq ==> SameBackend(a, b)
    ensures SameBackend(a, b) && NoRepeat(a.spec.rules) ==> eq
    ensures eq ==>
              && Wire(a.ipv4) == Wire(b.ipv4) && Wire(a.ipv6) == Wire(b.ipv6)
              && a.spec.v6 == b.spec.v6 && multiset(a.spec.rules) == multiset(b.spec.rules)
    ensures !eq && NoRepeat(a.spec.rules) ==>
              || Wire(a.ipv4) != Wire(b.ipv4) || Wire(a.ipv6) != Wire(b.ipv6)
              || a.spec.v6 != b.spec.v6 || multiset(a.spec.rules) != multiset(b.spec.rules)
  {
    SameExactly(a, b);
    hide Wire, Equal;
    if !Equal(a.ipv4, b.ipv4) || !Equal(a.ipv6, b.ipv6) {
      return false;
    }
    if a.spec.v6 != b.spec.v6 || |a.spec.rules| != |b.spec.rules| {
      assert multiset(a.spec.rules) == multiset(b.spec.rules) ==>
        |multiset(a.spec.rules)| == |multiset(b.spec.rules)|;
      return false;
    }
    var ar := SortSlice(a.spec.rules);
    var br := SortSlice(b.spec.rules);
    if NoRepeat(a.spec.rules) && SameBackend(a, b) {
      RepeatKept(a.spec.rules, ar);
      SortedUnique(ar, br);
    }
    assert |multiset(ar)| == |multiset(br)|;
    for i := 0 to |ar|
      invariant ar[..i] == br[..i]
    {
      if ar[i] != br[i] {
        return false;
      }
    }
    assert ar[..|ar|] == ar && br[..|br|] == br;
    return true;
  }

  /** State.Equal compares backend by backend. */
  ghost predicate SameStates(s: State, o: State) {
    s.Keys == o.Keys && forall id | id in s :: SameBackend(s[id], o[id])
  }

  method StateEqual(s: State, o: State) returns (eq: bool)
    ensures eq ==> SameStates(s, o)
    ensures SameStates(s, o) && (forall id | id in s :: NoRepeat(s[id].spec.rules)) ==> eq
    ensures eq ==> s.Keys == o.Keys && forall id | id in s ::
                     && Wire(s[id].ipv4) == Wire(o[id].ipv4) && Wire(s[id].ipv6) == Wire(o[id].ipv6)
                     && s[id].spec.v6 == o[id].spec.v6
                     && multiset(s[id].spec.rules) == multiset(o[id].spec.rules)
    ensures !eq && (forall id | id in s :: NoRepeat(s[id].spec.rules)) ==>
              s.Keys != o.Keys || exists id | id in s ::
                || Wire(s[id].ipv4) != Wire(o[id].ipv4) || Wire(s[id].ipv6) != Wire(o[id].ipv6)
                || s[id].spec.v6 != o[id].spec.v6
                || multiset(s[id].spec.rules) != multiset(o[id].spec.rules)
  {
    forall id | id in s && id in o {
      SameExactly(s[id], o[id]);
    }
    hide Wire, Equal, SameBackend, NoRepeat;
    if |s| != |o| {
      assert s.Keys == o.Keys ==> |s.Keys| == |o.Keys|;
      return false;
    }
    var ids := RangeOrder(s);
    for i := 0 to |ids|
      invariant forall id | id in ids[..i] :: id in o && SameBackend(s[id], o[id])
    {
      var id := ids[i];
      if id !in o {
        return false;
      }
      var same := BackendEqual(s[id], o[id]);
      if !same {
        return false;
      }
    }
    assert ids[..|ids|] == ids;
    SubsetSameSize(s.Keys, o.Keys);
    return true;
  }

  lemma SubsetSameSize(a: set<string>, b: set<string>)
    requires a <= b && |a| == |b|
    ensures a == b
  {
    assert |b - a| == |b| - |a|;
  }

  // ---- equal states, equal tables -------------------------------------------------------

  /** The same target: the same address, in whichever form, and the same port. */
  predicate SameTarget(a: Target, b: Target) {
    Equal(a.ip, b.ip) && a.port == b.port
  }

  ghost predicate SameTables(a: Desired, b: Desired) {
    a.Keys == b.Keys && forall k | k in a :: SameTarget(a[k], b[k])
  }

  /** No two rules of the state claim the same (proto, port). */
  ghost predicate ClaimsDistinct(st: State) {
    && (forall id | id in st :: NoRepeat(st[id].spec.rules))
    && forall i, j, r, q | i in st && j in st && i != j && r in st[i].spec.rules && q in st[j].spec.rules ::
      r.proto != q.proto || r.port != q.port
  }

  lemma ClaimsDistinctAgree(st: State)
    requires ClaimsDistinct(st)
    ensures Agree(st)
  {
    forall i, j, k | i in st && j in st && k in BackendEntries(st[i]) && k in BackendEntries(st[j])
      ensures BackendEntries(st[i])[k] == BackendEntries(st[j])[k]
    {
      RulesEntriesShape(st[i], st[i].spec.rules, k);
      RulesEntriesShape(st[j], st[j].spec.rules, k);
    }
  }

  /** Without repeats, each rule's entries survive to the end. */
  lemma {:induction false} RuleEntriesKept(b: Backend, rules: seq<Rule>, r: Rule, k: Key)
    requires NoRepeat(rules) && r in rules && k in RuleEntries(b, r)
    ensures k in RulesEntries(b, rules) && RulesEntries(b, rules)[k] == RuleEntries(b, r)[k]
  {
    var last := rules[|rules| - 1];
    if r != last {
      RuleEntriesKept(b, rules[..|rules| - 1], r, k);
    }
  }

  lemma SameBackendEntries(a: Backend, b: Backend, k: Key)
    requires SameBackend(a, b) && NoRepeat(b.spec.rules) && k in BackendEntries(a)
    ensures k in BackendEntries(b) && SameTarget(BackendEntries(a)[k], BackendEntries(b)[k])
  {
    RulesEntriesShape(a, a.spec.rules, k);
    var r :| r in a.spec.rules && k in RuleEntries(a, r) && BackendEntries(a)[k] == RuleEntries(a, r)[k];
    SameRules(a.spec.rules, b.spec.rules, r);
    RuleEntriesKept(b, b.spec.rules, r, k);
    hide BackendEntries, RulesEntries, NoRepeat;
  }

  lemma SameRules(a: seq<Rule>, b: seq<Rule>, r: Rule)
    requires multiset(a) == multiset(b) && r in a
    ensures r in b
  {
    assert r in multiset(a);
  }

  /** Equal states without competing claims ask for the same table, in whatever order each is walked. */
  lemma EqualStatesEqualTables(s: State, o: State, a: seq<string>, b: seq<string>)
    requires SameStates(s, o) && ClaimsDistinct(s)
    requires Enumerates(a, s) && Enumerates(b, o)
    ensures forall k :: k in DesiredInOrder(s, a) <==> k in DesiredInOrder(o, b)
    ensures forall k | k in DesiredInOrder(s, a) ::
              var x, y := DesiredInOrder(s, a)[k], DesiredInOrder(o, b)[k];
              Wire(x.ip) == Wire(y.ip) && x.port == y.port
  {
    EqualStatesSameTables(s, o, a, b);
    forall k | k in DesiredInOrder(s, a)
      ensures var x, y := DesiredInOrder(s, a)[k], DesiredInOrder(o, b)[k]; Wire(x.ip) == Wire(y.ip) && x.port == y.port
    {
      var x, y := DesiredInOrder(s, a)[k], DesiredInOrder(o, b)[k];
      assert SameTarget(x, y);
      FormsExactly(x.ip);
      FormsExactly(y.ip);
      EqualIsCanon(x.ip, y.ip);
      hide DesiredInOrder, Wire, Canon, Equal;
    }
  }

  lemma EqualStatesSameTables(s: State, o: State, a: seq<string>, b: seq<string>)
    requires SameStates(s, o) && ClaimsDistinct(s)
    requires Enumerates(a, s) && Enumerates(b, o)
    ensures SameTables(DesiredInOrder(s, a), DesiredInOrder(o, b))
  {
    forall id | id in s
      ensures NoRepeat(o[id].spec.rules)
    {
      RepeatKept(s[id].spec.rules, o[id].spec.rules);
    }
    ClaimsDistinctAgree(s);
    forall id | id in s
      ensures SameBackend(o[id], s[id])
    {
      SameSymmetric(s[id], o[id]);
    }
    forall k
      ensures k in DesiredInOrder(s, a) <==> k in DesiredInOrder(o, b)
    {
      SameStatesCover(s, o, a, b, k);
      SameStatesCover(o, s, b, a, k);
    }
    forall k | k in DesiredInOrder(o, b)
      ensures SameTarget(DesiredInOrder(s, a)[k], DesiredInOrder(o, b)[k])
    {
      var i := DesiredValue(s, a, k);
      var j := DesiredValue(o, b, k);
      SameBackendEntries(o[j], s[j], k);
      assert BackendEntries(s[i])[k] == BackendEntries(s[j])[k];
      SameTargetSymmetric(BackendEntries(o[j])[k], BackendEntries(s[j])[k]);
    }
  }

  lemma SameStatesCover(s: State, o: State, a: seq<string>, b: seq<string>, k: Key)
    requires SameStates(s, o) && Enumerates(a, s) && Enumerates(b, o)
    requires forall id | id in o :: NoRepeat(o[id].spec.rules)
    ensures k in DesiredInOrder(s, a) ==> k in DesiredInOrder(o, b)
  {
    DesiredKeys(s, a, k);
    DesiredKeys(o, b, k);
    if k in DesiredInOrder(s, a) {
      var i := DesiredValue(s, a, k);
      SameBackendEntries(s[i], o[i], k);
      assert i in b && AsksFor(o, i, k);
    }
  }

  lemma SameSymmetric(a: Backend, b: Backend)
    requires SameBackend(a, b)
    ensures SameBackend(b, a)
  {
    EqualIsCanon(a.ipv4, b.ipv4);
    EqualIsCanon(b.ipv4, a.ipv4);
    EqualIsCanon(a.ipv6, b.ipv6);
    EqualIsCanon(b.ipv6, a.ipv6);
  }

  lemma SameTargetSymmetric(a: Target, b: Target)
    requires SameTarget(a, b)
    ensures SameTarget(b, a)
  {
    EqualIsCanon(a.ip, b.ip);
    EqualIsCanon(b.ip, a.ip);
  }
}
