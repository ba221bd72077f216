/**
 ANCHORD_LABEL_SELECTOR: the parser that reads it and the printer that renders it
 as sorted key=value predicates.
 */
module Selector {
  import opened GoBase
  import opened GoStrings

  type Selection = map<string, string>

  datatype SelectorError = MissingEquals | EmptyKey | Conflict(key: string)

  /** An entry between commas, after trimming: the pair it names, if it is well formed. */
  function EntryPair(part: string): Result<(string, string), SelectorError> {
    match Cut(part, '=')
    case None => Err(MissingEquals)
    case Some((k, v)) =>
      if TrimSpace(k) == "" then Err(EmptyKey) else Ok((TrimSpace(k), TrimSpace(v)))
  }

  /** One turn of the loop. */
  function AddEntry(acc: Result<Selection, SelectorError>, part: string): Result<Selection, SelectorError> {
    if acc.Err? || TrimSpace(part) == "" then acc
    else
      match EntryPair(TrimSpace(part))
      case Err(e) => Err(e)
      case Ok((k, v)) =>
        if k in acc.value && acc.value[k] != v then Err(Conflict(k)) else Ok(acc.value[k := v])
  }

  function ParseEntries(parts: seq<string>): Result<Selection, SelectorError> {
    if parts == [] then Ok(map[])
    else AddEntry(ParseEntries(parts[..|parts| - 1]), parts[|parts| - 1])
  }

  /** What parseLabelSelector computes. */
  function ParseSpec(raw: string): Result<Selection, SelectorError> {
    if TrimSpace(raw) == "" then Ok(map[]) else ParseEntries(Split(raw, ','))
  }

  method ParseLabelSelector(raw: string) returns (r: Result<Selection, SelectorError>)
    ensures r == ParseSpec(raw)
  {
    if TrimSpace(raw) == "" {
      return Ok(map[]);
    }
    var parts := Split(raw, ',');
    var out: Selection := map[];
    for i := 0 to |parts|
      invariant ParseEntries(parts[..i]) == Ok(out)
    {
      assert parts[..i + 1][..i] == parts[..i];
      var trimmed := TrimSpace(parts[i]);
      if trimmed == "" {
        continue;
      }
      match EntryPair(trimmed)
      case Err(e) =>
        ErrorIsFinal(parts, i + 1);
        return Err(e);
      case Ok((k, v)) =>
        if k in out && out[k] != v {
          ErrorIsFinal(parts, i + 1);
          return Err(Conflict(k));
        }
        out := out[k := v];
    }
    assert parts[..|parts|] == parts;
    return Ok(out);
  }

  lemma {:induction false} ErrorIsFinal(parts: seq<string>, n: nat)
    requires n <= |parts| && ParseEntries(parts[..n]).Err?
    ensures ParseEntries(parts) == ParseEntries(parts[..n])
  {
    if n == |parts| {
      assert parts[..n] == parts;
    } else {
      var init := parts[..|parts| - 1];
      assert init[..n] == parts[..n];
      ErrorIsFinal(init, n);
    }
  }

  // ---- what is accepted ---------------------------------------------------

  predicate Blank(part: string) {
    TrimSpace(part) == ""
  }

  /** Part `i` names the pair (k, v). */
  predicate Names(part: string, k: string, v: string) {
    !Blank(part) && EntryPair(TrimSpace(part)) == Ok((k, v))
  }

  predicate WellFormed(part: string) {
    Blank(part) || EntryPair(TrimSpace(part)).Ok?
  }

  /** A key, an equals sign and a value, white space around any of the three; the first equals sign counts. */
  ghost predicate Spelled(part: string, k: string, v: string) {
    k != "" && Trimmed(k) && '=' !in k && Trimmed(v) &&
    exists a, b, c, d ::
      AllSpace(a) && AllSpace(b) && AllSpace(c) && AllSpace(d) && part == (a + k + b) + "=" + (c + v + d)
  }

  lemma BlankExactly(s: string)
    ensures Blank(s) <==> AllSpace(s)
  {
    if AllSpace(s) {
      TrimSpaceDropsPads(s, "", "");
      assert s + "" + "" == s;
    } else if Blank(s) {
      var before, after := TrimSpaceShape(s);
    }
  }

  /** An entry names exactly the pair it spells, and is well formed when it is blank or spells one. */
  lemma NamesExactly(part: string, k: string, v: string)
    ensures Names(part, k, v) <==> Spelled(part, k, v)
    ensures WellFormed(part) <==> AllSpace(part) || exists x, y :: Spelled(part, x, y)
  {
    forall x, y
      ensures Names(part, x, y) <==> Spelled(part, x, y)
    {
      if Names(part, x, y) {
        NamedIsSpelled(part, x, y);
      }
      if Spelled(part, x, y) {
        SpelledIsNamed(part, x, y);
      }
    }
    BlankExactly(part);
    if WellFormed(part) && !Blank(part) {
      var (x, y) := EntryPair(TrimSpace(part)).value;
      assert Names(part, x, y);
    }
    hide Spelled, EntryPair, TrimSpace, AllSpace;
  }

  lemma NamedIsSpelled(part: string, k: string, v: string)
    requires Names(part, k, v)
    ensures Spelled(part, k, v)
  {
    hide TrimSpace, IndexOf;
    var t := TrimSpace(part);
    var before, after := TrimSpaceShape(part);
    CutShape(t, '=');
    var (x, y) := Cut(t, '=').value;
    var a, b := TrimSpaceShape(x);
    var c, d := TrimSpaceShape(y);
    TrimSpaceKeepsChars(x, '=');
    var a', d' := before + a, d + after;
    assert part == before + ((a + k + b) + ['='] + (c + v + d)) + after;
    assert before + ((a + k + b) + ['='] + (c + v + d)) + after == (a' + k + b) + "=" + (c + v + d');
    assert AllSpace(a') && AllSpace(d');
  }

  lemma SpelledIsNamed(part: string, k: string, v: string)
    requires Spelled(part, k, v)
    ensures Names(part, k, v)
  {
    hide *;
    var a, b, c, d := Pads(part, k, v);
    var left, right, pad := k + b, if v == "" then "" else c + v, if v == "" then c + d else d;
    Core(a, k, b, c, v, d);
    CoreTrimmed(k, b, right, v);
    TrimSpaceDropsPads(a, left + "=" + right, pad);
    TrimmedLeft(k, b);
    TrimmedRight(c, v);
    assert left + "=" + right == left + ['='] + right;
    CutAt(left, '=', right);
    NamesMeans(part, k, v);
  }

  lemma Pads(part: string, k: string, v: string) returns (a: string, b: string, c: string, d: string)
    requires Spelled(part, k, v)
    ensures k != "" && Trimmed(k) && '=' !in k && Trimmed(v)
    ensures AllSpace(a) && AllSpace(b) && AllSpace(c) && AllSpace(d) && AllSpace(c + d)
    ensures part == (a + k + b) + "=" + (c + v + d) && '=' !in k + b
  {
    a, b, c, d :| AllSpace(a) && AllSpace(b) && AllSpace(c) && AllSpace(d) &&
                  part == (a + k + b) + "=" + (c + v + d);
    assert !IsSpace('=');
    hide Trimmed;
  }

  lemma NamesMeans(part: string, k: string, v: string)
    ensures Names(part, k, v) <==>
            TrimSpace(part) != "" &&
            var cut := Cut(TrimSpace(part), '=');
            cut.Some? && TrimSpace(cut.value.0) == k != "" && TrimSpace(cut.value.1) == v
  {
    hide TrimSpace, Cut;
  }

  lemma Core(a: string, k: string, b: string, c: string, v: string, d: string)
    ensures var right, pad := if v == "" then "" else c + v, if v == "" then c + d else d;
            (a + k + b) + "=" + (c + v + d) == a + ((k + b) + "=" + right) + pad
  {
  }

  lemma CoreTrimmed(k: string, b: string, right: string, v: string)
    requires k != "" && Trimmed(k) && Trimmed(v)
    requires if v == "" then right == "" else exists c :: right == c + v
    ensures Trimmed((k + b) + "=" + right) && (k + b) + "=" + right != ""
  {
    var core := (k + b) + "=" + right;
    assert core[0] == k[0] && !IsSpace('=');
    if v != "" {
      assert core[|core| - 1] == right[|right| - 1] == v[|v| - 1];
    }
  }

  lemma TrimmedLeft(k: string, b: string)
    requires Trimmed(k) && AllSpace(b)
    ensures TrimSpace(k + b) == k
  {
    TrimSpaceDropsPads("", k, b);
    assert "" + k + b == k + b;
  }

  lemma TrimmedRight(c: string, v: string)
    requires Trimmed(v) && AllSpace(c)
    ensures TrimSpace(if v == "" then "" else c + v) == v
  {
    TrimSpaceDropsPads(c, v, "");
    assert c + v + "" == c + v;
    assert TrimSpace("") == "";
  }

  /** Which error is reported: that of the first entry that spells no pair, or contradicts an earlier one. */
  lemma ErrorExactly(parts: seq<string>, i: nat)
    requires i < |parts| && Acceptable(parts[..i]) && !Acceptable(parts[..i + 1])
    ensures ParseEntries(parts).Err?
    ensures '=' !in parts[i] <==> ParseEntries(parts) == Err(MissingEquals)
    ensures '=' in parts[i] && !WellFormed(parts[i]) <==> ParseEntries(parts) == Err(EmptyKey)
    ensures WellFormed(parts[i]) <==>
            exists k, v :: Spelled(parts[i], k, v) && ParseEntries(parts) == Err(Conflict(k))
  {
    hide *;
    AcceptedExactly(parts[..i]);
    AcceptedExactly(parts[..i + 1]);
    ErrorIsFinal(parts, i + 1);
    ParseSnoc(parts[..i], parts[i]);
    assert parts[..i] + [parts[i]] == parts[..i + 1];
    EntryErrors(ParseEntries(parts[..i]).value, parts[i]);
  }

  lemma EntryErrors(m: Selection, part: string)
    requires AddEntry(Ok(m), part).Err?
    ensures var r := AddEntry(Ok(m), part);
            && ('=' !in part <==> r == Err(MissingEquals))
            && ('=' in part && !WellFormed(part) <==> r == Err(EmptyKey))
            && (WellFormed(part) <==> exists k, v :: Spelled(part, k, v) && r == Err(Conflict(k)))
  {
    EqualsKept(part);
    forall k, v {
      NamesExactly(part, k, v);
    }
    hide TrimSpace, Spelled, IndexOf;
    if WellFormed(part) {
      var (k, v) := EntryPair(TrimSpace(part)).value;
      assert Names(part, k, v);
    }
  }

  lemma EqualsKept(part: string)
    ensures '=' in TrimSpace(part) <==> '=' in part
  {
    var before, after := TrimSpaceShape(part);
    assert !IsSpace('=');
    assert '=' !in before && '=' !in after;
  }

  ghost predicate Consistent(p: string, q: string) {
    forall k, v, w | Names(p, k, v) && Names(q, k, w) :: v == w
  }

  ghost predicate Acceptable(parts: seq<string>) {
    && (forall i | 0 <= i < |parts| :: WellFormed(parts[i]))
    && (forall i, j | 0 <= i < |parts| && 0 <= j < |parts| :: Consistent(parts[i], parts[j]))
  }

  predicate Has(m: Selection, k: string, v: string) {
    k in m && m[k] == v
  }

  predicate SomeNames(parts: seq<string>, k: string, v: string) {
    exists i | 0 <= i < |parts| :: Names(parts[i], k, v)
  }

  /** `m` holds exactly the pairs the parts name. */
  ghost predicate Collects(m: Selection, parts: seq<string>) {
    forall k, v :: Has(m, k, v) <==> SomeNames(parts, k, v)
  }

  lemma SnocNames(init: seq<string>, last: string, k: string, v: string)
    ensures SomeNames(init + [last], k, v) <==> SomeNames(init, k, v) || Names(last, k, v)
  {
    var parts := init + [last];
    assert parts[|init|] == last;
    assert forall i | 0 <= i < |init| :: parts[i] == init[i];
  }

  lemma SnocAcceptable(m: Selection, init: seq<string>, last: string)
    requires Acceptable(init) && Collects(m, init)
    ensures Acceptable(init + [last]) <==>
              WellFormed(last) && forall k, v | Names(last, k, v) && k in m :: m[k] == v
  {
    var parts := init + [last];
    assert parts[|init|] == last;
    assert forall i | 0 <= i < |init| :: parts[i] == init[i];
    if WellFormed(last) && forall k, v | Names(last, k, v) && k in m :: m[k] == v {
      forall i | 0 <= i < |init|
        ensures Consistent(init[i], last) && Consistent(last, init[i])
      {
        forall k, v, w | Names(init[i], k, v) && Names(last, k, w)
          ensures v == w
        {
          assert Has(m, k, v);
        }
      }
    }
    if Acceptable(parts) {
      forall k, v | Names(last, k, v) && k in m
        ensures m[k] == v
      {
        assert Has(m, k, m[k]);
        var i :| 0 <= i < |init| && Names(init[i], k, m[k]);
        assert Consistent(parts[i], parts[|init|]);
      }
    }
  }

  lemma SnocCollects(m: Selection, init: seq<string>, last: string)
    requires Acceptable(init) && Collects(m, init)
    ensures AddEntry(Ok(m), last).Ok? <==> Acceptable(init + [last])
    ensures AddEntry(Ok(m), last).Ok? ==> Collects(AddEntry(Ok(m), last).value, init + [last])
  {
    SnocAcceptable(m, init, last);
    forall k, v
      ensures SomeNames(init + [last], k, v) <==> Has(m, k, v) || Names(last, k, v)
    {
      SnocNames(init, last, k, v);
    }
    if WellFormed(last) && !Blank(last) {
      var (k, v) := EntryPair(TrimSpace(last)).value;
      assert Names(last, k, v);
    }
  }

  /** Accepted exactly when every entry is well formed and no two disagree; then the map is the pairs named. */
  lemma {:induction false} AcceptedExactly(parts: seq<string>)
    ensures ParseEntries(parts).Ok? <==> Acceptable(parts)
    ensures ParseEntries(parts).Ok? ==> Collects(ParseEntries(parts).value, parts)
  {
    if parts != [] {
      var init, last := parts[..|parts| - 1], parts[|parts| - 1];
      AcceptedExactly(init);
      assert parts == init + [last];
      if ParseEntries(init).Ok? {
        SnocCollects(ParseEntries(init).value, init, last);
      } else {
        assert forall i | 0 <= i < |init| :: init[i] == parts[i];
      }
    }
  }

  /** The maps an accepted selector can produce: trimmed words the separators cannot split. */
  predicate Printable(m: Selection) {
    forall k | k in m ::
      && k != "" && Trimmed(k) && ',' !in k && '=' !in k
      && Trimmed(m[k]) && ',' !in m[k]
  }

  lemma {:induction false} ParsedIsPrintable(parts: seq<string>)
    requires forall i | 0 <= i < |parts| :: ',' !in parts[i]
    requires ParseEntries(parts).Ok?
    ensures Printable(ParseEntries(parts).value)
  {
    if parts != [] {
      var part := parts[|parts| - 1];
      ParsedIsPrintable(parts[..|parts| - 1]);
      if !Blank(part) {
        var t := TrimSpace(part);
        CutShape(t, '=');
        var (k, v) := Cut(t, '=').value;
        var _, _ := TrimSpaceShape(k);
        var _, _ := TrimSpaceShape(v);
        TrimSpaceKeepsChars(part, ',');
        TrimSpaceKeepsChars(k, ',');
        TrimSpaceKeepsChars(v, ',');
        TrimSpaceKeepsChars(k, '=');
      }
    }
  }

  // ---- printing -----------------------------------------------------------

  function Pairs(keys: seq<string>, m: Selection): (r: seq<string>)
    requires forall k | k in keys :: k in m
    ensures |r| == |keys|
  {
    if keys == [] then []
    else Pairs(keys[..|keys| - 1], m) + [keys[|keys| - 1] + "=" + m[keys[|keys| - 1]]]
  }

  lemma {:induction false} PairsAt(keys: seq<string>, m: Selection)
    requires forall k | k in keys :: k in m
    ensures forall i | 0 <= i < |keys| :: Pairs(keys, m)[i] == keys[i] + "=" + m[keys[i]]
  {
    if keys != [] {
      PairsAt(keys[..|keys| - 1], m);
    }
  }

  lemma PairsStart(keys: seq<string>, m: Selection)
    requires forall k | k in keys :: k in m
    ensures Pairs(keys[..0], m) == []
  {
  }

  lemma SortedKeys(order: seq<string>)
    ensures var keys := SortStrings(order);
            Sorted(keys) && |keys| == |order| && forall k :: k in keys <==> k in order
  {
    SortStringsSorted(order);
    hide SortStrings, Sorted;
    var keys := SortStrings(order);
    SameStrings(order, keys);
    assert |multiset(keys)| == |multiset(order)|;
  }

  lemma SameStrings(a: seq<string>, b: seq<string>)
    requires multiset(a) == multiset(b)
    ensures forall k :: k in a <==> k in b
  {
    assert forall k :: k in a <==> k in multiset(a);
  }

  /** buildDiscoveryDiscriminator, `order` being the order in which Go ranges over the map. */
  method BuildDiscoveryDiscriminator(project: string, selector: Selection, order: seq<string>)
    returns (out: seq<string>)
    requires Enumerates(order, selector)
    ensures selector == map[] && project == "" ==> out == []
    ensures selector == map[] && project != "" ==> out == ["com.docker.compose.project=" + project]
    ensures forall k | k in SortStrings(order) :: k in selector
    ensures selector != map[] ==> out == Pairs(SortStrings(order), selector)
    ensures Sorted(SortStrings(order)) && |SortStrings(order)| == |order|
    ensures selector != map[] ==>
              |out| == |order| &&
              forall i | 0 <= i < |out| :: out[i] == SortStrings(order)[i] + "=" + selector[SortStrings(order)[i]]
  {
    hide SortStrings, Sorted, Pairs;
    var keys := SortStrings(order);
    SortedKeys(order);
    PairsAt(keys, selector);
    PairsStart(keys, selector);
    if |selector| > 0 {
      out := [];
      for i := 0 to |keys|
        invariant out == Pairs(keys[..i], selector)
      {
        assert keys[..i + 1][..i] == keys[..i];
        PairsSnoc(keys[..i + 1], selector);
        out := out + [keys[i] + "=" + selector[keys[i]]];
      }
      assert keys[..|keys|] == keys;
    } else if project != "" {
      out := ["com.docker.compose.project=" + project];
    } else {
      out := [];
    }
  }

  lemma {:induction false} DistinctSameMultiset(a: seq<string>, b: seq<string>)
    requires Distinct(a)
    requires Distinct(b)
    requires forall k :: k in a <==> k in b
    ensures multiset(a) == multiset(b)
  {
    DistinctOnce(a);
    DistinctOnce(b);
  }

  lemma {:induction false} DistinctOnce(a: seq<string>)
    requires Distinct(a)
    ensures forall k :: multiset(a)[k] == if k in a then 1 else 0
  {
    if a != [] {
      DistinctOnce(a[1..]);
      assert a == [a[0]] + a[1..];
      assert a[0] !in a[1..];
    }
  }

  /** The printed form depends only on the map, not on the order it is walked in. */
  lemma PrintIgnoresOrder(m: Selection, order: seq<string>, order': seq<string>)
    requires Enumerates(order, m) && Enumerates(order', m)
    ensures SortStrings(order) == SortStrings(order')
  {
    DistinctSameMultiset(order, order');
    SortStringsSorted(order);
    SortStringsSorted(order');
    SortUnique(SortStrings(order), SortStrings(order'));
  }

  // ---- print, then parse ----------------------------------------------------

  lemma PairParses(k: string, v: string)
    requires k != "" && Trimmed(k) && '=' !in k && ',' !in k && Trimmed(v) && ',' !in v
    ensures Names(k + "=" + v, k, v) && ',' !in k + "=" + v
  {
    var pair := k + ['='] + v;
    assert pair[0] == k[0];
    assert pair[|pair| - 1] == if v == "" then '=' else v[|v| - 1];
    TrimSpaceDropsPads("", pair, "");
    assert "" + pair + "" == pair;
    CutAt(k, '=', v);
    TrimSpaceDropsPads("", k, "");
    assert "" + k + "" == k;
    TrimSpaceDropsPads("", v, "");
    assert "" + v + "" == v;
  }

  lemma PairAdds(m: Selection, k: string, v: string)
    requires k != "" && Trimmed(k) && '=' !in k && ',' !in k && Trimmed(v) && ',' !in v
    requires k !in m
    ensures AddEntry(Ok(m), k + "=" + v) == Ok(m[k := v])
  {
    PairParses(k, v);
  }

  lemma ParseSnoc(init: seq<string>, last: string)
    ensures ParseEntries(init + [last]) == AddEntry(ParseEntries(init), last)
  {
    var parts := init + [last];
    assert parts[..|parts| - 1] == init;
  }

  function Restrict(keys: seq<string>, m: Selection): Selection {
    map k | k in keys && k in m :: m[k]
  }

  /** The entry of one more key extends what the others parsed to. */
  lemma PairExtends(init: seq<string>, last: string, m: Selection)
    requires Printable(m) && last in m && last !in init
    ensures AddEntry(Ok(Restrict(init, m)), last + "=" + m[last]) == Ok(Restrict(init + [last], m))
    ensures ',' !in last + "=" + m[last]
  {
    PairParses(last, m[last]);
    PairAdds(Restrict(init, m), last, m[last]);
    assert Restrict(init + [last], m) == Restrict(init, m)[last := m[last]];
  }

  lemma PairsSnoc(keys: seq<string>, m: Selection)
    requires keys != [] && forall k | k in keys :: k in m
    ensures var init, last := keys[..|keys| - 1], keys[|keys| - 1];
            Pairs(keys, m) == Pairs(init, m) + [last + "=" + m[last]]
  {
  }

  lemma {:induction false} PairsParse(keys: seq<string>, m: Selection)
    requires Printable(m) && forall k | k in keys :: k in m
    requires Distinct(keys)
    ensures ParseEntries(Pairs(keys, m)) == Ok(Restrict(keys, m))
    ensures forall i | 0 <= i < |keys| :: ',' !in Pairs(keys, m)[i]
  {
    if keys == [] {
      assert Restrict(keys, m) == map[];
    } else {
      var init, last := keys[..|keys| - 1], keys[|keys| - 1];
      assert keys == init + [last] && last !in init;
      PairsSnoc(keys, m);
      hide Printable, AddEntry, ParseEntries, Pairs, Restrict;
      PairsParse(init, m);
      PairExtends(init, last, m);
      ParseSnoc(Pairs(init, m), last + "=" + m[last]);
    }
  }

  /** Printing a printable map, in any order of keys, and parsing the result gives the map back. */
  lemma PrintThenParse(m: Selection, keys: seq<string>)
    requires Printable(m) && Enumerates(keys, m)
    ensures ParseSpec(Join(Pairs(keys, m), ',')) == Ok(m)
  {
    assert Restrict(keys, m) == m;
    PairsParse(keys, m);
    if keys == [] {
      assert TrimSpace("") == "";
    } else {
      SplitJoin(Pairs(keys, m), ',');
      PairsHaveEquals(keys, m);
      NotBlankWith(Join(Pairs(keys, m), ','), '=');
    }
  }

  lemma NotBlankWith(text: string, c: char)
    requires c in text && !IsSpace(c)
    ensures TrimSpace(text) != ""
  {
    var before, after := TrimSpaceShape(text);
  }

  lemma {:induction false} PairsHaveEquals(keys: seq<string>, m: Selection)
    requires keys != [] && forall k | k in keys :: k in m
    ensures '=' in Pairs(keys, m)[0]
  {
    if |keys| > 1 {
      PairsHaveEquals(keys[..|keys| - 1], m);
    } else {
      assert Pairs(keys[..0], m) == [];
      assert (keys[0] + "=" + m[keys[0]])[|keys[0]|] == '=';
    }
  }

  /** For every accepted selector: printing what it parsed to and parsing again changes nothing. */
  lemma AcceptedRoundTrips(raw: string, m: Selection, order: seq<string>)
    requires ParseSpec(raw) == Ok(m) && Enumerates(order, m)
    ensures Enumerates(SortStrings(order), m)
    ensures ParseSpec(Join(Pairs(SortStrings(order), m), ',')) == Ok(m)
  {
    SplitPartsFree(raw, ',');
    if TrimSpace(raw) != "" {
      ParsedIsPrintable(Split(raw, ','));
    }
    var keys := SortStrings(order);
    SameStrings(order, keys);
    DistinctOnce(order);
    forall i, j | 0 <= i < j < |keys|
      ensures keys[i] != keys[j]
    {
      if keys[i] == keys[j] { TwiceCounts(keys, i, j); }
    }
    PrintThenParse(m, keys);
  }

  lemma TwiceCounts(s: seq<string>, i: nat, j: nat)
    requires i < j < |s| && s[i] == s[j]
    ensures multiset(s)[s[i]] >= 2
  {
    assert s == s[..i] + [s[i]] + s[i + 1..j] + [s[j]] + s[j + 1..];
  }
}
