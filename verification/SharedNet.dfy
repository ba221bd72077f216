/** The shared-network picker: which of anchord's own networks the backends are read from. */
module SharedNet {
  import opened GoBase
  import opened GoStrings

  predicate HasTransit(name: string) {
    Contains(ToLower(name), ToLower("transit"))
  }

  /** A Go map read: 0 for a missing key. */
  function Count(counts: map<string, int>, name: string): int {
    if name in counts then counts[name] else 0
  }

  lemma HasTransitExactly(name: string)
    ensures HasTransit(name) <==> Mentions(name, "transit")
  {
    LowerExactly("transit", "transit");
    ContainsExactly(name, "transit");
    hide Contains, Mentions, ToLower;
  }

  // ---- the order the picker maximises ---------------------------------------

  /** `c` is preferred to `d`, or is the same name: more backends, then "transit", then the alphabet. */
  predicate AtLeast(counts: map<string, int>, c: string, d: string) {
    || Count(counts, c) > Count(counts, d)
    || (Count(counts, c) == Count(counts, d) && HasTransit(c) && !HasTransit(d))
    || (Count(counts, c) == Count(counts, d) && HasTransit(c) == HasTransit(d) && !Less(d, c))
  }

  predicate IsBest(counts: map<string, int>, candidates: seq<string>, c: string) {
    c in candidates && forall d | d in candidates :: AtLeast(counts, c, d)
  }

  /** Some candidate has a backend on it. */
  predicate Seen(counts: map<string, int>, candidates: seq<string>) {
    exists c | c in candidates :: Count(counts, c) > 0
  }

  predicate NonNegative(counts: map<string, int>) {
    forall c | c in counts :: counts[c] >= 0
  }

  lemma BestUnique(counts: map<string, int>, candidates: seq<string>, c: string, d: string)
    requires IsBest(counts, candidates, c) && IsBest(counts, candidates, d)
    ensures c == d
  {
    assert AtLeast(counts, c, d) && AtLeast(counts, d, c);
    LessTotal(c, d);
  }

  function BackendsOn(counts: map<string, int>, name: string): int {
    if name in counts then counts[name] else 0
  }

  /**
   Nobody has more backends; of those with as many, one whose name mentions "transit" wins over
   one whose name does not, and otherwise the earlier name.
   */
  lemma BestExactly(counts: map<string, int>, candidates: seq<string>, c: string)
    ensures IsBest(counts, candidates, c) <==>
            && c in candidates && (forall d | d in candidates :: BackendsOn(counts, d) <= BackendsOn(counts, c))
            && (forall d | d in candidates && BackendsOn(counts, d) == BackendsOn(counts, c) ::
                 (Mentions(d, "transit") ==> Mentions(c, "transit")) &&
                 (Mentions(c, "transit") == Mentions(d, "transit") && d != c ==> Less(c, d)))
  {
    forall d | d in candidates
      ensures AtLeast(counts, c, d) <==>
              && BackendsOn(counts, d) <= BackendsOn(counts, c)
              && (BackendsOn(counts, d) == BackendsOn(counts, c) ==>
                  (Mentions(d, "transit") ==> Mentions(c, "transit")) &&
                  (Mentions(c, "transit") == Mentions(d, "transit") && d != c ==> Less(c, d)))
    {
      HasTransitExactly(c);
      HasTransitExactly(d);
      LessTotal(c, d);
      hide HasTransit, Mentions, Less;
    }
    hide HasTransit, Mentions, Less, AtLeast, BackendsOn;
  }

  /** Preferring is transitive, so the preferred candidate does not depend on how the list is searched. */
  lemma AtLeastTransitive(counts: map<string, int>, c: string, d: string, e: string)
    requires AtLeast(counts, c, d) && AtLeast(counts, d, e)
    ensures AtLeast(counts, c, e)
  {
    LessTotal(c, d);
    LessTotal(d, e);
    LessTotal(c, e);
    if Less(c, d) && Less(d, e) {
      LessTransitive(c, d, e);
    }
  }

  /**
   Without a backend in sight the fallback ignores the counts; as long as none is
   negative, what it prefers is still the overall best.
   */
  lemma FallbackIsBest(counts: map<string, int>, candidates: seq<string>, c: string)
    requires NonNegative(counts) && !Seen(counts, candidates)
    ensures IsBest(map[], candidates, c) <==> IsBest(counts, candidates, c)
  {
    forall d | d in candidates && c in candidates
      ensures AtLeast(map[], c, d) <==> AtLeast(counts, c, d)
    {
      assert Count(counts, c) == 0 && Count(counts, d) == 0;
    }
  }

  /** With a negative count the fallback and the order part company. */
  lemma FallbackNeedsNonNegative()
    ensures var counts: map<string, int> := map["a" := -1];
            !Seen(counts, ["a", "b"]) && IsBest(map[], ["a", "b"], "a") && !IsBest(counts, ["a", "b"], "a")
  {
    NoTransit("a");
    NoTransit("b");
    assert Less("a", "b");
    LessTotal("a", "b");
    assert Count(map["a" := -1], "b") == 0;
    assert !AtLeast(map["a" := -1], "a", "b");
  }

  lemma NoTransit(s: string)
    requires |s| < 7
    ensures !HasTransit(s)
  {
    assert |ToLower(s)| < |ToLower("transit")|;
  }

  // ---- the picker -------------------------------------------------------------------

  function Without(names: seq<string>, ext: string): (r: seq<string>)
    ensures forall n :: n in r <==> n in names && n != ext
  {
    if names == [] then []
    else Without(names[..|names| - 1], ext) + if names[|names| - 1] == ext then [] else [names[|names| - 1]]
  }

  class Picker {
    var candidates: seq<string>
    var pinned: string
    var chosen: string
    var settled: bool

    constructor (candidates: seq<string>, pinned: string)
      requires Sorted(candidates)
      ensures this.candidates == candidates && this.pinned == pinned && chosen == "" && !settled && Valid()
    {
      this.candidates, this.pinned, this.chosen, this.settled := candidates, pinned, "", false;
    }

    predicate Valid()
      reads this
    {
      Sorted(candidates)
    }

    /** New. None is the configuration error: a pinned network this container is not on. */
    static method New(selfNetworks: seq<string>, extNetwork: string, pinned: string) returns (r: Option<Picker>)
      ensures r.None? <==> pinned != "" && pinned !in selfNetworks
      ensures r.Some? ==> fresh(r.value) && r.value.Valid() && r.value.pinned == pinned && !r.value.settled
      ensures r.Some? ==> r.value.candidates == SortStrings(Without(selfNetworks, extNetwork))
    {
      var candidates: seq<string> := [];
      var inSelf: set<string> := {};
      for i := 0 to |selfNetworks|
        invariant candidates == Without(selfNetworks[..i], extNetwork)
        invariant inSelf == set n | n in selfNetworks[..i]
      {
        var n := selfNetworks[i];
        assert selfNetworks[..i + 1] == selfNetworks[..i] + [n];
        inSelf := inSelf + {n};
        if n == extNetwork {
          continue;
        }
        candidates := candidates + [n];
      }
      assert selfNetworks[..|selfNetworks|] == selfNetworks;
      SortStringsSorted(candidates);
      if pinned != "" && pinned !in inSelf {
        return None;
      }
      var p := new Picker(SortStrings(candidates), pinned);
      return Some(p);
    }

    /** Pick. */
    method Pick(backendNetworks: map<string, int>) returns (r: string)
      requires Valid()
      modifies this`chosen, this`settled
      ensures pinned != "" ==> r == pinned == chosen && settled
      ensures pinned == "" && candidates == [] ==> r == "" && chosen == old(chosen) && settled == old(settled)
      ensures pinned == "" && candidates != [] && old(settled) ==> r == old(chosen) == chosen && settled
      ensures pinned == "" && candidates != [] && !old(settled) ==>
                && r == chosen && settled == Seen(backendNetworks, candidates)
                && (settled <==> exists c | c in candidates :: c in backendNetworks && backendNetworks[c] > 0)
                && IsBest(if settled then backendNetworks else map[], candidates, r)
      ensures pinned == "" && candidates != [] && !old(settled) && NonNegative(backendNetworks) ==>
                IsBest(backendNetworks, candidates, r)
    {
      if pinned != "" {
        chosen, settled := pinned, true;
        return pinned;
      }
      if |candidates| == 0 {
        return "";
      }
      if settled {
        return chosen;
      }
      var bestCount, best, bestHasTransit := -1, "", false;
      for i := 0 to |candidates|
        invariant bestCount >= -1 && chosen == old(chosen) && settled == old(settled)
        invariant forall d | d in candidates[..i] :: Count(backendNetworks, d) <= bestCount
        invariant bestCount >= 0 ==> IsBest(backendNetworks, candidates[..i], best)
        invariant bestCount >= 0 ==> Count(backendNetworks, best) == bestCount && bestHasTransit == HasTransit(best)
      {
        var c := candidates[i];
        assert candidates[..i + 1] == candidates[..i] + [c];
        var count, hasTransit := Count(backendNetworks, c), HasTransit(c);
        BestSoFar(backendNetworks, candidates, i, best, bestCount);
        if count > bestCount {
          bestCount, best, bestHasTransit := count, c, hasTransit;
        } else if count == bestCount {
          if hasTransit && !bestHasTransit {
            best, bestHasTransit := c, true;
          }
        }
      }
      assert candidates[..|candidates|] == candidates;
      if bestCount > 0 {
        chosen, settled := best, true;
        return best;
      }
      for i := 0 to |candidates|
        invariant chosen == old(chosen) && settled == old(settled)
        invariant forall d | d in candidates[..i] :: !HasTransit(d)
      {
        var c := candidates[i];
        assert candidates[..i + 1] == candidates[..i] + [c];
        if HasTransit(c) {
          chosen := c;
          FirstTransit(candidates, i);
          BothBest(backendNetworks, candidates, best, bestCount, c);
          return c;
        }
      }
      assert candidates[..|candidates|] == candidates;
      chosen := candidates[0];
      FirstOfAll(candidates);
      BothBest(backendNetworks, candidates, best, bestCount, chosen);
      return chosen;
    }
  }

  /** One turn of the counting loop: the next candidate is beaten, or beats all the others. */
  lemma BestSoFar(counts: map<string, int>, candidates: seq<string>, i: nat, best: string, bestCount: int)
    requires i < |candidates| && Sorted(candidates)
    requires forall d | d in candidates[..i] :: Count(counts, d) <= bestCount
    requires bestCount >= 0 ==> IsBest(counts, candidates[..i], best) && Count(counts, best) == bestCount
    ensures var c := candidates[i];
            if Count(counts, c) > bestCount ||
               (bestCount >= 0 && Count(counts, c) == bestCount && HasTransit(c) && !HasTransit(best))
            then IsBest(counts, candidates[..i + 1], c)
            else bestCount >= 0 ==> IsBest(counts, candidates[..i + 1], best)
  {
    var c := candidates[i];
    assert candidates[..i + 1] == candidates[..i] + [c];
    LessTotal(c, c);
    if bestCount >= 0 {
      var j :| 0 <= j < i && candidates[j] == best;
      assert !Less(c, best);
      if Count(counts, c) == bestCount && HasTransit(c) && !HasTransit(best) {
        forall d | d in candidates[..i] ensures AtLeast(counts, c, d) {
          assert AtLeast(counts, c, best);
          AtLeastTransitive(counts, c, best, d);
        }
      }
    }
  }

  lemma FirstTransit(candidates: seq<string>, i: nat)
    requires i < |candidates| && Sorted(candidates) && HasTransit(candidates[i])
    requires forall d | d in candidates[..i] :: !HasTransit(d)
    ensures IsBest(map[], candidates, candidates[i])
  {
    var c := candidates[i];
    LessTotal(c, c);
    forall d | d in candidates
      ensures AtLeast(map[], c, d)
    {
      var j :| 0 <= j < |candidates| && candidates[j] == d;
      if j < i {
        assert d in candidates[..i];
      }
    }
  }

  lemma FirstOfAll(candidates: seq<string>)
    requires candidates != [] && Sorted(candidates) && forall d | d in candidates :: !HasTransit(d)
    ensures IsBest(map[], candidates, candidates[0])
  {
    LessTotal(candidates[0], candidates[0]);
    forall d | d in candidates
      ensures AtLeast(map[], candidates[0], d)
    {
      var j :| 0 <= j < |candidates| && candidates[j] == d;
    }
  }

  /** The fallback coincides with the loop's own best. */
  lemma BothBest(counts: map<string, int>, candidates: seq<string>, best: string, bestCount: int, c: string)
    requires bestCount <= 0 && forall d | d in candidates :: Count(counts, d) <= bestCount
    requires bestCount >= 0 ==> IsBest(counts, candidates, best)
    requires IsBest(map[], candidates, c)
    ensures !Seen(counts, candidates)
    ensures NonNegative(counts) ==> IsBest(counts, candidates, c) && c == best
  {
    if NonNegative(counts) {
      FallbackIsBest(counts, candidates, c);
      assert Count(counts, c) >= 0;
      BestUnique(counts, candidates, c, best);
    }
  }

  /**
   One Pick per reconcile. The first snapshot with a backend on a candidate decides:
   its best is returned then and ever after, whatever the later snapshots say.
   */
  method PickAll(p: Picker, snapshots: seq<map<string, int>>) returns (picks: seq<string>)
    requires p.Valid() && p.pinned == "" && p.candidates != [] && !p.settled
    modifies p`chosen, p`settled
    ensures |picks| == |snapshots|
    ensures forall i, j | 0 <= i <= j < |picks| && Seen(snapshots[i], p.candidates) :: picks[j] == picks[i]
    ensures forall i | 0 <= i < |picks| && (forall h | 0 <= h < i :: !Seen(snapshots[h], p.candidates)) ::
              IsBest(if Seen(snapshots[i], p.candidates) then snapshots[i] else map[], p.candidates, picks[i])
  {
    hide Seen, IsBest, Sorted;
    picks := [];
    for k := 0 to |snapshots|
      invariant |picks| == k
      invariant p.settled ==> exists i | 0 <= i < k :: Seen(snapshots[i], p.candidates)
      invariant forall i | 0 <= i < k && Seen(snapshots[i], p.candidates) :: p.settled && p.chosen == picks[i]
      invariant forall i, j | 0 <= i <= j < k && Seen(snapshots[i], p.candidates) :: picks[j] == picks[i]
      invariant forall i | 0 <= i < k && (forall h | 0 <= h < i :: !Seen(snapshots[h], p.candidates)) ::
                  IsBest(if Seen(snapshots[i], p.candidates) then snapshots[i] else map[], p.candidates, picks[i])
    {
      var r := p.Pick(snapshots[k]);
      picks := picks + [r];
    }
  }

  // ---- the picker's input --------------------------------------------------------------

  /** A listed container's networks: None without network settings; false for a nil endpoint. */
  type Networks = Option<map<string, bool>>

  predicate Attached(n: Networks, name: string) {
    n.Some? && name in n.value && n.value[name]
  }

  function Attachments(list: seq<Networks>, name: string): nat {
    if list == [] then 0
    else Attachments(list[..|list| - 1], name) + if Attached(list[|list| - 1], name) then 1 else 0
  }

  lemma {:induction false} AttachmentsExactly(list: seq<Networks>, name: string)
    ensures Attachments(list, name) ==
            |set i | 0 <= i < |list| && list[i].Some? && name in list[i].value && list[i].value[name]|
  {
    var places := set i | 0 <= i < |list| && list[i].Some? && name in list[i].value && list[i].value[name];
    if list == [] {
      assert places == {};
    } else {
      var k := |list| - 1;
      var init := list[..k];
      AttachmentsExactly(init, name);
      var before := set i | 0 <= i < |init| && init[i].Some? && name in init[i].value && init[i].value[name];
      assert places == before + if Attached(list[k], name) then {k} else {};
    }
  }

  /** countBackendsPerNetwork: how many of the listed containers are on each network. */
  method CountBackendsPerNetwork(list: seq<Networks>) returns (out: map<string, int>)
    ensures forall name :: Count(out, name) == Attachments(list, name)
    ensures NonNegative(out)
  {
    out := map[];
    for i := 0 to |list|
      invariant forall name :: Count(out, name) == Attachments(list[..i], name)
      invariant NonNegative(out)
    {
      assert list[..i + 1][..i] == list[..i];
      if list[i].None? {
        continue;
      }
      var names := RangeOrder(list[i].value);
      ghost var before := out;
      for j := 0 to |names|
        invariant forall name ::
                    Count(out, name) == Count(before, name) + if name in names[..j] && list[i].value[name] then 1 else 0
        invariant NonNegative(out)
      {
        var name := names[j];
        assert names[..j + 1] == names[..j] + [name];
        if !list[i].value[name] {
          continue;
        }
        out := out[name := Count(out, name) + 1];
      }
      assert names[..|names|] == names;
    }
    assert list[..|list|] == list;
  }
}
