/** The detector of containers left in a dead network namespace, and its report-once watcher. */
module Dependents {
  import opened GoBase
  import opened GoStrings
  import opened References

  const PROJECT := "com.docker.compose.project"
  const SERVICE := "com.docker.compose.service"

  function Label(c: Container, key: string): string {
    if key in c.labels then c.labels[key] else ""
  }

  function ComposeHint(c: Container): string {
    if Label(c, PROJECT) == "" || Label(c, SERVICE) == "" then ""
    else "docker compose -p " + Label(c, PROJECT) + " up -d --no-deps --force-recreate " + Label(c, SERVICE)
  }

  /** A command to run when both compose labels say something, and nothing otherwise. */
  lemma HintExactly(c: Container, project: string, service: string)
    requires project == if "com.docker.compose.project" in c.labels then c.labels["com.docker.compose.project"] else ""
    requires service == if "com.docker.compose.service" in c.labels then c.labels["com.docker.compose.service"] else ""
    ensures ComposeHint(c) ==
            if project != "" && service != ""
              then "docker compose -p " + project + " up -d --no-deps --force-recreate " + service
            else ""
  {
  }

  datatype StaleNetns = StaleNetns(container: Container, staleTarget: string, composeHint: string)

  // ---- Find -----------------------------------------------------------------

  /** `c` joins the namespace of `ref`, and nothing in `all` answers to that. */
  predicate IsStale(c: Container, ref: string, all: seq<Container>) {
    Ref(c.networkMode) == Some(ref) && !RefResolves(ref, all)
  }

  function Victims(candidates: seq<Container>, all: seq<Container>): seq<StaleNetns> {
    if candidates == [] then []
    else
      var c := candidates[|candidates| - 1];
      Victims(candidates[..|candidates| - 1], all) +
      if Ref(c.networkMode).Some? && !RefResolves(Ref(c.networkMode).value, all)
      then [StaleNetns(c, Ref(c.networkMode).value, ComposeHint(c))] else []
  }

  method Find(candidates: seq<Container>, all: seq<Container>) returns (out: seq<StaleNetns>)
    ensures out == Victims(candidates, all)
  {
    out := [];
    for i := 0 to |candidates|
      invariant out == Victims(candidates[..i], all)
    {
      var c := candidates[i];
      assert candidates[..i + 1][..i] == candidates[..i];
      var cut := CutPrefix(c.networkMode, NETMODE);
      if cut.None? {
        continue;
      }
      var ref := TrimSpace(cut.value);
      if ref == "" {
        continue;
      }
      if RefResolves(ref, all) {
        continue;
      }
      out := out + [StaleNetns(c, ref, ComposeHint(c))];
    }
    assert candidates[..|candidates|] == candidates;
  }

  lemma {:induction false} VictimsAreStale(candidates: seq<Container>, all: seq<Container>, s: StaleNetns)
    ensures s in Victims(candidates, all) <==>
            s.container in candidates && IsStale(s.container, s.staleTarget, all) &&
              s.composeHint == ComposeHint(s.container)
  {
    if candidates != [] {
      VictimsAreStale(candidates[..|candidates| - 1], all, s);
      assert candidates == candidates[..|candidates| - 1] + [candidates[|candidates| - 1]];
    }
  }

  /**
   A candidate is reported exactly when it joins the namespace of a reference by which no
   listed container goes: as its ID, as 12 or more characters that its ID begins with, or as a name.
   */
  lemma StaleIffDenotesNothing(candidates: seq<Container>, all: seq<Container>, c: Container, ref: string)
    requires forall d | d in all :: |d.id| == 64
    ensures StaleNetns(c, ref, ComposeHint(c)) in Victims(candidates, all) <==>
            && c in candidates && Ref(c.networkMode) == Some(ref)
            && forall d | d in all :: d.id != ref && !(12 <= |ref| <= 64 && d.id[..|ref|] == ref) && !HasName(d, ref)
  {
    VictimsAreStale(candidates, all, StaleNetns(c, ref, ComposeHint(c)));
    RefResolvesIff(all, ref);
    forall d | d in all {
      DenotesExactly(d, ref);
    }
    hide Denotes, HasName, Victims, RefResolves;
  }

  /** Each candidate is reported once at most, in the order of the list. */
  lemma {:induction false} VictimsInOrder(before: seq<Container>, c: Container, after: seq<Container>,
                                          all: seq<Container>)
    ensures Victims(before + [c] + after, all) == Victims(before, all) + Victims([c], all) + Victims(after, all)
    ensures |Victims([c], all)| <= 1
    decreases |after|
  {
    hide RefResolves, Ref, ComposeHint;
    var list := before + [c] + after;
    assert Victims([c], all) == Victims([c][..0], all) + Victims([c], all);
    if after == [] {
      assert list == before + [c] && list[..|before|] == before && [c][..0] == [];
    } else {
      assert list[..|list| - 1] == before + [c] + after[..|after| - 1];
      VictimsInOrder(before, c, after[..|after| - 1], all);
    }
  }

  // ---- one watcher tick --------------------------------------------------------

  function Scoped(all: seq<Container>, project: string): seq<Container> {
    if all == [] then []
    else Scoped(all[..|all| - 1], project) + if Label(all[|all| - 1], PROJECT) == project then [all[|all| - 1]] else []
  }

  method ScopeByProject(all: seq<Container>, project: string) returns (out: seq<Container>)
    ensures out == Scoped(all, project)
  {
    out := [];
    for i := 0 to |all|
      invariant out == Scoped(all[..i], project)
    {
      assert all[..i + 1][..i] == all[..i];
      if Label(all[i], PROJECT) == project {
        out := out + [all[i]];
      }
    }
    assert all[..|all|] == all;
  }

  lemma {:induction false} ScopedMembers(all: seq<Container>, project: string, c: Container)
    ensures c in Scoped(all, project) <==>
            c in all &&
            project == if "com.docker.compose.project" in c.labels then c.labels["com.docker.compose.project"] else ""
  {
    if all != [] {
      ScopedMembers(all[..|all| - 1], project, c);
      assert all == all[..|all| - 1] + [all[|all| - 1]];
    }
  }

  lemma {:induction false} ScopedInOrder(before: seq<Container>, c: Container, after: seq<Container>, project: string)
    ensures Scoped(before + [c] + after, project) ==
            Scoped(before, project) + Scoped([c], project) + Scoped(after, project)
    ensures |Scoped([c], project)| <= 1
    decreases |after|
  {
    var list := before + [c] + after;
    if after == [] {
      assert list == before + [c] && list[..|before|] == before && [c][..0] == [];
    } else {
      assert list[..|list| - 1] == before + [c] + after[..|after| - 1];
      ScopedInOrder(before, c, after[..|after| - 1], project);
    }
  }

  function SeenKey(s: StaleNetns): string {
    s.container.id + "|" + s.staleTarget
  }

  /** The key tells victims apart, because no ID holds the separator. */
  lemma SeenKeyInjective(a: StaleNetns, b: StaleNetns)
    requires '|' !in a.container.id && '|' !in b.container.id
    ensures SeenKey(a) == SeenKey(b) <==> a.container.id == b.container.id && a.staleTarget == b.staleTarget
  {
    assert SeenKey(a) == a.container.id + ['|'] + a.staleTarget;
    assert SeenKey(b) == b.container.id + ['|'] + b.staleTarget;
    CutAt(a.container.id, '|', a.staleTarget);
    CutAt(b.container.id, '|', b.staleTarget);
  }

  /** What is stale in one listing, within the project. */
  function VictimsIn(all: seq<Container>, project: string): seq<StaleNetns> {
    Victims(Scoped(all, project), all)
  }

  /** The victims to report: those whose key is new, in order. */
  function NewOnes(stale: seq<StaleNetns>, seen: set<string>): seq<StaleNetns> {
    if stale == [] then []
    else
      var s := stale[|stale| - 1];
      NewOnes(stale[..|stale| - 1], seen) + if SeenKey(s) in seen then [] else [s]
  }

  lemma {:induction false} NewOnesExactly(stale: seq<StaleNetns>, seen: set<string>, s: StaleNetns)
    ensures s in NewOnes(stale, seen) <==> s in stale && SeenKey(s) !in seen
  {
    if stale != [] {
      NewOnesExactly(stale[..|stale| - 1], seen, s);
      assert stale == stale[..|stale| - 1] + [stale[|stale| - 1]];
    }
  }

  lemma {:induction false} NewOnesInOrder(before: seq<StaleNetns>, s: StaleNetns, after: seq<StaleNetns>,
                                          seen: set<string>)
    ensures NewOnes(before + [s] + after, seen) == NewOnes(before, seen) + NewOnes([s], seen) + NewOnes(after, seen)
    ensures |NewOnes([s], seen)| <= 1
    decreases |after|
  {
    var list := before + [s] + after;
    if after == [] {
      assert list == before + [s] && list[..|before|] == before && [s][..0] == [];
    } else {
      assert list[..|list| - 1] == before + [s] + after[..|after| - 1];
      NewOnesInOrder(before, s, after[..|after| - 1], seen);
    }
  }

  class Watcher {
    const scopeProject: string
    var seen: set<string>

    constructor (scopeProject: string)
      ensures this.scopeProject == scopeProject && seen == {}
    {
      this.scopeProject, this.seen := scopeProject, {};
    }

    /** tick: `list` is None when the daemon's answer failed; `reported` is what the hook was called with. */
    method Tick(list: Option<seq<Container>>) returns (reported: seq<StaleNetns>)
      modifies this`seen
      ensures list.None? ==> reported == [] && seen == old(seen)
      ensures list.Some? ==> seen == set s | s in VictimsIn(list.value, scopeProject) :: SeenKey(s)
      ensures list.Some? ==> reported == NewOnes(VictimsIn(list.value, scopeProject), old(seen))
    {
      if list.None? {
        return [];
      }
      var candidates := ScopeByProject(list.value, scopeProject);
      var stale := Find(candidates, list.value);
      hide Victims, Scoped, NewOnes;
      var newSeen;
      reported, newSeen := Dispatch(stale, seen);
      seen := newSeen;
    }

    /** The loop over the victims: a new set of keys, and a hook call for each key not seen before. */
    static method Dispatch(stale: seq<StaleNetns>, seen: set<string>)
      returns (reported: seq<StaleNetns>, newSeen: set<string>)
      ensures reported == NewOnes(stale, seen)
      ensures newSeen == set s | s in stale :: SeenKey(s)
    {
      hide SeenKey;
      newSeen := {};
      reported := [];
      for i := 0 to |stale|
        invariant newSeen == set s | s in stale[..i] :: SeenKey(s)
        invariant reported == NewOnes(stale[..i], seen)
      {
        assert stale[..i + 1] == stale[..i] + [stale[i]];
        assert stale[..i + 1][..i] == stale[..i];
        newSeen := newSeen + {SeenKey(stale[i])};
        if SeenKey(stale[i]) in seen {
          continue;
        }
        reported := reported + [stale[i]];
      }
      assert stale[..|stale|] == stale;
    }
  }

  // ---- a whole run ---------------------------------------------------------------

  /** The victim, by container ID and reference, is stale in this listing. */
  ghost predicate StaleAt(list: seq<Container>, project: string, id: string, ref: string) {
    exists c :: c in list && c.id == id && Label(c, PROJECT) == project && IsStale(c, ref, list)
  }

  /** The last listing that arrived before tick `t`. */
  function Previous(lists: seq<Option<seq<Container>>>, t: nat): Option<seq<Container>>
    requires t <= |lists|
  {
    if t == 0 then None else if lists[t - 1].Some? then lists[t - 1] else Previous(lists, t - 1)
  }

  ghost predicate StaleBefore(lists: seq<Option<seq<Container>>>, t: nat, project: string, id: string, ref: string)
    requires t <= |lists|
  {
    Previous(lists, t).Some? && StaleAt(Previous(lists, t).value, project, id, ref)
  }

  ghost predicate ReportedAt(report: seq<StaleNetns>, id: string, ref: string) {
    exists s :: s in report && s.container.id == id && s.staleTarget == ref
  }

  function SeenAfter(prev: Option<seq<Container>>, project: string): set<string> {
    if prev.None? then {} else set s | s in VictimsIn(prev.value, project) :: SeenKey(s)
  }

  /** The report of tick `t`: the stale entries whose key the last listing did not show. */
  ghost predicate FreshKeys(report: seq<StaleNetns>, lists: seq<Option<seq<Container>>>, t: nat, project: string)
    requires t < |lists|
  {
    if lists[t].None? then report == []
    else report == NewOnes(VictimsIn(lists[t].value, project), SeenAfter(Previous(lists, t), project))
  }

  /** The watcher over any sequence of listings, some of them failed. */
  method RunTicks(w: Watcher, lists: seq<Option<seq<Container>>>) returns (reports: seq<seq<StaleNetns>>)
    requires w.seen == {}
    modifies w`seen
    ensures |reports| == |lists|
    ensures forall t | 0 <= t < |lists| :: FreshKeys(reports[t], lists, t, w.scopeProject)
  {
    reports := [];
    for t := 0 to |lists|
      invariant |reports| == t && w.seen == SeenAfter(Previous(lists, t), w.scopeProject)
      invariant forall u | 0 <= u < t :: FreshKeys(reports[u], lists, u, w.scopeProject)
    {
      var r := w.Tick(lists[t]);
      assert FreshKeys(r, lists, t, w.scopeProject);
      hide FreshKeys;
      reports := reports + [r];
    }
  }

  lemma StaleAtIff(list: seq<Container>, project: string, id: string, ref: string)
    ensures StaleAt(list, project, id, ref) <==> ReportedAt(VictimsIn(list, project), id, ref)
  {
    if StaleAt(list, project, id, ref) {
      var c :| c in list && c.id == id && Label(c, PROJECT) == project && IsStale(c, ref, list);
      ScopedMembers(list, project, c);
      var s := StaleNetns(c, ref, ComposeHint(c));
      VictimsAreStale(Scoped(list, project), list, s);
    }
    if ReportedAt(VictimsIn(list, project), id, ref) {
      var s :| s in VictimsIn(list, project) && s.container.id == id && s.staleTarget == ref;
      VictimsAreStale(Scoped(list, project), list, s);
      ScopedMembers(list, project, s.container);
    }
  }

  ghost predicate PlainIds(list: seq<Container>) {
    forall c | c in list :: '|' !in c.id
  }

  lemma SeenAfterIff(prev: seq<Container>, project: string, s: StaleNetns)
    requires PlainIds(prev) && '|' !in s.container.id
    ensures SeenKey(s) in SeenAfter(Some(prev), project) <==> StaleAt(prev, project, s.container.id, s.staleTarget)
  {
    StaleAtIff(prev, project, s.container.id, s.staleTarget);
    forall v | v in VictimsIn(prev, project)
      ensures SeenKey(v) == SeenKey(s) <==> v.container.id == s.container.id && v.staleTarget == s.staleTarget
    {
      VictimsAreStale(Scoped(prev, project), prev, v);
      ScopedMembers(prev, project, v.container);
      SeenKeyInjective(v, s);
    }
  }

  /**
   Rising edges only: at a tick whose listing arrived, a victim is reported exactly
   when it is stale there and was not in the last listing that arrived before.
   */
  lemma ReportsAreRisingEdges(lists: seq<Option<seq<Container>>>, project: string, reports: seq<seq<StaleNetns>>,
                              t: nat, id: string, ref: string)
    requires t < |lists| == |reports| && lists[t].Some?
    requires forall l | l in lists && l.Some? :: PlainIds(l.value)
    requires FreshKeys(reports[t], lists, t, project)
    ensures ReportedAt(reports[t], id, ref) <==>
            StaleAt(lists[t].value, project, id, ref) && !StaleBefore(lists, t, project, id, ref)
  {
    StaleAtIff(lists[t].value, project, id, ref);
    var prev := Previous(lists, t);
    forall s ensures s in reports[t] <==>
      s in VictimsIn(lists[t].value, project) && SeenKey(s) !in SeenAfter(prev, project) {
      NewOnesExactly(VictimsIn(lists[t].value, project), SeenAfter(prev, project), s);
    }
    hide NewOnes, FreshKeys;
    forall s | s in VictimsIn(lists[t].value, project) && s.container.id == id && s.staleTarget == ref
      ensures SeenKey(s) in SeenAfter(prev, project) <==> StaleBefore(lists, t, project, id, ref)
    {
      VictimsAreStale(Scoped(lists[t].value, project), lists[t].value, s);
      ScopedMembers(lists[t].value, project, s.container);
      if prev.Some? {
        PreviousListed(lists, t);
        SeenAfterIff(prev.value, project, s);
      }
    }
  }

  lemma {:induction false} PreviousListed(lists: seq<Option<seq<Container>>>, t: nat)
    requires t <= |lists| && Previous(lists, t).Some?
    ensures Previous(lists, t) in lists
  {
    if !lists[t - 1].Some? {
      PreviousListed(lists, t - 1);
    }
  }
}
