/**
 The managed service-anchor: created beside its target, recreated when its namespace
 goes stale, with every dependent of the old one rebound to the new one.
 */
module Autostart {
  import opened GoBase
  import opened GoStrings
  import opened References
  import opened DockerWorld

  datatype Recipe = Recipe(target: string, name: string, image: string, gatewayIP: string,
                           extraEnv: map<string, string>, labels: map<string, string>) {
    predicate Active() {
      target != ""
    }
  }

  datatype SelfInfo = SelfInfo(image: string, imageID: string, ipsByNetwork: map<string, string>)

  // ---- searches over one listing ---------------------------------------------

  /** `c` is in the namespace of `sa`, by one of the references that the rebind looks for. */
  predicate DependsOn(c: Container, sa: Container) {
    c.id != sa.id && CutPrefix(c.networkMode, NETMODE).Some? &&
      Listed(sa, TrimSpace(CutPrefix(c.networkMode, NETMODE).value))
  }

  function Orphans(all: seq<Container>, sa: Container): seq<Container> {
    if all == [] then []
    else Orphans(all[..|all| - 1], sa) + if DependsOn(all[|all| - 1], sa) then [all[|all| - 1]] else []
  }

  method FindOrphanCandidates(all: seq<Container>, sa: Container) returns (out: seq<Container>)
    ensures out == Orphans(all, sa)
  {
    var refs := ReferencesFor(sa);
    out := [];
    for i := 0 to |all|
      invariant out == Orphans(all[..i], sa)
    {
      var c := all[i];
      assert all[..i + 1][..i] == all[..i];
      if c.id == sa.id {
        continue;
      }
      var cut := CutPrefix(c.networkMode, NETMODE);
      if cut.None? {
        continue;
      }
      if TrimSpace(cut.value) in refs {
        out := out + [c];
      }
    }
    assert all[..|all|] == all;
  }

  predicate IsSibling(c: Container, target: Container) {
    ToLower(c.state) == "created" && CutPrefix(c.networkMode, NETMODE).Some? &&
      Listed(target, Stripped(CutPrefix(c.networkMode, NETMODE).value))
  }

  function Siblings(all: seq<Container>, target: Container): seq<string> {
    if all == [] then []
    else Siblings(all[..|all| - 1], target) + if IsSibling(all[|all| - 1], target) then [all[|all| - 1].id] else []
  }

  method MatchSiblings(all: seq<Container>, target: Container) returns (out: seq<string>)
    ensures out == Siblings(all, target)
  {
    var refs := ReferencesFor(target);
    out := [];
    for i := 0 to |all|
      invariant out == Siblings(all[..i], target)
    {
      var c := all[i];
      assert all[..i + 1][..i] == all[..i];
      if ToLower(c.state) != "created" {
        continue;
      }
      var cut := CutPrefix(c.networkMode, NETMODE);
      if cut.None? {
        continue;
      }
      if Stripped(cut.value) in refs {
        out := out + [c.id];
      }
    }
    assert all[..|all|] == all;
  }

  predicate TargetMatchesRecipe(target: Container, recipeTarget: string) {
    recipeTarget != "" && Listed(target, Stripped(recipeTarget))
  }

  /** The container that carries the recipe's name, running or not. */
  function ManagedSA(all: seq<Container>, recipe: Recipe): (r: Option<Container>)
    ensures r.Some? ==> r.value in all && Named(r.value, Stripped(recipe.name))
    ensures r.None? ==> forall c | c in all :: !Named(c, Stripped(recipe.name))
  {
    First(all, ByName(Stripped(recipe.name)))
  }

  predicate UsesStaleImage(sa: Container, self: SelfInfo, recipe: Recipe) {
    recipe.image == "" && sa.imageID != "" && self.imageID != "" && sa.imageID != self.imageID
  }

  /** maybeManage's decision, on a listing. */
  datatype Decision = Leave | JustStart(id: string) | Replace(old_: Option<Container>)

  function Decide(recipe: Recipe, all: seq<Container>, target: Container, self: Option<SelfInfo>): Decision {
    if !recipe.Active() || !TargetMatchesRecipe(target, recipe.target) then Leave
    else
      var existing := ManagedSA(all, recipe);
      if existing.None? then Replace(None)
      else if ToLower(existing.value.state) == "running" then
        if SaTargetsStaleNetns(existing.value.networkMode, target, all) ||
          (self.Some? && UsesStaleImage(existing.value, self.value, recipe))
        then Replace(existing) else Leave
      else if ToLower(existing.value.state) == "created" then Leave
      else JustStart(existing.value.id)
  }

  /**
   The decision, with the recipe's target `name` or `/name`: nothing unless the container that
   started goes by it; then by the service-anchor's existence, state, reference and image.
   */
  lemma DecideExactly(recipe: Recipe, all: seq<Container>, target: Container, self: Option<SelfInfo>, name: string)
    requires recipe.target == "/" + name || (recipe.target == name && (name == "" || name[0] != '/'))
    ensures var d, sa := Decide(recipe, all, target, self), ManagedSA(all, recipe);
            var drift := sa.Some? && self.Some? && recipe.image == "" && sa.value.imageID != "" &&
                         self.value.imageID != "" && sa.value.imageID != self.value.imageID;
            if recipe.target == "" || !GoesBy(target, name) then d == Leave
            else if sa.None? then d == Replace(None)
            else if IsWord(sa.value.state, "running")
            then d == if SaTargetsStaleNetns(sa.value.networkMode, target, all) || drift then Replace(sa) else Leave
            else d == if IsWord(sa.value.state, "created") then Leave else JustStart(sa.value.id)
  {
    StrippedExactly(recipe.target);
    ListedIsGoesBy(target, name);
    var sa := ManagedSA(all, recipe);
    if sa.Some? {
      LowerExactly(sa.value.state, "running");
      LowerExactly(sa.value.state, "created");
    }
    hide ManagedSA, SaTargetsStaleNetns, GoesBy, Listed, Stripped, ToLower, IsWord;
  }

  // ---- what the calls do to the daemon -------------------------------------------

  function StartedAll(w: World, ids: seq<string>, outcome: nat -> Outcome, base: nat): World {
    if ids == [] then w
    else
      var k := |ids| - 1;
      var before := StartedAll(w, ids[..k], outcome, base);
      if outcome(base + k).Succeeds? then Started(before, ids[k]) else before
  }

  function IdsOf(cs: seq<Container>): (r: seq<string>)
    ensures |r| == |cs| && forall i | 0 <= i < |cs| :: r[i] == cs[i].id
  {
    seq(|cs|, i requires 0 <= i < |cs| => cs[i].id)
  }

  /** The daemon's side of a recreate: what it will answer, and which IDs it will give. */
  datatype Answers = Answers(outcome: nat -> Outcome, ids: nat -> string, digest: string -> string)

  function Answering(w: World, spec: CreateSpec, id: string, a: Answers): World {
    w[id := NewContainer(spec, id, a.digest(spec.image))]
  }

  /** Create, start, rebind; the first call has number `n`. */
  function Replacing(w: World, spec: Option<CreateSpec>, deps: seq<string>, a: Answers, n: nat): World {
    if spec.None? || !a.outcome(n).Succeeds? then w
    else
      var created := Answering(w, spec.value, a.ids(n), a);
      if !a.outcome(n + 1).Succeeds? then created
      else Rebound(Started(created, a.ids(n)), deps, a.outcome, a.ids, n + 2, NETMODE + a.ids(n))
  }

  lemma ReplacingEnds(w: World, spec: Option<CreateSpec>, deps: seq<string>, a: Answers, n: nat)
    ensures Replacing(w, spec, deps, a, n) ==
            if spec.None? || !a.outcome(n).Succeeds? || !a.outcome(n + 1).Succeeds? then Replacing(w, spec, [], a, n)
            else Rebound(Started(Answering(w, spec.value, a.ids(n), a), a.ids(n)), deps, a.outcome, a.ids, n + 2,
                         NETMODE + a.ids(n))
  {
    hide Rebound, Started, Answering;
  }

  /** The whole cycle: removal of the old service-anchor first, and nothing more when that fails. */
  function ReplacedWorld(w: World, oldSAID: string, spec: Option<CreateSpec>, deps: seq<string>, a: Answers,
                         n: nat): World {
    if oldSAID == "" then Replacing(w, spec, deps, a, n)
    else if !a.outcome(n).Succeeds? then w
    else Replacing(w - {oldSAID}, spec, deps, a, n + 1)
  }

  /**
   Where a replacement stops: a refused removal leaves everything as it was; without a spec, or
   with a refused create, only the old service-anchor is gone; when the new one does not start
   it is left created. In none of these is a dependent touched.
   */
  lemma ReplaceStops(w: World, oldSAID: string, spec: Option<CreateSpec>, deps: seq<string>, a: Answers, n: nat)
    ensures var r, m := ReplacedWorld(w, oldSAID, spec, deps, a, n), if oldSAID == "" then n else n + 1;
            var left := if oldSAID == "" then w else w - {oldSAID};
            if oldSAID != "" && !a.outcome(n).Succeeds? then r == w
            else if spec.None? || !a.outcome(m).Succeeds? then r == left
            else
              !a.outcome(m + 1).Succeeds? ==>
                r == left[a.ids(m) := Container(a.ids(m), ["/" + Stripped(spec.value.name)], "created",
                                                spec.value.networkMode, spec.value.labels,
                                                a.digest(spec.value.image))]
  {
    hide Rebound, Stripped;
  }

  // ---- the watcher -------------------------------------------------------------------

  /** Only start calls were made. */
  ghost predicate OnlyStarts(before: seq<Call>, after: seq<Call>) {
    |before| <= |after| && after[..|before|] == before && forall i | |before| <= i < |after| :: after[i].Start?
  }

  /** buildSpec; None is its error. */
  function BuildSpec(recipe: Recipe, self: SelfInfo, shared: string): Option<CreateSpec> {
    var image := if recipe.image == "" then self.image else recipe.image;
    var gatewayIP := if recipe.gatewayIP != "" then recipe.gatewayIP
                     else if shared in self.ipsByNetwork then self.ipsByNetwork[shared] else "";
    if image == "" || (recipe.gatewayIP == "" && shared == "") || gatewayIP == "" then None
    else
      var env := map["ANCHORD_MODE" := "service-anchor", "ANCHORD_GATEWAY_IP" := gatewayIP,
                     "ANCHORD_LOG_LEVEL" := "info"];
      Some(CreateSpec(recipe.name, image, env + recipe.extraEnv, recipe.labels["anchord.managed-by" := "f45"],
                      NETMODE + recipe.target))
  }

  /**
   What the recipe does not say comes from the own container, and is refused when that does not
   know it either; the operator's environment wins over the defaults, the own label over the operator's.
   */
  lemma SpecExactly(recipe: Recipe, self: SelfInfo, shared: string)
    ensures BuildSpec(recipe, self, shared).Some? <==>
            && (recipe.image != "" || self.image != "")
            && (recipe.gatewayIP != "" ||
                (shared != "" && shared in self.ipsByNetwork && self.ipsByNetwork[shared] != ""))
    ensures BuildSpec(recipe, self, shared).Some? ==>
              var spec := BuildSpec(recipe, self, shared).value;
              && spec.name == recipe.name && spec.networkMode == "container:" + recipe.target
              && spec.image == (if recipe.image != "" then recipe.image else self.image)
              && (forall k :: k in spec.labels <==> k in recipe.labels || k == "anchord.managed-by")
              && spec.labels["anchord.managed-by"] == "f45"
              && (forall k | k in recipe.labels && k != "anchord.managed-by" :: spec.labels[k] == recipe.labels[k])
              && (forall k :: k in spec.env <==>
                   k in recipe.extraEnv || k in ["ANCHORD_MODE", "ANCHORD_GATEWAY_IP", "ANCHORD_LOG_LEVEL"])
              && (forall k | k in recipe.extraEnv :: spec.env[k] == recipe.extraEnv[k])
              && ("ANCHORD_MODE" !in recipe.extraEnv ==> spec.env["ANCHORD_MODE"] == "service-anchor")
              && ("ANCHORD_LOG_LEVEL" !in recipe.extraEnv ==> spec.env["ANCHORD_LOG_LEVEL"] == "info")
              && ("ANCHORD_GATEWAY_IP" !in recipe.extraEnv ==>
                  spec.env["ANCHORD_GATEWAY_IP"] ==
                  if recipe.gatewayIP != "" then recipe.gatewayIP else self.ipsByNetwork[shared])
  {
    assert |"ANCHORD_MODE"| == 12 && |"ANCHORD_GATEWAY_IP"| == 18 && |"ANCHORD_LOG_LEVEL"| == 17;
  }

  /** The spec as far as it can be had: the self-inspect may fail too. */
  function SpecFor(recipe: Recipe, inspected: Option<SelfInfo>, shared: string): Option<CreateSpec> {
    if inspected.None? then None else BuildSpec(recipe, inspected.value, shared)
  }

  /** What maybeManage makes of the world. */
  function ManagedWorld(w: World, recipe: Recipe, autoFix: bool, all: seq<Container>, target: Container,
                        self: Option<SelfInfo>, spec: Option<CreateSpec>, a: Answers, n: nat): World {
    match Decide(recipe, all, target, self)
    case Leave => w
    case JustStart(id) => if a.outcome(n).Succeeds? then Started(w, id) else w
    case Replace(old_) =>
      ReplacedWorld(w, if old_.Some? then old_.value.id else "", spec,
                    if old_.Some? && autoFix then IdsOf(Orphans(all, old_.value)) else [], a, n)
  }

  /** What a start event makes of it: the siblings are started first. */
  function AfterEvent(w: World, recipe: Recipe, autoFix: bool, all: seq<Container>, target: Container,
                      spec: Option<CreateSpec>, a: Answers, n: nat): World {
    ManagedWorld(StartedAll(w, Siblings(all, target), a.outcome, n), recipe, autoFix, all, target, None, spec, a,
                 n + |Siblings(all, target)|)
  }

  lemma StartsCompose(a: seq<Call>, b: seq<Call>, c: seq<Call>)
    ensures OnlyStarts(a, b) && OnlyStarts(b, c) ==> OnlyStarts(a, c)
  {
    if OnlyStarts(a, b) && OnlyStarts(b, c) {
      forall i | |a| <= i < |c| ensures c[i].Start? {
        if i < |b| {
          assert c[..|b|][i] == b[i];
        }
      }
      assert c[..|a|] == c[..|b|][..|a|];
    }
  }

  lemma ValidIsKeyed(ops: Docker)
    requires ops.Valid()
    ensures Keyed(ops.containers)
  {
  }

  lemma ListedIds(all: seq<Container>, w: World)
    requires Lists(all, w) && Keyed(w)
    ensures HaveIds(all)
  {
  }

  predicate HaveIds(all: seq<Container>) {
    forall c | c in all :: c.id != ""
  }

  class Watcher {
    const ops: Docker
    const recipe: Recipe
    const autoFixDeadNetns: bool

    constructor (ops: Docker, recipe: Recipe, autoFixDeadNetns: bool)
      ensures this.ops == ops && this.recipe == recipe && this.autoFixDeadNetns == autoFixDeadNetns
    {
      this.ops, this.recipe, this.autoFixDeadNetns := ops, recipe, autoFixDeadNetns;
    }

    function Ans(): Answers {
      Answers(ops.outcome, ops.ids, ops.digest)
    }

    /** createAndStartManaged: the new ID, or None when any step failed. */
    method CreateAndStartManaged(inspected: Option<SelfInfo>, shared: string) returns (r: Option<string>)
      requires ops.Valid()
      modifies ops`containers, ops`calls
      ensures ops.Valid()
      ensures r.None? ==>
                ops.containers ==
                Replacing(old(ops.containers), SpecFor(recipe, inspected, shared), [], Ans(), |old(ops.calls)|)
      ensures r.None? <==> SpecFor(recipe, inspected, shared).None? || !ops.outcome(|old(ops.calls)|).Succeeds?
                           || !ops.outcome(|old(ops.calls)| + 1).Succeeds?
      ensures r.Some? ==> r.value == ops.ids(|old(ops.calls)|) && |ops.calls| == |old(ops.calls)| + 2
      ensures old(ops.calls) <= ops.calls
      ensures r.Some? ==>
                var spec := SpecFor(recipe, inspected, shared).value;
                ops.containers == Started(Answering(old(ops.containers), spec, r.value, Ans()), r.value)
    {
      if inspected.None? {
        return None;
      }
      var spec := BuildSpec(recipe, inspected.value, shared);
      if spec.None? {
        return None;
      }
      r := ops.Create(spec.value);
      if r.None? {
        return None;
      }
      var ok := ops.Start(r.value);
      if !ok {
        return None;
      }
    }

    method RecreateSAWithOrphanRebind(all: seq<Container>, oldSAID: string, oldSA: Option<Container>,
                                      inspected: Option<SelfInfo>, shared: string)
      requires ops.Valid()
      modifies ops`containers, ops`calls
      ensures ops.Valid()
      ensures var deps := if oldSA.Some? && autoFixDeadNetns then IdsOf(Orphans(all, oldSA.value)) else [];
              ops.containers == ReplacedWorld(old(ops.containers), oldSAID, SpecFor(recipe, inspected, shared), deps,
                                              Ans(), |old(ops.calls)|)
      ensures old(ops.calls) <= ops.calls
      ensures oldSAID != "" && !ops.outcome(|old(ops.calls)|).Succeeds? ==>
                ops.containers == old(ops.containers) && ops.calls == old(ops.calls) + [Call.Remove(oldSAID)]
    {
      hide Docker.Valid, BuildSpec, SpecFor, DependsOn, Orphans, Rebound, Started, Answering, Replacing;
      var orphans: seq<Container> := [];
      if oldSA.Some? && autoFixDeadNetns {
        orphans := FindOrphanCandidates(all, oldSA.value);
      }
      if oldSAID != "" {
        var ok := ops.Remove(oldSAID);
        if !ok {
          return;
        }
      }
      ghost var w, n, spec := ops.containers, |ops.calls|, SpecFor(recipe, inspected, shared);
      var newID := CreateAndStartManaged(inspected, shared);
      ReplacingEnds(w, spec, IdsOf(orphans), Ans(), n);
      if newID.None? {
        return;
      }
      RebindAll(orphans, NETMODE + newID.value);
    }

    /** The rebind loop: a dependent that fails is left behind, the others go on. */
    method RebindAll(orphans: seq<Container>, newNetMode: string)
      requires ops.Valid()
      modifies ops`containers, ops`calls
      ensures ops.Valid()
      ensures ops.containers == Rebound(old(ops.containers), IdsOf(orphans), ops.outcome, ops.ids, |old(ops.calls)|,
                                        newNetMode)
      ensures old(ops.calls) <= ops.calls
    {
      hide Docker.Valid, Recreated;
      ghost var w, base := ops.containers, |ops.calls|;
      ghost var deps := IdsOf(orphans);
      for i := 0 to |orphans|
        invariant ops.Valid() && |ops.calls| == base + i && old(ops.calls) <= ops.calls
        invariant ops.containers == Rebound(w, deps[..i], ops.outcome, ops.ids, base, newNetMode)
      {
        assert deps[..i + 1][..i] == deps[..i];
        var _ := ops.RecreateWithNetworkMode(orphans[i].id, newNetMode);
      }
      assert deps[..|orphans|] == deps;
    }

    /** maybeManage. `self` is given by the startup backfill only. */
    method MaybeManage(all: seq<Container>, target: Container, self: Option<SelfInfo>, inspected: Option<SelfInfo>,
                       shared: string)
      requires ops.Valid() && HaveIds(all)
      modifies ops`containers, ops`calls
      ensures ops.Valid()
      ensures ops.containers == ManagedWorld(old(ops.containers), recipe, autoFixDeadNetns, all, target, self,
                                           SpecFor(recipe, inspected, shared), Ans(), |old(ops.calls)|)
      ensures !Decide(recipe, all, target, self).Replace? ==> OnlyStarts(old(ops.calls), ops.calls)
      ensures old(ops.calls) <= ops.calls
    {
      hide Docker.Valid, ReplacedWorld, SpecFor, Orphans, Stale, SaTargetsStaleNetns, ManagedSA, TargetMatchesRecipe,
        ToLower, UsesStaleImage;
      if !recipe.Active() {
        return;
      }
      if !TargetMatchesRecipe(target, recipe.target) {
        return;
      }
      var existing := ManagedSA(all, recipe);
      var oldSAID := "";
      if existing.Some? {
        var state := ToLower(existing.value.state);
        if state == "running" {
          var stale := SaTargetsStaleNetns(existing.value.networkMode, target, all);
          var drift := self.Some? && UsesStaleImage(existing.value, self.value, recipe);
          if !stale && !drift {
            return;
          }
          oldSAID := existing.value.id;
        } else if state == "created" {
          return;
        } else {
          var _ := ops.Start(existing.value.id);
          return;
        }
      }
      RecreateSAWithOrphanRebind(all, oldSAID, existing, inspected, shared);
    }

    /** Starts each, and carries on when one of them fails. */
    method StartSiblings(sibs: seq<string>)
      requires ops.Valid()
      modifies ops`containers, ops`calls
      ensures ops.Valid() && |ops.calls| == |old(ops.calls)| + |sibs| && OnlyStarts(old(ops.calls), ops.calls)
      ensures ops.containers == StartedAll(old(ops.containers), sibs, ops.outcome, |old(ops.calls)|)
      ensures old(ops.calls) <= ops.calls
      ensures forall i | 0 <= i < |sibs| :: ops.calls[|old(ops.calls)| + i] == Call.Start(sibs[i])
    {
      ghost var w, calls := ops.containers, ops.calls;
      for i := 0 to |sibs|
        invariant ops.Valid() && |ops.calls| == |calls| + i && OnlyStarts(calls, ops.calls) && calls <= ops.calls
        invariant forall j | 0 <= j < i :: ops.calls[|calls| + j] == Call.Start(sibs[j])
        invariant ops.containers == StartedAll(w, sibs[..i], ops.outcome, |calls|)
      {
        assert sibs[..i + 1][..i] == sibs[..i];
        var _ := ops.Start(sibs[i]);
      }
      assert sibs[..|sibs|] == sibs;
    }

    /** handleTargetStart: `listOk` is whether the daemon answers the list call. */
    method HandleTargetStart(target: Container, listOk: bool, inspected: Option<SelfInfo>, shared: string)
      returns (ghost all: seq<Container>)
      requires ops.Valid()
      modifies ops`containers, ops`calls
      ensures ops.Valid()
      ensures !listOk ==> ops.containers == old(ops.containers) && ops.calls == old(ops.calls)
      ensures listOk ==> Lists(all, old(ops.containers))
      ensures listOk ==>
        ops.containers == AfterEvent(old(ops.containers), recipe, autoFixDeadNetns, all, target,
                                     SpecFor(recipe, inspected, shared), Ans(), |old(ops.calls)|)
      ensures listOk && !Decide(recipe, all, target, None).Replace? ==> OnlyStarts(old(ops.calls), ops.calls)
      // The siblings come before anything else.
      ensures listOk ==> var sibs, n := Siblings(all, target), |old(ops.calls)|;
                         n + |sibs| <= |ops.calls| &&
                         forall i | 0 <= i < |sibs| :: ops.calls[n + i] == Call.Start(sibs[i])
    {
      hide Docker.Valid, ManagedWorld, StartedAll, Siblings, Decide, Lists, Keyed, HaveIds, SpecFor, OnlyStarts;
      all := [];
      var listed := ops.List(listOk);
      if listed.None? {
        return;
      }
      all := listed.value;
      ValidIsKeyed(ops);
      var sibs := MatchSiblings(listed.value, target);
      ListedIds(listed.value, ops.containers);
      ghost var before := ops.calls;
      StartSiblings(sibs);
      ghost var between := ops.calls;
      MaybeManage(listed.value, target, None, inspected, shared);
      StartsCompose(before, between, ops.calls);
    }

    /** handleSAGone: the managed service-anchor was destroyed; its running target gets a new one. */
    method HandleSAGone(saName: string, listOk: bool, inspected: Option<SelfInfo>, shared: string)
      returns (ghost all: seq<Container>)
      requires ops.Valid()
      modifies ops`containers, ops`calls
      ensures ops.Valid()
      ensures !(listOk && recipe.Active() && Stripped(saName) == Stripped(recipe.name)) ==>
                ops.containers == old(ops.containers) && ops.calls == old(ops.calls)
      ensures listOk && recipe.Active() && Stripped(saName) == Stripped(recipe.name) ==>
                Lists(all, old(ops.containers)) &&
                var target := First(all, (c: Container) => TargetMatchesRecipe(c, recipe.target));
                if target.None? || ToLower(target.value.state) != "running"
                then ops.containers == old(ops.containers) && ops.calls == old(ops.calls)
                else ops.containers ==
                       ManagedWorld(old(ops.containers), recipe, autoFixDeadNetns, all, target.value, None,
                                    SpecFor(recipe, inspected, shared), Ans(), |old(ops.calls)|)
    {
      all := [];
      if !recipe.Active() {
        return;
      }
      if Stripped(saName) != Stripped(recipe.name) {
        return;
      }
      var listed := ops.List(listOk);
      if listed.None? {
        return;
      }
      all := listed.value;
      var target := First(listed.value, (c: Container) => TargetMatchesRecipe(c, recipe.target));
      if target.None? || ToLower(target.value.state) != "running" {
        return;
      }
      ListedIds(all, ops.containers);
      MaybeManage(listed.value, target.value, None, inspected, shared);
    }
  }

  // ---- what a recreate does to everybody ---------------------------------------------

  /** `all` is a listing of `w` taken before some of its containers were started. */
  ghost predicate ListsUpToState(all: seq<Container>, w: World) {
    && (forall c | c in all :: c.id in w && w[c.id].(state := c.state) == c)
    && (forall id | id in w :: exists c :: c in all && c.id == id)
    && forall i, j | 0 <= i < j < |all| :: all[i].id != all[j].id
  }

  lemma {:induction false} OrphansExactly(all: seq<Container>, sa: Container, c: Container)
    ensures c in Orphans(all, sa) <==>
            c in all && c.id != sa.id && "container:" <= c.networkMode &&
              GoesBy(sa, TrimSpace(c.networkMode[|"container:"|..]))
    ensures c in Orphans(all, sa) <==> c in all && DependsOn(c, sa)
  {
    if "container:" <= c.networkMode {
      ListedIsGoesBy(sa, TrimSpace(c.networkMode[|"container:"|..]));
    }
    hide GoesBy, Listed, TrimSpace;
    if all != [] {
      OrphansExactly(all[..|all| - 1], sa, c);
      assert all == all[..|all| - 1] + [all[|all| - 1]];
    }
  }

  /** In the order of the listing, each once. */
  lemma {:induction false} OrphansInOrder(before: seq<Container>, c: Container, after: seq<Container>, sa: Container)
    ensures Orphans(before + [c] + after, sa) == Orphans(before, sa) + Orphans([c], sa) + Orphans(after, sa)
    ensures |Orphans([c], sa)| <= 1
    decreases |after|
  {
    hide DependsOn;
    var list := before + [c] + after;
    if after == [] {
      assert list == before + [c] && list[..|before|] == before && [c][..0] == [];
    } else {
      assert list[..|list| - 1] == before + [c] + after[..|after| - 1];
      OrphansInOrder(before, c, after[..|after| - 1], sa);
    }
  }

  lemma {:induction false} OrphansDistinct(all: seq<Container>, sa: Container)
    requires forall i, j | 0 <= i < j < |all| :: all[i].id != all[j].id
    ensures Distinct(IdsOf(Orphans(all, sa)))
  {
    if all != [] {
      var k := |all| - 1;
      OrphansDistinct(all[..k], sa);
      var before, after := Orphans(all[..k], sa), Orphans(all, sa);
      forall i | 0 <= i < |before|
        ensures before[i].id != all[k].id
      {
        OrphansExactly(all[..k], sa, before[i]);
      }
      forall i, j | 0 <= i < j < |after|
        ensures after[i].id != after[j].id
      {
        assert i < |before|;
        assert j < |before| ==> IdsOf(before)[i] != IdsOf(before)[j];
      }
    }
  }

  /** Who gets recreated, in terms of the world at that time. */
  lemma OrphanIds(all: seq<Container>, w: World, sa: Container, id: string)
    requires ListsUpToState(all, w) && Keyed(w)
    ensures id in IdsOf(Orphans(all, sa)) <==> id in w && DependsOn(w[id], sa)
  {
    var orphans := Orphans(all, sa);
    if id in IdsOf(orphans) {
      var i :| 0 <= i < |orphans| && orphans[i].id == id;
      OrphansExactly(all, sa, orphans[i]);
    }
    if id in w && DependsOn(w[id], sa) {
      var c :| c in all && c.id == id;
      OrphansExactly(all, sa, c);
      var i :| 0 <= i < |orphans| && orphans[i] == c;
      assert IdsOf(orphans)[i] == id;
    }
  }

  /** The new service-anchor once it runs. */
  function RunningAnchor(spec: CreateSpec, id: string, a: Answers): Container {
    NewContainer(spec, id, a.digest(spec.image)).(state := "running")
  }

  /** Everything after the new service-anchor runs: `w` still has the dependents, the old one is gone. */
  function Renewed(w: World, sa: Container, spec: CreateSpec, a: Answers, n: nat): World {
    Started(Answering(w - {sa.id}, spec, a.ids(n + 1), a), a.ids(n + 1))
  }

  lemma RenewedShape(w: World, sa: Container, spec: CreateSpec, a: Answers, n: nat, k: nat)
    requires sa.id in w && FreshFor(w, a.ids, n, k + 3)
    ensures var nid, r := a.ids(n + 1), Renewed(w, sa, spec, a, n);
            && r == (w - {sa.id})[nid := RunningAnchor(spec, nid, a)]
            && |r| == |w| && FreshFor(r, a.ids, n + 3, k)
  {
    Swapped(w, sa.id, a.ids(n + 1), RunningAnchor(spec, a.ids(n + 1), a));
  }

  ghost predicate AllSucceed(a: Answers) {
    forall n: nat :: a.outcome(n).Succeeds?
  }

  lemma ReplacedIsRebound(w: World, sa: Container, spec: CreateSpec, deps: seq<string>, a: Answers, n: nat)
    requires sa.id != "" && AllSucceed(a)
    ensures ReplacedWorld(w, sa.id, Some(spec), deps, a, n) ==
            Rebound(Renewed(w, sa, spec, a, n), deps, a.outcome, a.ids, n + 3, NETMODE + a.ids(n + 1))
  {
    hide Rebound, Answering, Started;
    assert a.outcome(n).Succeeds? && a.outcome(n + 1).Succeeds? && a.outcome(n + 2).Succeeds?;
  }

  /** The situation in which a recreate starts: `sa` is in the world, `all` lists it. */
  ghost predicate Recreating(w: World, all: seq<Container>, sa: Container, a: Answers, n: nat) {
    Keyed(w) && FreshFor(w, a.ids, n, |w| + 3) && AllSucceed(a) && ListsUpToState(all, w) && sa.id in w && sa.id != ""
  }

  /** The world after a recreate with auto-fix on whose calls all succeed. */
  function RecreatedWorld(w: World, all: seq<Container>, sa: Container, spec: CreateSpec, a: Answers, n: nat): World {
    ReplacedWorld(w, sa.id, Some(spec), IdsOf(Orphans(all, sa)), a, n)
  }

  lemma DistinctListing(all: seq<Container>, w: World)
    requires ListsUpToState(all, w)
    ensures forall i, j | 0 <= i < j < |all| :: all[i].id != all[j].id
  {
  }

  lemma RecreatingMeans(w: World, all: seq<Container>, sa: Container, spec: CreateSpec, a: Answers, n: nat)
    requires Recreating(w, all, sa, a, n)
    ensures Keyed(w) && FreshFor(w, a.ids, n, |w| + 3) && AllSucceed(a) && ListsUpToState(all, w)
    ensures sa.id in w && sa.id != ""
    ensures RecreatedWorld(w, all, sa, spec, a, n) ==
            ReplacedWorld(w, sa.id, Some(spec), IdsOf(Orphans(all, sa)), a, n)
  {
    hide Keyed, FreshFor, AllSucceed, ListsUpToState, ReplacedWorld, Orphans, IdsOf;
  }

  lemma RecreateUnfolds(w: World, all: seq<Container>, sa: Container, spec: CreateSpec, a: Answers, n: nat)
    returns (w2: World)
    requires Recreating(w, all, sa, a, n)
    ensures w2 == (w - {sa.id})[a.ids(n + 1) := RunningAnchor(spec, a.ids(n + 1), a)]
    ensures |w2| == |w| && |Orphans(all, sa)| <= |w| && FreshFor(w2, a.ids, n + 3, |Orphans(all, sa)|)
    ensures RecreatedWorld(w, all, sa, spec, a, n) ==
            Rebound(w2, IdsOf(Orphans(all, sa)), a.outcome, a.ids, n + 3, NETMODE + a.ids(n + 1))
    ensures Keyed(w) && ListsUpToState(all, w) && a.ids(n + 1) !in w && sa.id in w && Distinct(IdsOf(Orphans(all, sa)))
    ensures forall d | d in IdsOf(Orphans(all, sa)) :: d in w && d in w2 && w2[d] == w[d]
  {
    hide *;
    RecreatingMeans(w, all, sa, spec, a, n);
    w2 := Renewed(w, sa, spec, a, n);
    FreshNext(w, a.ids, n, n + 1, |w| + 3);
    DistinctListing(all, w);
    ReplacedIsRebound(w, sa, spec, IdsOf(Orphans(all, sa)), a, n);
    OrphansDistinct(all, sa);
    RenewedShape(w, sa, spec, a, n, |w|);
    DepsSurvive(w, all, sa, w2, a.ids(n + 1), RunningAnchor(spec, a.ids(n + 1), a));
    DistinctFits(IdsOf(Orphans(all, sa)), w.Keys);
    FreshFewer(w2, a.ids, n + 3, |w|, |Orphans(all, sa)|);
  }

  /** Nobody else changes. */
  lemma RecreateLeavesOthers(w: World, all: seq<Container>, sa: Container, spec: CreateSpec, a: Answers, n: nat,
                             id: string)
    requires Recreating(w, all, sa, a, n) && id in w && id != sa.id && !DependsOn(w[id], sa)
    ensures id in RecreatedWorld(w, all, sa, spec, a, n) && RecreatedWorld(w, all, sa, spec, a, n)[id] == w[id]
  {
    var w2 := RecreateUnfolds(w, all, sa, spec, a, n);
    OrphanIds(all, w, sa, id);
    hide RecreatedWorld, Orphans, Rebound;
    ReboundKeeps(w2, IdsOf(Orphans(all, sa)), a.outcome, a.ids, n + 3, NETMODE + a.ids(n + 1), id);
  }

  lemma EachSucceeds(w: World, all: seq<Container>, sa: Container, a: Answers, n: nat, m: nat)
    requires Recreating(w, all, sa, a, n)
    ensures a.outcome(m).Succeeds?
  {
  }

  /** Each dependent is back under a new ID, in the new namespace, with everything else kept. */
  lemma RecreateRebinds(w: World, all: seq<Container>, sa: Container, spec: CreateSpec, a: Answers, n: nat, i: nat)
    requires Recreating(w, all, sa, a, n) && i < |Orphans(all, sa)|
    ensures var r, d, newId := RecreatedWorld(w, all, sa, spec, a, n), Orphans(all, sa)[i].id, a.ids(n + 3 + i);
            && d in w && DependsOn(w[d], sa) && d !in r && newId in r
            && r[newId] == w[d].(id := newId, networkMode := NETMODE + a.ids(n + 1), state := "running")
  {
    hide *;
    var deps := IdsOf(Orphans(all, sa));
    var d, mode := deps[i], NETMODE + a.ids(n + 1);
    assert d in deps;
    EachSucceeds(w, all, sa, a, n, n + 3 + i);
    var w2 := RecreateUnfolds(w, all, sa, spec, a, n);
    assert d in w && DependsOn(w[d], sa) by {
      OrphanIds(all, w, sa, d);
    }
    assert d in w2 && w2[d] == w[d];
    ReboundDep(w2, deps, a, n + 3, mode, i);
  }

  lemma ReboundDep(w: World, deps: seq<string>, a: Answers, n: nat, mode: string, i: nat)
    requires i < |deps| && Distinct(deps) && FreshFor(w, a.ids, n, |deps|) && a.outcome(n + i).Succeeds?
    requires forall d | d in deps :: d in w
    ensures var r, newId := Rebound(w, deps, a.outcome, a.ids, n, mode), a.ids(n + i);
            && deps[i] in w && deps[i] !in r && newId in r
            && r[newId] == w[deps[i]].(id := newId, networkMode := mode, state := "running")
  {
    ReboundEach(w, deps, a.outcome, a.ids, n, mode, i);
    assert deps[i] in deps;
    hide *;
  }

  /** The old service-anchor is gone and the new one runs; nothing was lost on the way. */
  lemma RecreateRenews(w: World, all: seq<Container>, sa: Container, spec: CreateSpec, a: Answers, n: nat)
    requires Recreating(w, all, sa, a, n)
    ensures var r, nid := RecreatedWorld(w, all, sa, spec, a, n), a.ids(n + 1);
            && sa.id !in r && |r| == |w|
            && nid in r && r[nid] == RunningAnchor(spec, nid, a)
  {
    var w2 := RecreateUnfolds(w, all, sa, spec, a, n);
    var deps, mode := IdsOf(Orphans(all, sa)), NETMODE + a.ids(n + 1);
    OrphanIds(all, w, sa, sa.id);
    OrphanIds(all, w, sa, a.ids(n + 1));
    hide RecreatedWorld, Orphans, Rebound;
    ReboundSize(w2, deps, a.outcome, a.ids, n + 3, mode);
    ReboundKeeps(w2, deps, a.outcome, a.ids, n + 3, mode, sa.id);
    ReboundKeeps(w2, deps, a.outcome, a.ids, n + 3, mode, a.ids(n + 1));
  }

  /** Who is there afterwards: an untouched container, the new service-anchor, or a rebound dependent. */
  lemma RecreateOrigin(w: World, all: seq<Container>, sa: Container, spec: CreateSpec, a: Answers, n: nat, x: string)
    returns (i: nat)
    requires Recreating(w, all, sa, a, n) && x in RecreatedWorld(w, all, sa, spec, a, n)
    ensures || (x in w && x != sa.id && !DependsOn(w[x], sa))
            || x == a.ids(n + 1)
            || (i < |Orphans(all, sa)| && x == a.ids(n + 3 + i))
  {
    hide *;
    var deps := IdsOf(Orphans(all, sa));
    i := 0;
    if m: nat :| n + 3 <= m < n + 3 + |deps| && x == a.ids(m) {
      i := m - (n + 3);
    } else {
      OriginUntouched(w, all, sa, spec, a, n, x);
    }
  }

  lemma OriginUntouched(w: World, all: seq<Container>, sa: Container, spec: CreateSpec, a: Answers, n: nat, x: string)
    requires Recreating(w, all, sa, a, n) && x in RecreatedWorld(w, all, sa, spec, a, n)
    requires forall m: nat | n + 3 <= m < n + 3 + |Orphans(all, sa)| :: x != a.ids(m)
    ensures (x in w && x != sa.id && !DependsOn(w[x], sa)) || x == a.ids(n + 1)
  {
    var _ := RecreateUnfolds(w, all, sa, spec, a, n);
    hide *;
    var deps := IdsOf(Orphans(all, sa));
    if x in deps {
      var j :| 0 <= j < |deps| && deps[j] == x;
      RecreateRebinds(w, all, sa, spec, a, n, j);
    } else {
      OrphanIds(all, w, sa, x);
      KeptInRebound(w, all, sa, spec, a, n, x);
    }
  }

  lemma KeptInRebound(w: World, all: seq<Container>, sa: Container, spec: CreateSpec, a: Answers, n: nat, x: string)
    requires Recreating(w, all, sa, a, n) && x in RecreatedWorld(w, all, sa, spec, a, n) &&
             x !in IdsOf(Orphans(all, sa))
    requires forall m: nat | n + 3 <= m < n + 3 + |Orphans(all, sa)| :: x != a.ids(m)
    ensures (x in w && x != sa.id) || x == a.ids(n + 1)
  {
    hide *;
    var w2 := RecreateUnfolds(w, all, sa, spec, a, n);
    ReboundKeeps(w2, IdsOf(Orphans(all, sa)), a.outcome, a.ids, n + 3, NETMODE + a.ids(n + 1), x);
  }

  /** IDs the daemon gives out do not read as a name or a reference that is in use. */
  ghost predicate NoIdReadsAs(ids: nat -> string, ref: string) {
    forall m: nat :: ids(m) != ref && !(|ref| >= 12 && HasPrefix(ids(m), ref))
  }

  /**
   No survivor references the removed service-anchor in any form the rebind looks for,
   as long as the recipe's target is not itself a name or ID of it.
   */
  lemma NoneReferencesOld(w: World, all: seq<Container>, sa: Container, spec: CreateSpec, a: Answers, n: nat, x: string)
    requires Recreating(w, all, sa, a, n) && x in RecreatedWorld(w, all, sa, spec, a, n)
    requires |sa.id| == 64 && Trimmed(a.ids(n + 1)) && forall m | m in sa.names :: NoIdReadsAs(a.ids, Stripped(m))
    requires CutPrefix(spec.networkMode, NETMODE).Some? ==>
             !Listed(sa, TrimSpace(CutPrefix(spec.networkMode, NETMODE).value))
    ensures var mode := RecreatedWorld(w, all, sa, spec, a, n)[x].networkMode;
            "container:" <= mode ==>
              var ref := TrimSpace(mode[|"container:"|..]);
              !GoesBy(sa, ref) && (Denotes(sa, ref) ==> 12 < |ref| < 64 && HasPrefix(sa.id, ref))
  {
    SurvivorRefersElsewhere(w, all, sa, spec, a, n, x);
    var mode := RecreatedWorld(w, all, sa, spec, a, n)[x].networkMode;
    if "container:" <= mode {
      var ref := TrimSpace(mode[|"container:"|..]);
      ListedIsGoesBy(sa, ref);
      ListedExactly(sa, ref);
    }
    hide RecreatedWorld, Recreating, GoesBy, Listed, TrimSpace;
  }

  lemma SurvivorRefersElsewhere(w: World, all: seq<Container>, sa: Container, spec: CreateSpec, a: Answers, n: nat,
                                x: string)
    requires Recreating(w, all, sa, a, n) && x in RecreatedWorld(w, all, sa, spec, a, n)
    requires |sa.id| == 64 && Trimmed(a.ids(n + 1)) && forall m | m in sa.names :: NoIdReadsAs(a.ids, Stripped(m))
    requires CutPrefix(spec.networkMode, NETMODE).Some? ==>
             !Listed(sa, TrimSpace(CutPrefix(spec.networkMode, NETMODE).value))
    ensures var mode := RecreatedWorld(w, all, sa, spec, a, n)[x].networkMode;
            CutPrefix(mode, NETMODE).Some? ==> !Listed(sa, TrimSpace(CutPrefix(mode, NETMODE).value))
  {
    var i := RecreateOrigin(w, all, sa, spec, a, n, x);
    var r, nid := RecreatedWorld(w, all, sa, spec, a, n), a.ids(n + 1);
    CutPrefixOf(NETMODE, nid);
    TrimmedIsTrim(nid);
    NewIdUnlisted(w, sa, a, n);
    if x in w && x != sa.id && !DependsOn(w[x], sa) {
      RecreateLeavesOthers(w, all, sa, spec, a, n, x);
    } else if x == nid {
      RecreateRenews(w, all, sa, spec, a, n);
    } else {
      RecreateRebinds(w, all, sa, spec, a, n, i);
    }
  }

  lemma NewIdUnlisted(w: World, sa: Container, a: Answers, n: nat)
    requires sa.id in w && FreshFor(w, a.ids, n, |w| + 3) && |sa.id| == 64
    requires forall m | m in sa.names :: NoIdReadsAs(a.ids, Stripped(m))
    ensures !Listed(sa, a.ids(n + 1))
  {
    assert a.ids(n + 1) !in w && |a.ids(n + 1)| == 64;
  }

  /** The dependents are still there, unchanged, when the rebinding starts. */
  lemma DepsSurvive(w: World, all: seq<Container>, sa: Container, w2: World, nid: string, c: Container)
    requires Keyed(w) && ListsUpToState(all, w) && nid !in w && w2 == (w - {sa.id})[nid := c]
    ensures forall d | d in IdsOf(Orphans(all, sa)) :: d in w && d in w2 && w2[d] == w[d]
  {
    forall d | d in IdsOf(Orphans(all, sa))
      ensures d in w && d in w2 && w2[d] == w[d]
    {
      OrphanIds(all, w, sa, d);
    }
  }

  // ---- the second start event ----------------------------------------------------------

  /** `ref` denotes the container `id` and no other. */
  ghost predicate OnlyDenotes(w: World, ref: string, id: string) {
    id in w && forall x | x in w :: Denotes(w[x], ref) <==> x == id
  }

  ghost predicate NamedOnce(w: World, name: string) {
    forall x, y | x in w && y in w && Named(w[x], name) && Named(w[y], name) :: x == y
  }

  ghost predicate RefUnambiguous(w: World, mode: string) {
    Ref(mode).Some? ==> forall x, y | x in w && y in w && Denotes(w[x], Ref(mode).value) &&
      Denotes(w[y], Ref(mode).value) :: x == y
  }

  /** The stale check, read off the world instead of a listing. */
  predicate Stale(w: World, mode: string, target: Container) {
    Ref(mode).Some? && !(target.id in w && Denotes(w[target.id], Ref(mode).value))
  }

  lemma StaleInListing(w: World, all: seq<Container>, mode: string, target: Container)
    requires Lists(all, w) && Keyed(w) && RefUnambiguous(w, mode)
    ensures SaTargetsStaleNetns(mode, target, all) <==> Stale(w, mode, target)
  {
    if Ref(mode).Some? {
      var hit := First(all, (c: Container) => Denotes(c, Ref(mode).value));
      hide Denotes, Ref;
      if target.id in w && Denotes(w[target.id], Ref(mode).value) {
        assert w[target.id] in all;
      }
    }
  }

  /** Only states differ. */
  ghost predicate StatesOnly(w: World, w': World) {
    w.Keys == w'.Keys && forall x | x in w :: w'[x] == w[x].(state := w'[x].state)
  }

  /** A container that is among them runs if one of its own start calls succeeds, whatever becomes of the others. */
  lemma {:induction false} StartedAllExactly(w: World, ids: seq<string>, outcome: nat -> Outcome, base: nat, x: string)
    requires x in w
    ensures StatesOnly(w, StartedAll(w, ids, outcome, base))
    ensures StartedAll(w, ids, outcome, base)[x].state ==
            if exists i :: 0 <= i < |ids| && ids[i] == x && outcome(base + i).Succeeds? then "running" else w[x].state
  {
    if ids != [] {
      var k := |ids| - 1;
      StartedAllExactly(w, ids[..k], outcome, base, x);
      assert ids == ids[..k] + [ids[k]];
    }
  }

  lemma {:induction false} StartedAllShape(w: World, ids: seq<string>, outcome: nat -> Outcome, base: nat, x: string)
    requires (forall n: nat :: outcome(n).Succeeds?) && x in w
    ensures StatesOnly(w, StartedAll(w, ids, outcome, base))
    ensures StartedAll(w, ids, outcome, base)[x].state == if x in ids then "running" else w[x].state
  {
    if ids != [] {
      var k := |ids| - 1;
      StartedAllShape(w, ids[..k], outcome, base, x);
      assert ids == ids[..k] + [ids[k]];
    }
  }

  lemma SiblingPlainly(c: Container, target: Container)
    ensures IsSibling(c, target) <==>
            IsWord(c.state, "created") && "container:" <= c.networkMode &&
              GoesBy(target, Stripped(c.networkMode[|"container:"|..]))
  {
    LowerExactly(c.state, "created");
    if "container:" <= c.networkMode {
      ListedIsGoesBy(target, Stripped(c.networkMode[|"container:"|..]));
    }
    hide GoesBy, Listed, ToLower, IsWord, Stripped;
  }

  /** In the order of the listing. */
  lemma {:induction false} SiblingsInOrder(before: seq<Container>, c: Container, after: seq<Container>,
                                           target: Container)
    ensures Siblings(before + [c] + after, target) ==
            Siblings(before, target) + Siblings([c], target) + Siblings(after, target)
    decreases |after|
  {
    hide IsSibling;
    var list := before + [c] + after;
    if after == [] {
      assert list == before + [c] && list[..|before|] == before && [c][..0] == [];
    } else {
      assert list[..|list| - 1] == before + [c] + after[..|after| - 1];
      SiblingsInOrder(before, c, after[..|after| - 1], target);
    }
  }

  /** And in a listing that shows no container twice, none is started twice. */
  lemma {:induction false} SiblingsDistinct(all: seq<Container>, target: Container)
    requires forall i, j | 0 <= i < j < |all| :: all[i].id != all[j].id
    ensures Distinct(Siblings(all, target))
  {
    hide IsSibling;
    if all != [] {
      var k := |all| - 1;
      SiblingsDistinct(all[..k], target);
      if all[k].id in Siblings(all[..k], target) {
        SiblingIn(all[..k], target, all[k].id);
      }
    }
  }

  lemma SiblingIn(all: seq<Container>, target: Container, id: string)
    requires id in Siblings(all, target)
    ensures exists i :: 0 <= i < |all| && all[i].id == id
  {
    SiblingsExactly(all, target, id);
    hide IsSibling, GoesBy, IsWord, Stripped;
  }

  lemma {:induction false} SiblingsExactly(all: seq<Container>, target: Container, id: string)
    ensures id in Siblings(all, target) <==>
            exists c :: c in all && c.id == id && IsWord(c.state, "created") && "container:" <= c.networkMode &&
                        GoesBy(target, Stripped(c.networkMode[|"container:"|..]))
    ensures id in Siblings(all, target) <==> exists c :: c in all && c.id == id && IsSibling(c, target)
  {
    forall c: Container {
      SiblingPlainly(c, target);
    }
    hide GoesBy, Listed, Stripped, IsWord, IsSibling;
    if all != [] {
      SiblingsExactly(all[..|all| - 1], target, id);
      assert all == all[..|all| - 1] + [all[|all| - 1]];
    }
  }

  /** The event's target is a container of its own namespace, by the one reference the recipe gives. */
  ghost predicate GoodTarget(w: World, recipe: Recipe, target: Container, ids: nat -> string) {
    && Trimmed(recipe.target) && SlashFree(recipe.target) && recipe.target != Stripped(recipe.name)
    && OnlyDenotes(w, recipe.target, target.id) && !Named(w[target.id], Stripped(recipe.name))
    && CutPrefix(w[target.id].networkMode, NETMODE).None?
    && (forall n | n in target.names :: Named(w[target.id], Stripped(n)))
    && NoIdReadsAs(ids, recipe.target)
  }

  /** The reference of the managed service-anchor is stored the way Docker stores it. */
  ghost predicate GoodAnchor(w: World, recipe: Recipe) {
    && NamedOnce(w, Stripped(recipe.name))
    && forall x | x in w && Named(w[x], Stripped(recipe.name)) ::
         && RefUnambiguous(w, w[x].networkMode)
         && var cut := CutPrefix(w[x].networkMode, NETMODE); cut.Some? ==>
           Trimmed(cut.value) && SlashFree(cut.value) && cut.value != ""
  }

  /** One container carries the recipe's name; it runs in the target's namespace. */
  ghost predicate Settled(w: World, recipe: Recipe, target: Container, x: string) {
    && x in w && Named(w[x], Stripped(recipe.name)) && NamedOnce(w, Stripped(recipe.name))
    && ToLower(w[x].state) == "running" && RefUnambiguous(w, w[x].networkMode) && !Stale(w, w[x].networkMode, target)
  }

  /** Once settled, a start event removes and creates nothing. */
  lemma SettledQuiet(w: World, recipe: Recipe, target: Container, x: string, all: seq<Container>)
    requires Settled(w, recipe, target, x) && Lists(all, w) && Keyed(w)
    ensures Decide(recipe, all, target, None) == Leave
  {
    FindsAnchor(w, recipe, x, all);
    StaleInListing(w, all, w[x].networkMode, target);
    hide SaTargetsStaleNetns, Stale, Named;
  }

  lemma FindsAnchor(w: World, recipe: Recipe, x: string, all: seq<Container>)
    requires Lists(all, w) && Keyed(w) && x in w && Named(w[x], Stripped(recipe.name)) &&
             NamedOnce(w, Stripped(recipe.name))
    ensures ManagedSA(all, recipe) == Some(w[x])
  {
    assert w[x] in all;
    var r := ManagedSA(all, recipe);
    assert Named(w[r.value.id], Stripped(recipe.name));
  }

  /** Replace's effect when all calls succeed, whichever of its forms it takes. */
  function AfterReplace(w: World, autoFix: bool, all: seq<Container>, old_: Option<Container>, spec: CreateSpec,
                        a: Answers, n: nat): World {
    ReplacedWorld(w, if old_.Some? then old_.value.id else "", Some(spec),
                  if old_.Some? && autoFix then IdsOf(Orphans(all, old_.value)) else [], a, n)
  }

  function NewIdOf(old_: Option<Container>, a: Answers, n: nat): string {
    a.ids(if old_.Some? then n + 1 else n)
  }

  ghost predicate Replaceable(w: World, all: seq<Container>, old_: Option<Container>, a: Answers, n: nat) {
    && Keyed(w) && FreshFor(w, a.ids, n, |w| + 3) && AllSucceed(a) && ListsUpToState(all, w)
    && (old_.Some? ==> old_.value.id in w && old_.value.id != "")
  }

  lemma NoneToRebind(w: World, autoFix: bool, all: seq<Container>, old_: Option<Container>, spec: CreateSpec,
                     a: Answers, n: nat)
    requires Replaceable(w, all, old_, a, n) && !(old_.Some? && autoFix)
    ensures AfterReplace(w, autoFix, all, old_, spec, a, n) ==
            (if old_.Some? then w - {old_.value.id} else w)
              [NewIdOf(old_, a, n) := RunningAnchor(spec, NewIdOf(old_, a, n), a)]
  {
    assert a.outcome(n).Succeeds? && a.outcome(n + 1).Succeeds? && a.outcome(n + 2).Succeeds?;
    assert forall w2, outcome, ids, base, mode :: Rebound(w2, [], outcome, ids, base, mode) == w2;
  }

  lemma AfterReplaceNew(w: World, autoFix: bool, all: seq<Container>, old_: Option<Container>, spec: CreateSpec,
                        a: Answers, n: nat)
    requires Replaceable(w, all, old_, a, n)
    ensures var r, nid := AfterReplace(w, autoFix, all, old_, spec, a, n), NewIdOf(old_, a, n);
            nid in r && r[nid] == RunningAnchor(spec, nid, a)
  {
    if old_.Some? && autoFix {
      RecreateRenews(w, all, old_.value, spec, a, n);
    } else {
      NoneToRebind(w, autoFix, all, old_, spec, a, n);
    }
  }

  /** A container with a namespace of its own stays as it is. */
  lemma AfterReplaceKeeps(w: World, autoFix: bool, all: seq<Container>, old_: Option<Container>, spec: CreateSpec,
                          a: Answers, n: nat, id: string)
    requires Replaceable(w, all, old_, a, n) && id in w && CutPrefix(w[id].networkMode, NETMODE).None?
    requires old_.Some? ==> id != old_.value.id
    ensures id in AfterReplace(w, autoFix, all, old_, spec, a, n) &&
            AfterReplace(w, autoFix, all, old_, spec, a, n)[id] == w[id]
  {
    if old_.Some? && autoFix {
      RecreateLeavesOthers(w, all, old_.value, spec, a, n, id);
    } else {
      NoneToRebind(w, autoFix, all, old_, spec, a, n);
    }
  }

  /** Every container but the new service-anchor was there before, perhaps under another ID. */
  lemma AfterReplaceOrigin(w: World, autoFix: bool, all: seq<Container>, old_: Option<Container>, spec: CreateSpec,
                           a: Answers, n: nat, x: string)
    returns (y: string, m: nat)
    requires Replaceable(w, all, old_, a, n) && x in AfterReplace(w, autoFix, all, old_, spec, a, n) &&
             x != NewIdOf(old_, a, n)
    ensures y in w && (old_.Some? ==> y != old_.value.id)
    ensures var r := AfterReplace(w, autoFix, all, old_, spec, a, n);
            || (x == y && r[x] == w[y])
            || (x == a.ids(m) && r[x].id == x && r[x].names == w[y].names &&
                CutPrefix(w[y].networkMode, NETMODE).Some? && x !in w)
  {
    if old_.Some? && autoFix {
      y, m := RecreateOriginOf(w, all, old_.value, spec, a, n, x);
    } else {
      NoneToRebind(w, autoFix, all, old_, spec, a, n);
      y, m := x, 0;
      hide AfterReplace, Replaceable, NewContainer;
    }
  }

  lemma RecreateOriginOf(w: World, all: seq<Container>, sa: Container, spec: CreateSpec, a: Answers, n: nat, x: string)
    returns (y: string, m: nat)
    requires Recreating(w, all, sa, a, n) && x in RecreatedWorld(w, all, sa, spec, a, n) && x != a.ids(n + 1)
    ensures y in w && y != sa.id
    ensures var r := RecreatedWorld(w, all, sa, spec, a, n);
            || (x == y && r[x] == w[y])
            || (x == a.ids(m) && r[x].id == x && r[x].names == w[y].names &&
                CutPrefix(w[y].networkMode, NETMODE).Some? && x !in w)
  {
    m := 0;
    var i := RecreateOrigin(w, all, sa, spec, a, n, x);
    if x in w && x != sa.id && !DependsOn(w[x], sa) {
      y := x;
      RecreateLeavesOthers(w, all, sa, spec, a, n, x);
    } else {
      RecreateRebinds(w, all, sa, spec, a, n, i);
      y, m := Orphans(all, sa)[i].id, n + 3 + i;
      DependsMeans(w, y, sa);
      NewIdFresh(w, all, sa, spec, a, n, i);
    }
    hide *;
  }

  lemma DependsMeans(w: World, y: string, sa: Container)
    requires y in w && DependsOn(w[y], sa) && w[y].id == y
    ensures y != sa.id && CutPrefix(w[y].networkMode, NETMODE).Some?
  {
  }

  lemma NewIdFresh(w: World, all: seq<Container>, sa: Container, spec: CreateSpec, a: Answers, n: nat, i: nat)
    requires Recreating(w, all, sa, a, n) && i < |Orphans(all, sa)|
    ensures a.ids(n + 3 + i) !in w
  {
    var _ := RecreateUnfolds(w, all, sa, spec, a, n);
    hide RecreatedWorld, Orphans, Rebound;
  }

  /** A replacement by the recipe's own spec settles the matter. */
  lemma ReplaceSettles(w: World, recipe: Recipe, autoFix: bool, all: seq<Container>, target: Container,
                       old_: Option<Container>,
                       spec: CreateSpec, a: Answers, n: nat)
    requires Replaceable(w, all, old_, a, n) && GoodTarget(w, recipe, target, a.ids) && recipe.Active()
    requires spec.name == recipe.name && spec.networkMode == NETMODE + recipe.target
    requires NamedOnce(w, Stripped(recipe.name))
    requires if old_.Some? then Named(w[old_.value.id], Stripped(recipe.name))
             else forall x | x in w :: !Named(w[x], Stripped(recipe.name))
    ensures Settled(AfterReplace(w, autoFix, all, old_, spec, a, n), recipe, target, NewIdOf(old_, a, n))
  {
    var r, nid := AfterReplace(w, autoFix, all, old_, spec, a, n), NewIdOf(old_, a, n);
    AfterReplaceNew(w, autoFix, all, old_, spec, a, n);
    AfterReplaceKeeps(w, autoFix, all, old_, spec, a, n, target.id);
    NewAnchor(spec, recipe, nid, a);
    forall x | x in r
      ensures Named(r[x], Stripped(recipe.name)) <==> x == nid
      ensures Denotes(r[x], recipe.target) <==> x == target.id
    {
      if x != nid {
        var y, m := AfterReplaceOrigin(w, autoFix, all, old_, spec, a, n, x);
        OldNames(w, recipe, target, old_, a, r[x], x, y, m);
      }
    }
    hide AfterReplace, Replaceable, Named, Denotes, NewContainer;
  }

  /** What the new service-anchor answers to, and what it refers to. */
  lemma NewAnchor(spec: CreateSpec, recipe: Recipe, nid: string, a: Answers)
    requires spec.name == recipe.name && spec.networkMode == NETMODE + recipe.target && recipe.Active()
    requires Trimmed(recipe.target) && recipe.target != Stripped(recipe.name)
    requires nid != recipe.target && !(|recipe.target| >= 12 && HasPrefix(nid, recipe.target))
    ensures var c := RunningAnchor(spec, nid, a);
            && Named(c, Stripped(recipe.name)) && !Denotes(c, recipe.target)
            && Ref(c.networkMode) == Some(recipe.target) && ToLower(c.state) == "running"
  {
    var c := RunningAnchor(spec, nid, a);
    CutPrefixOf("/", Stripped(spec.name));
    assert Stripped("/" + Stripped(spec.name)) == Stripped(spec.name);
    assert c.names[0] in c.names;
    CutPrefixOf(NETMODE, recipe.target);
    TrimmedIsTrim(recipe.target);
    assert ToLower("running") == "running";
  }

  /** Nobody else takes over the recipe's name or answers to its target. */
  lemma OldNames(w: World, recipe: Recipe, target: Container, old_: Option<Container>, a: Answers, c: Container,
                 x: string, y: string, m: nat)
    requires GoodTarget(w, recipe, target, a.ids) && y in w && (old_.Some? ==> y != old_.value.id) &&
             NamedOnce(w, Stripped(recipe.name))
    requires if old_.Some? then old_.value.id in w && Named(w[old_.value.id], Stripped(recipe.name))
             else forall z | z in w :: !Named(w[z], Stripped(recipe.name))
    requires || (x == y && c == w[y])
             || (x == a.ids(m) && c.id == x && c.names == w[y].names && CutPrefix(w[y].networkMode, NETMODE).Some? &&
                 x !in w)
    ensures !Named(c, Stripped(recipe.name)) && (Denotes(c, recipe.target) <==> x == target.id)
  {
    assert !Named(w[y], Stripped(recipe.name));
    assert Denotes(w[y], recipe.target) <==> y == target.id;
  }

  // The other decisions change states only.

  lemma SiblingIds(all: seq<Container>, target: Container, w: World, x: string)
    requires Lists(all, w) && Keyed(w) && x in w
    ensures x in Siblings(all, target) <==> IsSibling(w[x], target)
  {
    SiblingsExactly(all, target, x);
    assert w[x] in all;
  }

  lemma {:induction false} SiblingsFit(all: seq<Container>, target: Container)
    ensures |Siblings(all, target)| <= |all|
  {
    if all != [] {
      SiblingsFit(all[..|all| - 1], target);
      hide IsSibling;
    }
  }

  lemma SiblingsFitWorld(all: seq<Container>, w: World, target: Container)
    requires Lists(all, w)
    ensures |Siblings(all, target)| <= |w|
  {
    SiblingsFit(all, target);
    ListingFits(all, w);
  }

  /** Started siblings: the world after the first loop of the event. */
  lemma AfterSiblings(w: World, all: seq<Container>, target: Container, a: Answers, n: nat, x: string)
    returns (w1: World)
    requires Lists(all, w) && Keyed(w) && AllSucceed(a) && x in w
    ensures w1 == StartedAll(w, Siblings(all, target), a.outcome, n) && StatesOnly(w, w1)
    ensures w1[x].state == if IsSibling(w[x], target) then "running" else w[x].state
  {
    w1 := StartedAll(w, Siblings(all, target), a.outcome, n);
    StartedAllShape(w, Siblings(all, target), a.outcome, n, x);
    SiblingIds(all, target, w, x);
  }

  /** References do not look at states. */
  lemma StatesKeepReferences(w: World, w': World, recipe: Recipe, target: Container, ids: nat -> string, mode: string)
    requires StatesOnly(w, w')
    ensures GoodTarget(w', recipe, target, ids) <==> GoodTarget(w, recipe, target, ids)
    ensures NamedOnce(w', Stripped(recipe.name)) <==> NamedOnce(w, Stripped(recipe.name))
    ensures RefUnambiguous(w', mode) <==> RefUnambiguous(w, mode)
    ensures Stale(w', mode, target) <==> Stale(w, mode, target)
  {
    forall x, ref | x in w
      ensures Named(w'[x], ref) <==> Named(w[x], ref)
      ensures Denotes(w'[x], ref) <==> Denotes(w[x], ref)
    {
      assert w'[x].names == w[x].names && w'[x].id == w[x].id;
    }
    hide Named, Denotes;
  }

  /** A Created sibling that the event starts is in the target's namespace. */
  lemma SiblingIsCurrent(w: World, target: Container, x: string)
    requires x in w && IsSibling(w[x], target) && target.id in w && w[target.id].id == target.id
    requires forall n | n in target.names :: Named(w[target.id], Stripped(n))
    requires Trimmed(CutPrefix(w[x].networkMode, NETMODE).value) &&
             SlashFree(CutPrefix(w[x].networkMode, NETMODE).value)
    ensures !Stale(w, w[x].networkMode, target)
  {
    var ref := CutPrefix(w[x].networkMode, NETMODE).value;
    TrimmedIsTrim(ref);
    StrippedAlready(ref);
    assert Listed(target, ref);
    if Named(target, ref) {
      var n :| n in target.names && Stripped(n) == ref;
      assert Named(w[target.id], Stripped(n));
    } else {
      ListedIsDenoted(w[target.id], target, ref);
    }
  }

  lemma ListedIsDenoted(c: Container, target: Container, ref: string)
    requires c.id == target.id && Listed(target, ref) && !Named(target, ref)
    ensures Denotes(c, ref)
  {
    if ref != c.id {
      assert ref == c.id[..12];
    }
  }

  lemma ReadyToReplace(w: World, w1: World, all: seq<Container>, old_: Option<Container>, a: Answers, n: nat, n1: nat)
    requires Keyed(w) && FreshFor(w, a.ids, n, 2 * |w| + 3) && AllSucceed(a) && Lists(all, w) && StatesOnly(w, w1)
    requires n <= n1 <= n + |w|
    requires old_.Some? ==> old_.value in all && old_.value.id != ""
    ensures Replaceable(w1, all, old_, a, n1)
  {
    forall c | c in all
      ensures c.id in w1 && w1[c.id].(state := c.state) == c
    {
    }
    forall id | id in w1
      ensures exists c :: c in all && c.id == id
    {
      assert w[id] in all;
    }
  }

  /** The hypotheses on the daemon's state, its answers and the recipe. */
  ghost predicate GoodDaemon(w: World, recipe: Recipe, target: Container, a: Answers, n: nat) {
    && Keyed(w) && FreshFor(w, a.ids, n, 2 * |w| + 3) && AllSucceed(a)
    && GoodTarget(w, recipe, target, a.ids) && GoodAnchor(w, recipe)
  }

  ghost predicate GoodWorld(w: World, recipe: Recipe, target: Container, spec: CreateSpec, a: Answers, n: nat) {
    GoodDaemon(w, recipe, target, a, n) && spec.name == recipe.name && spec.networkMode == NETMODE + recipe.target
  }

  lemma AfterReplaceEvent(w: World, recipe: Recipe, autoFix: bool, all: seq<Container>, target: Container,
                          spec: CreateSpec, a: Answers, n: nat)
    returns (x: string)
    requires GoodWorld(w, recipe, target, spec, a, n) && Lists(all, w) && Decide(recipe, all, target, None).Replace?
    ensures Settled(AfterEvent(w, recipe, autoFix, all, target, Some(spec), a, n), recipe, target, x)
  {
    hide *;
    var old_ := ManagedSA(all, recipe);
    var n1 := n + |Siblings(all, target)|;
    ReplaceMeans(recipe, all, target);
    SpecOfEvent(w, recipe, all, target, spec, a, n);
    EventIsReplace(w, recipe, autoFix, all, target, spec, a, n);
    var w1 := BeforeReplace(w, recipe, all, target, spec, a, n);
    x := NewIdOf(old_, a, n1);
    ReplaceSettles(w1, recipe, autoFix, all, target, old_, spec, a, n1);
  }

  lemma ReplaceMeans(recipe: Recipe, all: seq<Container>, target: Container)
    requires Decide(recipe, all, target, None).Replace?
    ensures recipe.Active() && Decide(recipe, all, target, None).old_ == ManagedSA(all, recipe)
  {
  }

  lemma SpecOfEvent(w: World, recipe: Recipe, all: seq<Container>, target: Container, spec: CreateSpec, a: Answers,
                    n: nat)
    requires GoodWorld(w, recipe, target, spec, a, n) && Lists(all, w)
    ensures spec.name == recipe.name && spec.networkMode == NETMODE + recipe.target
    ensures Keyed(w) && FreshFor(w, a.ids, n, 2 * |w| + 3) && AllSucceed(a) && Lists(all, w)
    ensures GoodTarget(w, recipe, target, a.ids) && GoodAnchor(w, recipe) && NamedOnce(w, Stripped(recipe.name)) &&
            target.id in w
  {
    hide Keyed, FreshFor, AllSucceed, Lists, NamedOnce, Named, Denotes, RefUnambiguous;
  }

  /** The siblings have been started, and everything a replacement needs is in place. */
  lemma BeforeReplace(w: World, recipe: Recipe, all: seq<Container>, target: Container, spec: CreateSpec, a: Answers,
                      n: nat) returns (w1: World)
    requires GoodWorld(w, recipe, target, spec, a, n) && Lists(all, w)
    ensures w1 == StartedAll(w, Siblings(all, target), a.outcome, n)
    ensures Replaceable(w1, all, ManagedSA(all, recipe), a, n + |Siblings(all, target)|)
    ensures GoodTarget(w1, recipe, target, a.ids) && NamedOnce(w1, Stripped(recipe.name))
    ensures var r := ManagedSA(all, recipe);
            if r.Some? then r.value.id in w1 && Named(w1[r.value.id], Stripped(recipe.name))
            else forall x | x in w1 :: !Named(w1[x], Stripped(recipe.name))
  {
    hide *;
    SpecOfEvent(w, recipe, all, target, spec, a, n);
    w1 := AfterSiblings(w, all, target, a, n, target.id);
    ListedHasId(w, all, recipe);
    SiblingsFitWorld(all, w, target);
    ReadyToReplace(w, w1, all, ManagedSA(all, recipe), a, n, n + |Siblings(all, target)|);
    StatesKeepReferences(w, w1, recipe, target, a.ids, "");
    AnchorInWorld(w, w1, recipe, all);
  }

  lemma ListedHasId(w: World, all: seq<Container>, recipe: Recipe)
    requires Lists(all, w) && Keyed(w)
    ensures ManagedSA(all, recipe).Some? ==>
            ManagedSA(all, recipe).value in all && ManagedSA(all, recipe).value.id != ""
  {
    hide Named;
  }

  lemma EventIsReplace(w: World, recipe: Recipe, autoFix: bool, all: seq<Container>, target: Container,
                       spec: CreateSpec, a: Answers, n: nat)
    requires Decide(recipe, all, target, None).Replace?
    ensures AfterEvent(w, recipe, autoFix, all, target, Some(spec), a, n) ==
            AfterReplace(StartedAll(w, Siblings(all, target), a.outcome, n), autoFix, all,
                         Decide(recipe, all, target, None).old_, spec, a,
                         n + |Siblings(all, target)|)
  {
    hide Decide, StartedAll, Siblings, ReplacedWorld;
  }

  lemma AnchorInWorld(w: World, w1: World, recipe: Recipe, all: seq<Container>)
    requires Lists(all, w) && Keyed(w) && StatesOnly(w, w1)
    ensures var r := ManagedSA(all, recipe);
            if r.Some? then r.value.id in w1 && Named(w1[r.value.id], Stripped(recipe.name))
            else forall x | x in w1 :: !Named(w1[x], Stripped(recipe.name))
  {
    var r := ManagedSA(all, recipe);
    forall x | x in w1
      ensures Named(w1[x], Stripped(recipe.name)) <==> Named(w[x], Stripped(recipe.name))
    {
      assert w1[x].names == w[x].names;
    }
    if r.None? {
      forall x | x in w1 ensures !Named(w1[x], Stripped(recipe.name)) {
        assert w[x] in all;
      }
    }
  }

  /** The service-anchor was in neither of the states that the first event looks at, and its reference is stale. */
  ghost predicate LatentlyStale(w: World, recipe: Recipe, all: seq<Container>, target: Container) {
    var first := Decide(recipe, all, target, None);
    first.JustStart? && first.id in w && Stale(w, w[first.id].networkMode, target)
  }

  /**
   Two identical start events, all calls successful: the second removes or creates
   something exactly when the service-anchor was neither running nor created at the
   first one, which then only started it, and its reference is not to the target.
   */
  lemma SecondStartEvent(w: World, recipe: Recipe, autoFix: bool, all: seq<Container>, target: Container,
                         spec: CreateSpec, a: Answers, n: nat,
                         all2: seq<Container>)
    requires GoodWorld(w, recipe, target, spec, a, n) && Lists(all, w)
    requires var w2 := AfterEvent(w, recipe, autoFix, all, target, Some(spec), a, n); Keyed(w2) && Lists(all2, w2)
    ensures Decide(recipe, all2, target, None).Replace? <==> LatentlyStale(w, recipe, all, target)
  {
    var first := Decide(recipe, all, target, None);
    if recipe.Active() && TargetMatchesRecipe(target, recipe.target) {
      if first.Replace? {
        var x := AfterReplaceEvent(w, recipe, autoFix, all, target, spec, a, n);
        SettledQuiet(AfterEvent(w, recipe, autoFix, all, target, Some(spec), a, n), recipe, target, x, all2);
      } else {
        SecondWithoutReplace(w, recipe, autoFix, all, target, spec, a, n, all2);
      }
    }
  }

  lemma SecondWithoutReplace(w: World, recipe: Recipe, autoFix: bool, all: seq<Container>, target: Container,
                             spec: CreateSpec, a: Answers, n: nat,
                             all2: seq<Container>)
    requires GoodWorld(w, recipe, target, spec, a, n) && Lists(all, w)
    requires recipe.Active() && TargetMatchesRecipe(target, recipe.target) &&
             !Decide(recipe, all, target, None).Replace?
    requires var w2 := AfterEvent(w, recipe, autoFix, all, target, Some(spec), a, n); Keyed(w2) && Lists(all2, w2)
    ensures Decide(recipe, all2, target, None).Replace? <==> LatentlyStale(w, recipe, all, target)
  {
    var first := Decide(recipe, all, target, None);
    assert LatentlyStale(w, recipe, all, target) <==>
           first.JustStart? && first.id in w && Stale(w, w[first.id].networkMode, target);
    hide *;
    DecideOnAnchor(recipe, all, target);
    var sa := ManagedSA(all, recipe).value;
    var x := sa.id;
    AnchorBefore(w, recipe, all, target, spec, a, n);
    var w1 := AfterSiblings(w, all, target, a, n, x);
    var w2 := AfterEvent(w, recipe, autoFix, all, target, Some(spec), a, n);
    EventOnlyStarts(w, recipe, autoFix, all, target, spec, a, n);
    StartedStates(w, w1, w2, x, first.JustStart?);
    StatesKeepReferences(w, w2, recipe, target, a.ids, sa.networkMode);
    StaleInListing(w, all, sa.networkMode, target);
    StaleInListing(w2, all2, sa.networkMode, target);
    if IsSibling(sa, target) {
      IsSiblingMeans(sa, target);
      SiblingIsCurrent(w, target, x);
    }
    NamesKept(sa, w2[x], Stripped(recipe.name));
    FindsAnchor(w2, recipe, x, all2);
    DecideOnAnchor(recipe, all2, target);
  }

  /** The decision, once the target matches: it depends on the service-anchor's state and reference. */
  lemma DecideOnAnchor(recipe: Recipe, all: seq<Container>, target: Container)
    requires recipe.Active() && TargetMatchesRecipe(target, recipe.target)
    ensures ToLower("running") == "running" != "created"
    ensures var d, sa := Decide(recipe, all, target, None), ManagedSA(all, recipe);
            if sa.None? then d == Replace(None)
            else if ToLower(sa.value.state) == "running"
            then d == if SaTargetsStaleNetns(sa.value.networkMode, target, all) then Replace(sa) else Leave
            else d == if ToLower(sa.value.state) == "created" then Leave else JustStart(sa.value.id)
  {
  }

  lemma AnchorBefore(w: World, recipe: Recipe, all: seq<Container>, target: Container, spec: CreateSpec, a: Answers,
                     n: nat)
    requires GoodWorld(w, recipe, target, spec, a, n) && Lists(all, w) && ManagedSA(all, recipe).Some?
    ensures Keyed(w) && AllSucceed(a) && Lists(all, w) && NamedOnce(w, Stripped(recipe.name))
    ensures target.id in w && w[target.id].id == target.id
    ensures forall m | m in target.names :: Named(w[target.id], Stripped(m))
    ensures var sa := ManagedSA(all, recipe).value;
            && sa.id in w && w[sa.id] == sa && Named(sa, Stripped(recipe.name)) && RefUnambiguous(w, sa.networkMode)
            && var cut := CutPrefix(sa.networkMode, NETMODE); cut.Some? ==> Trimmed(cut.value) && SlashFree(cut.value)
  {
    SpecOfEvent(w, recipe, all, target, spec, a, n);
    hide FreshFor, Denotes, RefUnambiguous;
  }

  lemma EventOnlyStarts(w: World, recipe: Recipe, autoFix: bool, all: seq<Container>, target: Container,
                        spec: CreateSpec, a: Answers, n: nat)
    requires !Decide(recipe, all, target, None).Replace? && AllSucceed(a)
    ensures var w1, first := StartedAll(w, Siblings(all, target), a.outcome, n), Decide(recipe, all, target, None);
            AfterEvent(w, recipe, autoFix, all, target, Some(spec), a, n) ==
              if first.JustStart? then Started(w1, first.id) else w1
  {
    hide Decide, StartedAll, Siblings, ReplacedWorld, Started;
    assert a.outcome(n + |Siblings(all, target)|).Succeeds?;
  }

  lemma StartedStates(w: World, w1: World, w2: World, x: string, started: bool)
    requires StatesOnly(w, w1) && x in w && w2 == if started then Started(w1, x) else w1
    ensures StatesOnly(w, w2) && x in w2 && w2[x].state == if started then "running" else w1[x].state
    ensures w2[x].names == w[x].names && w2[x].networkMode == w[x].networkMode
  {
  }

  lemma IsSiblingMeans(c: Container, target: Container)
    requires IsSibling(c, target)
    ensures ToLower(c.state) == "created" && CutPrefix(c.networkMode, NETMODE).Some?
  {
  }

  lemma NamesKept(c: Container, d: Container, name: string)
    requires c.names == d.names
    ensures Named(c, name) <==> Named(d, name)
  {
  }

  // ---- the case in which the second event acts, on a host of two containers ----------------

  function Id64(c: char): (id: string)
    ensures |id| == 64 && id[0] == c
  {
    seq(64, _ => c)
  }

  /** The IDs that the daemon of the example gives out. */
  function ExampleId(n: nat): string {
    if n < 7 then Id64("ghijklm"[n]) else Id64('z')
  }

  const APP := Container(Id64('a'), ["/app"], "running", "bridge", map[], "")
  /** Stopped, and in the namespace of a container that is gone. */
  const APP_SA := Container(Id64('s'), ["/app-sa"], "exited", NETMODE + Id64('o'), map[], "")
  const APP_RECIPE := Recipe("app", "app-sa", "anchord", "10.0.0.1", map[], map[])

  lemma ExampleNames()
    ensures forall ref :: (Named(APP, ref) <==> ref == "app") && (Named(APP_SA, ref) <==> ref == "app-sa")
    ensures "app" != "app-sa" && Stripped("app") == "app" && Stripped("app-sa") == "app-sa"
  {
    assert Stripped("/app") == "app" && Stripped("/app-sa") == "app-sa";
    StrippedAlready("app");
    StrippedAlready("app-sa");
    assert APP.names[0] in APP.names && APP_SA.names[0] in APP_SA.names;
    assert |"app"| != |"app-sa"|;
  }

  lemma ExampleReference()
    ensures CutPrefix(APP_SA.networkMode, NETMODE) == Some(Id64('o')) && CutPrefix(APP.networkMode, NETMODE).None?
    ensures Trimmed(Id64('o')) && SlashFree(Id64('o')) && Trimmed("app") && SlashFree("app")
    ensures Ref(APP_SA.networkMode) == Some(Id64('o'))
    ensures !Denotes(APP, Id64('o')) && !Denotes(APP_SA, Id64('o'))
  {
    CutPrefixOf(NETMODE, Id64('o'));
    assert "bridge"[0] == 'b' && NETMODE[0] == 'c';
    assert Trimmed(Id64('o'));
    TrimmedIsTrim(Id64('o'));
    ExampleNames();
    hide Named;
    assert |"app"| == 3 && |"app-sa"| == 6;
  }

  lemma ExampleIds()
    ensures forall n: nat | n < 7 :: |ExampleId(n)| == 64 && ExampleId(n)[0] == "ghijklm"[n]
    ensures forall n: nat :: |ExampleId(n)| == 64
  {
  }

  lemma ExampleTarget(w: World)
    requires w == map[APP.id := APP, APP_SA.id := APP_SA]
    ensures APP.id != APP_SA.id && Keyed(w) && GoodTarget(w, APP_RECIPE, APP, ExampleId) && GoodAnchor(w, APP_RECIPE)
  {
    assert APP.id[0] == 'a' && APP_SA.id[0] == 's';
    ExampleNames();
    ExampleReference();
    ExampleIds();
    hide Named, CutPrefix, Trimmed, Stripped, Id64, ExampleId;
  }

  lemma ExampleFresh(w: World)
    requires w.Keys == {APP.id, APP_SA.id}
    ensures FreshFor(w, ExampleId, 0, 2 * |w| + 3)
  {
    assert |w| == |w.Keys|;
    assert APP.id[0] == 'a' && APP_SA.id[0] == 's';
    assert |{APP.id, APP_SA.id}| == 2;
    ExampleIds();
  }

  /** A stopped service-anchor with a stale reference: the first start event starts it, the second replaces it. */
  lemma SecondEventReplaces()
    returns (w: World, spec: CreateSpec, a: Answers, all: seq<Container>, again: seq<Container>)
    ensures GoodWorld(w, APP_RECIPE, APP, spec, a, 0) && Lists(all, w)
    ensures Decide(APP_RECIPE, all, APP, None) == JustStart(APP_SA.id)
    ensures forall autoFix :: Lists(again, AfterEvent(w, APP_RECIPE, autoFix, all, APP, Some(spec), a, 0))
    ensures Decide(APP_RECIPE, again, APP, None).Replace?
  {
    w := map[APP.id := APP, APP_SA.id := APP_SA];
    spec := CreateSpec("app-sa", "anchord", map[], map[], NETMODE + "app");
    a := Answers(_ => Succeeds, ExampleId, image => image);
    all, again := [APP, APP_SA], [APP, APP_SA.(state := "running")];
    ExampleTarget(w);
    ExampleFresh(w);
    hide GoodTarget, GoodAnchor, FreshFor, Keyed;
    ExampleDecision(all);
    ExampleStale(w, all);
    assert GoodWorld(w, APP_RECIPE, APP, spec, a, 0);
    ExampleListings(w);
    hide *;
    forall autoFix
      ensures Lists(again, AfterEvent(w, APP_RECIPE, autoFix, all, APP, Some(spec), a, 0))
      ensures Keyed(AfterEvent(w, APP_RECIPE, autoFix, all, APP, Some(spec), a, 0))
    {
      ExampleEvent(w, autoFix, all, spec, a);
    }
    SecondStartEvent(w, APP_RECIPE, true, all, APP, spec, a, 0, again);
  }

  lemma ExampleListings(w: World)
    requires w == map[APP.id := APP, APP_SA.id := APP_SA]
    ensures Lists([APP, APP_SA], w)
    ensures var running := APP_SA.(state := "running");
            Lists([APP, running], w[APP_SA.id := running]) && Keyed(w[APP_SA.id := running])
  {
    assert APP.id[0] == 'a' && APP_SA.id[0] == 's';
  }

  lemma ExampleEvent(w: World, autoFix: bool, all: seq<Container>, spec: CreateSpec, a: Answers)
    requires w == map[APP.id := APP, APP_SA.id := APP_SA] && all == [APP, APP_SA] && AllSucceed(a)
    ensures AfterEvent(w, APP_RECIPE, autoFix, all, APP, Some(spec), a, 0) ==
            w[APP_SA.id := APP_SA.(state := "running")]
  {
    ExampleDecision(all);
    ExampleSiblings(all);
    hide Decide, Siblings;
    assert APP.id[0] == 'a' && APP_SA.id[0] == 's';
  }

  /** Neither is in state created. */
  lemma ExampleSiblings(all: seq<Container>)
    requires all == [APP, APP_SA]
    ensures Siblings(all, APP) == []
  {
    assert ToLower("running")[0] == 'r' && ToLower("exited")[0] == 'e' && "created"[0] == 'c';
    assert !IsSibling(APP, APP) && !IsSibling(APP_SA, APP);
    hide IsSibling;
    assert all[..1] == [APP] && [APP][..0] == [];
    assert Siblings([], APP) == [];
    assert Siblings([APP], APP) == [];
  }

  lemma ExampleDecision(all: seq<Container>)
    requires all == [APP, APP_SA]
    ensures Decide(APP_RECIPE, all, APP, None) == JustStart(APP_SA.id)
  {
    ExampleNames();
    assert ManagedSA(all, APP_RECIPE) == Some(APP_SA) by {
      assert APP_SA in all;
    }
    assert ToLower("exited") == "exited";
  }

  lemma ExampleStale(w: World, all: seq<Container>)
    requires w == map[APP.id := APP, APP_SA.id := APP_SA] && all == [APP, APP_SA]
    ensures LatentlyStale(w, APP_RECIPE, all, APP)
  {
    ExampleDecision(all);
    ExampleReference();
    hide Decide, Denotes, Ref;
  }

  /** Everything the two events are stated under. */
  ghost predicate ReadyFor(w: World, n: nat, watcher: Watcher, target: Container, self: SelfInfo, shared: string) {
    && SpecFor(watcher.recipe, Some(self), shared).Some?
    && GoodDaemon(w, watcher.recipe, target, watcher.Ans(), n)
  }

  /** Two identical start events in a row; `between` is the call log after the first. */
  method TwoStartEvents(watcher: Watcher, target: Container, self: SelfInfo, shared: string)
    returns (ghost all: seq<Container>, ghost between: seq<Call>, ghost mid: World, ghost again: seq<Container>)
    requires watcher.ops.Valid() && ReadyFor(watcher.ops.containers, |watcher.ops.calls|, watcher, target, self, shared)
    modifies watcher.ops`containers, watcher.ops`calls
    ensures Lists(all, old(watcher.ops.containers)) && Lists(again, mid)
    ensures mid == AfterEvent(old(watcher.ops.containers), watcher.recipe, watcher.autoFixDeadNetns, all, target,
                              SpecFor(watcher.recipe, Some(self), shared), watcher.Ans(), |old(watcher.ops.calls)|)
    ensures watcher.ops.containers == AfterEvent(mid, watcher.recipe, watcher.autoFixDeadNetns, again, target,
                                                 SpecFor(watcher.recipe, Some(self), shared), watcher.Ans(), |between|)
    ensures !LatentlyStale(old(watcher.ops.containers), watcher.recipe, all, target) ==>
              OnlyStarts(between, watcher.ops.calls)
  {
    SpecExactly(watcher.recipe, self, shared);
    assert SpecFor(watcher.recipe, Some(self), shared) == BuildSpec(watcher.recipe, self, shared);
    hide AfterEvent, SpecFor, BuildSpec, GoodDaemon, Lists, Keyed, Decide, LatentlyStale, OnlyStarts, Docker.Valid;
    ghost var w, n := watcher.ops.containers, |watcher.ops.calls|;
    ghost var spec := SpecFor(watcher.recipe, Some(self), shared);
    all := watcher.HandleTargetStart(target, true, Some(self), shared);
    between, mid := watcher.ops.calls, watcher.ops.containers;
    ValidIsKeyed(watcher.ops);
    again := watcher.HandleTargetStart(target, true, Some(self), shared);
    SecondStartEvent(w, watcher.recipe, watcher.autoFixDeadNetns, all, target, spec.value, watcher.Ans(), n, again);
  }
}
