/** The Docker daemon as the recreating components see it: containers, and calls it may turn down. */
module DockerWorld {
  import opened GoBase
  import opened GoStrings
  import opened References

  type World = map<string, Container>

  /** How a call ends. A recreate can fail half-way: container gone, or back but not started. */
  datatype Outcome = Succeeds | Refused | LosesContainer | LeavesCreated

  datatype CreateSpec = CreateSpec(name: string, image: string, env: map<string, string>, labels: map<string, string>,
                                   networkMode: string)

  datatype Call =
    | Remove(id: string)
    | Create(spec: CreateSpec)
    | Start(id: string)
    | Recreate(id: string, networkMode: string)

  /** An answer to a list call: every container once, in whatever order. */
  ghost predicate Lists(all: seq<Container>, w: World) {
    && (forall c | c in all :: c.id in w && w[c.id] == c)
    && (forall id | id in w :: w[id] in all)
    && forall i, j | 0 <= i < j < |all| :: all[i].id != all[j].id
  }

  ghost predicate Keyed(w: World) {
    forall id | id in w :: w[id].id == id && id != ""
  }

  function NewContainer(spec: CreateSpec, id: string, imageID: string): Container {
    Container(id, ["/" + Stripped(spec.name)], "created", spec.networkMode, spec.labels, imageID)
  }

  function Started(w: World, id: string): World {
    if id in w then w[id := w[id].(state := "running")] else w
  }

  /** A recreate that came as far as a new container. */
  function EndState(o: Outcome): string {
    if o.Succeeds? then "running" else "created"
  }

  /** RecreateWithNetworkMode: inspect, remove, create, start; it may stop after any of them. */
  function Recreated(w: World, id: string, o: Outcome, newId: string, mode: string): World {
    if id !in w || o.Refused? then w
    else if o.LosesContainer? then w - {id}
    else (w - {id})[newId := w[id].(id := newId, networkMode := mode, state := EndState(o))]
  }

  class Docker {
    const outcome: nat -> Outcome
    /** The ID that the n-th call would give a new container, and the image digest behind a tag. */
    const ids: nat -> string
    const digest: string -> string
    var containers: World
    var calls: seq<Call>

    ghost predicate Valid()
      reads this
    {
      Keyed(containers) && forall n: nat :: ids(n) != ""
    }

    constructor (outcome: nat -> Outcome, ids: nat -> string, digest: string -> string, containers: World)
      requires Keyed(containers) && forall n: nat :: ids(n) != ""
      ensures Valid() && calls == [] && this.containers == containers
      ensures this.outcome == outcome && this.ids == ids && this.digest == digest
    {
      this.outcome, this.ids, this.digest, this.containers, this.calls := outcome, ids, digest, containers, [];
    }

    /** The daemon picks the order, and says nothing at all when `ok` is false. */
    method List(ok: bool) returns (all: Option<seq<Container>>)
      requires Valid()
      ensures all.Some? <==> ok
      ensures all.Some? ==> Lists(all.value, containers)
    {
      if !ok {
        return None;
      }
      var order := RangeOrder(containers);
      var listed: seq<Container> := [];
      for i := 0 to |order|
        invariant |listed| == i && forall j | 0 <= j < i :: listed[j] == containers[order[j]]
      {
        listed := listed + [containers[order[i]]];
      }
      forall id | id in containers ensures containers[id] in listed {
        assert id in order;
        var j :| 0 <= j < |order| && order[j] == id;
        assert listed[j] == containers[id];
      }
      return Some(listed);
    }

    method Remove(id: string) returns (ok: bool)
      requires Valid()
      modifies this`containers, this`calls
      ensures Valid() && calls == old(calls) + [Call.Remove(id)]
      ensures ok <==> outcome(|old(calls)|).Succeeds?
      ensures containers == if ok then old(containers) - {id} else old(containers)
    {
      ok := outcome(|calls|).Succeeds?;
      if ok {
        containers := containers - {id};
      }
      calls := calls + [Call.Remove(id)];
    }

    method Create(spec: CreateSpec) returns (id: Option<string>)
      requires Valid()
      modifies this`containers, this`calls
      ensures Valid() && calls == old(calls) + [Call.Create(spec)]
      ensures id == if outcome(|old(calls)|).Succeeds? then Some(ids(|old(calls)|)) else None
      ensures containers ==
              if id.Some? then old(containers)[id.value := NewContainer(spec, id.value, digest(spec.image))]
              else old(containers)
    {
      id := None;
      if outcome(|calls|).Succeeds? {
        id := Some(ids(|calls|));
        containers := containers[id.value := NewContainer(spec, id.value, digest(spec.image))];
      }
      calls := calls + [Call.Create(spec)];
    }

    method Start(id: string) returns (ok: bool)
      requires Valid()
      modifies this`containers, this`calls
      ensures Valid() && calls == old(calls) + [Call.Start(id)]
      ensures ok <==> outcome(|old(calls)|).Succeeds?
      ensures containers == if ok then Started(old(containers), id) else old(containers)
    {
      ok := outcome(|calls|).Succeeds?;
      if ok {
        containers := Started(containers, id);
      }
      calls := calls + [Call.Start(id)];
    }

    method RecreateWithNetworkMode(id: string, mode: string) returns (newId: Option<string>)
      requires Valid()
      modifies this`containers, this`calls
      ensures Valid() && calls == old(calls) + [Recreate(id, mode)]
      ensures newId == if id in old(containers) && outcome(|old(calls)|).Succeeds?
              then Some(ids(|old(calls)|)) else None
      ensures containers == Recreated(old(containers), id, outcome(|old(calls)|), ids(|old(calls)|), mode)
    {
      newId := if id in containers && outcome(|calls|).Succeeds? then Some(ids(|calls|)) else None;
      containers := Recreated(containers, id, outcome(|calls|), ids(|calls|), mode);
      calls := calls + [Recreate(id, mode)];
    }
  }

  /** The IDs that the calls from `n` on give out, `k` of them: 64 characters, never twice, and none in use. */
  ghost predicate FreshFor(w: World, ids: nat -> string, n: nat, k: nat) {
    && (forall m: nat | n <= m < n + k :: |ids(m)| == 64 && ids(m) !in w)
    && forall l: nat, m: nat | n <= l < m < n + k :: ids(l) != ids(m)
  }

  lemma FreshNext(w: World, ids: nat -> string, n: nat, m: nat, k: nat)
    requires FreshFor(w, ids, n, k) && n <= m < n + k
    ensures |ids(m)| == 64 && ids(m) !in w
  {
  }

  lemma FreshFewer(w: World, ids: nat -> string, n: nat, k: nat, l: nat)
    requires FreshFor(w, ids, n, k) && l <= k
    ensures FreshFor(w, ids, n, l)
  {
  }

  // ---- a row of recreates ---------------------------------------------------------

  /** The world after recreating each of `deps` under `mode`, the first by call number `base`. */
  function Rebound(w: World, deps: seq<string>, outcome: nat -> Outcome, ids: nat -> string, base: nat,
                   mode: string): World {
    if deps == [] then w
    else
      var k := |deps| - 1;
      Recreated(Rebound(w, deps[..k], outcome, ids, base, mode), deps[k], outcome(base + k), ids(base + k), mode)
  }

  /** Containers that are not recreated are not touched, and nothing else appears. */
  lemma {:induction false} ReboundKeeps(w: World, deps: seq<string>, outcome: nat -> Outcome, ids: nat -> string,
                                        base: nat, mode: string, x: string)
    requires x !in deps && forall n: nat | base <= n < base + |deps| :: x != ids(n)
    ensures var r := Rebound(w, deps, outcome, ids, base, mode);
            (x in r <==> x in w) && (x in w ==> r[x] == w[x])
  {
    if deps != [] {
      var k := |deps| - 1;
      ReboundKeeps(w, deps[..k], outcome, ids, base, mode, x);
      assert deps[k] in deps && x != ids(base + k);
    }
  }

  /** Each recreate ends as its own call does, whatever becomes of the others. */
  lemma {:induction false} ReboundEach(w: World, deps: seq<string>, outcome: nat -> Outcome, ids: nat -> string,
                                       base: nat, mode: string, i: nat)
    requires i < |deps| && Distinct(deps) && FreshFor(w, ids, base, |deps|) && forall d | d in deps :: d in w
    ensures var r, o := Rebound(w, deps, outcome, ids, base, mode), outcome(base + i);
            && (deps[i] in r <==> o.Refused?) && (o.Refused? ==> r[deps[i]] == w[deps[i]])
            && (ids(base + i) in r <==> o.Succeeds? || o.LeavesCreated?)
            && (ids(base + i) in r ==>
                  r[ids(base + i)] == w[deps[i]].(id := ids(base + i), networkMode := mode, state := EndState(o)))
  {
    var k := |deps| - 1;
    var before := Rebound(w, deps[..k], outcome, ids, base, mode);
    assert deps[i] in w && deps[k] in w;
    if i == k {
      ReboundKeeps(w, deps[..k], outcome, ids, base, mode, deps[k]);
      ReboundKeeps(w, deps[..k], outcome, ids, base, mode, ids(base + k));
    } else {
      ReboundEach(w, deps[..k], outcome, ids, base, mode, i);
      assert deps[i] != deps[k] && ids(base + i) != ids(base + k);
    }
  }

  /** With every call successful, nothing is lost: one new container for each old one. */
  lemma {:induction false} ReboundSize(w: World, deps: seq<string>, outcome: nat -> Outcome, ids: nat -> string,
                                       base: nat, mode: string)
    requires Distinct(deps) && FreshFor(w, ids, base, |deps|) && forall d | d in deps :: d in w
    requires forall n: nat :: outcome(n).Succeeds?
    ensures |Rebound(w, deps, outcome, ids, base, mode)| == |w|
  {
    if deps != [] {
      var k := |deps| - 1;
      var before := Rebound(w, deps[..k], outcome, ids, base, mode);
      ReboundSize(w, deps[..k], outcome, ids, base, mode);
      assert deps[k] in deps;
      ReboundKeeps(w, deps[..k], outcome, ids, base, mode, deps[k]);
      ReboundKeeps(w, deps[..k], outcome, ids, base, mode, ids(base + k));
      Swapped(before, deps[k], ids(base + k),
              before[deps[k]].(id := ids(base + k), networkMode := mode, state := "running"));
    }
  }

  /** A listing is no longer than the world. */
  lemma ListingFits(all: seq<Container>, w: World)
    requires (forall c | c in all :: c.id in w) && forall i, j | 0 <= i < j < |all| :: all[i].id != all[j].id
    ensures |all| <= |w|
  {
    var ids := seq(|all|, i requires 0 <= i < |all| => all[i].id);
    DistinctFits(ids, w.Keys);
  }

  lemma {:induction false} DistinctFits(ids: seq<string>, s: set<string>)
    requires Distinct(ids) && forall id | id in ids :: id in s
    ensures |ids| <= |s|
    decreases |ids|
  {
    if ids != [] {
      var k := |ids| - 1;
      DistinctFits(ids[..k], s - {ids[k]});
    }
  }

  lemma Swapped(w: World, old_: string, new_: string, c: Container)
    requires old_ in w && new_ !in w
    ensures |(w - {old_})[new_ := c]| == |w|
  {
    assert (w - {old_}).Keys == w.Keys - {old_};
    assert (w - {old_})[new_ := c].Keys == w.Keys - {old_} + {new_};
  }
}
