/**
 The wrap-rebinder: a pool of anchors by target name, a drift check against the live
 containers, and a rate limit on recreates.
 */
module WrapRebinder {
  import opened GoBase
  import opened GoStrings
  import opened References
  import opened DockerWorld
  import opened Dependents

  /** Nanoseconds; rapidRestartWindow is one second. */
  type Time = int
  const WINDOW: Time := 1_000_000_000

  type TargetPool = map<string, seq<string>>
  datatype OrphanAnchor = OrphanAnchor(anchorID: string, storedRef: string)

  // ---- the pool --------------------------------------------------------------

  predicate Eligible(c: Container, selfProject: string, selfID: string) {
    c.id != selfID && Label(c, PROJECT) == selfProject && Ref(c.networkMode).Some?
  }

  function Add(pool: TargetPool, target: string, id: string): TargetPool {
    pool[target := (if target in pool then pool[target] else []) + [id]]
  }

  function PoolOf(cs: seq<Container>, all: seq<Container>, selfProject: string, selfID: string): TargetPool {
    if cs == [] then map[]
    else
      var c, before := cs[|cs| - 1], PoolOf(cs[..|cs| - 1], all, selfProject, selfID);
      if Eligible(c, selfProject, selfID) && ResolveTargetName(all, Ref(c.networkMode).value) != ""
      then Add(before, ResolveTargetName(all, Ref(c.networkMode).value), c.id) else before
  }

  function OrphansOf(cs: seq<Container>, all: seq<Container>, selfProject: string, selfID: string): seq<OrphanAnchor> {
    if cs == [] then []
    else
      var c, before := cs[|cs| - 1], OrphansOf(cs[..|cs| - 1], all, selfProject, selfID);
      if Eligible(c, selfProject, selfID) && ResolveTargetName(all, Ref(c.networkMode).value) == ""
      then before + [OrphanAnchor(c.id, Ref(c.networkMode).value)] else before
  }

  method BuildTargetPool(all: seq<Container>, selfProject: string, selfID: string)
    returns (pool: TargetPool, orphans: seq<OrphanAnchor>)
    ensures pool == PoolOf(all, all, selfProject, selfID)
    ensures orphans == OrphansOf(all, all, selfProject, selfID)
  {
    hide ResolveTargetName;
    pool, orphans := map[], [];
    for i := 0 to |all|
      invariant pool == PoolOf(all[..i], all, selfProject, selfID)
      invariant orphans == OrphansOf(all[..i], all, selfProject, selfID)
    {
      var c := all[i];
      assert all[..i + 1][..i] == all[..i];
      if c.id == selfID {
        continue;
      }
      if Label(c, PROJECT) != selfProject {
        continue;
      }
      var cut := CutPrefix(c.networkMode, NETMODE);
      if cut.None? {
        continue;
      }
      var ref := TrimSpace(cut.value);
      if ref == "" {
        continue;
      }
      var targetName := ResolveTargetName(all, ref);
      if targetName == "" {
        orphans := orphans + [OrphanAnchor(c.id, ref)];
        continue;
      }
      pool := Add(pool, targetName, c.id);
    }
    assert all[..|all|] == all;
  }

  /** The project that a container's label names; none without one. */
  function ProjectOf(c: Container): string {
    if "com.docker.compose.project" in c.labels then c.labels["com.docker.compose.project"] else ""
  }

  /** A sibling is another container than the own one, of the project, that joins a namespace by a reference. */
  lemma EligibleExactly(c: Container, selfProject: string, selfID: string)
    ensures Eligible(c, selfProject, selfID) <==>
            c.id != selfID && ProjectOf(c) == selfProject && "container:" <= c.networkMode &&
              TrimSpace(c.networkMode[|"container:"|..]) != ""
    ensures Eligible(c, selfProject, selfID) ==>
              Ref(c.networkMode) == Some(TrimSpace(c.networkMode[|"container:"|..]))
  {
    hide TrimSpace;
  }

  /** In the pool: exactly the siblings whose reference resolves, under the name it resolves to. */
  lemma {:induction false} PoolExactly(cs: seq<Container>, all: seq<Container>, selfProject: string, selfID: string,
                                       t: string, id: string)
    ensures var pool := PoolOf(cs, all, selfProject, selfID);
            t in pool && id in pool[t] <==>
            t != "" && exists c ::
                         && c in cs && c.id == id && c.id != selfID && ProjectOf(c) == selfProject
                         && Ref(c.networkMode).Some?
                         && ResolveTargetName(all, Ref(c.networkMode).value) == t
  {
    if cs != [] {
      forall c {
        EligibleExactly(c, selfProject, selfID);
      }
      hide ResolveTargetName, Ref, Eligible, ProjectOf;
      PoolExactly(cs[..|cs| - 1], all, selfProject, selfID, t, id);
      assert cs == cs[..|cs| - 1] + [cs[|cs| - 1]];
    }
  }

  /** An entry lists its anchors in the order of the listing: a later sibling comes behind all earlier ones. */
  lemma PoolInOrder(cs: seq<Container>, c: Container, all: seq<Container>, selfProject: string, selfID: string,
                    t: string)
    ensures var before, after := PoolOf(cs, all, selfProject, selfID), PoolOf(cs + [c], all, selfProject, selfID);
            && (t in before ==> t in after && before[t] <= after[t])
            && (t in after && t !in before ==> after[t] == [c.id])
            && (t in before && t in after ==> after[t] in [before[t], before[t] + [c.id]])
  {
    hide ResolveTargetName, Ref, Eligible;
    assert (cs + [c])[..|cs|] == cs;
  }

  lemma {:induction false} OrphansOfExactly(cs: seq<Container>, all: seq<Container>, selfProject: string,
                                            selfID: string, o: OrphanAnchor)
    ensures o in OrphansOf(cs, all, selfProject, selfID) <==>
            exists c :: c in cs && c.id == o.anchorID && c.id != selfID && ProjectOf(c) == selfProject
                        && Ref(c.networkMode) == Some(o.storedRef) && ResolveTargetName(all, o.storedRef) == ""
  {
    if cs != [] {
      forall c {
        EligibleExactly(c, selfProject, selfID);
      }
      hide ResolveTargetName, Ref, Eligible, ProjectOf;
      OrphansOfExactly(cs[..|cs| - 1], all, selfProject, selfID, o);
      assert cs == cs[..|cs| - 1] + [cs[|cs| - 1]];
    }
  }

  ghost predicate DistinctIds(cs: seq<Container>) {
    forall i, j | 0 <= i < j < |cs| :: cs[i].id != cs[j].id
  }

  lemma SameId(cs: seq<Container>, c: Container, d: Container)
    requires DistinctIds(cs) && c in cs && d in cs && c.id == d.id
    ensures c == d
  {
  }

  ghost predicate InPool(pool: TargetPool, t: string, id: string) {
    t in pool && id in pool[t]
  }

  ghost predicate InOrphans(orphans: seq<OrphanAnchor>, id: string) {
    exists o :: o in orphans && o.anchorID == id
  }

  /** Every eligible sibling is in exactly one pool entry, or else in the orphan list. */
  lemma EachSiblingOnce(all: seq<Container>, selfProject: string, selfID: string, c: Container, t: string)
    requires DistinctIds(all) && c in all && c.id != selfID && ProjectOf(c) == selfProject && Ref(c.networkMode).Some?
    ensures var pool, orphans := PoolOf(all, all, selfProject, selfID), OrphansOf(all, all, selfProject, selfID);
            var name := ResolveTargetName(all, Ref(c.networkMode).value);
            && (InPool(pool, t, c.id) <==> name == t != "")
            && (InOrphans(orphans, c.id) <==> name == "")
  {
    hide ResolveTargetName, Ref;
    var pool, orphans := PoolOf(all, all, selfProject, selfID), OrphansOf(all, all, selfProject, selfID);
    var name := ResolveTargetName(all, Ref(c.networkMode).value);
    PoolExactly(all, all, selfProject, selfID, t, c.id);
    OrphansOfExactly(all, all, selfProject, selfID, OrphanAnchor(c.id, Ref(c.networkMode).value));
    forall d | d in all && d.id == c.id ensures d == c {
      SameId(all, c, d);
    }
    if InOrphans(orphans, c.id) {
      var o :| o in orphans && o.anchorID == c.id;
      OrphansOfExactly(all, all, selfProject, selfID, o);
    }
    if name == "" {
      assert OrphanAnchor(c.id, Ref(c.networkMode).value) in orphans;
    }
  }

  /** And only once in that entry. */
  lemma {:induction false} PoolDistinct(cs: seq<Container>, all: seq<Container>, selfProject: string, selfID: string,
                                        t: string)
    requires DistinctIds(cs) && t in PoolOf(cs, all, selfProject, selfID)
    ensures Distinct(PoolOf(cs, all, selfProject, selfID)[t])
  {
    if cs != [] {
      hide ResolveTargetName, Ref, Eligible;
      var k := |cs| - 1;
      var before := PoolOf(cs[..k], all, selfProject, selfID);
      PoolExactly(cs[..k], all, selfProject, selfID, t, cs[k].id);
      if t in before {
        PoolDistinct(cs[..k], all, selfProject, selfID, t);
        NotEarlier(cs, k);
        assert cs[k].id !in before[t];
      }
    }
  }

  lemma NotEarlier(cs: seq<Container>, k: nat)
    requires DistinctIds(cs) && k < |cs|
    ensures forall c | c in cs[..k] :: c.id != cs[k].id
  {
  }

  // ---- drift -----------------------------------------------------------------------

  function FindByID(all: seq<Container>, id: string): (r: Option<Container>)
    ensures r.Some? ==> r.value in all && r.value.id == id
    ensures r.None? ==> forall c | c in all :: c.id != id
  {
    First(all, ById(id))
  }

  /** bootstrapRecheck's verdict on one anchor of one target. */
  predicate Drifts(all: seq<Container>, target: string, anchorID: string) {
    var currentID, anchor := ResolveContainerByName(all, target), FindByID(all, anchorID);
    && currentID != "" && anchor.Some? && CutPrefix(anchor.value.networkMode, NETMODE).Some?
    && var storedRef := TrimSpace(CutPrefix(anchor.value.networkMode, NETMODE).value);
       storedRef != currentID && storedRef != target
  }

  predicate IsDrift(call: Call, all: seq<Container>, pool: TargetPool) {
    call.Recreate? && exists t | t in pool ::
      call.id in pool[t] && call.networkMode == NETMODE + t && Drifts(all, t, call.id)
  }

  /** Names the way Docker allows them. */
  predicate NamesPlain(names: seq<string>) {
    forall n | n in names :: n != "" && SlashFree(Stripped(n))
  }

  ghost predicate PlainNames(all: seq<Container>) {
    forall c | c in all :: NamesPlain(c.names)
  }

  ghost predicate ShortRef(all: seq<Container>, c: Container) {
    && Ref(c.networkMode).Some? && |Ref(c.networkMode).value| < 64
    && exists d :: d in all && d.names != [] && ShortId(d, Ref(c.networkMode).value)
  }

  lemma FirstNameNamed(c: Container)
    requires c.names != [] && forall n | n in c.names :: n != ""
    ensures Named(c, FirstName(c.names)) && FirstName(c.names) == Stripped(c.names[0])
  {
    assert c.names[0] in c.names;
  }

  lemma SameDaemon(a: seq<Container>, b: seq<Container>)
    requires SameContainers(a, b) && Daemon(a)
    ensures Daemon(b)
  {
  }

  /**
   Rebuild, then recheck, on one state of the daemon (listed twice, in whatever orders):
   a pooled anchor counts as drifted exactly when its stored reference is a short ID.
   */
  lemma DriftsIffShortRef(all: seq<Container>, again: seq<Container>, c: Container)
    requires Daemon(all) && PlainNames(all) && SameContainers(all, again) && c in all
    requires Ref(c.networkMode).Some? && SlashFree(Ref(c.networkMode).value) &&
             Unambiguous(all, Ref(c.networkMode).value)
    requires ResolveTargetName(all, Ref(c.networkMode).value) != ""
    ensures Drifts(again, ResolveTargetName(all, Ref(c.networkMode).value), c.id) <==> ShortRef(all, c)
  {
    var ref := Ref(c.networkMode).value;
    var d := DenotedTarget(all, ref);
    var t := ResolveTargetName(all, ref);
    assert c in again && d in again;
    SameDaemon(all, again);
    TargetByName(all, again, ref, d);
    StoredRefOf(all, again, c);
    assert Drifts(again, t, c.id) <==> ref != d.id && ref != t by {
      hide ResolveContainerByName, ResolveTargetName, Daemon;
    }
    ShortRefMeans(all, c, d);
  }

  lemma NamedHasNames(c: Container, ref: string)
    ensures Named(c, ref) ==> c.names != []
  {
  }

  /** A reference that resolves denotes a container with a name. */
  lemma DenotedTarget(all: seq<Container>, ref: string) returns (d: Container)
    requires Daemon(all) && SlashFree(ref) && Unambiguous(all, ref) && ResolveTargetName(all, ref) != "" &&
             PlainNames(all)
    ensures d in all && Denotes(d, ref) && d.names != []
    ensures ResolveTargetName(all, ref) == if Named(d, ref) then ref else FirstName(d.names)
  {
    if forall x | x in all :: !Denotes(x, ref) {
      ResolversMiss(all, ref);
    }
    d :| d in all && Denotes(d, ref);
    ResolversFind(all, ref, d);
    NamedHasNames(d, ref);
  }

  /** Its pool name leads back to it. */
  lemma TargetByName(all: seq<Container>, again: seq<Container>, ref: string, d: Container)
    requires Daemon(again) && PlainNames(all) && SlashFree(ref) && d in all && d in again && Denotes(d, ref) &&
             d.names != []
    ensures ResolveContainerByName(again, if Named(d, ref) then ref else FirstName(d.names)) == d.id
    ensures FirstName(d.names) != d.id && !ShortId(d, FirstName(d.names))
  {
    assert NamesPlain(d.names) && d.names[0] in d.names;
    FirstNameNamed(d);
    NameLeadsBack(again, FirstName(d.names), d);
    if Named(d, ref) {
      NameLeadsBack(again, ref, d);
    }
  }

  lemma NameLeadsBack(all: seq<Container>, name: string, d: Container)
    requires Daemon(all) && d in all && Named(d, name) && SlashFree(name)
    ensures ResolveContainerByName(all, name) == d.id && d.id != name && !ShortId(d, name)
  {
    NameUnambiguous(all, name, d);
    hide *;
    NamedDenotes(d, name);
    ResolversFind(all, name, d);
  }

  lemma NameUnambiguous(all: seq<Container>, name: string, d: Container)
    requires Daemon(all) && d in all && Named(d, name)
    ensures Unambiguous(all, name) && d.id != name && !ShortId(d, name)
  {
  }

  lemma NamedDenotes(d: Container, name: string)
    requires Named(d, name)
    ensures Denotes(d, name)
  {
  }

  lemma StoredRefOf(all: seq<Container>, again: seq<Container>, c: Container)
    requires Daemon(again) && c in again && Ref(c.networkMode).Some?
    ensures FindByID(again, c.id) == Some(c)
    ensures CutPrefix(c.networkMode, NETMODE).Some? &&
            TrimSpace(CutPrefix(c.networkMode, NETMODE).value) == Ref(c.networkMode).value
  {
  }

  /** Which of the three kinds of reference leaves a trace of drift. */
  lemma ShortRefMeans(all: seq<Container>, c: Container, d: Container)
    requires Daemon(all) && d in all && d.names != [] && Ref(c.networkMode).Some? &&
             Denotes(d, Ref(c.networkMode).value)
    requires Unambiguous(all, Ref(c.networkMode).value) && FirstName(d.names) != d.id && !ShortId(d, FirstName(d.names))
    ensures var ref := Ref(c.networkMode).value;
            ShortRef(all, c) <==> ref != d.id && ref != if Named(d, ref) then ref else FirstName(d.names)
  {
    var ref := Ref(c.networkMode).value;
    if ShortRef(all, c) {
      var x :| x in all && x.names != [] && ShortId(x, ref);
      assert Denotes(x, ref);
      assert x == d;
    } else if ShortId(d, ref) {
      assert d.id == ref;
    }
  }

  // ---- the watcher -----------------------------------------------------------------------

  datatype Recreation = Recreation(target: string, anchor: string, at: Time)

  function DedupKey(target: string, anchorID: string): string {
    "target:" + target + "|anchor:" + anchorID
  }

  /** Container names hold no '|', so the key tells the pairs apart. */
  lemma DedupKeyInjective(t: string, a: string, u: string, b: string)
    requires '|' !in t && '|' !in u
    ensures DedupKey(t, a) == DedupKey(u, b) <==> t == u && a == b
  {
    KeyShape(t, a);
    KeyShape(u, b);
    CutPrefixOf("anchor:", a);
    CutPrefixOf("anchor:", b);
    CutPrefixOf("target:", t);
    CutPrefixOf("target:", u);
  }

  lemma KeyShape(t: string, a: string)
    requires '|' !in t
    ensures Cut(DedupKey(t, a), '|') == Some(("target:" + t, "anchor:" + a))
  {
    assert DedupKey(t, a) == ("target:" + t) + ['|'] + ("anchor:" + a);
    CutAt("target:" + t, '|', "anchor:" + a);
  }

  function KeyOf(r: Recreation): string {
    DedupKey(r.target, r.anchor)
  }

  /** The table entry for `k` is the stamp of a recreate that went out. */
  ghost predicate Stamped(log: seq<Recreation>, k: string, at: Time) {
    exists r :: r in log && KeyOf(r) == k && r.at == at
  }

  /** Recreates of one pair keep their distance, and the table remembers the latest. */
  ghost predicate Spaced(log: seq<Recreation>, last: map<string, Time>, now: Time) {
    && (forall k | k in last :: last[k] <= now && Stamped(log, k, last[k]))
    && (forall i | 0 <= i < |log| :: KeyOf(log[i]) in last && log[i].at <= last[KeyOf(log[i])])
    && forall i, j | 0 <= i < j < |log| && KeyOf(log[i]) == KeyOf(log[j]) :: log[j].at - log[i].at >= WINDOW
  }

  lemma SpacedStep(log: seq<Recreation>, last: map<string, Time>, now: Time, checked: Time, r: Recreation)
    requires Spaced(log, last, now) && now <= checked <= r.at
    requires KeyOf(r) in last ==> checked - last[KeyOf(r)] >= WINDOW
    ensures Spaced(log + [r], last[KeyOf(r) := r.at], r.at)
  {
    hide DedupKey, KeyOf;
    assert r in log + [r];
    forall k | k in last ensures Stamped(log + [r], k, last[k]) {
      var x :| x in log && KeyOf(x) == k && x.at == last[k];
      assert x in log + [r];
    }
  }

  lemma SpacedLater(log: seq<Recreation>, last: map<string, Time>, now: Time, later: Time)
    requires Spaced(log, last, now) && now <= later
    ensures Spaced(log, last, later)
  {
  }

  /** `k` was recreated less than a window before `since`, or after it. */
  ghost predicate Recent(log: seq<Recreation>, k: string, since: Time) {
    exists r :: r in log && KeyOf(r) == k && since - r.at < WINDOW
  }

  ghost predicate PlainTargets(log: seq<Recreation>) {
    forall r | r in log :: '|' !in r.target
  }

  /**
   What the limiter compares: it holds back a recreate exactly when the same anchor ID
   was recreated for the same target less than a window before.
   */
  lemma SuppressedExactly(log: seq<Recreation>, last: map<string, Time>, now: Time, target: string, anchor: string)
    requires Spaced(log, last, now) && PlainTargets(log) && '|' !in target
    ensures var k := DedupKey(target, anchor);
            k in last && now - last[k] < WINDOW <==>
            exists r :: r in log && r.target == target && r.anchor == anchor && now - r.at < 1_000_000_000
  {
    var k := DedupKey(target, anchor);
    forall r | r in log
      ensures KeyOf(r) == k <==> r.target == target && r.anchor == anchor
    {
      DedupKeyInjective(r.target, r.anchor, target, anchor);
    }
    hide DedupKey, KeyOf;
    if r :| r in log && r.target == target && r.anchor == anchor && now - r.at < WINDOW {
      var i :| 0 <= i < |log| && log[i] == r;
      assert KeyOf(log[i]) in last && log[i].at <= last[KeyOf(log[i])];
    }
  }

  /**
   A successful recreate gives the anchor a new ID, so the limiter knows nothing of it:
   the anchor of a target in a crash loop is recreated at every start.
   */
  lemma NewAnchorUnthrottled(w: World, anchor: string, newId: string, target: string,
                             log: seq<Recreation>, last: map<string, Time>, now: Time)
    requires anchor in w && newId !in w && Spaced(log, last, now) && PlainTargets(log) && '|' !in target
    requires forall r | r in log :: r.anchor != newId
    ensures var w' := Recreated(w, anchor, Succeeds, newId, NETMODE + target);
            anchor !in w' && newId in w' && w'[newId].networkMode == NETMODE + target
    ensures DedupKey(target, newId) !in last
  {
    if DedupKey(target, newId) in last {
      var r :| r in log && KeyOf(r) == DedupKey(target, newId);
      DedupKeyInjective(r.target, r.anchor, target, newId);
      assert false;
    }
  }

  lemma SuppressedIsRecent(log: seq<Recreation>, last: map<string, Time>, now: Time, since: Time, target: string,
                           anchor: string)
    requires Spaced(log, last, now) && since <= now
    ensures var k := DedupKey(target, anchor); k in last && now - last[k] < WINDOW ==> Recent(log, k, since)
  {
    hide DedupKey, KeyOf;
    var k := DedupKey(target, anchor);
    if k in last && now - last[k] < WINDOW {
      var r :| r in log && KeyOf(r) == k && r.at == last[k];
    }
  }

  lemma StampIsRecent(log: seq<Recreation>, r: Recreation, since: Time)
    requires since <= r.at
    ensures Recent(log + [r], KeyOf(r), since)
  {
    assert r in log + [r];
  }

  lemma RecentStays(before: seq<Recreation>, after: seq<Recreation>, k: string, since: Time)
    requires before <= after && Recent(before, k, since)
    ensures Recent(after, k, since)
  {
    var r :| r in before && KeyOf(r) == k && since - r.at < WINDOW;
    assert r in after;
  }

  ghost predicate OnlyRecreatesOf(before: seq<Call>, after: seq<Call>, target: string, anchors: seq<string>) {
    && |before| <= |after| && after[..|before|] == before
    && forall i | |before| <= i < |after| ::
      after[i].Recreate? && after[i].id in anchors && after[i].networkMode == NETMODE + target
  }

  /** The first `i` anchors have been dealt with. */
  ghost predicate Handled(calls0: seq<Call>, calls: seq<Call>, log: seq<Recreation>, target: string,
                          anchors: seq<string>, i: nat, since: Time) {
    && i <= |anchors| && OnlyRecreatesOf(calls0, calls, target, anchors)
    && forall j | 0 <= j < i :: Recent(log, DedupKey(target, anchors[j]), since)
  }

  lemma HandledNone(calls: seq<Call>, log: seq<Recreation>, target: string, anchors: seq<string>, since: Time)
    ensures Handled(calls, calls, log, target, anchors, 0, since)
  {
  }

  lemma HandledAll(calls0: seq<Call>, calls: seq<Call>, log: seq<Recreation>, target: string, anchors: seq<string>,
                   since: Time)
    requires Handled(calls0, calls, log, target, anchors, |anchors|, since)
    ensures OnlyRecreatesOf(calls0, calls, target, anchors)
    ensures forall a | a in anchors :: Recent(log, DedupKey(target, a), since)
  {
  }

  lemma HandledMore(calls0: seq<Call>, calls: seq<Call>, calls': seq<Call>, log: seq<Recreation>,
                    log': seq<Recreation>, last: map<string, Time>,
                    now: Time, stamp: Time, target: string, anchors: seq<string>, i: nat, since: Time)
    requires Handled(calls0, calls, log, target, anchors, i, since) && i < |anchors|
    requires Spaced(log, last, now) && since <= now <= stamp
    requires var key := DedupKey(target, anchors[i]);
             if key in last && now - last[key] < WINDOW then calls' == calls && log' == log
             else && calls' == calls + [Recreate(anchors[i], NETMODE + target)]
                  && log' == log + [Recreation(target, anchors[i], stamp)]
    ensures Handled(calls0, calls', log', target, anchors, i + 1, since)
  {
    var key := DedupKey(target, anchors[i]);
    if key in last && now - last[key] < WINDOW {
      SuppressedIsRecent(log, last, now, since, target, anchors[i]);
    } else {
      assert calls'[..|calls0|] == calls[..|calls0|];
      StampIsRecent(log, Recreation(target, anchors[i], stamp), since);
    }
    hide Spaced, DedupKey, Recent;
    forall j | 0 <= j <= i
      ensures Recent(log', DedupKey(target, anchors[j]), since)
    {
      if j < i {
        RecentStays(log, log', DedupKey(target, anchors[j]), since);
      }
    }
  }

  /** The world after the recreates among the calls from number `n` on. */
  function Replayed(w: World, calls: seq<Call>, n: nat, outcome: nat -> Outcome, ids: nat -> string): World {
    if |calls| <= n then w
    else
      var k := |calls| - 1;
      var before := Replayed(w, calls[..k], n, outcome, ids);
      if calls[k].Recreate? then Recreated(before, calls[k].id, outcome(k), ids(k), calls[k].networkMode) else before
  }

  lemma ReplayedMore(w: World, calls: seq<Call>, n: nat, outcome: nat -> Outcome, ids: nat -> string, id: string,
                     mode: string)
    requires n <= |calls|
    ensures Replayed(w, calls, |calls|, outcome, ids) == w
    ensures Replayed(w, calls + [Recreate(id, mode)], n, outcome, ids) ==
            Recreated(Replayed(w, calls, n, outcome, ids), id, outcome(|calls|), ids(|calls|), mode)
  {
    assert (calls + [Recreate(id, mode)])[..|calls|] == calls;
  }

  class Watcher {
    const ops: Docker
    const selfProject: string
    const selfID: string
    /** The n-th reading of the clock. */
    const clock: nat -> Time
    var pool: TargetPool
    var lastRestartedAt: map<string, Time>
    var readings: nat
    /** Every recreate that went out, with the time it was stamped. */
    ghost var log: seq<Recreation>

    constructor (ops: Docker, selfProject: string, selfID: string, clock: nat -> Time)
      requires ops.Valid() && forall m: nat, n: nat | m <= n :: clock(m) <= clock(n)
      ensures Valid() && this.ops == ops && pool == map[] && log == []
    {
      this.ops, this.selfProject, this.selfID, this.clock := ops, selfProject, selfID, clock;
      pool, lastRestartedAt, readings, log := map[], map[], 0, [];
    }

    /** The containers are what the calls from number `n` on have made of `w`. */
    ghost predicate Follows(w: World, n: nat)
      reads ops
    {
      n <= |ops.calls| && ops.containers == Replayed(w, ops.calls, n, ops.outcome, ops.ids)
    }

    lemma FollowsNow()
      ensures Follows(ops.containers, |ops.calls|)
    {
    }

    ghost predicate Valid()
      reads this, ops
    {
      && ops.Valid() && (forall m: nat, n: nat | m <= n :: clock(m) <= clock(n))
      && Spaced(log, lastRestartedAt, clock(readings))
    }

    /** recreateAnchor: one clock reading for the check, a second one for the stamp. */
    method RecreateAnchor(anchorID: string, targetName: string)
      requires Valid()
      modifies this`lastRestartedAt, this`readings, this`log, ops`containers, ops`calls
      ensures Valid() && readings == old(readings) + 1
      ensures var key := DedupKey(targetName, anchorID);
              var suppressed := key in old(lastRestartedAt) &&
                clock(old(readings)) - old(lastRestartedAt)[key] < WINDOW;
              if suppressed then ops.calls == old(ops.calls) && ops.containers == old(ops.containers) && log == old(log)
              else ops.calls == old(ops.calls) + [Recreate(anchorID, NETMODE + targetName)]
                   && ops.containers == Recreated(old(ops.containers), anchorID, ops.outcome(|old(ops.calls)|),
                                                  ops.ids(|old(ops.calls)|), NETMODE + targetName)
                   && log == old(log) + [Recreation(targetName, anchorID, clock(old(readings) + 1))]
      ensures forall w, n | old(Follows(w, n)) :: Follows(w, n)
    {
      forall w, n | Follows(w, n) ensures
        Replayed(w, ops.calls + [Recreate(anchorID, NETMODE + targetName)], n, ops.outcome, ops.ids) ==
        Recreated(ops.containers, anchorID, ops.outcome(|ops.calls|), ops.ids(|ops.calls|), NETMODE + targetName)
      {
        ReplayedMore(w, ops.calls, n, ops.outcome, ops.ids, anchorID, NETMODE + targetName);
      }
      hide Recreated, Replayed;
      var dedupKey := DedupKey(targetName, anchorID);
      hide DedupKey, Spaced, Docker.Valid;
      var now := clock(readings);
      if dedupKey in lastRestartedAt && now - lastRestartedAt[dedupKey] < WINDOW {
        SpacedLater(log, lastRestartedAt, now, clock(readings + 1));
        readings := readings + 1;
        return;
      }
      var stamp := clock(readings + 1);
      SpacedStep(log, lastRestartedAt, now, now, Recreation(targetName, anchorID, stamp));
      lastRestartedAt := lastRestartedAt[dedupKey := stamp];
      readings := readings + 1;
      log := log + [Recreation(targetName, anchorID, stamp)];
      var _ := ops.RecreateWithNetworkMode(anchorID, NETMODE + targetName);
    }

    /** enumerateTargetPool. */
    method EnumerateTargetPool(listOk: bool) returns (ghost all: seq<Container>)
      requires Valid()
      modifies this`pool
      ensures Valid()
      ensures !listOk ==> pool == old(pool)
      ensures listOk ==> Lists(all, ops.containers) && pool == PoolOf(all, all, selfProject, selfID)
    {
      hide Spaced, Docker.Valid, Lists;
      all := [];
      assert ops.Valid();
      var listed := ops.List(listOk);
      if listed.None? {
        return;
      }
      all := listed.value;
      var built, orphans := BuildTargetPool(listed.value, selfProject, selfID);
      pool := built;
    }

    /** bootstrapRecheck: drifted anchors are recreated, as far as the rate limit allows, and no others. */
    method BootstrapRecheck(listOk: bool) returns (ghost all: seq<Container>)
      requires Valid()
      modifies this`lastRestartedAt, this`readings, this`log, ops`containers, ops`calls
      ensures Valid()
      ensures listOk && pool != map[] ==> Lists(all, old(ops.containers))
      ensures !(listOk && pool != map[]) ==> ops.calls == old(ops.calls)
      ensures OnlyDrifts(old(ops.calls), ops.calls, all, pool) && Follows(old(ops.containers), |old(ops.calls)|)
      ensures listOk ==> forall t | t in pool :: Rechecked(log, all, t, pool[t], clock(old(readings)))
    {
      hide *;
      all := [];
      FollowsNow();
      ghost var w0, n0 := ops.containers, |ops.calls|;
      DriftsNone(ops.calls, all, pool);
      if |pool| == 0 {
        return;
      }
      ValidMeans();
      var listed := ops.List(listOk);
      if listed.None? {
        return;
      }
      all := listed.value;
      ghost var before, since := ops.calls, clock(readings);
      DriftsNone(before, all, pool);
      var targets := RangeOrder(pool);
      for i := 0 to |targets|
        invariant Valid() && OnlyDrifts(before, ops.calls, all, pool) && since <= clock(readings) && Follows(w0, n0)
        invariant forall t | t in targets[..i] :: t in pool && Rechecked(log, all, t, pool[t], since)
      {
        RangedIn(targets, pool, i);
        assert targets[..i + 1] == targets[..i] + [targets[i]];
        ghost var recreated := log;
        RecheckTarget(targets[i], listed.value, before, since);
        forall t | t in targets[..i] ensures Rechecked(log, all, t, pool[t], since) {
          RecheckedStays(recreated, log, all, t, pool[t], since);
        }
      }
      assert targets[..|targets|] == targets;
      RangedAll(targets, pool);
    }

    /** One pool entry against the live target. */
    method RecheckTarget(targetName: string, all: seq<Container>, ghost before: seq<Call>, ghost since: Time)
      requires Valid() && targetName in pool && OnlyDrifts(before, ops.calls, all, pool) && since <= clock(readings)
      modifies this`lastRestartedAt, this`readings, this`log, ops`containers, ops`calls
      ensures Valid() && OnlyDrifts(before, ops.calls, all, pool) && old(log) <= log && since <= clock(readings)
      ensures Rechecked(log, all, targetName, pool[targetName], since)
      ensures forall w, n | old(Follows(w, n)) :: Follows(w, n)
    {
      hide *;
      var currentID := ResolveContainerByName(all, targetName);
      var anchors := pool[targetName];
      if currentID == "" {
        AbsentDriftsNot(log, all, targetName, anchors, since);
        return;
      }
      RecheckedNone(log, all, targetName, anchors[..0], since);
      for j := 0 to |anchors|
        invariant Valid() && OnlyDrifts(before, ops.calls, all, pool) && old(log) <= log && since <= clock(readings)
        invariant Rechecked(log, all, targetName, anchors[..j], since)
        invariant forall w, n | old(Follows(w, n)) :: Follows(w, n)
      {
        var anchorID := anchors[j];
        assert anchors[..j + 1] == anchors[..j] + [anchorID];
        DriftsMeans(all, targetName, anchorID);
        RecheckedMore(log, all, targetName, anchors[..j], anchorID, since);
        var anchor := FindByID(all, anchorID);
        if anchor.None? {
          continue;
        }
        var cut := CutPrefix(anchor.value.networkMode, NETMODE);
        if cut.None? {
          continue;
        }
        var storedRef := TrimSpace(cut.value);
        if storedRef == currentID || storedRef == targetName {
          continue;
        }
        DriftsMore(before, ops.calls, all, pool, targetName, anchorID);
        ghost var recreated, last, r := log, lastRestartedAt, readings;
        ClockSpaced();
        RecreateAnchor(anchorID, targetName);
        ClockSpaced();
        RecreatedIsRecent(recreated, log, last, clock(r), clock(r + 1), targetName, anchorID, since);
        RecheckedStays(recreated, log, all, targetName, anchors[..j], since);
        RecheckedMore(log, all, targetName, anchors[..j], anchorID, since);
      }
      assert anchors[..|anchors|] == anchors;
    }

    lemma ValidMeans()
      requires Valid()
      ensures ops.Valid()
    {
    }

    /** enumerateAndRecheck. `second` is what the recheck was told. */
    method EnumerateAndRecheck(listOk: bool, listOkAgain: bool)
      returns (ghost all: seq<Container>, ghost again: seq<Container>)
      requires Valid()
      modifies this`pool, this`lastRestartedAt, this`readings, this`log, ops`containers, ops`calls
      ensures Valid()
      ensures listOk ==> Lists(all, old(ops.containers)) && pool == PoolOf(all, all, selfProject, selfID)
      ensures listOkAgain && pool != map[] ==> Lists(again, old(ops.containers))
      ensures !(listOkAgain && pool != map[]) ==> ops.calls == old(ops.calls)
      ensures OnlyDrifts(old(ops.calls), ops.calls, again, pool) && Follows(old(ops.containers), |old(ops.calls)|)
      ensures listOkAgain ==> forall t | t in pool :: Rechecked(log, again, t, pool[t], clock(old(readings)))
    {
      hide *;
      all := EnumerateTargetPool(listOk);
      again := BootstrapRecheck(listOkAgain);
    }

    /** handleStart: the anchors of a target that started are recreated; a sibling's start refreshes the pool. */
    method HandleStart(name: string, project: string, listOk: bool) returns (ghost all: seq<Container>)
      requires Valid()
      modifies this`pool, this`lastRestartedAt, this`readings, this`log, ops`containers, ops`calls
      ensures Valid()
      ensures name !in old(pool) ==> ops.calls == old(ops.calls) && ops.containers == old(ops.containers)
      ensures name in old(pool) ==> OnlyRecreatesOf(old(ops.calls), ops.calls, name, old(pool)[name])
      ensures Follows(old(ops.containers), |old(ops.calls)|)
      ensures name in old(pool) ==> forall a | a in old(pool)[name] ::
              Recent(log, DedupKey(name, a), clock(old(readings)))
      ensures if project == selfProject && listOk
              then Lists(all, ops.containers) && pool == PoolOf(all, all, selfProject, selfID)
              else pool == old(pool)
    {
      hide *;
      all := [];
      FollowsNow();
      if name in pool {
        RecreateAnchors(name);
      }
      if project == selfProject {
        all := EnumerateTargetPool(listOk);
      }
    }

    /** Every anchor of a target that started: recreated now, unless that happened within the window. */
    method RecreateAnchors(name: string)
      requires Valid() && name in pool
      modifies this`lastRestartedAt, this`readings, this`log, ops`containers, ops`calls
      ensures Valid()
      ensures OnlyRecreatesOf(old(ops.calls), ops.calls, name, pool[name])
      ensures forall a | a in pool[name] :: Recent(log, DedupKey(name, a), clock(old(readings)))
      ensures Follows(old(ops.containers), |old(ops.calls)|)
    {
      hide *;
      var anchors := pool[name];
      ghost var calls0, since := ops.calls, clock(readings);
      FollowsNow();
      HandledNone(calls0, log, name, anchors, since);
      for i := 0 to |anchors|
        invariant Valid() && since <= clock(readings) && Follows(old(ops.containers), |calls0|)
        invariant Handled(calls0, ops.calls, log, name, anchors, i, since)
      {
        ghost var calls, recreated, last, r := ops.calls, log, lastRestartedAt, readings;
        ClockSpaced();
        RecreateAnchor(anchors[i], name);
        ClockSpaced();
        HandledMore(calls0, calls, ops.calls, recreated, log, last, clock(r), clock(r + 1), name, anchors, i, since);
      }
      HandledAll(calls0, ops.calls, log, name, anchors, since);
    }

    lemma ClockSpaced()
      requires Valid()
      ensures Spaced(log, lastRestartedAt, clock(readings))
      ensures forall m: nat, n: nat | m <= n :: clock(m) <= clock(n)
    {
    }
  }

  ghost predicate OnlyDrifts(before: seq<Call>, after: seq<Call>, all: seq<Container>, pool: TargetPool) {
    |before| <= |after| && after[..|before|] == before && forall i | |before| <= i < |after| ::
      IsDrift(after[i], all, pool)
  }

  lemma DriftsNone(calls: seq<Call>, all: seq<Container>, pool: TargetPool)
    ensures OnlyDrifts(calls, calls, all, pool)
  {
  }

  /**
   An anchor whose target is there under that name drifts exactly when its reference is neither
   the target's ID nor that name; one that is gone itself, or whose target is, does not.
   */
  lemma DriftsExactly(all: seq<Container>, target: string, anchor: Container)
    requires Daemon(all) && SlashFree(target) && anchor in all
    ensures forall d | d in all && Named(d, target) ::
              Drifts(all, target, anchor.id) <==>
              "container:" <= anchor.networkMode && TrimSpace(anchor.networkMode[|"container:"|..]) !in {d.id, target}
    ensures (forall d | d in all :: !Denotes(d, target)) ==> !Drifts(all, target, anchor.id)
    ensures forall id | (forall c | c in all :: c.id != id) :: !Drifts(all, target, id)
  {
    assert FindByID(all, anchor.id) == Some(anchor);
    forall d | d in all && Named(d, target)
      ensures ResolveContainerByName(all, target) == d.id
    {
      NameLeadsBack(all, target, d);
    }
    if forall d | d in all :: !Denotes(d, target) {
      ResolversMiss(all, target);
    }
    hide TrimSpace, ResolveContainerByName, Denotes, Daemon, Named, SlashFree;
  }

  /** The source's chain of early continues, as one condition. */
  lemma DriftsMeans(all: seq<Container>, target: string, anchorID: string)
    ensures var currentID, anchor := ResolveContainerByName(all, target), FindByID(all, anchorID);
            Drifts(all, target, anchorID) <==>
            && currentID != "" && anchor.Some? && CutPrefix(anchor.value.networkMode, NETMODE).Some?
            && TrimSpace(CutPrefix(anchor.value.networkMode, NETMODE).value) !in {currentID, target}
  {
  }

  /** Every drifted anchor of the target has been recreated, now or within the window before. */
  ghost predicate Rechecked(log: seq<Recreation>, all: seq<Container>, target: string, anchors: seq<string>,
                            since: Time) {
    forall a | a in anchors && Drifts(all, target, a) :: Recent(log, DedupKey(target, a), since)
  }

  lemma RecheckedNone(log: seq<Recreation>, all: seq<Container>, target: string, anchors: seq<string>, since: Time)
    requires anchors == []
    ensures Rechecked(log, all, target, anchors, since)
  {
  }

  lemma AbsentDriftsNot(log: seq<Recreation>, all: seq<Container>, target: string, anchors: seq<string>, since: Time)
    requires ResolveContainerByName(all, target) == ""
    ensures Rechecked(log, all, target, anchors, since)
  {
  }

  lemma RecheckedMore(log: seq<Recreation>, all: seq<Container>, target: string, anchors: seq<string>, anchor: string,
                      since: Time)
    requires Rechecked(log, all, target, anchors, since)
    ensures !Drifts(all, target, anchor) || Recent(log, DedupKey(target, anchor), since) ==>
              Rechecked(log, all, target, anchors + [anchor], since)
  {
    hide Drifts, Recent;
  }

  lemma RecheckedStays(before: seq<Recreation>, after: seq<Recreation>, all: seq<Container>, target: string,
                       anchors: seq<string>, since: Time)
    requires before <= after && Rechecked(before, all, target, anchors, since)
    ensures Rechecked(after, all, target, anchors, since)
  {
    hide Drifts, Recent;
    forall a | a in anchors && Drifts(all, target, a)
      ensures Recent(after, DedupKey(target, a), since)
    {
      RecentStays(before, after, DedupKey(target, a), since);
    }
  }

  /** Suppressed or stamped: either way there is a recent recreate. */
  lemma RecreatedIsRecent(before: seq<Recreation>, after: seq<Recreation>, last: map<string, Time>, now: Time,
                          stamp: Time,
                          target: string, anchor: string, since: Time)
    requires Spaced(before, last, now) && since <= now <= stamp
    requires var key := DedupKey(target, anchor);
             if key in last && now - last[key] < WINDOW
               then after == before else after == before + [Recreation(target, anchor, stamp)]
    ensures Recent(after, DedupKey(target, anchor), since)
  {
    var key := DedupKey(target, anchor);
    if key in last && now - last[key] < WINDOW {
      SuppressedIsRecent(before, last, now, since, target, anchor);
    } else {
      StampIsRecent(before, Recreation(target, anchor, stamp), since);
    }
  }

  lemma DriftsMore(before: seq<Call>, calls: seq<Call>, all: seq<Container>, pool: TargetPool, target: string,
                   anchorID: string)
    requires OnlyDrifts(before, calls, all, pool) && target in pool && anchorID in pool[target] &&
             Drifts(all, target, anchorID)
    ensures OnlyDrifts(before, calls + [Recreate(anchorID, NETMODE + target)], all, pool)
  {
    hide Drifts;
    var call := Recreate(anchorID, NETMODE + target);
    assert IsDrift(call, all, pool);
    assert (calls + [call])[..|before|] == calls[..|before|];
  }

  lemma RangedAll(order: seq<string>, pool: TargetPool)
    requires Enumerates(order, pool)
    ensures forall t | t in pool :: t in order
  {
  }

  lemma RangedIn(order: seq<string>, pool: TargetPool, i: nat)
    requires Enumerates(order, pool) && i < |order|
    ensures order[i] in pool
  {
  }

  /** No sibling stores a short ID. */
  ghost predicate NoShortRefs(all: seq<Container>, selfProject: string, selfID: string) {
    forall c | c in all && Eligible(c, selfProject, selfID) :: !ShortRef(all, c)
  }

  ghost predicate RefsPlain(all: seq<Container>, selfProject: string, selfID: string) {
    forall c | c in all && Eligible(c, selfProject, selfID) ::
      SlashFree(Ref(c.networkMode).value) && Unambiguous(all, Ref(c.networkMode).value)
  }

  /** On a quiet host whose siblings store full IDs or names, a poll recreates nothing. */
  lemma QuietHostNoChurn(all: seq<Container>, again: seq<Container>, selfProject: string, selfID: string, call: Call)
    requires Daemon(all) && PlainNames(all) && SameContainers(all, again) && RefsPlain(all, selfProject, selfID)
    requires NoShortRefs(all, selfProject, selfID)
    ensures !IsDrift(call, again, PoolOf(all, all, selfProject, selfID))
  {
    var pool := PoolOf(all, all, selfProject, selfID);
    if IsDrift(call, again, pool) {
      var t :| t in pool && call.id in pool[t] && call.networkMode == NETMODE + t && Drifts(again, t, call.id);
      hide ResolveTargetName, Drifts, Ref, Daemon, ShortRef;
      PoolExactly(all, all, selfProject, selfID, t, call.id);
      var c :| c in all && c.id == call.id && Eligible(c, selfProject, selfID) &&
        ResolveTargetName(all, Ref(c.networkMode).value) == t;
      assert !ShortRef(all, c);
      DriftsIffShortRef(all, again, c);
    }
  }

  /** A pooled sibling that stores a short ID is taken for drifted, although its target has not changed. */
  lemma ShortRefChurns(all: seq<Container>, again: seq<Container>, selfProject: string, selfID: string, c: Container)
    requires Daemon(all) && PlainNames(all) && SameContainers(all, again) && RefsPlain(all, selfProject, selfID)
    requires c in all && Eligible(c, selfProject, selfID) && ShortRef(all, c)
    requires ResolveTargetName(all, Ref(c.networkMode).value) != ""
    ensures IsDrift(Recreate(c.id, NETMODE + ResolveTargetName(all, Ref(c.networkMode).value)), again,
                    PoolOf(all, all, selfProject, selfID))
  {
    var t := ResolveTargetName(all, Ref(c.networkMode).value);
    DriftsIffShortRef(all, again, c);
    PoolExactly(all, all, selfProject, selfID, t, c.id);
  }

  // ---- the poll after a successful one ------------------------------------------------------

  /** One poll's view of the daemon: two listings of one world, whose references are plain. */
  ghost predicate GoodPoll(w: World, all: seq<Container>, again: seq<Container>, selfProject: string, selfID: string) {
    && Keyed(w) && Lists(all, w) && Lists(again, w)
    && Daemon(all) && PlainNames(all) && RefsPlain(all, selfProject, selfID)
  }

  /** The calls recreate each drifted anchor of the pool: none was suppressed. */
  ghost predicate AllTreated(calls: seq<Call>, n: nat, again: seq<Container>, pool: TargetPool) {
    forall t, a | t in pool && a in pool[t] && Drifts(again, t, a) ::
      exists i :: n <= i < |calls| && calls[i] == Recreate(a, NETMODE + t)
  }

  /** The calls are recreates of containers of `w`, and the IDs they give out are new. */
  ghost predicate Recreates(w: World, calls: seq<Call>, n: nat, ids: nat -> string) {
    && n <= |calls| && FreshFor(w, ids, n, |calls| - n)
    && forall i | n <= i < |calls| :: calls[i].Recreate? && calls[i].id in w
  }

  lemma RecreatesInit(w: World, calls: seq<Call>, n: nat, ids: nat -> string)
    requires Recreates(w, calls, n, ids) && n < |calls|
    ensures Recreates(w, calls[..|calls| - 1], n, ids)
  {
  }

  /** `m` recreated `id` as `x`. */
  ghost predicate RecreatedBy(w: World, w2: World, calls: seq<Call>, n: nat, ids: nat -> string, x: string, m: nat) {
    && n <= m < |calls| && x == ids(m) && calls[m].Recreate? && calls[m].id in w && x in w2
    && w2[x] == w[calls[m].id].(id := x, networkMode := calls[m].networkMode, state := "running")
  }

  /** Who is there afterwards: a container that no call names, as it was, or one recreated by a call. */
  lemma {:induction false} ReplayedOrigin(w: World, calls: seq<Call>, n: nat, outcome: nat -> Outcome,
                                          ids: nat -> string, x: string)
    requires Recreates(w, calls, n, ids) && forall k: nat :: outcome(k).Succeeds?
    ensures var w2 := Replayed(w, calls, n, outcome, ids);
            && (x in w ==> (x in w2 <==> forall i | n <= i < |calls| :: calls[i].id != x))
            && (x in w && x in w2 ==> w2[x] == w[x])
            && (x !in w && x in w2 ==> exists m :: RecreatedBy(w, w2, calls, n, ids, x, m))
    decreases |calls|
  {
    if n < |calls| {
      var k := |calls| - 1;
      var init := calls[..k];
      RecreatesInit(w, calls, n, ids);
      ReplayedOrigin(w, init, n, outcome, ids, x);
      ReplayedOrigin(w, init, n, outcome, ids, calls[k].id);
      var before := Replayed(w, init, n, outcome, ids);
      assert Replayed(w, calls, n, outcome, ids) ==
        Recreated(before, calls[k].id, Succeeds, ids(k), calls[k].networkMode) by {
        assert outcome(k).Succeeds?;
      }
      assert ids(k) !in w && calls[k].id in w;
      hide Replayed, Recreates;
      OneMoreOrigin(w, before, init, calls, n, ids, x);
    }
  }

  /** The last of the calls: it takes one container away and brings one. */
  lemma OneMoreOrigin(w: World, before: World, init: seq<Call>, calls: seq<Call>, n: nat, ids: nat -> string, x: string)
    requires calls != [] && init == calls[..|calls| - 1]
    requires n < |calls| && forall i | n <= i < |calls| :: calls[i].Recreate?
    requires calls[|calls| - 1].id in w && ids(|calls| - 1) !in w
    requires var id := calls[|calls| - 1].id; id in before ==> before[id] == w[id]
    requires x in w ==> (x in before <==> forall i | n <= i < |init| :: init[i].id != x)
    requires x in w && x in before ==> before[x] == w[x]
    requires x !in w && x in before ==> exists m :: RecreatedBy(w, before, init, n, ids, x, m)
    ensures var k := |calls| - 1;
            var w2 := Recreated(before, calls[k].id, Succeeds, ids(k), calls[k].networkMode);
            && (x in w ==> (x in w2 <==> forall i | n <= i < |calls| :: calls[i].id != x))
            && (x in w && x in w2 ==> w2[x] == w[x])
            && (x !in w && x in w2 ==> exists m :: RecreatedBy(w, w2, calls, n, ids, x, m))
  {
    var k := |calls| - 1;
    var w2 := Recreated(before, calls[k].id, Succeeds, ids(k), calls[k].networkMode);
    if x !in w && x in w2 {
      if calls[k].id in before && x == ids(k) {
        assert RecreatedBy(w, w2, calls, n, ids, x, k);
      } else {
        var m :| RecreatedBy(w, before, init, n, ids, x, m);
        assert RecreatedBy(w, w2, calls, n, ids, x, m);
      }
    }
  }

  /** And nobody's names are lost. */
  lemma {:induction false} NamesSurvive(w: World, calls: seq<Call>, n: nat, outcome: nat -> Outcome,
                                        ids: nat -> string, x: string)
    returns (y: string)
    requires Recreates(w, calls, n, ids) && (forall k: nat :: outcome(k).Succeeds?) && x in w
    ensures y in Replayed(w, calls, n, outcome, ids) && Replayed(w, calls, n, outcome, ids)[y].names == w[x].names
    decreases |calls|
  {
    y := x;
    if n < |calls| {
      var k := |calls| - 1;
      RecreatesInit(w, calls, n, ids);
      y := NamesSurvive(w, calls[..k], n, outcome, ids, x);
      assert outcome(k).Succeeds?;
      if calls[k].id == y && y in Replayed(w, calls[..k], n, outcome, ids) {
        y := ids(k);
      } else {
        ReplayedOrigin(w, calls[..k], n, outcome, ids, ids(k));
      }
    }
  }

  predicate ReadsAs(id: string, ref: string) {
    |ref| >= 12 && HasPrefix(id, ref)
  }

  /** Names as references store them, and new IDs that no stored reference is a prefix of. */
  ghost predicate NoMisreading(all: seq<Container>, calls: seq<Call>, n: nat, ids: nat -> string) {
    && (forall c, name | c in all && name in c.names :: Trimmed(Stripped(name)))
    && (forall c, m | c in all && n <= m < |calls| && Ref(c.networkMode).Some? ::
        !ReadsAs(ids(m), Ref(c.networkMode).value))
  }

  lemma InWorld(all: seq<Container>, w: World, c: Container)
    requires Lists(all, w) && Keyed(w)
    ensures c in all <==> c.id in w && w[c.id] == c
  {
  }

  /** What a poll leaves of an untouched sibling: it did not drift, so it stores no short ID, then or now. */
  lemma UntouchedIsQuiet(w: World, all: seq<Container>, again: seq<Container>, calls: seq<Call>, n: nat,
                         outcome: nat -> Outcome, ids: nat -> string, all2: seq<Container>,
                         selfProject: string, selfID: string, c: Container)
    requires GoodPoll(w, all, again, selfProject, selfID) && Recreates(w, calls, n, ids)
    requires (forall k: nat :: outcome(k).Succeeds?) &&
             AllTreated(calls, n, again, PoolOf(all, all, selfProject, selfID))
    requires NoMisreading(all, calls, n, ids)
    requires Lists(all2, Replayed(w, calls, n, outcome, ids)) && Keyed(Replayed(w, calls, n, outcome, ids))
    requires c in all && c in all2 && Eligible(c, selfProject, selfID)
    ensures !ShortRef(all2, c)
  {
    var w2 := Replayed(w, calls, n, outcome, ids);
    if ShortRef(all2, c) {
      var ref := Ref(c.networkMode).value;
      var d :| d in all2 && d.names != [] && ShortId(d, ref);
      InWorld(all2, w2, d);
      ReplayedOrigin(w, calls, n, outcome, ids, d.id);
      ReplayedOrigin(w, calls, n, outcome, ids, c.id);
      InWorld(all2, w2, c);
      InWorld(all, w, c);
      InWorld(all, w, d);
      assert d.id in w;
      StoredShortDrifts(all, again, selfProject, selfID, c, d);
      assert false;
    }
  }

  lemma StoredShortDrifts(all: seq<Container>, again: seq<Container>, selfProject: string, selfID: string,
                          c: Container, d: Container)
    requires Daemon(all) && PlainNames(all) && RefsPlain(all, selfProject, selfID) && SameContainers(all, again)
    requires c in all && Eligible(c, selfProject, selfID) && |Ref(c.networkMode).value| < 64
    requires d in all && d.names != [] && ShortId(d, Ref(c.networkMode).value)
    ensures var t := ResolveTargetName(all, Ref(c.networkMode).value);
            var pool := PoolOf(all, all, selfProject, selfID);
            t in pool && c.id in pool[t] && Drifts(again, t, c.id)
  {
    var ref := Ref(c.networkMode).value;
    ResolversFind(all, ref, d);
    assert d.names[0] in d.names;
    FirstNameNamed(d);
    DriftsIffShortRef(all, again, c);
    PoolExactly(all, all, selfProject, selfID, ResolveTargetName(all, ref), c.id);
  }

  lemma PooledFrom(all: seq<Container>, selfProject: string, selfID: string, t: string, id: string)
    returns (c: Container)
    requires InPool(PoolOf(all, all, selfProject, selfID), t, id)
    ensures c in all && Eligible(c, selfProject, selfID) && ResolveTargetName(all, Ref(c.networkMode).value) == t != ""
  {
    PoolExactly(all, all, selfProject, selfID, t, id);
    c :| && c in all && c.id != selfID && ProjectOf(c) == selfProject && Ref(c.networkMode).Some?
         && ResolveTargetName(all, Ref(c.networkMode).value) == t;
    EligibleExactly(c, selfProject, selfID);
  }

  /** A recreated sibling stores its target's name, which no container's ID reads as. */
  lemma RecreatedIsQuiet(w: World, all: seq<Container>, again: seq<Container>, calls: seq<Call>, n: nat,
                         outcome: nat -> Outcome, ids: nat -> string, all2: seq<Container>,
                         selfProject: string, selfID: string, c: Container, m: nat)
    requires GoodPoll(w, all, again, selfProject, selfID) && Recreates(w, calls, n, ids)
    requires (forall k: nat :: outcome(k).Succeeds?) && NoMisreading(all, calls, n, ids)
    requires n <= m < |calls| && IsDrift(calls[m], again, PoolOf(all, all, selfProject, selfID))
    requires Lists(all2, Replayed(w, calls, n, outcome, ids)) && Keyed(Replayed(w, calls, n, outcome, ids)) &&
             Daemon(all2)
    requires c.networkMode == calls[m].networkMode
    ensures !ShortRef(all2, c)
  {
    var pool, w2 := PoolOf(all, all, selfProject, selfID), Replayed(w, calls, n, outcome, ids);
    var t :| t in pool && calls[m].id in pool[t] && calls[m].networkMode == NETMODE + t;
    var old_ := PooledFrom(all, selfProject, selfID, t, calls[m].id);
    var d := TargetNamed(all, Ref(old_.networkMode).value, t);
    InWorld(all, w, d);
    var y := NamesSurvive(w, calls, n, outcome, ids, d.id);
    InWorld(all2, w2, w2[y]);
    StoredName(all, calls, n, ids, d, t);
    hide ResolveTargetName, Drifts, PoolOf;
    assert Named(w2[y], t);
    assert Ref(c.networkMode) == Some(t);
  }

  lemma TargetNamed(all: seq<Container>, ref: string, t: string) returns (d: Container)
    requires Daemon(all) && PlainNames(all) && SlashFree(ref) && Unambiguous(all, ref) &&
             ResolveTargetName(all, ref) == t != ""
    ensures d in all && Named(d, t)
  {
    d := DenotedTarget(all, ref);
    assert d.names[0] in d.names && NamesPlain(d.names);
    FirstNameNamed(d);
  }

  lemma StoredName(all: seq<Container>, calls: seq<Call>, n: nat, ids: nat -> string, d: Container, t: string)
    requires NoMisreading(all, calls, n, ids) && d in all && Named(d, t) && t != ""
    ensures Ref(NETMODE + t) == Some(t)
  {
    var name :| name in d.names && Stripped(name) == t;
    assert Trimmed(Stripped(name));
    CutPrefixOf(NETMODE, t);
    TrimmedIsTrim(t);
  }

  /**
   After a poll that has recreated every drifted anchor, the next one recreates nothing,
   also where the old references were short IDs: the new ones are names.
   */
  lemma NextPollQuiet(w: World, all: seq<Container>, again: seq<Container>, calls: seq<Call>, n: nat,
                      outcome: nat -> Outcome, ids: nat -> string, all2: seq<Container>, again2: seq<Container>,
                      selfProject: string, selfID: string, call: Call)
    requires GoodPoll(w, all, again, selfProject, selfID) && Recreates(w, calls, n, ids)
    requires (forall k: nat :: outcome(k).Succeeds?) && NoMisreading(all, calls, n, ids)
    requires OnlyDrifts(calls[..n], calls, again, PoolOf(all, all, selfProject, selfID))
    requires AllTreated(calls, n, again, PoolOf(all, all, selfProject, selfID))
    requires GoodPoll(Replayed(w, calls, n, outcome, ids), all2, again2, selfProject, selfID)
    ensures !IsDrift(call, again2, PoolOf(all2, all2, selfProject, selfID))
  {
    var w2 := Replayed(w, calls, n, outcome, ids);
    GoodPollParts(w2, all2, again2, selfProject, selfID);
    forall c | c in all2 && Eligible(c, selfProject, selfID)
      ensures !ShortRef(all2, c)
    {
      InWorld(all2, w2, c);
      ReplayedOrigin(w, calls, n, outcome, ids, c.id);
      hide PoolOf, Eligible, ShortRef, IsDrift, Replayed;
      if c.id in w {
        GoodPollParts(w, all, again, selfProject, selfID);
        InWorld(all, w, c);
        UntouchedIsQuiet(w, all, again, calls, n, outcome, ids, all2, selfProject, selfID, c);
      } else {
        var m :| RecreatedBy(w, w2, calls, n, ids, c.id, m);
        RecreatedIsQuiet(w, all, again, calls, n, outcome, ids, all2, selfProject, selfID, c, m);
      }
    }
    hide *;
    QuietHostNoChurn(all2, again2, selfProject, selfID, call);
  }

  lemma GoodPollParts(w: World, all: seq<Container>, again: seq<Container>, selfProject: string, selfID: string)
    requires GoodPoll(w, all, again, selfProject, selfID)
    ensures Keyed(w) && Lists(all, w) && SameContainers(all, again)
    ensures Daemon(all) && PlainNames(all) && RefsPlain(all, selfProject, selfID)
    ensures (forall c | c in all && Eligible(c, selfProject, selfID) :: !ShortRef(all, c)) ==>
            NoShortRefs(all, selfProject, selfID)
  {
  }
}
