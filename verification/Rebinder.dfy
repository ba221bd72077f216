/**
 The external rebinder: one follower container attached to, and released from, another
 stack's network, by a single-threaded watcher over a queue of network events. Other
 containers come and go between any two of its calls.
 */
module Rebinder {
  import opened GoStrings
  import opened References
  import Dependents

  // ---- who is the follower ----------------------------------------------------

  predicate IdMatch(a: string, b: string) {
    a != "" && b != "" && (a == b || (|a| >= 12 && HasPrefix(b, a)) || (|b| >= 12 && HasPrefix(a, b)))
  }

  /** On full IDs it is equality. */
  lemma IdMatchFull(a: string, b: string)
    requires |a| == 64 && |b| == 64
    ensures IdMatch(a, b) <==> a == b
  {
  }

  /** And of a shorter one, at least Docker's twelve characters are needed. */
  lemma IdMatchPrefix(id: string, n: nat)
    requires |id| == 64 && n <= 64
    ensures IdMatch(id[..n], id) <==> n >= 12
    ensures IdMatch(id, id[..n]) <==> n >= 12
  {
    assert n == 64 ==> id[..n] == id;
  }

  /** By compose service in the own project first, by container name otherwise. */
  function ResolveFollower(all: seq<Container>, followTarget: string, selfProject: string): string {
    var target := Stripped(followTarget);
    if target == "" then ""
    else
      var byService := First(all, (c: Container) => Dependents.Label(c, Dependents.PROJECT) == selfProject
                                                    && Dependents.Label(c, Dependents.SERVICE) == target);
      if selfProject != "" && byService.Some? then byService.value.id
      else
        var byName := First(all, ByName(target));
        if byName.Some? then byName.value.id else ""
  }

  /** Docker Compose's labels say that `c` is this service of this project. */
  predicate IsService(c: Container, project: string, service: string) {
    && "com.docker.compose.project" in c.labels && c.labels["com.docker.compose.project"] == project
    && "com.docker.compose.service" in c.labels && c.labels["com.docker.compose.service"] == service
  }

  predicate FirstService(all: seq<Container>, project: string, service: string, i: nat) {
    i < |all| && IsService(all[i], project, service) && forall j | 0 <= j < i :: !IsService(all[j], project, service)
  }

  predicate FirstNamed(all: seq<Container>, name: string, i: nat) {
    i < |all| && HasName(all[i], name) && forall j | 0 <= j < i :: !HasName(all[j], name)
  }

  /**
   The follower `name` or `/name`: in a project, the first container of that project and
   service; with none, the first that has the name; otherwise nobody.
   */
  lemma FollowerExactly(all: seq<Container>, followTarget: string, name: string, project: string, i: nat)
    requires followTarget == "/" + name || (followTarget == name && (name == "" || name[0] != '/'))
    ensures var found := ResolveFollower(all, followTarget, project);
            var services := project != "" && exists c | c in all :: IsService(c, project, name);
            && (name != "" && services && FirstService(all, project, name, i) ==> found == all[i].id)
            && (name != "" && !services && FirstNamed(all, name, i) ==> found == all[i].id)
            && (name == "" || (!services && forall c | c in all :: !HasName(c, name)) ==> found == "")
  {
    StrippedExactly(followTarget);
    if name != "" {
      var byService := (c: Container) => Dependents.Label(c, Dependents.PROJECT) == project
                                         && Dependents.Label(c, Dependents.SERVICE) == name;
      var byName := ByName(name);
      forall c | c in all
        ensures project != "" ==> (byService(c) <==> IsService(c, project, name))
        ensures byName(c) <==> HasName(c, name)
      {
        NamedExactly(c, name);
      }
      hide Named, HasName, Stripped, Dependents.Label, IsService, ByName;
      if i < |all| && byService(all[i]) && forall j | 0 <= j < i :: !byService(all[j]) {
        FirstIs(all, byService, i);
      }
      if i < |all| && byName(all[i]) && forall j | 0 <= j < i :: !byName(all[j]) {
        FirstIs(all, byName, i);
      }
    }
  }

  // ---- Docker's error texts ------------------------------------------------------

  predicate IsAlreadyConnected(err: string) {
    var s := ToLower(err);
    Contains(s, "already exists") || (Contains(s, "endpoint with name") && Contains(s, "exists"))
  }

  predicate IsAddressInUse(err: string) {
    var s := ToLower(err);
    Contains(s, "address already in use") || Contains(s, "address is in use") ||
      Contains(s, "no available ipv4 addresses")
  }

  // ---- the world --------------------------------------------------------------------

  datatype Event = Create | Destroy | Connect(id: string) | Disconnect(id: string) | OtherNetwork

  /** What others do: containers join and leave; events of other networks pass by. */
  datatype Move = Join(id: string) | Leave(id: string) | Elsewhere

  datatype Write = DisconnectCall | ConnectCall

  /**
   The network's endpoints apart from the follower, whether the follower is one, the
   events not yet read, the number of calls made so far, and the watcher's own flag.
   `writes` logs its connect and disconnect calls; `seen` is whether another endpoint
   has been there since the follower was attached.
   */
  datatype World = World(foreign: set<string>, attached: bool, queue: seq<Event>, clock: nat, parked: bool,
                         writes: seq<Write>, seen: bool)

  /**
   `moves(n)` happens before call n; `fails(n)` is the call failing, `connectErr(n)` the
   error of a connect, `found(n)` whether the container list then shows the follower,
   `cancelled(n)` the context being done after a sleep at that time.
   */
  datatype Cfg = Cfg(follower: string, moves: nat -> seq<Move>, fails: nat -> bool, connectErr: nat -> Option<string>,
                     found: nat -> bool,
                     cancelled: nat -> bool, backoff: int, poll: int, quiet: int, maxWait: int, connectAttempts: int)

  ghost predicate ValidCfg(cfg: Cfg) {
    |cfg.follower| == 64 && cfg.poll > 0
  }

  function Moved1(cfg: Cfg, w: World, m: Move): World {
    match m
    case Join(x) =>
      if |x| == 64 && x != cfg.follower && x !in w.foreign
      then w.(foreign := w.foreign + {x}, queue := w.queue + [Connect(x)], seen := w.seen || w.attached) else w
    case Leave(x) =>
      if x in w.foreign then w.(foreign := w.foreign - {x}, queue := w.queue + [Disconnect(x)]) else w
    case Elsewhere => w.(queue := w.queue + [OtherNetwork])
  }

  function Moved(cfg: Cfg, w: World, ms: seq<Move>): World {
    if ms == [] then w else Moved1(cfg, Moved(cfg, w, ms[..|ms| - 1]), ms[|ms| - 1])
  }

  /** The others move, and the next call is due. */
  function Tick(cfg: Cfg, w: World): World {
    Moved(cfg, w, cfg.moves(w.clock)).(clock := w.clock + 1)
  }

  function Detached(cfg: Cfg, w: World): World {
    if w.attached then w.(attached := false, queue := w.queue + [Disconnect(cfg.follower)]) else w
  }

  function Attached(cfg: Cfg, w: World): World {
    if w.attached then w else w.(attached := true, queue := w.queue + [Connect(cfg.follower)], seen := w.foreign != {})
  }

  // ---- the watcher's steps, as functions of the world -----------------------------------

  datatype Members = Members(attached: bool, foreign: set<string>)

  function Endpoints(cfg: Cfg, w: World): set<string> {
    w.foreign + if w.attached then {cfg.follower} else {}
  }

  /**
   inspectMembership: the network first, the container list second. A follower that the
   list does not show cannot be told from the other endpoints.
   */
  function Membership(cfg: Cfg, w: World): (World, Option<Members>) {
    var w1 := Tick(cfg, w);
    if cfg.fails(w.clock) then (w1, None)
    else
      var w2 := Tick(cfg, w1);
      if cfg.fails(w1.clock) then (w2, None)
      else if cfg.found(w1.clock) then (w2, Some(Members(w1.attached, w1.foreign)))
      else (w2, Some(Members(false, Endpoints(cfg, w1))))
  }

  function Released(cfg: Cfg, w: World): World {
    var w1 := Tick(cfg, w).(writes := w.writes + [DisconnectCall]);
    if cfg.fails(w.clock) then w1 else Detached(cfg, w1).(parked := true)
  }

  function Parking(cfg: Cfg, w: World): World {
    if w.parked then w
    else
      var (w1, m) := Membership(cfg, w);
      if m.None? then w1
      else if !m.value.attached then w1.(parked := true)
      else if m.value.foreign != {} then w1
      else Released(cfg, w1)
  }

  datatype Outcome = Ready | TimedOut | Aborted | Cancelled

  function SettleFrom(cfg: Cfg, w: World, last: int, stable: int, elapsed: int): (World, Outcome)
    requires cfg.poll > 0
    decreases if elapsed < cfg.maxWait then cfg.maxWait - elapsed else 0
  {
    var (w1, m) := Membership(cfg, w);
    if m.None? then (w1, Aborted)
    else
      var c := |m.value.foreign|;
      var same := c > 0 && c == last;
      var stable' := if same then stable + cfg.poll else 0;
      if same && stable' >= cfg.quiet then (w1, Ready)
      else if elapsed >= cfg.maxWait then (w1, TimedOut)
      else if cfg.cancelled(w1.clock) then (w1, Cancelled)
      else SettleFrom(cfg, w1, c, stable', elapsed + cfg.poll)
  }

  function Settled(cfg: Cfg, w: World): (World, Outcome)
    requires cfg.poll > 0
  {
    if cfg.backoff > 0 && cfg.cancelled(w.clock) then (w, Cancelled) else SettleFrom(cfg, w, -1, 0, 0)
  }

  /** connectWithRetry: retried only on an address collision, and not forever. */
  function Connecting(cfg: Cfg, w: World, attempt: nat): (World, bool)
    decreases if attempt < cfg.connectAttempts then cfg.connectAttempts - attempt else 0
  {
    var w1 := Tick(cfg, w).(writes := w.writes + [ConnectCall]);
    var err := cfg.connectErr(w.clock);
    if err.None? then (Attached(cfg, w1), true)
    else if IsAlreadyConnected(err.value) then (w1, true)
    else if IsAddressInUse(err.value) && attempt < cfg.connectAttempts then
      if cfg.cancelled(w1.clock) then (w1, false) else Connecting(cfg, Tick(cfg, w1), attempt + 1)
    else (w1, false)
  }

  function Reattached(cfg: Cfg, w: World): World {
    var w1 := Tick(cfg, w);
    if cfg.fails(w.clock) then w1
    else
      var w2 := Tick(cfg, w1);
      if cfg.fails(w1.clock) || !cfg.found(w1.clock) then w2
      else
        var w3 := Tick(cfg, w2).(writes := w2.writes + [DisconnectCall]);
        var (w4, ok) := Connecting(cfg, if cfg.fails(w2.clock) then w3 else Detached(cfg, w3), 1);
        if ok then w4.(parked := false) else w4
  }

  function SettledAndReattached(cfg: Cfg, w: World): World
    requires cfg.poll > 0
  {
    var (w1, o) := Settled(cfg, w);
    if o.Cancelled? || o.Aborted? then w1 else Reattached(cfg, w1)
  }

  /** consume on the event at the head of the queue. */
  function Handled(cfg: Cfg, w: World): World
    requires cfg.poll > 0 && w.queue != []
  {
    var w0 := w.(queue := w.queue[1..]);
    match w.queue[0]
    case Create => SettledAndReattached(cfg, w0)
    case Destroy => w0.(parked := true)
    case Disconnect(_) => Parking(cfg, w0)
    case Connect(_) => if w.parked then SettledAndReattached(cfg, w0) else w0
    case OtherNetwork => w0
  }

  /** One turn: the others move, then an event is handled if there is one. */
  function Turn(cfg: Cfg, w: World): World
    requires cfg.poll > 0
  {
    var w1 := Tick(cfg, w);
    if w1.queue == [] then w1 else Handled(cfg, w1)
  }

  function Turns(cfg: Cfg, w: World, n: nat): World
    requires cfg.poll > 0
  {
    if n == 0 then w else Turn(cfg, Turns(cfg, w, n - 1))
  }

  /** The startup check, before the event stream is opened. */
  function Bootstrapped(cfg: Cfg, w: World): World {
    var w1 := Tick(cfg, w);
    if cfg.fails(w.clock) then w1
    else
      var w2 := Tick(cfg, w1);
      if cfg.fails(w1.clock) || !cfg.found(w1.clock) then w2
      else
        var w3 := Tick(cfg, w2);
        if cfg.fails(w2.clock) || w3.attached then w3 else Reattached(cfg, w3)
  }

  // ---- what the others can do between two calls ----------------------------------------

  ghost predicate HasDisconnect(q: seq<Event>) {
    exists e :: e in q && e.Disconnect?
  }

  predicate Foreign(cfg: Cfg, x: string) {
    |x| == 64 && x != cfg.follower
  }

  /** `later` is `w` after any number of moves of others. */
  ghost predicate Env(cfg: Cfg, w: World, later: World) {
    && later.attached == w.attached && later.parked == w.parked && later.writes == w.writes
    && w.queue <= later.queue
    && (forall e | e in later.queue[|w.queue|..] :: !e.Create? && !e.Destroy?)
    && (forall x | x in later.foreign && x !in w.foreign :: Foreign(cfg, x) && Connect(x) in later.queue[|w.queue|..])
    && ((w.foreign != {} || (!w.seen && later.seen)) && later.foreign == {} ==> HasDisconnect(later.queue[|w.queue|..]))
    && (w.seen ==> later.seen) && (later.seen ==> w.seen || w.attached)
    && (w.attached && later.foreign != {} ==> later.seen || w.foreign != {})
  }

  lemma EnvRefl(cfg: Cfg, w: World)
    ensures Env(cfg, w, w)
  {
    assert w.queue[|w.queue|..] == [];
  }

  lemma EnvOne(cfg: Cfg, w: World, m: Move)
    ensures Env(cfg, w, Moved1(cfg, w, m))
  {
    var later := Moved1(cfg, w, m);
    if later == w {
      EnvRefl(cfg, w);
    } else {
      var e := if m.Join? then Connect(m.id) else if m.Leave? then Disconnect(m.id) else OtherNetwork;
      assert later.queue == w.queue + [e];
      assert later.queue[|w.queue|..] == [e];
      assert e in [e];
    }
  }

  lemma EnvTrans(cfg: Cfg, a: World, b: World, c: World)
    requires Env(cfg, a, b) && Env(cfg, b, c)
    ensures Env(cfg, a, c)
  {
    TailSplit(a.queue, b.queue, c.queue);
    var ab, bc, ac := b.queue[|a.queue|..], c.queue[|b.queue|..], c.queue[|a.queue|..];
    assert ac == ab + bc;
    if (a.foreign != {} || (!a.seen && c.seen)) && c.foreign == {} {
      assert HasDisconnect(ab) || HasDisconnect(bc);
      var e :| (e in ab || e in bc) && e.Disconnect?;
      assert e in ac;
    }
  }

  lemma TailSplit(a: seq<Event>, b: seq<Event>, c: seq<Event>)
    requires a <= b <= c
    ensures c[|a|..] == b[|a|..] + c[|b|..]
  {
    assert c == b + c[|b|..];
  }

  lemma {:induction false} EnvMoved(cfg: Cfg, w: World, ms: seq<Move>)
    ensures Env(cfg, w, Moved(cfg, w, ms)) && Moved(cfg, w, ms).clock == w.clock
  {
    if ms == [] {
      EnvRefl(cfg, w);
    } else {
      var before := Moved(cfg, w, ms[..|ms| - 1]);
      EnvMoved(cfg, w, ms[..|ms| - 1]);
      EnvOne(cfg, before, ms[|ms| - 1]);
      EnvTrans(cfg, w, before, Moved(cfg, w, ms));
    }
  }

  lemma EnvTick(cfg: Cfg, w: World)
    ensures Env(cfg, w, Tick(cfg, w)) && Tick(cfg, w).clock == w.clock + 1
  {
    EnvMoved(cfg, w, cfg.moves(w.clock));
    hide Moved;
  }

  lemma EnvMembership(cfg: Cfg, w: World)
    ensures Env(cfg, w, Membership(cfg, w).0)
  {
    var w1 := Tick(cfg, w);
    EnvTick(cfg, w);
    EnvTick(cfg, w1);
    EnvTrans(cfg, w, w1, Tick(cfg, w1));
    hide Env, Tick;
  }

  /**
   What inspectMembership sees: the network at the first call, in which the follower can be
   told from the others when the list, read at the second, shows it.
   */
  lemma MembershipExactly(cfg: Cfg, w: World)
    ensures var seen := Membership(cfg, w).1;
            && (seen.None? <==> cfg.fails(w.clock) || cfg.fails(w.clock + 1))
            && (seen.Some? ==>
                && (seen.value.attached <==> w.attached && cfg.found(w.clock + 1))
                && forall x :: x in seen.value.foreign <==>
                     x in Tick(cfg, w).foreign || (x == cfg.follower && w.attached && !cfg.found(w.clock + 1)))
  {
    EnvTick(cfg, w);
    hide Tick;
  }

  lemma {:induction false} EnvSettleFrom(cfg: Cfg, w: World, last: int, stable: int, elapsed: int)
    requires cfg.poll > 0
    ensures Env(cfg, w, SettleFrom(cfg, w, last, stable, elapsed).0)
    decreases if elapsed < cfg.maxWait then cfg.maxWait - elapsed else 0
  {
    hide Env, Membership;
    var (w1, m) := Membership(cfg, w);
    EnvMembership(cfg, w);
    if m.Some? {
      var c := |m.value.foreign|;
      var same := c > 0 && c == last;
      var stable' := if same then stable + cfg.poll else 0;
      if !(same && stable' >= cfg.quiet) && elapsed < cfg.maxWait && !cfg.cancelled(w1.clock) {
        EnvSettleFrom(cfg, w1, c, stable', elapsed + cfg.poll);
        EnvTrans(cfg, w, w1, SettleFrom(cfg, w1, c, stable', elapsed + cfg.poll).0);
      }
    }
  }

  lemma EnvSettled(cfg: Cfg, w: World)
    requires cfg.poll > 0
    ensures Env(cfg, w, Settled(cfg, w).0)
  {
    EnvRefl(cfg, w);
    EnvSettleFrom(cfg, w, -1, 0, 0);
    hide Env, SettleFrom;
  }

  // ---- the protocol's invariant -----------------------------------------------------------

  /** Attached if and only if not parked. */
  predicate Paired(w: World) {
    w.attached <==> !w.parked
  }

  /** While parked, each endpoint that is there still has its connect event in the queue. */
  ghost predicate Announced(w: World) {
    w.parked ==> forall x | x in w.foreign :: Connect(x) in w.queue
  }

  /** The sole endpoint: a disconnect event is queued, or nobody else was there since the follower was attached. */
  ghost predicate ReleaseDue(w: World) {
    w.attached && w.foreign == {} && w.seen ==> HasDisconnect(w.queue)
  }

  /** One incarnation of the network, and bookkeeping. */
  ghost predicate Regular(cfg: Cfg, w: World) {
    && Destroy !in w.queue && (forall x | x in w.foreign :: Foreign(cfg, x))
    && (w.attached && w.foreign != {} ==> w.seen)
  }

  ghost predicate Inv(cfg: Cfg, w: World) {
    Paired(w) && Announced(w) && ReleaseDue(w) && Regular(cfg, w)
  }

  lemma EnvKeepsRegular(cfg: Cfg, w: World, later: World)
    requires Regular(cfg, w) && Env(cfg, w, later)
    ensures Regular(cfg, later)
  {
    assert later.queue == w.queue + later.queue[|w.queue|..];
  }

  lemma EnvKeepsAnnounced(cfg: Cfg, w: World, later: World)
    requires Announced(w) && Env(cfg, w, later)
    ensures Announced(later)
  {
    assert later.queue == w.queue + later.queue[|w.queue|..];
  }

  lemma EnvKeepsReleaseDue(cfg: Cfg, w: World, later: World)
    requires ReleaseDue(w) && Regular(cfg, w) && Env(cfg, w, later)
    ensures ReleaseDue(later)
  {
    assert later.queue == w.queue + later.queue[|w.queue|..];
    if later.attached && later.foreign == {} && later.seen {
      var e :| (e in w.queue || e in later.queue[|w.queue|..]) && e.Disconnect?;
      assert e in later.queue;
    }
  }

  // ---- reattaching ---------------------------------------------------------------------------

  /** The daemon only says "already exists" when that is so. */
  ghost predicate Truthful(cfg: Cfg) {
    forall n: nat | cfg.connectErr(n).Some? :: !IsAlreadyConnected(cfg.connectErr(n).value)
  }

  /** API calls succeed: a connect may collide on the address, but gets through within its attempts. */
  ghost predicate Succeeds(cfg: Cfg) {
    && ValidCfg(cfg) && Truthful(cfg) && (forall n: nat :: !cfg.fails(n) && cfg.found(n) && !cfg.cancelled(n))
    && forall w: World :: Connecting(cfg, w, 1).1
  }

  /** For one, when nothing fails at all. */
  lemma NothingFailsSucceeds(cfg: Cfg)
    requires ValidCfg(cfg) && forall n: nat ::
             !cfg.fails(n) && cfg.found(n) && !cfg.cancelled(n) && cfg.connectErr(n).None?
    ensures Succeeds(cfg)
  {
    forall w: World ensures Connecting(cfg, w, 1).1 {
      assert cfg.connectErr(w.clock).None?;
    }
  }

  lemma {:induction false} ConnectingEnds(cfg: Cfg, w: World, attempt: nat)
    requires Truthful(cfg)
    ensures var (w', ok) := Connecting(cfg, w, attempt);
            && w'.parked == w.parked && w'.attached == (w.attached || ok)
            && (!w.attached && ok ==> (w'.seen <==> w'.foreign != {}))
            && (Regular(cfg, w) ==> Regular(cfg, w'))
    decreases if attempt < cfg.connectAttempts then cfg.connectAttempts - attempt else 0
  {
    hide IsAlreadyConnected, IsAddressInUse, Tick, Regular;
    var w1 := Tick(cfg, w).(writes := w.writes + [ConnectCall]);
    EnvTick(cfg, w);
    RegularTick(cfg, w, w1);
    RegularAttached(cfg, w1);
    var err := cfg.connectErr(w.clock);
    if err.Some? && IsAddressInUse(err.value) && attempt < cfg.connectAttempts && !cfg.cancelled(w1.clock) {
      EnvTick(cfg, w1);
      RegularTick(cfg, w1, Tick(cfg, w1));
      ConnectingEnds(cfg, Tick(cfg, w1), attempt + 1);
    }
  }

  lemma RegularTick(cfg: Cfg, w: World, later: World)
    requires later == Tick(cfg, w).(writes := later.writes)
    ensures Regular(cfg, w) ==> Regular(cfg, later)
    ensures Announced(w) ==> Announced(later)
  {
    EnvTick(cfg, w);
    hide Tick;
    if Regular(cfg, w) {
      EnvKeepsRegular(cfg, w, Tick(cfg, w));
    }
    if Announced(w) {
      EnvKeepsAnnounced(cfg, w, Tick(cfg, w));
    }
  }

  lemma RegularAttached(cfg: Cfg, w: World)
    ensures Regular(cfg, w) ==> Regular(cfg, Attached(cfg, w)) && Regular(cfg, Detached(cfg, w))
    ensures Announced(w) ==> Announced(Detached(cfg, w))
  {
  }

  /** With successful calls a reattach ends attached, unparked, and with a fresh account of who is there. */
  lemma ReattachedEnds(cfg: Cfg, w: World)
    requires Succeeds(cfg) && Regular(cfg, w)
    ensures Inv(cfg, Reattached(cfg, w)) && Reattached(cfg, w).attached
  {
    var w1 := Tick(cfg, w);
    var w2 := Tick(cfg, w1);
    var w3 := Tick(cfg, w2).(writes := w2.writes + [DisconnectCall]);
    var d := Detached(cfg, w3);
    RegularTick(cfg, w, w1);
    RegularTick(cfg, w1, w2);
    RegularTick(cfg, w2, w3);
    RegularAttached(cfg, w3);
    assert !d.attached;
    ConnectingEnds(cfg, d, 1);
    hide Connecting, Tick, Regular, Detached;
    assert !cfg.fails(w.clock) && !cfg.fails(w1.clock) && cfg.found(w1.clock) && !cfg.fails(w2.clock) &&
      Connecting(cfg, d, 1).1;
    RegularParked(cfg, Connecting(cfg, d, 1).0);
  }

  lemma RegularParked(cfg: Cfg, w: World)
    ensures Regular(cfg, w) <==> Regular(cfg, w.(parked := !w.parked))
  {
  }

  lemma SettledReattachedEnds(cfg: Cfg, w: World)
    requires Succeeds(cfg) && Regular(cfg, w)
    ensures Inv(cfg, SettledAndReattached(cfg, w)) && SettledAndReattached(cfg, w).attached
  {
    EnvSettled(cfg, w);
    EnvKeepsRegular(cfg, w, Settled(cfg, w).0);
    SettledSucceeds(cfg, w);
    ReattachedEnds(cfg, Settled(cfg, w).0);
    hide Settled, Reattached, Regular, Inv;
  }

  lemma SettledSucceeds(cfg: Cfg, w: World)
    requires Succeeds(cfg)
    ensures Settled(cfg, w).1.Ready? || Settled(cfg, w).1.TimedOut?
  {
    SettleFromSucceeds(cfg, w, -1, 0, 0);
    hide SettleFrom;
  }

  lemma {:induction false} SettleFromSucceeds(cfg: Cfg, w: World, last: int, stable: int, elapsed: int)
    requires Succeeds(cfg)
    ensures SettleFrom(cfg, w, last, stable, elapsed).1.Ready? || SettleFrom(cfg, w, last, stable, elapsed).1.TimedOut?
    decreases if elapsed < cfg.maxWait then cfg.maxWait - elapsed else 0
  {
    hide Tick, Connecting, Truthful;
    var (w1, m) := Membership(cfg, w);
    assert m.Some?;
    var c := |m.value.foreign|;
    var same := c > 0 && c == last;
    var stable' := if same then stable + cfg.poll else 0;
    if !(same && stable' >= cfg.quiet) && elapsed < cfg.maxWait {
      SettleFromSucceeds(cfg, w1, c, stable', elapsed + cfg.poll);
    }
  }

  // ---- parking --------------------------------------------------------------------------------

  /** A disconnect event handled while attached: the snapshot decides, and later moves announce themselves. */
  lemma ParkingKeeps(cfg: Cfg, w: World)
    requires Succeeds(cfg) && Paired(w) && Announced(w) && Regular(cfg, w)
    ensures Inv(cfg, Parking(cfg, w))
  {
    if !w.parked {
      var w1 := Tick(cfg, w);
      var w2 := Tick(cfg, w1);
      EnvTick(cfg, w);
      EnvTick(cfg, w1);
      RegularTick(cfg, w, w1);
      RegularTick(cfg, w1, w2);
      assert !cfg.fails(w.clock) && !cfg.fails(w1.clock) && cfg.found(w1.clock) && !cfg.fails(w2.clock);
      hide Tick, Connecting, Truthful, Succeeds;
      if w1.foreign != {} {
        StaysDue(cfg, w1, w2);
      } else {
        ReleasedKeeps(cfg, w1, w2);
      }
    }
  }

  lemma StaysDue(cfg: Cfg, w1: World, w2: World)
    requires Env(cfg, w1, w2) && w1.foreign != {}
    ensures ReleaseDue(w2)
  {
    if w2.foreign == {} {
      var e :| e in w2.queue[|w1.queue|..] && e.Disconnect?;
      assert w2.queue == w1.queue + w2.queue[|w1.queue|..];
      assert e in w2.queue;
    }
  }

  /** Nobody was there in the snapshot `w1`: whoever is there after the release has a connect event queued. */
  lemma ReleasedKeeps(cfg: Cfg, w1: World, w2: World)
    requires Env(cfg, w1, w2) && w1.foreign == {} && Regular(cfg, w2) && !cfg.fails(w2.clock)
    ensures Inv(cfg, Released(cfg, w2)) && Released(cfg, w2).parked
  {
    var w3 := Tick(cfg, w2);
    EnvTick(cfg, w2);
    EnvTrans(cfg, w1, w2, w3);
    RegularTick(cfg, w2, w3.(writes := w2.writes + [DisconnectCall]));
    hide Tick;
    forall x | x in w3.foreign
      ensures Connect(x) in w3.queue
    {
      assert w3.queue == w1.queue + w3.queue[|w1.queue|..];
    }
  }

  // ---- the run --------------------------------------------------------------------------------

  /** Every event handled keeps the invariant. */
  lemma HandledKeeps(cfg: Cfg, w: World)
    requires Succeeds(cfg) && Inv(cfg, w) && w.queue != []
    ensures Inv(cfg, Handled(cfg, w))
  {
    var w0 := w.(queue := w.queue[1..]);
    assert w.queue == [w.queue[0]] + w.queue[1..];
    assert w.queue[0] in w.queue;
    match w.queue[0]
    case Create =>
      SettledReattachedEnds(cfg, w0);
    case Destroy =>
      assert false;
    case Disconnect(id) =>
      AnnouncedTail(w, w0);
      ParkingKeeps(cfg, w0);
    case Connect(id) =>
      if w.parked {
        SettledReattachedEnds(cfg, w0);
      } else {
        DueTail(w, w0);
      }
    case OtherNetwork =>
      AnnouncedTail(w, w0);
      DueTail(w, w0);
  }

  lemma AnnouncedTail(w: World, w0: World)
    requires w.queue != [] && !w.queue[0].Connect? && w0 == w.(queue := w.queue[1..]) && Announced(w)
    ensures Announced(w0)
  {
    assert w.queue == [w.queue[0]] + w.queue[1..];
  }

  lemma DueTail(w: World, w0: World)
    requires w.queue != [] && !w.queue[0].Disconnect? && w0 == w.(queue := w.queue[1..]) && ReleaseDue(w)
    ensures ReleaseDue(w0)
  {
    assert w.queue == [w.queue[0]] + w.queue[1..];
    if HasDisconnect(w.queue) {
      var e :| e in w.queue && e.Disconnect?;
      assert e in w0.queue;
    }
  }

  lemma TickKeeps(cfg: Cfg, w: World)
    requires Inv(cfg, w)
    ensures Inv(cfg, Tick(cfg, w))
  {
    EnvTick(cfg, w);
    hide Tick;
    EnvKeepsRegular(cfg, w, Tick(cfg, w));
    EnvKeepsAnnounced(cfg, w, Tick(cfg, w));
    EnvKeepsReleaseDue(cfg, w, Tick(cfg, w));
  }

  lemma TurnKeeps(cfg: Cfg, w: World)
    requires Succeeds(cfg) && Inv(cfg, w)
    ensures Inv(cfg, Turn(cfg, w))
  {
    TickKeeps(cfg, w);
    hide Tick, Inv, Succeeds;
    if Tick(cfg, w).queue != [] {
      assert cfg.poll > 0 by { Positive(cfg); }
      HandledKeeps(cfg, Tick(cfg, w));
    }
  }

  lemma Positive(cfg: Cfg)
    requires Succeeds(cfg)
    ensures cfg.poll > 0
  {
  }

  /** Release before recreate, at every moment between events of every run. */
  lemma {:induction false} RunKeeps(cfg: Cfg, w: World, n: nat)
    requires Succeeds(cfg) && Inv(cfg, w)
    ensures Inv(cfg, Turns(cfg, w, n))
  {
    Positive(cfg);
    hide Turn, Inv, Succeeds;
    if n > 0 {
      RunKeeps(cfg, w, n - 1);
      TurnKeeps(cfg, Turns(cfg, w, n - 1));
    }
  }

  // ---- nobody is stranded ----------------------------------------------------------------------

  lemma {:induction false} TurnsShift(cfg: Cfg, w: World, n: nat)
    requires cfg.poll > 0
    ensures Turns(cfg, w, n + 1) == Turns(cfg, Turn(cfg, w), n)
  {
    if n > 0 {
      TurnsShift(cfg, w, n - 1);
      hide Turn;
    } else {
      assert Turns(cfg, w, 0) == w;
    }
  }

  /**
   Parked with another endpoint present: its connect event is at some place `i` in the
   queue, and by the time that event has been handled the follower has been reattached.
   */
  lemma {:induction false} NeverStranded(cfg: Cfg, w: World, i: nat) returns (n: nat)
    requires Succeeds(cfg) && Inv(cfg, w) && w.parked && i < |w.queue| && w.queue[i].Connect?
    ensures 1 <= n <= i + 1 && Turns(cfg, w, n).attached && !Turns(cfg, w, n).parked
    decreases i
  {
    hide *;
    Positive(cfg);
    var next := ParkedTurn(cfg, w, i);
    TurnKeeps(cfg, w);
    if next.parked {
      n := NeverStranded(cfg, next, i - 1);
      TurnsShift(cfg, w, n);
      n := n + 1;
    } else {
      n := 1;
      OneTurn(cfg, w);
      InvPaired(cfg, next);
    }
  }

  lemma OneTurn(cfg: Cfg, w: World)
    requires cfg.poll > 0
    ensures Turns(cfg, w, 1) == Turn(cfg, w)
  {
    assert Turns(cfg, w, 0) == w;
    hide Turn;
  }

  lemma InvPaired(cfg: Cfg, w: World)
    requires Inv(cfg, w)
    ensures w.attached <==> !w.parked
  {
  }

  /** One turn while parked: either the follower is back, or the connect event has moved up by one. */
  lemma ParkedTurn(cfg: Cfg, w: World, i: nat) returns (next: World)
    requires Succeeds(cfg) && Inv(cfg, w) && w.parked && i < |w.queue| && w.queue[i].Connect?
    ensures next == Turn(cfg, w)
    ensures next.parked ==> 0 < i <= |next.queue| && next.queue[i - 1].Connect?
  {
    next := Turn(cfg, w);
    var w1 := Tick(cfg, w);
    EnvTick(cfg, w);
    TickKeeps(cfg, w);
    assert w1.queue[i] == w.queue[i];
    var w0 := w1.(queue := w1.queue[1..]);
    assert w1.queue[0] in w1.queue;
    hide Tick, Truthful, Connecting, Membership;
    match w1.queue[0]
    case Create => SettledReattachedEnds(cfg, w0);
    case Connect(_) => SettledReattachedEnds(cfg, w0);
    case Destroy => assert false;
    case Disconnect(_) =>
    case OtherNetwork =>
  }

  /** So an endpoint that is there while the follower is parked brings it back. */
  lemma EndpointBringsBack(cfg: Cfg, w: World, x: string) returns (n: nat)
    requires Succeeds(cfg) && Inv(cfg, w) && w.parked && x in w.foreign
    ensures 1 <= n <= |w.queue| && Turns(cfg, w, n).attached && !Turns(cfg, w, n).parked
  {
    assert Connect(x) in w.queue;
    var i :| 0 <= i < |w.queue| && w.queue[i] == Connect(x);
    n := NeverStranded(cfg, w, i);
  }

  // ---- echoes die out ---------------------------------------------------------------------------

  /** `x` never leaves, and the container list always shows the follower. */
  ghost predicate Stays(cfg: Cfg, x: string) {
    forall n: nat :: Leave(x) !in cfg.moves(n) && cfg.found(n)
  }

  /** Attached beside `x`, with nothing in the queue but connects, disconnects and other networks' events. */
  ghost predicate Quiet(w: World, x: string) {
    w.attached && !w.parked && x in w.foreign && forall e | e in w.queue :: !e.Create? && !e.Destroy?
  }

  lemma {:induction false} StayingMoved(cfg: Cfg, w: World, ms: seq<Move>, x: string)
    requires Leave(x) !in ms && x in w.foreign
    ensures x in Moved(cfg, w, ms).foreign
  {
    if ms != [] {
      StayingMoved(cfg, w, ms[..|ms| - 1], x);
      assert ms[|ms| - 1] in ms;
    }
  }

  lemma QuietTick(cfg: Cfg, w: World, x: string)
    requires Stays(cfg, x) && Quiet(w, x)
    ensures Quiet(Tick(cfg, w), x) && Tick(cfg, w).writes == w.writes
  {
    StayingMoved(cfg, w, cfg.moves(w.clock), x);
    EnvTick(cfg, w);
    hide Moved;
    var later := Tick(cfg, w);
    assert later.queue == w.queue + later.queue[|w.queue|..];
  }

  lemma QuietTurn(cfg: Cfg, w: World, x: string)
    requires cfg.poll > 0 && Stays(cfg, x) && Quiet(w, x)
    ensures Quiet(Turn(cfg, w), x) && Turn(cfg, w).writes == w.writes
  {
    QuietTick(cfg, w, x);
    var w1 := Tick(cfg, w);
    if w1.queue != [] {
      var w0 := w1.(queue := w1.queue[1..]);
      assert w1.queue == [w1.queue[0]] + w1.queue[1..];
      assert w1.queue[0] in w1.queue;
      assert Quiet(w0, x);
      QuietTick(cfg, w0, x);
      QuietTick(cfg, Tick(cfg, w0), x);
      EnvTick(cfg, w0);
      assert cfg.found(w0.clock + 1);
      hide Tick, Stays;
    }
  }

  /**
   Reattached beside an endpoint that stays, the watcher never calls connect or
   disconnect again, whatever echoes of its own calls are still queued, whichever of
   its reads fail, and whatever the others do.
   */
  lemma {:induction false} EchoesDieOut(cfg: Cfg, w: World, x: string, n: nat)
    requires cfg.poll > 0 && Stays(cfg, x) && Quiet(w, x)
    ensures Quiet(Turns(cfg, w, n), x) && Turns(cfg, w, n).writes == w.writes
  {
    hide Turn, Quiet, Stays;
    if n > 0 {
      EchoesDieOut(cfg, w, x, n - 1);
      QuietTurn(cfg, Turns(cfg, w, n - 1), x);
    }
  }

  // ---- and when they do not ------------------------------------------------------------------------

  /**
   Nobody else is on the network and nobody comes any more; what is still to be read
   are connects, disconnects and other networks' events.
   */
  ghost predicate Lonely(cfg: Cfg, w: World) {
    && w.foreign == {} && Paired(w) && (forall n: nat | n >= w.clock :: cfg.moves(n) == [])
    && forall e | e in w.queue :: !e.Create? && !e.Destroy?
  }

  /** The watcher answers this event with calls of its own: a release if attached, a reattach if not. */
  predicate Wakes(attached: bool, e: Event) {
    if attached then e.Disconnect? else e.Connect?
  }

  /** An event that wakes the watcher as it is now, and behind it one that wakes it in its other state. */
  ghost predicate Alive(w: World) {
    exists i, j | 0 <= i < j < |w.queue| :: Wakes(w.attached, w.queue[i]) && Wakes(!w.attached, w.queue[j])
  }

  /** Nothing in the queue wakes the watcher. */
  ghost predicate Spent(w: World) {
    forall e | e in w.queue :: !Wakes(w.attached, e)
  }

  /** Connect calls that can still be made, the one numbered `attempt` included. */
  function AttemptsLeft(cfg: Cfg, attempt: nat): nat {
    if attempt < cfg.connectAttempts then cfg.connectAttempts - attempt + 1 else 1
  }

  /** Calls of one reattach at most: a disconnect and the connect attempts. */
  function Round(cfg: Cfg): nat {
    1 + AttemptsLeft(cfg, 1)
  }

  ghost predicate WritesForever(cfg: Cfg, w: World)
    requires cfg.poll > 0
  {
    forall b: nat :: WritesReach(cfg, w, b)
  }

  /** Some number of turns brings the connect and disconnect calls to `b`. */
  ghost predicate WritesReach(cfg: Cfg, w: World, b: nat)
    requires cfg.poll > 0
  {
    exists n: nat :: |Turns(cfg, w, n).writes| >= b
  }

  lemma LonelyTick(cfg: Cfg, w: World)
    requires Lonely(cfg, w)
    ensures Tick(cfg, w) == w.(clock := w.clock + 1) && Lonely(cfg, Tick(cfg, w))
  {
    assert cfg.moves(w.clock) == [];
  }

  /** Alone, the follower never sees a settled network. */
  lemma {:induction false} LonelySettle(cfg: Cfg, w: World, last: int, stable: int, elapsed: int)
    requires Succeeds(cfg) && Lonely(cfg, w)
    ensures var r := SettleFrom(cfg, w, last, stable, elapsed);
            r.1.TimedOut? && r.0 == w.(clock := r.0.clock) && r.0.clock >= w.clock
    decreases if elapsed < cfg.maxWait then cfg.maxWait - elapsed else 0
  {
    hide Tick, Connecting, Truthful;
    LonelyTick(cfg, w);
    LonelyTick(cfg, w.(clock := w.clock + 1));
    var w1 := w.(clock := w.clock + 2);
    assert Membership(cfg, w) == (w1, Some(Members(w.attached, {})));
    if elapsed < cfg.maxWait {
      LonelySettle(cfg, w1, 0, 0, elapsed + cfg.poll);
    }
  }

  /** `w'` is `w` after calls of the watcher that end with the follower attached. */
  predicate CameBack(cfg: Cfg, w: World, w': World) {
    && w'.foreign == w.foreign && w'.clock >= w.clock && w'.attached
    && w'.queue == w.queue + [Connect(cfg.follower)]
  }

  lemma {:induction false} LonelyConnect(cfg: Cfg, w: World, attempt: nat)
    requires Truthful(cfg) && (forall n: nat | n >= w.clock :: cfg.moves(n) == []) && !w.attached
    requires attempt >= 1 && Connecting(cfg, w, attempt).1
    ensures var w' := Connecting(cfg, w, attempt).0;
            && CameBack(cfg, w, w') && w'.parked == w.parked
            && |w.writes| < |w'.writes|
            && |w'.writes| <= |w.writes| + AttemptsLeft(cfg, attempt)
    decreases if attempt < cfg.connectAttempts then cfg.connectAttempts - attempt else 0
  {
    hide IsAlreadyConnected, IsAddressInUse;
    assert cfg.moves(w.clock) == [] && cfg.moves(w.clock + 1) == [];
    var w1 := w.(clock := w.clock + 1, writes := w.writes + [ConnectCall]);
    assert Tick(cfg, w).(writes := w.writes + [ConnectCall]) == w1;
    var err := cfg.connectErr(w.clock);
    if err.Some? && IsAddressInUse(err.value) && attempt < cfg.connectAttempts && !cfg.cancelled(w1.clock) {
      assert Tick(cfg, w1) == w1.(clock := w1.clock + 1);
      LonelyConnect(cfg, w1.(clock := w1.clock + 1), attempt + 1);
    }
  }

  lemma LonelyReattach(cfg: Cfg, w: World)
    requires Succeeds(cfg) && Lonely(cfg, w) && !w.attached
    ensures var w' := Reattached(cfg, w);
            CameBack(cfg, w, w') && !w'.parked && |w.writes| < |w'.writes| <= |w.writes| + Round(cfg)
  {
    hide Tick, Connecting, Truthful;
    var w1 := w.(clock := w.clock + 1);
    var w2 := w.(clock := w.clock + 2);
    var w3 := w.(clock := w.clock + 3, writes := w.writes + [DisconnectCall]);
    LonelyTick(cfg, w);
    LonelyTick(cfg, w1);
    LonelyTick(cfg, w2);
    assert !cfg.fails(w.clock) && !cfg.fails(w1.clock) && cfg.found(w1.clock) && !cfg.fails(w2.clock);
    assert Connecting(cfg, w3, 1).1;
    hide Succeeds;
    LonelyConnect(cfg, w3, 1);
    hide Lonely;
  }

  lemma LonelyRelease(cfg: Cfg, w: World)
    requires Succeeds(cfg) && Lonely(cfg, w) && w.attached
    ensures Parking(cfg, w) == w.(attached := false, parked := true, clock := w.clock + 3,
                                  queue := w.queue + [Disconnect(cfg.follower)], writes := w.writes + [DisconnectCall])
  {
    LonelyTick(cfg, w);
    LonelyTick(cfg, w.(clock := w.clock + 1));
    LonelyTick(cfg, w.(clock := w.clock + 2));
    hide Tick, Connecting, Truthful;
    assert !cfg.fails(w.clock) && !cfg.fails(w.clock + 1) && cfg.found(w.clock + 1) && !cfg.fails(w.clock + 2);
    assert Membership(cfg, w) == (w.(clock := w.clock + 2), Some(Members(true, {})));
  }

  /** The echo of the call that the watcher makes when it wakes: it wakes the other state, not the one it leads to. */
  function Echo(cfg: Cfg, attached: bool): Event {
    if attached then Disconnect(cfg.follower) else Connect(cfg.follower)
  }

  /** One turn alone: a waking event turns the state over and leaves its echo, any other is dropped. */
  lemma LonelyTurn(cfg: Cfg, w: World)
    requires Succeeds(cfg) && Lonely(cfg, w)
    ensures var w' := Turn(cfg, w);
            && Lonely(cfg, w')
            && if w.queue != [] && Wakes(w.attached, w.queue[0])
               then w'.attached != w.attached && w'.queue == w.queue[1..] + [Echo(cfg, w.attached)]
                    && |w.writes| < |w'.writes| <= |w.writes| + Round(cfg)
               else w'.attached == w.attached && w'.queue == Rest(w.queue) && w'.writes == w.writes
  {
    var w1 := w.(clock := w.clock + 1);
    LonelyTick(cfg, w);
    if w.queue != [] {
      var w0 := w1.(queue := w.queue[1..]);
      assert w.queue[0] in w.queue && forall e | e in w0.queue :: e in w.queue;
      assert Lonely(cfg, w0);
      hide Tick, Connecting, Truthful;
      if Wakes(w.attached, w.queue[0]) {
        if w.attached {
          LonelyRelease(cfg, w0);
        } else {
          LonelyWake(cfg, w0);
        }
        hide Succeeds, Parking, SettledAndReattached;
      } else {
        hide Succeeds, SettledAndReattached;
      }
    }
  }

  function Rest(q: seq<Event>): seq<Event> {
    if q == [] then [] else q[1..]
  }

  lemma LonelyWake(cfg: Cfg, w: World)
    requires Succeeds(cfg) && Lonely(cfg, w) && !w.attached
    ensures var w' := SettledAndReattached(cfg, w);
            CameBack(cfg, w, w') && !w'.parked && |w.writes| < |w'.writes| <= |w.writes| + Round(cfg)
  {
    LonelySettle(cfg, w, -1, 0, 0);
    assert !cfg.cancelled(w.clock);
    var r := Settled(cfg, w).0;
    assert Lonely(cfg, r);
    LonelyReattach(cfg, r);
    hide SettleFrom, Reattached, Connecting, Truthful;
  }

  /** What keeps the echoes going is kept by every turn, and comes from nowhere. */
  lemma TurnKeepsAlive(cfg: Cfg, w: World)
    requires Succeeds(cfg) && Lonely(cfg, w)
    ensures Lonely(cfg, Turn(cfg, w)) && (Alive(Turn(cfg, w)) <==> Alive(w))
  {
    LonelyTurn(cfg, w);
    var w' := Turn(cfg, w);
    hide Turn, Succeeds, Lonely;
    if w.queue == [] {
    } else if Wakes(w.attached, w.queue[0]) {
      TurnedOver(cfg, w, w');
    } else {
      Dropped(w, w');
    }
  }

  lemma Dropped(w: World, w': World)
    requires w.queue != [] && !Wakes(w.attached, w.queue[0]) && w'.attached == w.attached && w'.queue == w.queue[1..]
    ensures Alive(w') <==> Alive(w)
  {
    if Alive(w) {
      var i, j :| 0 <= i < j < |w.queue| && Wakes(w.attached, w.queue[i]) && Wakes(!w.attached, w.queue[j]);
      assert Wakes(w'.attached, w'.queue[i - 1]) && Wakes(!w'.attached, w'.queue[j - 1]);
    }
    if Alive(w') {
      var i, j :| 0 <= i < j < |w'.queue| && Wakes(w'.attached, w'.queue[i]) && Wakes(!w'.attached, w'.queue[j]);
      assert Wakes(w.attached, w.queue[i + 1]) && Wakes(!w.attached, w.queue[j + 1]);
    }
  }

  lemma TurnedOver(cfg: Cfg, w: World, w': World)
    requires w.queue != [] && Wakes(w.attached, w.queue[0]) && w'.attached == !w.attached
    requires w'.queue == w.queue[1..] + [Echo(cfg, w.attached)]
    ensures Alive(w') <==> Alive(w)
    ensures !Alive(w) ==> Spent(w')
  {
    var n := |w.queue|;
    assert Wakes(!w'.attached, w'.queue[n - 1]);
    if Alive(w) {
      var i, j :| 0 <= i < j < n && Wakes(w.attached, w.queue[i]) && Wakes(!w.attached, w.queue[j]);
      assert w'.queue[j - 1] == w.queue[j];
      assert Wakes(w'.attached, w'.queue[j - 1]);
    }
    if Alive(w') {
      var i, j :| 0 <= i < j < n && Wakes(w'.attached, w'.queue[i]) && Wakes(!w'.attached, w'.queue[j]);
      assert w'.queue[i] == w.queue[i + 1];
      assert Wakes(!w.attached, w.queue[i + 1]);
    }
    if !Spent(w') {
      var e :| e in w'.queue && Wakes(w'.attached, e);
      var i :| 0 <= i < n && w'.queue[i] == e;
      assert i < n - 1 && w.queue[i + 1] == e;
      assert Alive(w);
    }
  }

  lemma {:induction false} TurnsKeepAlive(cfg: Cfg, w: World, n: nat)
    requires Succeeds(cfg) && Lonely(cfg, w)
    ensures Lonely(cfg, Turns(cfg, w, n)) && (Alive(Turns(cfg, w, n)) <==> Alive(w))
  {
    hide Turn, Lonely, Alive, Succeeds;
    Positive(cfg);
    if n > 0 {
      TurnsKeepAlive(cfg, w, n - 1);
      TurnKeepsAlive(cfg, Turns(cfg, w, n - 1));
    }
  }

  /** By the time a waking event at place `i` has been handled, the watcher has called again. */
  lemma {:induction false} WakesBy(cfg: Cfg, w: World, i: nat) returns (n: nat)
    requires Succeeds(cfg) && Lonely(cfg, w) && i < |w.queue| && Wakes(w.attached, w.queue[i])
    ensures n <= i + 1 && |Turns(cfg, w, n).writes| > |w.writes|
    decreases i
  {
    hide Turn, Turns, Lonely, Succeeds;
    Positive(cfg);
    LonelyTurn(cfg, w);
    if Wakes(w.attached, w.queue[0]) {
      n := 1;
      OneTurn(cfg, w);
    } else {
      n := WakesBy(cfg, Turn(cfg, w), i - 1);
      TurnsShift(cfg, w, n);
      n := n + 1;
    }
  }

  lemma {:induction false} TurnsAdd(cfg: Cfg, w: World, m: nat, n: nat)
    requires cfg.poll > 0
    ensures Turns(cfg, Turns(cfg, w, m), n) == Turns(cfg, w, m + n)
  {
    hide Turn;
    if n > 0 {
      TurnsAdd(cfg, w, m, n - 1);
    }
  }

  lemma {:induction false} AliveReaches(cfg: Cfg, w: World, b: nat) returns (n: nat)
    requires Succeeds(cfg) && Lonely(cfg, w) && Alive(w)
    ensures |Turns(cfg, w, n).writes| >= b
    decreases b - |w.writes|
  {
    n := 0;
    if |w.writes| < b {
      var i, j :| 0 <= i < j < |w.queue| && Wakes(w.attached, w.queue[i]) && Wakes(!w.attached, w.queue[j]);
      hide *;
      Positive(cfg);
      var m := WakesBy(cfg, w, i);
      TurnsKeepAlive(cfg, w, m);
      n := AliveReaches(cfg, Turns(cfg, w, m), b);
      TurnsAdd(cfg, w, m, n);
      n := m + n;
    }
  }

  lemma LaterTurn(cfg: Cfg, w: World, n: nat)
    requires cfg.poll > 0
    ensures Turns(cfg, w, n) == if n == 0 then w else Turns(cfg, Turn(cfg, w), n - 1)
  {
    hide Turn;
    if n > 0 {
      TurnsShift(cfg, w, n - 1);
    }
  }

  lemma {:induction false} SpentWritesNothing(cfg: Cfg, w: World, n: nat)
    requires Succeeds(cfg) && Lonely(cfg, w) && Spent(w)
    ensures Turns(cfg, w, n).writes == w.writes
    decreases n
  {
    hide Turn, Turns, Lonely, Succeeds;
    Positive(cfg);
    LaterTurn(cfg, w, n);
    if n > 0 {
      LonelyTurn(cfg, w);
      assert w.queue != [] ==> w.queue[0] in w.queue;
      var w' := Turn(cfg, w);
      assert forall e | e in w'.queue :: e in w.queue;
      SpentWritesNothing(cfg, w', n - 1);
    }
  }

  /** Once a turn has called, nothing in the queue wakes the watcher any more. */
  lemma DeadTurn(cfg: Cfg, w: World)
    requires Succeeds(cfg) && Lonely(cfg, w) && !Alive(w)
    ensures var w' := Turn(cfg, w);
            && Lonely(cfg, w') && !Alive(w')
            && (w'.writes == w.writes || (Spent(w') && |w'.writes| <= |w.writes| + Round(cfg)))
  {
    LonelyTurn(cfg, w);
    TurnKeepsAlive(cfg, w);
    hide Turn, Lonely, Succeeds, Alive, Round;
    if w.queue != [] && Wakes(w.attached, w.queue[0]) {
      TurnedOver(cfg, w, Turn(cfg, w));
    }
  }

  lemma {:induction false} DeadWritesOneRound(cfg: Cfg, w: World, n: nat)
    requires Succeeds(cfg) && Lonely(cfg, w) && !Alive(w)
    ensures |Turns(cfg, w, n).writes| <= |w.writes| + Round(cfg)
    decreases n
  {
    hide *;
    Positive(cfg);
    LaterTurn(cfg, w, n);
    if n > 0 {
      DeadTurn(cfg, w);
      var w' := Turn(cfg, w);
      if w'.writes == w.writes {
        DeadWritesOneRound(cfg, w', n - 1);
      } else {
        SpentWritesNothing(cfg, w', n - 1);
      }
    }
  }

  lemma BoundedIsNotForever(cfg: Cfg, w: World, b: nat)
    requires cfg.poll > 0 && forall n: nat :: |Turns(cfg, w, n).writes| <= b
    ensures !WritesForever(cfg, w)
  {
    hide Turns;
    assert !WritesReach(cfg, w, b + 1);
  }

  /**
   On a network where nobody else is left, the watcher releases and reattaches the
   follower forever exactly when the queue holds an event that wakes it and, behind
   it, one that wakes it in its other state; otherwise it acts once more at most.
   */
  lemma LonelyEchoes(cfg: Cfg, w: World)
    requires Succeeds(cfg) && Lonely(cfg, w)
    ensures cfg.poll > 0 && (WritesForever(cfg, w) <==> Alive(w))
    ensures !Alive(w) ==> forall n: nat :: |Turns(cfg, w, n).writes| <= |w.writes| + Round(cfg)
  {
    hide Turns, Lonely, Succeeds, Alive, Round;
    Positive(cfg);
    if Alive(w) {
      forall b: nat
        ensures WritesReach(cfg, w, b)
      {
        var n := AliveReaches(cfg, w, b);
      }
    } else {
      forall n: nat
        ensures |Turns(cfg, w, n).writes| <= |w.writes| + Round(cfg)
      {
        DeadWritesOneRound(cfg, w, n);
      }
      BoundedIsNotForever(cfg, w, |w.writes| + Round(cfg));
    }
  }

  function Id(c: char): (id: string)
    ensures |id| == 64
  {
    seq(64, _ => c)
  }

  /** The moves of the next lemma: the last other container leaves, and one more comes and goes. */
  function OneShot(n: nat): seq<Move> {
    if n == 3 then [Leave(Id('x'))] else if n == 7 then [Join(Id('y')), Leave(Id('y'))] else []
  }

  /**
   And that is reached from a good start, with no call failing: the target's last
   container leaves, the follower is released, and before its own disconnect event has
   been read one container joins and leaves again.
   */
  lemma OneShotEchoesForever() returns (cfg: Cfg, w: World, b: World)
    ensures Succeeds(cfg) && Regular(cfg, w) && w.attached && !w.parked && w.queue == []
    ensures b == Bootstrapped(cfg, w).(queue := []) && Inv(cfg, b)
    ensures Lonely(cfg, Turns(cfg, b, 2)) && WritesForever(cfg, b)
  {
    cfg := Cfg(Id('f'), OneShot, _ => false, _ => None, _ => true, _ => false, 0, 1, 1, 1, 1);
    assert Id('f')[0] == 'f' && Id('x')[0] == 'x' && Id('y')[0] == 'y';
    NothingFailsSucceeds(cfg);
    w := World({Id('x')}, true, [], 0, false, [], true);
    b := w.(clock := 3);
    OneShotBootstraps(cfg, w);
    var c := OneShotReleases(cfg, b);
    var d := OneShotJoins(cfg, c);
    hide *;
    TwoTurns(cfg, b);
    LonelyEchoes(cfg, d);
    ForeverFromLater(cfg, b, 2);
  }

  lemma TwoTurns(cfg: Cfg, w: World)
    requires cfg.poll > 0
    ensures Turns(cfg, w, 2) == Turn(cfg, Turn(cfg, w))
  {
    OneTurn(cfg, w);
    hide Turn;
  }

  lemma ForeverFromLater(cfg: Cfg, w: World, m: nat)
    requires cfg.poll > 0 && WritesForever(cfg, Turns(cfg, w, m))
    ensures WritesForever(cfg, w)
  {
    hide Turns;
    forall b: nat
      ensures WritesReach(cfg, w, b)
    {
      assert WritesReach(cfg, Turns(cfg, w, m), b);
      var n: nat :| |Turns(cfg, Turns(cfg, w, m), n).writes| >= b;
      TurnsAdd(cfg, w, m, n);
      assert |Turns(cfg, w, m + n).writes| >= b;
    }
  }

  lemma StillTick(cfg: Cfg, w: World)
    requires cfg.moves(w.clock) == []
    ensures Tick(cfg, w) == w.(clock := w.clock + 1)
  {
  }

  lemma OneShotBootstraps(cfg: Cfg, w: World)
    requires cfg.moves == OneShot && w.clock == 0 && w.attached && cfg.found(1)
    requires !cfg.fails(0) && !cfg.fails(1) && !cfg.fails(2)
    ensures Bootstrapped(cfg, w) == w.(clock := 3)
  {
    StillTick(cfg, w);
    StillTick(cfg, w.(clock := 1));
    StillTick(cfg, w.(clock := 2));
    hide Tick, Reattached;
  }

  lemma OneShotReleases(cfg: Cfg, w: World) returns (c: World)
    requires Succeeds(cfg) && cfg.moves == OneShot
    requires w == World({Id('x')}, true, [], 3, false, [], true)
    ensures c == Turn(cfg, w)
    ensures c == World({}, false, [Disconnect(cfg.follower)], 7, true, [DisconnectCall], true)
  {
    c := Turn(cfg, w);
    assert [Leave(Id('x'))][..0] == [];
    assert Moved(cfg, w, [Leave(Id('x'))]) == Moved1(cfg, w, Leave(Id('x')));
    var w0 := World({}, true, [], 4, false, [], true);
    assert Tick(cfg, w) == w0.(queue := [Disconnect(Id('x'))]);
    StillTick(cfg, w0);
    StillTick(cfg, w0.(clock := 5));
    StillTick(cfg, w0.(clock := 6));
    assert !cfg.fails(4) && !cfg.fails(5) && cfg.found(5) && !cfg.fails(6);
    hide Tick, Connecting, Truthful;
    assert Membership(cfg, w0) == (w0.(clock := 6), Some(Members(true, {})));
  }

  lemma OneShotJoins(cfg: Cfg, w: World) returns (d: World)
    requires Succeeds(cfg) && cfg.moves == OneShot && cfg.follower != Id('y')
    requires w == World({}, false, [Disconnect(cfg.follower)], 7, true, [DisconnectCall], true)
    ensures d == Turn(cfg, w) && Lonely(cfg, d) && Alive(d)
  {
    d := Turn(cfg, w);
    var y := Id('y');
    var joined := w.(foreign := {y}, queue := w.queue + [Connect(y)]);
    assert [Join(y), Leave(y)][..1] == [Join(y)] && [Join(y)][..0] == [];
    assert Moved(cfg, w, [Join(y)]) == Moved1(cfg, w, Join(y)) == joined;
    assert Moved(cfg, w, [Join(y), Leave(y)]) == Moved1(cfg, joined, Leave(y));
    assert Tick(cfg, w) == w.(queue := [Disconnect(cfg.follower), Connect(y), Disconnect(y)], clock := 8);
    hide Tick, Connecting, Truthful;
    assert d.queue == [Connect(y), Disconnect(y)];
    assert Wakes(d.attached, d.queue[0]) && Wakes(!d.attached, d.queue[1]);
  }

  // ---- when the pairing breaks ---------------------------------------------------------------------

  /** A reattach that takes the follower off and does not get it back on. */
  predicate ReattachLoses(cfg: Cfg, w: World) {
    var w1 := Tick(cfg, w);
    var w2 := Tick(cfg, w1);
    var w3 := Tick(cfg, w2).(writes := w2.writes + [DisconnectCall]);
    && !cfg.fails(w.clock) && !cfg.fails(w1.clock) && cfg.found(w1.clock) && !cfg.fails(w2.clock)
    && !Connecting(cfg, Detached(cfg, w3), 1).1
  }

  lemma ReattachedPaired(cfg: Cfg, w: World)
    requires Truthful(cfg) && Paired(w)
    ensures Paired(Reattached(cfg, w)) <==> w.parked || !ReattachLoses(cfg, w)
  {
    var w1 := Tick(cfg, w);
    var w2 := Tick(cfg, w1);
    var w3 := Tick(cfg, w2).(writes := w2.writes + [DisconnectCall]);
    EnvTick(cfg, w);
    EnvTick(cfg, w1);
    EnvTick(cfg, w2);
    ConnectingEnds(cfg, Detached(cfg, w3), 1);
    ConnectingEnds(cfg, w3, 1);
    hide Tick, Connecting;
  }

  /** A create event while attached, whose reattach fails at the connect. */
  predicate LosesFollower(cfg: Cfg, w: World)
    requires cfg.poll > 0 && w.queue != []
  {
    w.queue[0].Create? && !w.parked &&
    var (w1, o) := Settled(cfg, w.(queue := w.queue[1..]));
    (o.Ready? || o.TimedOut?) && ReattachLoses(cfg, w1)
  }

  /** A disconnect event while attached, when the container list does not show the follower. */
  predicate MissesFollower(cfg: Cfg, w: World)
    requires w.queue != []
  {
    w.queue[0].Disconnect? && !w.parked && !cfg.fails(w.clock) && !cfg.fails(w.clock + 1) && !cfg.found(w.clock + 1)
  }

  lemma ParkingPaired(cfg: Cfg, w: World)
    requires Paired(w)
    ensures Paired(Parking(cfg, w)) <==>
            w.parked || cfg.fails(w.clock) || cfg.fails(w.clock + 1) || cfg.found(w.clock + 1)
  {
    var w1 := Tick(cfg, w);
    EnvTick(cfg, w);
    EnvTick(cfg, w1);
    EnvTick(cfg, Tick(cfg, w1));
    hide Tick;
  }

  /** A destroy event while attached: it parks the watcher, whatever the follower is. */
  predicate ParksAttached(w: World)
    requires w.queue != []
  {
    w.queue[0].Destroy? && w.attached
  }

  /** However its calls fail, an event keeps attached and parked opposite except in exactly these three ways. */
  lemma PairingLostExactly(cfg: Cfg, w: World)
    requires ValidCfg(cfg) && Truthful(cfg) && Paired(w) && w.queue != []
    ensures Paired(Handled(cfg, w)) <==> !LosesFollower(cfg, w) && !MissesFollower(cfg, w) && !ParksAttached(w)
  {
    var w0 := w.(queue := w.queue[1..]);
    match w.queue[0]
    case Disconnect(_) =>
      ParkingPaired(cfg, w0);
      hide Parking;
    case Create =>
      var w1 := Settled(cfg, w0).0;
      EnvSettled(cfg, w0);
      ReattachedPaired(cfg, w1);
      hide Settled, Reattached, ReattachLoses;
    case Connect(_) =>
      var w1 := Settled(cfg, w0).0;
      EnvSettled(cfg, w0);
      ReattachedPaired(cfg, w1);
      hide Settled, Reattached, ReattachLoses;
    case Destroy =>
    case OtherNetwork =>
  }

  // ---- startup ---------------------------------------------------------------------------------------

  /**
   After a startup check whose calls succeed the follower is attached; the run starts
   well exactly if, when the event stream is opened, somebody else is there or nobody
   has been since the follower was attached. (What happened before is in no queue.)
   */
  lemma BootstrapStartsWell(cfg: Cfg, w: World)
    requires Succeeds(cfg) && Regular(cfg, w) && !w.parked
    ensures var b := Bootstrapped(cfg, w).(queue := []);
            b.attached && !b.parked && (Inv(cfg, b) <==> b.foreign != {} || !b.seen)
  {
    var w1 := Tick(cfg, w);
    var w2 := Tick(cfg, w1);
    var w3 := Tick(cfg, w2);
    EnvTick(cfg, w);
    EnvTick(cfg, w1);
    EnvTick(cfg, w2);
    RegularTick(cfg, w, w1);
    RegularTick(cfg, w1, w2);
    RegularTick(cfg, w2, w3);
    ReattachedEnds(cfg, w3);
    assert !cfg.fails(w.clock) && !cfg.fails(w1.clock) && cfg.found(w1.clock) && !cfg.fails(w2.clock);
    hide Tick, Reattached, Connecting, Succeeds;
  }
}
