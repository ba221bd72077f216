/** How long the rebinder waits for the target stack to settle, and how often it tries to connect. */
module Settle {
  import opened GoStrings
  import opened Rebinder

  // ---- durations in whole polls ------------------------------------------------

  function CeilDiv(a: int, b: int): int
    requires b > 0
  {
    (a + b - 1) / b
  }

  lemma CeilDivBounds(a: int, b: int)
    requires b > 0
    ensures (CeilDiv(a, b) - 1) * b < a <= CeilDiv(a, b) * b
  {
    var q := (a + b - 1) / b;
    assert a + b - 1 == q * b + (a + b - 1) % b;
    assert q * b - b == (q - 1) * b;
  }

  /** `n` polls reach a duration exactly from the rounded-up quotient on. */
  lemma ReachesFrom(n: int, poll: int, duration: int)
    requires poll > 0
    ensures n * poll >= duration <==> n >= CeilDiv(duration, poll)
  {
    var q := CeilDiv(duration, poll);
    CeilDivBounds(duration, poll);
    if n >= q {
      Monotone(q, n, poll);
    } else {
      Monotone(n, q - 1, poll);
    }
  }

  lemma Monotone(a: int, b: int, c: int)
    requires a <= b && c > 0
    ensures a * c <= b * c
  {
  }

  /** `n` polls take this long. */
  function Polls(cfg: Cfg, n: int): int {
    n * cfg.poll
  }

  lemma PollsNext(cfg: Cfg, n: int)
    ensures Polls(cfg, n + 1) == Polls(cfg, n) + cfg.poll && Polls(cfg, 0) == 0
  {
  }

  /** Equal readings needed after the first one. */
  function Quota(cfg: Cfg): (q: int)
    requires cfg.poll > 0
    ensures q >= 1
  {
    if CeilDiv(cfg.quiet, cfg.poll) < 1 then 1 else CeilDiv(cfg.quiet, cfg.poll)
  }

  /** The index of the last probe there is time for. */
  function Budget(cfg: Cfg): (m: int)
    requires cfg.poll > 0
    ensures m >= 0
  {
    if CeilDiv(cfg.maxWait, cfg.poll) < 0 then 0 else CeilDiv(cfg.maxWait, cfg.poll)
  }

  /** Quota and Budget in time: the fewest readings that last `quiet`, the fewest polls that last `maxWait`. */
  lemma QuotaAndBudgetExactly(cfg: Cfg, n: int)
    requires cfg.poll > 0
    ensures n == Quota(cfg) <==> n >= 1 && n * cfg.poll >= cfg.quiet && (n == 1 || (n - 1) * cfg.poll < cfg.quiet)
    ensures n == Budget(cfg) <==> n >= 0 && n * cfg.poll >= cfg.maxWait && (n == 0 || (n - 1) * cfg.poll < cfg.maxWait)
  {
    ReachesFrom(n, cfg.poll, cfg.quiet);
    ReachesFrom(n - 1, cfg.poll, cfg.quiet);
    ReachesFrom(n, cfg.poll, cfg.maxWait);
    ReachesFrom(n - 1, cfg.poll, cfg.maxWait);
    hide CeilDiv;
  }

  // ---- the probes, one by one -----------------------------------------------------

  /** The world before probe `j`. */
  function ProbeWorld(cfg: Cfg, w: World, j: nat): World {
    if j == 0 then w else Membership(cfg, ProbeWorld(cfg, w, j - 1)).0
  }

  /** The number of other endpoints that probe `j` counts; None when it cannot read them. */
  function Probe(cfg: Cfg, w: World, j: nat): Option<nat> {
    var m := Membership(cfg, ProbeWorld(cfg, w, j)).1;
    if m.None? then None else Some(|m.value.foreign|)
  }

  /** Probe `j` ends a run of Quota + 1 equal positive counts. */
  ghost predicate ReadyAt(cfg: Cfg, w: World, j: nat)
    requires cfg.poll > 0
  {
    && j >= Quota(cfg) && Probe(cfg, w, j).Some? && Probe(cfg, w, j).value > 0
    && forall k: nat | j - Quota(cfg) <= k <= j :: Probe(cfg, w, k) == Probe(cfg, w, j)
  }

  ghost predicate EndsAt(cfg: Cfg, w: World, j: nat)
    requires cfg.poll > 0
  {
    Probe(cfg, w, j).None? || ReadyAt(cfg, w, j) || j >= Budget(cfg) || cfg.cancelled(ProbeWorld(cfg, w, j + 1).clock)
  }

  ghost function Verdict(cfg: Cfg, w: World, j: nat): Outcome
    requires cfg.poll > 0
  {
    if Probe(cfg, w, j).None? then Aborted
    else if ReadyAt(cfg, w, j) then Ready
    else if j >= Budget(cfg) then TimedOut
    else Cancelled
  }

  /** The last `r` + 1 of the first `j` counts are equal to `last`, and no more than that. */
  ghost predicate RunOf(cfg: Cfg, w: World, j: nat, last: int, r: nat)
    requires cfg.poll > 0
  {
    if j == 0 then last == -1 && r == 0
    else
      && r < j && r < Quota(cfg) && (r > 0 ==> last > 0)
      && (forall k: nat | j - 1 - r <= k < j :: Probe(cfg, w, k) == Some(last))
      && (r == j - 1 || last == 0 || Probe(cfg, w, j - 2 - r) != Some(last))
  }

  /** The loop's variables after `j` probes. */
  ghost predicate Counting(cfg: Cfg, w: World, j: nat, last: int, stable: int, elapsed: int, r: nat)
    requires cfg.poll > 0
  {
    elapsed == Polls(cfg, j) && stable == Polls(cfg, r) && RunOf(cfg, w, j, last, r)
  }

  /** Readiness, seen from the loop's variables. */
  lemma ReadyFromRun(cfg: Cfg, w: World, j: nat, last: int, stable: int, elapsed: int, r: nat)
    requires cfg.poll > 0 && Counting(cfg, w, j, last, stable, elapsed, r) && Probe(cfg, w, j).Some?
    ensures var c := Probe(cfg, w, j).value;
            ReadyAt(cfg, w, j) <==> c > 0 && c == last && r + 1 >= Quota(cfg)
  {
    var c, q := Probe(cfg, w, j).value, Quota(cfg);
    hide Probe;
    if ReadyAt(cfg, w, j) {
      assert Probe(cfg, w, j - 1) == Some(c);
    }
  }

  lemma CountingStep(cfg: Cfg, w: World, j: nat, last: int, stable: int, elapsed: int, r: nat) returns (r': nat)
    requires cfg.poll > 0 && Counting(cfg, w, j, last, stable, elapsed, r)
    requires Probe(cfg, w, j).Some? && !ReadyAt(cfg, w, j)
    ensures var c := Probe(cfg, w, j).value;
            Counting(cfg, w, j + 1, c, if c > 0 && c == last then stable + cfg.poll else 0, elapsed + cfg.poll, r')
  {
    var c := Probe(cfg, w, j).value;
    ReadyFromRun(cfg, w, j, last, stable, elapsed, r);
    PollsNext(cfg, j);
    PollsNext(cfg, r);
    hide RunOf, Probe, ReadyAt, Polls, Quota;
    if c > 0 && c == last {
      r' := r + 1;
      RunGoesOn(cfg, w, j, c, r);
    } else {
      r' := 0;
      RunStarts(cfg, w, j, last, c, r);
    }
  }

  lemma RunStarts(cfg: Cfg, w: World, j: nat, last: int, c: int, r: nat)
    requires cfg.poll > 0 && RunOf(cfg, w, j, last, r) && Probe(cfg, w, j) == Some(c) && !(c > 0 && c == last) && c >= 0
    ensures RunOf(cfg, w, j + 1, c, 0)
  {
    hide Probe, Quota;
    if j > 0 {
      assert Probe(cfg, w, j - 1) == Some(last);
    }
  }

  lemma RunGoesOn(cfg: Cfg, w: World, j: nat, c: int, r: nat)
    requires cfg.poll > 0 && RunOf(cfg, w, j, c, r) && Probe(cfg, w, j) == Some(c) && c > 0 && r + 1 < Quota(cfg)
    ensures RunOf(cfg, w, j + 1, c, r + 1)
  {
    hide Probe, Quota;
  }

  lemma {:induction false} SettleFromExact(cfg: Cfg, w: World, j: nat, last: int, stable: int, elapsed: int, r: nat)
    returns (e: nat)
    requires cfg.poll > 0 && Counting(cfg, w, j, last, stable, elapsed, r) && j <= Budget(cfg)
    ensures j <= e <= Budget(cfg) && EndsAt(cfg, w, e) && forall i: nat | j <= i < e :: !EndsAt(cfg, w, i)
    ensures SettleFrom(cfg, ProbeWorld(cfg, w, j), last, stable, elapsed) ==
            (ProbeWorld(cfg, w, e + 1), Verdict(cfg, w, e))
    decreases Budget(cfg) - j
  {
    hide *;
    e := j;
    EndsOrGoesOn(cfg, w, j, last, stable, elapsed, r);
    if !EndsAt(cfg, w, j) {
      var c := Probe(cfg, w, j).value;
      var r' := CountingStep(cfg, w, j, last, stable, elapsed, r);
      var stable' := if c > 0 && c == last then stable + cfg.poll else 0;
      e := SettleFromExact(cfg, w, j + 1, c, stable', elapsed + cfg.poll, r');
    }
  }

  lemma EndsOrGoesOn(cfg: Cfg, w: World, j: nat, last: int, stable: int, elapsed: int, r: nat)
    requires cfg.poll > 0 && Counting(cfg, w, j, last, stable, elapsed, r) && j <= Budget(cfg)
    ensures EndsAt(cfg, w, j) ==>
              SettleFrom(cfg, ProbeWorld(cfg, w, j), last, stable, elapsed) ==
              (ProbeWorld(cfg, w, j + 1), Verdict(cfg, w, j))
    ensures !EndsAt(cfg, w, j) ==>
              && Probe(cfg, w, j).Some? && !ReadyAt(cfg, w, j) && j < Budget(cfg)
              && var c := Probe(cfg, w, j).value;
                 SettleFrom(cfg, ProbeWorld(cfg, w, j), last, stable, elapsed) ==
                 var stable' := if c > 0 && c == last then stable + cfg.poll else 0;
                 SettleFrom(cfg, ProbeWorld(cfg, w, j + 1), c, stable', elapsed + cfg.poll)
  {
    CountedSoFar(cfg, w, j, last, stable, elapsed, r);
    SettleStep(cfg, w, j, last, stable, elapsed);
    TimeIsUp(cfg, j, elapsed);
    QuietLongEnough(cfg, w, j, last, stable, elapsed, r);
    if Probe(cfg, w, j).Some? {
      ReadyFromRun(cfg, w, j, last, stable, elapsed, r);
    }
    hide ReadyAt, Counting, Probe, ProbeWorld, SettleFrom, Budget, Quota;
  }

  lemma CountedSoFar(cfg: Cfg, w: World, j: nat, last: int, stable: int, elapsed: int, r: nat)
    requires cfg.poll > 0 && Counting(cfg, w, j, last, stable, elapsed, r)
    ensures elapsed == Polls(cfg, j)
  {
  }

  /** The loop body once, in terms of the probes. */
  lemma SettleStep(cfg: Cfg, w: World, j: nat, last: int, stable: int, elapsed: int)
    requires cfg.poll > 0
    ensures SettleFrom(cfg, ProbeWorld(cfg, w, j), last, stable, elapsed) ==
            var next := ProbeWorld(cfg, w, j + 1);
            if Probe(cfg, w, j).None? then (next, Aborted)
            else
              var c := Probe(cfg, w, j).value;
              var same := c > 0 && c == last;
              var stable' := if same then stable + cfg.poll else 0;
              if same && stable' >= cfg.quiet then (next, Ready)
              else if elapsed >= cfg.maxWait then (next, TimedOut)
              else if cfg.cancelled(next.clock) then (next, Cancelled)
              else SettleFrom(cfg, next, c, stable', elapsed + cfg.poll)
  {
    hide Membership;
    assert ProbeWorld(cfg, w, j + 1) == Membership(cfg, ProbeWorld(cfg, w, j)).0;
  }

  lemma QuietLongEnough(cfg: Cfg, w: World, j: nat, last: int, stable: int, elapsed: int, r: nat)
    requires cfg.poll > 0 && Counting(cfg, w, j, last, stable, elapsed, r)
    ensures stable + cfg.poll >= cfg.quiet <==> r + 1 >= Quota(cfg)
  {
    ReachesFrom(r + 1, cfg.poll, cfg.quiet);
    PollsNext(cfg, r);
    hide Probe;
  }

  lemma TimeIsUp(cfg: Cfg, j: nat, elapsed: int)
    requires cfg.poll > 0 && elapsed == Polls(cfg, j)
    ensures elapsed >= cfg.maxWait <==> j >= Budget(cfg)
  {
    ReachesFrom(j, cfg.poll, cfg.maxWait);
  }

  /**
   waitForSettle ends at the first probe that cannot read, completes a quiet run, or
   uses up the time (or at a cancellation), after at most Budget + 1 probes, and says
   which of them it was; `e` is that probe.
   */
  lemma SettleExact(cfg: Cfg, w: World) returns (e: nat)
    requires cfg.poll > 0 && !(cfg.backoff > 0 && cfg.cancelled(w.clock))
    ensures e <= Budget(cfg) && EndsAt(cfg, w, e) && forall i: nat | i < e :: !EndsAt(cfg, w, i)
    ensures Settled(cfg, w) == (ProbeWorld(cfg, w, e + 1), Verdict(cfg, w, e))
  {
    PollsNext(cfg, 0);
    e := SettleFromExact(cfg, w, 0, -1, 0, 0, 0);
    assert ProbeWorld(cfg, w, 0) == w;
  }

  /**
   The readings from `j - q` to `j` count the same endpoints, at least one; they take `quiet`,
   and the reading before the last is taken before the time is up.
   */
  ghost predicate QuietRun(cfg: Cfg, w: World, j: nat, q: nat) {
    && 1 <= q <= j && q * cfg.poll >= cfg.quiet && (j - 1) * cfg.poll < cfg.maxWait
    && Probe(cfg, w, j).Some? && Probe(cfg, w, j).value > 0
    && forall k: nat | j - q <= k <= j :: Probe(cfg, w, k) == Probe(cfg, w, j)
  }

  lemma ReadyIsQuietRun(cfg: Cfg, w: World, j: nat)
    requires cfg.poll > 0
    ensures j <= Budget(cfg) && ReadyAt(cfg, w, j) ==> QuietRun(cfg, w, j, Quota(cfg))
    ensures (exists q: nat :: QuietRun(cfg, w, j, q)) ==> j <= Budget(cfg) && ReadyAt(cfg, w, j)
  {
    ReachesFrom(Quota(cfg), cfg.poll, cfg.quiet);
    ReachesFrom(j - 1, cfg.poll, cfg.maxWait);
    hide Probe, CeilDiv;
    if q: nat :| QuietRun(cfg, w, j, q) {
      ReachesFrom(q, cfg.poll, cfg.quiet);
    }
  }

  /**
   With every probe readable and no cancellation: ready exactly when some such run ends in
   time, otherwise timed out.
   */
  lemma ReadyExactly(cfg: Cfg, w: World)
    requires cfg.poll > 0 && forall n: nat :: !cfg.fails(n) && !cfg.cancelled(n)
    ensures Settled(cfg, w).1.Ready? <==> exists j: nat, q: nat :: QuietRun(cfg, w, j, q)
    ensures Settled(cfg, w).1.Ready? || Settled(cfg, w).1.TimedOut?
  {
    var e := SettleExact(cfg, w);
    assert Probe(cfg, w, e).Some?;
    ReadyIsQuietRun(cfg, w, e);
    hide Settled, ReadyAt, Probe, ProbeWorld, QuietRun;
    if j: nat, q: nat :| QuietRun(cfg, w, j, q) {
      ReadyIsQuietRun(cfg, w, j);
      assert EndsAt(cfg, w, j);
      assert e <= j;
    }
  }

  // ---- connect attempts ---------------------------------------------------------------

  /** The world before attempt `i` (counted from 1), with a collision and a pause between any two. */
  function AttemptWorld(cfg: Cfg, w: World, i: nat): World
    requires i >= 1
  {
    if i == 1 then w else Tick(cfg, Tried(cfg, AttemptWorld(cfg, w, i - 1)))
  }

  function Tried(cfg: Cfg, w: World): World {
    Tick(cfg, w).(writes := w.writes + [ConnectCall])
  }

  /** Attempt `i` collides on the address and is followed by another. */
  predicate Retried(cfg: Cfg, w: World, i: nat)
    requires i >= 1
  {
    var a := AttemptWorld(cfg, w, i);
    var err := cfg.connectErr(a.clock);
    && err.Some? && !IsAlreadyConnected(err.value) && IsAddressInUse(err.value)
    && i < cfg.connectAttempts && !cfg.cancelled(Tried(cfg, a).clock)
  }

  predicate Accepted(cfg: Cfg, w: World, i: nat)
    requires i >= 1
  {
    var err := cfg.connectErr(AttemptWorld(cfg, w, i).clock);
    err.None? || IsAlreadyConnected(err.value)
  }

  /** connectWithRetry ends at the first attempt that is not retried, and succeeds if that one is accepted. */
  lemma {:induction false} ConnectExact(cfg: Cfg, w: World, i: nat) returns (e: nat)
    requires 1 <= i && (i == 1 || i <= cfg.connectAttempts)
    ensures i <= e && (e == 1 || e <= cfg.connectAttempts)
    ensures !Retried(cfg, w, e) && forall k: nat | i <= k < e :: Retried(cfg, w, k)
    ensures Connecting(cfg, AttemptWorld(cfg, w, i), i).1 <==> Accepted(cfg, w, e)
    ensures Connecting(cfg, AttemptWorld(cfg, w, i), i).0 ==
            if cfg.connectErr(AttemptWorld(cfg, w, e).clock).None?
              then Attached(cfg, Tried(cfg, AttemptWorld(cfg, w, e)))
            else Tried(cfg, AttemptWorld(cfg, w, e))
    decreases if i < cfg.connectAttempts then cfg.connectAttempts - i else 0
  {
    e := i;
    hide IsAlreadyConnected, IsAddressInUse, Tick, Attached;
    if Retried(cfg, w, i) {
      e := ConnectExact(cfg, w, i + 1);
      assert AttemptWorld(cfg, w, i + 1) == Tick(cfg, Tried(cfg, AttemptWorld(cfg, w, i)));
    }
  }

  // ---- which errors are retried, by their text ---------------------------------------------

  /** Docker's texts for an address collision, in any letter case. */
  predicate AddressTaken(err: string) {
    || Mentions(err, "address already in use") || Mentions(err, "address is in use")
    || Mentions(err, "no available ipv4 addresses")
  }

  /** And for an endpoint that is there already. */
  predicate AlreadyThere(err: string) {
    Mentions(err, "already exists") || (Mentions(err, "endpoint with name") && Mentions(err, "exists"))
  }

  lemma AddressInUseExactly(err: string)
    ensures IsAddressInUse(err) <==> AddressTaken(err)
  {
    hide Contains, Mentions, ToLower;
    ContainsExactly(err, "address already in use");
    ContainsExactly(err, "address is in use");
    ContainsExactly(err, "no available ipv4 addresses");
  }

  lemma AlreadyConnectedExactly(err: string)
    ensures IsAlreadyConnected(err) <==> AlreadyThere(err)
  {
    hide Contains, Mentions, ToLower;
    ContainsExactly(err, "already exists");
    ContainsExactly(err, "endpoint with name");
    ContainsExactly(err, "exists");
  }

  predicate Collides(err: Option<string>) {
    err.Some? && AddressTaken(err.value) && !AlreadyThere(err.value)
  }

  /** The calls made in between are `n` connects. */
  predicate Connects(before: seq<Write>, after: seq<Write>, n: nat) {
    |after| == |before| + n && before <= after && forall i | |before| <= i < |after| :: after[i] == ConnectCall
  }

  lemma ConnectsAdd(a: seq<Write>, b: seq<Write>, c: seq<Write>, m: nat, n: nat)
    requires Connects(a, b, m) && Connects(b, c, n)
    ensures Connects(a, c, m + n)
  {
    forall i | |a| <= i < |b|
      ensures c[i] == ConnectCall
    {
      assert b[i] == c[i];
    }
  }

  /** The world in which the next attempt is made. */
  function AfterCollision(cfg: Cfg, w: World): World {
    Tick(cfg, Tried(cfg, w))
  }

  lemma AfterCollisionSame(cfg: Cfg, w: World)
    ensures var next := AfterCollision(cfg, w);
            && next.clock == w.clock + 2 && Connects(w.writes, next.writes, 1)
            && (next.attached <==> w.attached) && (next.parked <==> w.parked)
  {
    EnvTick(cfg, w);
    EnvTick(cfg, Tried(cfg, w));
    hide Tick;
  }

  /** One attempt, by the text of its error. */
  lemma ConnectingOnce(cfg: Cfg, w: World, attempt: nat)
    ensures var err := cfg.connectErr(w.clock);
            var (w', ok) := Connecting(cfg, w, attempt);
            if Collides(err) && attempt < cfg.connectAttempts && !cfg.cancelled(w.clock + 1)
              then (w', ok) == Connecting(cfg, AfterCollision(cfg, w), attempt + 1)
            else
              && (ok <==> err.None? || AlreadyThere(err.value))
              && (w'.attached <==> w.attached || err.None?)
              && Connects(w.writes, w'.writes, 1) && w'.parked == w.parked
  {
    hide IsAlreadyConnected, IsAddressInUse, AddressTaken, AlreadyThere, Tick, Env;
    CalledOnce(cfg, w);
    var err := cfg.connectErr(w.clock);
    if err.Some? {
      AddressInUseExactly(err.value);
      AlreadyConnectedExactly(err.value);
    }
  }

  lemma CalledOnce(cfg: Cfg, w: World)
    ensures var w1 := Tried(cfg, w);
            && w1.clock == w.clock + 1 && w1.attached == w.attached && w1.parked == w.parked
            && Connects(w.writes, w1.writes, 1)
  {
    EnvTick(cfg, w);
    hide Tick;
  }

  /**
   connectWithRetry by the texts alone. After `c` collisions, fewer than the attempts there
   are, the next call decides when it is no collision, is the last attempt, or the wait
   after it is cancelled: it succeeds without an error or when the endpoint was there
   already, and there are c + 1 calls in all.
   */
  lemma {:induction false} CollisionsAreRetried(cfg: Cfg, w: World, attempt: nat, c: nat)
    requires c == 0 || attempt + c <= cfg.connectAttempts
    requires forall i: nat | i < c :: Collides(cfg.connectErr(w.clock + 2 * i)) && !cfg.cancelled(w.clock + 2 * i + 1)
    requires Collides(cfg.connectErr(w.clock + 2 * c)) ==>
               attempt + c >= cfg.connectAttempts || cfg.cancelled(w.clock + 2 * c + 1)
    ensures var (w', ok) := Connecting(cfg, w, attempt);
            var err := cfg.connectErr(w.clock + 2 * c);
            && (ok <==> err.None? || AlreadyThere(err.value))
            && (w'.attached <==> w.attached || err.None?)
            && Connects(w.writes, w'.writes, c + 1)
            && w'.parked == w.parked
    decreases c
  {
    ConnectingOnce(cfg, w, attempt);
    AfterCollisionSame(cfg, w);
    hide *;
    if c > 0 {
      assert Collides(cfg.connectErr(w.clock + 2 * 0)) && !cfg.cancelled(w.clock + 2 * 0 + 1);
      var next := AfterCollision(cfg, w);
      forall i: nat | i < c - 1
        ensures Collides(cfg.connectErr(next.clock + 2 * i)) && !cfg.cancelled(next.clock + 2 * i + 1)
      {
        assert next.clock + 2 * i == w.clock + 2 * (i + 1);
      }
      assert next.clock + 2 * (c - 1) == w.clock + 2 * c;
      CollisionsAreRetried(cfg, next, attempt + 1, c - 1);
      ConnectsAdd(w.writes, next.writes, Connecting(cfg, next, attempt + 1).0.writes, 1, c);
    }
  }

  // ---- what a step does, by the calls that fail -----------------------------------------------

  /**
   maybePark: the calls it makes and what becomes of the follower. The read of the network
   at the call numbered `clock` decides; it is released only when nobody else is there.
   */
  lemma ParkingExactly(cfg: Cfg, w: World)
    ensures var p := Parking(cfg, w);
            var readable := !w.parked && !cfg.fails(w.clock) && !cfg.fails(w.clock + 1);
            var releases := readable && cfg.found(w.clock + 1) && w.attached && Tick(cfg, w).foreign == {};
            var released := releases && !cfg.fails(w.clock + 2);
            && p.writes == w.writes + (if releases then [DisconnectCall] else [])
            && (p.attached <==> w.attached && !released)
            && (p.parked <==> w.parked || (readable && !(w.attached && cfg.found(w.clock + 1))) || released)
  {
    var w1 := Tick(cfg, w);
    var w2 := Tick(cfg, w1);
    EnvTick(cfg, w);
    EnvTick(cfg, w1);
    EnvTick(cfg, w2);
    hide Tick;
  }

  /** The three calls before the first connect. */
  function BeforeConnect(cfg: Cfg, w: World): World {
    var w3 := Tick(cfg, Tick(cfg, Tick(cfg, w))).(writes := w.writes + [DisconnectCall]);
    if cfg.fails(w.clock + 2) then w3 else Detached(cfg, w3)
  }

  lemma ReattachedSteps(cfg: Cfg, w: World)
    ensures var d := BeforeConnect(cfg, w);
            && d.clock == w.clock + 3 && d.writes == w.writes + [DisconnectCall] && d.parked == w.parked
            && (d.attached <==> w.attached && cfg.fails(w.clock + 2))
            && if cfg.fails(w.clock) || cfg.fails(w.clock + 1) || !cfg.found(w.clock + 1)
               then
                 var r := Reattached(cfg, w);
                 r.writes == w.writes && r.attached == w.attached && r.parked == w.parked
               else
                 var (w', ok) := Connecting(cfg, d, 1);
                 Reattached(cfg, w) == if ok then w'.(parked := false) else w'
  {
    var w1 := Tick(cfg, w);
    var w2 := Tick(cfg, w1);
    EnvTick(cfg, w);
    EnvTick(cfg, w1);
    EnvTick(cfg, w2);
    hide Tick, Connecting;
  }

  /**
   reattach: unless a read fails or the follower is not found, one disconnect and then, after
   `c` collisions, c + 1 connects; the follower is back when the last one is accepted.
   */
  lemma ReattachedExactly(cfg: Cfg, w: World, c: nat)
    requires c == 0 || c < cfg.connectAttempts
    requires forall i: nat | i < c ::
               Collides(cfg.connectErr(w.clock + 3 + 2 * i)) && !cfg.cancelled(w.clock + 3 + 2 * i + 1)
    requires Collides(cfg.connectErr(w.clock + 3 + 2 * c)) ==>
               c + 1 >= cfg.connectAttempts || cfg.cancelled(w.clock + 3 + 2 * c + 1)
    ensures var r := Reattached(cfg, w);
            var err := cfg.connectErr(w.clock + 3 + 2 * c);
            var tries := !cfg.fails(w.clock) && !cfg.fails(w.clock + 1) && cfg.found(w.clock + 1);
            var ok := tries && (err.None? || AlreadyThere(err.value));
            && (if tries then Connects(w.writes + [DisconnectCall], r.writes, c + 1) else r.writes == w.writes)
            && (r.attached <==>
                if tries then err.None? || (w.attached && cfg.fails(w.clock + 2)) else w.attached)
            && (r.parked <==> w.parked && !ok)
  {
    ReattachedSteps(cfg, w);
    var d := BeforeConnect(cfg, w);
    hide *;
    CollisionsAreRetried(cfg, d, 1, c);
  }

  /** The startup check reattaches exactly when everything is readable and the follower is not on the network. */
  lemma BootstrappedExactly(cfg: Cfg, w: World)
    ensures var b := Bootstrapped(cfg, w);
            if cfg.fails(w.clock) || cfg.fails(w.clock + 1) || !cfg.found(w.clock + 1) || cfg.fails(w.clock + 2) ||
               w.attached
              then b.writes == w.writes && b.attached == w.attached && b.parked == w.parked
            else b == Reattached(cfg, Tick(cfg, Tick(cfg, Tick(cfg, w))))
  {
    var w1 := Tick(cfg, w);
    var w2 := Tick(cfg, w1);
    EnvTick(cfg, w);
    EnvTick(cfg, w1);
    EnvTick(cfg, w2);
    hide Tick, Reattached;
  }

  /**
   A create event, or a connect event while parked, waits for the network to settle before
   any call: with an unreadable probe or a cancellation nothing is called, and otherwise the
   reattach starts at the world that the last probe `e` left.
   */
  lemma SettlesFirst(cfg: Cfg, w: World) returns (e: nat)
    requires cfg.poll > 0 && w.queue != [] && (w.queue[0].Create? || (w.queue[0].Connect? && w.parked))
    ensures var w0 := w.(queue := w.queue[1..]);
            var after := ProbeWorld(cfg, w0, e + 1);
            && after.writes == w.writes && after.attached == w.attached && after.parked == w.parked
            && if cfg.backoff > 0 && cfg.cancelled(w.clock) then Handled(cfg, w) == w0
               else
                 && EndsAt(cfg, w0, e) && (forall i: nat | i < e :: !EndsAt(cfg, w0, i))
                 && Handled(cfg, w) ==
                    if Verdict(cfg, w0, e).Ready? || Verdict(cfg, w0, e).TimedOut? then Reattached(cfg, after)
                    else after
  {
    var w0 := w.(queue := w.queue[1..]);
    e := 0;
    WakingSettles(cfg, w);
    if !(cfg.backoff > 0 && cfg.cancelled(w.clock)) {
      e := SettleExact(cfg, w0);
    }
    ProbesKeep(cfg, w0, e + 1);
    hide *;
  }

  lemma WakingSettles(cfg: Cfg, w: World)
    requires cfg.poll > 0 && w.queue != [] && (w.queue[0].Create? || (w.queue[0].Connect? && w.parked))
    ensures var w0 := w.(queue := w.queue[1..]);
            var (w1, o) := Settled(cfg, w0);
            && Handled(cfg, w) == (if o.Ready? || o.TimedOut? then Reattached(cfg, w1) else w1)
            && (cfg.backoff > 0 && cfg.cancelled(w.clock) ==> w1 == w0 && o.Cancelled?)
  {
    hide SettleFrom, Reattached;
    var w0 := w.(queue := w.queue[1..]);
    var (w1, o) := Settled(cfg, w0);
    assert Handled(cfg, w) == SettledAndReattached(cfg, w0);
    assert o.Ready? || o.TimedOut? || o.Aborted? || o.Cancelled?;
  }

  /** Probing changes nothing but what others do meanwhile. */
  lemma {:induction false} ProbesKeep(cfg: Cfg, w: World, j: nat)
    ensures var after := ProbeWorld(cfg, w, j);
            after.writes == w.writes && after.attached == w.attached && after.parked == w.parked
  {
    hide Membership;
    if j > 0 {
      ProbesKeep(cfg, w, j - 1);
      EnvMembership(cfg, ProbeWorld(cfg, w, j - 1));
    }
  }

  /** One connect call per attempt. */
  lemma {:induction false} AttemptWrites(cfg: Cfg, w: World, i: nat)
    requires i >= 1
    ensures |AttemptWorld(cfg, w, i).writes| == |w.writes| + i - 1 && w.writes <= AttemptWorld(cfg, w, i).writes
    ensures forall k | |w.writes| <= k < |AttemptWorld(cfg, w, i).writes| ::
            AttemptWorld(cfg, w, i).writes[k].ConnectCall?
  {
    if i > 1 {
      var before := AttemptWorld(cfg, w, i - 1);
      AttemptWrites(cfg, w, i - 1);
      EnvTick(cfg, before);
      EnvTick(cfg, Tried(cfg, before));
      hide Tick;
    }
  }
}
