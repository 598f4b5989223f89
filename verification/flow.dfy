// What decides whether a torrent may move data, and the tick that turns the
// switches and stops torrents at their seed limit (internal/engine/snapshot.go,
// seedlimit.go, and tick in engine.go). Rates and ratios are reals.
module Flow {
  import opened TrackedRecord

  type Id = string

  //  stats         the present instance's counters
  //  lastStats     what they were at the last tick
  //  down, up      the instance's two switches
  datatype Torrent = Torrent(
    paused: bool, hold: bool, downLimit: int, upLimit: int, downRate: real, upRate: real,
    base: Bytes, stats: Bytes, lastStats: Bytes, total: nat, completed: nat,
    seedRatio: real, seedTime: int, completedAt: nat, down: bool, up: bool)

  datatype Guards = Guards(vpnBlocked: bool, lowDisk: bool) {
    predicate Any() { vpnBlocked || lowDisk }
  }

  datatype Switches = Switches(down: bool, up: bool)

  const OFF := Switches(false, false)

  //  now is 0 only before any torrent: 0 stands for "not completed"
  datatype Config = Config(requireVPN: bool, minFree: int, seedRatio: real, seedTime: int)

  const TICK_INTERVAL := 1.0

  function DataFlow(t: Torrent, g: Guards): Switches {
    if t.paused || g.Any() || t.hold then OFF
    else Switches(t.downLimit <= 0 || t.downRate <= t.downLimit as real,
                  t.upLimit <= 0 || t.upRate <= t.upLimit as real)
  }

  function Applied(t: Torrent, s: Switches): Torrent {
    t.(down := s.down, up := s.up)
  }

  // A speed is never negative, whatever the counters did.
  function Speed(now: nat, before: nat, elapsed: real): real
    requires elapsed > 0.0
  {
    var bps := (now - before) as real / elapsed;
    if bps < 0.0 then 0.0 else bps
  }

  function Rated(t: Torrent, elapsed: real): Torrent {
    if elapsed <= 0.0 then t
    else t.(downRate := Speed(t.stats.down, t.lastStats.down, elapsed),
            upRate := Speed(t.stats.up, t.lastStats.up, elapsed), lastStats := t.stats)
  }

  predicate Complete(t: Torrent) {
    t.total > 0 && t.completed >= t.total
  }

  predicate StartsClock(t: Torrent) {
    t.completedAt == 0 && Complete(t)
  }

  function Marked(t: Torrent, now: nat): Torrent {
    if StartsClock(t) then t.(completedAt := now) else t
  }

  // The ratio a snapshot reports; None is infinite.
  datatype Ratio = Finite(value: real) | Infinite

  function RatioOf(t: Torrent): Ratio {
    var moved := t.base.Plus(t.stats);
    if moved.down > 0 then Finite(moved.up as real / moved.down as real)
    else if moved.up > 0 then Infinite
    else Finite(0.0)
  }

  predicate AtLeast(r: Ratio, limit: real) {
    r.Infinite? || r.value >= limit
  }

  // A torrent's limits: zero asks for the default, negative for none, and
  // none is zero in the result.
  function SeedRatioFor(t: Torrent, cfg: Config): real {
    var r := if t.seedRatio != 0.0 then t.seedRatio else cfg.seedRatio;
    if r < 0.0 then 0.0 else r
  }

  function SeedTimeFor(t: Torrent, cfg: Config): int {
    var d := if t.seedTime != 0 then t.seedTime else cfg.seedTime;
    if d < 0 then 0 else d
  }

  datatype Why = NotReached | ByRatio | ByTime

  function SeedLimitReached(t: Torrent, now: nat, cfg: Config): Why {
    if t.paused || !Complete(t) then NotReached
    else if SeedRatioFor(t, cfg) > 0.0 && AtLeast(RatioOf(t), SeedRatioFor(t, cfg)) then ByRatio
    else if SeedTimeFor(t, cfg) > 0 && t.completedAt != 0 && now - t.completedAt >= SeedTimeFor(t, cfg) then ByTime
    else NotReached
  }

  function Stopped(t: Torrent, g: Guards): Torrent {
    Applied(t.(paused := true), DataFlow(t.(paused := true), g))
  }

  // One torrent across a whole tick.
  function Ticked(t: Torrent, g: Guards, elapsed: real, now: nat, cfg: Config): Torrent {
    var rated := Rated(t, elapsed);
    var marked := Marked(rated, now);
    var switched := Applied(marked, DataFlow(rated, g));
    if SeedLimitReached(marked, now, cfg) != NotReached then Stopped(switched, g) else switched
  }

  predicate StopsAt(t: Torrent, elapsed: real, now: nat, cfg: Config) {
    SeedLimitReached(Marked(Rated(t, elapsed), now), now, cfg) != NotReached
  }

  function ElapsedSince(last: int, now: nat): real {
    if now <= last then TICK_INTERVAL else (now - last) as real
  }

  class Engine {
    const cfg: Config
    var torrents: map<Id, Torrent>
    var guards: Guards
    var lastTick: int
    var saves: nat

    constructor (cfg: Config)
      ensures this.cfg == cfg && torrents == map[] && guards == Guards(false, false)
    {
      this.cfg := cfg;
      torrents, guards, lastTick, saves := map[], Guards(false, false), 0, 0;
    }

    method RefreshVPN(active: bool)
      modifies this`guards
      ensures guards == if cfg.requireVPN then old(guards).(vpnBlocked := !active) else old(guards)
    {
      if !cfg.requireVPN {
        return;
      }
      guards := guards.(vpnBlocked := !active);
    }

    // `free` is negative when the file system could not be read, which
    // leaves the last verdict in place.
    method RefreshDisk(free: int)
      modifies this`guards
      ensures guards == if cfg.minFree <= 0 || free < 0 then old(guards)
                else old(guards).(lowDisk := free < cfg.minFree)
    {
      if cfg.minFree <= 0 || free < 0 {
        return;
      }
      guards := guards.(lowDisk := free < cfg.minFree);
    }

    // The decision is made with the change, and applied to the switches.
    method SetPaused(id: Id, paused: bool) returns (found: bool)
      modifies this`torrents, this`saves
      ensures found <==> id in old(torrents)
      ensures !found ==> torrents == old(torrents)
      ensures found ==> var t := old(torrents)[id].(paused := paused);
                        torrents == old(torrents)[id := Applied(t, DataFlow(t, guards))] && saves == old(saves) + 1
      ensures found && paused ==> !torrents[id].down && !torrents[id].up
    {
      found := id in torrents;
      if found {
        torrents := torrents[id := torrents[id].(paused := paused)];
        var s := DataFlow(torrents[id], guards);
        torrents := torrents[id := Applied(torrents[id], s)];
        saves := saves + 1;
      }
    }

    // First pass of a tick: rates, and what the switches should be.
    method RateAll(elapsed: real) returns (flows: map<Id, Switches>)
      modifies this`torrents
      ensures torrents.Keys == old(torrents).Keys == flows.Keys
      ensures forall id | id in torrents :: torrents[id] == Rated(old(torrents)[id], elapsed)
      ensures forall id | id in torrents :: flows[id] == DataFlow(torrents[id], guards)
    {
      flows := map[];
      var todo := torrents.Keys;
      while todo != {}
        invariant todo <= torrents.Keys == old(torrents).Keys
        invariant flows.Keys == torrents.Keys - todo
        invariant forall id | id in todo :: torrents[id] == old(torrents)[id]
        invariant forall id | id in flows ::
                    torrents[id] == Rated(old(torrents)[id], elapsed) && flows[id] == DataFlow(torrents[id], guards)
      {
        var id :| id in todo;
        torrents := torrents[id := Rated(torrents[id], elapsed)];
        flows := flows[id := DataFlow(torrents[id], guards)];
        todo := todo - {id};
      }
    }

    // Second pass: the seeding clocks, and the torrents that have met a limit.
    method MarkAll(now: nat) returns (stop: set<Id>, clockStarted: bool)
      modifies this`torrents
      ensures torrents.Keys == old(torrents).Keys
      ensures forall id | id in torrents :: torrents[id] == Marked(old(torrents)[id], now)
      ensures forall id :: id in stop <==> id in torrents && SeedLimitReached(torrents[id], now, cfg) != NotReached
      ensures clockStarted <==> exists id :: id in old(torrents) && StartsClock(old(torrents)[id])
    {
      stop, clockStarted := {}, false;
      var todo := torrents.Keys;
      while todo != {}
        invariant todo <= torrents.Keys == old(torrents).Keys
        invariant forall id | id in todo :: torrents[id] == old(torrents)[id]
        invariant forall id | id in torrents && id !in todo :: torrents[id] == Marked(old(torrents)[id], now)
        invariant forall id :: id in stop <==>
                    id in torrents && id !in todo && SeedLimitReached(torrents[id], now, cfg) != NotReached
        invariant clockStarted <==> exists id :: id in torrents && id !in todo && StartsClock(old(torrents)[id])
      {
        var id :| id in todo;
        if StartsClock(torrents[id]) {
          clockStarted := true;
        }
        torrents := torrents[id := Marked(torrents[id], now)];
        if SeedLimitReached(torrents[id], now, cfg) != NotReached {
          stop := stop + {id};
        }
        todo := todo - {id};
      }
    }

    method ApplyAll(flows: map<Id, Switches>)
      requires flows.Keys <= torrents.Keys
      modifies this`torrents
      ensures torrents.Keys == old(torrents).Keys
      ensures forall id | id in torrents :: torrents[id] ==
                if id in flows then Applied(old(torrents)[id], flows[id]) else old(torrents)[id]
    {
      var todo := flows.Keys;
      while todo != {}
        invariant todo <= flows.Keys <= torrents.Keys == old(torrents).Keys
        invariant forall id | id in torrents :: torrents[id] ==
                    if id in flows && id !in todo then Applied(old(torrents)[id], flows[id]) else old(torrents)[id]
      {
        var id :| id in todo;
        torrents := torrents[id := Applied(torrents[id], flows[id])];
        todo := todo - {id};
      }
    }

    method StopAll(stop: set<Id>)
      requires stop <= torrents.Keys
      modifies this`torrents, this`saves
      ensures torrents.Keys == old(torrents).Keys
      ensures forall id | id in torrents :: torrents[id] ==
                if id in stop then Stopped(old(torrents)[id], guards) else old(torrents)[id]
      ensures saves == old(saves) + |stop|
    {
      var todo := stop;
      while todo != {}
        invariant saves == old(saves) + |stop| - |todo|
        invariant todo <= stop <= torrents.Keys == old(torrents).Keys
        invariant forall id | id in torrents :: torrents[id] ==
                    if id in stop && id !in todo then Stopped(old(torrents)[id], guards) else old(torrents)[id]
      {
        var id :| id in todo;
        var _ := SetPaused(id, true);
        todo := todo - {id};
      }
    }

    // A tick with nothing in between its parts. It writes the session once
    // for each torrent it stops, and once if it starts a seeding clock.
    method Tick(now: nat, vpnActive: bool, free: int) returns (stop: set<Id>, clockStarted: bool)
      modifies this
      ensures var elapsed := ElapsedSince(old(lastTick), now);
              && torrents.Keys == old(torrents).Keys
              && forall id | id in torrents :: torrents[id] == Ticked(old(torrents)[id], guards, elapsed, now, cfg)
      ensures forall id :: id in stop <==>
                id in torrents && StopsAt(old(torrents)[id], ElapsedSince(old(lastTick), now), now, cfg)
      ensures clockStarted <==> exists id :: id in old(torrents) && StartsClock(old(torrents)[id])
      ensures saves == old(saves) + |stop| + if clockStarted then 1 else 0
      ensures lastTick == now
      ensures guards.vpnBlocked == (if cfg.requireVPN then !vpnActive else old(guards).vpnBlocked)
      ensures guards.lowDisk == (if cfg.minFree <= 0 || free < 0 then old(guards).lowDisk else free < cfg.minFree)
    {
      RefreshVPN(vpnActive);
      RefreshDisk(free);
      var elapsed := ElapsedSince(lastTick, now);
      lastTick := now;
      stop, clockStarted := TickTorrents(elapsed, now);
    }

    // The part of a tick under the engine lock.
    method Decide(elapsed: real, now: nat) returns (flows: map<Id, Switches>, stop: set<Id>, clockStarted: bool)
      modifies this`torrents
      ensures torrents.Keys == old(torrents).Keys == flows.Keys
      ensures forall id | id in torrents ::
                && torrents[id] == Marked(Rated(old(torrents)[id], elapsed), now)
                && flows[id] == DataFlow(Rated(old(torrents)[id], elapsed), guards)
      ensures forall id :: id in stop <==> id in torrents && StopsAt(old(torrents)[id], elapsed, now, cfg)
      ensures clockStarted <==> exists id :: id in old(torrents) && StartsClock(old(torrents)[id])
    {
      flows := RateAll(elapsed);
      stop, clockStarted := MarkAll(now);
    }

    // The part after it.
    method Act(flows: map<Id, Switches>, stop: set<Id>, clockStarted: bool)
      requires flows.Keys == torrents.Keys && stop <= torrents.Keys
      modifies this`torrents, this`saves
      ensures torrents.Keys == old(torrents).Keys
      ensures forall id | id in torrents ::
                var switched := Applied(old(torrents)[id], flows[id]);
                torrents[id] == if id in stop then Stopped(switched, guards) else switched
      ensures saves == old(saves) + |stop| + if clockStarted then 1 else 0
    {
      if clockStarted {
        saves := saves + 1;
      }
      ApplyAll(flows);
      StopAll(stop);
    }

    method TickTorrents(elapsed: real, now: nat) returns (stop: set<Id>, clockStarted: bool)
      modifies this`torrents, this`saves
      ensures torrents.Keys == old(torrents).Keys
      ensures forall id | id in torrents :: torrents[id] == Ticked(old(torrents)[id], guards, elapsed, now, cfg)
      ensures forall id :: id in stop <==> id in torrents && StopsAt(old(torrents)[id], elapsed, now, cfg)
      ensures clockStarted <==> exists id :: id in old(torrents) && StartsClock(old(torrents)[id])
      ensures saves == old(saves) + |stop| + if clockStarted then 1 else 0
    {
      var flows;
      flows, stop, clockStarted := Decide(elapsed, now);
      Act(flows, stop, clockStarted);
      forall id | id in torrents
        ensures torrents[id] == Ticked(old(torrents)[id], guards, elapsed, now, cfg)
      {
        TickedInParts(old(torrents)[id], guards, elapsed, now, cfg);
      }
    }
  }

  // The passes of a tick, put together for one torrent.
  lemma TickedInParts(t: Torrent, g: Guards, elapsed: real, now: nat, cfg: Config)
    ensures var switched := Applied(Marked(Rated(t, elapsed), now), DataFlow(Rated(t, elapsed), g));
            Ticked(t, g, elapsed, now, cfg) == if StopsAt(t, elapsed, now, cfg) then Stopped(switched, g) else switched
  {
  }

  // ------------------------------------------------------------------
  // What a tick guarantees
  // ------------------------------------------------------------------

  // Whatever the switches were, after a tick they are what the torrent's
  // own final state asks for, a torrent that tick stopped included.
  lemma TickSettlesSwitches(t: Torrent, g: Guards, elapsed: real, now: nat, cfg: Config)
    ensures var r := Ticked(t, g, elapsed, now, cfg); Switches(r.down, r.up) == DataFlow(r, g)
  {
  }

  // The limit of one direction lets it go on: there is none, or what has been
  // moved since the last tick is at most that much a second.
  predicate Under(limit: int, now: nat, before: nat, elapsed: real) {
    limit <= 0 || (now - before) as real <= limit as real * elapsed
  }

  // Exactly when a tick leaves each switch on: the torrent is not paused when
  // the tick is over, nothing holds it, neither the VPN nor the disk, and that
  // direction is under its own limit.
  lemma SwitchesExactly(t: Torrent, g: Guards, elapsed: real, now: nat, cfg: Config)
    requires elapsed > 0.0
    ensures var r := Ticked(t, g, elapsed, now, cfg);
            var may := !r.paused && !t.hold && !g.vpnBlocked && !g.lowDisk;
            && (r.down <==> may && Under(t.downLimit, t.stats.down, t.lastStats.down, elapsed))
            && (r.up <==> may && Under(t.upLimit, t.stats.up, t.lastStats.up, elapsed))
  {
    SpeedUnder(t.downLimit, t.stats.down, t.lastStats.down, elapsed);
    SpeedUnder(t.upLimit, t.stats.up, t.lastStats.up, elapsed);
    TickedInParts(t, g, elapsed, now, cfg);
  }

  lemma SpeedUnder(limit: int, now: nat, before: nat, elapsed: real)
    requires elapsed > 0.0
    ensures limit <= 0 || Speed(now, before, elapsed) <= limit as real <==> Under(limit, now, before, elapsed)
  {
    if limit > 0 {
      QuotientAtMost((now - before) as real, elapsed, limit as real);
    }
  }

  // The time a tick divides by is what has passed since the last one, so that
  // of ticks in a row adds up to the whole; where the clock has not gone on it
  // is a tick's interval, and never nothing.
  lemma ElapsedAddsUp(first: int, a: nat, b: nat)
    requires first < a < b
    ensures ElapsedSince(first, a) + ElapsedSince(a, b) == ElapsedSince(first, b) == (b - first) as real > 0.0
    ensures ElapsedSince(b, a) == ElapsedSince(a, a) == TICK_INTERVAL > 0.0
  {
  }

  // The guards never reach the pause flag, nor anything else but the
  // switches: two ticks under different guards differ in those alone.
  lemma GuardsTouchSwitchesOnly(t: Torrent, g: Guards, h: Guards, elapsed: real, now: nat, cfg: Config)
    ensures Applied(Ticked(t, g, elapsed, now, cfg), OFF) == Applied(Ticked(t, h, elapsed, now, cfg), OFF)
    ensures Ticked(t, g, elapsed, now, cfg).paused == (t.paused || StopsAt(t, elapsed, now, cfg))
    ensures g.Any() ==> !Ticked(t, g, elapsed, now, cfg).down && !Ticked(t, g, elapsed, now, cfg).up
  {
  }

  lemma SwitchesForgotten(t: Torrent, s: Switches, g: Guards, elapsed: real, now: nat, cfg: Config)
    ensures Ticked(Applied(t, s), g, elapsed, now, cfg) == Ticked(t, g, elapsed, now, cfg)
  {
    var rated := Rated(t, elapsed);
    var marked := Marked(rated, now);
    assert Rated(Applied(t, s), elapsed) == Applied(rated, s);
    assert Marked(Applied(rated, s), now) == Applied(marked, s);
    VerdictsIgnoreSwitches(rated, s, g, now, cfg);
    VerdictsIgnoreSwitches(marked, s, g, now, cfg);
  }

  lemma VerdictsIgnoreSwitches(t: Torrent, s: Switches, g: Guards, now: nat, cfg: Config)
    ensures SeedLimitReached(Applied(t, s), now, cfg) == SeedLimitReached(t, now, cfg)
    ensures DataFlow(Applied(t, s), g) == DataFlow(t, g)
  {
  }

  // When the guards let go, the torrent runs again as if they had never
  // held it: nothing had to be remembered.
  lemma GuardsLetGo(t: Torrent, held: Guards, free: Guards, elapsed: real, now: nat, later: nat, cfg: Config)
    ensures Ticked(Ticked(t, held, elapsed, now, cfg), free, elapsed, later, cfg)
         == Ticked(Ticked(t, free, elapsed, now, cfg), free, elapsed, later, cfg)
  {
    var a, b := Ticked(t, held, elapsed, now, cfg), Ticked(t, free, elapsed, now, cfg);
    GuardsTouchSwitchesOnly(t, held, free, elapsed, now, cfg);
    SwitchesForgotten(a, OFF, free, elapsed, later, cfg);
    SwitchesForgotten(b, OFF, free, elapsed, later, cfg);
  }

  // A torrent a tick stopped is not stopped again by any later one; and a
  // tick that follows at once stops none at all.
  lemma StopsOnce(t: Torrent, g: Guards, elapsed: real, now: nat, cfg: Config, later: nat, elapsed': real, cfg': Config)
    ensures var r := Ticked(t, g, elapsed, now, cfg);
            && (StopsAt(t, elapsed, now, cfg) ==> !StopsAt(r, elapsed', later, cfg'))
            && !StopsAt(r, elapsed', now, cfg)
  {
    var r := Ticked(t, g, elapsed, now, cfg);
    var marked := Marked(Rated(t, elapsed), now);
    TickedInParts(t, g, elapsed, now, cfg);
    LimitsIgnoreRates(r, elapsed', later, cfg');
    LimitsIgnoreRates(r, elapsed', now, cfg);
    if !StopsAt(t, elapsed, now, cfg) {
      VerdictsIgnoreSwitches(marked, Switches(r.down, r.up), g, now, cfg);
      assert Marked(r, now) == r;
    }
  }

  lemma LimitsIgnoreRates(t: Torrent, elapsed: real, now: nat, cfg: Config)
    ensures StopsAt(t, elapsed, now, cfg) <==> SeedLimitReached(Marked(t, now), now, cfg) != NotReached
  {
  }

  // It has uploaded `limit` times what it downloaded; having downloaded
  // nothing, anything at all.
  predicate GivenBack(t: Torrent, limit: real) {
    if t.base.down + t.stats.down == 0 then t.base.up + t.stats.up > 0
    else (t.base.up + t.stats.up) as real >= limit * (t.base.down + t.stats.down) as real
  }

  // Exactly when a torrent is stopped: it has finished, is not paused, and
  // has given back the ratio or the time its own limit asks for, or the
  // default's when it has none of its own.
  lemma StoppedExactly(t: Torrent, elapsed: real, now: nat, cfg: Config)
    ensures var ratio := if t.seedRatio == 0.0 then cfg.seedRatio else t.seedRatio;
            var time := if t.seedTime == 0 then cfg.seedTime else t.seedTime;
            StopsAt(t, elapsed, now, cfg) <==>
              && !t.paused && t.total > 0 && t.completed >= t.total
              && ((ratio > 0.0 && GivenBack(t, ratio))
                    || (time > 0 && t.completedAt > 0 && now >= t.completedAt + time))
  {
    LimitsIgnoreRates(t, elapsed, now, cfg);
    ReachedExactly(Marked(t, now), now, cfg);
    RatioMet(t, cfg);
  }

  // And which of the two it is told to be: the ratio goes first.
  lemma WhyExactly(t: Torrent, now: nat, cfg: Config)
    ensures var ratio := if t.seedRatio == 0.0 then cfg.seedRatio else t.seedRatio;
            var time := if t.seedTime == 0 then cfg.seedTime else t.seedTime;
            var seeding := !t.paused && t.total > 0 && t.completed >= t.total;
            var given := ratio > 0.0 && GivenBack(t, ratio);
            && (SeedLimitReached(t, now, cfg) == ByRatio <==> seeding && given)
            && (SeedLimitReached(t, now, cfg) == ByTime <==>
                seeding && !given && time > 0 && t.completedAt > 0 && now >= t.completedAt + time)
  {
    RatioMet(t, cfg);
  }

  lemma ReachedExactly(t: Torrent, now: nat, cfg: Config)
    ensures SeedLimitReached(t, now, cfg) != NotReached <==>
              && !t.paused && Complete(t)
              && ((SeedRatioFor(t, cfg) > 0.0 && AtLeast(RatioOf(t), SeedRatioFor(t, cfg)))
                  || (SeedTimeFor(t, cfg) > 0 && t.completedAt != 0 && now - t.completedAt >= SeedTimeFor(t, cfg)))
  {
  }

  lemma RatioMet(t: Torrent, cfg: Config)
    ensures var ratio := if t.seedRatio == 0.0 then cfg.seedRatio else t.seedRatio;
            SeedRatioFor(t, cfg) > 0.0 && AtLeast(RatioOf(t), SeedRatioFor(t, cfg)) <==>
            ratio > 0.0 && GivenBack(t, ratio)
  {
    if SeedRatioFor(t, cfg) > 0.0 {
      RatioAtLeast(t, SeedRatioFor(t, cfg));
    }
  }

  lemma RatioAtLeast(t: Torrent, limit: real)
    requires limit > 0.0
    ensures AtLeast(RatioOf(t), limit) <==> GivenBack(t, limit)
  {
    var moved := t.base.Plus(t.stats);
    if moved.down > 0 {
      QuotientAtLeast(moved.up as real, moved.down as real, limit);
    }
  }

  lemma QuotientAtLeast(u: real, d: real, ratio: real)
    requires d > 0.0
    ensures u / d >= ratio <==> u >= ratio * d
  {
    assert u == (u / d) * d;
    if u / d >= ratio {
      assert (u / d - ratio) * d >= 0.0;
    } else {
      assert (ratio - u / d) * d > 0.0;
    }
  }

  // The seeding clock starts once, at the first tick that sees the torrent
  // finished, and no tick moves it again.
  lemma ClockStartsOnce(t: Torrent, g: Guards, elapsed: real, now: nat, cfg: Config)
    requires now > 0
    ensures var r := Ticked(t, g, elapsed, now, cfg);
            && (t.completedAt != 0 ==> r.completedAt == t.completedAt)
            && (t.completedAt == 0 ==> r.completedAt == if t.total > 0 && t.completed >= t.total then now else 0)
  {
  }

  // A torrent over its cap is held by the next tick, and let go by the one
  // after when nothing has arrived in between.
  lemma CapIsBursty(t: Torrent, elapsed: real, now: nat, cfg: Config, later: nat)
    requires elapsed > 0.0 && !t.paused && !t.hold && t.downLimit > 0 && t.stats.down >= t.lastStats.down
    requires !Complete(t)
    ensures var free := Guards(false, false);
            var r := Ticked(t, free, elapsed, now, cfg);
            && (r.down <==> (t.stats.down - t.lastStats.down) as real <= t.downLimit as real * elapsed)
            && Ticked(r, free, elapsed, later, cfg).down
  {
    var moved := (t.stats.down - t.lastStats.down) as real;
    QuotientAtMost(moved, elapsed, t.downLimit as real);
  }

  lemma QuotientAtMost(moved: real, elapsed: real, limit: real)
    requires elapsed > 0.0
    ensures moved / elapsed <= limit <==> moved <= limit * elapsed
  {
    QuotientAtLeast(-moved, elapsed, -limit);
    assert -moved / elapsed == -(moved / elapsed);
  }

  // ------------------------------------------------------------------
  // Whole runs of one torrent
  // ------------------------------------------------------------------

  // What happens to a torrent: a tick under some guards, a user's pause or
  // resume, a hold, and data that the library has moved or verified.
  datatype Happening =
    | ATick(g: Guards, elapsed: real, now: nat, cfg: Config)
    | APause(g: Guards, paused: bool)
    | AHold(hold: bool)
    | Data(stats: Bytes, completed: nat)

  function Happened(t: Torrent, h: Happening): Torrent {
    match h
    case ATick(g, elapsed, now, cfg) => Ticked(t, g, elapsed, now, cfg)
    case APause(g, paused) => Applied(t.(paused := paused), DataFlow(t.(paused := paused), g))
    case AHold(hold) => t.(hold := hold)
    case Data(stats, completed) => t.(stats := stats, completed := completed)
  }

  function Lived(t: Torrent, hs: seq<Happening>): Torrent {
    if hs == [] then t else Happened(Lived(t, hs[..|hs| - 1]), hs[|hs| - 1])
  }

  // The same under other guards.
  function UnderGuards(h: Happening, g: Guards): Happening {
    match h
    case ATick(_, elapsed, now, cfg) => ATick(g, elapsed, now, cfg)
    case APause(_, paused) => APause(g, paused)
    case _ => h
  }

  ghost predicate DifferInGuards(h: Happening, k: Happening) {
    exists g :: k == UnderGuards(h, g)
  }

  // Two runs that differ in the guards alone.
  ghost predicate SameButGuards(a: seq<Happening>, b: seq<Happening>) {
    |a| == |b| && forall i | 0 <= i < |a| :: DifferInGuards(a[i], b[i])
  }

  // Alike but for the switches.
  predicate Alike(a: Torrent, b: Torrent) {
    Applied(a, OFF) == Applied(b, OFF)
  }

  lemma HappenedAlike(a: Torrent, b: Torrent, h: Happening, g: Guards)
    requires Alike(a, b)
    ensures Alike(Happened(a, h), Happened(b, UnderGuards(h, g)))
  {
    assert b == Applied(Applied(a, OFF), Switches(b.down, b.up))
        && a == Applied(Applied(a, OFF), Switches(a.down, a.up));
    match h
    case ATick(held, elapsed, now, cfg) =>
      var off := Applied(a, OFF);
      SwitchesForgotten(off, Switches(a.down, a.up), held, elapsed, now, cfg);
      SwitchesForgotten(off, Switches(b.down, b.up), g, elapsed, now, cfg);
      GuardsTouchSwitchesOnly(off, held, g, elapsed, now, cfg);
    case APause(_, paused) =>
    case AHold(hold) =>
    case Data(stats, completed) =>
  }

  // Over any run the guards decide the switches and nothing else: with
  // other guards, the pause flag and all the rest would be the same.
  lemma {:induction false} GuardsNeverPause(t: Torrent, a: seq<Happening>, b: seq<Happening>)
    requires SameButGuards(a, b)
    ensures Alike(Lived(t, a), Lived(t, b)) && Lived(t, a).paused == Lived(t, b).paused
    decreases |a|
  {
    if a != [] {
      var n := |a| - 1;
      GuardsNeverPause(t, a[..n], b[..n]);
      assert DifferInGuards(a[n], b[n]);
      var g :| b[n] == UnderGuards(a[n], g);
      HappenedAlike(Lived(t, a[..n]), Lived(t, b[..n]), a[n], g);
    }
  }

  // What pauses a torrent: a user, or a tick that finds it at a limit.
  predicate PausesIt(t: Torrent, h: Happening) {
    (h.APause? && h.paused) || (h.ATick? && StopsAt(t, h.elapsed, h.now, h.cfg))
  }

  predicate Resumes(h: Happening) {
    h.APause? && !h.paused
  }

  // The k-th happening paused it, or it was paused to begin with and k is 0;
  // and nobody has resumed it since.
  ghost predicate PausedSince(t: Torrent, hs: seq<Happening>, k: nat) {
    && k <= |hs|
    && (if k == 0 then t.paused else PausesIt(Lived(t, hs[..k - 1]), hs[k - 1]))
    && forall j | k <= j < |hs| :: !Resumes(hs[j])
  }

  ghost predicate HasPause(t: Torrent, hs: seq<Happening>) {
    exists k: nat :: PausedSince(t, hs, k)
  }

  lemma PausedNext(t: Torrent, h: Happening)
    ensures Happened(t, h).paused <==> PausesIt(t, h) || (t.paused && !Resumes(h))
  {
    if h.ATick? {
      GuardsTouchSwitchesOnly(t, h.g, h.g, h.elapsed, h.now, h.cfg);
    }
  }

  // At every point of every run a torrent is paused exactly when a user or
  // a seed limit has paused it and nobody has resumed it since.
  lemma {:induction false} PausedExactly(t: Torrent, hs: seq<Happening>)
    ensures Lived(t, hs).paused <==> HasPause(t, hs)
    decreases |hs|
  {
    if hs == [] {
      assert t.paused ==> PausedSince(t, hs, 0);
    } else {
      var n := |hs| - 1;
      PausedExactly(t, hs[..n]);
      PausedNext(Lived(t, hs[..n]), hs[n]);
      PauseGoesOn(t, hs, n);
    }
  }

  lemma PauseGoesOn(t: Torrent, hs: seq<Happening>, n: nat)
    requires |hs| == n + 1
    ensures HasPause(t, hs) <==> PausesIt(Lived(t, hs[..n]), hs[n]) || (HasPause(t, hs[..n]) && !Resumes(hs[n]))
  {
    if HasPause(t, hs) {
      var k: nat :| PausedSince(t, hs, k);
      if k <= n {
        assert k > 0 ==> hs[..n][..k - 1] == hs[..k - 1];
        assert PausedSince(t, hs[..n], k);
      }
    }
    if HasPause(t, hs[..n]) && !Resumes(hs[n]) {
      var k: nat :| PausedSince(t, hs[..n], k);
      assert k > 0 ==> hs[..n][..k - 1] == hs[..k - 1];
      assert PausedSince(t, hs, k);
    }
    if PausesIt(Lived(t, hs[..n]), hs[n]) {
      assert PausedSince(t, hs, n + 1);
    }
  }

  // Somebody has turned the switches in this run.
  predicate Turned(hs: seq<Happening>) {
    exists k :: 0 <= k < |hs| && (hs[k].ATick? || hs[k].APause?)
  }

  // A tick or a pause that leaves the torrent paused leaves both its
  // switches off.
  lemma PausedIsOff(t: Torrent, h: Happening)
    requires (h.ATick? || h.APause?) && Happened(t, h).paused
    ensures !Happened(t, h).down && !Happened(t, h).up
  {
    if h.ATick? && h.elapsed > 0.0 {
      SwitchesExactly(t, h.g, h.elapsed, h.now, h.cfg);
    }
  }

  // At every point of every run in which anybody turned its switches, a
  // torrent that a user or a seed limit has paused, and nobody has resumed
  // since, has both of them off - whatever ticks, guards, holds and data came
  // in between.
  lemma {:induction false} PausedStaysOff(t: Torrent, hs: seq<Happening>)
    requires HasPause(t, hs) && Turned(hs)
    ensures !Lived(t, hs).down && !Lived(t, hs).up
    decreases |hs|
  {
    PausedExactly(t, hs);
    var n := |hs| - 1;
    if hs[n].ATick? || hs[n].APause? {
      PausedIsOff(Lived(t, hs[..n]), hs[n]);
    } else {
      PausedExactly(t, hs[..n]);
      var k :| 0 <= k < |hs| && (hs[k].ATick? || hs[k].APause?);
      assert hs[..n][k] == hs[k];
      PausedStaysOff(t, hs[..n]);
    }
  }

  // A tick in a run goes by what has been moved and verified, and by the hold,
  // as they are then.
  lemma TickSeesTheLatest(t: Torrent, hs: seq<Happening>, stats: Bytes, completed: nat, hold: bool, g: Guards,
                          elapsed: real, now: nat, cfg: Config)
    requires elapsed > 0.0
    ensures var before := Lived(t, hs);
            var r := Lived(t, hs + [Data(stats, completed)] + [AHold(hold)] + [ATick(g, elapsed, now, cfg)]);
            var may := !r.paused && !hold && !g.vpnBlocked && !g.lowDisk;
            && (r.down <==> may && Under(before.downLimit, stats.down, before.lastStats.down, elapsed))
            && (r.up <==> may && Under(before.upLimit, stats.up, before.lastStats.up, elapsed))
            && r.lastStats == stats && r.completed == completed
  {
    var before := Lived(t, hs);
    LivedOne(t, hs, Data(stats, completed));
    LivedOne(t, hs + [Data(stats, completed)], AHold(hold));
    var seen := before.(stats := stats, completed := completed, hold := hold);
    LivedOne(t, hs + [Data(stats, completed)] + [AHold(hold)], ATick(g, elapsed, now, cfg));
    SwitchesExactly(seen, g, elapsed, now, cfg);
    CountersTaken(seen, g, elapsed, now, cfg);
  }

  lemma LivedOne(t: Torrent, hs: seq<Happening>, h: Happening)
    ensures Lived(t, hs + [h]) == Happened(Lived(t, hs), h)
  {
    assert (hs + [h])[..|hs|] == hs;
  }

  lemma CountersTaken(t: Torrent, g: Guards, elapsed: real, now: nat, cfg: Config)
    requires elapsed > 0.0
    ensures var r := Ticked(t, g, elapsed, now, cfg); r.lastStats == t.stats && r.completed == t.completed
  {
  }

  // A tick that sees the torrent finished, with the clock not running yet.
  predicate StartsItsClock(t: Torrent, h: Happening) {
    h.ATick? && h.now > 0 && StartsClock(Rated(t, h.elapsed))
  }

  lemma ClockNext(t: Torrent, h: Happening)
    ensures Happened(t, h).completedAt == if StartsItsClock(t, h) then h.now else t.completedAt
  {
    if h.ATick? {
      TickedInParts(t, h.g, h.elapsed, h.now, h.cfg);
    }
  }

  // At which happenings the clock starts, or would if it did not run.
  function Starts(t: Torrent, hs: seq<Happening>): (r: seq<bool>)
    ensures |r| == |hs|
  {
    if hs == [] then []
    else
      var n := |hs| - 1;
      Starts(t, hs[..n]) + [StartsItsClock(Lived(t, hs[..n]), hs[n])]
  }

  predicate First(starts: seq<bool>, k: nat) {
    k < |starts| && starts[k] && forall j | 0 <= j < k :: !starts[j]
  }

  // The clock's time by what has happened: that of the first tick to start
  // it, or 0 if none has.
  ghost predicate ClockIs(starts: seq<bool>, hs: seq<Happening>, at: nat)
    requires |starts| == |hs|
  {
    if at == 0 then true !in starts else exists k: nat :: First(starts, k) && hs[k].ATick? && hs[k].now == at
  }

  lemma ClockGoesOn(starts: seq<bool>, hs: seq<Happening>, at: nat, h: Happening, b: bool)
    requires |starts| == |hs| && ClockIs(starts, hs, at) && (at != 0 ==> !b) && (b ==> h.ATick? && h.now > 0)
    ensures ClockIs(starts + [b], hs + [h], if b then h.now else at)
  {
    if at != 0 {
      var k: nat :| First(starts, k) && hs[k].ATick? && hs[k].now == at;
      assert First(starts + [b], k);
    } else if b {
      assert First(starts + [b], |starts|);
    }
  }

  // Over any run the clock is started at most once, by the first tick that
  // sees the torrent finished, and its time is that tick's for good.
  lemma {:induction false} ClockNeverRestarts(t: Torrent, hs: seq<Happening>)
    ensures t.completedAt != 0 ==> Lived(t, hs).completedAt == t.completedAt
    ensures t.completedAt == 0 ==> ClockIs(Starts(t, hs), hs, Lived(t, hs).completedAt)
    decreases |hs|
  {
    if hs != [] {
      var n := |hs| - 1;
      var before := Lived(t, hs[..n]);
      ClockNeverRestarts(t, hs[..n]);
      ClockNext(before, hs[n]);
      assert hs == hs[..n] + [hs[n]];
      if t.completedAt == 0 {
        ClockGoesOn(Starts(t, hs[..n]), hs[..n], before.completedAt, hs[n], StartsItsClock(before, hs[n]));
      }
    }
  }
}
