/** Shadow-performance feedback: the loop that shrinks, disables and restores regimes for live trading,
    and what every run of it guarantees under a clock that does not go backwards. */
module RegimeFeedback {
  import opened Prelude

  /** One UTC day, in microseconds. */
  const DAY: int := 86_400_000_000
  const MIN_SAMPLE: nat := 30
  const COOLDOWN_DAYS: int := 14

  datatype Status = Enable | Disable

  datatype Cooldown = Cooldown(disabledAt: int, positiveDays: nat, lastPositiveDay: Option<int>)

  /** The stored configuration, by regime name. */
  datatype Config = Config(overrides: map<string, Status>, sizing: map<string, real>, cooldown: map<string, Cooldown>)

  datatype Stats = Stats(total: nat, expectancy: real)

  datatype Check = Check(now: int, stats: seq<(string, Stats)>)

  function EmptyConfig(): Config {
    Config(map[], map[], map[])
  }

  /** Number of the UTC day a microsecond timestamp falls on. */
  function Day(now: int): int {
    now / DAY
  }

  // ----- One regime

  /** What the configuration says about one regime, with the loop's defaults for missing keys. */
  datatype View = View(status: Status, size: real, cooldown: Option<Cooldown>)

  function ViewOf(cfg: Config, r: string): View {
    View(if r in cfg.overrides then cfg.overrides[r] else Enable,
         if r in cfg.sizing then cfg.sizing[r] else 1.0,
         if r in cfg.cooldown then Some(cfg.cooldown[r]) else None)
  }

  predicate IsDisabled(v: View) {
    v.status == Disable || v.size == 0.0
  }

  /** The effect of one check on one regime. */
  function StepView(v: View, st: Stats, now: int): View {
    if st.total < MIN_SAMPLE then v
    else if !IsDisabled(v) then
      if st.expectancy < -2.0 then View(Disable, 0.0, Some(Cooldown(now, 0, None)))
      else if st.expectancy < -0.5 then v.(size := 0.3)
      else if st.expectancy < 1.0 then v.(size := 0.5)
      else v.(size := 1.0)
    else if v.cooldown.None? || now - v.cooldown.value.disabledAt < COOLDOWN_DAYS * DAY then v
    else
      var cd := v.cooldown.value;
      if st.expectancy > 0.0 then
        if cd.lastPositiveDay == Some(Day(now)) then v
        else if cd.positiveDays + 1 >= 3 then View(Enable, 0.5, None)
        else v.(cooldown := Some(Cooldown(cd.disabledAt, cd.positiveDays + 1, Some(Day(now)))))
      else v.(cooldown := Some(cd.(positiveDays := 0)))
  }

  /** Writes one regime's view back into the configuration. */
  ghost predicate Updates(cfg: Config, cfg': Config, r: string, st: Stats, now: int) {
    && ViewOf(cfg', r) == StepView(ViewOf(cfg, r), st, now)
    && forall q :: q != r ==> ViewOf(cfg', q) == ViewOf(cfg, q)
  }

  // ----- The feedback loop

  class Commander {
    var stored: Config

    constructor ()
      ensures stored == EmptyConfig()
    {
      stored := EmptyConfig();
    }

    /** One round of the loop: adjust every regime with statistics, and store the result only if `changed` was
        set. Whatever the flag, the stored configuration ends up with every regime's step applied, in order. */
    method RunCheck(check: Check)
      modifies this
      ensures forall r :: ViewOf(stored, r) == After(ViewOf(old(stored), r), Observations(check, r))
    {
      var overrides, sizing, cooldown := stored.overrides, stored.sizing, stored.cooldown;
      var changed := false;
      for i := 0 to |check.stats|
        invariant stored == old(stored)
        invariant !changed ==> Config(overrides, sizing, cooldown) == stored
        invariant forall r :: ViewOf(Config(overrides, sizing, cooldown), r) ==
                              After(ViewOf(old(stored), r), Observations(Check(check.now, check.stats[..i]), r))
      {
        var (regime, st) := check.stats[i];
        ghost var before := Config(overrides, sizing, cooldown);
        var c: bool;
        overrides, sizing, cooldown, c := AdjustRegime(overrides, sizing, cooldown, regime, st, check.now);
        changed := changed || c;
        forall r ensures ViewOf(Config(overrides, sizing, cooldown), r) ==
                         After(ViewOf(old(stored), r), Observations(Check(check.now, check.stats[..i + 1]), r)) {
          ObserveOne(check, i, r, ViewOf(old(stored), r));
        }
      }
      assert check.stats[..|check.stats|] == check.stats;
      if changed {
        stored := Config(overrides, sizing, cooldown);
      }
    }
  }

  /** The body of the loop over regimes: dictionary reads with defaults, dictionary writes, and the flag,
      set exactly when something was written that differs. */
  method AdjustRegime(overrides: map<string, Status>, sizing: map<string, real>, cooldown: map<string, Cooldown>,
                      regime: string, st: Stats, now: int)
    returns (overrides': map<string, Status>, sizing': map<string, real>, cooldown': map<string, Cooldown>, changed: bool)
    ensures Updates(Config(overrides, sizing, cooldown), Config(overrides', sizing', cooldown'), regime, st, now)
    ensures changed <==> Config(overrides', sizing', cooldown') != Config(overrides, sizing, cooldown)
  {
    overrides', sizing', cooldown', changed := overrides, sizing, cooldown, false;
    if st.total < MIN_SAMPLE {
      return;
    }
    var status := if regime in overrides then overrides[regime] else Enable;
    var size := if regime in sizing then sizing[regime] else 1.0;
    if !(status == Disable || size == 0.0) {
      if st.expectancy < -2.0 {
        overrides' := overrides[regime := Disable];
        sizing' := sizing[regime := 0.0];
        cooldown' := cooldown[regime := Cooldown(now, 0, None)];
        changed := true;
      } else {
        var target := if st.expectancy < -0.5 then 0.3 else if st.expectancy < 1.0 then 0.5 else 1.0;
        if size != target {
          sizing' := sizing[regime := target];
          changed := true;
        }
      }
    } else if regime in cooldown {
      var meta := cooldown[regime];
      if now - meta.disabledAt >= COOLDOWN_DAYS * DAY {
        if st.expectancy > 0.0 {
          if meta.lastPositiveDay != Some(Day(now)) {
            var days := meta.positiveDays + 1;
            cooldown' := cooldown[regime := Cooldown(meta.disabledAt, days, Some(Day(now)))];
            changed := true;
            if days >= 3 {
              overrides' := overrides[regime := Enable];
              sizing' := sizing[regime := 0.5];
              cooldown' := cooldown' - {regime};
            }
          }
        } else if meta.positiveDays > 0 {
          cooldown' := cooldown[regime := meta.(positiveDays := 0)];
          changed := true;
        }
      }
    }
  }

  // ----- Runs, seen from one regime

  datatype Obs = Obs(now: int, stats: Stats)

  /** The statistics one check delivers for regime r. */
  function Observations(check: Check, r: string): seq<Obs> {
    ObservationsOf(check.now, check.stats, r)
  }

  function ObservationsOf(now: int, stats: seq<(string, Stats)>, r: string): seq<Obs> {
    if stats == [] then []
    else
      var (q, st) := stats[|stats| - 1];
      ObservationsOf(now, stats[..|stats| - 1], r) + (if q == r then [Obs(now, st)] else [])
  }

  function After(v: View, h: seq<Obs>): View {
    if h == [] then v else StepView(After(v, h[..|h| - 1]), h[|h| - 1].stats, h[|h| - 1].now)
  }

  lemma ObserveOne(check: Check, i: nat, r: string, v: View)
    requires i < |check.stats|
    ensures var before := Observations(Check(check.now, check.stats[..i]), r);
            var now := Observations(Check(check.now, check.stats[..i + 1]), r);
            After(v, now) == if check.stats[i].0 == r then StepView(After(v, before), check.stats[i].1, check.now)
                             else After(v, before)
  {
    hide StepView;
    assert check.stats[..i + 1][..i] == check.stats[..i];
    var before := ObservationsOf(check.now, check.stats[..i], r);
    assert (before + [Obs(check.now, check.stats[i].1)])[..|before|] == before;
    assert before + [] == before;
  }

  /** All statistics delivered for regime r by a run of checks. */
  function History(checks: seq<Check>, r: string): seq<Obs> {
    if checks == [] then [] else History(checks[..|checks| - 1], r) + Observations(checks[|checks| - 1], r)
  }

  lemma {:induction false} AfterAppend(v: View, h: seq<Obs>, g: seq<Obs>)
    ensures After(v, h + g) == After(After(v, h), g)
  {
    hide StepView;
    if g == [] {
      assert h + g == h;
    } else {
      var n := |g| - 1;
      AfterAppend(v, h, g[..n]);
      assert (h + g)[..|h| + n] == h + g[..n];
    }
  }

  /** A run of the loop from the empty configuration, one stored configuration per round. */
  ghost predicate IsRun(checks: seq<Check>, configs: seq<Config>) {
    && |configs| == |checks| + 1 && configs[0] == EmptyConfig()
    && forall i, r :: 0 <= i < |checks| ==>
         ViewOf(configs[i + 1], r) == After(ViewOf(configs[i], r), Observations(checks[i], r))
  }

  /** In any run, what is stored about a regime is a function of that regime's own history alone. */
  lemma {:induction false} RunFollowsHistory(checks: seq<Check>, configs: seq<Config>, n: nat, r: string)
    requires IsRun(checks, configs) && n <= |checks|
    ensures ViewOf(configs[n], r) == State(History(checks[..n], r))
  {
    if n > 0 {
      RunFollowsHistory(checks, configs, n - 1, r);
      assert checks[..n][..n - 1] == checks[..n - 1];
      AfterAppend(Fresh(), History(checks[..n - 1], r), Observations(checks[n - 1], r));
    }
  }

  function Fresh(): View {
    View(Enable, 1.0, None)
  }

  function State(h: seq<Obs>): View {
    After(Fresh(), h)
  }

  // ----- Disabled, size zero and cooldown record go together

  predicate Coherent(v: View) {
    && (v.status == Disable <==> v.size == 0.0)
    && (v.status == Disable <==> v.cooldown.Some?)
    && (v.status == Enable ==> v.size in {0.3, 0.5, 1.0})
    && (v.cooldown.Some? ==> v.cooldown.value.positiveDays <= 2)
  }

  lemma {:induction false} AlwaysCoherent(h: seq<Obs>)
    ensures Coherent(State(h))
  {
    if h != [] {
      AlwaysCoherent(h[..|h| - 1]);
    }
  }

  /** In every run from the empty configuration, every regime is coherent after every round. */
  lemma RunCoherent(checks: seq<Check>, configs: seq<Config>, n: nat, r: string)
    requires IsRun(checks, configs) && n <= |checks|
    ensures Coherent(ViewOf(configs[n], r))
  {
    RunFollowsHistory(checks, configs, n, r);
    AlwaysCoherent(History(checks[..n], r));
  }

  // ----- What one observation does

  lemma LastStep(h: seq<Obs>)
    requires h != []
    ensures State(h) == StepView(State(h[..|h| - 1]), h[|h| - 1].stats, h[|h| - 1].now)
  {
    hide StepView;
  }

  /** The size tiers: of an enabled regime the last observation with 30 samples or more alone decides. */
  lemma SizeFollowsExpectancy(h: seq<Obs>)
    requires h != [] && State(h[..|h| - 1]).status == Enable
    ensures var before, v, o := State(h[..|h| - 1]), State(h), h[|h| - 1];
            var x := o.stats.expectancy;
            && (o.stats.total < 30 ==> v == before)
            && (o.stats.total >= 30 ==>
                  && (v.size == 1.0 <==> x >= 1.0)
                  && (v.size == 0.5 <==> -0.5 <= x < 1.0)
                  && (v.size == 0.3 <==> -2.0 <= x < -0.5)
                  && (v.status == Disable <==> x < -2.0) && (v.size == 0.0 <==> x < -2.0)
                  && (x < -2.0 ==> v.cooldown == Some(Cooldown(o.now, 0, None))))
  {
    AlwaysCoherent(h[..|h| - 1]);
    LastStep(h);
    hide State;
  }

  /** So the size never falls as the expectancy rises. */
  lemma SizeMonotone(h: seq<Obs>, o: Obs, p: Obs)
    requires State(h).status == Enable && o.stats.total >= 30 && p.stats.total >= 30
    requires o.stats.expectancy <= p.stats.expectancy
    ensures State(h + [o]).size <= State(h + [p]).size
  {
    hide State;
    assert (h + [o])[..|h|] == h && (h + [p])[..|h|] == h;
    SizeFollowsExpectancy(h + [o]);
    SizeFollowsExpectancy(h + [p]);
    SizeTiers(h + [o]);
    SizeTiers(h + [p]);
  }

  lemma SizeTiers(h: seq<Obs>)
    ensures State(h).size in {0.0, 0.3, 0.5, 1.0}
  {
    AlwaysCoherent(h);
    hide State;
  }

  /** Of a disabled regime nothing changes in the first 14 days, on too few samples, or by a second positive check on a
      counted day; any other positive check counts one day, the third restores, and a non-positive one restarts. */
  lemma DisabledStep(h: seq<Obs>)
    requires h != [] && State(h[..|h| - 1]).status == Disable
    ensures State(h[..|h| - 1]).cooldown.Some?
    ensures var before, v, o := State(h[..|h| - 1]), State(h), h[|h| - 1];
            var cd, day := before.cooldown.value, o.now / 86_400_000_000;
            var counted := o.stats.total >= 30 && o.now >= cd.disabledAt + 14 * 86_400_000_000;
            && (!counted ==> v == before)
            && (counted && o.stats.expectancy <= 0.0 ==>
                  v == View(Disable, 0.0, Some(Cooldown(cd.disabledAt, 0, cd.lastPositiveDay))))
            && (counted && o.stats.expectancy > 0.0 && cd.lastPositiveDay == Some(day) ==> v == before)
            && (counted && o.stats.expectancy > 0.0 && cd.lastPositiveDay != Some(day) ==>
                  && cd.positiveDays <= 2
                  && v == if cd.positiveDays == 2 then View(Enable, 0.5, None)
                          else View(Disable, 0.0, Some(Cooldown(cd.disabledAt, cd.positiveDays + 1, Some(day)))))
  {
    AlwaysCoherent(h[..|h| - 1]);
    LastStep(h);
    hide State;
  }

  /** A regime switched off by hand, by status or by size and without a cooldown record, is never touched. */
  lemma {:induction false} ManualStopStays(v: View, h: seq<Obs>)
    requires (v.status == Disable || v.size == 0.0) && v.cooldown.None?
    ensures After(v, h) == v
  {
    if h != [] {
      ManualStopStays(v, h[..|h| - 1]);
    }
  }

  /** The regime's statistics in a round that names it once are one observation. */
  lemma {:induction false} ObservedExactly(now: int, stats: seq<(string, Stats)>, r: string, st: Stats)
    requires (r, st) in stats && forall i, j :: 0 <= i < j < |stats| ==> stats[i].0 != stats[j].0
    ensures ObservationsOf(now, stats, r) == [Obs(now, st)]
  {
    var n := |stats| - 1;
    if stats[n].0 == r {
      assert stats[n] == (r, st) by {
        var i :| 0 <= i < |stats| && stats[i] == (r, st);
      }
      ObservedOnce(now, stats[..n], r);
    } else {
      ObservedExactly(now, stats[..n], r, st);
    }
  }

  /** The stored configuration follows: a regime not stored as disabled has, after a round with 30 samples or more of it,
      the size of its expectancy, a missing size counting as 1. */
  lemma RunSizes(checks: seq<Check>, configs: seq<Config>, n: nat, r: string, st: Stats)
    requires IsRun(checks, configs) && n < |checks| && (r, st) in checks[n].stats && st.total >= 30
    requires forall i, j :: 0 <= i < j < |checks[n].stats| ==> checks[n].stats[i].0 != checks[n].stats[j].0
    requires r in configs[n].overrides ==> configs[n].overrides[r] == Enable
    ensures var cfg, x := configs[n + 1], st.expectancy;
            var size := if r in cfg.sizing then cfg.sizing[r] else 1.0;
            && (size == 1.0 <==> x >= 1.0)
            && (size == 0.5 <==> -0.5 <= x < 1.0)
            && (size == 0.3 <==> -2.0 <= x < -0.5)
            && (size == 0.0 <==> x < -2.0)
            && (r in cfg.overrides && cfg.overrides[r] == Disable <==> x < -2.0)
            && (r in cfg.cooldown <==> x < -2.0)
            && (r in cfg.cooldown ==> cfg.cooldown[r] == Cooldown(checks[n].now, 0, None))
  {
    hide State, IsRun, History;
    RunFollowsHistory(checks, configs, n, r);
    RunFollowsHistory(checks, configs, n + 1, r);
    HistoryNext(checks, n, r);
    ObservedExactly(checks[n].now, checks[n].stats, r, st);
    var before, h := History(checks[..n], r), History(checks[..n + 1], r);
    assert h == before + [Obs(checks[n].now, st)];
    assert h[..|h| - 1] == before;
    SizeFollowsExpectancy(h);
    AlwaysCoherent(h);
  }

  // ----- Restoring needs a proven recovery

  ghost predicate Monotone(h: seq<Obs>) {
    forall i, j :: 0 <= i < j < |h| ==> h[i].now <= h[j].now
  }

  predicate Counts(o: Obs) {
    o.stats.total >= MIN_SAMPLE
  }

  predicate Positive(o: Obs) {
    Counts(o) && o.stats.expectancy > 0.0
  }

  predicate NonPositive(o: Obs) {
    Counts(o) && o.stats.expectancy <= 0.0
  }

  /** The observation that disabled the regime, and the positive ones counted since the last non-positive one. */
  datatype Trail = Trail(since: nat, streak: seq<nat>)

  ghost function TrailOf(h: seq<Obs>): Trail {
    if h == [] then Trail(0, [])
    else
      var n := |h| - 1;
      NextTrail(TrailOf(h[..n]), State(h[..n]), h[n], n)
  }

  ghost function NextTrail(t: Trail, v: View, o: Obs, n: nat): Trail {
    if !Counts(o) then t
    else if !IsDisabled(v) then Trail(n, [])
    else if v.cooldown.None? || o.now - v.cooldown.value.disabledAt < COOLDOWN_DAYS * DAY then t
    else if NonPositive(o) then Trail(t.since, [])
    else if v.cooldown.value.lastPositiveDay == Some(Day(o.now)) then t
    else Trail(t.since, t.streak + [n])
  }

  /** a is the observation that disabled the regime, and it stayed disabled from then up to n. */
  ghost predicate DisabledSince(h: seq<Obs>, a: nat, n: nat) {
    && a < n <= |h| && Counts(h[a]) && h[a].stats.expectancy < -2.0
    && State(h[..a]).status == Enable
    && forall k :: a < k <= n ==> State(h[..k]).status == Disable
  }

  /** The streak lies after the cooldown, on strictly increasing days, all positive and uninterrupted up to n. */
  ghost predicate IsStreak(h: seq<Obs>, a: nat, streak: seq<nat>, n: nat)
    requires a < n <= |h|
  {
    && (forall i :: 0 <= i < |streak| ==> a < streak[i] < n && Positive(h[streak[i]])
                                          && h[streak[i]].now >= h[a].now + COOLDOWN_DAYS * DAY)
    && (forall i, j :: 0 <= i < j < |streak| ==> streak[i] < streak[j] && Day(h[streak[i]].now) < Day(h[streak[j]].now))
    && (streak != [] ==> forall k :: streak[0] <= k < n ==> !NonPositive(h[k]))
  }

  ghost predicate TrailInv(h: seq<Obs>) {
    TrailOk(h, State(h), TrailOf(h))
  }

  ghost predicate TrailOk(h: seq<Obs>, v: View, t: Trail) {
    v.status == Disable ==>
      && v.cooldown.Some?
      && DisabledSince(h, t.since, |h|)
      && h[t.since].now == v.cooldown.value.disabledAt
      && IsStreak(h, t.since, t.streak, |h|)
      && |t.streak| == v.cooldown.value.positiveDays
      && (t.streak != [] ==> v.cooldown.value.lastPositiveDay == Some(Day(h[t.streak[|t.streak| - 1]].now)))
  }

  lemma ExtendDisabled(h: seq<Obs>, a: nat)
    requires h != [] && DisabledSince(h[..|h| - 1], a, |h| - 1) && State(h).status == Disable
    ensures DisabledSince(h, a, |h|)
  {
    hide State;
    var g := h[..|h| - 1];
    assert forall k :: 0 <= k <= |g| ==> g[..k] == h[..k];
    assert h[..|h|] == h;
  }

  lemma ExtendStreak(h: seq<Obs>, a: nat, streak: seq<nat>)
    requires h != [] && a < |h| - 1 && IsStreak(h[..|h| - 1], a, streak, |h| - 1) && !NonPositive(h[|h| - 1])
    ensures IsStreak(h, a, streak, |h|)
  {
  }

  lemma GrowStreak(h: seq<Obs>, a: nat, streak: seq<nat>)
    requires h != [] && a < |h| - 1 && Monotone(h)
    requires IsStreak(h[..|h| - 1], a, streak, |h| - 1)
    requires Positive(h[|h| - 1]) && h[|h| - 1].now >= h[a].now + COOLDOWN_DAYS * DAY
    requires streak != [] ==> Day(h[streak[|streak| - 1]].now) != Day(h[|h| - 1].now)
    ensures IsStreak(h, a, streak + [|h| - 1], |h|)
  {
    var n := |h| - 1;
    ExtendStreak(h, a, streak);
    if streak != [] {
      DayMonotone(h[streak[|streak| - 1]].now, h[n].now);
    }
  }

  lemma DayMonotone(s: int, t: int)
    requires s <= t
    ensures Day(s) <= Day(t)
  {
  }

  lemma {:induction false} TrailHolds(h: seq<Obs>)
    requires Monotone(h)
    ensures TrailInv(h)
  {
    if h != [] {
      var n := |h| - 1;
      var g, o := h[..n], h[n];
      TrailHolds(g);
      AlwaysCoherent(g);
      AlwaysCoherent(h);
      var v, w, t := State(g), State(h), TrailOf(g);
      assert w == StepView(v, o.stats, o.now);
      if w.status == Disable {
        if v.status == Enable {
          assert h[..|h|] == h;
        } else {
          assert TrailOf(h) == NextTrail(t, v, o, n);
          hide State, TrailOf, TrailOk;
          TrailStep(h, v, t);
        }
      }
    }
  }

  lemma TrailStep(h: seq<Obs>, v: View, t: Trail)
    requires h != [] && Monotone(h) && TrailOk(h[..|h| - 1], v, t)
    requires v.status == Disable && Coherent(v)
    requires State(h) == StepView(v, h[|h| - 1].stats, h[|h| - 1].now) && State(h).status == Disable
    ensures TrailOk(h, State(h), NextTrail(t, v, h[|h| - 1], |h| - 1))
  {
    hide State, IsStreak, DisabledSince, Monotone;
    var n := |h| - 1;
    var g, o := h[..n], h[n];
    var cd := v.cooldown.value;
    assert t.since < n by { SinceBound(g, t.since); }
    ExtendDisabled(h, t.since);
    var over := o.now - cd.disabledAt >= COOLDOWN_DAYS * DAY;
    if NonPositive(o) {
      EmptyStreak(h, t.since);
      if t.streak != [] {
        LateStreak(h, t.since, t.streak);
      }
    } else {
      ExtendStreak(h, t.since, t.streak);
      if Positive(o) && over && cd.lastPositiveDay != Some(Day(o.now)) {
        StreakInRange(g, t.since, t.streak);
        GrowStreak(h, t.since, t.streak);
      }
    }
  }

  lemma StreakInRange(h: seq<Obs>, a: nat, streak: seq<nat>)
    requires a < |h| && IsStreak(h, a, streak, |h|)
    ensures forall i :: 0 <= i < |streak| ==> streak[i] < |h|
  {
  }

  lemma SinceBound(h: seq<Obs>, a: nat)
    requires DisabledSince(h, a, |h|)
    ensures a < |h|
  {
  }

  lemma EmptyStreak(h: seq<Obs>, a: nat)
    requires a < |h|
    ensures IsStreak(h, a, [], |h|)
  {
  }

  /** No positive check is counted while the cooldown still runs. */
  lemma LateStreak(h: seq<Obs>, a: nat, streak: seq<nat>)
    requires h != [] && a < |h| - 1 && Monotone(h) && IsStreak(h[..|h| - 1], a, streak, |h| - 1)
    requires streak != []
    ensures h[|h| - 1].now >= h[a].now + COOLDOWN_DAYS * DAY
  {
    assert h[streak[0]].now <= h[|h| - 1].now;
  }

  /** Three positive checks on three days, the first after the cooldown, uninterrupted by a non-positive one. */
  ghost predicate Recovery(h: seq<Obs>, a: nat, i: nat, j: nat, k: nat) {
    && a < i < j < k < |h|
    && Positive(h[i]) && Positive(h[j]) && Positive(h[k])
    && Day(h[i].now) < Day(h[j].now) < Day(h[k].now)
    && h[i].now >= h[a].now + COOLDOWN_DAYS * DAY
    && forall m :: i <= m <= k ==> !NonPositive(h[m])
  }

  /** A regime moves from disabled to enabled only after a recovery, more than 15 days after it was disabled,
      and then restarts at half size. */
  lemma RestoredOnlyAfterRecovery(h: seq<Obs>, k: nat) returns (a: nat, i: nat, j: nat)
    requires Monotone(h) && k < |h|
    requires State(h[..k]).status == Disable && State(h[..k + 1]).status == Enable
    ensures Recovery(h, a, i, j, k) && DisabledSince(h, a, k)
    ensures h[k].now > h[a].now + 15 * DAY
    ensures State(h[..k + 1]) == View(Enable, 0.5, None)
  {
    var g := h[..k];
    TrailHolds(g);
    AlwaysCoherent(g);
    assert h[..k + 1][..k] == g;
    var v, t := State(g), TrailOf(g);
    assert State(h[..k + 1]) == StepView(v, h[k].stats, h[k].now);
    hide State, TrailOf;
    a, i, j := t.since, t.streak[0], t.streak[1];
    assert forall m :: 0 <= m <= k ==> g[..m] == h[..m];
    DayMonotone(h[j].now, h[k].now);
    FifteenDays(h[a].now, h[i].now, h[k].now);
  }

  lemma FifteenDays(a: int, i: int, k: int)
    requires i >= a + COOLDOWN_DAYS * DAY && Day(i) + 2 <= Day(k)
    ensures k > a + 15 * DAY
  {
  }

  lemma {:induction false} ObservedAtNow(now: int, stats: seq<(string, Stats)>, r: string)
    ensures forall o :: o in ObservationsOf(now, stats, r) ==> o.now == now
  {
    if stats != [] {
      ObservedAtNow(now, stats[..|stats| - 1], r);
    }
  }

  /** A regime named at most once is observed at most once. */
  lemma {:induction false} ObservedOnce(now: int, stats: seq<(string, Stats)>, r: string)
    requires forall i, j :: 0 <= i < j < |stats| ==> stats[i].0 != stats[j].0
    ensures |ObservationsOf(now, stats, r)| <= 1
    ensures (forall i :: 0 <= i < |stats| ==> stats[i].0 != r) ==> ObservationsOf(now, stats, r) == []
  {
    if stats != [] {
      ObservedOnce(now, stats[..|stats| - 1], r);
    }
  }

  /** The clock of a run does not go backwards, and a round reports each regime once. */
  ghost predicate ClockedRun(checks: seq<Check>) {
    && (forall i, j :: 0 <= i < j < |checks| ==> checks[i].now <= checks[j].now)
    && (forall c :: c in checks ==> forall i, j :: 0 <= i < j < |c.stats| ==> c.stats[i].0 != c.stats[j].0)
  }

  lemma {:induction false} HistoryMonotone(checks: seq<Check>, r: string)
    requires ClockedRun(checks)
    ensures Monotone(History(checks, r))
    ensures checks != [] ==> forall o :: o in History(checks, r) ==> o.now <= checks[|checks| - 1].now
  {
    if checks != [] {
      var n := |checks| - 1;
      HistoryMonotone(checks[..n], r);
      ObservedAtNow(checks[n].now, checks[n].stats, r);
      var h, g := History(checks[..n], r), Observations(checks[n], r);
      assert forall i :: 0 <= i < |h| ==> h[i] in h;
      assert forall i :: 0 <= i < |g| ==> g[i] in g;
    }
  }

  /** A round adds at most one observation of a regime, made at the round's time. */
  lemma RoundObservesOnce(checks: seq<Check>, n: nat, r: string)
    requires ClockedRun(checks) && n < |checks|
    ensures var h, before := History(checks[..n + 1], r), History(checks[..n], r);
            && Monotone(h)
            && (h == before || (|h| == |before| + 1 && h[..|before|] == before && h[|before|].now == checks[n].now))
  {
    hide Monotone, ObservationsOf;
    assert checks[n] in checks;
    HistoryMonotone(checks[..n + 1], r);
    hide ClockedRun;
    ObservedOnce(checks[n].now, checks[n].stats, r);
    ObservedAtNow(checks[n].now, checks[n].stats, r);
    HistoryNext(checks, n, r);
    hide History;
    var g, before := Observations(checks[n], r), History(checks[..n], r);
    if g == [] {
      assert before + g == before;
    } else {
      assert g[0] in g;
    }
  }

  lemma HistoryNext(checks: seq<Check>, n: nat, r: string)
    requires n < |checks|
    ensures History(checks[..n + 1], r) == History(checks[..n], r) + Observations(checks[n], r)
  {
    hide Observations;
    assert checks[..n + 1][..n] == checks[..n];
  }

  /** The same over whole runs: between two rounds a stored regime goes from disabled to enabled only at
      the end of a recovery in its history, more than 15 days after the observation that disabled it. */
  lemma RunRestoredOnlyAfterRecovery(checks: seq<Check>, configs: seq<Config>, n: nat, r: string)
    returns (h: seq<Obs>, a: nat, i: nat, j: nat)
    requires IsRun(checks, configs) && ClockedRun(checks) && n < |checks|
    requires ViewOf(configs[n], r).status == Disable && ViewOf(configs[n + 1], r).status == Enable
    ensures h == History(checks[..n + 1], r) && h != []
    ensures Recovery(h, a, i, j, |h| - 1) && DisabledSince(h, a, |h| - 1)
    ensures h[|h| - 1].now == checks[n].now > h[a].now + 15 * DAY
    ensures ViewOf(configs[n + 1], r) == View(Enable, 0.5, None)
  {
    hide State, ViewOf, Recovery, DisabledSince, Monotone, History, IsRun, ClockedRun;
    RunFollowsHistory(checks, configs, n, r);
    RunFollowsHistory(checks, configs, n + 1, r);
    RoundObservesOnce(checks, n, r);
    h := History(checks[..n + 1], r);
    var k := |History(checks[..n], r)|;
    assert h[..k + 1] == h;
    a, i, j := RestoredOnlyAfterRecovery(h, k);
  }

  // ----- A proven recovery is enough, unless its first day had already been counted

  lemma StillDisabled(h: seq<Obs>, n: nat)
    requires n < |h| && State(h[..n]).status == Disable && State(h[..n + 1]).status == Disable
    ensures var v, w := State(h[..n]), State(h[..n + 1]);
            && v.cooldown.Some? && w == StepView(v, h[n].stats, h[n].now)
            && v.cooldown.value.positiveDays <= 2 && w.cooldown.Some?
            && w.cooldown.value.positiveDays <= 2 && w.cooldown.value.disabledAt == v.cooldown.value.disabledAt
  {
    AlwaysCoherent(h[..n]);
    AlwaysCoherent(h[..n + 1]);
    assert h[..n + 1][..n] == h[..n];
  }

  /** Between the first two recovery days the counter holds one positive day, or two of which none is later than j's. */
  lemma {:induction false} HoldsCount(h: seq<Obs>, a: nat, i: nat, j: nat, k: nat, n: nat)
    requires Monotone(h) && Recovery(h, a, i, j, k) && i < n <= k
    requires forall m :: i <= m <= n ==> State(h[..m]).status == Disable
    requires State(h[..i]).cooldown.Some? && State(h[..i]).cooldown.value.disabledAt == h[a].now
    requires State(h[..i]).cooldown.value.lastPositiveDay != Some(Day(h[i].now))
    ensures var v := State(h[..n]);
            && v.cooldown.Some? && v.cooldown.value.disabledAt == h[a].now
            && v.cooldown.value.lastPositiveDay.Some?
            && var cd := v.cooldown.value;
               && (cd.positiveDays == 2 ==> cd.lastPositiveDay.value <= Day(h[j].now))
               && (cd.positiveDays == 1 ==> cd.lastPositiveDay.value == Day(h[i].now) && n <= j)
               && 1 <= cd.positiveDays <= 2
  {
    var m := n - 1;
    StillDisabled(h, m);
    var v := State(h[..m]);
    if m > i {
      HoldsCount(h, a, i, j, k, m);
    }
    hide State;
    assert h[m].now >= h[i].now;
    assert !NonPositive(h[m]);
    if m <= j { DayMonotone(h[m].now, h[j].now); }
    if m == i { DayMonotone(h[i].now, h[j].now); }
  }

  /** A recovery re-enables the regime by its third day, provided its first day is not the day of a positive
      check that was already counted before a non-positive one reset the counter. */
  lemma RecoveryRestores(h: seq<Obs>, a: nat, i: nat, j: nat, k: nat)
    requires Monotone(h) && Recovery(h, a, i, j, k) && DisabledSince(h, a, i)
    requires State(h[..i]).cooldown.Some? && State(h[..i]).cooldown.value.disabledAt == h[a].now
    requires State(h[..i]).cooldown.value.lastPositiveDay != Some(Day(h[i].now))
    ensures exists m :: i < m <= k + 1 && State(h[..m]).status == Enable
  {
    if forall m :: i < m <= k + 1 ==> State(h[..m]).status == Disable {
      StillDisabled(h, k);
      HoldsCount(h, a, i, j, k, k);
      assert false;
    } else {
      var m :| i < m <= k + 1 && State(h[..m]).status != Disable;
      assert State(h[..m]).status == Enable;
    }
  }

  // ----- Exactly when an uninterrupted stretch of checks restores a regime

  /** Day of the latest positive check among i .. n - 1, or `last` when there is none. */
  function LatestDay(h: seq<Obs>, i: nat, n: nat, last: Option<int>): Option<int>
    requires i <= n <= |h|
  {
    if n == i then last
    else if Positive(h[n - 1]) then Some(Day(h[n - 1].now)) else LatestDay(h, i, n - 1, last)
  }

  /** Days with a positive check among i .. n - 1, leaving out a first day that is `last`. */
  function NewDays(h: seq<Obs>, i: nat, n: nat, last: Option<int>): nat
    requires i <= n <= |h|
  {
    if n == i then 0
    else NewDays(h, i, n - 1, last) +
         if Positive(h[n - 1]) && LatestDay(h, i, n - 1, last) != Some(Day(h[n - 1].now)) then 1 else 0
  }

  /** The days on which a check among i .. n - 1 was positive. */
  ghost function PositiveDays(h: seq<Obs>, i: nat, n: nat): set<int>
    requires i <= n <= |h|
  {
    set m | i <= m < n && Positive(h[m]) :: Day(h[m].now)
  }

  ghost function DaySet(day: Option<int>): set<int> {
    if day.Some? then {day.value} else {}
  }

  lemma PositiveDaysStep(h: seq<Obs>, i: nat, n: nat)
    requires i < n <= |h|
    ensures PositiveDays(h, i, n) == PositiveDays(h, i, n - 1) + (if Positive(h[n - 1]) then {Day(h[n - 1].now)} else {})
  {
    hide Positive, Day;
  }

  lemma PositiveDaysUpTo(h: seq<Obs>, i: nat, n: nat)
    requires i <= n < |h| && Monotone(h)
    ensures forall d :: d in PositiveDays(h, i, n) ==> d <= Day(h[n].now)
  {
    hide Positive, Day;
    forall d | d in PositiveDays(h, i, n) ensures d <= Day(h[n].now) {
      var m :| i <= m < n && Positive(h[m]) && Day(h[m].now) == d;
      DayMonotone(h[m].now, h[n].now);
    }
  }

  lemma NoDays(h: seq<Obs>, i: nat, last: Option<int>)
    requires i <= |h|
    ensures PositiveDays(h, i, i) == {} && |PositiveDays(h, i, i) - DaySet(last)| == 0
    ensures Largest(last, PositiveDays(h, i, i) + DaySet(last))
  {
    assert PositiveDays(h, i, i) == {};
    assert {} + DaySet(last) == DaySet(last);
  }

  /** The largest of a set of days, `None` when it is empty. */
  ghost predicate Largest(day: Option<int>, days: set<int>) {
    match day
    case None => days == {}
    case Some(x) => x in days && forall d :: d in days ==> d <= x
  }

  lemma AddDay(days: set<int>, known: set<int>, latest: Option<int>, day: int)
    requires Largest(latest, days + known) && forall d :: d in days + known ==> d <= day
    ensures Largest(Some(day), days + {day} + known)
    ensures |days + {day} - known| == |days - known| + (if latest == Some(day) then 0 else 1)
  {
    if latest == Some(day) {
      assert days + {day} - known == days - known;
    } else {
      assert day !in days + known;
      assert days + {day} - known == (days - known) + {day};
    }
  }

  /** Under a clock that does not go back, the loop's counting by "not the latest day" counts distinct days. */
  lemma {:induction false} NewDaysAreDistinct(h: seq<Obs>, i: nat, n: nat, last: Option<int>)
    requires i <= n <= |h| && Monotone(h)
    requires last.Some? ==> forall m :: i <= m < n ==> last.value <= Day(h[m].now)
    ensures NewDays(h, i, n, last) == |PositiveDays(h, i, n) - DaySet(last)|
    ensures Largest(LatestDay(h, i, n, last), PositiveDays(h, i, n) + DaySet(last))
  {
    hide PositiveDays, Positive, Day, Monotone, Largest, DaySet;
    if n == i {
      NoDays(h, i, last);
    } else {
      var m := n - 1;
      NewDaysAreDistinct(h, i, m, last);
      PositiveDaysStep(h, i, n);
      if Positive(h[m]) {
        PositiveDaysUpTo(h, i, m);
        DaySetUpTo(last, Day(h[m].now));
        AddDay(PositiveDays(h, i, m), DaySet(last), LatestDay(h, i, m, last), Day(h[m].now));
      } else {
        assert PositiveDays(h, i, m) + {} == PositiveDays(h, i, m);
      }
    }
  }

  lemma DaySetUpTo(last: Option<int>, day: int)
    requires last.Some? ==> last.value <= day
    ensures forall d :: d in DaySet(last) ==> d <= day
  {
  }

  /** The remembered positive day is the day of an earlier check. */
  lemma {:induction false} RememberedDayIsPast(h: seq<Obs>)
    ensures var cd := State(h).cooldown;
            cd.Some? && cd.value.lastPositiveDay.Some? ==>
              exists m :: 0 <= m < |h| && Day(h[m].now) == cd.value.lastPositiveDay.value
  {
    if h != [] {
      var n := |h| - 1;
      var g := h[..n];
      RememberedDayIsPast(g);
      Unroll(h, n);
      assert h[..n + 1] == h;
      hide State;
      var cd, before := State(h).cooldown, State(g).cooldown;
      if cd.Some? && cd.value.lastPositiveDay.Some? && cd.value.lastPositiveDay != Some(Day(h[n].now)) {
        var m :| 0 <= m < |g| && Day(g[m].now) == before.value.lastPositiveDay.value;
        assert Day(h[m].now) == cd.value.lastPositiveDay.value;
      }
    }
  }

  /** A stretch of checks after the cooldown, none of them non-positive. */
  ghost predicate Uninterrupted(h: seq<Obs>, i: nat, n: nat, disabledAt: int) {
    && i <= n <= |h|
    && forall m :: i <= m < n ==> !NonPositive(h[m]) && h[m].now >= disabledAt + COOLDOWN_DAYS * DAY
  }

  ghost predicate RestoredWithin(h: seq<Obs>, i: nat, n: nat) {
    exists m :: i < m <= n <= |h| && State(h[..m]).status == Enable
  }

  /** The view after the stretch while it stays disabled: the counter has grown by the new days. */
  lemma {:induction false} CountsNewDays(h: seq<Obs>, i: nat, n: nat, cd: Cooldown)
    requires Uninterrupted(h, i, n, cd.disabledAt) && State(h[..i]) == View(Disable, 0.0, Some(cd))
    ensures RestoredWithin(h, i, n) <==> cd.positiveDays + NewDays(h, i, n, cd.lastPositiveDay) >= 3
    ensures !RestoredWithin(h, i, n) ==>
              State(h[..n]) == View(Disable, 0.0, Some(Cooldown(cd.disabledAt,
                                                                cd.positiveDays + NewDays(h, i, n, cd.lastPositiveDay),
                                                                LatestDay(h, i, n, cd.lastPositiveDay))))
  {
    if n == i {
      AlwaysCoherent(h[..i]);
    } else {
      CountsNewDays(h, i, n - 1, cd);
      Unroll(h, n - 1);
      hide State;
      if RestoredWithin(h, i, n - 1) {
        var m :| i < m <= n - 1 && State(h[..m]).status == Enable;
        assert i < m <= n && State(h[..m]).status == Enable;
      } else {
        StretchStep(h, i, n);
      }
    }
  }

  lemma StretchStep(h: seq<Obs>, i: nat, n: nat)
    requires i < n <= |h| && !RestoredWithin(h, i, n - 1)
    ensures RestoredWithin(h, i, n) <==> State(h[..n]).status == Enable
  {
    hide State;
    if RestoredWithin(h, i, n) {
      var m :| i < m <= n && State(h[..m]).status == Enable;
      assert m == n;
    }
  }

  /** A disabled regime is restored within an uninterrupted stretch of checks after its cooldown if and only if the
      days counted before it and the distinct positive days in it, other than the remembered one, make three. */
  lemma RestoredIff(h: seq<Obs>, i: nat, n: nat)
    requires i <= n <= |h| && Monotone(h) && State(h[..i]).status == Disable
    requires State(h[..i]).cooldown.Some? ==> Uninterrupted(h, i, n, State(h[..i]).cooldown.value.disabledAt)
    ensures State(h[..i]).cooldown.Some?
    ensures var cd := State(h[..i]).cooldown.value;
            RestoredWithin(h, i, n) <==> cd.positiveDays + |PositiveDays(h, i, n) - DaySet(cd.lastPositiveDay)| >= 3
  {
    AlwaysCoherent(h[..i]);
    RememberedDayIsPast(h[..i]);
    hide State;
    var cd := State(h[..i]).cooldown.value;
    if cd.lastPositiveDay.Some? {
      var p :| 0 <= p < i && Day(h[..i][p].now) == cd.lastPositiveDay.value;
      forall m | i <= m < n ensures cd.lastPositiveDay.value <= Day(h[m].now) {
        DayMonotone(h[p].now, h[m].now);
      }
    }
    NewDaysAreDistinct(h, i, n, cd.lastPositiveDay);
    CountsNewDays(h, i, n, cd);
  }

  function Good(now: int): Obs {
    Obs(now, Stats(30, 1.0))
  }

  function Bad(now: int): Obs {
    Obs(now, Stats(30, -3.0))
  }

  /** Without that proviso it fails: after a setback on day 15 the recovery on days 15, 16 and 17 does not restore
      the regime, because day 15 had been counted before the setback and its date is kept. */
  lemma StaleDayDelaysRestore()
    ensures var h := [Bad(0), Good(15 * DAY), Bad(15 * DAY + 1), Good(15 * DAY + 2), Good(16 * DAY), Good(17 * DAY)];
            Monotone(h) && Recovery(h, 0, 3, 4, 5) && DisabledSince(h, 0, 6)
  {
    var h := [Bad(0), Good(15 * DAY), Bad(15 * DAY + 1), Good(15 * DAY + 2), Good(16 * DAY), Good(17 * DAY)];
    assert h[..0] == [];
    Unroll(h, 0);
    Unroll(h, 1);
    Unroll(h, 2);
    Unroll(h, 3);
    Unroll(h, 4);
    Unroll(h, 5);
    assert State(h[..0]) == Fresh();
    hide State;
    assert State(h[..1]) == View(Disable, 0.0, Some(Cooldown(0, 0, None)));
    assert State(h[..2]) == View(Disable, 0.0, Some(Cooldown(0, 1, Some(15))));
    assert State(h[..3]) == View(Disable, 0.0, Some(Cooldown(0, 0, Some(15))));
    assert State(h[..4]) == View(Disable, 0.0, Some(Cooldown(0, 0, Some(15))));
    assert State(h[..5]) == View(Disable, 0.0, Some(Cooldown(0, 1, Some(16))));
    assert State(h[..6]) == View(Disable, 0.0, Some(Cooldown(0, 2, Some(17))));
  }

  lemma Unroll(h: seq<Obs>, n: nat)
    requires n < |h|
    ensures State(h[..n + 1]) == StepView(State(h[..n]), h[n].stats, h[n].now)
  {
    hide StepView;
    assert h[..n + 1][..n] == h[..n];
  }
}
