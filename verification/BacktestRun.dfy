/** The backtest replay loop: termination with and without live gates, non-overlapping trades,
    and the absence of look-ahead. */
module BacktestRun {
  import opened Prelude
  import opened AverageTrueRange
  import opened TradeSimulation

  const WARMUP: nat := 50
  const ATR_PERIOD: nat := 14

  /** The engine's configuration. The regime classifier, the router's (score, volatility factor), the sector
      filter, the risk profiles and the 8-decimal rounding are arbitrary functions of the candles seen so far. */
  datatype Engine = Engine(
    costs: Costs,
    gate: real,
    hasMicrostructure: bool,
    liveGates: bool,
    majorSymbol: bool,
    sectorApproves: Option<(seq<Candle>, Direction) -> bool>,
    classify: seq<Candle> -> Regime,
    route: (seq<Candle>, Regime, Direction) -> (real, real),
    profileOf: Regime -> RiskProfile,
    round8: real -> real)

  datatype State = State(idx: nat, reports: seq<Report>)

  function Directions(regime: Regime): (ds: seq<Direction>)
    ensures 1 <= |ds| <= 2
  {
    match regime
    case TrendBull => [Long]
    case TrendBear => [Short]
    case _ => [Long, Short]
  }

  /** Hour of day, UTC, of a millisecond timestamp. */
  function Hour(ts: int): int {
    (ts / 3_600_000) % 24
  }

  lemma HourOfDay(day: int, ms: int)
    requires 0 <= ms < 86_400_000
    ensures Hour(day * 86_400_000 + ms) == ms / 3_600_000
  {
    assert (day * 86_400_000 + ms) / 3_600_000 == day * 24 + ms / 3_600_000;
  }

  predicate Gated(en: Engine, history: seq<Candle>, d: Direction)
    requires history != []
  {
    en.liveGates &&
    (|| (0 <= Hour(history[|history| - 1].ts) < 7 && !en.majorSymbol)
     || (en.sectorApproves.Some? && !en.sectorApproves.value(history, d)))
  }

  function EffectiveGate(en: Engine, regime: Regime, volFactor: real): real {
    var g := en.gate * volFactor;
    if !en.hasMicrostructure && (regime == TrendBull || regime == TrendBear) then g - 20.0 else g
  }

  function Rejection(en: Engine, regime: Regime, score: real, d: Direction): Report {
    Report(d, regime, score, 0.0, None, None, None, None, 0.0, 0.0, 0.0, 0.0, 0.0, 0.0, 0,
           None, None, en.profileOf(regime), false)
  }

  /** The trade entered on bar idx, sized by the ATR of the candles up to and including it. */
  function Trade(en: Engine, c: seq<Candle>, idx: nat, regime: Regime, score: real, d: Direction): (r: Report)
    requires idx < |c|
    ensures r.tradeTaken
    ensures idx + r.barsHeld < |c|
    ensures r.barsHeld == 0 <==> idx == |c| - 1
  {
    Outcome(en.costs,
            Enter(en.costs, en.profileOf(regime), regime, score, c, idx, d,
                  en.round8(Atr(c[..idx + 1], ATR_PERIOD))),
            c)
  }

  function Evaluate(en: Engine, c: seq<Candle>, idx: nat, regime: Regime, d: Direction): Report
    requires idx < |c|
  {
    var (score, volFactor) := en.route(c[..idx + 1], regime, d);
    if score >= EffectiveGate(en, regime, volFactor)
    then Trade(en, c, idx, regime, score, d)
    else Rejection(en, regime, score, d)
  }

  lemma EvaluateIs(en: Engine, c: seq<Candle>, idx: nat, regime: Regime, d: Direction, atr: real)
    requires idx < |c| && atr == Atr(c[..idx + 1], ATR_PERIOD)
    ensures var (score, volFactor) := en.route(c[..idx + 1], regime, d);
            var accepted := score >= EffectiveGate(en, regime, volFactor);
            var r := Evaluate(en, c, idx, regime, d);
            && r.tradeTaken == accepted
            && r == if accepted
                    then Outcome(en.costs, Enter(en.costs, en.profileOf(regime), regime, score, c, idx, d, en.round8(atr)), c)
                    else Rejection(en, regime, score, d)
  {
    hide EffectiveGate, Enter, Atr;
  }

  predicate EndsTaken(rs: seq<Report>) {
    rs != [] && rs[|rs| - 1].tradeTaken
  }

  predicate AnyTaken(rs: seq<Report>) {
    exists i :: 0 <= i < |rs| && rs[i].tradeTaken
  }

  /** Reports appended while trying the directions in order: gated ones leave none, a taken trade is the last. */
  function Scan(en: Engine, c: seq<Candle>, idx: nat, regime: Regime, ds: seq<Direction>): (rs: seq<Report>)
    requires idx < |c|
    ensures |rs| <= |ds|
    ensures forall i :: 0 <= i < |rs| - 1 ==> !rs[i].tradeTaken
    ensures rs == [] <==> forall i :: 0 <= i < |ds| ==> Gated(en, c[..idx + 1], ds[i])
  {
    if ds == [] then []
    else if Gated(en, c[..idx + 1], ds[0]) then Scan(en, c, idx, regime, ds[1..])
    else
      var r := Evaluate(en, c, idx, regime, ds[0]);
      if r.tradeTaken then [r] else [r] + Scan(en, c, idx, regime, ds[1..])
  }

  function Advance(rs: seq<Report>): nat {
    if EndsTaken(rs) then (if rs[|rs| - 1].barsHeld < 1 then 1 else rs[|rs| - 1].barsHeld) + 1 else 0
  }

  function RegimeAt(en: Engine, c: seq<Candle>, idx: nat): Regime
    requires idx < |c|
  {
    en.classify(c[..idx + 1])
  }

  /** The reports one pass of the loop appends at bar idx. */
  function Found(en: Engine, c: seq<Candle>, idx: nat): (rs: seq<Report>)
    requires idx < |c|
    ensures |rs| <= |Directions(RegimeAt(en, c, idx))|
    ensures forall i :: 0 <= i < |rs| - 1 ==> !rs[i].tradeTaken
  {
    Scan(en, c, idx, RegimeAt(en, c, idx), Directions(RegimeAt(en, c, idx)))
  }

  /** Where the loop goes from state s when the pass appended `found`: it advances one bar when no trade is
      among the last n reports, n being the number of directions of the bar. */
  function Land(s: State, found: seq<Report>, n: nat): State {
    var reports := s.reports + found;
    var idx := s.idx + Advance(found);
    if AnyTaken(Tail(reports, n)) then State(idx, reports) else State(idx + 1, reports)
  }

  function Width(en: Engine, c: seq<Candle>, idx: nat): (n: nat)
    requires idx < |c|
    ensures 1 <= n <= 2
  {
    |Directions(RegimeAt(en, c, idx))|
  }

  /** One pass of the replay loop, with its look back over the last reports. */
  function Step(en: Engine, c: seq<Candle>, s: State): State
    requires s.idx < |c|
  {
    Land(s, Found(en, c, s.idx), Width(en, c, s.idx))
  }

  function Iter(en: Engine, c: seq<Candle>, k: nat): State {
    if k == 0 then State(WARMUP, [])
    else
      var s := Iter(en, c, k - 1);
      if s.idx < |c| then Step(en, c, s) else s
  }

  lemma IterNext(en: Engine, c: seq<Candle>, k: nat)
    requires !Done(en, c, k)
    ensures Iter(en, c, k + 1) == Step(en, c, Iter(en, c, k))
  {
    hide Step;
  }

  predicate Done(en: Engine, c: seq<Candle>, k: nat) {
    Iter(en, c, k).idx >= |c|
  }

  /** The loop ends, with these reports. */
  ghost predicate Completes(en: Engine, c: seq<Candle>, reports: seq<Report>) {
    exists k: nat :: Done(en, c, k) && Iter(en, c, k).reports == reports
  }

  /** Every direction of the bar is gated while an older taken trade is still inside the look-back slice. */
  predicate Stuck(en: Engine, c: seq<Candle>, s: State) {
    s.idx < |c| && Found(en, c, s.idx) == [] &&
    AnyTaken(Tail(s.reports, Width(en, c, s.idx)))
  }

  ghost predicate NeverStuck(en: Engine, c: seq<Candle>) {
    forall k: nat :: !Stuck(en, c, Iter(en, c, k))
  }

  // ----- Termination

  /** Rejections still missing before an old taken trade leaves every look-back slice. */
  function Echo(rs: seq<Report>): (e: nat)
    ensures e <= 2
  {
    if EndsTaken(rs) then 2 else if |rs| >= 2 && rs[|rs| - 2].tradeTaken then 1 else 0
  }

  function Work(c: seq<Candle>, s: State): int {
    3 * (|c| - s.idx) + Echo(s.reports)
  }

  lemma LandTaken(s: State, found: seq<Report>, n: nat)
    requires EndsTaken(found) && n >= 1
    ensures Land(s, found, n) == State(s.idx + Advance(found), s.reports + found)
  {
    var slice := Tail(s.reports + found, n);
    assert slice[|slice| - 1] == found[|found| - 1];
  }

  lemma TakenAdvances(en: Engine, c: seq<Candle>, s: State)
    requires s.idx < |c| && EndsTaken(Found(en, c, s.idx))
    ensures Step(en, c, s) == State(s.idx + Advance(Found(en, c, s.idx)), s.reports + Found(en, c, s.idx))
  {
    hide Found, Land;
    LandTaken(s, Found(en, c, s.idx), Width(en, c, s.idx));
  }

  /** The only pass that does not advance and is not stuck: of two directions one was gated, the other rejected,
      and the last report was a taken trade. It appends one rejection. */
  lemma StalledOnce(s: State, found: seq<Report>, n: nat)
    requires 1 <= n <= 2 && 1 <= |found| <= n && forall i :: 0 <= i < |found| ==> !found[i].tradeTaken
    requires Land(s, found, n).idx == s.idx
    ensures |found| == 1 && Echo(s.reports) == 2 && Echo(Land(s, found, n).reports) == 1
  {
    var reports := s.reports + found;
    var slice := Tail(reports, n);
    assert Advance(found) == 0;
    assert AnyTaken(slice);
    var i :| 0 <= i < |slice| && slice[i].tradeTaken;
    assert slice[i] == reports[|reports| - |slice| + i];
    assert |reports| - |slice| + i < |s.reports|;
  }

  /** With live gates, the first seven hours of every UTC day are closed to all symbols but the two majors. */
  lemma NightIsGated(en: Engine, history: seq<Candle>, d: Direction, day: int, ms: int)
    requires en.liveGates && !en.majorSymbol && history != []
    requires 0 <= ms < 7 * 3_600_000 && history[|history| - 1].ts == day * 86_400_000 + ms
    ensures Gated(en, history, d)
  {
    HourOfDay(day, ms);
  }

  /** Any pass that is not stuck reduces the remaining work, gated bars included. */
  lemma StepProgress(en: Engine, c: seq<Candle>, s: State)
    requires s.idx < |c| && !Stuck(en, c, s)
    ensures Work(c, Step(en, c, s)) < Work(c, s)
    ensures Step(en, c, s).idx >= s.idx
  {
    hide Found;
    var found := Found(en, c, s.idx);
    if EndsTaken(found) {
      TakenAdvances(en, c, s);
    } else {
      assert forall i :: 0 <= i < |found| ==> !found[i].tradeTaken;
      assert found == [] ==> s.reports + found == s.reports;
      hide AnyTaken, Tail;
      if Step(en, c, s).idx == s.idx {
        StalledOnce(s, found, Width(en, c, s.idx));
      }
    }
  }

  lemma StuckStays(en: Engine, c: seq<Candle>, s: State)
    requires Stuck(en, c, s)
    ensures Step(en, c, s) == s
  {
    hide Found;
    assert s.reports + [] == s.reports;
  }

  lemma {:induction false} StuckForever(en: Engine, c: seq<Candle>, k: nat, m: nat)
    requires k <= m
    ensures Stuck(en, c, Iter(en, c, k)) ==> Iter(en, c, m) == Iter(en, c, k)
  {
    hide Step;
    if k < m && Stuck(en, c, Iter(en, c, k)) {
      StuckForever(en, c, k, m - 1);
      StuckStays(en, c, Iter(en, c, k));
    }
  }

  lemma {:induction false} DoneStays(en: Engine, c: seq<Candle>, k: nat, m: nat)
    requires k <= m && Done(en, c, k)
    ensures Iter(en, c, m) == Iter(en, c, k)
  {
    hide Step;
    if k < m {
      DoneStays(en, c, k, m - 1);
    }
  }

  lemma {:induction false} RunsOut(en: Engine, c: seq<Candle>, k: nat) returns (m: nat)
    requires NeverStuck(en, c)
    ensures Done(en, c, m)
    decreases Work(c, Iter(en, c, k)) + 3
  {
    var s := Iter(en, c, k);
    if s.idx >= |c| {
      m := k;
    } else {
      assert !Stuck(en, c, Iter(en, c, k));
      StepProgress(en, c, s);
      assert Iter(en, c, k + 1) == Step(en, c, s);
      m := RunsOut(en, c, k + 1);
    }
  }

  /** The loop terminates exactly when it never meets a bar whose directions are all gated while a taken
      trade is among the last reports it looks back on. */
  lemma TerminatesIff(en: Engine, c: seq<Candle>)
    ensures (exists k: nat :: Done(en, c, k)) <==> NeverStuck(en, c)
  {
    if NeverStuck(en, c) {
      var k := RunsOut(en, c, 0);
    } else {
      var k: nat :| Stuck(en, c, Iter(en, c, k));
      forall m: nat ensures !Done(en, c, m) {
        if m < k {
          if Done(en, c, m) {
            DoneStays(en, c, m, k);
            assert false;
          }
        } else {
          StuckForever(en, c, k, m);
        }
      }
    }
  }

  /** With live gates off every pass moves to a later bar, so the loop ends within |c| passes. */
  lemma GatesOffStep(en: Engine, c: seq<Candle>, s: State)
    requires !en.liveGates && s.idx < |c|
    ensures Step(en, c, s).idx > s.idx && !Stuck(en, c, s)
  {
    var regime := RegimeAt(en, c, s.idx);
    var found := Found(en, c, s.idx);
    GatesOffScan(en, c, s.idx, regime, Directions(regime));
    hide Found;
    if EndsTaken(found) {
      TakenAdvances(en, c, s);
    } else {
      assert Tail(s.reports + found, |found|) == found;
    }
  }

  lemma {:induction false} GatesOffScan(en: Engine, c: seq<Candle>, idx: nat, regime: Regime, ds: seq<Direction>)
    requires !en.liveGates && idx < |c|
    ensures EndsTaken(Scan(en, c, idx, regime, ds)) || |Scan(en, c, idx, regime, ds)| == |ds|
  {
    if ds != [] {
      GatesOffScan(en, c, idx, regime, ds[1..]);
    }
  }

  lemma {:induction false} GatesOffPace(en: Engine, c: seq<Candle>, k: nat)
    requires !en.liveGates
    ensures Done(en, c, k) || Iter(en, c, k).idx >= WARMUP + k
    ensures !Stuck(en, c, Iter(en, c, k))
  {
    hide Step, Found;
    if k > 0 {
      GatesOffPace(en, c, k - 1);
      var s := Iter(en, c, k - 1);
      if s.idx < |c| {
        GatesOffStep(en, c, s);
      }
    }
    var s := Iter(en, c, k);
    if s.idx < |c| {
      GatesOffStep(en, c, s);
    }
  }

  lemma GatesOffTerminates(en: Engine, c: seq<Candle>)
    requires !en.liveGates
    ensures Done(en, c, |c|) && NeverStuck(en, c)
  {
    GatesOffPace(en, c, |c|);
    forall k: nat ensures !Stuck(en, c, Iter(en, c, k)) {
      GatesOffPace(en, c, k);
    }
  }

  /** A live-gated run never ends once the bar right after a trade has every direction gated, for instance any
      bar between 00:00 and 07:00 UTC of a symbol other than the two majors. */
  lemma GatedAfterTradeDiverges(en: Engine, c: seq<Candle>, k: nat, m: nat)
    requires !Done(en, c, k) && EndsTaken(Found(en, c, Iter(en, c, k).idx))
    requires !Done(en, c, k + 1)
    requires Found(en, c, Iter(en, c, k + 1).idx) == []
    ensures !Done(en, c, m)
  {
    hide Iter, Step, Found, Stuck, Advance;
    var s := Iter(en, c, k);
    IterNext(en, c, k);
    TakenAdvances(en, c, s);
    GatedBehindTrade(en, c, Iter(en, c, k + 1));
    TerminatesIff(en, c);
  }

  lemma GatedBehindTrade(en: Engine, c: seq<Candle>, t: State)
    requires t.idx < |c| && EndsTaken(t.reports) && Found(en, c, t.idx) == []
    ensures Stuck(en, c, t)
  {
    hide Found, Width;
    var slice := Tail(t.reports, Width(en, c, t.idx));
    assert slice[|slice| - 1].tradeTaken;
  }

  /** An altcoin engine with live gates and the RANGE risk profile that takes every signal. */
  function MidnightEngine(): Engine {
    Engine(Costs(0.001, 0.0005, 0.00055, 0.0002, 0.0, 8), 65.0, true, true, false, None,
           _ => Range, (_, _, _) => (100.0, 1.0), _ => RiskProfile(0.7, Fixed, 240, true, 2.0, 1.2), x => x)
  }

  function FlatBar(hour: int): Candle {
    Candle(hour * 3_600_000, 100.0, 100.0, 100.0, 100.0, 1.0)
  }

  /** Sixty flat hourly candles; bar 50 is at 22:00 UTC and bar 52 at midnight. */
  function MidnightCandles(): seq<Candle> {
    seq(60, i => FlatBar(i + 20))
  }

  lemma FlatAtr(n: nat)
    requires ATR_PERIOD < n <= 60
    ensures Atr(MidnightCandles()[..n], ATR_PERIOD) == 0.0
  {
    var c := MidnightCandles()[..n];
    assert forall i :: 1 <= i < |c| ==> TrueRange(c, i) == 0.0;
    AtrWithinTrueRanges(c, ATR_PERIOD, 0.0, 0.0);
  }

  /** The trade entered at 22:00 with a stop distance of zero is out an hour later, and the loop then never gets past
      midnight. */
  lemma MidnightDiverges(m: nat)
    ensures !Done(MidnightEngine(), MidnightCandles(), m)
  {
    hide Outcome, Enter, Atr, Step, Iter;
    var en, c := MidnightEngine(), MidnightCandles();
    FlatAtr(51);
    DegenerateStop(en.costs, en.profileOf(Range), Range, 100.0, c, 50, Long, en.round8(Atr(c[..51], ATR_PERIOD)));
    var trade := Evaluate(en, c, 50, Range, Long);
    assert trade.tradeTaken && trade.barsHeld == 1;
    hide Evaluate;
    assert c[..51][50] == FlatBar(70) && c[..53][52] == FlatBar(72);
    assert Found(en, c, 50) == [trade];
    assert Found(en, c, 52) == [];
    hide Scan;
    FirstState(en, c);
    TakenAdvances(en, c, Iter(en, c, 0));
    IterNext(en, c, 0);
    GatedAfterTradeDiverges(en, c, 0, m);
  }

  /** The same trade on candles that end with its entry bar is closed at price zero and loses more than its budget,
      although its stop distance is zero. */
  lemma FlatLastBarExample()
    ensures var en, c := MidnightEngine(), MidnightCandles()[..51];
            var r := Trade(en, c, 50, Range, 100.0, Long);
            r.pnlGross == -0.10005 && RiskBudget(en.costs, en.profileOf(Range)) == 0.07
  {
    hide Atr;
    var c := MidnightCandles()[..51];
    FlatAtr(51);
    assert c[..51] == c && c[50] == FlatBar(70);
  }

  lemma FirstState(en: Engine, c: seq<Candle>)
    ensures Iter(en, c, 0) == State(WARMUP, [])
  {
  }

  lemma RunStep(en: Engine, c: seq<Candle>, k: nat)
    requires NeverStuck(en, c) && !Done(en, c, k)
    ensures var s := Iter(en, c, k);
            && Iter(en, c, k + 1) == Land(s, Found(en, c, s.idx), Width(en, c, s.idx))
            && 0 <= Work(c, s) && Work(c, Iter(en, c, k + 1)) < Work(c, s)
  {
    hide Iter, Found, Land, Stuck, Echo;
    assert !Stuck(en, c, Iter(en, c, k));
    StepProgress(en, c, Iter(en, c, k));
    IterNext(en, c, k);
  }

  /** The replay loop as written: one pass per bar, the first accepted direction enters and jumps past its exit. */
  method Run(en: Engine, c: seq<Candle>) returns (reports: seq<Report>)
    requires NeverStuck(en, c)
    ensures Completes(en, c, reports)
  {
    hide Found, Scan, AnyTaken, Tail, Atr, Advance, NeverStuck, Work, Echo, Gated, Directions;
    if |c| < WARMUP {
      assert Done(en, c, 0);
      return [];
    }
    reports := [];
    var idx: nat := WARMUP;
    var atrs := AtrArray(c, ATR_PERIOD);
    ghost var k := 0;
    while idx < |c|
      invariant State(idx, reports) == Iter(en, c, k)
      invariant atrs.Length == |c| && forall i :: 0 <= i < |c| ==> atrs[i] == Atr(c[..i + 1], ATR_PERIOD)
      decreases Work(c, State(idx, reports))
    {
      RunStep(en, c, k);
      var history := c[..idx + 1];
      var regime := en.classify(history);
      var directions := Directions(regime);
      var added := TryDirections(en, c, idx, regime, directions, atrs[idx]);
      FoundIs(en, c, idx);
      reports := reports + added;
      idx := idx + Advance(added);
      if !AnyTaken(Tail(reports, |directions|)) {
        idx := idx + 1;
      }
      k := k + 1;
    }
    assert Done(en, c, k);
  }

  lemma ScanFrom(en: Engine, c: seq<Candle>, idx: nat, regime: Regime, ds: seq<Direction>, i: nat)
    requires idx < |c| && i < |ds|
    ensures var rest := Scan(en, c, idx, regime, ds[i + 1..]);
            var r := Evaluate(en, c, idx, regime, ds[i]);
            Scan(en, c, idx, regime, ds[i..]) ==
            if Gated(en, c[..idx + 1], ds[i]) then rest else if r.tradeTaken then [r] else [r] + rest
  {
    hide Gated, Evaluate;
    assert ds[i..][1..] == ds[i + 1..];
  }

  lemma FoundIs(en: Engine, c: seq<Candle>, idx: nat)
    requires idx < |c|
    ensures var regime := en.classify(c[..idx + 1]);
            Found(en, c, idx) == Scan(en, c, idx, regime, Directions(regime)) && Width(en, c, idx) == |Directions(regime)|
  {
    hide Scan;
  }

  lemma ScanNothing(en: Engine, c: seq<Candle>, idx: nat, regime: Regime)
    requires idx < |c|
    ensures Scan(en, c, idx, regime, []) == []
  {
  }

  /** What direction i adds to the scan, in the terms of the loop. */
  lemma ScanAt(en: Engine, c: seq<Candle>, idx: nat, regime: Regime, ds: seq<Direction>, i: nat, atr: real)
    requires idx < |c| && i < |ds| && atr == Atr(c[..idx + 1], ATR_PERIOD)
    ensures var d := ds[i];
            var (score, volFactor) := en.route(c[..idx + 1], regime, d);
            var rest := Scan(en, c, idx, regime, ds[i + 1..]);
            Scan(en, c, idx, regime, ds[i..]) ==
            if Gated(en, c[..idx + 1], d) then rest
            else if score >= EffectiveGate(en, regime, volFactor)
            then [Outcome(en.costs, Enter(en.costs, en.profileOf(regime), regime, score, c, idx, d, en.round8(atr)), c)]
            else [Rejection(en, regime, score, d)] + rest
  {
    hide Scan, Evaluate, Rejection, EffectiveGate, Gated, Atr, Outcome, Enter;
    ScanFrom(en, c, idx, regime, ds, i);
    EvaluateIs(en, c, idx, regime, ds[i], atr);
  }

  /** The inner loop over directions, breaking on the first taken trade. */
  method TryDirections(en: Engine, c: seq<Candle>, idx: nat, regime: Regime, ds: seq<Direction>, atr: real)
    returns (added: seq<Report>)
    requires idx < |c| && atr == Atr(c[..idx + 1], ATR_PERIOD)
    ensures added == Scan(en, c, idx, regime, ds)
  {
    hide Scan, Rejection, EffectiveGate, Gated, Atr, Outcome, Enter;
    added := [];
    assert ds[0..] == ds;
    for i := 0 to |ds|
      invariant Scan(en, c, idx, regime, ds) == added + Scan(en, c, idx, regime, ds[i..])
    {
      var d := ds[i];
      ScanAt(en, c, idx, regime, ds, i, atr);
      if !Gated(en, c[..idx + 1], d) {
        var (score, volFactor) := en.route(c[..idx + 1], regime, d);
        if score >= EffectiveGate(en, regime, volFactor) {
          var report := SimulateTrade(en.costs, en.profileOf(regime), regime, score, c, idx, d, en.round8(atr));
          added := added + [report];
          return;
        }
        added := added + [Rejection(en, regime, score, d)];
      }
    }
    ScanNothing(en, c, idx, regime);
  }

  // ----- The reports of a run, read off the candles

  /** With live gates, 00:00 to 07:00 UTC is closed except to the two majors, and so is what the sector filter rejects. */
  lemma GatedIff(en: Engine, history: seq<Candle>, d: Direction)
    requires history != []
    ensures Gated(en, history, d) <==>
            en.liveGates &&
            (|| (!en.majorSymbol && history[|history| - 1].ts % 86_400_000 < 7 * 3_600_000)
             || (en.sectorApproves.Some? && !en.sectorApproves.value(history, d)))
  {
    var ts := history[|history| - 1].ts;
    HourOfDay(ts / 86_400_000, ts % 86_400_000);
  }

  /** The score of this side reaches the gate, which gives way by 20 in trends without microstructure data. */
  ghost predicate Accepted(en: Engine, c: seq<Candle>, b: nat, d: Direction)
    requires b < |c|
  {
    var regime := en.classify(c[..b + 1]);
    var (score, volFactor) := en.route(c[..b + 1], regime, d);
    var bonus := if !en.hasMicrostructure && (regime == TrendBull || regime == TrendBear) then 20.0 else 0.0;
    score + bonus >= en.gate * volFactor
  }

  /** What a report made on bar b says: the bar's regime, a side that regime trades and no gate closes, its score, and
      either the simulated trade or, below the gate, nothing but the risk profile. */
  ghost predicate ReportOn(en: Engine, c: seq<Candle>, b: nat, r: Report)
    requires b < |c|
  {
    var regime := en.classify(c[..b + 1]);
    && r.regime == regime && r.profile == en.profileOf(regime) && r.score == en.route(c[..b + 1], regime, r.direction).0
    && (regime == TrendBull ==> r.direction == Long) && (regime == TrendBear ==> r.direction == Short)
    && !Gated(en, c[..b + 1], r.direction)
    && (r.tradeTaken <==> Accepted(en, c, b, r.direction))
    && (if r.tradeTaken
        then && b + r.barsHeld < |c|
             && r == Outcome(en.costs, Enter(en.costs, r.profile, regime, r.score, c, b, r.direction,
                                             en.round8(Atr(c[..b + 1], 14))), c)
        else && r.barsHeld == 0 && r.entryTime == None && r.exitTime == None && r.exitPrice == None && r.exitReason == None
             && r.slPrice == None && r.tpPrice == None && r.entryPrice == 0.0 && r.amount == 0.0 && r.sizeMultiplier == 0.0
             && r.pnlGross == 0.0 && r.pnlNet == 0.0 && r.totalFees == 0.0 && r.totalFunding == 0.0)
  }

  lemma EvaluateReport(en: Engine, c: seq<Candle>, b: nat, d: Direction)
    requires b < |c|
    ensures var regime := en.classify(c[..b + 1]);
            var r := Evaluate(en, c, b, regime, d);
            && r.direction == d && (r.tradeTaken <==> Accepted(en, c, b, d))
            && ((regime == TrendBull ==> d == Long) && (regime == TrendBear ==> d == Short) && !Gated(en, c[..b + 1], d) ==>
                  ReportOn(en, c, b, r))
  {
    hide Gated, Atr, Outcome, Enter;
    var regime := en.classify(c[..b + 1]);
    var (score, _) := en.route(c[..b + 1], regime, d);
    var t := Enter(en.costs, en.profileOf(regime), regime, score, c, b, d, en.round8(Atr(c[..b + 1], ATR_PERIOD)));
    ReportAccounts(en.costs, en.profileOf(regime), regime, score, c, b, d, en.round8(Atr(c[..b + 1], ATR_PERIOD)));
    Levels(en.costs, en.profileOf(regime), regime, score, c, b, d, en.round8(Atr(c[..b + 1], ATR_PERIOD)));
    OutcomeFields(en.costs, t, c);
  }

  lemma ScanOne(en: Engine, c: seq<Candle>, b: nat, regime: Regime, d: Direction, rest: seq<Direction>)
    requires b < |c|
    ensures var r := Evaluate(en, c, b, regime, d);
            Scan(en, c, b, regime, [d] + rest) ==
            if Gated(en, c[..b + 1], d) then Scan(en, c, b, regime, rest)
            else if r.tradeTaken then [r] else [r] + Scan(en, c, b, regime, rest)
  {
    hide Evaluate, Gated;
    assert ([d] + rest)[1..] == rest;
  }

  /** One pass over bar b leaves a report for LONG, then one for SHORT: for each side the regime trades and no gate closes,
      except that an accepted LONG ends the pass. */
  lemma PassReports(en: Engine, c: seq<Candle>, b: nat)
    requires b < |c|
    ensures var regime := en.classify(c[..b + 1]);
            var long := regime != TrendBear && !Gated(en, c[..b + 1], Long);
            var short := regime != TrendBull && !Gated(en, c[..b + 1], Short) && !(long && Accepted(en, c, b, Long));
            var rs := Found(en, c, b);
            && |rs| == (if long then 1 else 0) + (if short then 1 else 0)
            && (long ==> rs[0].direction == Long) && (short ==> rs[|rs| - 1].direction == Short)
            && forall r :: r in rs ==> ReportOn(en, c, b, r)
  {
    hide Scan, Found, Evaluate, Gated, Accepted, ReportOn;
    var regime := en.classify(c[..b + 1]);
    FoundIs(en, c, b);
    EvaluateReport(en, c, b, Long);
    EvaluateReport(en, c, b, Short);
    ScanNothing(en, c, b, regime);
    ScanOne(en, c, b, regime, Long, []);
    ScanOne(en, c, b, regime, Short, []);
    ScanOne(en, c, b, regime, Long, [Short]);
    assert [Long] + [] == [Long] && [Short] + [] == [Short] && [Long] + [Short] == [Long, Short];
  }

  /** The bars on which the reports were made: they never go back, and after a trade go past its exit bar. */
  ghost predicate MadeOn(en: Engine, c: seq<Candle>, bars: seq<nat>, reports: seq<Report>) {
    && |bars| == |reports|
    && (forall i :: 0 <= i < |bars| ==> 50 <= bars[i] < |c| && ReportOn(en, c, bars[i], reports[i]))
    && (forall i, j :: 0 <= i < j < |bars| ==> bars[i] <= bars[j])
    && (forall i, j :: 0 <= i < j < |bars| && reports[i].tradeTaken ==> bars[i] + reports[i].barsHeld < bars[j])
  }

  lemma {:induction false} ReportsMadeOn(en: Engine, c: seq<Candle>, k: nat) returns (bars: seq<nat>)
    ensures MadeOn(en, c, bars, Iter(en, c, k).reports)
    ensures forall i :: 0 <= i < |bars| ==>
              bars[i] <= Iter(en, c, k).idx
              && (Iter(en, c, k).reports[i].tradeTaken ==> bars[i] + Iter(en, c, k).reports[i].barsHeld < Iter(en, c, k).idx)
    ensures Iter(en, c, k).idx >= 50
  {
    hide Step, Found, ReportOn;
    if k == 0 {
      bars := [];
    } else {
      bars := ReportsMadeOn(en, c, k - 1);
      var s := Iter(en, c, k - 1);
      if s.idx < |c| {
        StepMade(en, c, s, bars);
        bars := bars + seq(|Found(en, c, s.idx)|, _ => s.idx);
      }
    }
  }

  lemma StepMade(en: Engine, c: seq<Candle>, s: State, bars: seq<nat>)
    requires 50 <= s.idx < |c| && MadeOn(en, c, bars, s.reports)
    requires forall i :: 0 <= i < |bars| ==>
               bars[i] <= s.idx && (s.reports[i].tradeTaken ==> bars[i] + s.reports[i].barsHeld < s.idx)
    ensures var t, bars' := Step(en, c, s), bars + seq(|Found(en, c, s.idx)|, _ => s.idx);
            && t.idx >= s.idx
            && MadeOn(en, c, bars', t.reports)
            && forall i :: 0 <= i < |bars'| ==>
                 bars'[i] <= t.idx && (t.reports[i].tradeTaken ==> bars'[i] + t.reports[i].barsHeld < t.idx)
  {
    hide Step, Scan, Found, ReportOn, Accepted, Gated;
    var found := Found(en, c, s.idx);
    StepReports(en, c, s);
    PassReports(en, c, s.idx);
    forall i | 0 <= i < |found| ensures ReportOn(en, c, s.idx, found[i]) {
      assert found[i] in found;
    }
  }

  lemma StepReports(en: Engine, c: seq<Candle>, s: State)
    requires s.idx < |c|
    ensures var t, found := Step(en, c, s), Found(en, c, s.idx);
            && t.reports == s.reports + found && t.idx >= s.idx
            && forall i :: 0 <= i < |found| && found[i].tradeTaken ==> i == |found| - 1 && s.idx + found[i].barsHeld < t.idx
  {
    hide Scan, AnyTaken, Tail;
  }

  /** Every report of a completed run was made on some bar, in bar order, by the rules above. */
  lemma RunReports(en: Engine, c: seq<Candle>, reports: seq<Report>) returns (bars: seq<nat>)
    requires Completes(en, c, reports)
    ensures MadeOn(en, c, bars, reports)
  {
    hide MadeOn;
    var k: nat :| Done(en, c, k) && Iter(en, c, k).reports == reports;
    bars := ReportsMadeOn(en, c, k);
  }

  // ----- Trades do not overlap

  lemma StepGrows(en: Engine, c: seq<Candle>, s: State)
    requires s.idx < |c|
    ensures s.idx <= Step(en, c, s).idx && s.reports <= Step(en, c, s).reports
  {
    hide Scan, AnyTaken;
  }

  lemma {:induction false} LaterIndex(en: Engine, c: seq<Candle>, k: nat, m: nat)
    requires k <= m
    ensures Iter(en, c, k).idx <= Iter(en, c, m).idx
    ensures Iter(en, c, k).reports <= Iter(en, c, m).reports
  {
    hide Step;
    if k < m {
      LaterIndex(en, c, k, m - 1);
      var s := Iter(en, c, m - 1);
      if s.idx < |c| {
        StepGrows(en, c, s);
      }
    }
  }

  /** Entry price, stop distance and target distance of a trade entered on bar b. */
  ghost function LevelsAt(en: Engine, c: seq<Candle>, b: nat, d: Direction): (real, real, real)
    requires b < |c|
  {
    var p, atr, slip := en.profileOf(en.classify(c[..b + 1])), en.round8(Atr(c[..b + 1], 14)), en.costs.slippage;
    (if d == Long then c[b].close * (1.0 + slip) else c[b].close * (1.0 - slip), atr * p.slAtrBuffer, atr * p.trailAtrMult)
  }

  /** The candles keep a trade of direction d, entered on bar b, open up to bar x. */
  ghost predicate OpenUntil(en: Engine, c: seq<Candle>, b: nat, d: Direction, x: nat)
    requires b < |c|
  {
    var (entry, stop, target) := LevelsAt(en, c, b, d);
    var p := en.profileOf(en.classify(c[..b + 1]));
    if d == Long then LongOpenUntil(entry, stop, target, p, c, b, x) else ShortOpenUntil(entry, stop, target, p, c, b, x)
  }

  /** A pass that enters a trade on bar b is followed only by passes on bars after the one on which the candles close it. */
  lemma TradesDoNotOverlap(en: Engine, c: seq<Candle>, k: nat, m: nat, x: nat)
    requires k < m && !Done(en, c, k)
    requires EndsTaken(Found(en, c, Iter(en, c, k).idx))
    requires var b := Iter(en, c, k).idx;
             var found := Found(en, c, b);
             OpenUntil(en, c, b, found[|found| - 1].direction, x)
    ensures Iter(en, c, m).idx > x
  {
    var s := Iter(en, c, k);
    hide Iter, Step, Scan, OpenUntil;
    IterNext(en, c, k);
    TakenAdvances(en, c, s);
    LaterIndex(en, c, k + 1, m);
    PassReports(en, c, s.idx);
    var found := Found(en, c, s.idx);
    assert found[|found| - 1] in found;
    BeforeLast(en, c, s.idx, found[|found| - 1].direction, x);
    HeldOpen(en, c, s.idx, found[|found| - 1]);
    OpenUntilUnique(en, c, s.idx, found[|found| - 1].direction, x, s.idx + found[|found| - 1].barsHeld);
  }

  /** Bars held lead from the entry bar to the bar on which the candles close the trade. */
  lemma HeldOpen(en: Engine, c: seq<Candle>, b: nat, r: Report)
    requires b + 1 < |c| && ReportOn(en, c, b, r) && r.tradeTaken
    ensures OpenUntil(en, c, b, r.direction, b + r.barsHeld)
  {
    hide Atr, Outcome, LongOpenUntil, ShortOpenUntil, LongLeftBy, ShortLeftBy, Accepted, Gated;
    var regime := en.classify(c[..b + 1]);
    var p, atr := en.profileOf(regime), en.round8(Atr(c[..b + 1], 14));
    var (entry, stop, target) := LevelsAt(en, c, b, r.direction);
    match r.direction
    case Long =>
      LongReport(en.costs, p, regime, r.score, c, b, atr, entry, stop, target);
    case Short =>
      ShortReport(en.costs, p, regime, r.score, c, b, atr, entry, stop, target);
  }

  lemma BeforeLast(en: Engine, c: seq<Candle>, b: nat, d: Direction, x: nat)
    requires b < |c| && OpenUntil(en, c, b, d, x)
    ensures b + 1 < |c|
  {
  }

  lemma OpenUntilUnique(en: Engine, c: seq<Candle>, b: nat, d: Direction, x: nat, y: nat)
    requires b < |c| && OpenUntil(en, c, b, d, x) && OpenUntil(en, c, b, d, y)
    ensures x == y
  {
    hide LevelsAt, LongOpenUntil, ShortOpenUntil;
    var (entry, stop, target) := LevelsAt(en, c, b, d);
    OpenUnique(entry, stop, target, en.profileOf(en.classify(c[..b + 1])), c, b, x, y);
  }

  lemma OpenUnique(entry: real, stop: real, target: real, p: RiskProfile, c: seq<Candle>, b: nat, x: nat, y: nat)
    ensures LongOpenUntil(entry, stop, target, p, c, b, x) && LongOpenUntil(entry, stop, target, p, c, b, y) ==> x == y
    ensures ShortOpenUntil(entry, stop, target, p, c, b, x) && ShortOpenUntil(entry, stop, target, p, c, b, y) ==> x == y
  {
    hide LongUntil, ShortUntil;
    var trailing, limit := p.takeProfit == Trailing, p.maxHoldMins / 60;
    UntilUnique(c, b, x, y, entry, entry - stop, if trailing then None else Some(entry + target), limit);
    UntilUnique(c, b, x, y, entry, entry + stop, if trailing then None else Some(entry - target), limit);
  }

  /** The pass m starts on bar b, or enters a trade that skips it: the trade's bars, at least one, lie after its entry. */
  ghost predicate Reaches(en: Engine, c: seq<Candle>, m: nat, b: nat) {
    var i := Iter(en, c, m).idx;
    i < |c| && (i == b || (i < b && EndsTaken(Found(en, c, i)) &&
                           b <= i + (if LastOf(Found(en, c, i)).barsHeld < 1 then 1 else LastOf(Found(en, c, i)).barsHeld)))
  }

  function LastOf(rs: seq<Report>): Report
    requires rs != []
  {
    rs[|rs| - 1]
  }

  /** From bar 50 on no bar is left out: each is visited by a pass or lies inside a trade. */
  lemma {:induction false} NoBarSkipped(en: Engine, c: seq<Candle>, k: nat, b: nat) returns (m: nat)
    requires 50 <= b < Iter(en, c, k).idx && b < |c|
    ensures m < k && Reaches(en, c, m, b)
  {
    hide Step, Found;
    var s := Iter(en, c, k - 1);
    if b < s.idx {
      m := NoBarSkipped(en, c, k - 1, b);
    } else {
      m := k - 1;
      StepAdvance(en, c, s);
    }
  }

  lemma StepAdvance(en: Engine, c: seq<Candle>, s: State)
    requires s.idx < |c|
    ensures var found := Found(en, c, s.idx);
            Step(en, c, s).idx <= if EndsTaken(found)
                                  then s.idx + (if LastOf(found).barsHeld < 1 then 1 else LastOf(found).barsHeld) + 1
                                  else s.idx + 1
  {
    hide Found;
    if EndsTaken(Found(en, c, s.idx)) {
      TakenAdvances(en, c, s);
    }
  }

  // ----- No look-ahead

  /** Reports with a final end-of-data report, if there is one, removed. */
  function Settled(rs: seq<Report>): seq<Report> {
    if rs != [] && rs[|rs| - 1].exitReason == Some(EndOfData) then rs[..|rs| - 1] else rs
  }

  lemma {:induction false} SameFirstExit(t: Plan, c: seq<Candle>, longer: seq<Candle>, j: nat)
    requires t.entry < j < |c| && c <= longer
    ensures var x := FirstExit(t, c, j);
            ExitAt(t, c, x) == Some(EndOfData) ||
            (FirstExit(t, longer, j) == x && ExitAt(t, longer, x) == ExitAt(t, c, x))
    decreases |c| - j
  {
    hide StopTouched, TargetTouched, HeldTooLong;
    assert longer[j] == c[j];
    if ExitAt(t, c, j).None? {
      SameFirstExit(t, c, longer, j + 1);
    }
  }

  lemma SameTrade(en: Engine, c: seq<Candle>, longer: seq<Candle>, idx: nat, regime: Regime, score: real, d: Direction)
    requires idx < |c| && c <= longer
    ensures var r := Trade(en, c, idx, regime, score, d);
            || r == Trade(en, longer, idx, regime, score, d)
            || (r.exitReason == Some(EndOfData) && idx + Advance([r]) >= |c|)
  {
    assert longer[..idx + 1] == c[..idx + 1];
    var atr := en.round8(Atr(c[..idx + 1], ATR_PERIOD));
    var t := Enter(en.costs, en.profileOf(regime), regime, score, c, idx, d, atr);
    assert t == Enter(en.costs, en.profileOf(regime), regime, score, longer, idx, d, atr);
    if idx + 1 < |c| {
      SameOutcome(en.costs, t, c, longer);
    }
  }

  lemma SameOutcome(k: Costs, t: Plan, c: seq<Candle>, longer: seq<Candle>)
    requires t.entry + 1 < |c| && c <= longer
    ensures var r := Outcome(k, t, c);
            || r == Outcome(k, t, longer)
            || (r.exitReason == Some(EndOfData) && t.entry + r.barsHeld == |c| - 1)
  {
    hide Funding, Gross, StopTouched, TargetTouched, HeldTooLong;
    SameFirstExit(t, c, longer, t.entry + 1);
  }

  lemma SameEvaluation(en: Engine, c: seq<Candle>, longer: seq<Candle>, idx: nat, regime: Regime, d: Direction)
    requires idx < |c| && c <= longer
    ensures var r, r' := Evaluate(en, c, idx, regime, d), Evaluate(en, longer, idx, regime, d);
            || r == r'
            || (r.tradeTaken && r'.tradeTaken && r.exitReason == Some(EndOfData) && idx + Advance([r]) >= |c|)
  {
    hide Trade, EffectiveGate;
    assert longer[..idx + 1] == c[..idx + 1];
    var (score, _) := en.route(c[..idx + 1], regime, d);
    SameTrade(en, c, longer, idx, regime, score, d);
  }

  /** Two scans of bar idx agree, unless the history of n candles ran out inside the entered trade. */
  predicate ScansAgree(rs: seq<Report>, rs': seq<Report>, idx: nat, n: nat) {
    || rs == rs'
    || (EndsTaken(rs) && rs[|rs| - 1].exitReason == Some(EndOfData) && idx + Advance(rs) >= n
        && rs[..|rs| - 1] <= rs')
  }

  lemma ScansAgreeCons(r: Report, rs: seq<Report>, rs': seq<Report>, idx: nat, n: nat)
    requires ScansAgree(rs, rs', idx, n)
    ensures ScansAgree([r] + rs, [r] + rs', idx, n)
  {
    if rs != rs' {
      assert ([r] + rs)[..|rs|] == [r] + rs[..|rs| - 1];
    }
  }

  lemma {:induction false} SameScan(en: Engine, c: seq<Candle>, longer: seq<Candle>, idx: nat, regime: Regime, ds: seq<Direction>)
    requires idx < |c| && c <= longer
    ensures ScansAgree(Scan(en, c, idx, regime, ds), Scan(en, longer, idx, regime, ds), idx, |c|)
  {
    if ds == [] {
      ScanNothing(en, c, idx, regime);
      ScanNothing(en, longer, idx, regime);
    } else {
      hide Scan, Evaluate, Gated;
      assert longer[..idx + 1] == c[..idx + 1] && ds[0..] == ds;
      SameScan(en, c, longer, idx, regime, ds[1..]);
      SameEvaluation(en, c, longer, idx, regime, ds[0]);
      ScanFrom(en, c, idx, regime, ds, 0);
      ScanFrom(en, longer, idx, regime, ds, 0);
      var r := Evaluate(en, c, idx, regime, ds[0]);
      ScansAgreeCons(r, Scan(en, c, idx, regime, ds[1..]), Scan(en, longer, idx, regime, ds[1..]), idx, |c|);
    }
  }

  ghost predicate CutShort(s: State, s': State, n: nat) {
    s.idx >= n && s.reports != [] && s.reports[|s.reports| - 1].exitReason == Some(EndOfData)
    && s.reports[..|s.reports| - 1] <= s'.reports
  }

  lemma SameFound(en: Engine, c: seq<Candle>, longer: seq<Candle>, idx: nat)
    requires idx < |c| && c <= longer
    ensures ScansAgree(Found(en, c, idx), Found(en, longer, idx), idx, |c|) && Width(en, longer, idx) == Width(en, c, idx)
  {
    hide Scan, ScansAgree;
    assert longer[..idx + 1] == c[..idx + 1];
    var regime := RegimeAt(en, c, idx);
    SameScan(en, c, longer, idx, regime, Directions(regime));
  }

  lemma SameStep(en: Engine, c: seq<Candle>, longer: seq<Candle>, s: State)
    requires s.idx < |c| && c <= longer
    ensures var t, t' := Step(en, c, s), Step(en, longer, s);
            t == t' || CutShort(t, t', |c|)
  {
    hide Step, Scan, Found, Width, Advance;
    SameFound(en, c, longer, s.idx);
    var rs, rs' := Found(en, c, s.idx), Found(en, longer, s.idx);
    if rs == rs' {
      SameLanding(en, c, longer, s);
    } else {
      TakenAdvances(en, c, s);
      StepReports(en, longer, s);
      CutStep(s, Step(en, c, s), Step(en, longer, s), rs, rs', |c|);
    }
  }

  lemma SameLanding(en: Engine, c: seq<Candle>, longer: seq<Candle>, s: State)
    requires s.idx < |c| <= |longer|
    requires Found(en, longer, s.idx) == Found(en, c, s.idx) && Width(en, longer, s.idx) == Width(en, c, s.idx)
    ensures Step(en, longer, s) == Step(en, c, s)
  {
    hide Found, Width, Land;
  }

  lemma CutStep(s: State, t: State, t': State, rs: seq<Report>, rs': seq<Report>, n: nat)
    requires t == State(s.idx + Advance(rs), s.reports + rs) && t'.reports == s.reports + rs'
    requires EndsTaken(rs) && rs[|rs| - 1].exitReason == Some(EndOfData) && s.idx + Advance(rs) >= n && rs[..|rs| - 1] <= rs'
    ensures CutShort(t, t', n)
  {
    hide Advance;
    assert (s.reports + rs)[..|s.reports + rs| - 1] == s.reports + rs[..|rs| - 1];
  }

  lemma {:induction false} SameRun(en: Engine, c: seq<Candle>, longer: seq<Candle>, k: nat)
    requires c <= longer
    ensures var s, s' := Iter(en, c, k), Iter(en, longer, k);
            s == s' || CutShort(s, s', |c|) || (s.idx >= |c| && s.reports <= s'.reports)
  {
    hide Step;
    if k > 0 {
      SameRun(en, c, longer, k - 1);
      var s, s' := Iter(en, c, k - 1), Iter(en, longer, k - 1);
      LaterIndex(en, longer, k - 1, k);
      if s.idx < |c| {
        SameStep(en, c, longer, s);
      }
    }
  }

  /** No look-ahead: appending candles never changes a settled report of a completed run. */
  lemma NoLookAhead(en: Engine, c: seq<Candle>, longer: seq<Candle>, reports: seq<Report>, reports': seq<Report>)
    requires c <= longer
    ensures Completes(en, c, reports) && Completes(en, longer, reports') ==> Settled(reports) <= reports'
  {
    hide Step;
    if Completes(en, c, reports) && Completes(en, longer, reports') {
      var k: nat :| Done(en, c, k) && Iter(en, c, k).reports == reports;
      var k': nat :| Done(en, longer, k') && Iter(en, longer, k').reports == reports';
      var m := if k < k' then k' else k;
      DoneStays(en, c, k, m);
      DoneStays(en, longer, k', m);
      SameRun(en, c, longer, m);
    }
  }

  /** The result of a completed run does not depend on how long one waits for it. */
  lemma CompletesOnce(en: Engine, c: seq<Candle>, reports: seq<Report>, reports': seq<Report>)
    requires Completes(en, c, reports) && Completes(en, c, reports')
    ensures reports == reports'
  {
    var k: nat :| Done(en, c, k) && Iter(en, c, k).reports == reports;
    var k': nat :| Done(en, c, k') && Iter(en, c, k').reports == reports';
    DoneStays(en, c, k, if k < k' then k' else k);
    DoneStays(en, c, k', if k < k' then k' else k);
  }
}
