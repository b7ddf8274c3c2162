/** When the replay loop terminates, decided on the candles, the gates and the risk profiles before any score is known. */
module BacktestTermination {
  import opened Prelude
  import opened AverageTrueRange
  import opened TradeSimulation
  import opened BacktestRun

  type Router = (seq<Candle>, Regime, Direction) -> (real, real)

  function WithRouter(en: Engine, route: Router): Engine {
    en.(route := route)
  }

  /** Every direction of the bar is gated. */
  predicate FullyGated(en: Engine, c: seq<Candle>, b: nat)
    requires b < |c|
  {
    forall d :: d in Directions(RegimeAt(en, c, b)) ==> Gated(en, c[..b + 1], d)
  }

  lemma FoundNothingIff(en: Engine, c: seq<Candle>, b: nat)
    requires b < |c|
    ensures Found(en, c, b) == [] <==> FullyGated(en, c, b)
  {
    hide Gated;
    var ds := Directions(RegimeAt(en, c, b));
    assert forall i :: 0 <= i < |ds| ==> ds[i] in ds;
  }

  // ----- A sufficient condition on the bars alone

  lemma {:induction false} AfterWarmup(en: Engine, c: seq<Candle>, k: nat)
    ensures Iter(en, c, k).idx >= WARMUP
  {
    LaterIndex(en, c, 0, k);
  }

  /** If every bar from the fiftieth on has an ungated direction, the run ends. */
  lemma UngatedBarsTerminate(en: Engine, c: seq<Candle>)
    requires forall b :: WARMUP <= b < |c| ==> !FullyGated(en, c, b)
    ensures NeverStuck(en, c) && exists k: nat :: Done(en, c, k)
  {
    hide Iter, FullyGated, Found;
    forall k: nat ensures !Stuck(en, c, Iter(en, c, k)) {
      AfterWarmup(en, c, k);
      var s := Iter(en, c, k);
      if s.idx < |c| {
        FoundNothingIff(en, c, s.idx);
      }
    }
    TerminatesIff(en, c);
  }

  // ----- Entries, where they land, and traps

  lemma {:induction false} FirstExitIgnoresScore(t: Plan, x: real, c: seq<Candle>, j: nat)
    requires t.entry < j < |c|
    ensures FirstExit(t.(score := x), c, j) == FirstExit(t, c, j)
    ensures ExitAt(t.(score := x), c, j) == ExitAt(t, c, j)
    decreases |c| - j
  {
    if ExitAt(t, c, j).None? {
      FirstExitIgnoresScore(t, x, c, j + 1);
    }
  }

  /** Bars held by a trade of direction d entered on bar e; the score plays no part. */
  function Held(en: Engine, c: seq<Candle>, e: nat, d: Direction): nat
    requires e < |c|
  {
    Trade(en, c, e, RegimeAt(en, c, e), 0.0, d).barsHeld
  }

  lemma HeldIgnoresScore(en: Engine, c: seq<Candle>, e: nat, score: real, d: Direction)
    requires e < |c|
    ensures Trade(en, c, e, RegimeAt(en, c, e), score, d).barsHeld == Held(en, c, e, d)
  {
    hide Atr, EntryPrice, StopPrice, TargetPrice, Amount, Funding, Gross;
    var regime := RegimeAt(en, c, e);
    var atr := en.round8(Atr(c[..e + 1], ATR_PERIOD));
    var t := Enter(en.costs, en.profileOf(regime), regime, 0.0, c, e, d, atr);
    assert Enter(en.costs, en.profileOf(regime), regime, score, c, e, d, atr) == t.(score := score);
    if e + 1 < |c| {
      FirstExitIgnoresScore(t, score, c, e + 1);
      hide FirstExit, ExitAt;
    }
  }

  /** Bar the loop goes to after such a trade. */
  function Landing(en: Engine, c: seq<Candle>, e: nat, d: Direction): (l: nat)
    requires e < |c|
    ensures l > e + 1
  {
    e + (if Held(en, c, e, d) < 1 then 1 else Held(en, c, e, d)) + 1
  }

  /** A trade of direction d may be entered on bar e. */
  predicate Entry(en: Engine, c: seq<Candle>, e: nat, d: Direction) {
    WARMUP <= e < |c| && d in Directions(RegimeAt(en, c, e)) && !Gated(en, c[..e + 1], d)
  }

  /** From `from` up to bar b, excluded, every bar is a fully gated bar of one direction. */
  predicate QuietUntil(en: Engine, c: seq<Candle>, from: nat, b: nat) {
    forall j :: from <= j < b && j < |c| ==> FullyGated(en, c, j) && Width(en, c, j) == 1
  }

  /** Landing here can hang the loop: the bar is fully gated, or it has one direction and is followed, over fully
      gated bars of one direction, by a fully gated bar of two. */
  ghost predicate Trap(en: Engine, c: seq<Candle>, l: nat) {
    l < |c| &&
    (|| FullyGated(en, c, l)
     || (Width(en, c, l) == 1 &&
         exists b :: l < b < |c| && FullyGated(en, c, b) && Width(en, c, b) == 2 && QuietUntil(en, c, l + 1, b)))
  }

  ghost predicate NoEntryLandsInTrap(en: Engine, c: seq<Candle>) {
    forall e, d :: Entry(en, c, e, d) ==> !Trap(en, c, Landing(en, c, e, d))
  }

  /** Some entry lands on bar l. */
  ghost predicate LandedOn(en: Engine, c: seq<Candle>, l: nat) {
    exists e, d :: Entry(en, c, e, d) && l == Landing(en, c, e, d)
  }

  lemma LandedOnNoTrap(en: Engine, c: seq<Candle>, l: nat)
    requires NoEntryLandsInTrap(en, c) && LandedOn(en, c, l)
    ensures !Trap(en, c, l)
  {
    hide Trap, Landing;
  }

  // ----- Without such an entry no router can hang the loop

  /** A taken trade among the last two reports came from an entry whose landing bar the loop has not really left. */
  ghost predicate Traced(en: Engine, c: seq<Candle>, s: State) {
    && s.idx >= WARMUP
    && (Echo(s.reports) == 2 ==> LandedOn(en, c, s.idx))
    && (Echo(s.reports) == 1 ==> exists l :: LandedOn(en, c, l) && Lingers(en, c, s.idx, l))
  }

  /** After one rejection since the trade: still on the landing bar, or past it over quiet bars only. */
  ghost predicate Lingers(en: Engine, c: seq<Candle>, idx: nat, l: nat) {
    && l < |c| && !FullyGated(en, c, l)
    && (idx == l || (l < idx && Width(en, c, l) == 1 && QuietUntil(en, c, l + 1, idx)))
  }

  /** A scan that ends in a taken trade entered it through an ungated direction of the list. */
  lemma {:induction false} ScanTakes(en: Engine, c: seq<Candle>, idx: nat, regime: Regime, ds: seq<Direction>) returns (d: Direction)
    requires idx < |c| && EndsTaken(Scan(en, c, idx, regime, ds))
    ensures d in ds && !Gated(en, c[..idx + 1], d)
    ensures var rs := Scan(en, c, idx, regime, ds);
            rs[|rs| - 1] == Evaluate(en, c, idx, regime, d)
  {
    hide Scan, Evaluate, Gated;
    if ds == [] {
      ScanNothing(en, c, idx, regime);
      d := Long;
    } else {
      assert ds[0..] == ds;
      ScanFrom(en, c, idx, regime, ds, 0);
      var r := Evaluate(en, c, idx, regime, ds[0]);
      if !Gated(en, c[..idx + 1], ds[0]) && (r.tradeTaken || Scan(en, c, idx, regime, ds[1..]) == []) {
        d := ds[0];
      } else {
        d := ScanTakes(en, c, idx, regime, ds[1..]);
      }
    }
  }

  /** The bars an evaluation that takes a trade holds it. */
  lemma TakenHeld(en: Engine, c: seq<Candle>, idx: nat, d: Direction)
    requires idx < |c|
    ensures var r := Evaluate(en, c, idx, RegimeAt(en, c, idx), d);
            r.tradeTaken ==> r.barsHeld == Held(en, c, idx, d)
  {
    hide Trade, Held, EffectiveGate;
    var regime := RegimeAt(en, c, idx);
    var (score, _) := en.route(c[..idx + 1], regime, d);
    HeldIgnoresScore(en, c, idx, score, d);
  }

  lemma LandsAt(en: Engine, c: seq<Candle>, s: State, d: Direction)
    requires s.idx < |c| && EndsTaken(Found(en, c, s.idx))
    requires var rs := Found(en, c, s.idx);
             rs[|rs| - 1] == Evaluate(en, c, s.idx, RegimeAt(en, c, s.idx), d)
    ensures Step(en, c, s).idx == Landing(en, c, s.idx, d) && Echo(Step(en, c, s).reports) == 2
  {
    hide Found, Evaluate, Held, Step;
    TakenHeld(en, c, s.idx, d);
    TakenAdvances(en, c, s);
  }

  /** A taken trade is an entry and advances the loop to its landing bar. */
  lemma TakenLands(en: Engine, c: seq<Candle>, s: State) returns (d: Direction)
    requires WARMUP <= s.idx < |c| && EndsTaken(Found(en, c, s.idx))
    ensures Entry(en, c, s.idx, d) && Step(en, c, s).idx == Landing(en, c, s.idx, d)
    ensures Echo(Step(en, c, s).reports) == 2
  {
    hide Scan, Evaluate, Landing, Gated, Step;
    var regime := RegimeAt(en, c, s.idx);
    d := ScanTakes(en, c, s.idx, regime, Directions(regime));
    LandsAt(en, c, s, d);
  }

  /** What a pass without a taken trade does to the look-back and the index. */
  lemma LandRejected(s: State, found: seq<Report>, n: nat)
    requires 1 <= n <= 2 && |found| <= n && forall i :: 0 <= i < |found| ==> !found[i].tradeTaken
    ensures var t := Land(s, found, n);
            && (found == [] ==> t.reports == s.reports)
            && (found == [] ==> t.idx == if Echo(s.reports) == 2 || (Echo(s.reports) == 1 && n == 2) then s.idx else s.idx + 1)
            && (|found| == 1 && Echo(s.reports) == 2 ==> Echo(t.reports) == 1 && t.idx == if n == 2 then s.idx else s.idx + 1)
            && (|found| == 2 || (|found| == 1 && Echo(s.reports) <= 1) ==> Echo(t.reports) == 0 && t.idx == s.idx + 1)
  {
    var reports := s.reports + found;
    var slice := Tail(reports, n);
    assert Advance(found) == 0;
    if found == [] {
      assert reports == s.reports;
    }
    if |slice| >= 1 {
      assert slice[|slice| - 1] == reports[|reports| - 1];
    }
    if |slice| == 2 {
      assert slice[0] == reports[|reports| - 2];
    }
    assert AnyTaken(slice) <==>
           (|slice| >= 1 && slice[|slice| - 1].tradeTaken) || (|slice| == 2 && slice[0].tradeTaken);
  }

  lemma TracedNotStuck(en: Engine, c: seq<Candle>, s: State)
    requires NoEntryLandsInTrap(en, c) && Traced(en, c, s) && s.idx < |c|
    requires FullyGated(en, c, s.idx)
    ensures Echo(s.reports) != 2 && (Echo(s.reports) == 1 ==> Width(en, c, s.idx) == 1)
  {
    hide FullyGated, LandedOn, NoEntryLandsInTrap, Width;
    if Echo(s.reports) == 2 {
      LandedOnNoTrap(en, c, s.idx);
    } else if Echo(s.reports) == 1 {
      var l :| LandedOn(en, c, l) && Lingers(en, c, s.idx, l);
      LandedOnNoTrap(en, c, l);
      QuietGrows(en, c, s.idx, l);
    }
  }

  lemma StuckIsEcho(en: Engine, c: seq<Candle>, s: State)
    requires Stuck(en, c, s)
    ensures FullyGated(en, c, s.idx)
    ensures Echo(s.reports) == 2 || (Echo(s.reports) == 1 && Width(en, c, s.idx) == 2)
  {
    hide Found, FullyGated;
    FoundNothingIff(en, c, s.idx);
    LandRejected(s, [], Width(en, c, s.idx));
    hide Width;
    StuckStays(en, c, s);
  }

  lemma TracedStep(en: Engine, c: seq<Candle>, s: State)
    requires NoEntryLandsInTrap(en, c) && Traced(en, c, s) && s.idx < |c|
    ensures Traced(en, c, Step(en, c, s))
  {
    hide Found, FullyGated, Landing, Entry, Land;
    var found := Found(en, c, s.idx);
    if EndsTaken(found) {
      var d := TakenLands(en, c, s);
    } else {
      assert forall i :: 0 <= i < |found| ==> !found[i].tradeTaken;
      TracedRejected(en, c, s, found);
    }
  }

  lemma TracedRejected(en: Engine, c: seq<Candle>, s: State, found: seq<Report>)
    requires NoEntryLandsInTrap(en, c) && Traced(en, c, s) && s.idx < |c| && found == Found(en, c, s.idx)
    requires forall i :: 0 <= i < |found| ==> !found[i].tradeTaken
    ensures Traced(en, c, Land(s, found, Width(en, c, s.idx)))
  {
    hide Found, FullyGated, LandedOn, NoEntryLandsInTrap, Land, Echo;
    var n := Width(en, c, s.idx);
    FoundNothingIff(en, c, s.idx);
    LandRejected(s, found, n);
    LandKeepsOrder(s, found, n);
    var t := Land(s, found, n);
    if found == [] {
      TracedNotStuck(en, c, s);
      if Echo(s.reports) == 1 {
        var l :| LandedOn(en, c, l) && Lingers(en, c, s.idx, l);
        LandedOnNoTrap(en, c, l);
        QuietGrows(en, c, s.idx, l);
      }
    } else if Echo(s.reports) == 2 && |found| == 1 {
      assert Lingers(en, c, t.idx, s.idx);
    }
  }

  lemma LandKeepsOrder(s: State, found: seq<Report>, n: nat)
    ensures Land(s, found, n).idx >= s.idx
  {
  }

  /** Past the landing bar, one more fully gated bar is either quiet or springs the trap. */
  lemma QuietGrows(en: Engine, c: seq<Candle>, idx: nat, l: nat)
    requires idx < |c| && FullyGated(en, c, idx) && Lingers(en, c, idx, l) && !Trap(en, c, l)
    ensures Width(en, c, idx) == 1 && Lingers(en, c, idx + 1, l)
  {
    hide FullyGated;
  }

  lemma {:induction false} AlwaysTraced(en: Engine, c: seq<Candle>, k: nat)
    requires NoEntryLandsInTrap(en, c)
    ensures Traced(en, c, Iter(en, c, k))
  {
    hide Step, NoEntryLandsInTrap;
    if k > 0 {
      AlwaysTraced(en, c, k - 1);
      var s := Iter(en, c, k - 1);
      if s.idx < |c| {
        TracedStep(en, c, s);
      }
    }
  }

  // ----- With such an entry some router hangs it

  /** Accepts direction d on bar e and nothing else. */
  function SingleEntry(en: Engine, e: nat, d: Direction): Router {
    (h: seq<Candle>, r: Regime, x: Direction) =>
      (if |h| == e + 1 && x == d then EffectiveGate(en, r, 1.0) else EffectiveGate(en, r, 1.0) - 1.0, 1.0)
  }

  lemma SingleEntryTakes(en: Engine, c: seq<Candle>, e: nat, d: Direction, idx: nat, x: Direction)
    requires idx < |c|
    ensures var en' := WithRouter(en, SingleEntry(en, e, d));
            Evaluate(en', c, idx, RegimeAt(en', c, idx), x).tradeTaken <==> idx == e && x == d
  {
    var en' := WithRouter(en, SingleEntry(en, e, d));
    var regime := RegimeAt(en', c, idx);
    assert |c[..idx + 1]| == idx + 1;
    assert EffectiveGate(en', regime, 1.0) == EffectiveGate(en, regime, 1.0);
    hide Trade, EffectiveGate;
  }

  lemma {:induction false} ScanRejects(en: Engine, c: seq<Candle>, idx: nat, regime: Regime, ds: seq<Direction>)
    requires idx < |c| && forall x :: !Evaluate(en, c, idx, regime, x).tradeTaken
    ensures !EndsTaken(Scan(en, c, idx, regime, ds))
  {
    hide Evaluate, Gated;
    if ds != [] {
      ScanRejects(en, c, idx, regime, ds[1..]);
    }
  }

  lemma {:induction false} ScanAccepts(en: Engine, c: seq<Candle>, idx: nat, regime: Regime, ds: seq<Direction>, d: Direction)
    requires idx < |c| && d in ds && !Gated(en, c[..idx + 1], d)
    requires forall x :: Evaluate(en, c, idx, regime, x).tradeTaken <==> x == d
    ensures EndsTaken(Scan(en, c, idx, regime, ds))
  {
    hide Evaluate, Gated;
    if ds[0] != d {
      assert d in ds[1..];
      ScanAccepts(en, c, idx, regime, ds[1..], d);
    }
  }

  /** Away from bar e the single-entry router takes nothing. */
  lemma RejectsElsewhere(en: Engine, c: seq<Candle>, e: nat, d: Direction, idx: nat)
    requires idx < |c| && idx != e
    ensures var found := Found(WithRouter(en, SingleEntry(en, e, d)), c, idx);
            forall i :: 0 <= i < |found| ==> !found[i].tradeTaken
  {
    var en' := WithRouter(en, SingleEntry(en, e, d));
    hide Evaluate, Scan, WithRouter;
    var regime := RegimeAt(en', c, idx);
    forall x ensures !Evaluate(en', c, idx, regime, x).tradeTaken {
      SingleEntryTakes(en, c, e, d, idx, x);
    }
    ScanRejects(en', c, idx, regime, Directions(regime));
  }

  /** Up to bar e it leaves one bar behind per pass and takes nothing. */
  lemma {:induction false} ReachesEntry(en: Engine, c: seq<Candle>, e: nat, d: Direction, k: nat)
    requires WARMUP + k <= e < |c|
    ensures var s := Iter(WithRouter(en, SingleEntry(en, e, d)), c, k);
            s.idx == WARMUP + k && Echo(s.reports) == 0
  {
    var en' := WithRouter(en, SingleEntry(en, e, d));
    hide WithRouter, Found, Land;
    if k > 0 {
      ReachesEntry(en, c, e, d, k - 1);
      var s := Iter(en', c, k - 1);
      RejectsElsewhere(en, c, e, d, s.idx);
      LandRejected(s, Found(en', c, s.idx), Width(en', c, s.idx));
    }
  }

  lemma SameGated(en: Engine, route: Router, c: seq<Candle>, b: nat)
    requires b < |c|
    ensures FullyGated(WithRouter(en, route), c, b) == FullyGated(en, c, b)
  {
    var en' := WithRouter(en, route);
    forall d: Direction
      ensures Gated(en', c[..b + 1], d) == Gated(en, c[..b + 1], d)
      ensures (d in Directions(RegimeAt(en', c, b))) == (d in Directions(RegimeAt(en, c, b)))
    {
    }
    hide Gated, WithRouter, RegimeAt, Directions;
  }

  lemma SameEntry(en: Engine, route: Router, c: seq<Candle>, e: nat, d: Direction)
    ensures Entry(WithRouter(en, route), c, e, d) == Entry(en, c, e, d)
  {
  }

  lemma SameLanding(en: Engine, route: Router, c: seq<Candle>, e: nat, d: Direction)
    requires e < |c|
    ensures Landing(WithRouter(en, route), c, e, d) == Landing(en, c, e, d)
  {
    hide Atr, Outcome, Enter;
  }

  lemma SameWidth(en: Engine, route: Router, c: seq<Candle>, b: nat)
    requires b < |c|
    ensures Width(WithRouter(en, route), c, b) == Width(en, c, b)
  {
  }

  /** On bar e it takes the trade of direction d. */
  lemma TakesEntry(en: Engine, c: seq<Candle>, e: nat, d: Direction)
    requires Entry(en, c, e, d)
    ensures var en' := WithRouter(en, SingleEntry(en, e, d));
            var found := Found(en', c, e);
            EndsTaken(found) && found[|found| - 1] == Evaluate(en', c, e, RegimeAt(en', c, e), d)
  {
    var en' := WithRouter(en, SingleEntry(en, e, d));
    SameEntry(en, SingleEntry(en, e, d), c, e, d);
    hide Evaluate, Scan, WithRouter, Gated;
    var regime := RegimeAt(en', c, e);
    forall x ensures Evaluate(en', c, e, regime, x).tradeTaken <==> x == d {
      SingleEntryTakes(en, c, e, d, e, x);
    }
    ScanAccepts(en', c, e, regime, Directions(regime), d);
    var x := ScanTakes(en', c, e, regime, Directions(regime));
  }

  /** It enters on bar e and lands where the entry lands, a taken trade last. */
  lemma EntersAndLands(en: Engine, c: seq<Candle>, e: nat, d: Direction) returns (k: nat)
    requires Entry(en, c, e, d)
    ensures var s := Iter(WithRouter(en, SingleEntry(en, e, d)), c, k);
            s.idx == Landing(en, c, e, d) && Echo(s.reports) == 2
  {
    hide Evaluate, Found, WithRouter, SingleEntry, Landing, Step, Iter, Echo, EndsTaken, Gated, Directions;
    var route := SingleEntry(en, e, d);
    var en' := WithRouter(en, route);
    SameLanding(en, route, c, e, d);
    var m := e - WARMUP;
    ReachesEntry(en, c, e, d, m);
    TakesEntry(en, c, e, d);
    var s := Iter(en', c, m);
    LandsAt(en', c, s, d);
    IterNext(en', c, m);
    k := m + 1;
  }

  /** Rejected once on an ungated bar of one direction, the trade is still one report behind. */
  lemma LeavesLanding(en: Engine, c: seq<Candle>, e: nat, d: Direction, k: nat, l: nat)
    requires e < l < |c| && !FullyGated(en, c, l) && Width(en, c, l) == 1
    requires var s := Iter(WithRouter(en, SingleEntry(en, e, d)), c, k); s.idx == l && Echo(s.reports) == 2
    ensures var t := Iter(WithRouter(en, SingleEntry(en, e, d)), c, k + 1);
            t.idx == l + 1 && Echo(t.reports) == 1
  {
    var route := SingleEntry(en, e, d);
    var en' := WithRouter(en, route);
    hide Found, WithRouter, FullyGated, Land, Iter, Echo;
    SameGated(en, route, c, l);
    SameWidth(en, route, c, l);
    RejectsElsewhere(en, c, e, d, l);
    FoundNothingIff(en', c, l);
    LandRejected(Iter(en', c, k), Found(en', c, l), 1);
    IterNext(en', c, k);
  }

  /** Over quiet bars the loop walks on without a report. */
  lemma {:induction false} WalksQuietly(en: Engine, c: seq<Candle>, k: nat, b: nat) returns (m: nat)
    requires var s := Iter(en, c, k); s.idx <= b < |c| && Echo(s.reports) == 1 && QuietUntil(en, c, s.idx, b)
    ensures var t := Iter(en, c, m); t.idx == b && Echo(t.reports) == 1
    decreases b - Iter(en, c, k).idx
  {
    hide FullyGated, Iter, Found, Land;
    var s := Iter(en, c, k);
    if s.idx == b {
      m := k;
    } else {
      FoundNothingIff(en, c, s.idx);
      LandRejected(s, [], 1);
      IterNext(en, c, k);
      m := WalksQuietly(en, c, k + 1, b);
    }
  }

  lemma GatedIsStuck(en: Engine, c: seq<Candle>, s: State)
    requires s.idx < |c| && FullyGated(en, c, s.idx)
    requires Echo(s.reports) == 2 || (Echo(s.reports) == 1 && Width(en, c, s.idx) == 2)
    ensures Stuck(en, c, s)
  {
    hide Found, FullyGated;
    FoundNothingIff(en, c, s.idx);
    if Echo(s.reports) == 2 {
      GatedBehindTrade(en, c, s);
    } else {
      assert Tail(s.reports, 2)[0].tradeTaken;
    }
  }

  /** A router that enters where the trap is baited never finishes. */
  lemma TrapHangs(en: Engine, c: seq<Candle>, e: nat, d: Direction)
    requires Entry(en, c, e, d) && Trap(en, c, Landing(en, c, e, d))
    ensures !Ends(WithRouter(en, SingleEntry(en, e, d)), c)
  {
    var en' := WithRouter(en, SingleEntry(en, e, d));
    hide Iter, FullyGated, Landing, WithRouter, Stuck, Width, QuietUntil, Echo, Gated;
    var k := EntersAndLands(en, c, e, d);
    var l := Landing(en, c, e, d);
    if FullyGated(en, c, l) {
      HangsAt(en, c, SingleEntry(en, e, d), k, l);
    } else {
      var b: nat :| l < b < |c| && FullyGated(en, c, b) && Width(en, c, b) == 2 && QuietUntil(en, c, l + 1, b);
      LeavesLanding(en, c, e, d, k, l);
      SameQuiet(en, SingleEntry(en, e, d), c);
      k := WalksQuietly(en', c, k + 1, b);
      HangsAt(en, c, SingleEntry(en, e, d), k, b);
    }
  }

  lemma HangsAt(en: Engine, c: seq<Candle>, route: Router, k: nat, b: nat)
    requires b < |c| && FullyGated(en, c, b)
    requires var s := Iter(WithRouter(en, route), c, k);
             s.idx == b && (Echo(s.reports) == 2 || (Echo(s.reports) == 1 && Width(en, c, b) == 2))
    ensures !Ends(WithRouter(en, route), c)
  {
    hide Iter, FullyGated, WithRouter, Stuck, Width, Echo;
    var en' := WithRouter(en, route);
    SameGated(en, route, c, b);
    SameWidth(en, route, c, b);
    GatedIsStuck(en', c, Iter(en', c, k));
    assert Stuck(en', c, Iter(en', c, k));
    TerminatesIff(en', c);
  }

  ghost predicate Ends(en: Engine, c: seq<Candle>) {
    exists k: nat :: Done(en, c, k)
  }

  /** With all but the router fixed, the loop ends under every router exactly when no entry lands in a trap. Neither
      gates nor landing bars depend on a score, so this is decided before the run. */
  lemma EveryRouterTerminatesIff(en: Engine, c: seq<Candle>)
    ensures (forall route: Router :: Ends(WithRouter(en, route), c)) <==> NoEntryLandsInTrap(en, c)
  {
    hide Landing, Trap, WithRouter, Ends;
    if NoEntryLandsInTrap(en, c) {
      forall route: Router ensures Ends(WithRouter(en, route), c) {
        NoTrapEnds(en, route, c);
      }
    } else {
      var e, d :| Entry(en, c, e, d) && Trap(en, c, Landing(en, c, e, d));
      TrapHangs(en, c, e, d);
    }
  }

  lemma SameTrap(en: Engine, route: Router, c: seq<Candle>, l: nat)
    ensures Trap(WithRouter(en, route), c, l) <==> Trap(en, c, l)
  {
    hide FullyGated, WithRouter, Width;
    forall b | 0 <= b < |c|
      ensures FullyGated(WithRouter(en, route), c, b) == FullyGated(en, c, b)
      ensures Width(WithRouter(en, route), c, b) == Width(en, c, b)
    {
      SameGated(en, route, c, b);
      SameWidth(en, route, c, b);
    }
    SameQuiet(en, route, c);
  }

  lemma SameQuiet(en: Engine, route: Router, c: seq<Candle>)
    ensures forall from: nat, b: nat :: QuietUntil(WithRouter(en, route), c, from, b) == QuietUntil(en, c, from, b)
  {
    hide FullyGated, WithRouter, Width;
    forall b | 0 <= b < |c|
      ensures FullyGated(WithRouter(en, route), c, b) == FullyGated(en, c, b)
      ensures Width(WithRouter(en, route), c, b) == Width(en, c, b)
    {
      SameGated(en, route, c, b);
      SameWidth(en, route, c, b);
    }
  }

  lemma SameTraps(en: Engine, route: Router, c: seq<Candle>)
    requires NoEntryLandsInTrap(en, c)
    ensures NoEntryLandsInTrap(WithRouter(en, route), c)
  {
    var en' := WithRouter(en, route);
    hide Trap, Landing, WithRouter;
    forall e, d | Entry(en', c, e, d) ensures !Trap(en', c, Landing(en', c, e, d)) {
      SameEntry(en, route, c, e, d);
      SameLanding(en, route, c, e, d);
      SameTrap(en, route, c, Landing(en, c, e, d));
    }
  }

  lemma NoTrapEnds(en: Engine, route: Router, c: seq<Candle>)
    requires NoEntryLandsInTrap(en, c)
    ensures Ends(WithRouter(en, route), c)
  {
    var en' := WithRouter(en, route);
    SameTraps(en, route, c);
    hide NoEntryLandsInTrap, WithRouter, Iter, Stuck, Traced;
    forall k: nat ensures !Stuck(en', c, Iter(en', c, k)) {
      var s := Iter(en', c, k);
      AlwaysTraced(en', c, k);
      if Stuck(en', c, s) {
        InRange(en', c, s);
        StuckIsEcho(en', c, s);
        TracedNotStuck(en', c, s);
      }
    }
    TerminatesIff(en', c);
  }

  lemma InRange(en: Engine, c: seq<Candle>, s: State)
    requires Stuck(en, c, s)
    ensures s.idx < |c|
  {
  }
}
