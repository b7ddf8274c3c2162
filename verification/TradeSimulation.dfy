/** One simulated backtest trade: the bar-by-bar loop, refined to a declarative "first exit" form,
    and what it can lose. */
module TradeSimulation {
  import opened Prelude
  import opened AverageTrueRange

  datatype Direction = Long | Short

  datatype Regime = TrendBull | TrendBear | HyperBull | HyperBear | Range | Chop | Sniper

  datatype TakeProfit = Trailing | Fixed | Scalp

  datatype RiskProfile = RiskProfile(sizeMultiplier: real, takeProfit: TakeProfit, maxHoldMins: int,
                                     usePostOnly: bool, trailAtrMult: real, slAtrBuffer: real)

  datatype Costs = Costs(baseSize: real, slippage: real, takerFee: real, makerFee: real,
                         fundingRate: real, fundingInterval: int)

  datatype ExitReason = SlHit | TpHit | TimeExit | EndOfData

  datatype Report = Report(direction: Direction, regime: Regime, score: real,
                           entryPrice: real, exitPrice: Option<real>, exitReason: Option<ExitReason>,
                           slPrice: Option<real>, tpPrice: Option<real>,
                           amount: real, sizeMultiplier: real, pnlGross: real, pnlNet: real,
                           totalFees: real, totalFunding: real, barsHeld: nat,
                           entryTime: Option<int>, exitTime: Option<int>,
                           profile: RiskProfile, tradeTaken: bool)

  /** Everything that is fixed once the trade is entered on bar `entry`. */
  datatype Plan = Plan(direction: Direction, regime: Regime, score: real, profile: RiskProfile, entry: nat,
                       entryTs: int, entryPrice: real, sl: real, tp: Option<real>, amount: real, entryFeeRate: real)

  function EntryPrice(k: Costs, bar: Candle, d: Direction): real {
    if d == Long then bar.close * (1.0 + k.slippage) else bar.close * (1.0 - k.slippage)
  }

  function StopPrice(entryPrice: real, d: Direction, atr: real, buffer: real): real {
    if d == Long then entryPrice - atr * buffer else entryPrice + atr * buffer
  }

  function TargetPrice(entryPrice: real, d: Direction, atr: real, mult: real, kind: TakeProfit): Option<real> {
    if kind == Trailing then None
    else if d == Long then Some(entryPrice + atr * mult) else Some(entryPrice - atr * mult)
  }

  /** The most a trade may lose: base size times 100 times the regime's multiplier. */
  function RiskBudget(k: Costs, p: RiskProfile): real {
    k.baseSize * 100.0 * p.sizeMultiplier
  }

  function Amount(k: Costs, p: RiskProfile, distance: real): real {
    if distance <= 0.0 then k.baseSize else RiskBudget(k, p) / distance
  }

  function Enter(k: Costs, p: RiskProfile, regime: Regime, score: real, c: seq<Candle>, e: nat, d: Direction, atr: real): Plan
    requires e < |c|
  {
    var price := EntryPrice(k, c[e], d);
    var sl := StopPrice(price, d, atr, p.slAtrBuffer);
    Plan(d, regime, score, p, e, c[e].ts, price, sl,
         TargetPrice(price, d, atr, p.trailAtrMult, p.takeProfit),
         Amount(k, p, Abs(price - sl)),
         if p.usePostOnly then k.makerFee else k.takerFee)
  }

  /** The stop is touched by this bar alone, or was already touched by the entry price itself. */
  predicate StopTouched(t: Plan, bar: Candle) {
    match t.direction
    case Long => t.entryPrice <= t.sl || bar.low <= t.sl
    case Short => t.entryPrice >= t.sl || bar.high >= t.sl
  }

  predicate TargetTouched(t: Plan, bar: Candle) {
    t.tp.Some? && match t.direction
                  case Long => bar.high >= t.tp.value
                  case Short => bar.low <= t.tp.value
  }

  predicate HeldTooLong(t: Plan, bars: nat) {
    t.profile.maxHoldMins / 60 > 0 && bars >= t.profile.maxHoldMins / 60
  }

  /** Per-bar exit rule: stop before target before time before end of data. */
  function ExitAt(t: Plan, c: seq<Candle>, j: nat): Option<ExitReason>
    requires t.entry < j < |c|
  {
    if StopTouched(t, c[j]) then Some(SlHit)
    else if TargetTouched(t, c[j]) then Some(TpHit)
    else if HeldTooLong(t, j - t.entry) then Some(TimeExit)
    else if j == |c| - 1 then Some(EndOfData)
    else None
  }

  function FirstExit(t: Plan, c: seq<Candle>, j: nat): (x: nat)
    requires t.entry < j < |c|
    ensures j <= x < |c| && ExitAt(t, c, x).Some?
    ensures forall i :: j <= i < x ==> ExitAt(t, c, i).None?
    decreases |c| - j
  {
    if ExitAt(t, c, j).Some? then j else FirstExit(t, c, j + 1)
  }

  /** Funding payments due after `bars` bars: one per full interval, an interval below one bar counting as one. */
  function Charges(k: Costs, bars: nat): nat {
    if k.fundingRate > 0.0 then bars / Interval(k) else 0
  }

  function Interval(k: Costs): (i: nat)
    ensures i >= 1
  {
    if k.fundingInterval > 1 then k.fundingInterval else 1
  }

  function FundingFee(k: Costs, t: Plan): real {
    t.entryPrice * t.amount * Abs(k.fundingRate)
  }

  function Funding(k: Costs, t: Plan, bars: nat): real {
    Charges(k, bars) as real * FundingFee(k, t)
  }

  function Gross(t: Plan, exitPrice: real): real {
    if t.direction == Long then (exitPrice - t.entryPrice) * t.amount else (t.entryPrice - exitPrice) * t.amount
  }

  function Close(k: Costs, t: Plan, exitPrice: real, reason: ExitReason, exitTs: int, bars: nat, funding: real): Report {
    var fees := t.entryPrice * t.amount * t.entryFeeRate + exitPrice * t.amount * k.takerFee;
    Report(t.direction, t.regime, t.score, t.entryPrice, Some(exitPrice), Some(reason), Some(t.sl), None,
           t.amount, t.profile.sizeMultiplier, Gross(t, exitPrice), Gross(t, exitPrice) - fees - funding,
           fees, funding, bars, Some(t.entryTs), Some(exitTs), t.profile, true)
  }

  function ExitPrice(t: Plan, bar: Candle, reason: ExitReason): real
    requires reason == TpHit ==> t.tp.Some?
  {
    match reason
    case SlHit => t.sl
    case TpHit => t.tp.value
    case TimeExit => bar.close
    case EndOfData => bar.close
  }

  /** Stops and targets leave before the bar's funding is charged; time and data exits after it. */
  function FundedBars(reason: ExitReason, bars: nat): nat
    requires bars >= 1
  {
    if reason == SlHit || reason == TpHit then bars - 1 else bars
  }

  function CloseAt(k: Costs, t: Plan, c: seq<Candle>, x: nat, reason: ExitReason): Report
    requires t.entry < x < |c|
    requires reason == TpHit ==> t.tp.Some?
  {
    Close(k, t, ExitPrice(t, c[x], reason), reason, c[x].ts, x - t.entry,
          Funding(k, t, FundedBars(reason, x - t.entry)))
  }

  /** The report of a trade, stated without any running state. */
  function Outcome(k: Costs, t: Plan, c: seq<Candle>): Report
    requires t.entry < |c|
  {
    if t.entry == |c| - 1 then
      Close(k, t, 0.0, EndOfData, t.entryTs, 0, 0.0)
    else
      var x := FirstExit(t, c, t.entry + 1);
      CloseAt(k, t, c, x, ExitAt(t, c, x).value)
  }

  lemma OutcomeAt(k: Costs, t: Plan, c: seq<Candle>, x: nat)
    requires t.entry < x < |c|
    requires ExitAt(t, c, x).Some? && forall i :: t.entry < i < x ==> ExitAt(t, c, i).None?
    ensures Outcome(k, t, c) == CloseAt(k, t, c, x, ExitAt(t, c, x).value)
  {
    var y := FirstExit(t, c, t.entry + 1);
    assert ExitAt(t, c, y).Some?;
  }

  lemma DivUnique(m: nat, i: nat, q: nat)
    requires i >= 1 && q * i <= m < q * i + i
    ensures m / i == q
  {
    var r := m / i;
    assert m == r * i + m % i;
    if r < q {
      MulMonotone(r + 1, q, i);
      assert false;
    } else if q < r {
      MulMonotone(q + 1, r, i);
      assert false;
    }
  }

  lemma MulMonotone(a: nat, b: nat, i: nat)
    requires a <= b
    ensures a * i <= b * i && (a + 1) * i == a * i + i
  {
    assert (b - a) * i >= 0;
  }

  /** Bars from entry to the last funding payment made within the first `bars` bars. */
  function LastCharged(k: Costs, bars: nat): nat {
    Charges(k, bars) * Interval(k)
  }

  lemma NothingCharged(k: Costs, t: Plan)
    ensures LastCharged(k, 0) == 0 && Funding(k, t, 0) == 0.0
  {
    DivUnique(0, Interval(k), 0);
  }

  /** One more bar: a payment falls due exactly when the loop's distance test fires. */
  lemma FundingStep(k: Costs, t: Plan, bars: nat)
    ensures var due := bars + 1 - LastCharged(k, bars) >= k.fundingInterval && k.fundingRate > 0.0;
            && LastCharged(k, bars + 1) == (if due then bars + 1 else LastCharged(k, bars))
            && Funding(k, t, bars + 1) == Funding(k, t, bars) + (if due then FundingFee(k, t) else 0.0)
  {
    if k.fundingRate > 0.0 {
      var i := Interval(k);
      var q := bars / i;
      assert bars == q * i + bars % i;
      assert (q + 1) * i == q * i + i;
      if bars + 1 - q * i >= i {
        DivUnique(bars + 1, i, q + 1);
        assert (q + 1) as real * FundingFee(k, t) == q as real * FundingFee(k, t) + FundingFee(k, t);
      } else {
        DivUnique(bars + 1, i, q);
      }
    }
  }

  /** The source's loop: running worst price, running funding and a moving last-funding bar. */
  method SimulateTrade(k: Costs, p: RiskProfile, regime: Regime, score: real,
                       c: seq<Candle>, e: nat, d: Direction, atr: real) returns (r: Report)
    requires e < |c|
    ensures r == Outcome(k, Enter(k, p, regime, score, c, e, d, atr), c)
  {
    hide Close, Funding, LastCharged, FundingFee, EntryPrice, StopPrice, TargetPrice, Amount, FirstExit;
    var t := Enter(k, p, regime, score, c, e, d, atr);
    assert t.entry == e && t.direction == d && t.profile == p && t.entryTs == c[e].ts;
    var worst := t.entryPrice;
    var peak := t.entryPrice;
    var funding := 0.0;
    var lastFunding := e;
    var bars := 0;
    NothingCharged(k, t);
    for j := e + 1 to |c|
      invariant bars == j - 1 - e
      invariant forall i :: e < i < j ==> ExitAt(t, c, i).None?
      invariant d == Long ==> (worst <= t.sl <==> t.entryPrice <= t.sl)
      invariant d == Short ==> (worst >= t.sl <==> t.entryPrice >= t.sl)
      invariant funding == Funding(k, t, bars)
      invariant lastFunding == e + LastCharged(k, bars)
    {
      bars := bars + 1;
      var bar := c[j];
      worst := if d == Long then Min(worst, bar.low) else Max(worst, bar.high);
      peak := if d == Long then Max(peak, bar.high) else Min(peak, bar.low);
      if (d == Long && worst <= t.sl) || (d == Short && worst >= t.sl) {
        OutcomeAt(k, t, c, j);
        return Close(k, t, t.sl, SlHit, bar.ts, bars, funding);
      }
      if t.tp.Some? && ((d == Long && bar.high >= t.tp.value) || (d == Short && bar.low <= t.tp.value)) {
        OutcomeAt(k, t, c, j);
        return Close(k, t, t.tp.value, TpHit, bar.ts, bars, funding);
      }
      FundingStep(k, t, bars - 1);
      if j - lastFunding >= k.fundingInterval && k.fundingRate > 0.0 {
        funding := funding + FundingFee(k, t);
        lastFunding := j;
      }
      if p.maxHoldMins / 60 > 0 && bars >= p.maxHoldMins / 60 {
        OutcomeAt(k, t, c, j);
        return Close(k, t, bar.close, TimeExit, bar.ts, bars, funding);
      }
      if j == |c| - 1 {
        OutcomeAt(k, t, c, j);
        return Close(k, t, bar.close, EndOfData, bar.ts, bars, funding);
      }
    }
    return Close(k, t, 0.0, EndOfData, t.entryTs, 0, funding);
  }

  // ----- Accounting

  /** Cash received less cash paid for moving `amount` at a price, fee included: buying pays, selling receives. */
  function CashFlow(buying: bool, price: real, amount: real, feeRate: real): real {
    if buying then -(price * amount * (1.0 + feeRate)) else price * amount * (1.0 - feeRate)
  }

  /** The net result of every trade, at any exit, is the cash of its two fills less the funding paid. */
  lemma NetIsCashFlow(k: Costs, t: Plan, c: seq<Candle>)
    requires t.entry < |c|
    ensures var r := Outcome(k, t, c);
            && r.exitPrice.Some?
            && r.pnlNet == CashFlow(t.direction == Long, t.entryPrice, t.amount, t.entryFeeRate)
                           + CashFlow(t.direction == Short, r.exitPrice.value, t.amount, k.takerFee)
                           - r.totalFunding
  {
    hide FirstExit, ExitAt, Funding;
    var x := Outcome(k, t, c).exitPrice.value;
    var n, m := t.entryPrice * t.amount, x * t.amount;
    assert n * (1.0 + t.entryFeeRate) == n + n * t.entryFeeRate && n * (1.0 - t.entryFeeRate) == n - n * t.entryFeeRate;
    assert m * (1.0 + k.takerFee) == m + m * k.takerFee && m * (1.0 - k.takerFee) == m - m * k.takerFee;
    assert (x - t.entryPrice) * t.amount == m - n && (t.entryPrice - x) * t.amount == n - m;
  }

  // ----- The report read off the candles

  /** A long with these levels, entered on bar e, stays open up to bar x, and bar x closes it: there the stop is touched
      (or was at the entry price already), the target is reached, the holding limit is over, or the data ends. */
  ghost predicate LongUntil(c: seq<Candle>, e: nat, x: nat, entry: real, sl: real, tp: Option<real>, limit: int) {
    && e < x < |c|
    && (forall j :: e < j < x ==> && entry > sl && c[j].low > sl && (tp.Some? ==> c[j].high < tp.value)
                                  && (limit >= 1 ==> j - e < limit))
    && (entry <= sl || c[x].low <= sl || (tp.Some? && c[x].high >= tp.value) || (limit >= 1 && x - e >= limit) || x == |c| - 1)
  }

  ghost predicate ShortUntil(c: seq<Candle>, e: nat, x: nat, entry: real, sl: real, tp: Option<real>, limit: int) {
    && e < x < |c|
    && (forall j :: e < j < x ==> && entry < sl && c[j].high < sl && (tp.Some? ==> c[j].low > tp.value)
                                  && (limit >= 1 ==> j - e < limit))
    && (entry >= sl || c[x].high >= sl || (tp.Some? && c[x].low <= tp.value) || (limit >= 1 && x - e >= limit) || x == |c| - 1)
  }

  lemma OpenBefore(c: seq<Candle>, e: nat, x: nat, y: nat, entry: real, sl: real, tp: Option<real>, limit: int)
    requires e < x < y
    ensures LongUntil(c, e, y, entry, sl, tp, limit) ==> !LongUntil(c, e, x, entry, sl, tp, limit)
    ensures ShortUntil(c, e, y, entry, sl, tp, limit) ==> !ShortUntil(c, e, x, entry, sl, tp, limit)
  {
    if y < |c| {
      var bar := c[x];
    }
  }

  /** The bar that closes a trade is unique. */
  lemma UntilUnique(c: seq<Candle>, e: nat, x: nat, y: nat, entry: real, sl: real, tp: Option<real>, limit: int)
    ensures LongUntil(c, e, x, entry, sl, tp, limit) && LongUntil(c, e, y, entry, sl, tp, limit) ==> x == y
    ensures ShortUntil(c, e, x, entry, sl, tp, limit) && ShortUntil(c, e, y, entry, sl, tp, limit) ==> x == y
  {
    if e < x < y {
      OpenBefore(c, e, x, y, entry, sl, tp, limit);
    } else if e < y < x {
      OpenBefore(c, e, y, x, entry, sl, tp, limit);
    }
  }

  lemma LongCloses(t: Plan, c: seq<Candle>)
    requires t.direction == Long && t.entry + 1 < |c|
    ensures var e, x, limit := t.entry, FirstExit(t, c, t.entry + 1), t.profile.maxHoldMins / 60;
            var stopped := t.entryPrice <= t.sl || c[x].low <= t.sl;
            var met := t.tp.Some? && c[x].high >= t.tp.value;
            && LongUntil(c, e, x, t.entryPrice, t.sl, t.tp, limit)
            && ExitAt(t, c, x) == Some(if stopped then SlHit else if met then TpHit
                                       else if limit >= 1 && x - e == limit then TimeExit else EndOfData)
  {
    var x := FirstExit(t, c, t.entry + 1);
    var limit := t.profile.maxHoldMins / 60;
    forall j | t.entry < j < x
      ensures t.entryPrice > t.sl && c[j].low > t.sl && (t.tp.Some? ==> c[j].high < t.tp.value)
      ensures limit >= 1 ==> j - t.entry < limit
    {
      assert ExitAt(t, c, j).None?;
    }
    if x > t.entry + 1 {
      assert ExitAt(t, c, x - 1).None?;
    }
  }

  lemma ShortCloses(t: Plan, c: seq<Candle>)
    requires t.direction == Short && t.entry + 1 < |c|
    ensures var e, x, limit := t.entry, FirstExit(t, c, t.entry + 1), t.profile.maxHoldMins / 60;
            var stopped := t.entryPrice >= t.sl || c[x].high >= t.sl;
            var met := t.tp.Some? && c[x].low <= t.tp.value;
            && ShortUntil(c, e, x, t.entryPrice, t.sl, t.tp, limit)
            && ExitAt(t, c, x) == Some(if stopped then SlHit else if met then TpHit
                                       else if limit >= 1 && x - e == limit then TimeExit else EndOfData)
  {
    var x := FirstExit(t, c, t.entry + 1);
    var limit := t.profile.maxHoldMins / 60;
    forall j | t.entry < j < x
      ensures t.entryPrice < t.sl && c[j].high < t.sl && (t.tp.Some? ==> c[j].low > t.tp.value)
      ensures limit >= 1 ==> j - t.entry < limit
    {
      assert ExitAt(t, c, j).None?;
    }
    if x > t.entry + 1 {
      assert ExitAt(t, c, x - 1).None?;
    }
  }

  /** Levels of a trade as the candle of its entry and the risk profile give them. */
  lemma Levels(k: Costs, p: RiskProfile, regime: Regime, score: real, c: seq<Candle>, e: nat, d: Direction, atr: real)
    requires e < |c|
    ensures var t := Enter(k, p, regime, score, c, e, d, atr);
            var close, stop, target := c[e].close, atr * p.slAtrBuffer, atr * p.trailAtrMult;
            && t.direction == d && t.entry == e && t.profile == p && t.regime == regime && t.score == score && t.entryTs == c[e].ts
            && (d == Long ==> t.entryPrice == close * (1.0 + k.slippage) && t.sl == t.entryPrice - stop
                              && t.tp == if p.takeProfit == Trailing then None else Some(t.entryPrice + target))
            && (d == Short ==> t.entryPrice == close * (1.0 - k.slippage) && t.sl == t.entryPrice + stop
                               && t.tp == if p.takeProfit == Trailing then None else Some(t.entryPrice - target))
            && t.entryFeeRate == (if p.usePostOnly then k.makerFee else k.takerFee)
            && t.amount == Amount(k, p, Abs(t.entryPrice - t.sl))
  {
    hide Amount, Abs;
    var price := EntryPrice(k, c[e], d);
    TargetIs(price, d, atr, p);
    hide TargetPrice;
  }

  lemma TargetIs(price: real, d: Direction, atr: real, p: RiskProfile)
    ensures var target := TargetPrice(price, d, atr, p.trailAtrMult, p.takeProfit);
            && (target == None <==> p.takeProfit == Trailing)
            && (target.Some? && d == Long ==> target.value == price + atr * p.trailAtrMult)
            && (target.Some? && d == Short ==> target.value == price - atr * p.trailAtrMult)
  {
  }

  lemma OutcomeFields(k: Costs, t: Plan, c: seq<Candle>)
    requires t.entry < |c|
    ensures var r := Outcome(k, t, c);
            && r.tradeTaken && r.direction == t.direction && r.regime == t.regime && r.score == t.score && r.profile == t.profile
            && r.sizeMultiplier == t.profile.sizeMultiplier && r.entryPrice == t.entryPrice && r.amount == t.amount
            && r.slPrice == Some(t.sl) && r.tpPrice == None && r.entryTime == Some(t.entryTs) && r.exitPrice.Some?
            && r.pnlGross == (if t.direction == Long then (r.exitPrice.value - t.entryPrice) * t.amount
                              else (t.entryPrice - r.exitPrice.value) * t.amount)
            && r.totalFees == t.entryPrice * t.amount * t.entryFeeRate + r.exitPrice.value * t.amount * k.takerFee
            && r.pnlNet == r.pnlGross - r.totalFees - r.totalFunding
  {
    hide FirstExit, ExitAt, Funding, ExitPrice;
  }

  lemma OutcomeExit(k: Costs, t: Plan, c: seq<Candle>)
    requires t.entry + 1 < |c|
    ensures var r, x := Outcome(k, t, c), FirstExit(t, c, t.entry + 1);
            var reason := ExitAt(t, c, x).value;
            && t.entry + r.barsHeld == x && r.exitTime == Some(c[x].ts) && r.exitReason == Some(reason)
            && r.exitPrice == Some(match reason case SlHit => t.sl case TpHit => t.tp.value case _ => c[x].close)
            && r.totalFunding == Funding(k, t, if reason == SlHit || reason == TpHit then r.barsHeld - 1 else r.barsHeld)
  {
    hide FirstExit, Funding, Gross, StopTouched, HeldTooLong;
  }

  /** The report's exit: `stopped` and `met` say whether the exit bar touched the stop and the target, and the stop goes
      first, then the target, then the holding limit. */
  ghost predicate LeftBy(r: Report, stopped: bool, met: bool, limit: int, sl: real, tp: Option<real>, close: real)
    requires met ==> tp.Some?
  {
    && (r.exitReason == Some(SlHit) <==> stopped)
    && (r.exitReason == Some(TpHit) <==> !stopped && met)
    && (r.exitReason == Some(TimeExit) <==> !stopped && !met && limit >= 1 && r.barsHeld == limit)
    && (r.exitReason == Some(EndOfData) <==> !stopped && !met && !(limit >= 1 && r.barsHeld == limit))
    && r.exitPrice == Some(if stopped then sl else if met then tp.value else close)
  }

  lemma LongOutcome(k: Costs, t: Plan, c: seq<Candle>)
    requires t.direction == Long && t.entry + 1 < |c|
    ensures var r := Outcome(k, t, c);
            var x, limit := t.entry + r.barsHeld, t.profile.maxHoldMins / 60;
            && LongUntil(c, t.entry, x, t.entryPrice, t.sl, t.tp, limit)
            && LeftBy(r, t.entryPrice <= t.sl || c[x].low <= t.sl, t.tp.Some? && c[x].high >= t.tp.value, limit,
                      t.sl, t.tp, c[x].close)
  {
    hide Outcome, FirstExit, ExitAt, LongUntil;
    OutcomeExit(k, t, c);
    LongCloses(t, c);
  }

  lemma ShortOutcome(k: Costs, t: Plan, c: seq<Candle>)
    requires t.direction == Short && t.entry + 1 < |c|
    ensures var r := Outcome(k, t, c);
            var x, limit := t.entry + r.barsHeld, t.profile.maxHoldMins / 60;
            && ShortUntil(c, t.entry, x, t.entryPrice, t.sl, t.tp, limit)
            && LeftBy(r, t.entryPrice >= t.sl || c[x].high >= t.sl, t.tp.Some? && c[x].low <= t.tp.value, limit,
                      t.sl, t.tp, c[x].close)
  {
    hide Outcome, FirstExit, ExitAt, ShortUntil;
    OutcomeExit(k, t, c);
    ShortCloses(t, c);
  }

  /** A long entered on bar e at this price, with stop and target at these distances, stays open up to bar x. */
  ghost predicate LongOpenUntil(entry: real, stop: real, target: real, p: RiskProfile, c: seq<Candle>, e: nat, x: nat) {
    LongUntil(c, e, x, entry, entry - stop, if p.takeProfit == Trailing then None else Some(entry + target), p.maxHoldMins / 60)
  }

  /** Reason, price and result of a long that leaves on this bar, by the candle and the levels of the profile. */
  ghost predicate LongLeftBy(entry: real, stop: real, target: real, p: RiskProfile, bar: Candle, r: Report) {
    var sl, tp := entry - stop, if p.takeProfit == Trailing then None else Some(entry + target);
    && r.entryPrice == entry && r.slPrice == Some(sl)
    && LeftBy(r, entry <= sl || bar.low <= sl, tp.Some? && bar.high >= tp.value, p.maxHoldMins / 60, sl, tp, bar.close)
    && r.exitPrice.Some? && r.pnlGross == (r.exitPrice.value - entry) * r.amount
  }

  lemma LongReportOf(k: Costs, t: Plan, c: seq<Candle>, entry: real, stop: real, target: real)
    requires t.direction == Long && t.entry + 1 < |c|
    requires t.entryPrice == entry && t.sl == entry - stop
    requires t.tp == if t.profile.takeProfit == Trailing then None else Some(entry + target)
    ensures var r := Outcome(k, t, c);
            && t.entry + r.barsHeld < |c| && LongOpenUntil(entry, stop, target, t.profile, c, t.entry, t.entry + r.barsHeld)
            && LongLeftBy(entry, stop, target, t.profile, c[t.entry + r.barsHeld], r)
  {
    hide Outcome, LeftBy;
    OutcomeFields(k, t, c);
    LongOutcome(k, t, c);
  }

  /** The report of a long, read off its candles: when it is closed, for what reason and at what price. */
  lemma LongReport(k: Costs, p: RiskProfile, regime: Regime, score: real, c: seq<Candle>, e: nat, atr: real,
                   entry: real, stop: real, target: real)
    requires e + 1 < |c|
    requires entry == c[e].close * (1.0 + k.slippage) && stop == atr * p.slAtrBuffer && target == atr * p.trailAtrMult
    ensures var r := Outcome(k, Enter(k, p, regime, score, c, e, Long, atr), c);
            && r.direction == Long && e + r.barsHeld < |c|
            && LongOpenUntil(entry, stop, target, p, c, e, e + r.barsHeld)
            && LongLeftBy(entry, stop, target, p, c[e + r.barsHeld], r)
  {
    hide Outcome, LongOpenUntil, LongLeftBy, Amount, Abs, EntryPrice, StopPrice, TargetPrice;
    var t := Enter(k, p, regime, score, c, e, Long, atr);
    Levels(k, p, regime, score, c, e, Long, atr);
    OutcomeFields(k, t, c);
    LongReportOf(k, t, c, entry, stop, target);
  }

  /** A short entered on bar e at this price, with stop and target at these distances, stays open up to bar x. */
  ghost predicate ShortOpenUntil(entry: real, stop: real, target: real, p: RiskProfile, c: seq<Candle>, e: nat, x: nat) {
    ShortUntil(c, e, x, entry, entry + stop, if p.takeProfit == Trailing then None else Some(entry - target), p.maxHoldMins / 60)
  }

  /** Reason, price and result of a short that leaves on this bar. */
  ghost predicate ShortLeftBy(entry: real, stop: real, target: real, p: RiskProfile, bar: Candle, r: Report) {
    var sl, tp := entry + stop, if p.takeProfit == Trailing then None else Some(entry - target);
    && r.entryPrice == entry && r.slPrice == Some(sl)
    && LeftBy(r, entry >= sl || bar.high >= sl, tp.Some? && bar.low <= tp.value, p.maxHoldMins / 60, sl, tp, bar.close)
    && r.exitPrice.Some? && r.pnlGross == (entry - r.exitPrice.value) * r.amount
  }

  lemma ShortReportOf(k: Costs, t: Plan, c: seq<Candle>, entry: real, stop: real, target: real)
    requires t.direction == Short && t.entry + 1 < |c|
    requires t.entryPrice == entry && t.sl == entry + stop
    requires t.tp == if t.profile.takeProfit == Trailing then None else Some(entry - target)
    ensures var r := Outcome(k, t, c);
            && t.entry + r.barsHeld < |c| && ShortOpenUntil(entry, stop, target, t.profile, c, t.entry, t.entry + r.barsHeld)
            && ShortLeftBy(entry, stop, target, t.profile, c[t.entry + r.barsHeld], r)
  {
    hide Outcome, LeftBy;
    OutcomeFields(k, t, c);
    ShortOutcome(k, t, c);
  }

  /** The report of a short, read off its candles: when it is closed, for what reason and at what price. */
  lemma ShortReport(k: Costs, p: RiskProfile, regime: Regime, score: real, c: seq<Candle>, e: nat, atr: real,
                   entry: real, stop: real, target: real)
    requires e + 1 < |c|
    requires entry == c[e].close * (1.0 - k.slippage) && stop == atr * p.slAtrBuffer && target == atr * p.trailAtrMult
    ensures var r := Outcome(k, Enter(k, p, regime, score, c, e, Short, atr), c);
            && r.direction == Short && e + r.barsHeld < |c|
            && ShortOpenUntil(entry, stop, target, p, c, e, e + r.barsHeld)
            && ShortLeftBy(entry, stop, target, p, c[e + r.barsHeld], r)
  {
    hide Outcome, ShortOpenUntil, ShortLeftBy, Amount, Abs, EntryPrice, StopPrice, TargetPrice;
    var t := Enter(k, p, regime, score, c, e, Short, atr);
    Levels(k, p, regime, score, c, e, Short, atr);
    OutcomeFields(k, t, c);
    ShortReportOf(k, t, c, entry, stop, target);
  }

  /** n is the number of full intervals in `bars` bars, an interval below one bar counting as one. */
  ghost predicate FullIntervals(bars: nat, interval: int, n: nat) {
    var i := if interval < 1 then 1 else interval;
    n * i <= bars < n * i + i
  }

  /** Times, size and fees of every trade. */
  lemma ReportAccounts(k: Costs, p: RiskProfile, regime: Regime, score: real, c: seq<Candle>, e: nat, d: Direction, atr: real)
    requires e < |c|
    ensures var r := Outcome(k, Enter(k, p, regime, score, c, e, d, atr), c);
            && r.tradeTaken && r.regime == regime && r.score == score && r.profile == p && r.sizeMultiplier == p.sizeMultiplier
            && e + r.barsHeld < |c| && r.entryTime == Some(c[e].ts) && r.exitTime == Some(c[e + r.barsHeld].ts)
            && r.slPrice.Some? && r.tpPrice == None && r.exitPrice.Some?
            && (var gap := if r.slPrice.value < r.entryPrice then r.entryPrice - r.slPrice.value else r.slPrice.value - r.entryPrice;
                if gap == 0.0 then r.amount == k.baseSize else r.amount * gap == k.baseSize * 100.0 * p.sizeMultiplier)
            && r.totalFees == r.entryPrice * r.amount * (if p.usePostOnly then k.makerFee else k.takerFee)
                              + r.exitPrice.value * r.amount * k.takerFee
            && r.pnlNet == r.pnlGross - r.totalFees - r.totalFunding
  {
    hide Outcome, Enter, FirstExit, ExitAt, Amount, Abs, Funding;
    var t := Enter(k, p, regime, score, c, e, d, atr);
    Levels(k, p, regime, score, c, e, d, atr);
    OutcomeFields(k, t, c);
    SizeOf(k, p, t.entryPrice, t.sl);
    if e + 1 < |c| {
      OutcomeExit(k, t, c);
    } else {
      LastBarReport(k, p, regime, score, c, e, d, atr);
    }
  }

  /** Funding is paid once per full interval, up to the bar before a stop or target exit, and up to the exit bar
      otherwise. */
  lemma FundingPaid(k: Costs, p: RiskProfile, regime: Regime, score: real, c: seq<Candle>, e: nat, d: Direction, atr: real)
    returns (n: nat)
    requires e < |c|
    ensures var r := Outcome(k, Enter(k, p, regime, score, c, e, d, atr), c);
            var funded := r.barsHeld - (if r.exitReason == Some(SlHit) || r.exitReason == Some(TpHit) then 1 else 0);
            && funded >= 0
            && (k.fundingRate <= 0.0 ==> r.totalFunding == 0.0)
            && (k.fundingRate > 0.0 ==> FullIntervals(funded, k.fundingInterval, n)
                                        && r.totalFunding == n as real * (r.entryPrice * r.amount * k.fundingRate))
  {
    hide Outcome, Enter, FirstExit, ExitAt, Amount, Abs, Funding, FullIntervals;
    var t := Enter(k, p, regime, score, c, e, d, atr);
    Levels(k, p, regime, score, c, e, d, atr);
    OutcomeFields(k, t, c);
    if e + 1 < |c| {
      OutcomeExit(k, t, c);
    } else {
      LastBarReport(k, p, regime, score, c, e, d, atr);
      NothingCharged(k, t);
    }
    var r := Outcome(k, t, c);
    n := FundingOf(k, t, r.barsHeld - (if r.exitReason == Some(SlHit) || r.exitReason == Some(TpHit) then 1 else 0));
  }

  lemma SizeOf(k: Costs, p: RiskProfile, entry: real, sl: real)
    ensures var gap := if sl < entry then entry - sl else sl - entry;
            && Abs(entry - sl) == gap
            && (if gap == 0.0 then Amount(k, p, gap) == k.baseSize
                else Amount(k, p, gap) * gap == k.baseSize * 100.0 * p.sizeMultiplier)
  {
  }

  lemma FundingOf(k: Costs, t: Plan, bars: nat) returns (n: nat)
    ensures k.fundingRate <= 0.0 ==> Funding(k, t, bars) == 0.0
    ensures k.fundingRate > 0.0 ==> FullIntervals(bars, k.fundingInterval, n)
                                    && Funding(k, t, bars) == n as real * (t.entryPrice * t.amount * k.fundingRate)
  {
    var i := Interval(k);
    n := bars / i;
    assert bars == n * i + bars % i;
  }

  /** Entered on the last bar, the trade is closed at once at price zero. */
  lemma LastBarReport(k: Costs, p: RiskProfile, regime: Regime, score: real, c: seq<Candle>, e: nat, d: Direction, atr: real)
    requires e + 1 == |c|
    ensures var r := Outcome(k, Enter(k, p, regime, score, c, e, d, atr), c);
            && r.direction == d && r.barsHeld == 0 && r.exitReason == Some(EndOfData) && r.exitPrice == Some(0.0)
            && r.exitTime == Some(c[e].ts) && r.totalFunding == 0.0
            && r.pnlGross == if d == Long then -(r.entryPrice * r.amount) else r.entryPrice * r.amount
  {
    hide Amount, EntryPrice, StopPrice, TargetPrice;
  }

  // ----- What a trade can lose

  /** The risk set-up the engine is configured with: a positive base size and multiplier, and no target on the
      losing side of the entry. The stop may be anywhere. */
  predicate SoundRisk(k: Costs, p: RiskProfile, atr: real) {
    k.baseSize > 0.0 && p.sizeMultiplier > 0.0 && atr * p.trailAtrMult >= 0.0
  }

  lemma BudgetPositive(k: Costs, p: RiskProfile)
    requires k.baseSize > 0.0 && p.sizeMultiplier > 0.0
    ensures RiskBudget(k, p) > 0.0
  {
  }

  lemma AmountTimesDistance(k: Costs, p: RiskProfile, distance: real)
    requires distance > 0.0
    ensures Amount(k, p, distance) * distance == RiskBudget(k, p)
    ensures RiskBudget(k, p) > 0.0 ==> Amount(k, p, distance) > 0.0
  {
    hide RiskBudget;
    if RiskBudget(k, p) > 0.0 {
      PositiveFactor(Amount(k, p, distance), distance);
    }
  }

  /** The loss per unit that uses up the budget: the stop distance or, for a stop on the entry price, where the base
      size is traded unscaled, 100 times the multiplier. */
  function Cushion(t: Plan): real {
    if t.sl == t.entryPrice then 100.0 * t.profile.sizeMultiplier else Abs(t.entryPrice - t.sl)
  }

  lemma AmountTimesCushion(k: Costs, p: RiskProfile, regime: Regime, score: real, c: seq<Candle>, e: nat, d: Direction, atr: real)
    requires e < |c| && SoundRisk(k, p, atr)
    ensures var t := Enter(k, p, regime, score, c, e, d, atr);
            t.amount > 0.0 && Cushion(t) > 0.0 && t.amount * Cushion(t) == RiskBudget(k, p)
  {
    hide EntryPrice, StopPrice, TargetPrice;
    BudgetPositive(k, p);
    var t := Enter(k, p, regime, score, c, e, d, atr);
    if t.sl != t.entryPrice {
      AmountTimesDistance(k, p, Cushion(t));
    }
  }

  /** Slippage is always against the trade: seen from the entry price, the entry bar's close is worse by the
      slippage, the stop is the buffered ATR away on the losing side and the target the ATR multiple on the other. */
  lemma EntryGeometry(k: Costs, p: RiskProfile, regime: Regime, score: real, c: seq<Candle>, e: nat, d: Direction, atr: real)
    requires e < |c|
    ensures var t := Enter(k, p, regime, score, c, e, d, atr);
            && Favour(t, c[e].close) == -(c[e].close * k.slippage)
            && Favour(t, t.sl) == -(atr * p.slAtrBuffer)
            && (t.tp.Some? <==> p.takeProfit != Trailing)
            && (t.tp.Some? ==> Favour(t, t.tp.value) == atr * p.trailAtrMult)
  {
    hide Amount;
    var close := c[e].close;
    assert close * (1.0 + k.slippage) == close + close * k.slippage;
    assert close * (1.0 - k.slippage) == close - close * k.slippage;
  }

  /** Under a sound set-up the position size turns a positive stop distance into exactly the risk budget. */
  lemma StopDistance(k: Costs, p: RiskProfile, regime: Regime, score: real, c: seq<Candle>, e: nat, d: Direction, atr: real)
    requires e < |c| && SoundRisk(k, p, atr) && atr * p.slAtrBuffer > 0.0
    ensures var t := Enter(k, p, regime, score, c, e, d, atr);
            && t.amount > 0.0 && t.amount * (atr * p.slAtrBuffer) == RiskBudget(k, p)
            && Favour(t, t.sl) == -(atr * p.slAtrBuffer)
            && (t.tp.Some? ==> Favour(t, t.tp.value) >= 0.0)
  {
    hide EntryPrice, RiskBudget;
    BudgetPositive(k, p);
    var t := Enter(k, p, regime, score, c, e, d, atr);
    assert Abs(t.entryPrice - t.sl) == atr * p.slAtrBuffer;
    AmountTimesDistance(k, p, atr * p.slAtrBuffer);
  }

  /** Gross profit in units of signed price movement in the trade's favour. */
  function Favour(t: Plan, exitPrice: real): real {
    if t.direction == Long then exitPrice - t.entryPrice else t.entryPrice - exitPrice
  }

  lemma FavourBounds(t: Plan, exitPrice: real, distance: real)
    requires t.amount > 0.0
    ensures Favour(t, exitPrice) == -distance ==> Gross(t, exitPrice) == -(t.amount * distance)
    ensures Favour(t, exitPrice) > -distance ==> Gross(t, exitPrice) > -(t.amount * distance)
    ensures Favour(t, exitPrice) < -distance ==> Gross(t, exitPrice) < -(t.amount * distance)
  {
    assert Gross(t, exitPrice) == Favour(t, exitPrice) * t.amount;
    var f := Favour(t, exitPrice) + distance;
    assert f * t.amount == Gross(t, exitPrice) + t.amount * distance;
    if f > 0.0 { assert f * t.amount > 0.0; }
    if f < 0.0 { assert -f * t.amount > 0.0; }
  }

  /** With a positive stop distance, a trade entered before the last bar loses at most its risk budget, and exactly that
      on a stop-loss exit. */
  lemma StoppedLoss(k: Costs, p: RiskProfile, regime: Regime, score: real, c: seq<Candle>, e: nat, d: Direction, atr: real)
    requires e + 1 < |c| && SoundRisk(k, p, atr) && atr * p.slAtrBuffer > 0.0
    requires forall j :: e < j < |c| ==> WellFormed(c[j])
    ensures var r := Outcome(k, Enter(k, p, regime, score, c, e, d, atr), c);
            && r.pnlGross >= -RiskBudget(k, p)
            && (r.pnlGross == -RiskBudget(k, p) <==> r.exitReason == Some(SlHit))
  {
    hide RiskBudget, Amount, EntryPrice, StopPrice, TargetPrice, Gross, Favour, Funding;
    StopDistance(k, p, regime, score, c, e, d, atr);
    var t := Enter(k, p, regime, score, c, e, d, atr);
    var x := FirstExit(t, c, e + 1);
    FavourBounds(t, ExitPrice(t, c[x], ExitAt(t, c, x).value), atr * p.slAtrBuffer);
    ExitSide(t, c, x, atr * p.slAtrBuffer);
  }

  /** Wherever its stop is, a trade entered before the last bar loses at most its risk budget, and exactly that if and
      only if it is stopped out at a stop on the losing side. */
  lemma LossAtMostBudget(k: Costs, p: RiskProfile, regime: Regime, score: real, c: seq<Candle>, e: nat, d: Direction, atr: real)
    requires e + 1 < |c| && SoundRisk(k, p, atr)
    requires forall j :: e < j < |c| ==> WellFormed(c[j])
    ensures var r := Outcome(k, Enter(k, p, regime, score, c, e, d, atr), c);
            && r.pnlGross >= -RiskBudget(k, p)
            && (r.pnlGross == -RiskBudget(k, p) <==> r.exitReason == Some(SlHit) && atr * p.slAtrBuffer > 0.0)
  {
    hide Outcome, Enter;
    if atr * p.slAtrBuffer > 0.0 {
      StoppedLoss(k, p, regime, score, c, e, d, atr);
    } else {
      BudgetPositive(k, p);
      DegenerateStop(k, p, regime, score, c, e, d, atr);
    }
  }

  /** Only the stop exits at the stop's distance; every other exit is strictly better than the stop price. */
  lemma ExitSide(t: Plan, c: seq<Candle>, x: nat, distance: real)
    requires t.entry < x < |c| && WellFormed(c[x])
    requires distance > 0.0 && Favour(t, t.sl) == -distance
    requires t.tp.Some? ==> Favour(t, t.tp.value) >= 0.0
    requires ExitAt(t, c, x).Some?
    ensures var reason := ExitAt(t, c, x).value;
            var favour := Favour(t, ExitPrice(t, c[x], reason));
            if reason == SlHit then favour == -distance else favour > -distance
  {
  }

  /** A zero or inverted stop distance is stopped out on the first bar, at no loss. */
  lemma DegenerateStop(k: Costs, p: RiskProfile, regime: Regime, score: real, c: seq<Candle>, e: nat, d: Direction, atr: real)
    requires e + 1 < |c| && atr * p.slAtrBuffer <= 0.0
    ensures var r := Outcome(k, Enter(k, p, regime, score, c, e, d, atr), c);
            && r.exitReason == Some(SlHit) && r.barsHeld == 1
            && r.pnlGross == if atr * p.slAtrBuffer == 0.0 then 0.0 else RiskBudget(k, p)
  {
    var t := Enter(k, p, regime, score, c, e, d, atr);
    var distance := -(atr * p.slAtrBuffer);
    assert Abs(t.entryPrice - t.sl) == distance;
    assert StopTouched(t, c[e + 1]);
    assert FirstExit(t, c, e + 1) == e + 1;
    assert Gross(t, t.sl) == distance * t.amount;
    if distance > 0.0 {
      AmountTimesDistance(k, p, distance);
    }
  }

  /** Entered on the last bar, a trade is closed at price zero: the budget then holds exactly when the trade is short or
      its whole entry price fits into the cushion, which for a stop on the losing side means a stop price at or below
      zero. */
  lemma LastBarLoss(k: Costs, p: RiskProfile, regime: Regime, score: real, c: seq<Candle>, e: nat, d: Direction, atr: real)
    requires e + 1 == |c| && SoundRisk(k, p, atr) && EntryPrice(k, c[e], d) >= 0.0
    ensures var t := Enter(k, p, regime, score, c, e, d, atr);
            && (Outcome(k, t, c).pnlGross >= -RiskBudget(k, p) <==> d == Short || t.entryPrice <= Cushion(t))
            && (d == Long && atr * p.slAtrBuffer > 0.0 ==> (t.entryPrice <= Cushion(t) <==> t.sl <= 0.0))
  {
    hide EntryPrice, RiskBudget, Amount, TargetPrice;
    var t := Enter(k, p, regime, score, c, e, d, atr);
    AmountTimesCushion(k, p, regime, score, c, e, d, atr);
    FavourBounds(t, 0.0, Cushion(t));
  }

  /** The whole picture, wherever the stop is: the loss limit holds exactly when the trade is entered before the last
      bar, or is short, or has an entry price within its cushion. */
  lemma LossLimitHoldsIff(k: Costs, p: RiskProfile, regime: Regime, score: real, c: seq<Candle>, e: nat, d: Direction, atr: real)
    requires e < |c| && SoundRisk(k, p, atr) && EntryPrice(k, c[e], d) >= 0.0
    requires forall j :: e < j < |c| ==> WellFormed(c[j])
    ensures var t := Enter(k, p, regime, score, c, e, d, atr);
            Outcome(k, t, c).pnlGross >= -RiskBudget(k, p) <==> e + 1 < |c| || d == Short || t.entryPrice <= Cushion(t)
  {
    hide Outcome, Enter;
    if e + 1 < |c| {
      LossAtMostBudget(k, p, regime, score, c, e, d, atr);
    } else {
      LastBarLoss(k, p, regime, score, c, e, d, atr);
    }
  }

  /** A concrete long entered on the last bar at 100 with a stop at 99 loses a hundred times its budget. */
  lemma LastBarExample()
    ensures var k := Costs(0.01, 0.0, 0.0, 0.0, 0.0, 8);
            var p := RiskProfile(1.0, Trailing, 240, false, 3.0, 1.0);
            var c := [Candle(0, 100.0, 100.0, 100.0, 100.0, 1.0)];
            var r := Outcome(k, Enter(k, p, Range, 70.0, c, 0, Long, 1.0), c);
            SoundRisk(k, p, 1.0) && RiskBudget(k, p) == 1.0 && r.pnlGross == -100.0
  {
    hide FirstExit, CloseAt;
    var k := Costs(0.01, 0.0, 0.0, 0.0, 0.0, 8);
    var p := RiskProfile(1.0, Trailing, 240, false, 3.0, 1.0);
    var c := [Candle(0, 100.0, 100.0, 100.0, 100.0, 1.0)];
    var t := Enter(k, p, Range, 70.0, c, 0, Long, 1.0);
    assert t.entryPrice == 100.0 && t.sl == 99.0 && t.amount == 1.0;
  }
}
