/** The two ADX implementations of the bot: bounds that hold for each, and exactly when they agree. */
module DirectionalIndex {
  import opened Prelude
  import opened AverageTrueRange

  function PlusDm(c: seq<Candle>, i: nat): (d: real)
    requires 0 < i < |c|
    ensures d >= 0.0
  {
    var up, down := c[i].high - c[i - 1].high, c[i - 1].low - c[i].low;
    if up > down && up > 0.0 then up else 0.0
  }

  function MinusDm(c: seq<Candle>, i: nat): (d: real)
    requires 0 < i < |c|
    ensures d >= 0.0
  {
    var up, down := c[i].high - c[i - 1].high, c[i - 1].low - c[i].low;
    if down > up && down > 0.0 then down else 0.0
  }

  /** Running sums of true range and directional movement. */
  datatype Sums = Sums(tr: real, plus: real, minus: real)

  function Movement(c: seq<Candle>, i: nat): Sums
    requires 0 < i < |c|
  {
    Sums(TrueRange(c, i), PlusDm(c, i), MinusDm(c, i))
  }

  function Add(a: Sums, b: Sums): Sums {
    Sums(a.tr + b.tr, a.plus + b.plus, a.minus + b.minus)
  }

  /** What one smoothing step keeps of a running sum. */
  function Keep(x: real, period: nat): real
    requires period >= 1
  {
    x - x / period as real
  }

  function KeepAll(a: Sums, period: nat): Sums
    requires period >= 1
  {
    Sums(Keep(a.tr, period), Keep(a.plus, period), Keep(a.minus, period))
  }

  function FirstSums(c: seq<Candle>, n: nat): Sums
    requires n < |c|
  {
    if n == 0 then Sums(0.0, 0.0, 0.0) else Add(FirstSums(c, n - 1), Movement(c, n))
  }

  /** Smoothed sums at bar i: plain sums over the first `period` bars, one Wilder step per later bar. */
  function Smoothed(c: seq<Candle>, period: nat, i: nat): Sums
    requires period >= 1 && period <= i < |c|
  {
    if i == period then FirstSums(c, period)
    else Add(KeepAll(Smoothed(c, period, i - 1), period), Movement(c, i))
  }

  /** +DI and -DI in percent. */
  function PlusDi(s: Sums): real
    requires s.tr != 0.0
  {
    s.plus / s.tr * 100.0
  }

  function MinusDi(s: Sums): real
    requires s.tr != 0.0
  {
    s.minus / s.tr * 100.0
  }

  function DiSum(s: Sums): real
    requires s.tr != 0.0
  {
    PlusDi(s) + MinusDi(s)
  }

  function Dx(s: Sums): real
    requires s.tr != 0.0 && DiSum(s) != 0.0
  {
    Abs(PlusDi(s) - MinusDi(s)) / DiSum(s) * 100.0
  }

  /** DX values up to bar n of the regime engine: bars without range or without movement leave none. */
  function EngineDx(c: seq<Candle>, period: nat, n: nat): seq<real>
    requires period >= 1 && period <= n < |c|
  {
    if n == period then []
    else EngineDx(c, period, n - 1) + EngineOne(Smoothed(c, period, n))
  }

  function EngineOne(s: Sums): seq<real> {
    if s.tr == 0.0 || DiSum(s) == 0.0 then [] else [Dx(s)]
  }

  /** DX values up to bar n of the regime classifier: a bar without movement counts as zero. */
  function ClassifierDx(c: seq<Candle>, period: nat, n: nat): seq<real>
    requires period >= 1 && period <= n < |c|
  {
    if n == period then []
    else ClassifierDx(c, period, n - 1) + ClassifierOne(Smoothed(c, period, n))
  }

  function ClassifierOne(s: Sums): seq<real> {
    if s.tr == 0.0 then [] else if DiSum(s) == 0.0 then [0.0] else [Dx(s)]
  }

  /** The common tail: the first `period` values summed and divided by the period, the others smoothed in. */
  function Finish(dx: seq<real>, period: nat): real
    requires period >= 1
  {
    if |dx| <= period then Mean(Sum(dx), period)
    else Smooth(Finish(dx[..|dx| - 1], period), dx[|dx| - 1], period)
  }

  function EngineAdx(c: seq<Candle>, period: nat): real
    requires period >= 1
  {
    if |c| < period + 1 then 0.0
    else
      var dx := EngineDx(c, period, |c| - 1);
      if dx == [] then 0.0 else Finish(dx, period)
  }

  function ClassifierAdx(c: seq<Candle>, period: nat): real
    requires period >= 1
  {
    if |c| < period + 1 then 0.0
    else
      var dx := ClassifierDx(c, period, |c| - 1);
      if |dx| < period then 0.0 else Finish(dx, period)
  }

  // ----- The loops

  /** Regime engine: three lists, three smoothing variables, DX values appended bar by bar. */
  method ComputeEngineAdx(c: seq<Candle>, period: nat) returns (adx: real)
    requires period >= 1
    ensures adx == EngineAdx(c, period)
  {
    hide TrueRange, PlusDm, MinusDm, Keep, DiSum, Dx;
    var n := |c|;
    if n < period + 1 {
      return 0.0;
    }
    var moves: seq<Sums> := [];
    for i := 1 to n
      invariant |moves| == i - 1 && forall k :: 0 <= k < i - 1 ==> moves[k] == Movement(c, k + 1)
    {
      moves := moves + [Movement(c, i)];
    }
    var s := SumMovements(c, moves, period);
    var dxs: seq<real> := [];
    for i := period to |moves|
      invariant s == Smoothed(c, period, i)
      invariant dxs == EngineDx(c, period, i)
    {
      s := Add(KeepAll(s, period), moves[i]);
      if s.tr != 0.0 {
        var diSum := DiSum(s);
        if diSum != 0.0 {
          dxs := dxs + [Dx(s)];
        }
      }
    }
    if dxs == [] {
      return 0.0;
    }
    adx := FinishLoop(dxs, period);
  }

  /** Regime classifier: the same smoothing over arrays, with its own treatment of bars without movement and of
      short histories. */
  method ComputeClassifierAdx(c: seq<Candle>, period: nat) returns (adx: real)
    requires period >= 1
    ensures adx == ClassifierAdx(c, period)
  {
    hide TrueRange, PlusDm, MinusDm, Keep, DiSum, Dx;
    var n := |c|;
    if n < period + 1 {
      return 0.0;
    }
    var moves := FillMovements(c);
    var s := SumMovements(c, moves, period);
    var dxs: seq<real> := [];
    for i := period + 1 to n
      invariant s == Smoothed(c, period, i - 1)
      invariant dxs == ClassifierDx(c, period, i - 1)
    {
      s := Add(KeepAll(s, period), moves[i - 1]);
      if s.tr != 0.0 {
        var diSum := DiSum(s);
        if diSum == 0.0 {
          dxs := dxs + [0.0];
        } else {
          dxs := dxs + [Dx(s)];
        }
      }
    }
    if |dxs| < period {
      return 0.0;
    }
    adx := FinishLoop(dxs, period);
  }

  /** The classifier's true range and movement arrays, without their unused first entry. */
  method FillMovements(c: seq<Candle>) returns (moves: seq<Sums>)
    requires c != []
    ensures |moves| == |c| - 1 && forall k :: 0 <= k < |moves| ==> moves[k] == Movement(c, k + 1)
  {
    hide TrueRange, PlusDm, MinusDm;
    var n := |c|;
    var tr, plus, minus := new real[n](_ => 0.0), new real[n](_ => 0.0), new real[n](_ => 0.0);
    tr[0] := c[0].high - c[0].low;
    for i := 1 to n
      invariant forall k :: 1 <= k < i ==> Sums(tr[k], plus[k], minus[k]) == Movement(c, k)
    {
      tr[i] := TrueRange(c, i);
      plus[i] := PlusDm(c, i);
      minus[i] := MinusDm(c, i);
    }
    moves := seq(n - 1, k requires 0 <= k < n - 1 reads tr, plus, minus => Sums(tr[k + 1], plus[k + 1], minus[k + 1]));
  }

  method SumMovements(c: seq<Candle>, moves: seq<Sums>, period: nat) returns (s: Sums)
    requires |moves| == |c| - 1 && period < |c| && forall k :: 0 <= k < |moves| ==> moves[k] == Movement(c, k + 1)
    ensures s == FirstSums(c, period)
  {
    hide TrueRange, PlusDm, MinusDm;
    s := Sums(0.0, 0.0, 0.0);
    for i := 0 to period
      invariant s == FirstSums(c, i)
    {
      s := Add(s, moves[i]);
    }
  }

  method FinishLoop(dx: seq<real>, period: nat) returns (adx: real)
    requires period >= 1
    ensures adx == Finish(dx, period)
  {
    hide Mean, Smooth;
    var first := if |dx| < period then |dx| else period;
    adx := Mean(Sum(dx[..first]), period);
    for i := first to |dx|
      invariant adx == Finish(dx[..i], period)
    {
      assert dx[..i + 1][..i] == dx[..i];
      adx := Smooth(adx, dx[i], period);
    }
    assert dx[..|dx|] == dx;
  }

  // ----- The parts, read off the candles

  /** Only the larger of the two moves counts, upwards or downwards, and only when it is outwards. */
  lemma LargerMoveCounts(c: seq<Candle>, i: nat)
    requires 0 < i < |c|
    ensures var up, down := c[i].high - c[i - 1].high, c[i - 1].low - c[i].low;
            && (PlusDm(c, i) > 0.0 <==> up > 0.0 && up > down) && (MinusDm(c, i) > 0.0 <==> down > 0.0 && down > up)
            && PlusDm(c, i) in {0.0, up} && MinusDm(c, i) in {0.0, down}
  {
  }

  function PlusDms(c: seq<Candle>): (s: seq<real>)
    requires c != []
    ensures |s| == |c| - 1
  {
    seq(|c| - 1, i requires 0 <= i < |c| - 1 => PlusDm(c, i + 1))
  }

  function MinusDms(c: seq<Candle>): (s: seq<real>)
    requires c != []
    ensures |s| == |c| - 1
  {
    seq(|c| - 1, i requires 0 <= i < |c| - 1 => MinusDm(c, i + 1))
  }

  /** Plain sums over the first `period` bars; after them each sum loses one part in `period` and gains the bar's value. */
  lemma SmoothedRecurrence(c: seq<Candle>, period: nat, i: nat)
    requires period >= 1 && period <= i < |c|
    ensures i == period ==>
              Smoothed(c, period, i) == Sums(Sum(TrueRanges(c)[..period]), Sum(PlusDms(c)[..period]), Sum(MinusDms(c)[..period]))
    ensures i > period ==>
              var s, r, n := Smoothed(c, period, i), Smoothed(c, period, i - 1), period as real;
              && s.tr * n == r.tr * n - r.tr + TrueRange(c, i) * n
              && s.plus * n == r.plus * n - r.plus + PlusDm(c, i) * n
              && s.minus * n == r.minus * n - r.minus + MinusDm(c, i) * n
  {
    hide TrueRange, PlusDm, MinusDm, Keep;
    if i == period {
      FirstSumsAre(c, period);
    } else {
      var r := Smoothed(c, period, i - 1);
      KeepTimes(r.tr, TrueRange(c, i), period);
      KeepTimes(r.plus, PlusDm(c, i), period);
      KeepTimes(r.minus, MinusDm(c, i), period);
    }
  }

  lemma KeepTimes(x: real, y: real, period: nat)
    requires period >= 1
    ensures (Keep(x, period) + y) * period as real == x * period as real - x + y * period as real
  {
    var p := period as real;
    assert x / p * p == x;
    assert (x - x / p + y) * p == x * p - x / p * p + y * p;
  }

  lemma {:induction false} FirstSumsAre(c: seq<Candle>, n: nat)
    requires n < |c|
    ensures FirstSums(c, n) == Sums(Sum(TrueRanges(c)[..n]), Sum(PlusDms(c)[..n]), Sum(MinusDms(c)[..n]))
  {
    hide TrueRange, PlusDm, MinusDm;
    if n > 0 {
      FirstSumsAre(c, n - 1);
      SumPrefix(TrueRanges(c), n);
      SumPrefix(PlusDms(c), n);
      SumPrefix(MinusDms(c), n);
      hide Sum;
    }
  }

  lemma SumPrefix(s: seq<real>, n: nat)
    requires 0 < n <= |s|
    ensures Sum(s[..n]) == Sum(s[..n - 1]) + s[n - 1]
  {
    assert s[..n][..n - 1] == s[..n - 1];
  }

  /** The directional index is 100 times the difference of the smoothed movements over their sum; a bar adds it to the
      engine's list exactly when its smoothed range and movement are not zero. */
  lemma DxOfMovement(c: seq<Candle>, period: nat, n: nat)
    requires period >= 1 && period < n < |c|
    ensures var s, before, dx := Smoothed(c, period, n), EngineDx(c, period, n - 1), EngineDx(c, period, n);
            if s.tr == 0.0 || s.plus + s.minus == 0.0 then dx == before
            else |dx| == |before| + 1 && dx[..|before|] == before
                 && dx[|before|] * (s.plus + s.minus) == 100.0 * (if s.plus < s.minus then s.minus - s.plus else s.plus - s.minus)
  {
    hide Smoothed, Dx, DiSum;
    var s := Smoothed(c, period, n);
    if s.tr != 0.0 {
      SmoothedOrdered(c, period, n);
      DxTimes(s);
    }
  }

  lemma DxTimes(s: Sums)
    requires Ordered(s) && s.tr != 0.0
    ensures DiSum(s) == 0.0 <==> s.plus + s.minus == 0.0
    ensures DiSum(s) != 0.0 ==>
              Dx(s) * (s.plus + s.minus) == 100.0 * (if s.plus < s.minus then s.minus - s.plus else s.plus - s.minus)
  {
    var u := 100.0 / s.tr;
    assert u > 0.0;
    PerRange(s.plus, s.tr);
    PerRange(s.minus, s.tr);
    var total, gap := s.plus + s.minus, if s.plus < s.minus then s.minus - s.plus else s.plus - s.minus;
    assert s.plus * u + s.minus * u == total * u && s.plus * u - s.minus * u == (s.plus - s.minus) * u;
    assert DiSum(s) == total * u;
    if total > 0.0 {
      assert Abs(PlusDi(s) - MinusDi(s)) == gap * u by { AbsScaled(s.plus - s.minus, u); }
      CancelRatio(gap, total, u);
    }
  }

  lemma PerRange(x: real, tr: real)
    requires tr != 0.0
    ensures x / tr * 100.0 == x * (100.0 / tr)
  {
  }

  lemma AbsScaled(x: real, u: real)
    requires u > 0.0
    ensures Abs(x * u) == (if x < 0.0 then -x else x) * u
  {
  }

  lemma CancelRatio(gap: real, total: real, u: real)
    requires total > 0.0 && u > 0.0
    ensures total * u != 0.0 && gap * u / (total * u) * 100.0 * total == 100.0 * gap
  {
    assert total * u > 0.0;
    var q := gap * u / (total * u);
    assert q * (total * u) == gap * u;
    assert (q * total - gap) * u == 0.0;
    assert q * total == gap;
  }

  /** The last step of both: the first `period` values divided by the period, then one part in `period` of each later one. */
  lemma FinishRecurrence(dx: seq<real>, period: nat)
    requires period >= 1
    ensures |dx| <= period ==> Finish(dx, period) * period as real == Sum(dx)
    ensures |dx| > period ==>
              var before := Finish(dx[..|dx| - 1], period);
              Finish(dx, period) * period as real == before * period as real - before + dx[|dx| - 1]
  {
    hide Mean, Smooth, Sum;
    if |dx| <= period {
      MeanTimes(Sum(dx), period);
    } else {
      SmoothTimes(Finish(dx[..|dx| - 1], period), dx[|dx| - 1], period);
    }
  }

  // ----- Up and down are treated alike

  /** The same market seen upside down. */
  function Mirror(c: seq<Candle>): (m: seq<Candle>)
    ensures |m| == |c|
  {
    seq(|c|, i requires 0 <= i < |c| => Candle(c[i].ts, -c[i].open, -c[i].low, -c[i].high, -c[i].close, c[i].volume))
  }

  function Swapped(s: Sums): Sums {
    Sums(s.tr, s.minus, s.plus)
  }

  lemma MovementMirror(c: seq<Candle>, i: nat)
    requires 0 < i < |c|
    ensures Movement(Mirror(c), i) == Swapped(Movement(c, i))
  {
  }

  lemma {:induction false} FirstSumsMirror(c: seq<Candle>, n: nat)
    requires n < |c|
    ensures FirstSums(Mirror(c), n) == Swapped(FirstSums(c, n))
  {
    hide Movement, Mirror;
    if n > 0 {
      FirstSumsMirror(c, n - 1);
      MovementMirror(c, n);
    }
  }

  lemma {:induction false} SmoothedMirror(c: seq<Candle>, period: nat, i: nat)
    requires period >= 1 && period <= i < |c|
    ensures Smoothed(Mirror(c), period, i) == Swapped(Smoothed(c, period, i))
  {
    hide Movement, Mirror, Keep;
    if i == period {
      FirstSumsMirror(c, i);
    } else {
      SmoothedMirror(c, period, i - 1);
      MovementMirror(c, i);
    }
  }

  lemma DxMirror(s: Sums)
    ensures EngineOne(Swapped(s)) == EngineOne(s) && ClassifierOne(Swapped(s)) == ClassifierOne(s)
  {
    hide PlusDi, MinusDi;
    if s.tr != 0.0 {
      DiMirror(s);
    }
  }

  lemma DiMirror(s: Sums)
    requires s.tr != 0.0
    ensures PlusDi(Swapped(s)) == MinusDi(s) && MinusDi(Swapped(s)) == PlusDi(s)
  {
  }

  lemma {:induction false} DxListsMirror(c: seq<Candle>, period: nat, n: nat)
    requires period >= 1 && period <= n < |c|
    ensures EngineDx(Mirror(c), period, n) == EngineDx(c, period, n)
    ensures ClassifierDx(Mirror(c), period, n) == ClassifierDx(c, period, n)
  {
    hide Mirror, Smoothed, EngineOne, ClassifierOne;
    if n > period {
      DxListsMirror(c, period, n - 1);
      SmoothedMirror(c, period, n);
      DxMirror(Smoothed(c, period, n));
    }
  }

  /** Turning the market upside down changes neither ADX: it measures strength, not direction. */
  lemma AdxIgnoresDirection(c: seq<Candle>, period: nat)
    requires period >= 1
    ensures EngineAdx(Mirror(c), period) == EngineAdx(c, period)
    ensures ClassifierAdx(Mirror(c), period) == ClassifierAdx(c, period)
  {
    hide EngineDx, ClassifierDx, Finish, Mirror;
    if |c| >= period + 1 {
      DxListsMirror(c, period, |c| - 1);
    }
  }

  // ----- Bounds

  lemma KeepMonotone(x: real, y: real, period: nat)
    requires period >= 1 && x <= y
    ensures Keep(x, period) <= Keep(y, period)
  {
    var p := period as real;
    assert Keep(x, period) == x * (1.0 - 1.0 / p) by { assert x / p == x * (1.0 / p); }
    assert Keep(y, period) == y * (1.0 - 1.0 / p) by { assert y / p == y * (1.0 / p); }
    Scale(x, y, 1.0 - 1.0 / p);
  }

  lemma KeepAdds(x: real, y: real, period: nat)
    requires period >= 1
    ensures Keep(x + y, period) == Keep(x, period) + Keep(y, period)
    ensures Keep(0.0, period) == 0.0
  {
    var p := period as real;
    DivideAdds(x, y, p);
  }

  predicate Ordered(a: Sums) {
    a.plus >= 0.0 && a.minus >= 0.0 && a.tr >= 0.0
  }

  predicate Dominated(a: Sums) {
    a.plus + a.minus <= a.tr
  }

  lemma KeepOrdered(a: Sums, period: nat)
    requires period >= 1
    ensures Ordered(a) ==> Ordered(KeepAll(a, period))
    ensures Dominated(a) ==> Dominated(KeepAll(a, period))
  {
    hide Keep;
    KeepAdds(a.plus, a.minus, period);
    if Ordered(a) {
      KeepMonotone(0.0, a.plus, period);
      KeepMonotone(0.0, a.minus, period);
      KeepMonotone(0.0, a.tr, period);
    }
    if Dominated(a) {
      KeepMonotone(a.plus + a.minus, a.tr, period);
    }
  }

  /** With closes inside their bars, directional movement never exceeds the true range. */
  lemma MovementDominated(c: seq<Candle>, i: nat)
    requires 0 < i < |c| && WellFormed(c[i - 1]) && WellFormed(c[i])
    ensures Dominated(Movement(c, i))
  {
  }

  lemma {:induction false} SmoothedOrdered(c: seq<Candle>, period: nat, i: nat)
    requires period >= 1 && period <= i < |c|
    ensures Ordered(Smoothed(c, period, i))
  {
    hide TrueRange, PlusDm, MinusDm, Keep;
    if i == period {
      FirstOrdered(c, period);
    } else {
      SmoothedOrdered(c, period, i - 1);
      KeepOrdered(Smoothed(c, period, i - 1), period);
    }
  }

  lemma {:induction false} FirstOrdered(c: seq<Candle>, n: nat)
    requires n < |c|
    ensures Ordered(FirstSums(c, n))
  {
    hide TrueRange, PlusDm, MinusDm;
    if n > 0 {
      FirstOrdered(c, n - 1);
    }
  }

  /** Smoothed +DM plus smoothed -DM never exceeds smoothed TR, at any bar. */
  lemma {:induction false} SmoothedDominated(c: seq<Candle>, period: nat, i: nat)
    requires period >= 1 && period <= i < |c|
    requires forall k :: 0 <= k < |c| ==> WellFormed(c[k])
    ensures Dominated(Smoothed(c, period, i))
  {
    hide TrueRange, PlusDm, MinusDm, Keep;
    if i == period {
      FirstDominated(c, period);
    } else {
      SmoothedDominated(c, period, i - 1);
      KeepOrdered(Smoothed(c, period, i - 1), period);
      MovementDominated(c, i);
    }
  }

  lemma {:induction false} FirstDominated(c: seq<Candle>, n: nat)
    requires n < |c| && forall k :: 0 <= k < |c| ==> WellFormed(c[k])
    ensures Dominated(FirstSums(c, n))
  {
    hide TrueRange, PlusDm, MinusDm;
    if n > 0 {
      FirstDominated(c, n - 1);
      MovementDominated(c, n);
    }
  }

  lemma Quotient(x: real, y: real)
    requires 0.0 <= x && 0.0 < y
    ensures 0.0 <= x / y
    ensures x <= y ==> x / y <= 1.0
  {
    assert x / y * y == x;
    NonNegativeFactor(x / y, y);
    if x <= y {
      assert (1.0 - x / y) * y == y - x;
      NonNegativeFactor(1.0 - x / y, y);
    }
  }

  /** +DI and -DI are percentages whose sum is at most 100. */
  lemma DiBounds(c: seq<Candle>, period: nat, i: nat)
    requires period >= 1 && period <= i < |c|
    requires forall k :: 0 <= k < |c| ==> WellFormed(c[k])
    requires Smoothed(c, period, i).tr != 0.0
    ensures var s := Smoothed(c, period, i);
            0.0 <= PlusDi(s) && 0.0 <= MinusDi(s) && PlusDi(s) + MinusDi(s) <= 100.0
  {
    hide Smoothed, PlusDi, MinusDi, Ordered, Dominated;
    SmoothedOrdered(c, period, i);
    SmoothedDominated(c, period, i);
    SumsDiBounds(Smoothed(c, period, i));
  }

  lemma SumsDiBounds(s: Sums)
    requires Ordered(s) && Dominated(s) && s.tr != 0.0
    ensures 0.0 <= PlusDi(s) && 0.0 <= MinusDi(s) && PlusDi(s) + MinusDi(s) <= 100.0
  {
    Quotient(s.plus, s.tr);
    Quotient(s.minus, s.tr);
    Quotient(s.plus + s.minus, s.tr);
    DivideAdds(s.plus, s.minus, s.tr);
  }

  lemma DivideAdds(x: real, y: real, z: real)
    requires z != 0.0
    ensures (x + y) / z == x / z + y / z
  {
    var q := x / z + y / z;
    assert x / z * z == x && y / z * z == y && (x + y) / z * z == x + y;
    assert q * z == x + y;
    ZeroFactor((x + y) / z - q, z);
  }

  lemma ZeroFactor(a: real, b: real)
    requires b != 0.0 && a * b == 0.0
    ensures a == 0.0
  {
  }

  lemma DxBounds(s: Sums)
    requires Ordered(s) && s.tr != 0.0 && DiSum(s) != 0.0
    ensures 0.0 <= Dx(s) <= 100.0
  {
    Quotient(s.plus, s.tr);
    Quotient(s.minus, s.tr);
    var p, m := PlusDi(s), MinusDi(s);
    assert p >= 0.0 && m >= 0.0;
    Quotient(Abs(p - m), p + m);
  }

  predicate Percentages(dx: seq<real>) {
    forall i :: 0 <= i < |dx| ==> 0.0 <= dx[i] <= 100.0
  }

  lemma {:induction false} DxPercentages(c: seq<Candle>, period: nat, n: nat)
    requires period >= 1 && period <= n < |c|
    ensures Percentages(EngineDx(c, period, n)) && Percentages(ClassifierDx(c, period, n))
  {
    hide Smoothed, DiSum, Dx;
    if n > period {
      DxPercentages(c, period, n - 1);
      SmoothedOrdered(c, period, n);
      var s := Smoothed(c, period, n);
      if s.tr != 0.0 && DiSum(s) != 0.0 {
        DxBounds(s);
      }
    }
  }

  lemma {:induction false} FinishBounds(dx: seq<real>, period: nat)
    requires period >= 1 && Percentages(dx)
    ensures 0.0 <= Finish(dx, period) <= 100.0
  {
    hide Mean, Smooth;
    if |dx| <= period {
      SumBounds(dx, 0.0, 100.0);
      MeanBounds(Sum(dx), period, 0.0, 100.0);
    } else {
      FinishBounds(dx[..|dx| - 1], period);
      SmoothBounds(Finish(dx[..|dx| - 1], period), dx[|dx| - 1], period, 0.0, 100.0);
    }
  }

  /** Both indices stay between 0 and 100, on any candles. */
  lemma AdxBounds(c: seq<Candle>, period: nat)
    requires period >= 1
    ensures 0.0 <= EngineAdx(c, period) <= 100.0 && 0.0 <= ClassifierAdx(c, period) <= 100.0
  {
    hide EngineDx, ClassifierDx, Finish, Percentages;
    if |c| >= period + 1 {
      DxPercentages(c, period, |c| - 1);
      FinishBounds(EngineDx(c, period, |c| - 1), period);
      FinishBounds(ClassifierDx(c, period, |c| - 1), period);
    }
  }

  // ----- In general the classifier never reports a stronger trend than the engine

  /** Value of the common tail after one more DX value. */
  function Grow(f: real, n: nat, x: real, period: nat): real
    requires period >= 1
  {
    if n < period then f + Mean(x, period) else Smooth(f, x, period)
  }

  lemma FinishSnoc(dx: seq<real>, x: real, period: nat)
    requires period >= 1
    ensures Finish(dx + [x], period) == Grow(Finish(dx, period), |dx|, x, period)
  {
    hide Smooth;
    assert (dx + [x])[..|dx|] == dx;
    if |dx| < period {
      SumSnoc(dx, x);
      DivideAdds(Sum(dx), x, period as real);
    }
  }

  /** Appending the same value to both, or a zero to the longer list, keeps the longer list's value below. */
  lemma GrowOrdered(f: real, n: nat, g: real, m: nat, x: real, period: nat)
    requires period >= 1 && 0.0 <= g <= f && n <= m && x >= 0.0
    ensures 0.0 <= Grow(g, m, x, period) <= Grow(f, n, x, period)
    ensures 0.0 <= Grow(g, m, 0.0, period) <= f
  {
    var p := period as real;
    Quotient(x, p);
    var share := Mean(x, period);
    SmoothIs(f, x, period);
    SmoothIs(g, x, period);
    SmoothIs(g, 0.0, period);
    KeepAdds(0.0, 0.0, period);
    KeepMonotone(0.0, g, period);
    KeepMonotone(g, f, period);
    KeepBelow(g, period);
    hide Smooth, Mean, Keep;
  }

  lemma SmoothIs(f: real, x: real, period: nat)
    requires period >= 1
    ensures Smooth(f, x, period) == Keep(f, period) + Mean(x, period)
    ensures Mean(0.0, period) == 0.0
  {
    var p := period as real;
    assert f * (p - 1.0) == f * p - f;
    assert f * p / p == f;
    DivideAdds(f * p - f, x, p);
    DivideAdds(f * p, -f, p);
    DivideAdds(f, -f, p);
  }

  lemma KeepBelow(x: real, period: nat)
    requires period >= 1 && x >= 0.0
    ensures Keep(x, period) <= x
  {
    Quotient(x, period as real);
  }

  lemma {:induction false} ClassifierBelow(c: seq<Candle>, period: nat, n: nat)
    requires period >= 1 && period <= n < |c|
    ensures |EngineDx(c, period, n)| <= |ClassifierDx(c, period, n)|
    ensures 0.0 <= Finish(ClassifierDx(c, period, n), period) <= Finish(EngineDx(c, period, n), period)
  {
    hide Smoothed, DiSum, Dx, Finish;
    if n == period {
      FinishEmpty(period);
    } else {
      ClassifierBelow(c, period, n - 1);
      var a, b := EngineDx(c, period, n - 1), ClassifierDx(c, period, n - 1);
      var s := Smoothed(c, period, n);
      SmoothedOrdered(c, period, n);
      if s.tr == 0.0 {
        assert a + [] == a && b + [] == b;
      } else {
        var x := if DiSum(s) == 0.0 then 0.0 else Dx(s);
        if DiSum(s) != 0.0 {
          DxBounds(s);
        }
        assert a + [] == a;
        hide Grow;
        GrowOrdered(Finish(a, period), |a|, Finish(b, period), |b|, x, period);
        FinishSnoc(a, x, period);
        FinishSnoc(b, x, period);
      }
    }
  }

  lemma FinishEmpty(period: nat)
    requires period >= 1
    ensures Finish([], period) == 0.0
  {
    SmoothIs(0.0, 0.0, period);
  }

  /** On any candles the classifier's ADX is at most the engine's. */
  lemma ClassifierNeverStronger(c: seq<Candle>, period: nat)
    requires period >= 1
    ensures ClassifierAdx(c, period) <= EngineAdx(c, period)
  {
    hide EngineDx, ClassifierDx, Finish;
    if |c| >= period + 1 {
      ClassifierBelow(c, period, |c| - 1);
      FinishEmpty(period);
    }
  }

  // ----- Exactly when the two agree

  /** No bar up to i has moved. */
  predicate Rested(c: seq<Candle>, i: nat)
    requires i < |c|
  {
    forall k :: 1 <= k <= i ==> PlusDm(c, k) == 0.0 && MinusDm(c, k) == 0.0
  }

  /** No bar up to i has a true range. */
  predicate Pointlike(c: seq<Candle>, i: nat)
    requires i < |c|
  {
    forall k :: 1 <= k <= i ==> TrueRange(c, k) == 0.0
  }

  /** Smoothed bars up to n that have range but come before the first movement. */
  function Stills(c: seq<Candle>, period: nat, n: nat): nat
    requires period <= n < |c|
  {
    if n == period then 0 else Stills(c, period, n - 1) + if !Pointlike(c, n) && Rested(c, n) then 1 else 0
  }

  lemma KeepPositive(x: real, period: nat)
    requires period >= 2 && x >= 0.0
    ensures 0.0 <= Keep(x, period) && (Keep(x, period) == 0.0 <==> x == 0.0)
  {
    var p := period as real;
    assert Keep(x, period) * p == x * p - x by { assert x / p * p == x; }
    assert x * p - x == x * (p - 1.0);
    if x > 0.0 {
      assert x * (p - 1.0) > 0.0;
      PositiveFactor(Keep(x, period), p);
    } else {
      KeepAdds(0.0, 0.0, period);
    }
  }

  lemma {:induction false} FirstSumsZeroIff(c: seq<Candle>, n: nat)
    requires n < |c|
    ensures var s := FirstSums(c, n);
            (s.tr == 0.0 <==> Pointlike(c, n)) && (s.plus == 0.0 && s.minus == 0.0 <==> Rested(c, n))
  {
    hide TrueRange, PlusDm, MinusDm;
    if n > 0 {
      FirstSumsZeroIff(c, n - 1);
      FirstOrdered(c, n - 1);
    }
  }

  /** With a period of at least two, smoothing never forgets: a smoothed sum is zero only before its first entry. */
  lemma {:induction false} SmoothedZeroIff(c: seq<Candle>, period: nat, i: nat)
    requires period >= 2 && period <= i < |c|
    ensures var s := Smoothed(c, period, i);
            (s.tr == 0.0 <==> Pointlike(c, i)) && (s.plus == 0.0 && s.minus == 0.0 <==> Rested(c, i))
  {
    hide TrueRange, PlusDm, MinusDm, Keep;
    if i == period {
      FirstSumsZeroIff(c, period);
    } else {
      SmoothedZeroIff(c, period, i - 1);
      SmoothedOrdered(c, period, i - 1);
      var s := Smoothed(c, period, i - 1);
      KeepPositive(s.tr, period);
      KeepPositive(s.plus, period);
      KeepPositive(s.minus, period);
    }
  }

  lemma DiSumZeroIff(s: Sums)
    requires Ordered(s) && s.tr != 0.0
    ensures DiSum(s) == 0.0 <==> s.plus == 0.0 && s.minus == 0.0
  {
    Quotient(s.plus, s.tr);
    Quotient(s.minus, s.tr);
    assert s.plus / s.tr * s.tr == s.plus && s.minus / s.tr * s.tr == s.minus;
  }

  /** The bar kind that separates the implementations, read off the candles. */
  lemma StillIff(c: seq<Candle>, period: nat, i: nat)
    requires period >= 2 && period <= i < |c|
    ensures var s := Smoothed(c, period, i);
            && (s.tr == 0.0 <==> Pointlike(c, i))
            && (s.tr != 0.0 ==> (DiSum(s) == 0.0 <==> Rested(c, i)))
  {
    hide Smoothed, DiSum, Rested, Pointlike;
    SmoothedZeroIff(c, period, i);
    SmoothedOrdered(c, period, i);
    var s := Smoothed(c, period, i);
    if s.tr != 0.0 {
      DiSumZeroIff(s);
    }
  }

  function Zeros(z: nat): seq<real> {
    seq(z, _ => 0.0)
  }

  lemma {:induction false} NoDxAtRest(c: seq<Candle>, period: nat, n: nat)
    requires period >= 2 && period <= n < |c| && Rested(c, n)
    ensures EngineDx(c, period, n) == []
  {
    hide Smoothed, DiSum, Dx, Pointlike, PlusDm, MinusDm;
    if n > period {
      NoDxAtRest(c, period, n - 1);
      StillIff(c, period, n);
    }
  }

  /** The classifier's DX values are the engine's, after one zero for each bar with range before the first movement. */
  lemma {:induction false} ZerosFirst(c: seq<Candle>, period: nat, n: nat)
    requires period >= 2 && period <= n < |c|
    ensures ClassifierDx(c, period, n) == Zeros(Stills(c, period, n)) + EngineDx(c, period, n)
  {
    hide Smoothed, DiSum, Dx, Pointlike, Rested, Zeros;
    if n == period {
      ZerosStep(0, [], 0.0);
    } else {
      ZerosFirst(c, period, n - 1);
      StillIff(c, period, n);
      var a, z, s := EngineDx(c, period, n - 1), Stills(c, period, n - 1), Smoothed(c, period, n);
      if Rested(c, n) {
        RestedBefore(c, n);
        NoDxAtRest(c, period, n - 1);
      }
      ZerosStep(z, a, if s.tr != 0.0 && DiSum(s) != 0.0 then Dx(s) else 0.0);
    }
  }

  lemma RestedBefore(c: seq<Candle>, n: nat)
    requires 0 < n < |c| && Rested(c, n)
    ensures Rested(c, n - 1)
  {
    hide PlusDm, MinusDm;
  }

  lemma ZerosStep(z: nat, a: seq<real>, x: real)
    ensures Zeros(0) + [] == [] && a + [] == a && (Zeros(z) + a) + [] == Zeros(z) + a
    ensures (Zeros(z) + []) + [0.0] == Zeros(z + 1) + []
    ensures (Zeros(z) + a) + [x] == Zeros(z) + (a + [x])
  {
  }

  /** Index of the first positive value, the length when there is none. */
  function FirstPositive(dx: seq<real>): (i: nat)
    ensures i <= |dx|
    ensures i == |dx| <==> forall k :: 0 <= k < |dx| ==> dx[k] <= 0.0
    ensures i < |dx| ==> dx[i] > 0.0 && forall k :: 0 <= k < i ==> dx[k] <= 0.0
  {
    if dx == [] then 0
    else
      var n := |dx| - 1;
      var i := FirstPositive(dx[..n]);
      if i < n then i else if dx[n] > 0.0 then n else n + 1
  }

  function Smaller(a: int, b: int): int {
    if a < b then a else b
  }

  /** z leading zeros make no difference to a list of m values whose first positive one is at i. */
  predicate Harmless(i: nat, z: nat, m: nat, period: nat) {
    i + 1 >= Smaller(m, period) || period - z >= Smaller(m, period)
  }

  lemma ZerosLength(z: nat)
    ensures |Zeros(z)| == z
  {
  }

  lemma {:induction false} FinishZeros(z: nat, period: nat)
    requires period >= 1
    ensures Finish(Zeros(z), period) == 0.0
  {
    if z == 0 {
      FinishEmpty(period);
    } else {
      FinishZeros(z - 1, period);
      assert Zeros(z) == Zeros(z - 1) + [0.0];
      FinishSnoc(Zeros(z - 1), 0.0, period);
      SmoothIs(0.0, 0.0, period);
      KeepAdds(0.0, 0.0, period);
    }
  }

  /** What one more value does to the two tails: f without and g with z leading zeros. */
  lemma CompareStep(f: real, g: real, z: nat, m: nat, i: nat, x: real, period: nat)
    requires period >= 2 && 0.0 <= g <= f && x >= 0.0 && i <= m
    requires (f > 0.0 <==> i < m) && (g > 0.0 <==> i < m)
    requires f == g <==> Harmless(i, z, m, period)
    ensures var f', g' := Grow(f, m, x, period), Grow(g, z + m, x, period);
            var i' := if i < m then i else if x > 0.0 then m else m + 1;
            && 0.0 <= g' <= f'
            && (f' > 0.0 <==> i' < m + 1) && (g' > 0.0 <==> i' < m + 1)
            && (f' == g' <==> Harmless(i', z, m + 1, period))
  {
    SmoothIs(f, x, period);
    SmoothIs(g, x, period);
    KeepPositive(f, period);
    KeepPositive(g, period);
    KeepPositive(f - g, period);
    KeepAdds(f - g, g, period);
    KeepBelow(g, period);
    KeepStrictlyBelow(g, period);
    MeanPositive(x, period);
    hide Smooth, Keep, Mean;
  }

  lemma KeepStrictlyBelow(x: real, period: nat)
    requires period >= 2 && x >= 0.0
    ensures Keep(x, period) == x <==> x == 0.0
  {
    assert x / period as real * period as real == x;
    KeepPositive(0.0, period);
  }

  lemma MeanPositive(x: real, period: nat)
    requires period >= 1 && x >= 0.0
    ensures Mean(x, period) >= 0.0 && (Mean(x, period) == 0.0 <==> x == 0.0)
  {
    var p := period as real;
    Quotient(x, p);
    assert Mean(x, period) * p == x;
  }

  lemma {:induction false} CompareTails(dx: seq<real>, z: nat, period: nat)
    requires period >= 2 && Percentages(dx)
    ensures var f, g, i, m := Finish(dx, period), Finish(Zeros(z) + dx, period), FirstPositive(dx), |dx|;
            && 0.0 <= g <= f
            && (f > 0.0 <==> i < m) && (g > 0.0 <==> i < m)
            && (f == g <==> Harmless(i, z, m, period))
  {
    hide Finish, Grow, Harmless;
    if dx == [] {
      assert Zeros(z) + [] == Zeros(z);
      FinishZeros(z, period);
      FinishEmpty(period);
      EmptyHarmless(z, period);
    } else {
      var n := |dx| - 1;
      var before, x := dx[..n], dx[n];
      CompareTails(before, z, period);
      assert dx == before + [x];
      assert Zeros(z) + dx == (Zeros(z) + before) + [x];
      FinishSnoc(before, x, period);
      FinishSnoc(Zeros(z) + before, x, period);
      CompareStep(Finish(before, period), Finish(Zeros(z) + before, period), z, n, FirstPositive(before), x, period);
    }
  }

  lemma EmptyHarmless(z: nat, period: nat)
    ensures Harmless(0, z, 0, period)
  {
  }

  /** For a period of at least two and any candles: with the engine's DX values dx and z zeros before them in the
      classifier's, the two agree if and only if all of dx is zero, or there are at least `period` values in all and
      the zeros are harmless. */
  lemma AgreeIff(c: seq<Candle>, period: nat)
    requires period >= 2 && |c| >= period + 1
    ensures var dx, z := EngineDx(c, period, |c| - 1), Stills(c, period, |c| - 1);
            EngineAdx(c, period) == ClassifierAdx(c, period) <==>
            || (forall i :: 0 <= i < |dx| ==> dx[i] == 0.0)
            || (z + |dx| >= period && Harmless(FirstPositive(dx), z, |dx|, period))
  {
    hide EngineDx, ClassifierDx, Stills, Finish, Harmless, Zeros;
    var dx, z := EngineDx(c, period, |c| - 1), Stills(c, period, |c| - 1);
    ZerosFirst(c, period, |c| - 1);
    DxPercentages(c, period, |c| - 1);
    ZerosLength(z);
    CompareTails(dx, z, period);
    FinishEmpty(period);
  }

  /** At period one nothing is kept, and only the last bar with range counts: the two agree if and only if it moves
      or the engine's last value is zero or absent. */
  predicate RestsLast(c: seq<Candle>, n: nat)
    requires 1 <= n < |c|
  {
    n > 1 && (if TrueRange(c, n) == 0.0 then RestsLast(c, n - 1) else PlusDm(c, n) == 0.0 && MinusDm(c, n) == 0.0)
  }

  lemma KeepNothing(c: seq<Candle>, i: nat)
    requires 1 < i < |c|
    ensures Smoothed(c, 1, i) == Movement(c, i)
  {
    var s := Smoothed(c, 1, i - 1);
    assert Keep(s.tr, 1) == 0.0 && Keep(s.plus, 1) == 0.0 && Keep(s.minus, 1) == 0.0;
    hide Keep, TrueRange, PlusDm, MinusDm;
  }

  /** The last value, zero when there is none. */
  function LastOrZero(dx: seq<real>): real {
    if dx == [] then 0.0 else dx[|dx| - 1]
  }

  lemma FinishPeriodOne(dx: seq<real>)
    ensures Finish(dx, 1) == LastOrZero(dx)
  {
    if dx == [] {
      FinishEmpty(1);
    } else {
      var n := |dx| - 1;
      PeriodOne(Finish(dx[..n], 1), dx[n]);
      if n == 0 {
        assert Sum(dx[..0]) == 0.0;
      }
      hide Smooth, Mean;
    }
  }

  lemma PeriodOne(f: real, x: real)
    ensures Smooth(f, x, 1) == x && Mean(x, 1) == x
  {
    assert f * 0.0 == 0.0;
  }

  lemma {:induction false} LastValues(c: seq<Candle>, n: nat)
    requires 1 <= n < |c|
    ensures LastOrZero(ClassifierDx(c, 1, n)) == if RestsLast(c, n) then 0.0 else LastOrZero(EngineDx(c, 1, n))
  {
    hide Smoothed, DiSum, Dx, TrueRange, PlusDm, MinusDm;
    if n > 1 {
      LastValues(c, n - 1);
      KeepNothing(c, n);
      var s := Smoothed(c, 1, n);
      SmoothedOrdered(c, 1, n);
      if s.tr != 0.0 {
        DiSumZeroIff(s);
      }
      assert EngineDx(c, 1, n - 1) + [] == EngineDx(c, 1, n - 1);
      assert ClassifierDx(c, 1, n - 1) + [] == ClassifierDx(c, 1, n - 1);
    }
  }

  lemma AgreeIffPeriodOne(c: seq<Candle>)
    requires |c| >= 2
    ensures EngineAdx(c, 1) == ClassifierAdx(c, 1) <==>
            !RestsLast(c, |c| - 1) || LastOrZero(EngineDx(c, 1, |c| - 1)) == 0.0
  {
    LastValues(c, |c| - 1);
    FinishPeriodOne(EngineDx(c, 1, |c| - 1));
    FinishPeriodOne(ClassifierDx(c, 1, |c| - 1));
    hide EngineDx, ClassifierDx, Finish, RestsLast;
  }

  // ----- A history on which they disagree at the period in use

  /** Sixteen equal bars, then fourteen each one higher than the one before. */
  function RisingBar(i: nat): Candle {
    var up := if i <= 15 then 0.0 else (i - 15) as real;
    Candle(i, up, up + 1.0, up, up + 0.5, 1.0)
  }

  function Rising(): (c: seq<Candle>)
    ensures |c| == 30
  {
    seq(30, i requires 0 <= i => RisingBar(i))
  }

  lemma RisingMoves(i: nat)
    requires 1 <= i < 30
    ensures Movement(Rising(), i) == if i <= 15 then Sums(1.0, 0.0, 0.0) else Sums(1.5, 1.0, 0.0)
  {
    var c := Rising();
    assert c[i] == RisingBar(i) && c[i - 1] == RisingBar(i - 1);
  }

  lemma {:induction false} RisingStills(n: nat)
    requires 14 <= n < 30
    ensures Stills(Rising(), 14, n) == if n == 14 then 0 else 1
  {
    var c := Rising();
    if n > 14 {
      RisingStills(n - 1);
      RisingMoves(1);
      hide Rising, TrueRange, PlusDm, MinusDm;
      assert !Pointlike(c, n);
      if n == 15 {
        forall k | 1 <= k <= n ensures PlusDm(c, k) == 0.0 && MinusDm(c, k) == 0.0 {
          RisingMoves(k);
        }
      } else {
        RisingMoves(n);
        assert !Rested(c, n);
      }
    }
  }

  lemma {:induction false} RisingFirst(n: nat)
    requires n <= 14
    ensures FirstSums(Rising(), n).minus == 0.0
  {
    hide Rising, TrueRange, PlusDm, MinusDm;
    if n > 0 {
      RisingFirst(n - 1);
      RisingMoves(n);
    }
  }

  lemma {:induction false} RisingSmoothed(n: nat)
    requires 14 <= n < 30
    ensures Smoothed(Rising(), 14, n).minus == 0.0
  {
    hide Rising, TrueRange, PlusDm, MinusDm, Keep;
    if n == 14 {
      RisingFirst(14);
    } else {
      RisingSmoothed(n - 1);
      RisingMoves(n);
      KeepAdds(0.0, 0.0, 14);
    }
  }

  lemma OneSidedDx(s: Sums)
    requires Ordered(s) && s.tr != 0.0 && s.minus == 0.0 && DiSum(s) != 0.0
    ensures Dx(s) == 100.0
  {
    Quotient(s.plus, s.tr);
    var p := PlusDi(s);
    assert MinusDi(s) == 0.0 && DiSum(s) == p && p > 0.0;
    assert p / p == 1.0;
  }

  lemma {:induction false} RisingDx(n: nat)
    requires 14 <= n < 30
    ensures var dx := EngineDx(Rising(), 14, n);
            |dx| == (if n <= 15 then 0 else n - 15) && forall i :: 0 <= i < |dx| ==> dx[i] == 100.0
  {
    var c := Rising();
    hide Rising, Smoothed, TrueRange, PlusDm, MinusDm, DiSum, Dx;
    if n > 14 {
      RisingDx(n - 1);
      RisingMoves(1);
      RisingMoves(n);
      StillIff(c, 14, n);
      assert !Pointlike(c, n);
      var s := Smoothed(c, 14, n);
      if n <= 15 {
        forall k | 1 <= k <= n ensures PlusDm(c, k) == 0.0 && MinusDm(c, k) == 0.0 {
          RisingMoves(k);
        }
        assert Rested(c, n);
      } else {
        assert !Rested(c, n);
        SmoothedOrdered(c, 14, n);
        RisingSmoothed(n);
        OneSidedDx(s);
      }
    }
  }

  /** One bar at rest before a steady rise: fourteen values of 100 for the engine, which reports 100; the classifier
      has a zero before them and reports less. */
  lemma StillBarDisagrees()
    ensures ClassifierAdx(Rising(), 14) < EngineAdx(Rising(), 14) == 100.0
  {
    hide Rising, EngineDx, ClassifierDx, Stills, Finish;
    var c := Rising();
    RisingDx(29);
    RisingStills(29);
    var dx := EngineDx(c, 14, 29);
    AgreeIff(c, 14);
    assert dx[0] == 100.0;
    ClassifierNeverStronger(c, 14);
    FinishHundreds(dx, 14);
  }

  lemma FinishHundreds(dx: seq<real>, period: nat)
    requires period >= 1 && |dx| == period && forall i :: 0 <= i < |dx| ==> dx[i] == 100.0
    ensures Finish(dx, period) == 100.0
  {
    SumBounds(dx, 100.0, 100.0);
    MeanBounds(Sum(dx), period, 100.0, 100.0);
  }
}
