/** Equity curves: the three one-pass drawdown loops and the profit and loss totals. */
module Drawdown {
  import opened Prelude

  /** Equity after the first i trades; zero before any. */
  function Equity(pnls: seq<real>, i: nat): real
    requires i <= |pnls|
  {
    Sum(pnls[..i])
  }

  /** Highest equity among 0 .. i, the start included. */
  function Peak(pnls: seq<real>, i: nat): real
    requires i <= |pnls|
  {
    if i == 0 then 0.0 else Max(Peak(pnls, i - 1), Equity(pnls, i))
  }

  lemma {:induction false} PeakIsMaximum(pnls: seq<real>, i: nat) returns (at: nat)
    requires i <= |pnls|
    ensures at <= i && Peak(pnls, i) == Equity(pnls, at)
    ensures forall k :: 0 <= k <= i ==> Equity(pnls, k) <= Peak(pnls, i)
  {
    if i == 0 {
      at := 0;
    } else {
      at := PeakIsMaximum(pnls, i - 1);
      if Peak(pnls, i - 1) < Equity(pnls, i) {
        at := i;
      }
    }
  }

  /** Fall of the equity from moment i to moment j. */
  function Drop(pnls: seq<real>, i: nat, j: nat): real
    requires i <= j <= |pnls|
  {
    Equity(pnls, i) - Equity(pnls, j)
  }

  /** d is the largest fall of the equity from any moment to any later one, within the first n trades. */
  ghost predicate LargestFall(pnls: seq<real>, d: real, n: nat)
    requires n <= |pnls|
  {
    && (forall i, j :: 0 <= i <= j <= n ==> Drop(pnls, i, j) <= d)
    && (exists i, j :: 0 <= i <= j <= n && Drop(pnls, i, j) == d)
  }

  lemma LargestFallUnique(pnls: seq<real>, d: real, e: real)
    requires LargestFall(pnls, d, |pnls|) && LargestFall(pnls, e, |pnls|)
    ensures d == e
  {
    hide Drop;
    var i, j :| 0 <= i <= j <= |pnls| && Drop(pnls, i, j) == d;
    var k, l :| 0 <= k <= l <= |pnls| && Drop(pnls, k, l) == e;
  }

  lemma EquityStep(pnls: seq<real>, n: nat)
    requires n < |pnls|
    ensures Equity(pnls, n + 1) == Equity(pnls, n) + pnls[n]
  {
    assert pnls[..n + 1][..n] == pnls[..n];
  }

  lemma FallStart(pnls: seq<real>)
    ensures LargestFall(pnls, 0.0, 0) && Equity(pnls, 0) == 0.0
  {
    assert Drop(pnls, 0, 0) == 0.0;
  }

  /** One more trade: the running maximum of (peak - equity) stays the largest fall. */
  lemma FallStep(pnls: seq<real>, d: real, n: nat)
    requires n < |pnls| && LargestFall(pnls, d, n)
    ensures LargestFall(pnls, Max(d, Peak(pnls, n + 1) - Equity(pnls, n + 1)), n + 1)
  {
    var at := PeakIsMaximum(pnls, n + 1);
    hide Peak, Equity;
    var dd := Peak(pnls, n + 1) - Equity(pnls, n + 1);
    if d < dd {
      assert Drop(pnls, at, n + 1) == dd;
    } else {
      var i, j :| 0 <= i <= j <= n && Drop(pnls, i, j) == d;
      assert 0 <= i <= j <= n + 1 && Drop(pnls, i, j) == d;
    }
  }

  /** The fall as a percentage of the peak it fell from; nothing when that peak is zero. */
  predicate InPercent(percent: real, dd: real, peak: real) {
    if peak == 0.0 then percent == 0.0 else percent * peak == dd * 100.0
  }

  /** Distance below the running peak after i trades. */
  function Under(pnls: seq<real>, i: nat): real
    requires i <= |pnls|
  {
    Peak(pnls, i) - Equity(pnls, i)
  }

  /** j is the first moment within the first n trades at which the equity is d below its peak, the most so far. */
  ghost predicate FirstDeepest(pnls: seq<real>, d: real, j: nat, n: nat)
    requires n <= |pnls|
  {
    && j <= n && Under(pnls, j) == d
    && (forall k :: 0 <= k < j ==> Under(pnls, k) < d)
    && (forall k :: 0 <= k <= n ==> Under(pnls, k) <= d)
  }

  lemma DeepestStart(pnls: seq<real>)
    ensures FirstDeepest(pnls, 0.0, 0, 0)
  {
  }

  lemma DeepestStep(pnls: seq<real>, d: real, j: nat, n: nat)
    requires n < |pnls| && FirstDeepest(pnls, d, j, n)
    ensures var dd := Under(pnls, n + 1);
            if dd > d then FirstDeepest(pnls, dd, n + 1, n + 1) else FirstDeepest(pnls, d, j, n + 1)
  {
    hide Under;
  }

  /** Performance report: equity series, final peak, largest fall and its percentage of the peak it fell from. */
  method ComputeDrawdown(pnls: seq<real>) returns (series: seq<real>, peak: real, maxDd: real, maxDdPct: real)
    ensures |series| == |pnls| && forall i :: 0 <= i < |pnls| ==> series[i] == Equity(pnls, i + 1)
    ensures peak == Peak(pnls, |pnls|)
    ensures LargestFall(pnls, maxDd, |pnls|)
    ensures exists j :: FirstDeepest(pnls, maxDd, j, |pnls|) && InPercent(maxDdPct, maxDd, Peak(pnls, j))
  {
    hide Equity, LargestFall, FirstDeepest;
    var equity := 0.0;
    peak, maxDd, maxDdPct, series := 0.0, 0.0, 0.0, [];
    ghost var first := 0;
    FallStart(pnls);
    DeepestStart(pnls);
    for n := 0 to |pnls|
      invariant equity == Equity(pnls, n) && peak == Peak(pnls, n)
      invariant |series| == n && forall i :: 0 <= i < n ==> series[i] == Equity(pnls, i + 1)
      invariant LargestFall(pnls, maxDd, n)
      invariant first <= n && FirstDeepest(pnls, maxDd, first, n)
      invariant InPercent(maxDdPct, maxDd, Peak(pnls, first))
    {
      EquityStep(pnls, n);
      FallStep(pnls, maxDd, n);
      DeepestStep(pnls, maxDd, first, n);
      equity := equity + pnls[n];
      series := series + [equity];
      peak := Max(peak, equity);
      var dd := peak - equity;
      if dd > maxDd {
        maxDd := dd;
        maxDdPct := if peak != 0.0 then dd / peak * 100.0 else 0.0;
        first := n + 1;
        if peak != 0.0 {
          PercentOf(dd, peak);
        }
      }
    }
  }

  lemma PercentOf(dd: real, peak: real)
    requires peak != 0.0
    ensures dd / peak * 100.0 * peak == dd * 100.0
  {
  }

  /** The loop shared in shape by the Monte Carlo samples and the walk-forward windows. */
  method Fall(pnls: seq<real>) returns (cumulative: real, maxDd: real)
    ensures cumulative == Equity(pnls, |pnls|)
    ensures LargestFall(pnls, maxDd, |pnls|)
  {
    cumulative, maxDd := 0.0, 0.0;
    var peak := 0.0;
    FallStart(pnls);
    for n := 0 to |pnls|
      invariant cumulative == Equity(pnls, n) && peak == Peak(pnls, n)
      invariant LargestFall(pnls, maxDd, n)
    {
      EquityStep(pnls, n);
      FallStep(pnls, maxDd, n);
      hide Equity, LargestFall;
      cumulative := cumulative + pnls[n];
      if cumulative > peak {
        peak := cumulative;
      }
      var dd := peak - cumulative;
      if dd > maxDd {
        maxDd := dd;
      }
    }
  }

  function Ruined(samples: seq<seq<real>>): nat {
    if samples == [] then 0
    else Ruined(samples[..|samples| - 1]) + if Sum(samples[|samples| - 1]) < 0.0 then 1 else 0
  }

  ghost function RuinSet(samples: seq<seq<real>>): set<nat> {
    set i | 0 <= i < |samples| && Sum(samples[i]) < 0.0
  }

  /** Ruin counts the samples that end below zero. */
  lemma {:induction false} RuinedIsCount(samples: seq<seq<real>>)
    ensures Ruined(samples) == |RuinSet(samples)|
  {
    if samples != [] {
      var n := |samples| - 1;
      RuinedIsCount(samples[..n]);
      hide Sum;
      assert forall i :: 0 <= i < n ==> samples[..n][i] == samples[i];
      assert RuinSet(samples) == RuinSet(samples[..n]) + (if Sum(samples[n]) < 0.0 then {n} else {});
    }
  }

  /** Monte Carlo: final equity and largest fall of every resampled trade sequence, and how many end below zero.
      The samples are drawn outside the model. */
  method Resample(samples: seq<seq<real>>) returns (finals: seq<real>, maxDds: seq<real>, ruin: nat)
    ensures |finals| == |maxDds| == |samples| && ruin == Ruined(samples)
    ensures forall i :: 0 <= i < |samples| ==> finals[i] == Sum(samples[i])
    ensures forall i :: 0 <= i < |samples| ==> LargestFall(samples[i], maxDds[i], |samples[i]|)
  {
    hide LargestFall;
    finals, maxDds, ruin := [], [], 0;
    for n := 0 to |samples|
      invariant |finals| == |maxDds| == n && ruin == Ruined(samples[..n])
      invariant forall i :: 0 <= i < n ==> finals[i] == Sum(samples[i])
      invariant forall i :: 0 <= i < n ==> LargestFall(samples[i], maxDds[i], |samples[i]|)
    {
      var cumulative, maxDd := Fall(samples[n]);
      assert samples[n][..|samples[n]|] == samples[n] && samples[..n + 1][..n] == samples[..n];
      finals := finals + [cumulative];
      maxDds := maxDds + [maxDd];
      if cumulative < 0.0 {
        ruin := ruin + 1;
      }
    }
    assert samples[..|samples|] == samples;
  }

  // ----- Profit and loss totals

  function Winners(pnls: seq<real>): seq<real> {
    if pnls == [] then []
    else Winners(pnls[..|pnls| - 1]) + if pnls[|pnls| - 1] > 0.0 then [pnls[|pnls| - 1]] else []
  }

  function Losers(pnls: seq<real>): seq<real> {
    if pnls == [] then []
    else Losers(pnls[..|pnls| - 1]) + if pnls[|pnls| - 1] < 0.0 then [pnls[|pnls| - 1]] else []
  }

  function GrossProfit(pnls: seq<real>): real {
    Sum(Winners(pnls))
  }

  function GrossLoss(pnls: seq<real>): real {
    Abs(Sum(Losers(pnls)))
  }

  lemma LastTrade(pnls: seq<real>)
    requires pnls != []
    ensures var n := |pnls| - 1;
            && Sum(Winners(pnls)) == Sum(Winners(pnls[..n])) + Max(0.0, pnls[n])
            && Sum(Losers(pnls)) == Sum(Losers(pnls[..n])) + Min(0.0, pnls[n])
  {
    var n := |pnls| - 1;
    var w, l := Winners(pnls[..n]), Losers(pnls[..n]);
    SumSnoc(w, pnls[n]);
    SumSnoc(l, pnls[n]);
    assert w + [] == w && l + [] == l;
  }

  /** Winners minus losers is where the equity curve ends; both totals are non-negative. */
  lemma {:induction false} NetIsFinalEquity(pnls: seq<real>)
    ensures GrossProfit(pnls) - GrossLoss(pnls) == Equity(pnls, |pnls|)
    ensures GrossProfit(pnls) >= 0.0 && Sum(Losers(pnls)) <= 0.0
  {
    if pnls != [] {
      var n := |pnls| - 1;
      NetIsFinalEquity(pnls[..n]);
      EquityStep(pnls, n);
      assert pnls[..n][..n] == pnls[..n];
      LastTrade(pnls);
      hide Sum, Winners, Losers;
    }
  }

  /** A fall is at most the losses taken on the way. */
  lemma {:induction false} FallWithinLosses(pnls: seq<real>, i: nat, j: nat)
    requires i <= j <= |pnls|
    ensures Equity(pnls, i) - Equity(pnls, j) <= GrossLoss(pnls[..j]) - GrossLoss(pnls[..i])
  {
    if i < j {
      FallWithinLosses(pnls, i, j - 1);
      EquityStep(pnls, j - 1);
      NetIsFinalEquity(pnls[..j - 1]);
      NetIsFinalEquity(pnls[..j]);
      assert pnls[..j][..j - 1] == pnls[..j - 1];
      LastTrade(pnls[..j]);
      hide Equity, Sum, Winners, Losers;
    }
  }

  lemma {:induction false} LossGrows(pnls: seq<real>, i: nat, j: nat)
    requires i <= j <= |pnls|
    ensures 0.0 <= GrossLoss(pnls[..i]) <= GrossLoss(pnls[..j])
  {
    if i < j {
      LossGrows(pnls, i, j - 1);
      NetIsFinalEquity(pnls[..j - 1]);
      assert pnls[..j][..j - 1] == pnls[..j - 1];
      LastTrade(pnls[..j]);
    }
  }

  /** The largest fall lies between the final loss, if there is one, and the gross loss. */
  lemma FallBetween(pnls: seq<real>, d: real)
    requires LargestFall(pnls, d, |pnls|)
    ensures Max(0.0, GrossLoss(pnls) - GrossProfit(pnls)) <= d <= GrossLoss(pnls)
  {
    NetIsFinalEquity(pnls);
    FallStart(pnls);
    assert pnls[..|pnls|] == pnls;
    hide Equity, GrossLoss, GrossProfit;
    var i, j :| 0 <= i <= j <= |pnls| && Drop(pnls, i, j) == d;
    assert Drop(pnls, 0, 0) <= d && Drop(pnls, 0, |pnls|) <= d;
    FallWithinLosses(pnls, i, j);
    LossGrows(pnls, i, j);
    LossGrows(pnls, j, |pnls|);
  }
}
