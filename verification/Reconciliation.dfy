/** Live/shadow trade matching: the greedy nearest-in-time loop, what kind of matching it yields and how far
    it can be from the best one, and the aggregate report over the matched pairs. */
module Reconciliation {
  import opened Prelude

  /** A trade dictionary. A `None` symbol, side or time is a present key with a null value. */
  datatype Trade = Trade(symbol: Option<string>, side: Option<string>, entryPrice: real, exitPrice: real,
                         pnl: real, fees: real, slippage: real, entryTime: Option<real>)

  datatype Entry = Entry(symbol: Option<string>, side: Option<string>,
                         liveEntry: real, shadowEntry: real, liveExit: real, shadowExit: real,
                         livePnl: real, shadowPnl: real, liveFees: real, shadowFees: real,
                         liveSlippage: real, shadowSlippage: real,
                         liveTime: Option<real>, shadowTime: Option<real>,
                         entryDelta: real, exitDelta: real, pnlDelta: real, penalty: real)

  predicate Comparable(l: Trade, s: Trade) {
    l.symbol == s.symbol && l.side == s.side && l.entryTime.Some? && s.entryTime.Some?
  }

  function Gap(l: Trade, s: Trade): real
    requires Comparable(l, s)
  {
    Abs(l.entryTime.value - s.entryTime.value)
  }

  /** The two trades may be paired: same symbol, same side, entry times within the window. */
  predicate Eligible(l: Trade, s: Trade, window: real) {
    Comparable(l, s) && Gap(l, s) <= window
  }

  function MakeEntry(l: Trade, s: Trade): Entry {
    Entry(l.symbol, l.side, l.entryPrice, s.entryPrice, l.exitPrice, s.exitPrice, l.pnl, s.pnl, l.fees, s.fees,
          l.slippage, s.slippage, l.entryTime, s.entryTime,
          l.entryPrice - s.entryPrice, l.exitPrice - s.exitPrice, l.pnl - s.pnl,
          Abs(l.entryPrice - s.entryPrice) + Abs(l.exitPrice - s.exitPrice))
  }

  /** Position of the first shadow among pool[..n] that is eligible and at the smallest gap. */
  function Nearest(l: Trade, pool: seq<Trade>, window: real, n: nat): (b: Option<nat>)
    requires n <= |pool|
    ensures b.Some? ==> b.value < n && Eligible(l, pool[b.value], window)
  {
    if n == 0 then None
    else
      var b := Nearest(l, pool, window, n - 1);
      if Eligible(l, pool[n - 1], window) && (b.None? || Gap(l, pool[n - 1]) < Gap(l, pool[b.value]))
      then Some(n - 1) else b
  }

  /** Nothing eligible is passed over, nothing eligible is closer, and nothing earlier is as close. */
  lemma {:induction false} NearestIsFirstMinimum(l: Trade, pool: seq<Trade>, window: real, n: nat, j: nat)
    requires j < n <= |pool| && Eligible(l, pool[j], window)
    ensures var b := Nearest(l, pool, window, n);
            && b.Some?
            && Gap(l, pool[b.value]) <= Gap(l, pool[j])
            && (j < b.value ==> Gap(l, pool[b.value]) < Gap(l, pool[j]))
  {
    hide Gap;
    if j < n - 1 {
      NearestIsFirstMinimum(l, pool, window, n - 1, j);
    }
  }

  function Without<T>(s: seq<T>, k: nat): seq<T>
    requires k < |s|
  {
    s[..k] + s[k + 1..]
  }

  /** Python's `list.remove`: drops the first element equal to x. */
  function RemoveFirst(s: seq<Trade>, x: Trade): seq<Trade> {
    if s == [] then [] else if s[0] == x then s[1..] else [s[0]] + RemoveFirst(s[1..], x)
  }

  lemma {:induction false} RemoveFirstAt(s: seq<Trade>, k: nat)
    requires k < |s| && forall j :: 0 <= j < k ==> s[j] != s[k]
    ensures RemoveFirst(s, s[k]) == Without(s, k)
  {
    if k > 0 {
      RemoveFirstAt(s[1..], k - 1);
      assert [s[0]] + Without(s[1..], k - 1) == Without(s, k);
    } else {
      assert Without(s, 0) == s[1..];
    }
  }

  /** Index pairs (live, shadow) matched so far, and the indices of the shadows still in the pool. */
  datatype Progress = Progress(pairs: seq<(nat, nat)>, pool: seq<nat>)

  function At(trades: seq<Trade>, pool: seq<nat>): (r: seq<Trade>)
    requires forall k :: 0 <= k < |pool| ==> pool[k] < |trades|
    ensures |r| == |pool|
  {
    seq(|pool|, k requires 0 <= k < |pool| => trades[pool[k]])
  }

  /** Position in the pool of the shadow a live trade is matched to. */
  function Choice(l: Trade, shadows: seq<Trade>, pool: seq<nat>, window: real): (b: Option<nat>)
    requires forall k :: 0 <= k < |pool| ==> pool[k] < |shadows|
    ensures b.Some? ==> b.value < |pool| && Eligible(l, shadows[pool[b.value]], window)
  {
    Nearest(l, At(shadows, pool), window, |pool|)
  }

  function Take(p: Progress, i: nat, b: Option<nat>): Progress
    requires b.Some? ==> b.value < |p.pool|
  {
    if b.None? then p else Progress(p.pairs + [(i, p.pool[b.value])], Without(p.pool, b.value))
  }

  /** Greedy matching of the first n live trades. */
  function Match(live: seq<Trade>, shadows: seq<Trade>, window: real, n: nat): (p: Progress)
    requires n <= |live|
    ensures forall k :: 0 <= k < |p.pool| ==> p.pool[k] < |shadows|
  {
    if n == 0 then Progress([], seq(|shadows|, k => k))
    else
      var p := Match(live, shadows, window, n - 1);
      Take(p, n - 1, Choice(live[n - 1], shadows, p.pool, window))
  }

  function Entries(live: seq<Trade>, shadows: seq<Trade>, pairs: seq<(nat, nat)>): (es: seq<Entry>)
    requires forall k :: 0 <= k < |pairs| ==> pairs[k].0 < |live| && pairs[k].1 < |shadows|
  {
    seq(|pairs|, k requires 0 <= k < |pairs| => MakeEntry(live[pairs[k].0], shadows[pairs[k].1]))
  }

  /** Every pair is in range and eligible. */
  ghost predicate AllEligible(live: seq<Trade>, shadows: seq<Trade>, window: real, pairs: seq<(nat, nat)>) {
    forall k :: 0 <= k < |pairs| ==>
      pairs[k].0 < |live| && pairs[k].1 < |shadows| && Eligible(live[pairs[k].0], shadows[pairs[k].1], window)
  }

  lemma {:induction false} MatchEligible(live: seq<Trade>, shadows: seq<Trade>, window: real, n: nat)
    requires n <= |live|
    ensures var p := Match(live, shadows, window, n);
            AllEligible(live, shadows, window, p.pairs) && forall k :: 0 <= k < |p.pairs| ==> p.pairs[k].0 < n
  {
    hide Eligible, Choice;
    if n > 0 {
      MatchEligible(live, shadows, window, n - 1);
    }
  }

  /** The nested loops: each live trade takes the nearest eligible shadow out of the pool. */
  method MatchTrades(live: seq<Trade>, shadows: seq<Trade>, window: real) returns (matched: seq<Entry>)
    ensures var pairs := Match(live, shadows, window, |live|).pairs;
            && AllEligible(live, shadows, window, pairs)
            && matched == Entries(live, shadows, pairs)
  {
    matched := [];
    var pool := shadows;
    assert pool == At(shadows, Match(live, shadows, window, 0).pool);
    hide MakeEntry, Eligible, Choice, Nearest, RemoveFirst, At, Entries, Match, AllEligible;
    MatchEligible(live, shadows, window, 0);
    EntriesOfNone(live, shadows, window);
    for n := 0 to |live|
      invariant var p := Match(live, shadows, window, n);
                && AllEligible(live, shadows, window, p.pairs)
                && pool == At(shadows, p.pool) && matched == Entries(live, shadows, p.pairs)
    {
      ghost var p := Match(live, shadows, window, n);
      MatchEligible(live, shadows, window, n + 1);
      var best := FindBest(live[n], pool, window);
      ChoiceIs(live[n], shadows, p.pool, window);
      MatchNext(live, shadows, window, n);
      if best.Some? {
        pool := RemoveFirst(pool, best.value);
        matched := matched + [MakeEntry(live[n], best.value)];
      }
    }
  }

  lemma EntriesOfNone(live: seq<Trade>, shadows: seq<Trade>, window: real)
    ensures Match(live, shadows, window, 0).pairs == [] && Entries(live, shadows, []) == []
  {
  }

  /** One more live trade: the index view moves by one choice, and so does the list of entries. */
  lemma MatchNext(live: seq<Trade>, shadows: seq<Trade>, window: real, n: nat)
    requires n < |live|
    requires AllEligible(live, shadows, window, Match(live, shadows, window, n).pairs)
    requires AllEligible(live, shadows, window, Match(live, shadows, window, n + 1).pairs)
    ensures var p := Match(live, shadows, window, n);
            var q := Match(live, shadows, window, n + 1);
            var b := Choice(live[n], shadows, p.pool, window);
            && q == Take(p, n, b)
            && Entries(live, shadows, q.pairs) == Entries(live, shadows, p.pairs) +
               (if b.None? then [] else [MakeEntry(live[n], shadows[p.pool[b.value]])])
  {
    hide Choice, MakeEntry, Eligible;
    var p := Match(live, shadows, window, n);
    var q := Match(live, shadows, window, n + 1);
    assert q == Take(p, n, Choice(live[n], shadows, p.pool, window));
    hide Match;
  }

  /** What the loop body does to the pool by value is what the index view says. */
  lemma ChoiceIs(l: Trade, shadows: seq<Trade>, pool: seq<nat>, window: real)
    requires forall k :: 0 <= k < |pool| ==> pool[k] < |shadows|
    ensures var trades := At(shadows, pool);
            var b := Choice(l, shadows, pool, window);
            && (b.Some? ==> trades[b.value] == shadows[pool[b.value]])
            && b == Nearest(l, trades, window, |trades|)
            && (b.Some? ==> RemoveFirst(trades, trades[b.value]) == At(shadows, Without(pool, b.value)))
  {
    hide Eligible, Nearest;
    var trades := At(shadows, pool);
    var b := Choice(l, shadows, pool, window);
    if b.Some? {
      RemovalIsByIndex(l, trades, window);
      assert At(shadows, Without(pool, b.value)) == Without(trades, b.value);
    }
  }

  /** The inner loop over the pool, with its running best match and best delta. */
  method FindBest(l: Trade, pool: seq<Trade>, window: real) returns (best: Option<Trade>)
    ensures var b := Nearest(l, pool, window, |pool|);
            best == if b.None? then None else Some(pool[b.value])
  {
    best := None;
    var bestDelta: Option<real> := None;
    for j := 0 to |pool|
      invariant var b := Nearest(l, pool, window, j);
                if b.None? then best == None && bestDelta == None
                else best == Some(pool[b.value]) && bestDelta == Some(Gap(l, pool[b.value]))
    {
      var s := pool[j];
      if l.symbol == s.symbol && l.side == s.side && l.entryTime.Some? && s.entryTime.Some? {
        var delta := Gap(l, s);
        if delta <= window && (bestDelta.None? || delta < bestDelta.value) {
          best, bestDelta := Some(s), Some(delta);
        }
      }
    }
  }

  /** Removing by value drops exactly the chosen element: an equal trade earlier in the pool would have won. */
  lemma RemovalIsByIndex(l: Trade, pool: seq<Trade>, window: real)
    requires Nearest(l, pool, window, |pool|).Some?
    ensures var b := Nearest(l, pool, window, |pool|).value;
            RemoveFirst(pool, pool[b]) == Without(pool, b)
  {
    hide Nearest;
    var b := Nearest(l, pool, window, |pool|).value;
    forall j | 0 <= j < b && Eligible(l, pool[j], window) ensures Gap(l, pool[b]) < Gap(l, pool[j]) {
      NearestIsFirstMinimum(l, pool, window, |pool|, j);
    }
    RemoveFirstAt(pool, b);
  }

  // ----- The matching is valid, conserves the shadows and is maximal

  ghost predicate ValidMatching(live: seq<Trade>, shadows: seq<Trade>, window: real, m: set<(nat, nat)>) {
    && (forall p :: p in m ==> p.0 < |live| && p.1 < |shadows| && Eligible(live[p.0], shadows[p.1], window))
    && (forall p, q :: p in m && q in m && (p.0 == q.0 || p.1 == q.1) ==> p == q)
  }

  ghost function PairSet(pairs: seq<(nat, nat)>): set<(nat, nat)> {
    set k | 0 <= k < |pairs| :: pairs[k]
  }

  ghost predicate Injective<T>(s: seq<T>) {
    forall i, j :: 0 <= i < j < |s| ==> s[i] != s[j]
  }

  /** Pool and matched shadows split the shadow indices: nothing is lost, nothing is used twice. */
  ghost predicate Partition(p: Progress, shadows: nat) {
    && Injective(p.pool)
    && (forall j, k :: 0 <= j < |p.pool| && 0 <= k < |p.pairs| ==> p.pool[j] != p.pairs[k].1)
    && (forall i, j :: 0 <= i < j < |p.pairs| ==> p.pairs[i].0 < p.pairs[j].0 && p.pairs[i].1 != p.pairs[j].1)
    && (forall s :: 0 <= s < shadows ==> s in p.pool || exists k :: 0 <= k < |p.pairs| && p.pairs[k].1 == s)
  }

  lemma PartitionStep(p: Progress, shadows: nat, i: nat, b: nat)
    requires Partition(p, shadows) && b < |p.pool|
    requires forall k :: 0 <= k < |p.pairs| ==> p.pairs[k].0 < i
    ensures Partition(Progress(p.pairs + [(i, p.pool[b])], Without(p.pool, b)), shadows)
  {
    var q := Progress(p.pairs + [(i, p.pool[b])], Without(p.pool, b));
    forall s | 0 <= s < shadows
      ensures s in q.pool || exists k :: 0 <= k < |q.pairs| && q.pairs[k].1 == s
    {
      if s in p.pool {
        var j :| 0 <= j < |p.pool| && p.pool[j] == s;
        if j < b {
          assert q.pool[j] == s;
        } else if j == b {
          assert q.pairs[|p.pairs|].1 == s;
        } else {
          assert q.pool[j - 1] == s;
        }
      } else {
        var k :| 0 <= k < |p.pairs| && p.pairs[k].1 == s;
        assert q.pairs[k].1 == s;
      }
    }
  }

  lemma {:induction false} MatchPartition(live: seq<Trade>, shadows: seq<Trade>, window: real, n: nat)
    requires n <= |live|
    ensures Partition(Match(live, shadows, window, n), |shadows|)
  {
    hide Eligible, Choice;
    if n == 0 {
      var q := Match(live, shadows, window, n);
      forall s | 0 <= s < |shadows| ensures s in q.pool {
        assert q.pool[s] == s;
      }
    } else {
      MatchPartition(live, shadows, window, n - 1);
      MatchEligible(live, shadows, window, n - 1);
      var p := Match(live, shadows, window, n - 1);
      var b := Choice(live[n - 1], shadows, p.pool, window);
      assert Match(live, shadows, window, n) == Take(p, n - 1, b);
      hide Match, Partition;
      if b.Some? {
        PartitionStep(p, |shadows|, n - 1, b.value);
      }
    }
  }

  function Used(shadows: seq<Trade>, pairs: seq<(nat, nat)>): seq<Trade>
    requires forall k :: 0 <= k < |pairs| ==> pairs[k].1 < |shadows|
  {
    seq(|pairs|, k requires 0 <= k < |pairs| => shadows[pairs[k].1])
  }

  /** Conservation by value: matched shadows and leftover pool are together exactly the shadow trades given. */
  ghost predicate Conserved(shadows: seq<Trade>, p: Progress) {
    && (forall k :: 0 <= k < |p.pool| ==> p.pool[k] < |shadows|)
    && (forall k :: 0 <= k < |p.pairs| ==> p.pairs[k].1 < |shadows|)
    && multiset(At(shadows, p.pool)) + multiset(Used(shadows, p.pairs)) == multiset(shadows)
  }

  lemma {:induction false} ShadowsConserved(live: seq<Trade>, shadows: seq<Trade>, window: real, n: nat)
    requires n <= |live|
    ensures Conserved(shadows, Match(live, shadows, window, n))
  {
    if n == 0 {
      var q := Match(live, shadows, window, 0);
      assert At(shadows, q.pool) == shadows;
    } else {
      ShadowsConserved(live, shadows, window, n - 1);
      var p := Match(live, shadows, window, n - 1);
      var b := Choice(live[n - 1], shadows, p.pool, window);
      assert Match(live, shadows, window, n) == Take(p, n - 1, b) by { hide Choice; }
      hide Match, Conserved, Choice, Eligible;
      if b.Some? {
        ConserveStep(shadows, p, n - 1, b.value);
      }
    }
  }

  lemma ConserveStep(shadows: seq<Trade>, p: Progress, i: nat, b: nat)
    requires Conserved(shadows, p) && b < |p.pool|
    ensures Conserved(shadows, Take(p, i, Some(b)))
  {
    var q := Take(p, i, Some(b));
    var pool, used := At(shadows, p.pool), Used(shadows, p.pairs);
    assert At(shadows, q.pool) == Without(pool, b);
    assert Used(shadows, q.pairs) == used + [pool[b]];
    MoveOne(pool, used, b);
  }

  lemma MoveOne(pool: seq<Trade>, taken: seq<Trade>, b: nat)
    requires b < |pool|
    ensures multiset(Without(pool, b)) + multiset(taken + [pool[b]]) == multiset(pool) + multiset(taken)
  {
    assert pool == pool[..b] + [pool[b]] + pool[b + 1..];
  }

  /** A live trade left unmatched has no eligible shadow in the final pool. */
  ghost predicate Maximal(live: seq<Trade>, shadows: seq<Trade>, window: real, p: Progress, n: nat)
    requires n <= |live| && forall k :: 0 <= k < |p.pool| ==> p.pool[k] < |shadows|
  {
    forall i, j :: 0 <= i < n && 0 <= j < |p.pool| && Eligible(live[i], shadows[p.pool[j]], window) ==>
      exists k :: 0 <= k < |p.pairs| && p.pairs[k].0 == i
  }

  lemma {:induction false} MatchMaximal(live: seq<Trade>, shadows: seq<Trade>, window: real, n: nat)
    requires n <= |live|
    ensures Maximal(live, shadows, window, Match(live, shadows, window, n), n)
  {
    hide Eligible, Choice;
    if n > 0 {
      MatchMaximal(live, shadows, window, n - 1);
      var p := Match(live, shadows, window, n - 1);
      var b := Choice(live[n - 1], shadows, p.pool, window);
      assert Match(live, shadows, window, n) == Take(p, n - 1, b);
      hide Match, Maximal;
      MaximalStep(live, shadows, window, p, n - 1);
    }
  }

  lemma MaximalStep(live: seq<Trade>, shadows: seq<Trade>, window: real, p: Progress, n: nat)
    requires n < |live| && forall k :: 0 <= k < |p.pool| ==> p.pool[k] < |shadows|
    requires Maximal(live, shadows, window, p, n)
    ensures Maximal(live, shadows, window, Take(p, n, Choice(live[n], shadows, p.pool, window)), n + 1)
  {
    hide Eligible, Nearest;
    var b := Choice(live[n], shadows, p.pool, window);
    var q := Take(p, n, b);
    forall i, j | 0 <= i < n + 1 && 0 <= j < |q.pool| && Eligible(live[i], shadows[q.pool[j]], window)
      ensures exists k :: 0 <= k < |q.pairs| && q.pairs[k].0 == i
    {
      var j' := if b.Some? && j >= b.value then j + 1 else j;
      assert q.pool[j] == p.pool[j'];
      if i == n {
        NearestIsFirstMinimum(live[n], At(shadows, p.pool), window, |p.pool|, j');
        assert q.pairs[|p.pairs|].0 == n;
      } else {
        var k :| 0 <= k < |p.pairs| && p.pairs[k].0 == i;
        assert q.pairs[k].0 == i;
      }
    }
  }

  lemma MatchValid(live: seq<Trade>, shadows: seq<Trade>, window: real)
    ensures var pairs := Match(live, shadows, window, |live|).pairs;
            ValidMatching(live, shadows, window, PairSet(pairs)) && |PairSet(pairs)| == |pairs|
  {
    MatchEligible(live, shadows, window, |live|);
    MatchPartition(live, shadows, window, |live|);
    hide Match, Eligible;
    PairSetSize(Match(live, shadows, window, |live|).pairs);
  }

  lemma {:induction false} PairSetSize(pairs: seq<(nat, nat)>)
    requires Injective(pairs)
    ensures |PairSet(pairs)| == |pairs|
  {
    if pairs != [] {
      var n := |pairs| - 1;
      PairSetSize(pairs[..n]);
      assert PairSet(pairs) == PairSet(pairs[..n]) + {pairs[n]};
    }
  }

  /** No pair can be added to the result: every eligible pair touches a matched live or a matched shadow trade. */
  lemma NothingToAdd(live: seq<Trade>, shadows: seq<Trade>, window: real, i: nat, s: nat)
    requires i < |live| && s < |shadows| && Eligible(live[i], shadows[s], window)
    ensures var m := PairSet(Match(live, shadows, window, |live|).pairs);
            exists p :: p in m && (p.0 == i || p.1 == s)
  {
    var p := Match(live, shadows, window, |live|);
    MatchPartition(live, shadows, window, |live|);
    MatchMaximal(live, shadows, window, |live|);
    hide Match, Eligible;
    var m := PairSet(p.pairs);
    if s in p.pool {
      var j :| 0 <= j < |p.pool| && p.pool[j] == s;
      var k :| 0 <= k < |p.pairs| && p.pairs[k].0 == i;
      assert p.pairs[k] in m;
    } else {
      var k :| 0 <= k < |p.pairs| && p.pairs[k].1 == s;
      assert p.pairs[k] in m;
    }
  }

  // ----- The matching, read off the trades

  predicate Sorted(s: seq<nat>) {
    forall i, j :: 0 <= i < j < |s| ==> s[i] < s[j]
  }

  /** The pool stays in the order of the shadow trades. */
  lemma {:induction false} PoolSorted(live: seq<Trade>, shadows: seq<Trade>, window: real, n: nat)
    requires n <= |live|
    ensures Sorted(Match(live, shadows, window, n).pool)
  {
    hide Choice;
    if n > 0 {
      PoolSorted(live, shadows, window, n - 1);
    }
  }

  ghost predicate MatchedLive(pairs: seq<(nat, nat)>, i: nat) {
    exists k :: 0 <= k < |pairs| && pairs[k].0 == i
  }

  /** Shadow s is taken by one of the first n pairs. */
  ghost predicate TakenBefore(pairs: seq<(nat, nat)>, n: nat, s: nat)
    requires n <= |pairs|
  {
    exists k :: 0 <= k < n && pairs[k].1 == s
  }

  /** Of the first n live trades, one is left unmatched only when all its eligible shadows were taken by earlier ones. */
  ghost predicate LeftOnlyWhenTaken(live: seq<Trade>, shadows: seq<Trade>, window: real, pairs: seq<(nat, nat)>, n: nat)
    requires n <= |live|
  {
    forall i, s :: 0 <= i < n && 0 <= s < |shadows| && Eligible(live[i], shadows[s], window) && !MatchedLive(pairs, i) ==>
      exists k :: 0 <= k < |pairs| && pairs[k].1 == s && pairs[k].0 < i
  }

  /** No shadow that was still free is closer than the one taken, and none listed before it is as close. */
  ghost predicate NearestTaken(live: seq<Trade>, shadows: seq<Trade>, window: real, pairs: seq<(nat, nat)>)
    requires AllEligible(live, shadows, window, pairs)
  {
    forall k, s :: 0 <= k < |pairs| && 0 <= s < |shadows| && Eligible(live[pairs[k].0], shadows[s], window)
                   && !TakenBefore(pairs, k, s) ==>
      && Gap(live[pairs[k].0], shadows[pairs[k].1]) <= Gap(live[pairs[k].0], shadows[s])
      && (s < pairs[k].1 ==> Gap(live[pairs[k].0], shadows[pairs[k].1]) < Gap(live[pairs[k].0], shadows[s]))
  }

  /** A shadow none of the pairs takes is in the pool. */
  lemma FreeInPool(p: Progress, shadows: nat, s: nat) returns (j: nat)
    requires Partition(p, shadows) && s < shadows && !TakenBefore(p.pairs, |p.pairs|, s)
    ensures j < |p.pool| && p.pool[j] == s
  {
    assert s in p.pool;
    j :| 0 <= j < |p.pool| && p.pool[j] == s;
  }

  lemma ChoiceNearest(l: Trade, shadows: seq<Trade>, p: Progress, window: real, s: nat)
    requires forall k :: 0 <= k < |p.pool| ==> p.pool[k] < |shadows|
    requires Partition(p, |shadows|) && Sorted(p.pool) && s < |shadows| && Eligible(l, shadows[s], window)
    requires !TakenBefore(p.pairs, |p.pairs|, s)
    ensures var b := Choice(l, shadows, p.pool, window);
            && b.Some?
            && Gap(l, shadows[p.pool[b.value]]) <= Gap(l, shadows[s])
            && (s < p.pool[b.value] ==> Gap(l, shadows[p.pool[b.value]]) < Gap(l, shadows[s]))
  {
    hide Nearest, Gap, Eligible;
    var j := FreeInPool(p, |shadows|, s);
    NearestIsFirstMinimum(l, At(shadows, p.pool), window, |p.pool|, j);
  }

  lemma {:induction false} GreedyOrder(live: seq<Trade>, shadows: seq<Trade>, window: real, n: nat)
    requires n <= |live|
    ensures AllEligible(live, shadows, window, Match(live, shadows, window, n).pairs)
    ensures LeftOnlyWhenTaken(live, shadows, window, Match(live, shadows, window, n).pairs, n)
    ensures NearestTaken(live, shadows, window, Match(live, shadows, window, n).pairs)
  {
    MatchEligible(live, shadows, window, n);
    if n > 0 {
      hide Eligible, Choice, NearestTaken, LeftOnlyWhenTaken;
      GreedyOrder(live, shadows, window, n - 1);
      MatchEligible(live, shadows, window, n - 1);
      MatchPartition(live, shadows, window, n - 1);
      PoolSorted(live, shadows, window, n - 1);
      var p := Match(live, shadows, window, n - 1);
      var b := Choice(live[n - 1], shadows, p.pool, window);
      var q := Match(live, shadows, window, n);
      assert q == Take(p, n - 1, b);
      hide Match, Partition, Sorted, AllEligible;
      if b.Some? {
        LeftStepTaken(live, shadows, window, p.pairs, n - 1, p.pool[b.value]);
        NearestStep(live, shadows, window, p, n - 1, b.value);
      } else {
        LeftStepNone(live, shadows, window, p, n - 1);
      }
    }
  }

  lemma MatchedStays(pairs: seq<(nat, nat)>, pairs': seq<(nat, nat)>, i: nat)
    requires pairs <= pairs'
    ensures MatchedLive(pairs, i) ==> MatchedLive(pairs', i)
  {
    if MatchedLive(pairs, i) {
      var k :| 0 <= k < |pairs| && pairs[k].0 == i;
      assert pairs'[k] == pairs[k];
    }
  }

  lemma LeftStepTaken(live: seq<Trade>, shadows: seq<Trade>, window: real, pairs: seq<(nat, nat)>, n: nat, s: nat)
    requires n < |live| && LeftOnlyWhenTaken(live, shadows, window, pairs, n)
    ensures LeftOnlyWhenTaken(live, shadows, window, pairs + [(n, s)], n + 1)
  {
    hide Eligible;
    var pairs' := pairs + [(n, s)];
    assert pairs'[|pairs|].0 == n;
    forall i, u | 0 <= i < n + 1 && 0 <= u < |shadows| && Eligible(live[i], shadows[u], window) && !MatchedLive(pairs', i)
      ensures exists k :: 0 <= k < |pairs'| && pairs'[k].1 == u && pairs'[k].0 < i
    {
      assert i != n;
      MatchedStays(pairs, pairs', i);
      var k :| 0 <= k < |pairs| && pairs[k].1 == u && pairs[k].0 < i;
      assert pairs'[k] == pairs[k];
    }
  }

  lemma LeftStepNone(live: seq<Trade>, shadows: seq<Trade>, window: real, p: Progress, n: nat)
    requires n < |live| && LeftOnlyWhenTaken(live, shadows, window, p.pairs, n)
    requires forall k :: 0 <= k < |p.pool| ==> p.pool[k] < |shadows|
    requires Partition(p, |shadows|) && Sorted(p.pool) && forall k :: 0 <= k < |p.pairs| ==> p.pairs[k].0 < n
    requires Choice(live[n], shadows, p.pool, window) == None
    ensures LeftOnlyWhenTaken(live, shadows, window, p.pairs, n + 1)
  {
    hide Eligible, Choice, Partition, Sorted;
    forall u | 0 <= u < |shadows| && Eligible(live[n], shadows[u], window)
      ensures exists k :: 0 <= k < |p.pairs| && p.pairs[k].1 == u && p.pairs[k].0 < n
    {
      if !TakenBefore(p.pairs, |p.pairs|, u) {
        ChoiceNearest(live[n], shadows, p, window, u);
        assert false;
      }
      var k :| 0 <= k < |p.pairs| && p.pairs[k].1 == u;
      assert p.pairs[k].0 < n;
    }
  }

  lemma NearestStep(live: seq<Trade>, shadows: seq<Trade>, window: real, p: Progress, n: nat, b: nat)
    requires n < |live| && AllEligible(live, shadows, window, p.pairs) && NearestTaken(live, shadows, window, p.pairs)
    requires forall k :: 0 <= k < |p.pool| ==> p.pool[k] < |shadows|
    requires Partition(p, |shadows|) && Sorted(p.pool) && Choice(live[n], shadows, p.pool, window) == Some(b)
    requires AllEligible(live, shadows, window, p.pairs + [(n, p.pool[b])])
    ensures NearestTaken(live, shadows, window, p.pairs + [(n, p.pool[b])])
  {
    hide Gap, Choice, Partition, Sorted;
    var pairs' := p.pairs + [(n, p.pool[b])];
    forall k, s | 0 <= k < |pairs'| && 0 <= s < |shadows| && Eligible(live[pairs'[k].0], shadows[s], window)
                  && !TakenBefore(pairs', k, s)
      ensures Gap(live[pairs'[k].0], shadows[pairs'[k].1]) <= Gap(live[pairs'[k].0], shadows[s])
      ensures s < pairs'[k].1 ==> Gap(live[pairs'[k].0], shadows[pairs'[k].1]) < Gap(live[pairs'[k].0], shadows[s])
    {
      SameTaken(p.pairs, pairs', k, s);
      if k == |p.pairs| {
        ChoiceNearest(live[n], shadows, p, window, s);
      } else {
        assert pairs'[k] == p.pairs[k];
      }
    }
  }

  lemma SameTaken(pairs: seq<(nat, nat)>, pairs': seq<(nat, nat)>, k: nat, s: nat)
    requires pairs <= pairs' && k <= |pairs|
    ensures TakenBefore(pairs, k, s) <==> TakenBefore(pairs', k, s)
  {
    assert forall m :: 0 <= m < k ==> pairs'[m] == pairs[m];
  }

  /** Equal symbol and side, both times known, at most the window apart. */
  lemma EligibleIff(l: Trade, s: Trade, window: real)
    ensures Eligible(l, s, window) <==>
            && l.symbol == s.symbol && l.side == s.side && l.entryTime.Some? && s.entryTime.Some?
            && -window <= l.entryTime.value - s.entryTime.value <= window
    ensures Comparable(l, s) ==> Gap(l, s) == if l.entryTime.value < s.entryTime.value then s.entryTime.value - l.entryTime.value
                                              else l.entryTime.value - s.entryTime.value
  {
  }

  /** An entry lists both trades side by side, with deltas live minus shadow and the penalty of both price deltas. */
  ghost predicate Lists(e: Entry, l: Trade, s: Trade) {
    && e.symbol == l.symbol && e.side == l.side && e.liveTime == l.entryTime && e.shadowTime == s.entryTime
    && e.liveEntry == l.entryPrice && e.liveExit == l.exitPrice && e.livePnl == l.pnl
    && e.liveFees == l.fees && e.liveSlippage == l.slippage
    && e.shadowEntry == s.entryPrice && e.shadowExit == s.exitPrice && e.shadowPnl == s.pnl
    && e.shadowFees == s.fees && e.shadowSlippage == s.slippage
    && e.entryDelta == l.entryPrice - s.entryPrice && e.exitDelta == l.exitPrice - s.exitPrice && e.pnlDelta == l.pnl - s.pnl
    && e.penalty == (if l.entryPrice < s.entryPrice then s.entryPrice - l.entryPrice else l.entryPrice - s.entryPrice)
                    + (if l.exitPrice < s.exitPrice then s.exitPrice - l.exitPrice else l.exitPrice - s.exitPrice)
  }

  /** Every entry lists two trades of one symbol and side, at most the window apart, and no two entries share a trade. */
  lemma EntriesFromFields(live: seq<Trade>, shadows: seq<Trade>, window: real)
    ensures var pairs := Match(live, shadows, window, |live|).pairs;
            && AllEligible(live, shadows, window, pairs)
            && var es := Entries(live, shadows, pairs);
               && |es| == |pairs|
               && (forall k :: 0 <= k < |es| ==>
                     var l, s := live[pairs[k].0], shadows[pairs[k].1];
                     && Lists(es[k], l, s) && l.symbol == s.symbol && l.side == s.side && l.entryTime.Some? && s.entryTime.Some?
                     && -window <= l.entryTime.value - s.entryTime.value <= window)
               && (forall k, m :: 0 <= k < m < |es| ==> pairs[k].0 != pairs[m].0 && pairs[k].1 != pairs[m].1)
  {
    MatchEligible(live, shadows, window, |live|);
    MatchPartition(live, shadows, window, |live|);
    hide Match, Eligible;
    var pairs := Match(live, shadows, window, |live|).pairs;
    var es := Entries(live, shadows, pairs);
    forall k | 0 <= k < |es|
      ensures var l, s := live[pairs[k].0], shadows[pairs[k].1];
              && Lists(es[k], l, s) && l.symbol == s.symbol && l.side == s.side && l.entryTime.Some? && s.entryTime.Some?
              && -window <= l.entryTime.value - s.entryTime.value <= window
    {
      EligibleIff(live[pairs[k].0], shadows[pairs[k].1], window);
    }
  }

  /** Conversely, a live trade without an entry has no such shadow trade left: every one was taken by an earlier live. */
  lemma UnmatchedFromFields(live: seq<Trade>, shadows: seq<Trade>, window: real, i: nat, s: nat)
    requires i < |live| && s < |shadows|
    requires var l, u := live[i], shadows[s];
             && l.symbol == u.symbol && l.side == u.side && l.entryTime.Some? && u.entryTime.Some?
             && -window <= l.entryTime.value - u.entryTime.value <= window
    ensures var pairs := Match(live, shadows, window, |live|).pairs;
            (exists k :: 0 <= k < |pairs| && pairs[k].0 == i)
            || (exists k :: 0 <= k < |pairs| && pairs[k].1 == s && pairs[k].0 < i)
  {
    GreedyOrder(live, shadows, window, |live|);
    EligibleIff(live[i], shadows[s], window);
    hide Match, Eligible, NearestTaken;
  }

  /** And a live trade with an entry got the nearest in time of the shadow trades then free, the first on a tie. */
  lemma NearestFromFields(live: seq<Trade>, shadows: seq<Trade>, window: real, k: nat, s: nat)
    requires var pairs := Match(live, shadows, window, |live|).pairs;
             && AllEligible(live, shadows, window, pairs) && k < |pairs| && s < |shadows|
             && (forall m :: 0 <= m < k ==> pairs[m].1 != s)
             && var l, u := live[pairs[k].0], shadows[s];
                && l.symbol == u.symbol && l.side == u.side && l.entryTime.Some? && u.entryTime.Some?
                && -window <= l.entryTime.value - u.entryTime.value <= window
    ensures var pairs := Match(live, shadows, window, |live|).pairs;
            var l, b, u := live[pairs[k].0], shadows[pairs[k].1], shadows[s];
            && b.entryTime.Some?
            && var near, far := Abs(l.entryTime.value - b.entryTime.value), Abs(l.entryTime.value - u.entryTime.value);
               near <= far && (s < pairs[k].1 ==> near < far)
  {
    GreedyOrder(live, shadows, window, |live|);
    hide Match;
    var pairs := Match(live, shadows, window, |live|).pairs;
    EligibleIff(live[pairs[k].0], shadows[s], window);
    EligibleIff(live[pairs[k].0], shadows[pairs[k].1], window);
    assert !TakenBefore(pairs, k, s);
  }

  // ----- At least half of the best possible

  ghost function Lives(m: set<(nat, nat)>): set<nat> {
    set p | p in m :: p.0
  }

  ghost function Shadows(m: set<(nat, nat)>): set<nat> {
    set p | p in m :: p.1
  }

  lemma {:induction false} LivesSize(m: set<(nat, nat)>)
    ensures |Lives(m)| <= |m|
    ensures (forall p, q :: p in m && q in m && p.0 == q.0 ==> p == q) ==> |Lives(m)| == |m|
  {
    if m != {} {
      var p :| p in m;
      LivesSize(m - {p});
      assert Lives(m) == Lives(m - {p}) + {p.0};
    }
  }

  lemma {:induction false} ShadowsSize(m: set<(nat, nat)>)
    ensures |Shadows(m)| <= |m|
    ensures (forall p, q :: p in m && q in m && p.1 == q.1 ==> p == q) ==> |Shadows(m)| == |m|
  {
    if m != {} {
      var p :| p in m;
      ShadowsSize(m - {p});
      assert Shadows(m) == Shadows(m - {p}) + {p.1};
    }
  }

  /** Any matching whose every pair touches a pair of `taken` has at most twice as many pairs. */
  lemma HalfOfAny(taken: set<(nat, nat)>, m: set<(nat, nat)>)
    requires forall p, q :: p in m && q in m && (p.0 == q.0 || p.1 == q.1) ==> p == q
    requires forall p :: p in m ==> exists q :: q in taken && (q.0 == p.0 || q.1 == p.1)
    ensures |m| <= 2 * |taken|
  {
    var byLive := set p | p in m && p.0 in Lives(taken);
    var byShadow := m - byLive;
    LivesSize(byLive);
    ShadowsSize(byShadow);
    LivesSize(taken);
    ShadowsSize(taken);
    forall s | s in Shadows(byShadow) ensures s in Shadows(taken) {
      var p :| p in byShadow && p.1 == s;
      var q :| q in taken && (q.0 == p.0 || q.1 == p.1);
      assert q.0 in Lives(taken);
    }
    SubsetSize(Lives(byLive), Lives(taken));
    SubsetSize(Shadows(byShadow), Shadows(taken));
    assert m == byLive + byShadow;
  }

  /** The greedy matching has at least half as many pairs as any valid matching. */
  lemma HalfOfOptimum(live: seq<Trade>, shadows: seq<Trade>, window: real, m: set<(nat, nat)>)
    requires ValidMatching(live, shadows, window, m)
    ensures |m| <= 2 * |Match(live, shadows, window, |live|).pairs|
  {
    var taken := PairSet(Match(live, shadows, window, |live|).pairs);
    MatchValid(live, shadows, window);
    hide Match, Eligible;
    forall p | p in m ensures exists q :: q in taken && (q.0 == p.0 || q.1 == p.1) {
      NothingToAdd(live, shadows, window, p.0, p.1);
    }
    HalfOfAny(taken, m);
  }

  function Stamp(t: real): Trade {
    Trade(Some("BTC/USDT"), Some("buy"), 0.0, 0.0, 0.0, 0.0, 0.0, Some(t))
  }

  lemma StampsEligible(t: real, u: real)
    ensures Eligible(Stamp(t), Stamp(u), 300.0) <==> Abs(t - u) <= 300.0
    ensures Comparable(Stamp(t), Stamp(u)) && Gap(Stamp(t), Stamp(u)) == Abs(t - u)
  {
  }

  lemma FirstChoice(shadows: seq<Trade>)
    requires shadows == [Stamp(140.0), Stamp(-160.0)]
    ensures Choice(Stamp(0.0), shadows, [0, 1], 300.0) == Some(0)
    ensures Choice(Stamp(300.0), shadows, [1], 300.0) == None
  {
    StampsEligible(0.0, 140.0);
    StampsEligible(0.0, -160.0);
    StampsEligible(300.0, -160.0);
    assert At(shadows, [0, 1]) == shadows && At(shadows, [1]) == [Stamp(-160.0)];
    hide Eligible, Stamp, Gap;
    assert Nearest(Stamp(0.0), shadows, 300.0, 0) == None;
    assert Nearest(Stamp(0.0), shadows, 300.0, 1) == Some(0);
  }

  /** The factor two is reached: the first live trade takes the shadow that only the second could have used. */
  lemma HalfIsReached()
    ensures var live, shadows := [Stamp(0.0), Stamp(300.0)], [Stamp(140.0), Stamp(-160.0)];
            && |Match(live, shadows, 300.0, 2).pairs| == 1
            && ValidMatching(live, shadows, 300.0, {(0, 1), (1, 0)})
  {
    var live, shadows := [Stamp(0.0), Stamp(300.0)], [Stamp(140.0), Stamp(-160.0)];
    StampsEligible(0.0, -160.0);
    StampsEligible(300.0, 140.0);
    hide Eligible, Stamp, Choice;
    FirstChoice(shadows);
    assert Match(live, shadows, 300.0, 0) == Progress([], [0, 1]);
    assert Match(live, shadows, 300.0, 1) == Progress([(0, 0)], [1]) by {
      assert Without([0, 1], 0) == [1];
    }
  }

  // ----- Aggregate report

  datatype Summary = Summary(totalPairs: nat, avgEntrySlippage: real, avgExitSlippage: real, avgPnlDelta: real,
                             totalLivePnl: real, totalShadowPnl: real, totalPnlPenalty: real,
                             avgPenalty: real, feeAsymmetry: real, slippageAsymmetry: real)

  function Total(es: seq<Entry>, f: Entry -> real): real {
    if es == [] then 0.0 else Total(es[..|es| - 1], f) + f(es[|es| - 1])
  }

  function ComputeReconciliation(es: seq<Entry>): Summary {
    if es == [] then Summary(0, 0.0, 0.0, 0.0, 0.0, 0.0, 0.0, 0.0, 0.0, 0.0)
    else
      var n := |es| as real;
      var livePnl, shadowPnl := Total(es, (e: Entry) => e.livePnl), Total(es, (e: Entry) => e.shadowPnl);
      Summary(|es|,
              Total(es, (e: Entry) => e.entryDelta) / n, Total(es, (e: Entry) => e.exitDelta) / n,
              Total(es, (e: Entry) => e.pnlDelta) / n,
              livePnl, shadowPnl, livePnl - shadowPnl,
              Total(es, (e: Entry) => e.penalty) / n,
              Total(es, (e: Entry) => e.liveFees - e.shadowFees),
              Total(es, (e: Entry) => e.liveSlippage - e.shadowSlippage))
  }

  lemma {:induction false} TotalDifference(es: seq<Entry>, f: Entry -> real, g: Entry -> real, h: Entry -> real)
    requires forall k :: 0 <= k < |es| ==> h(es[k]) == f(es[k]) - g(es[k])
    ensures Total(es, h) == Total(es, f) - Total(es, g)
  {
    if es != [] {
      TotalDifference(es[..|es| - 1], f, g, h);
    }
  }

  lemma {:induction false} TotalTriangle(es: seq<Entry>, f: Entry -> real, g: Entry -> real, h: Entry -> real)
    requires forall k :: 0 <= k < |es| ==> h(es[k]) == Abs(f(es[k])) + Abs(g(es[k]))
    ensures Abs(Total(es, f)) + Abs(Total(es, g)) <= Total(es, h)
  {
    if es != [] {
      TotalTriangle(es[..|es| - 1], f, g, h);
    }
  }

  lemma {:induction false} TotalIsSum(es: seq<Entry>, f: Entry -> real)
    ensures Total(es, f) == Sum(Column(es, f))
  {
    if es != [] {
      var n := |es| - 1;
      TotalIsSum(es[..n], f);
      assert Column(es, f)[..n] == Column(es[..n], f);
    }
  }

  /** Column of one field over the matched pairs. */
  function Column(es: seq<Entry>, f: Entry -> real): seq<real> {
    seq(|es|, i requires 0 <= i < |es| => f(es[i]))
  }

  /** Every total of the report is the sum of its column, and every mean the sum divided by the number of pairs. */
  lemma SummaryTotals(es: seq<Entry>)
    ensures var r := ComputeReconciliation(es);
            && r.totalPairs == |es|
            && (es == [] ==> r.avgEntrySlippage == r.avgExitSlippage == r.avgPnlDelta == r.avgPenalty == 0.0)
            && r.avgEntrySlippage * |es| as real == Sum(Column(es, (e: Entry) => e.entryDelta))
            && r.avgExitSlippage * |es| as real == Sum(Column(es, (e: Entry) => e.exitDelta))
            && r.avgPnlDelta * |es| as real == Sum(Column(es, (e: Entry) => e.pnlDelta))
            && r.avgPenalty * |es| as real == Sum(Column(es, (e: Entry) => e.penalty))
            && r.totalLivePnl == Sum(Column(es, (e: Entry) => e.livePnl))
            && r.totalShadowPnl == Sum(Column(es, (e: Entry) => e.shadowPnl))
            && r.totalPnlPenalty == r.totalLivePnl - r.totalShadowPnl
            && r.feeAsymmetry == Sum(Column(es, (e: Entry) => e.liveFees - e.shadowFees))
            && r.slippageAsymmetry == Sum(Column(es, (e: Entry) => e.liveSlippage - e.shadowSlippage))
  {
    hide Column, Sum, Total;
    TotalIsSum(es, (e: Entry) => e.entryDelta);
    TotalIsSum(es, (e: Entry) => e.exitDelta);
    TotalIsSum(es, (e: Entry) => e.pnlDelta);
    TotalIsSum(es, (e: Entry) => e.penalty);
    TotalIsSum(es, (e: Entry) => e.livePnl);
    TotalIsSum(es, (e: Entry) => e.shadowPnl);
    TotalIsSum(es, (e: Entry) => e.liveFees - e.shadowFees);
    TotalIsSum(es, (e: Entry) => e.liveSlippage - e.shadowSlippage);
    if es == [] {
      NoTotals();
    }
  }

  lemma NoTotals()
    ensures forall f: Entry -> real :: Total([], f) == 0.0
  {
  }

  /** Over matched pairs, the mean of the per-pair PnL deltas is the total penalty spread evenly, and the mean
      execution penalty bounds both mean slippages together. */
  ghost predicate Consistent(es: seq<Entry>, r: Summary) {
    && r.totalPairs == |es|
    && r.feeAsymmetry == Total(es, (e: Entry) => e.liveFees) - Total(es, (e: Entry) => e.shadowFees)
    && r.slippageAsymmetry == Total(es, (e: Entry) => e.liveSlippage) - Total(es, (e: Entry) => e.shadowSlippage)
    && r.avgPnlDelta * r.totalPairs as real == r.totalPnlPenalty
    && Abs(r.avgEntrySlippage) + Abs(r.avgExitSlippage) <= r.avgPenalty
  }

  lemma SummaryConsistent(live: seq<Trade>, shadows: seq<Trade>, window: real, pairs: seq<(nat, nat)>)
    requires AllEligible(live, shadows, window, pairs)
    ensures var es := Entries(live, shadows, pairs);
            Consistent(es, ComputeReconciliation(es))
  {
    EntryFields(live, shadows, pairs);
    hide Eligible, ComputeReconciliation, Abs, Entries, Consistent;
    EntriesConsistent(Entries(live, shadows, pairs));
  }

  lemma EntryFields(live: seq<Trade>, shadows: seq<Trade>, pairs: seq<(nat, nat)>)
    requires forall k :: 0 <= k < |pairs| ==> pairs[k].0 < |live| && pairs[k].1 < |shadows|
    ensures var es := Entries(live, shadows, pairs);
            && |es| == |pairs|
            && (forall k :: 0 <= k < |es| ==> && es[k].pnlDelta == es[k].livePnl - es[k].shadowPnl
                                              && es[k].penalty == Abs(es[k].entryDelta) + Abs(es[k].exitDelta))
            && (forall k :: 0 <= k < |es| ==>
                  && es[k].liveEntry == live[pairs[k].0].entryPrice && es[k].shadowEntry == shadows[pairs[k].1].entryPrice
                  && es[k].entryDelta == es[k].liveEntry - es[k].shadowEntry
                  && es[k].exitDelta == es[k].liveExit - es[k].shadowExit
                  && es[k].livePnl == live[pairs[k].0].pnl && es[k].shadowPnl == shadows[pairs[k].1].pnl)
  {
    hide Abs;
  }

  lemma EntriesConsistent(es: seq<Entry>)
    requires forall k :: 0 <= k < |es| ==> es[k].pnlDelta == es[k].livePnl - es[k].shadowPnl
    requires forall k :: 0 <= k < |es| ==> es[k].penalty == Abs(es[k].entryDelta) + Abs(es[k].exitDelta)
    ensures Consistent(es, ComputeReconciliation(es))
  {
    if es != [] {
      hide Abs, Total;
      var entry, exit, penalty := (e: Entry) => e.entryDelta, (e: Entry) => e.exitDelta, (e: Entry) => e.penalty;
      TotalDifference(es, (e: Entry) => e.livePnl, (e: Entry) => e.shadowPnl, (e: Entry) => e.pnlDelta);
      TotalDifference(es, (e: Entry) => e.liveFees, (e: Entry) => e.shadowFees, (e: Entry) => e.liveFees - e.shadowFees);
      TotalDifference(es, (e: Entry) => e.liveSlippage, (e: Entry) => e.shadowSlippage,
                      (e: Entry) => e.liveSlippage - e.shadowSlippage);
      TotalTriangle(es, entry, exit, penalty);
      DivideTriangle(Total(es, entry), Total(es, exit), Total(es, penalty), |es| as real);
      DivideBack(Total(es, (e: Entry) => e.pnlDelta), |es| as real);
    }
  }

  lemma DivideBack(a: real, n: real)
    requires n > 0.0
    ensures a / n * n == a
  {
  }

  lemma DivideTriangle(a: real, b: real, c: real, n: real)
    requires n > 0.0 && Abs(a) + Abs(b) <= c
    ensures Abs(a / n) + Abs(b / n) <= c / n
  {
    AbsDivide(a, n);
    AbsDivide(b, n);
    var slack := c - (Abs(a) + Abs(b));
    assert slack / n >= 0.0;
    assert c / n == Abs(a) / n + Abs(b) / n + slack / n;
  }

  lemma AbsDivide(a: real, n: real)
    requires n > 0.0
    ensures Abs(a / n) == Abs(a) / n
  {
  }
}
