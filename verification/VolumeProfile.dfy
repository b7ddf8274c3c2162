/** Volume profile over the visible price range: proportional distribution of candle volume over price bins,
    and the greedy growth of the value area around the point of control. */
module VolumeProfile {
  import opened Prelude
  import opened AverageTrueRange

  /** `bins` equal price bins between low and high. */
  datatype Grid = Grid(low: real, high: real, bins: nat)

  predicate ValidGrid(g: Grid) {
    g.low < g.high && g.bins >= 1
  }

  function Width(g: Grid): (w: real)
    requires ValidGrid(g)
    ensures w > 0.0
  {
    (g.high - g.low) / g.bins as real
  }

  /** The evenly spaced bin edges 0 .. bins. */
  function Edge(g: Grid, b: nat): real
    requires ValidGrid(g)
  {
    g.low + Width(g) * b as real
  }

  function Center(g: Grid, b: nat): real
    requires ValidGrid(g)
  {
    (Edge(g, b) + Edge(g, b + 1)) / 2.0
  }

  lemma EdgeEnds(g: Grid)
    requires ValidGrid(g)
    ensures Edge(g, 0) == g.low && Edge(g, g.bins) == g.high
  {
  }

  lemma EdgeIncreases(g: Grid, a: nat, b: nat)
    requires ValidGrid(g) && a < b
    ensures Edge(g, a) < Edge(g, b)
  {
    hide Width;
    var w := Width(g);
    assert b as real == a as real + (b - a) as real;
    assert w * (b - a) as real > 0.0;
    assert w * b as real == w * a as real + w * (b - a) as real;
  }

  lemma CenterIncreases(g: Grid, a: nat, b: nat)
    requires ValidGrid(g) && a <= b
    ensures Center(g, a) <= Center(g, b)
  {
    hide Edge;
    if a < b {
      EdgeIncreases(g, a, b);
      EdgeIncreases(g, a + 1, b + 1);
    }
  }

  lemma CenterInside(g: Grid, b: nat)
    requires ValidGrid(g) && b < g.bins
    ensures Edge(g, b) < Center(g, b) < Edge(g, b + 1)
    ensures Center(g, b) - Edge(g, b) == Edge(g, b + 1) - Center(g, b)
    ensures Edge(g, b + 1) - Edge(g, b) == Width(g)
  {
    EdgeIncreases(g, b, b + 1);
  }

  /** numpy's `searchsorted(edges, x, side='right')`: how many of the first n edges are at most x. */
  function SearchRight(g: Grid, x: real, n: nat): (k: nat)
    requires ValidGrid(g)
    ensures k <= n
  {
    if n == 0 then 0 else if Edge(g, n - 1) <= x then n else SearchRight(g, x, n - 1)
  }

  lemma {:induction false} SearchRightSplits(g: Grid, x: real, n: nat)
    requires ValidGrid(g)
    ensures var k := SearchRight(g, x, n);
            && (k > 0 ==> Edge(g, k - 1) <= x)
            && (k < n ==> x < Edge(g, k))
  {
    hide Edge;
    if n > 0 && Edge(g, n - 1) > x {
      SearchRightSplits(g, x, n - 1);
    }
  }

  /** Index of the bin of price x: search minus one, clipped to the existing bins. */
  function BinOf(g: Grid, x: real): (b: nat)
    requires ValidGrid(g)
    ensures b < g.bins
  {
    var k := SearchRight(g, x, g.bins + 1) - 1;
    if k < 0 then 0 else if k > g.bins - 1 then g.bins - 1 else k
  }

  /** Inside the visible range the bin contains the price, its upper edge excluded except in the last bin. */
  lemma BinContains(g: Grid, x: real)
    requires ValidGrid(g) && g.low <= x <= g.high
    ensures var b := BinOf(g, x);
            && Edge(g, b) <= x <= Edge(g, b + 1)
            && (x < Edge(g, b + 1) || b == g.bins - 1)
  {
    SearchRightSplits(g, x, g.bins + 1);
    EdgeEnds(g);
    var k := SearchRight(g, x, g.bins + 1);
    if k == g.bins + 1 {
      EdgeIncreases(g, g.bins - 1, g.bins);
    }
  }

  lemma BinMonotone(g: Grid, x: real, y: real)
    requires ValidGrid(g) && g.low <= x <= y <= g.high
    ensures BinOf(g, x) <= BinOf(g, y)
  {
    hide Edge, BinOf;
    BinContains(g, x);
    BinContains(g, y);
    var a, b := BinOf(g, x), BinOf(g, y);
    if b < a {
      if b + 1 < a {
        EdgeIncreases(g, b + 1, a);
      }
      assert false;
    }
  }

  // ----- Distribution of one candle's volume

  function Overlap(g: Grid, l: real, h: real, b: nat): real
    requires ValidGrid(g)
  {
    Max(0.0, Min(h, Edge(g, b + 1)) - Max(l, Edge(g, b)))
  }

  /** The volume the source puts into bin b for a candle, branch by branch. */
  function Share(g: Grid, bar: Candle, b: nat): real
    requires ValidGrid(g)
  {
    var start, end := BinOf(g, bar.low), BinOf(g, bar.high);
    if bar.high == bar.low || start == end then
      if b == start then bar.volume else 0.0
    else if start <= b <= end then
      bar.volume / (bar.high - bar.low) * Overlap(g, bar.low, bar.high, b)
    else 0.0
  }

  predicate Visible(g: Grid, bar: Candle) {
    g.low <= bar.low <= bar.high <= g.high
  }

  /** Part of [l, h] below edge n. */
  function Below(g: Grid, l: real, h: real, n: nat): real
    requires ValidGrid(g)
  {
    Max(0.0, Min(h, Edge(g, n)) - l)
  }

  function Overlaps(g: Grid, l: real, h: real, n: nat): (s: seq<real>)
    requires ValidGrid(g)
    ensures |s| == n
  {
    seq(n, b requires b >= 0 => Overlap(g, l, h, b))
  }

  /** The overlaps of a price range with consecutive bins telescope. */
  lemma {:induction false} OverlapsTelescope(g: Grid, l: real, h: real, n: nat)
    requires ValidGrid(g) && g.low <= l <= h
    ensures Sum(Overlaps(g, l, h, n)) == Below(g, l, h, n)
  {
    if n == 0 {
      EdgeEnds(g);
    } else {
      OverlapsTelescope(g, l, h, n - 1);
      EdgeIncreases(g, n - 1, n);
      var s := Overlaps(g, l, h, n);
      assert s[..n - 1] == Overlaps(g, l, h, n - 1);
      assert s[n - 1] == Overlap(g, l, h, n - 1);
      hide Edge;
    }
  }

  /** The clipping of the loop to the bins start .. end loses nothing: for a candle with a price range, every bin
      gets volume in proportion to its overlap with the range. */
  lemma ShareIsProportional(g: Grid, bar: Candle, b: nat)
    requires ValidGrid(g) && Visible(g, bar) && bar.low < bar.high && b < g.bins
    ensures Share(g, bar, b) == bar.volume / (bar.high - bar.low) * Overlap(g, bar.low, bar.high, b)
  {
    hide Edge, BinOf;
    BinContains(g, bar.low);
    BinContains(g, bar.high);
    BinMonotone(g, bar.low, bar.high);
    var start, end := BinOf(g, bar.low), BinOf(g, bar.high);
    var rate, range := bar.volume / (bar.high - bar.low), bar.high - bar.low;
    if b < start {
      if b + 1 < start { EdgeIncreases(g, b + 1, start); }
      assert Overlap(g, bar.low, bar.high, b) == 0.0;
    } else if b > end {
      if end + 1 < b { EdgeIncreases(g, end + 1, b); }
      assert Overlap(g, bar.low, bar.high, b) == 0.0;
    } else if start == end {
      assert Overlap(g, bar.low, bar.high, b) == range;
      assert rate * range == bar.volume;
    }
  }

  /** A candle without a price range puts all its volume into the bin that contains its price. */
  lemma PointShare(g: Grid, bar: Candle, b: nat)
    requires ValidGrid(g) && Visible(g, bar) && bar.low == bar.high && b < g.bins
    ensures var inside := Edge(g, b) <= bar.low && (bar.low < Edge(g, b + 1) || b == g.bins - 1);
            Share(g, bar, b) == if inside then bar.volume else 0.0
  {
    hide Edge, BinOf;
    BinContains(g, bar.low);
    var start := BinOf(g, bar.low);
    if b + 1 < start {
      EdgeIncreases(g, b + 1, start);
    } else if start + 1 < b {
      EdgeIncreases(g, start + 1, b);
    }
    EdgeEnds(g);
  }

  function Shares(g: Grid, bar: Candle): (s: seq<real>)
    requires ValidGrid(g)
    ensures |s| == g.bins
  {
    seq(g.bins, b requires b >= 0 => Share(g, bar, b))
  }

  lemma {:induction false} SumScaled(s: seq<real>, t: seq<real>, x: real)
    requires |s| == |t| && forall i :: 0 <= i < |s| ==> s[i] == x * t[i]
    ensures Sum(s) == x * Sum(t)
  {
    if s != [] {
      var n := |s| - 1;
      SumScaled(s[..n], t[..n], x);
      assert x * Sum(t) == x * Sum(t[..n]) + x * t[n];
    }
  }

  lemma {:induction false} SumPoint(s: seq<real>, b: nat, v: real)
    requires forall i :: 0 <= i < |s| ==> s[i] == if i == b then v else 0.0
    ensures Sum(s) == if b < |s| then v else 0.0
  {
    if s != [] {
      SumPoint(s[..|s| - 1], b, v);
    }
  }

  /** One candle's shares add up to its volume. */
  lemma SharesConserve(g: Grid, bar: Candle)
    requires ValidGrid(g) && Visible(g, bar)
    ensures Sum(Shares(g, bar)) == bar.volume
  {
    if bar.low == bar.high {
      SumPoint(Shares(g, bar), BinOf(g, bar.low), bar.volume);
    } else {
      RangeSharesConserve(g, bar);
    }
  }

  lemma RangeSharesConserve(g: Grid, bar: Candle)
    requires ValidGrid(g) && Visible(g, bar) && bar.low < bar.high
    ensures Sum(Shares(g, bar)) == bar.volume
  {
    hide Edge, Share, Overlap;
    var rate, range := bar.volume / (bar.high - bar.low), bar.high - bar.low;
    var s, overlaps := Shares(g, bar), Overlaps(g, bar.low, bar.high, g.bins);
    forall b | 0 <= b < g.bins ensures s[b] == rate * overlaps[b] {
      ShareIsProportional(g, bar, b);
    }
    SumScaled(s, overlaps, rate);
    OverlapsTelescope(g, bar.low, bar.high, g.bins);
    EdgeEnds(g);
    assert Sum(overlaps) == range;
  }

  // ----- The whole profile

  function Plus(s: seq<real>, t: seq<real>): (r: seq<real>)
    requires |s| == |t|
    ensures |r| == |s|
  {
    seq(|s|, i requires 0 <= i < |s| => s[i] + t[i])
  }

  lemma {:induction false} SumPlus(s: seq<real>, t: seq<real>)
    requires |s| == |t|
    ensures Sum(Plus(s, t)) == Sum(s) + Sum(t)
  {
    if s != [] {
      var n := |s| - 1;
      SumPlus(s[..n], t[..n]);
      assert Plus(s, t)[..n] == Plus(s[..n], t[..n]);
    }
  }

  function Profile(g: Grid, c: seq<Candle>): (p: seq<real>)
    requires ValidGrid(g)
    ensures |p| == g.bins
  {
    if c == [] then seq(g.bins, _ => 0.0) else Plus(Profile(g, c[..|c| - 1]), Shares(g, c[|c| - 1]))
  }

  /** Each bin holds the sum of its shares of all candles. */
  lemma {:induction false} ProfileAt(g: Grid, c: seq<Candle>, b: nat)
    requires ValidGrid(g) && b < g.bins
    ensures Profile(g, c)[b] == Sum(seq(|c|, i requires 0 <= i < |c| => Share(g, c[i], b)))
  {
    hide Share;
    if c != [] {
      var n := |c| - 1;
      ProfileAt(g, c[..n], b);
      var s := seq(|c|, i requires 0 <= i < |c| => Share(g, c[i], b));
      assert s[..n] == seq(n, i requires 0 <= i < n => Share(g, c[..n][i], b));
    }
  }

  function Volumes(c: seq<Candle>): seq<real> {
    seq(|c|, i requires 0 <= i < |c| => c[i].volume)
  }

  function TotalVolume(c: seq<Candle>): real {
    Sum(Volumes(c))
  }

  lemma TotalVolumeStep(c: seq<Candle>)
    requires c != []
    ensures TotalVolume(c) == TotalVolume(c[..|c| - 1]) + c[|c| - 1].volume
  {
    assert Volumes(c)[..|c| - 1] == Volumes(c[..|c| - 1]);
  }

  /** Conservation: the profile sums exactly to the traded volume. */
  lemma {:induction false} ProfileConserves(g: Grid, c: seq<Candle>)
    requires ValidGrid(g) && forall i :: 0 <= i < |c| ==> Visible(g, c[i])
    ensures Sum(Profile(g, c)) == TotalVolume(c)
  {
    hide Shares, Plus, TotalVolume;
    if c == [] {
      assert TotalVolume([]) == 0.0 by { NoVolume(); }
      SumScaled(Profile(g, c), Profile(g, c), 0.0);
    } else {
      var n := |c| - 1;
      ProfileConserves(g, c[..n]);
      SharesConserve(g, c[n]);
      SumPlus(Profile(g, c[..n]), Shares(g, c[n]));
      TotalVolumeStep(c);
    }
  }

  lemma NoVolume()
    ensures TotalVolume([]) == 0.0
  {
  }

  lemma ShareNonNegative(g: Grid, bar: Candle, b: nat)
    requires ValidGrid(g) && bar.low <= bar.high && bar.volume >= 0.0
    ensures Share(g, bar, b) >= 0.0
  {
    hide BinOf, Overlap;
    assert Overlap(g, bar.low, bar.high, b) >= 0.0 by { OverlapNonNegative(g, bar.low, bar.high, b); }
    if bar.low < bar.high {
      var rate := bar.volume / (bar.high - bar.low);
      assert rate >= 0.0;
      Product(rate, Overlap(g, bar.low, bar.high, b));
    }
  }

  lemma OverlapNonNegative(g: Grid, l: real, h: real, b: nat)
    requires ValidGrid(g)
    ensures Overlap(g, l, h, b) >= 0.0
  {
    hide Edge;
  }

  lemma Product(x: real, y: real)
    requires x >= 0.0 && y >= 0.0
    ensures x * y >= 0.0
  {
  }

  lemma {:induction false} ProfileNonNegative(g: Grid, c: seq<Candle>)
    requires ValidGrid(g) && forall i :: 0 <= i < |c| ==> c[i].low <= c[i].high && c[i].volume >= 0.0
    ensures NonNegative(Profile(g, c))
  {
    if c != [] {
      var n := |c| - 1;
      ProfileNonNegative(g, c[..n]);
      forall b | 0 <= b < g.bins ensures Share(g, c[n], b) >= 0.0 {
        ShareNonNegative(g, c[n], b);
      }
      hide Share;
    }
  }

  // ----- Value area

  predicate NonNegative(p: seq<real>) {
    forall i :: 0 <= i < |p| ==> p[i] >= 0.0
  }

  /** First index of the largest value, as numpy's argmax. */
  function ArgMax(p: seq<real>): (m: nat)
    requires p != []
    ensures m < |p| && forall i :: 0 <= i < |p| ==> p[i] <= p[m]
    ensures forall i :: 0 <= i < m ==> p[i] < p[m]
  {
    if |p| == 1 then 0
    else
      var m := ArgMax(p[..|p| - 1]);
      if p[|p| - 1] > p[m] then |p| - 1 else m
  }

  /** Covered bins lo .. hi, both included. */
  datatype Area = Area(lo: nat, hi: nat)

  predicate Fits(p: seq<real>, a: Area) {
    a.lo <= a.hi < |p|
  }

  function Covered(p: seq<real>, a: Area): real
    requires Fits(p, a)
  {
    Sum(p[a.lo..a.hi + 1])
  }

  predicate Whole(p: seq<real>, a: Area) {
    a.lo == 0 && a.hi == |p| - 1
  }

  /** One expansion: towards the larger neighbour, both ways on a tie, a missing neighbour counting as -1. */
  function Expand(p: seq<real>, a: Area): (r: Area)
    requires Fits(p, a) && !Whole(p, a)
    requires NonNegative(p)
    ensures Fits(p, r) && r.lo <= a.lo && a.hi <= r.hi
    ensures r.lo + (|p| - 1 - r.hi) < a.lo + (|p| - 1 - a.hi)
  {
    var below := if a.lo > 0 then p[a.lo - 1] else -1.0;
    var above := if a.hi < |p| - 1 then p[a.hi + 1] else -1.0;
    if below > above then Area(a.lo - 1, a.hi)
    else if above > below then Area(a.lo, a.hi + 1)
    else Area(a.lo - 1, a.hi + 1)
  }

  function Grow(p: seq<real>, a: Area, target: real): (r: Area)
    requires Fits(p, a) && NonNegative(p)
    ensures Fits(p, r) && r.lo <= a.lo && a.hi <= r.hi
    decreases a.lo + (|p| - 1 - a.hi)
  {
    if Covered(p, a) < target && !Whole(p, a) then Grow(p, Expand(p, a), target) else a
  }

  /** a expanded n times. */
  function Expanded(p: seq<real>, a: Area, n: nat): (r: Area)
    requires Fits(p, a) && NonNegative(p)
    ensures Fits(p, r)
  {
    if n == 0 then a
    else
      var r := Expanded(p, a, n - 1);
      if Whole(p, r) then r else Expand(p, r)
  }

  /** r comes from a by the fewest expansions that cover the target. */
  ghost predicate FewestExpansions(p: seq<real>, a: Area, r: Area, target: real)
    requires Fits(p, a) && NonNegative(p)
  {
    exists n: nat :: Expanded(p, a, n) == r && Covered(p, Expanded(p, a, n)) >= target
                     && forall m: nat :: m < n ==> Covered(p, Expanded(p, a, m)) < target
  }

  lemma {:induction false} ExpandedFirst(p: seq<real>, a: Area, n: nat)
    requires Fits(p, a) && NonNegative(p) && !Whole(p, a)
    ensures Expanded(p, a, n + 1) == Expanded(p, Expand(p, a), n)
  {
    hide Expand, Whole;
    if n > 0 {
      ExpandedFirst(p, a, n - 1);
    }
  }

  /** Growth stops as soon as the target is covered. */
  lemma {:induction false} GrowReaches(p: seq<real>, a: Area, target: real) returns (n: nat)
    requires Fits(p, a) && NonNegative(p)
    requires target <= Sum(p)
    ensures Grow(p, a, target) == Expanded(p, a, n)
    ensures Covered(p, Expanded(p, a, n)) >= target
    ensures forall m: nat :: m < n ==> Covered(p, Expanded(p, a, m)) < target
    decreases a.lo + (|p| - 1 - a.hi)
  {
    hide Expand, Covered;
    if Whole(p, a) {
      n := 0;
      WholeCovers(p, a);
      GrowDone(p, a, target);
    } else if Covered(p, a) < target {
      n := GrowReaches(p, Expand(p, a), target);
      GrowNext(p, a, target);
      ExpandedFirst(p, a, n);
      forall m: nat | m < n + 1 ensures Covered(p, Expanded(p, a, m)) < target {
        if m > 0 {
          ExpandedFirst(p, a, m - 1);
        }
      }
      n := n + 1;
    } else {
      n := 0;
      GrowDone(p, a, target);
    }
  }

  lemma WholeCovers(p: seq<real>, a: Area)
    requires Fits(p, a) && Whole(p, a)
    ensures Covered(p, a) == Sum(p)
  {
    assert p[a.lo..a.hi + 1] == p;
  }

  /** An expansion takes the larger neighbour, both when they are equal, and the only one at the end of the profile. */
  lemma ExpandTakesLarger(p: seq<real>, a: Area)
    requires Fits(p, a) && !Whole(p, a) && NonNegative(p)
    ensures var r := Expand(p, a);
            && r.lo == (if a.lo > 0 && (a.hi == |p| - 1 || p[a.lo - 1] >= p[a.hi + 1]) then a.lo - 1 else a.lo)
            && r.hi == (if a.hi < |p| - 1 && (a.lo == 0 || p[a.hi + 1] >= p[a.lo - 1]) then a.hi + 1 else a.hi)
  {
  }

  lemma CoveredExpand(p: seq<real>, a: Area, r: Area)
    requires Fits(p, a) && Fits(p, r) && r.lo <= a.lo <= r.lo + 1 && a.hi <= r.hi <= a.hi + 1
    ensures Covered(p, r) == Covered(p, a) + (if r.lo < a.lo then p[r.lo] else 0.0) + (if a.hi < r.hi then p[r.hi] else 0.0)
  {
    hide Sum;
    SumSplit(p, r.lo, a.lo, r.hi + 1);
    SumSplit(p, a.lo, a.hi + 1, r.hi + 1);
    SumOne(p[r.lo..a.lo]);
    SumOne(p[a.hi + 1..r.hi + 1]);
  }

  lemma SumSplit(p: seq<real>, x: nat, m: nat, y: nat)
    requires x <= m <= y <= |p|
    ensures Sum(p[x..y]) == Sum(p[x..m]) + Sum(p[m..y])
  {
    hide Sum;
    SumAppend(p[x..m], p[m..y]);
    assert p[x..y] == p[x..m] + p[m..y];
  }

  lemma CoveredOne(p: seq<real>, b: nat)
    requires b < |p|
    ensures Covered(p, Area(b, b)) == p[b]
  {
    SumOne(p[b..b + 1]);
  }

  lemma SumOne(s: seq<real>)
    requires |s| <= 1
    ensures Sum(s) == if s == [] then 0.0 else s[0]
  {
    if s != [] {
      assert s[..0] == [];
    }
  }

  // ----- The source's function

  function MinLow(c: seq<Candle>): (m: real)
    requires c != []
    ensures forall i :: 0 <= i < |c| ==> m <= c[i].low
    ensures exists i :: 0 <= i < |c| && m == c[i].low
  {
    if |c| == 1 then c[0].low
    else
      var m := MinLow(c[..|c| - 1]);
      var last := c[|c| - 1];
      if last.low < m then last.low else m
  }

  function MaxHigh(c: seq<Candle>): (m: real)
    requires c != []
    ensures forall i :: 0 <= i < |c| ==> c[i].high <= m
    ensures exists i :: 0 <= i < |c| && m == c[i].high
  {
    if |c| == 1 then c[0].high
    else
      var m := MaxHigh(c[..|c| - 1]);
      var last := c[|c| - 1];
      if last.high > m then last.high else m
  }

  /** Adds one candle to the profile in place. */
  method AddCandle(profile: array<real>, g: Grid, bar: Candle)
    requires ValidGrid(g) && profile.Length == g.bins && Visible(g, bar)
    modifies profile
    ensures profile[..] == Plus(old(profile[..]), Shares(g, bar))
  {
    hide Edge, BinOf, Overlap;
    ghost var was := profile[..];
    var start, end := BinOf(g, bar.low), BinOf(g, bar.high);
    if bar.high == bar.low || start == end {
      profile[start] := profile[start] + bar.volume;
    } else {
      BinMonotone(g, bar.low, bar.high);
      AddRange(profile, g, bar, start, end);
    }
    assert forall i :: 0 <= i < g.bins ==> profile[i] == was[i] + Share(g, bar, i);
    hide Share;
    assert profile[..] == Plus(was, Shares(g, bar));
  }

  lemma OverlapIs(g: Grid, l: real, h: real, b: nat)
    requires ValidGrid(g)
    ensures var low, high := Max(l, Edge(g, b)), Min(h, Edge(g, b + 1));
            Overlap(g, l, h, b) == if high > low then high - low else 0.0
  {
    hide Edge;
  }

  /** The loop over the bins a candle spans. */
  method AddRange(profile: array<real>, g: Grid, bar: Candle, start: nat, end: nat)
    requires ValidGrid(g) && profile.Length == g.bins && bar.high != bar.low && start <= end < g.bins
    modifies profile
    ensures forall i :: 0 <= i < g.bins ==>
              profile[i] == old(profile[i]) +
                            (if start <= i <= end
                             then bar.volume / (bar.high - bar.low) * Overlap(g, bar.low, bar.high, i) else 0.0)
  {
    hide Overlap, Edge;
    var rate := bar.volume / (bar.high - bar.low);
    for b := start to end + 1
      invariant forall i :: 0 <= i < g.bins ==>
        profile[i] == old(profile[i]) + if start <= i < b then rate * Overlap(g, bar.low, bar.high, i) else 0.0
    {
      var low, high := Max(bar.low, Edge(g, b)), Min(bar.high, Edge(g, b + 1));
      OverlapIs(g, bar.low, bar.high, b);
      if high > low {
        profile[b] := profile[b] + rate * (high - low);
      }
    }
  }

  /** The three levels of the profile: point of control, value area high, value area low. */
  datatype Levels = Levels(poc: real, vah: real, val: real)

  /** 70% of the profile's volume. */
  function Target(p: seq<real>): real {
    Sum(p) * 0.7
  }

  lemma TargetWithinTotal(p: seq<real>)
    requires NonNegative(p)
    ensures Target(p) <= Sum(p)
  {
    SumNonNegative(p);
  }

  function ValueArea(p: seq<real>): (a: Area)
    requires p != [] && NonNegative(p)
    ensures Fits(p, a) && a.lo <= ArgMax(p) <= a.hi
  {
    Grow(p, Area(ArgMax(p), ArgMax(p)), Target(p))
  }

  method CalculateVpvr(c: seq<Candle>, bins: nat) returns (r: Option<Levels>)
    requires bins >= 1 && forall i :: 0 <= i < |c| ==> c[i].low <= c[i].high && c[i].volume >= 0.0
    ensures |c| < 2 ==> r == None
    ensures |c| >= 2 && MinLow(c) == MaxHigh(c) ==> r == Some(Levels(MinLow(c), MinLow(c), MinLow(c)))
    ensures |c| >= 2 && MinLow(c) != MaxHigh(c) ==>
              var g := Grid(MinLow(c), MaxHigh(c), bins);
              && ValidGrid(g)
              && var p := Profile(g, c);
                 && NonNegative(p)
                 && r == Some(Levels(Center(g, ArgMax(p)), Center(g, ValueArea(p).hi), Center(g, ValueArea(p).lo)))
    ensures r.Some? ==> r.value.val <= r.value.poc <= r.value.vah
  {
    if |c| < 2 {
      return None;
    }
    var low, high := MinLow(c), MaxHigh(c);
    if low == high {
      return Some(Levels(low, low, low));
    }
    var g := Grid(low, high, bins);
    assert c[0].low <= c[0].high;
    hide Shares, Plus, Center, MinLow, MaxHigh;
    var profile := new real[bins](_ => 0.0);
    for i := 0 to |c|
      invariant profile[..] == Profile(g, c[..i])
    {
      AddCandle(profile, g, c[i]);
      assert c[..i + 1][..i] == c[..i];
    }
    assert c[..|c|] == c;
    ProfileNonNegative(g, c);
    ghost var p := Profile(g, c);
    var a := GrowLoop(profile[..]);
    CenterIncreases(g, a.lo, ArgMax(profile[..]));
    CenterIncreases(g, ArgMax(profile[..]), a.hi);
    r := Some(Levels(Center(g, ArgMax(profile[..])), Center(g, a.hi), Center(g, a.lo)));
  }

  lemma GrowNext(p: seq<real>, a: Area, target: real)
    requires Fits(p, a) && NonNegative(p)
    requires Covered(p, a) < target && !Whole(p, a)
    ensures Grow(p, a, target) == Grow(p, Expand(p, a), target)
  {
    hide Covered, Expand, NonNegative;
  }

  lemma GrowDone(p: seq<real>, a: Area, target: real)
    requires Fits(p, a) && NonNegative(p)
    requires Covered(p, a) >= target || Whole(p, a)
    ensures Grow(p, a, target) == a
  {
    hide Covered;
  }

  /** The value-area loop, with its running volume. */
  method GrowLoop(p: seq<real>) returns (a: Area)
    requires p != [] && NonNegative(p)
    ensures a == ValueArea(p)
  {
    hide ArgMax, Grow, Covered, Target;
    var poc := ArgMax(p);
    var target := Target(p);
    var vol := p[poc];
    var lower, upper: nat := poc, poc;
    CoveredOne(p, poc);
    while vol < target && (lower > 0 || upper < |p| - 1)
      invariant lower <= poc <= upper < |p|
      invariant vol == Covered(p, Area(lower, upper))
      invariant Grow(p, Area(lower, upper), target) == ValueArea(p)
      decreases lower + (|p| - 1 - upper)
    {
      ghost var before := Area(lower, upper);
      var below := if lower > 0 then p[lower - 1] else -1.0;
      var above := if upper < |p| - 1 then p[upper + 1] else -1.0;
      CoveredExpand(p, before, Expand(p, before));
      GrowNext(p, before, target);
      if below > above {
        lower := lower - 1;
        vol := vol + p[lower];
      } else if above > below {
        upper := upper + 1;
        vol := vol + p[upper];
      } else {
        // A tie between bins of non-negative volume leaves a neighbour on both sides.
        lower := lower - 1;
        upper := upper + 1;
        vol := vol + (p[lower] + p[upper]);
      }
      assert Area(lower, upper) == Expand(p, before);
    }
    a := Area(lower, upper);
    GrowDone(p, a, target);
  }

  /** The profile behind the levels conserves volume; the value area holds at least 70% of it, contains the point
      of control and is grown by the fewest expansions that hold it; and the three levels are in order. */
  lemma ValueAreaSpec(c: seq<Candle>, bins: nat)
    requires bins >= 1 && |c| >= 2 && MinLow(c) < MaxHigh(c)
    requires forall i :: 0 <= i < |c| ==> c[i].low <= c[i].high && c[i].volume >= 0.0
    ensures var g := Grid(MinLow(c), MaxHigh(c), bins);
            var p := Profile(g, c);
            && NonNegative(p)
            && Target(p) == TotalVolume(c) * 0.7
            && Covered(p, ValueArea(p)) >= Target(p)
            && FewestExpansions(p, Area(ArgMax(p), ArgMax(p)), ValueArea(p), Target(p))
            && Center(g, ValueArea(p).lo) <= Center(g, ArgMax(p)) <= Center(g, ValueArea(p).hi)
  {
    var g := Grid(MinLow(c), MaxHigh(c), bins);
    var p := Profile(g, c);
    ProfileConserves(g, c);
    ProfileNonNegative(g, c);
    assert Target(p) == TotalVolume(c) * 0.7;
    hide Profile, MinLow, MaxHigh, Center, TotalVolume, ValueArea, ArgMax, Covered, FewestExpansions, NonNegative, Target;
    ValueAreaCovers(p);
    CenterIncreases(g, ValueArea(p).lo, ArgMax(p));
    CenterIncreases(g, ArgMax(p), ValueArea(p).hi);
  }

  lemma ValueAreaCovers(p: seq<real>)
    requires p != [] && NonNegative(p)
    ensures Covered(p, ValueArea(p)) >= Target(p)
    ensures FewestExpansions(p, Area(ArgMax(p), ArgMax(p)), ValueArea(p), Target(p))
  {
    hide ArgMax, Covered, Expanded, Grow, Target, NonNegative;
    TargetWithinTotal(p);
    var n := GrowReaches(p, Area(ArgMax(p), ArgMax(p)), Target(p));
  }

  lemma SumNonNegative(p: seq<real>)
    requires NonNegative(p)
    ensures Sum(p) >= 0.0
  {
    var hi := Largest(p);
    SumBounds(p, 0.0, hi);
  }

  lemma {:induction false} Largest(p: seq<real>) returns (hi: real)
    ensures forall i :: 0 <= i < |p| ==> p[i] <= hi
  {
    hi := 0.0;
    if p != [] {
      hi := p[ArgMax(p)];
    }
  }
}
