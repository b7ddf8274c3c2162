/** The rolling candle buffer and the consumer in front of it: what the buffer holds, and when signal evaluation runs. */
module CandleFeed {
  import opened Prelude
  import opened AverageTrueRange

  const MIN_CANDLES: nat := 50

  // ----- Buffer contents

  function Last<T>(s: seq<T>): T
    requires s != []
  {
    s[|s| - 1]
  }

  /** One append to a deque of capacity `max`: a candle with the last timestamp replaces the last candle. */
  function Push(buf: seq<Candle>, candle: Candle, max: nat): seq<Candle> {
    if buf != [] && Last(buf).ts == candle.ts then buf[..|buf| - 1] + [candle]
    else Tail(buf + [candle], max)
  }

  /** Unbounded last-write-wins log of the same appends. */
  function Log(candles: seq<Candle>): (log: seq<Candle>)
    ensures log == [] <==> candles == []
    ensures candles != [] ==> Last(log).ts == Last(candles).ts
  {
    if candles == [] then []
    else
      var log, candle := Log(candles[..|candles| - 1]), Last(candles);
      if log != [] && Last(log).ts == candle.ts then log[..|log| - 1] + [candle] else log + [candle]
  }

  function Buffered(candles: seq<Candle>, max: nat): seq<Candle> {
    if candles == [] then [] else Push(Buffered(candles[..|candles| - 1], max), Last(candles), max)
  }

  /** The bounded buffer is always the tail of the unbounded log. */
  lemma {:induction false} BufferIsLogTail(candles: seq<Candle>, max: nat)
    ensures Buffered(candles, max) == Tail(Log(candles), max)
  {
    if candles != [] {
      var n := |candles| - 1;
      BufferIsLogTail(candles[..n], max);
      PushTail(Log(candles[..n]), Last(candles), max);
    }
  }

  lemma PushTail(log: seq<Candle>, candle: Candle, max: nat)
    ensures Push(Tail(log, max), candle, max) ==
            Tail(if log != [] && Last(log).ts == candle.ts then log[..|log| - 1] + [candle] else log + [candle], max)
  {
    var buf := Tail(log, max);
    if buf != [] {
      assert Last(buf) == Last(log);
    }
    if log != [] && Last(log).ts == candle.ts {
      if max == 0 {
        assert buf == [];
      } else {
        assert Push(buf, candle, max) == buf[..|buf| - 1] + [candle];
        assert Tail(log[..|log| - 1] + [candle], max) == buf[..|buf| - 1] + [candle];
      }
    } else {
      assert Tail(buf + [candle], max) == Tail(log + [candle], max);
    }
  }

  ghost predicate StrictlyIncreasing(s: seq<Candle>) {
    forall i, j :: 0 <= i < j < |s| ==> s[i].ts < s[j].ts
  }

  ghost predicate NonDecreasing(s: seq<Candle>) {
    forall i, j :: 0 <= i < j < |s| ==> s[i].ts <= s[j].ts
  }

  /** The log is strictly increasing in time exactly when the appended timestamps never go back. */
  lemma {:induction false} LogIncreasingIff(candles: seq<Candle>)
    ensures StrictlyIncreasing(Log(candles)) <==> NonDecreasing(candles)
  {
    if candles != [] {
      var n := |candles| - 1;
      var before, candle := candles[..n], candles[n];
      assert candles == before + [candle];
      LogIncreasingIff(before);
      var log := Log(before);
      if n == 0 {
        assert log == [];
      } else if Last(log).ts == candle.ts {
        ReplaceLast(log, candle);
        AppendOrdered(before, candle);
      } else {
        AppendIncreasing(log, candle);
        AppendOrdered(before, candle);
      }
    }
  }

  lemma ReplaceLast(log: seq<Candle>, candle: Candle)
    requires log != [] && Last(log).ts == candle.ts
    ensures StrictlyIncreasing(log[..|log| - 1] + [candle]) <==> StrictlyIncreasing(log)
  {
    var r := log[..|log| - 1] + [candle];
    assert forall i :: 0 <= i < |log| ==> r[i].ts == log[i].ts;
  }

  lemma AppendIncreasing(log: seq<Candle>, candle: Candle)
    requires log != []
    ensures StrictlyIncreasing(log + [candle]) <==> StrictlyIncreasing(log) && Last(log).ts < candle.ts
  {
    var r := log + [candle];
    assert forall i :: 0 <= i < |log| ==> r[i] == log[i];
    if StrictlyIncreasing(r) {
      assert r[|log| - 1].ts < r[|log|].ts;
    }
  }

  lemma AppendOrdered(before: seq<Candle>, candle: Candle)
    requires before != []
    ensures NonDecreasing(before + [candle]) <==> NonDecreasing(before) && Last(before).ts <= candle.ts
  {
    var r := before + [candle];
    assert forall i :: 0 <= i < |before| ==> r[i] == before[i];
    if NonDecreasing(r) {
      assert r[|before| - 1].ts <= r[|before|].ts;
    }
  }

  /** Appended candle i was not replaced: none follows it, or the next has another timestamp. */
  predicate Stands(candles: seq<Candle>, i: nat)
    requires i < |candles|
  {
    i + 1 == |candles| || candles[i + 1].ts != candles[i].ts
  }

  function Standing(candles: seq<Candle>, n: nat): seq<Candle>
    requires n <= |candles|
  {
    if n == 0 then [] else Standing(candles, n - 1) + if Stands(candles, n - 1) then [candles[n - 1]] else []
  }

  lemma {:induction false} StandingPrefix(candles: seq<Candle>, longer: seq<Candle>, n: nat)
    requires n < |candles| && candles <= longer
    ensures Standing(longer, n) == Standing(candles, n)
  {
    if n > 0 {
      StandingPrefix(candles, longer, n - 1);
    }
  }

  /** The log holds, in order, exactly the appended candles that were not replaced. */
  lemma {:induction false} LogStands(candles: seq<Candle>)
    ensures Log(candles) == Standing(candles, |candles|)
  {
    if candles != [] {
      var n := |candles| - 1;
      var before := candles[..n];
      LogStands(before);
      if n > 0 {
        StandingPrefix(before, candles, n - 1);
        assert Stands(before, n - 1);
        assert Standing(before, n) == Standing(before, n - 1) + [candles[n - 1]];
        assert Stands(candles, n - 1) <==> candles[n - 1].ts != candles[n].ts;
      }
    }
  }

  /** A feed whose timestamps do not go back keeps its buffer strictly increasing in time. */
  lemma BufferIncreasing(candles: seq<Candle>, max: nat)
    requires NonDecreasing(candles)
    ensures StrictlyIncreasing(Buffered(candles, max))
  {
    LogIncreasingIff(candles);
    BufferIsLogTail(candles, max);
  }

  lemma LastAppended(candles: seq<Candle>)
    requires candles != []
    ensures var log := Log(candles);
            && Last(log) == Last(candles)
            && (|candles| >= 2 && candles[|candles| - 2].ts != Last(candles).ts ==>
                  |log| >= 2 && log[|log| - 2].ts == candles[|candles| - 2].ts)
  {
    var before := candles[..|candles| - 1];
    if |candles| >= 2 {
      assert Last(before) == candles[|candles| - 2];
    }
  }

  /** A buffer with room for two shows a step back in time as soon as it is appended. */
  lemma BufferShowsStepBack(candles: seq<Candle>, max: nat)
    requires max >= 2 && |candles| >= 2 && candles[|candles| - 2].ts > Last(candles).ts
    ensures !StrictlyIncreasing(Buffered(candles, max))
  {
    LastAppended(candles);
    BufferIsLogTail(candles, max);
    hide Log, Buffered;
    var log, buf := Log(candles), Buffered(candles, max);
    assert buf[|buf| - 2] == log[|log| - 2] && buf[|buf| - 1] == Last(log);
  }

  /** A buffer with room for two is strictly increasing in time at every moment exactly when the appended timestamps
      never go back. */
  lemma {:induction false} BufferIncreasingIff(candles: seq<Candle>, max: nat)
    requires max >= 2
    ensures (forall n :: 0 <= n <= |candles| ==> StrictlyIncreasing(Buffered(candles[..n], max))) <==> NonDecreasing(candles)
  {
    hide Buffered, StrictlyIncreasing;
    assert candles[..|candles|] == candles;
    if NonDecreasing(candles) {
      forall n | 0 <= n <= |candles| ensures StrictlyIncreasing(Buffered(candles[..n], max)) {
        BufferIncreasing(candles[..n], max);
      }
    } else {
      var n := |candles| - 1;
      var before := candles[..n];
      if NonDecreasing(before) {
        assert candles == before + [candles[n]];
        AppendOrdered(before, candles[n]);
        BufferShowsStepBack(candles, max);
        assert !StrictlyIncreasing(Buffered(candles[..|candles|], max));
      } else {
        BufferIncreasingIff(before, max);
        var m :| 0 <= m <= n && !StrictlyIncreasing(Buffered(before[..m], max));
        assert before[..m] == candles[..m];
      }
    }
  }

  class CandleBuffer {
    const maxSize: nat
    var buffers: map<string, seq<Candle>>

    function Get(symbol: string): seq<Candle>
      reads this
    {
      if symbol in buffers then buffers[symbol] else []
    }

    constructor (max: nat)
      ensures maxSize == max && buffers == map[]
    {
      maxSize, buffers := max, map[];
    }

    method Append(symbol: string, candle: Candle)
      modifies this
      ensures Get(symbol) == Push(old(Get(symbol)), candle, maxSize)
      ensures forall s :: s != symbol ==> Get(s) == old(Get(s))
    {
      var buf := Get(symbol);
      if buf != [] && Last(buf).ts == candle.ts {
        buffers := buffers[symbol := buf[..|buf| - 1] + [candle]];
        return;
      }
      buf := buf + [candle];
      buffers := buffers[symbol := if |buf| > maxSize then buf[|buf| - maxSize..] else buf];
    }

    method HasEnough(symbol: string, min: nat) returns (enough: bool)
      ensures enough <==> |Get(symbol)| >= min
    {
      enough := |Get(symbol)| >= min;
    }

    /** Clears every symbol in turn, as a reconnect does. */
    method ClearAll()
      modifies this
      ensures forall s :: Get(s) == []
    {
      var todo := buffers.Keys;
      while todo != {}
        invariant todo <= buffers.Keys
        invariant forall s :: s !in todo ==> Get(s) == []
        decreases |todo|
      {
        var s :| s in todo;
        buffers := buffers[s := []];
        todo := todo - {s};
      }
    }
  }

  // ----- The consumer

  datatype Feed = Feed(exchange: string, symbol: string, timeframe: string)

  datatype Message = Message(feed: Feed, candle: Candle)

  /** Candles the messages append for a symbol: the buffer does not tell exchanges and timeframes apart. */
  function CandlesFor(ms: seq<Message>, symbol: string): seq<Candle> {
    if ms == [] then []
    else CandlesFor(ms[..|ms| - 1], symbol) + if Last(ms).feed.symbol == symbol then [Last(ms).candle] else []
  }

  /** Last evaluated-or-skipped-for-size timestamp of a feed; zero before any. */
  function Newest(ms: seq<Message>, feed: Feed): int {
    if ms == [] then 0
    else
      var t := Newest(ms[..|ms| - 1], feed);
      if Last(ms).feed == feed && Last(ms).candle.ts > t then Last(ms).candle.ts else t
  }

  /** The last message triggers an evaluation. */
  predicate Triggers(ms: seq<Message>, max: nat)
    requires ms != []
  {
    && Last(ms).candle.ts > Newest(ms[..|ms| - 1], Last(ms).feed)
    && |Buffered(CandlesFor(ms, Last(ms).feed.symbol), max)| >= MIN_CANDLES
  }

  /** Timestamps at which a feed was evaluated. */
  function Evaluations(ms: seq<Message>, feed: Feed, max: nat): seq<int> {
    if ms == [] then []
    else Evaluations(ms[..|ms| - 1], feed, max) +
         if Last(ms).feed == feed && Triggers(ms, max) then [Last(ms).candle.ts] else []
  }

  class MarketConsumer {
    const buffer: CandleBuffer
    var lastTs: map<Feed, int>
    /** Messages processed since the last reconnect. */
    ghost var history: seq<Message>

    ghost predicate Valid()
      reads this, buffer
    {
      && (forall s :: buffer.Get(s) == Buffered(CandlesFor(history, s), buffer.maxSize))
      && (forall f :: (if f in lastTs then lastTs[f] else 0) == Newest(history, f))
    }

    constructor (max: nat)
      ensures Valid() && history == [] && buffer.maxSize == max && fresh(buffer)
    {
      buffer := new CandleBuffer(max);
      lastTs, history := map[], [];
    }

    /** Buffers the candle; returns the candles to evaluate when it is the feed's newest and enough are buffered. */
    method ProcessMessage(m: Message) returns (evaluate: Option<seq<Candle>>)
      requires Valid()
      modifies this, buffer
      ensures Valid() && history == old(history) + [m]
      ensures evaluate == if Triggers(history, buffer.maxSize)
                          then Some(Buffered(CandlesFor(history, m.feed.symbol), buffer.maxSize)) else None
    {
      hide Push, Triggers;
      ghost var before := history;
      history := history + [m];
      assert history[..|before|] == before;
      var last := if m.feed in lastTs then lastTs[m.feed] else 0;
      buffer.Append(m.feed.symbol, m.candle);
      forall s ensures buffer.Get(s) == Buffered(CandlesFor(history, s), buffer.maxSize) {
        AppendOne(before, m, s, buffer.maxSize);
      }
      TriggersIs(before, m, buffer.maxSize);
      if m.candle.ts <= last {
        return None;
      }
      lastTs := lastTs[m.feed := m.candle.ts];
      var enough := buffer.HasEnough(m.feed.symbol, MIN_CANDLES);
      if !enough {
        return None;
      }
      evaluate := Some(buffer.Get(m.feed.symbol));
    }

    /** A reconnect forgets buffered candles and timestamps. */
    method Reconnect()
      requires Valid()
      modifies this, buffer
      ensures Valid() && history == []
    {
      buffer.ClearAll();
      lastTs, history := map[], [];
    }
  }

  lemma AppendOne(ms: seq<Message>, m: Message, symbol: string, max: nat)
    ensures var before, now := CandlesFor(ms, symbol), CandlesFor(ms + [m], symbol);
            Buffered(now, max) == if m.feed.symbol == symbol then Push(Buffered(before, max), m.candle, max)
                                  else Buffered(before, max)
  {
    hide Push;
    assert (ms + [m])[..|ms|] == ms;
    var before := CandlesFor(ms, symbol);
    assert (before + [m.candle])[..|before|] == before && before + [] == before;
  }

  lemma TriggersIs(ms: seq<Message>, m: Message, max: nat)
    ensures Triggers(ms + [m], max) <==>
            m.candle.ts > Newest(ms, m.feed) && |Buffered(CandlesFor(ms + [m], m.feed.symbol), max)| >= MIN_CANDLES
  {
    assert (ms + [m])[..|ms|] == ms;
  }

  // ----- When evaluation runs

  ghost predicate Increasing(s: seq<int>) {
    forall i, j :: 0 <= i < j < |s| ==> s[i] < s[j]
  }

  /** Between reconnects a feed is evaluated at strictly increasing timestamps: at most once per candle. */
  lemma {:induction false} EvaluationsIncrease(ms: seq<Message>, feed: Feed, max: nat)
    ensures Increasing(Evaluations(ms, feed, max))
    ensures forall t :: t in Evaluations(ms, feed, max) ==> 0 < t <= Newest(ms, feed)
    ensures Newest(ms, feed) >= 0
  {
    if ms != [] {
      var n := |ms| - 1;
      EvaluationsIncrease(ms[..n], feed, max);
      var before := Evaluations(ms[..n], feed, max);
      assert forall i :: 0 <= i < |before| ==> before[i] in before;
      hide Buffered, CandlesFor;
    }
  }

  /** The remembered timestamp is the largest the feed has sent, or zero: so an evaluation is triggered exactly by
      candles newer than everything the feed sent before, once enough candles are buffered. */
  lemma {:induction false} NewestIsMaximum(ms: seq<Message>, feed: Feed)
    ensures Newest(ms, feed) >= 0
    ensures forall m :: m in ms && m.feed == feed ==> m.candle.ts <= Newest(ms, feed)
    ensures Newest(ms, feed) == 0 || exists m :: m in ms && m.feed == feed && m.candle.ts == Newest(ms, feed)
  {
    if ms != [] {
      var n := |ms| - 1;
      NewestIsMaximum(ms[..n], feed);
      assert ms == ms[..n] + [ms[n]];
      assert ms[n] in ms;
    }
  }

  /** The last message triggers an evaluation exactly when its timestamp is positive and newer than all its feed sent, and
      50 candles of the symbol's log fit into the buffer. */
  lemma TriggersIff(ms: seq<Message>, max: nat)
    requires ms != []
    ensures Triggers(ms, max) <==>
            && Last(ms).candle.ts > 0
            && (forall i :: 0 <= i < |ms| - 1 && ms[i].feed == Last(ms).feed ==> ms[i].candle.ts < Last(ms).candle.ts)
            && max >= 50 && |Log(CandlesFor(ms, Last(ms).feed.symbol))| >= 50
  {
    var before, feed := ms[..|ms| - 1], Last(ms).feed;
    NewestIsMaximum(before, feed);
    BufferIsLogTail(CandlesFor(ms, feed.symbol), max);
    hide Newest, Log, Buffered, CandlesFor;
    assert forall i :: 0 <= i < |before| ==> before[i] == ms[i] && before[i] in before;
  }

  /** Messages for a symbol arrive in time order, as from a single well-behaved feed. */
  ghost predicate InOrder(ms: seq<Message>, symbol: string) {
    forall i, j :: 0 <= i < j < |ms| && ms[i].feed.symbol == symbol && ms[j].feed.symbol == symbol ==>
      ms[i].candle.ts <= ms[j].candle.ts
  }

  lemma {:induction false} CandlesInOrder(ms: seq<Message>, symbol: string)
    requires InOrder(ms, symbol)
    ensures NonDecreasing(CandlesFor(ms, symbol))
    ensures forall k :: k in CandlesFor(ms, symbol) ==>
              exists i :: 0 <= i < |ms| && ms[i].feed.symbol == symbol && ms[i].candle == k
  {
    if ms != [] {
      var n := |ms| - 1;
      CandlesInOrder(ms[..n], symbol);
      var before := CandlesFor(ms[..n], symbol);
      forall k | k in before ensures exists i :: 0 <= i < n && ms[i].feed.symbol == symbol && ms[i].candle == k {
        var i :| 0 <= i < n && ms[..n][i].feed.symbol == symbol && ms[..n][i].candle == k;
        assert ms[i].candle == k;
      }
      assert forall i :: 0 <= i < |before| ==> before[i] in before;
    }
  }

  /** The consumer's buffer for such a symbol is strictly increasing in time. */
  lemma OrderedFeedKeepsOrder(ms: seq<Message>, symbol: string, max: nat)
    requires InOrder(ms, symbol)
    ensures StrictlyIncreasing(Buffered(CandlesFor(ms, symbol), max))
  {
    CandlesInOrder(ms, symbol);
    BufferIncreasing(CandlesFor(ms, symbol), max);
  }

  function Bar(ts: int): Candle {
    Candle(ts, 0.0, 0.0, 0.0, 0.0, 0.0)
  }

  /** With a second exchange feeding the same symbol the buffer can go back in time, although each feed on its own
      moves forward. */
  lemma TwoFeedsGoBack()
    ensures var a, b := Feed("bybit", "BTC/USDT", "1h"), Feed("okx", "BTC/USDT", "1h");
            var ms := [Message(a, Bar(2)), Message(b, Bar(1))];
            !StrictlyIncreasing(Buffered(CandlesFor(ms, "BTC/USDT"), 200))
  {
    hide Buffered, StrictlyIncreasing;
    var a, b := Feed("bybit", "BTC/USDT", "1h"), Feed("okx", "BTC/USDT", "1h");
    var ms := [Message(a, Bar(2)), Message(b, Bar(1))];
    assert ms[..1] == [Message(a, Bar(2))] && ms[..1][..0] == [];
    assert CandlesFor(ms[..1], "BTC/USDT") == [Bar(2)];
    assert CandlesFor(ms, "BTC/USDT") == [Bar(2), Bar(1)];
    BufferShowsStepBack([Bar(2), Bar(1)], 200);
  }
}
