/** The position judge's hold counters: no position at a loss is held four times in a row. */
module PositionJudge {
  import opened Prelude

  datatype Verdict = Verdict(action: string, confidence: int)

  datatype Position = Position(symbol: string, side: string)

  predicate IsHold(v: Verdict) {
    v.action == "HOLD"
  }

  /** Consecutive holds allowed on a loser. */
  function MaxHolds(checkpoint: bool): nat {
    if checkpoint then 2 else 3
  }

  /** One judgement: the verdict and the new counter, for arbitrary replies of the two AI tiers, `None` when a tier
      is unavailable. */
  function Rule(count: nat, loss: bool, checkpoint: bool, cheap: Option<Verdict>, escalated: Option<Verdict>): (Verdict, nat) {
    if count >= MaxHolds(checkpoint) && loss then (Verdict("EXIT", 90), 0)
    else if cheap.Some? && !IsHold(cheap.value) then (cheap.value, 0)
    else if cheap.Some? && cheap.value.confidence >= 70 then (cheap.value, if loss then count + 1 else count)
    else if escalated.Some? then (escalated.value, if IsHold(escalated.value) && loss then count + 1 else 0)
    else (Verdict("HOLD", 30), if loss then count + 1 else count)
  }

  /** Which tier speaks, and what becomes of the count. The exit is forced exactly at a loss after three holds, two in a
      checkpoint review. A verdict other than HOLD always restarts the count, a HOLD at a loss always adds one, up to that
      allowance, and a HOLD at a profit never adds: only the escalated tier's restarts it. */
  lemma RuleShape(count: nat, loss: bool, checkpoint: bool, cheap: Option<Verdict>, escalated: Option<Verdict>)
    ensures var (verdict, next) := Rule(count, loss, checkpoint, cheap, escalated);
            var allowed := if checkpoint then 2 else 3;
            var forced := loss && count >= allowed;
            var first := cheap.Some? && (cheap.value.action != "HOLD" || cheap.value.confidence >= 70);
            && (forced ==> verdict == Verdict("EXIT", 90))
            && (!forced && first ==> Some(verdict) == cheap)
            && (!forced && !first && escalated.Some? ==> Some(verdict) == escalated)
            && (!forced && !first && escalated.None? ==> verdict == Verdict("HOLD", 30))
            && (verdict.action != "HOLD" ==> next == 0)
            && (verdict.action == "HOLD" && loss ==> next == count + 1 <= allowed)
            && (verdict.action == "HOLD" && !loss ==> next == if !first && escalated.Some? then 0 else count)
  {
  }

  /** Profit in percent, from the side's point of view. */
  function PnlPercent(p: Position, entry: real, current: real): real
    requires entry != 0.0
  {
    var x := (current - entry) / entry * 100.0;
    if p.side == "sell" then -x else x
  }

  /** A short loses when the price is above its entry, any other position when it is below. */
  lemma LossIff(p: Position, entry: real, current: real)
    requires entry > 0.0
    ensures PnlPercent(p, entry, current) < 0.0 <==> if p.side == "sell" then current > entry else current < entry
    ensures PnlPercent(p, entry, current) * entry == 100.0 * (if p.side == "sell" then entry - current else current - entry)
  {
    var gain := current - entry;
    var x := gain / entry;
    assert x * entry == gain;
    assert x * 100.0 * entry == 100.0 * gain;
    SignOfFactor(x, entry);
  }

  lemma SignOfFactor(x: real, y: real)
    requires y > 0.0
    ensures (x < 0.0 <==> x * y < 0.0) && (x > 0.0 <==> x * y > 0.0)
  {
  }

  class Judge {
    var counters: map<Position, nat>

    ghost function Count(p: Position): nat
      reads this
    {
      if p in counters then counters[p] else 0
    }

    constructor ()
      ensures forall p :: Count(p) == 0
    {
      counters := map[];
    }

    /** One call of the judge. A zero entry price makes the source raise before it touches any counter: `None`. */
    method Decide(p: Position, entry: real, current: real, checkpoint: bool,
                  cheap: Option<Verdict>, escalated: Option<Verdict>) returns (r: Option<Verdict>)
      modifies this
      ensures entry == 0.0 ==> r == None && counters == old(counters)
      ensures entry != 0.0 ==>
                var (verdict, count) := Rule(old(Count(p)), PnlPercent(p, entry, current) < 0.0, checkpoint, cheap, escalated);
                r == Some(verdict) && Count(p) == count
      ensures forall q :: q != p ==> Count(q) == old(Count(q))
    {
      hide PnlPercent;
      if entry == 0.0 {
        return None;
      }
      var loss := PnlPercent(p, entry, current) < 0.0;
      var held := if p in counters then counters[p] else 0;
      if held >= MaxHolds(checkpoint) && loss {
        counters := counters[p := 0];
        return Some(Verdict("EXIT", 90));
      }
      if cheap.Some? && cheap.value.action != "HOLD" {
        counters := counters[p := 0];
        return cheap;
      }
      if cheap.Some? && cheap.value.confidence >= 70 {
        if loss {
          counters := counters[p := held + 1];
        }
        return cheap;
      }
      if escalated.Some? {
        counters := counters[p := if escalated.value.action == "HOLD" && loss then held + 1 else 0];
        return escalated;
      }
      if loss {
        counters := counters[p := held + 1];
      }
      r := Some(Verdict("HOLD", 30));
    }
  }

  // ----- Any run of judge calls, over any positions

  datatype Call = Call(position: Position, loss: bool, checkpoint: bool, cheap: Option<Verdict>, escalated: Option<Verdict>)

  function Outcome(calls: seq<Call>, i: nat): (Verdict, nat)
    requires i < |calls|
    decreases i, 1
  {
    var c := calls[i];
    Rule(CountBefore(calls, i, c.position), c.loss, c.checkpoint, c.cheap, c.escalated)
  }

  /** The counter of position p before call i. */
  function CountBefore(calls: seq<Call>, i: nat, p: Position): nat
    requires i <= |calls|
    decreases i, 0
  {
    if i == 0 then 0
    else if calls[i - 1].position == p then Outcome(calls, i - 1).1
    else CountBefore(calls, i - 1, p)
  }

  /** The hold counter never leaves 0 .. 3. */
  lemma {:induction false} CounterBounded(calls: seq<Call>, i: nat, p: Position)
    requires i <= |calls|
    ensures CountBefore(calls, i, p) <= 3
  {
    if i > 0 {
      CounterBounded(calls, i - 1, p);
    }
  }

  lemma HoldAtLossCounts(calls: seq<Call>, i: nat)
    requires i < |calls| && calls[i].loss && IsHold(Outcome(calls, i).0)
    ensures CountBefore(calls, i + 1, calls[i].position) == CountBefore(calls, i, calls[i].position) + 1
    ensures CountBefore(calls, i, calls[i].position) < MaxHolds(calls[i].checkpoint)
  {
    hide CountBefore;
    var c := calls[i];
    var (verdict, count) := Rule(CountBefore(calls, i, c.position), c.loss, c.checkpoint, c.cheap, c.escalated);
    CountAfter(calls, i);
  }

  lemma CountAfter(calls: seq<Call>, i: nat)
    requires i < |calls|
    ensures CountBefore(calls, i + 1, calls[i].position) == Outcome(calls, i).1
  {
  }

  /** Calls on other positions do not matter. */
  lemma {:induction false} CountKept(calls: seq<Call>, i: nat, j: nat, p: Position)
    requires i <= j <= |calls| && forall k :: i <= k < j ==> calls[k].position != p
    ensures CountBefore(calls, j, p) == CountBefore(calls, i, p)
  {
    if i < j {
      CountKept(calls, i, j - 1, p);
    }
  }

  /** The calls listed are all on position p, all at a loss, and successive: nothing on p lies between them. */
  ghost predicate SuccessiveLosses(calls: seq<Call>, p: Position, at: seq<nat>) {
    && (forall n :: 0 <= n < |at| ==> at[n] < |calls| && calls[at[n]].position == p && calls[at[n]].loss)
    && (forall n :: 0 < n < |at| ==> at[n - 1] < at[n])
    && (forall n, k :: 0 < n < |at| && at[n - 1] < k < at[n] ==> calls[k].position != p)
  }

  /** If the first n of them are all held, the counter has reached n before the next. */
  lemma {:induction false} HeldSoFar(calls: seq<Call>, p: Position, at: seq<nat>, n: nat)
    requires SuccessiveLosses(calls, p, at) && n < |at|
    requires forall m :: 0 <= m < n ==> IsHold(Outcome(calls, at[m]).0)
    ensures CountBefore(calls, at[n], p) >= n
  {
    if n > 0 {
      HeldSoFar(calls, p, at, n - 1);
      hide CountBefore, Outcome;
      HoldAtLossCounts(calls, at[n - 1]);
      assert at[n - 1] < at[n];
      CountKept(calls, at[n - 1] + 1, at[n], p);
    }
  }

  /** Any four successive calls on one position at a loss contain a verdict other than HOLD, whatever the AI
      answers; three are enough when the third is a checkpoint review. */
  lemma LosersAreNotGround(calls: seq<Call>, p: Position, at: seq<nat>) returns (n: nat)
    requires SuccessiveLosses(calls, p, at)
    requires |at| == 4 || (|at| == 3 && calls[at[2]].checkpoint)
    ensures n < |at| && !IsHold(Outcome(calls, at[n]).0)
  {
    hide CountBefore;
    var last := |at| - 1;
    if forall m :: 0 <= m < last ==> IsHold(Outcome(calls, at[m]).0) {
      HeldSoFar(calls, p, at, last);
      n := last;
    } else {
      n :| 0 <= n < last && !IsHold(Outcome(calls, at[n]).0);
    }
  }
}
