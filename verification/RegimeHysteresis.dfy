/** Regime hysteresis of the decision engine: a new regime takes effect on its second consecutive dissenting reading. */
module RegimeHysteresis {
  import opened Prelude
  import opened TradeSimulation

  /** Per symbol: the regime in effect and the number of dissenting readings in a row. */
  datatype Memory = Memory(regime: Option<Regime>, dissents: nat)

  function Observe(m: Memory, reading: Regime): Memory {
    if m.regime.Some? && reading != m.regime.value then
      if m.dissents + 1 < 2 then Memory(m.regime, m.dissents + 1) else Memory(Some(reading), 0)
    else Memory(Some(reading), 0)
  }

  /** The engine's two dictionaries. */
  class Hysteresis {
    var previous: map<string, Regime>
    var transitions: map<string, nat>

    ghost function At(symbol: string): Memory
      reads this
    {
      Memory(if symbol in previous then Some(previous[symbol]) else None,
             if symbol in transitions then transitions[symbol] else 0)
    }

    constructor ()
      ensures forall s :: At(s) == Memory(None, 0)
    {
      previous, transitions := map[], map[];
    }

    /** One reading for one symbol: returns the regime in effect, leaves the other symbols alone. */
    method Confirm(symbol: string, reading: Regime) returns (effective: Regime)
      modifies this
      ensures At(symbol) == Observe(old(At(symbol)), reading)
      ensures At(symbol).regime == Some(effective)
      ensures forall s :: s != symbol ==> At(s) == old(At(s))
    {
      effective := reading;
      if symbol in previous && reading != previous[symbol] {
        var n := (if symbol in transitions then transitions[symbol] else 0) + 1;
        transitions := transitions[symbol := n];
        if n < 2 {
          effective := previous[symbol];
        } else {
          transitions := transitions - {symbol};
        }
      } else {
        transitions := transitions - {symbol};
      }
      previous := previous[symbol := effective];
    }
  }

  // ----- Any sequence of readings

  function After(readings: seq<Regime>): Memory {
    if readings == [] then Memory(None, 0) else Observe(After(readings[..|readings| - 1]), readings[|readings| - 1])
  }

  lemma {:induction false} MemoryShape(readings: seq<Regime>)
    ensures After(readings).dissents <= 1
    ensures readings != [] ==> After(readings).regime.Some?
    ensures readings != [] ==> (After(readings).dissents == 1 <==> readings[|readings| - 1] != After(readings).regime.value)
    ensures |readings| == 1 ==> After(readings).dissents == 0
  {
    if readings != [] {
      MemoryShape(readings[..|readings| - 1]);
    }
  }

  /** The regime in effect after reading i. */
  function Effective(readings: seq<Regime>, i: nat): Regime
    requires i < |readings|
  {
    MemoryShape(readings[..i + 1]);
    After(readings[..i + 1]).regime.value
  }

  predicate Switches(readings: seq<Regime>, i: nat)
    requires i < |readings|
  {
    i > 0 && Effective(readings, i) != Effective(readings, i - 1)
  }

  /** The regime in effect changes at reading i exactly when readings i - 1 and i both differ from it, and then it
      becomes reading i. So one dissenting reading between two agreeing ones never changes it. */
  lemma SwitchesIff(readings: seq<Regime>, i: nat)
    requires 0 < i < |readings|
    ensures Switches(readings, i) <==>
            readings[i - 1] != Effective(readings, i - 1) && readings[i] != Effective(readings, i - 1)
    ensures Switches(readings, i) ==> Effective(readings, i) == readings[i]
  {
    MemoryShape(readings[..i]);
    assert readings[..i + 1][..i] == readings[..i];
  }

  /** The first reading takes effect at once. */
  lemma FirstTakesEffect(readings: seq<Regime>)
    requires readings != []
    ensures Effective(readings, 0) == readings[0]
  {
    MemoryShape(readings[..1]);
    assert readings[..1][|readings[..1]| - 1] == readings[0];
  }

  function SwitchCount(readings: seq<Regime>, n: nat): nat
    requires n <= |readings|
  {
    if n == 0 then 0 else SwitchCount(readings, n - 1) + if Switches(readings, n - 1) then 1 else 0
  }

  /** Two neighbouring readings cannot both switch, and the first two cannot switch at all. */
  lemma NoTwoInARow(readings: seq<Regime>, i: nat)
    requires i < |readings| && Switches(readings, i)
    ensures i >= 2 && !Switches(readings, i - 1)
  {
    SwitchesIff(readings, i);
    if i == 1 {
      MemoryShape(readings[..1]);
    } else {
      SwitchesIff(readings, i - 1);
    }
  }

  /** n readings switch the regime at most (n - 1) / 2 times. */
  lemma {:induction false} SwitchBound(readings: seq<Regime>, n: nat)
    requires 1 <= n <= |readings|
    ensures 2 * SwitchCount(readings, n) <= n - 1
  {
    hide Switches;
    if n == 1 {
      assert !Switches(readings, 0) by { NoSwitchAtStart(readings); }
    } else if Switches(readings, n - 1) {
      NoTwoInARow(readings, n - 1);
      SwitchBound(readings, n - 2);
    } else {
      SwitchBound(readings, n - 1);
    }
  }

  lemma NoSwitchAtStart(readings: seq<Regime>)
    requires readings != []
    ensures !Switches(readings, 0)
  {
  }
}
