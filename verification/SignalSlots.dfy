/** Signal workers and position slots: K workers, each draining its own queue, check for duplicates and free
    slots and later save a position, while positions are also closed from outside at any moment. */
module SignalSlots {
  import opened Prelude

  const QUEUE_CAPACITY: nat := 100

  type Symbol = nat

  datatype Side = Long | Short

  datatype Signal = Signal(symbol: Symbol, side: Side, hyper: bool)

  /** Positions are stored per symbol and side. */
  datatype Key = Key(symbol: Symbol, side: Side)

  /** An open position. The worker that saved it, the moment its slot scan began and the moment it was saved
      are kept as history. */
  datatype Position = Position(hyper: bool, worker: nat, start: nat, saved: nat)

  datatype Phase =
    | Idle
    | Received(sig: Signal)
    | LongAbsent(sig: Signal)
    | NoDuplicate(sig: Signal)
    | Scanning(sig: Signal, start: nat)
    | Passed(sig: Signal, start: nat)

  datatype Limits = Limits(workers: nat, maxPos: int, maxHyper: int, hash: Symbol -> int)

  datatype State = State(clock: nat, queues: seq<seq<Signal>>, phases: seq<Phase>, positions: map<Key, Position>)

  /** One atomic move: the worker moves are separated by the awaits of the handler. The slot scan reads the keys
      one after the other, so it is a start and a finish that delivers the counts it saw. */
  datatype Step =
    | Arrive(sig: Signal)
    | Dequeue(w: nat)
    | CheckLong(w: nat)
    | CheckShort(w: nat)
    | StartScan(w: nat)
    | FinishScan(w: nat, total: nat, hyper: nat)
    | GiveUp(w: nat)
    | Save(w: nat)
    | CloseExternally(key: Key)

  function Route(c: Limits, symbol: Symbol): (w: nat)
    requires c.workers >= 1
    ensures w < c.workers
  {
    c.hash(symbol) % c.workers
  }

  function Init(c: Limits): State {
    State(0, seq(c.workers, _ => []), seq(c.workers, _ => Idle), map[])
  }

  function Older(positions: map<Key, Position>, t: nat): set<Key> {
    set k | k in positions && positions[k].saved < t
  }

  function Hypers(positions: map<Key, Position>): set<Key> {
    set k | k in positions && positions[k].hyper
  }

  function NonHypers(positions: map<Key, Position>): set<Key> {
    set k | k in positions && !positions[k].hyper
  }

  /** A scan sees at least every position that was open from its start to its finish; positions saved or closed
      meanwhile may or may not be counted. */
  predicate Enabled(c: Limits, s: State, step: Step)
    requires |s.queues| == |s.phases| == c.workers >= 1
  {
    match step
    case Arrive(_) => true
    case Dequeue(w) => w < c.workers && s.phases[w].Idle? && s.queues[w] != []
    case CheckLong(w) => w < c.workers && s.phases[w].Received?
    case CheckShort(w) => w < c.workers && s.phases[w].LongAbsent?
    case StartScan(w) => w < c.workers && s.phases[w].NoDuplicate?
    case FinishScan(w, total, hyper) =>
      && w < c.workers && s.phases[w].Scanning?
      && total >= |Older(s.positions, s.phases[w].start)|
      && hyper >= |Older(s.positions, s.phases[w].start) * Hypers(s.positions)|
    case GiveUp(w) => w < c.workers && !s.phases[w].Idle?
    case Save(w) => w < c.workers && s.phases[w].Passed?
    case CloseExternally(key) => key in s.positions
  }

  /** The slot test: HYPER signals against the HYPER count, all others against the total. */
  predicate SlotFree(c: Limits, sig: Signal, total: nat, hyper: nat) {
    if sig.hyper then hyper < c.maxHyper else total < c.maxPos
  }

  function Apply(c: Limits, s: State, step: Step): (s': State)
    requires |s.queues| == |s.phases| == c.workers >= 1 && Enabled(c, s, step)
    ensures |s'.queues| == |s'.phases| == c.workers && s'.clock == s.clock + 1
  {
    var t := s.(clock := s.clock + 1);
    match step
    case Arrive(sig) =>
      var w := Route(c, sig.symbol);
      if |s.queues[w]| >= QUEUE_CAPACITY then t else t.(queues := s.queues[w := s.queues[w] + [sig]])
    case Dequeue(w) =>
      t.(queues := s.queues[w := s.queues[w][1..]], phases := s.phases[w := Received(s.queues[w][0])])
    case CheckLong(w) =>
      var sig := s.phases[w].sig;
      t.(phases := s.phases[w := if Key(sig.symbol, Long) in s.positions then Idle else LongAbsent(sig)])
    case CheckShort(w) =>
      var sig := s.phases[w].sig;
      t.(phases := s.phases[w := if Key(sig.symbol, Short) in s.positions then Idle else NoDuplicate(sig)])
    case StartScan(w) =>
      t.(phases := s.phases[w := Scanning(s.phases[w].sig, s.clock)])
    case FinishScan(w, total, hyper) =>
      var sig := s.phases[w].sig;
      t.(phases := s.phases[w := if SlotFree(c, sig, total, hyper) then Passed(sig, s.phases[w].start) else Idle])
    case GiveUp(w) =>
      t.(phases := s.phases[w := Idle])
    case Save(w) =>
      var sig := s.phases[w].sig;
      t.(phases := s.phases[w := Idle],
         positions := s.positions[Key(sig.symbol, sig.side) := Position(sig.hyper, w, s.phases[w].start, s.clock)])
    case CloseExternally(key) =>
      t.(positions := s.positions - {key})
  }

  datatype Outcome = Blocked | Reached(state: State)

  /** Runs the steps from the initial state; `Blocked` when some step was not enabled. */
  function Exec(c: Limits, steps: seq<Step>): (r: Outcome)
    requires c.workers >= 1
    ensures r.Reached? ==> |r.state.queues| == |r.state.phases| == c.workers
  {
    if steps == [] then Reached(Init(c))
    else
      var r := Exec(c, steps[..|steps| - 1]);
      var step := steps[|steps| - 1];
      if r.Reached? && Enabled(c, r.state, step) then Reached(Apply(c, r.state, step)) else Blocked
  }

  // ----- The invariant

  predicate Busy(p: Phase) {
    p.Scanning? || p.Passed?
  }

  predicate Absent(positions: map<Key, Position>, symbol: Symbol) {
    Key(symbol, Long) !in positions && Key(symbol, Short) !in positions
  }

  /** Worker w handles only symbols routed to it; while it works on one past the duplicate check, that symbol has
      no open position, and every position w ever saved was saved before its present scan began. */
  ghost predicate WorkerOk(c: Limits, s: State, w: nat)
    requires |s.queues| == |s.phases| == c.workers >= 1 && w < c.workers
  {
    var p := s.phases[w];
    && (forall i :: 0 <= i < |s.queues[w]| ==> Route(c, s.queues[w][i].symbol) == w)
    && (!p.Idle? ==> Route(c, p.sig.symbol) == w)
    && (p.LongAbsent? ==> Key(p.sig.symbol, Long) !in s.positions)
    && (p.NoDuplicate? || Busy(p) ==> Absent(s.positions, p.sig.symbol))
    && (Busy(p) ==> p.start < s.clock)
    && (Busy(p) ==> forall k :: k in s.positions && s.positions[k].worker == w ==> s.positions[k].saved < p.start)
  }

  /** Each open position belongs to the worker its symbol is routed to; a symbol is open on one side only; and
      one worker's scan-to-save intervals never overlap. */
  ghost predicate PositionsOk(c: Limits, positions: map<Key, Position>, clock: nat)
    requires c.workers >= 1
  {
    && (forall k :: k in positions ==> positions[k].worker == Route(c, k.symbol)
                                       && positions[k].start < positions[k].saved < clock)
    && (forall k, l :: k in positions && l in positions && k.symbol == l.symbol ==> k == l)
    && (forall k, l :: k in positions && l in positions && k != l && positions[k].worker == positions[l].worker ==>
          positions[k].saved < positions[l].start || positions[l].saved < positions[k].start)
  }

  /** What was open when a scan that ended in admission began, and still is, leaves a slot free. */
  ghost predicate Admitted(c: Limits, positions: map<Key, Position>, hyper: bool, start: nat) {
    if hyper then |Older(positions, start) * Hypers(positions)| < c.maxHyper
    else |Older(positions, start)| < c.maxPos
  }

  ghost predicate AdmissionsOk(c: Limits, s: State)
    requires |s.phases| == c.workers
  {
    && (forall w :: 0 <= w < c.workers && s.phases[w].Passed? ==>
          Admitted(c, s.positions, s.phases[w].sig.hyper, s.phases[w].start))
    && (forall k :: k in s.positions ==> Admitted(c, s.positions, s.positions[k].hyper, s.positions[k].start))
  }

  ghost predicate Inv(c: Limits, s: State) {
    && |s.queues| == |s.phases| == c.workers >= 1
    && (forall w :: 0 <= w < c.workers ==> WorkerOk(c, s, w))
    && PositionsOk(c, s.positions, s.clock)
    && AdmissionsOk(c, s)
  }

  lemma OlderAfterSave(positions: map<Key, Position>, k: Key, p: Position, t: nat)
    requires k !in positions && t <= p.saved
    ensures Older(positions[k := p], t) == Older(positions, t)
    ensures Older(positions[k := p], t) * Hypers(positions[k := p]) == Older(positions, t) * Hypers(positions)
  {
  }

  lemma AdmittedAfterClose(c: Limits, positions: map<Key, Position>, key: Key, hyper: bool, start: nat)
    requires Admitted(c, positions, hyper, start)
    ensures Admitted(c, positions - {key}, hyper, start)
  {
    var rest := positions - {key};
    SubsetSize(Older(rest, start), Older(positions, start));
    SubsetSize(Older(rest, start) * Hypers(rest), Older(positions, start) * Hypers(positions));
  }

  lemma WorkersStep(c: Limits, s: State, step: Step, w: nat)
    requires Inv(c, s) && Enabled(c, s, step) && w < c.workers
    ensures WorkerOk(c, Apply(c, s, step), w)
  {
    hide AdmissionsOk, Route;
    assert WorkerOk(c, s, w);
    assert forall k :: k in s.positions ==> s.positions[k].saved < s.clock;
    hide PositionsOk;
    if step.Save? {
      assert WorkerOk(c, s, step.w);
      hide Inv;
      SaveKeepsWorker(c, s, step.w, w);
    } else if step.CloseExternally? {
      hide Inv;
    } else {
      OtherStepsKeepPositions(c, s, step);
      hide Inv, SlotFree;
      OtherStepsKeepWorker(c, s, step, w);
    }
  }

  lemma SaveKeepsWorker(c: Limits, s: State, v: nat, w: nat)
    requires |s.queues| == |s.phases| == c.workers >= 1 && v < c.workers && w < c.workers
    requires s.phases[v].Passed? && WorkerOk(c, s, v) && WorkerOk(c, s, w)
    ensures WorkerOk(c, Apply(c, s, Save(v)), w)
  {
    hide Route;
  }

  lemma OtherStepsKeepWorker(c: Limits, s: State, step: Step, w: nat)
    requires |s.queues| == |s.phases| == c.workers >= 1 && w < c.workers && Enabled(c, s, step)
    requires !step.Save? && !step.CloseExternally? && WorkerOk(c, s, w)
    requires forall k :: k in s.positions ==> s.positions[k].saved < s.clock
    ensures WorkerOk(c, Apply(c, s, step), w)
  {
    hide Route, SlotFree, Older, Hypers;
    if step.Arrive? {
      var v := Route(c, step.sig.symbol);
      assert forall i :: 0 <= i < |s.queues[v]| ==> (s.queues[v] + [step.sig])[i] == s.queues[v][i];
    }
  }

  lemma SaveKeepsPositions(c: Limits, positions: map<Key, Position>, clock: nat, key: Key, p: Position)
    requires c.workers >= 1 && PositionsOk(c, positions, clock) && Absent(positions, key.symbol)
    requires p.worker == Route(c, key.symbol) && p.start < p.saved == clock
    requires forall k :: k in positions && positions[k].worker == p.worker ==> positions[k].saved < p.start
    ensures PositionsOk(c, positions[key := p], clock + 1)
  {
    hide Route, Absent;
    AbsentSymbol(positions, key.symbol);
    var after := positions[key := p];
    assert forall k :: k in after ==> k == key || (k in positions && k.symbol != key.symbol && after[k] == positions[k]);
  }

  lemma AbsentSymbol(positions: map<Key, Position>, symbol: Symbol)
    requires Absent(positions, symbol)
    ensures forall k :: k in positions ==> k.symbol != symbol
  {
    forall k | k in positions ensures k.symbol != symbol {
      assert k.side == Long || k.side == Short;
    }
  }

  lemma CloseKeepsPositions(c: Limits, positions: map<Key, Position>, clock: nat, keys: set<Key>)
    requires c.workers >= 1 && PositionsOk(c, positions, clock)
    ensures PositionsOk(c, positions - keys, clock + 1)
  {
    hide Route;
  }

  /** Only saving and closing touch the positions. */
  lemma OtherStepsKeepPositions(c: Limits, s: State, step: Step)
    requires |s.queues| == |s.phases| == c.workers >= 1 && Enabled(c, s, step)
    requires !step.Save? && !step.CloseExternally?
    ensures Apply(c, s, step).positions == s.positions
  {
    hide Route, SlotFree;
  }

  lemma PositionsStep(c: Limits, s: State, step: Step)
    requires Inv(c, s) && Enabled(c, s, step)
    ensures PositionsOk(c, Apply(c, s, step).positions, s.clock + 1)
  {
    hide AdmissionsOk, Route, PositionsOk;
    if step.Save? {
      assert WorkerOk(c, s, step.w);
      var p := s.phases[step.w];
      SaveKeepsPositions(c, s.positions, s.clock, Key(p.sig.symbol, p.sig.side),
                         Position(p.sig.hyper, step.w, p.start, s.clock));
    } else if step.CloseExternally? {
      CloseKeepsPositions(c, s.positions, s.clock, {step.key});
    } else {
      CloseKeepsPositions(c, s.positions, s.clock, {});
      OtherStepsKeepPositions(c, s, step);
      hide Apply;
      assert s.positions - {} == s.positions;
    }
  }

  /** A passed worker is one that was passed before, or one whose scan has just found a free slot. */
  lemma PassedBefore(c: Limits, s: State, step: Step, w: nat)
    requires |s.queues| == |s.phases| == c.workers >= 1 && Enabled(c, s, step) && w < c.workers
    requires Apply(c, s, step).phases[w].Passed?
    ensures var p, q := s.phases[w], Apply(c, s, step).phases[w];
            && Busy(p) && p.sig == q.sig && p.start == q.start
            && (p.Scanning? ==> Admitted(c, s.positions, p.sig.hyper, p.start))
  {
    hide Route, Older, Hypers;
  }

  lemma AdmissionsStep(c: Limits, s: State, step: Step)
    requires Inv(c, s) && Enabled(c, s, step)
    ensures AdmissionsOk(c, Apply(c, s, step))
  {
    hide Route, Admitted;
    var s' := Apply(c, s, step);
    forall hyper: bool, start: nat | start <= s.clock && Admitted(c, s.positions, hyper, start)
      ensures Admitted(c, s'.positions, hyper, start)
    {
      AdmittedStep(c, s, step, hyper, start);
    }
    forall w | 0 <= w < c.workers && s'.phases[w].Passed?
      ensures Admitted(c, s'.positions, s'.phases[w].sig.hyper, s'.phases[w].start)
    {
      PassedBefore(c, s, step, w);
      assert WorkerOk(c, s, w);
    }
    forall k | k in s'.positions ensures Admitted(c, s'.positions, s'.positions[k].hyper, s'.positions[k].start) {
      SavedBefore(c, s, step, k);
    }
  }

  /** An admission stays justified: later positions do not count against it and closures only help. */
  lemma AdmittedStep(c: Limits, s: State, step: Step, hyper: bool, start: nat)
    requires Inv(c, s) && Enabled(c, s, step) && start <= s.clock && Admitted(c, s.positions, hyper, start)
    ensures Admitted(c, Apply(c, s, step).positions, hyper, start)
  {
    hide Route, PositionsOk, AdmissionsOk;
    if step.Save? {
      assert WorkerOk(c, s, step.w);
      var p := s.phases[step.w];
      assert p.sig.side == Long || p.sig.side == Short;
      OlderAfterSave(s.positions, Key(p.sig.symbol, p.sig.side), Position(p.sig.hyper, step.w, p.start, s.clock), start);
    } else if step.CloseExternally? {
      hide Admitted;
      AdmittedAfterClose(c, s.positions, step.key, hyper, start);
    } else {
      OtherStepsKeepPositions(c, s, step);
    }
  }

  /** Every open position was admitted, by a scan that began no later than now. */
  lemma SavedBefore(c: Limits, s: State, step: Step, k: Key)
    requires Inv(c, s) && Enabled(c, s, step)
    ensures var positions := Apply(c, s, step).positions;
            k in positions ==>
              positions[k].start <= s.clock && Admitted(c, s.positions, positions[k].hyper, positions[k].start)
  {
    hide Route, Admitted;
    if step.Save? {
      assert WorkerOk(c, s, step.w);
    } else if !step.CloseExternally? {
      OtherStepsKeepPositions(c, s, step);
      hide Apply, WorkerOk;
    }
  }

  /** Every reachable state, for any number of workers and any interleaving, satisfies the invariant. */
  lemma {:induction false} AlwaysInv(c: Limits, steps: seq<Step>)
    requires c.workers >= 1 && Exec(c, steps).Reached?
    ensures Inv(c, Exec(c, steps).state)
  {
    if steps != [] {
      var n := |steps| - 1;
      AlwaysInv(c, steps[..n]);
      var s, step := Exec(c, steps[..n]).state, steps[n];
      assert Exec(c, steps) == Reached(Apply(c, s, step));
      hide WorkerOk, PositionsOk, AdmissionsOk, Apply, Enabled, Exec;
      forall w | 0 <= w < c.workers ensures WorkerOk(c, Apply(c, s, step), w) {
        WorkersStep(c, s, step, w);
      }
      PositionsStep(c, s, step);
      AdmissionsStep(c, s, step);
    }
  }

  // ----- No symbol is opened twice

  /** Whenever a worker is about to save a position, its symbol is open on neither side; and no reachable state
      holds a symbol on both sides. */
  lemma NeverOpenedTwice(c: Limits, steps: seq<Step>, w: nat)
    requires c.workers >= 1 && Exec(c, steps + [Save(w)]).Reached?
    ensures Exec(c, steps).Reached?
    ensures var s := Exec(c, steps).state;
            && w < c.workers && s.phases[w].Passed?
            && Absent(s.positions, s.phases[w].sig.symbol)
            && forall k, l :: k in s.positions && l in s.positions && k.symbol == l.symbol ==> k == l
  {
    assert (steps + [Save(w)])[..|steps|] == steps;
    AlwaysInv(c, steps);
    var s := Exec(c, steps).state;
    hide Exec;
    hide Route, AdmissionsOk;
    assert WorkerOk(c, s, w);
  }

  // ----- Where positions come from

  /** Everything queued, in work or open goes back to a signal that arrived, side and kind included. */
  ghost predicate FromSignals(s: State, steps: seq<Step>) {
    && (forall w, i :: 0 <= w < |s.queues| && 0 <= i < |s.queues[w]| ==> Arrive(s.queues[w][i]) in steps)
    && (forall w :: 0 <= w < |s.phases| && !s.phases[w].Idle? ==> Arrive(s.phases[w].sig) in steps)
    && (forall k :: k in s.positions ==> Arrive(Signal(k.symbol, k.side, s.positions[k].hyper)) in steps)
  }

  lemma SignalsStep(c: Limits, s: State, steps: seq<Step>, step: Step)
    requires |s.queues| == |s.phases| == c.workers >= 1 && Enabled(c, s, step) && FromSignals(s, steps)
    ensures FromSignals(Apply(c, s, step), steps + [step])
  {
    hide Route, SlotFree, Older, Hypers;
    if step.Save? {
      var sig := s.phases[step.w].sig;
      assert sig == Signal(sig.symbol, sig.side, sig.hyper);
    }
  }

  /** Every open position, at every moment of every run, carries symbol, side and kind of a signal that arrived. */
  lemma {:induction false} OpenFromSignals(c: Limits, steps: seq<Step>)
    requires c.workers >= 1 && Exec(c, steps).Reached?
    ensures FromSignals(Exec(c, steps).state, steps)
  {
    if steps != [] {
      var n := |steps| - 1;
      assert steps == steps[..n] + [steps[n]];
      OpenFromSignals(c, steps[..n]);
      hide Enabled, Apply, FromSignals;
      SignalsStep(c, Exec(c, steps[..n]).state, steps[..n], steps[n]);
    }
  }

  /** Signals the worker's queue took in: arrivals routed to it while it held fewer than 100. */
  ghost function TakenIn(c: Limits, steps: seq<Step>, w: nat): seq<Signal>
    requires c.workers >= 1 && Exec(c, steps).Reached? && w < c.workers
  {
    if steps == [] then []
    else
      var before, step := steps[..|steps| - 1], steps[|steps| - 1];
      TakenIn(c, before, w) +
      if step.Arrive? && c.hash(step.sig.symbol) % c.workers == w && |Exec(c, before).state.queues[w]| < 100 then [step.sig] else []
  }

  /** Signals the worker began to work on. */
  ghost function TakenUp(c: Limits, steps: seq<Step>, w: nat): seq<Signal>
    requires c.workers >= 1 && Exec(c, steps).Reached? && w < c.workers
  {
    if steps == [] then []
    else
      var phase := Exec(c, steps).state.phases[w];
      TakenUp(c, steps[..|steps| - 1], w) +
      if steps[|steps| - 1] == Dequeue(w) && phase.Received? then [phase.sig] else []
  }

  lemma QueueStep(c: Limits, s: State, step: Step, w: nat)
    requires |s.queues| == |s.phases| == c.workers >= 1 && Enabled(c, s, step) && w < c.workers && |s.queues[w]| <= 100
    ensures var s' := Apply(c, s, step);
            && |s'.queues[w]| <= 100
            && (if step.Arrive? && c.hash(step.sig.symbol) % c.workers == w && |s.queues[w]| < 100
                then s'.queues[w] == s.queues[w] + [step.sig]
                else if step == Dequeue(w)
                then s'.phases[w].Received? && s.queues[w] == [s'.phases[w].sig] + s'.queues[w]
                else s'.queues[w] == s.queues[w])
  {
    hide SlotFree, Older, Hypers;
  }

  /** Queues are bounded and first in, first out: what a worker took up, followed by what still waits, is what came in. */
  lemma {:induction false} QueuesInOrder(c: Limits, steps: seq<Step>, w: nat)
    requires c.workers >= 1 && Exec(c, steps).Reached? && w < c.workers
    ensures |Exec(c, steps).state.queues[w]| <= 100
    ensures TakenIn(c, steps, w) == TakenUp(c, steps, w) + Exec(c, steps).state.queues[w]
  {
    if steps != [] {
      var before, step := steps[..|steps| - 1], steps[|steps| - 1];
      QueuesInOrder(c, before, w);
      var s := Exec(c, before).state;
      assert Exec(c, steps) == Reached(Apply(c, s, step));
      hide Exec, Enabled, Apply;
      QueueStep(c, s, step, w);
    }
  }

  /** In any state, a worker ends its work on a signal exactly by saving it, by giving up, on finding either side open, or
      on finding the limit of the signal's kind reached; until then it keeps the signal. */
  lemma WorkEndsIff(c: Limits, s: State, step: Step, w: nat)
    requires |s.queues| == |s.phases| == c.workers >= 1 && Enabled(c, s, step) && w < c.workers && !s.phases[w].Idle?
    ensures var sig, phase := s.phases[w].sig, Apply(c, s, step).phases[w];
            && (phase.Idle? <==>
                  || step == Save(w) || step == GiveUp(w)
                  || (step == CheckLong(w) && Key(sig.symbol, Long) in s.positions)
                  || (step == CheckShort(w) && Key(sig.symbol, Short) in s.positions)
                  || (step.FinishScan? && step.w == w && if sig.hyper then step.hyper >= c.maxHyper else step.total >= c.maxPos))
            && (!phase.Idle? ==> phase.sig == sig)
  {
    hide Route, Older, Hypers;
  }

  /** Positions appear only by saving the signal of a worker that passed the checks, and disappear only one by one. */
  lemma PositionsChangeOnly(c: Limits, s: State, step: Step, k: Key)
    requires |s.queues| == |s.phases| == c.workers >= 1 && Enabled(c, s, step)
    ensures var after := Apply(c, s, step).positions;
            && (step.Save? ==>
                  var sig := s.phases[step.w].sig;
                  after.Keys == s.positions.Keys + {Key(sig.symbol, sig.side)} && after[Key(sig.symbol, sig.side)].hyper == sig.hyper)
            && (step.CloseExternally? ==> after.Keys == s.positions.Keys - {step.key})
            && (!step.Save? && !step.CloseExternally? ==> after == s.positions)
            && (k in after && k in s.positions && !step.Save? ==> after[k] == s.positions[k])
  {
    hide Route, Older, Hypers, SlotFree;
  }

  // ----- Slot bounds

  lemma {:induction false} MaxStart(positions: map<Key, Position>, keys: set<Key>) returns (k: Key)
    requires keys != {} && keys <= positions.Keys
    ensures k in keys && forall l :: l in keys ==> positions[l].start <= positions[k].start
  {
    k :| k in keys;
    if keys != {k} {
      var l := MaxStart(positions, keys - {k});
      if positions[k].start < positions[l].start {
        k := l;
      }
    }
  }

  ghost predicate InUse(c: Limits, w: nat)
    requires c.workers >= 1
  {
    exists a: Symbol :: Route(c, a) == w
  }

  /** The workers that some symbol is routed to. */
  ghost function Routes(c: Limits): set<nat>
    requires c.workers >= 1
  {
    set w | 0 <= w < c.workers && InUse(c, w)
  }

  lemma RoutesWithinWorkers(c: Limits)
    requires c.workers >= 1
    ensures 1 <= |Routes(c)| <= c.workers
  {
    hide Route;
    var ws := WorkersBelow(c.workers);
    SubsetSize(Routes(c), ws);
    assert Route(c, 0) in Routes(c);
  }

  lemma {:induction false} WorkersBelow(n: nat) returns (ws: set<nat>)
    ensures |ws| == n && forall w :: w in ws <==> 0 <= w < n
  {
    if n == 0 {
      ws := {};
    } else {
      ws := WorkersBelow(n - 1);
      ws := ws + {n - 1};
    }
  }

  /** Keys whose positions were saved by pairwise different workers are at most as many as the workers. */
  lemma {:induction false} OnePerWorker(positions: map<Key, Position>, keys: set<Key>, ws: set<nat>)
    requires keys <= positions.Keys
    requires forall k :: k in keys ==> positions[k].worker in ws
    requires forall k, l :: k in keys && l in keys && positions[k].worker == positions[l].worker ==> k == l
    ensures |keys| <= |ws|
  {
    if keys != {} {
      var k :| k in keys;
      OnePerWorker(positions, keys - {k}, ws - {positions[k].worker});
    }
  }

  /** Positions whose scan-to-save intervals all contain the moment t are at most one per worker in use. */
  lemma InFlight(c: Limits, positions: map<Key, Position>, clock: nat, flying: set<Key>, t: nat)
    requires c.workers >= 1 && PositionsOk(c, positions, clock) && flying <= positions.Keys
    requires forall k :: k in flying ==> positions[k].start <= t <= positions[k].saved
    ensures |flying| <= |Routes(c)|
  {
    WorkersInUse(c, positions, clock, flying);
    InFlightFrom(c, positions, clock, flying, t, Routes(c));
  }

  lemma WorkersInUse(c: Limits, positions: map<Key, Position>, clock: nat, keys: set<Key>)
    requires c.workers >= 1 && PositionsOk(c, positions, clock) && keys <= positions.Keys
    ensures forall k :: k in keys ==> positions[k].worker in Routes(c)
  {
    hide Route;
    forall k | k in keys ensures positions[k].worker in Routes(c) {
      assert positions[k].worker == Route(c, k.symbol);
    }
  }

  lemma InFlightFrom(c: Limits, positions: map<Key, Position>, clock: nat, flying: set<Key>, t: nat, ws: set<nat>)
    requires c.workers >= 1 && PositionsOk(c, positions, clock) && flying <= positions.Keys
    requires forall k :: k in flying ==> positions[k].start <= t <= positions[k].saved && positions[k].worker in ws
    ensures |flying| <= |ws|
  {
    hide Route;
    forall k, l | k in flying && l in flying && positions[k].worker == positions[l].worker ensures k == l {
    }
    hide PositionsOk;
    OnePerWorker(positions, flying, ws);
  }

  /** Take the position whose scan began last. Those saved before that scan left a slot free; every other one was
      in flight at that moment, at most one per worker in use. */
  lemma GroupBound(c: Limits, positions: map<Key, Position>, clock: nat, group: set<Key>, limit: int)
    requires c.workers >= 1 && PositionsOk(c, positions, clock) && group <= positions.Keys && group != {}
    ensures (forall k :: k in group ==> |Older(positions, positions[k].start) * group| < limit) ==>
              |group| <= limit + |Routes(c)| - 1
  {
    hide PositionsOk;
    var last := MaxStart(positions, group);
    var t := positions[last].start;
    var before := Older(positions, t) * group;
    var flying := group - before;
    InFlight(c, positions, clock, flying, t);
    assert group == before + flying;
  }

  function Larger(a: int, b: int): int {
    if a < b then b else a
  }

  /** For any number of workers, any hash and any interleaving, each kind of position exceeds its limit by at most the
      number of workers in use minus one. */
  lemma SlotBounds(c: Limits, steps: seq<Step>)
    requires c.workers >= 1 && Exec(c, steps).Reached?
    ensures var s := Exec(c, steps).state;
            && |NonHypers(s.positions)| <= Larger(0, c.maxPos + |Routes(c)| - 1)
            && |Hypers(s.positions)| <= Larger(0, c.maxHyper + |Routes(c)| - 1)
            && |s.positions| == |NonHypers(s.positions)| + |Hypers(s.positions)|
  {
    AlwaysInv(c, steps);
    var s := Exec(c, steps).state;
    hide Exec, Inv;
    PlainBound(c, s);
    HyperBound(c, s);
    assert s.positions.Keys == NonHypers(s.positions) + Hypers(s.positions);
  }

  lemma PlainAdmissions(c: Limits, s: State)
    requires Inv(c, s)
    ensures var plain := NonHypers(s.positions);
            forall k :: k in plain ==> |Older(s.positions, s.positions[k].start) * plain| < c.maxPos
  {
    hide WorkerOk, PositionsOk;
    var plain := NonHypers(s.positions);
    forall k | k in plain ensures |Older(s.positions, s.positions[k].start) * plain| < c.maxPos {
      SubsetSize(Older(s.positions, s.positions[k].start) * plain, Older(s.positions, s.positions[k].start));
    }
  }

  lemma HyperAdmissions(c: Limits, s: State)
    requires Inv(c, s)
    ensures var hyper := Hypers(s.positions);
            forall k :: k in hyper ==> |Older(s.positions, s.positions[k].start) * hyper| < c.maxHyper
  {
    hide WorkerOk, PositionsOk, Older;
  }

  lemma PlainBound(c: Limits, s: State)
    requires Inv(c, s)
    ensures |NonHypers(s.positions)| <= Larger(0, c.maxPos + |Routes(c)| - 1)
  {
    hide WorkerOk, PositionsOk, AdmissionsOk;
    var plain := NonHypers(s.positions);
    if plain != {} {
      PlainAdmissions(c, s);
      GroupBound(c, s.positions, s.clock, plain, c.maxPos);
    }
  }

  lemma HyperBound(c: Limits, s: State)
    requires Inv(c, s)
    ensures |Hypers(s.positions)| <= Larger(0, c.maxHyper + |Routes(c)| - 1)
  {
    hide WorkerOk, PositionsOk, AdmissionsOk;
    var hyper := Hypers(s.positions);
    if hyper != {} {
      HyperAdmissions(c, s);
      GroupBound(c, s.positions, s.clock, hyper, c.maxHyper);
    }
  }

  /** With the default single worker the limits themselves hold. */
  lemma SingleWorkerLimits(c: Limits, steps: seq<Step>)
    requires c.workers == 1 && c.maxPos >= 0 && c.maxHyper >= 0 && Exec(c, steps).Reached?
    ensures var s := Exec(c, steps).state;
            && |NonHypers(s.positions)| <= c.maxPos
            && |Hypers(s.positions)| <= c.maxHyper
            && |s.positions| <= c.maxPos + c.maxHyper
  {
    RoutesWithinWorkers(c);
    SlotBounds(c, steps);
  }

  // ----- Both bounds are reached, so the limits are safe only when a single worker is in use

  function Limit(c: Limits, hyper: bool): int {
    if hyper then c.maxHyper else c.maxPos
  }

  function OfKind(positions: map<Key, Position>, hyper: bool): set<Key> {
    if hyper then Hypers(positions) else NonHypers(positions)
  }

  /** The count a slot test compares with the limit: HYPER positions for HYPER signals, all positions for the others. */
  function Counted(positions: map<Key, Position>, hyper: bool): nat {
    if hyper then |Hypers(positions)| else |positions|
  }

  lemma Extend(c: Limits, steps: seq<Step>, step: Step)
    requires c.workers >= 1 && Exec(c, steps).Reached? && Enabled(c, Exec(c, steps).state, step)
    ensures Exec(c, steps + [step]) == Reached(Apply(c, Exec(c, steps).state, step))
  {
    hide Apply, Enabled;
    assert (steps + [step])[..|steps|] == steps;
  }

  /** An idle worker with an empty queue takes a signal through all checks while a slot is free. */
  lemma Admit(c: Limits, steps: seq<Step>, w: nat, sig: Signal) returns (steps': seq<Step>)
    requires c.workers >= 1 && Exec(c, steps).Reached? && w < c.workers && Route(c, sig.symbol) == w
    requires var s := Exec(c, steps).state;
             && s.phases[w].Idle? && s.queues[w] == [] && Absent(s.positions, sig.symbol)
             && Counted(s.positions, sig.hyper) < Limit(c, sig.hyper)
    ensures Exec(c, steps').Reached?
    ensures var s, s' := Exec(c, steps).state, Exec(c, steps').state;
            && s'.positions == s.positions && s'.queues == s.queues
            && s'.phases[w].Passed? && s'.phases[w].sig == sig
            && s'.phases == s.phases[w := s'.phases[w]]
  {
    hide Exec, Route;
    var s0 := Exec(c, steps).state;
    Extend(c, steps, Arrive(sig));
    var s1 := Apply(c, s0, Arrive(sig));
    var r1 := steps + [Arrive(sig)];
    assert s0.queues[w] + [sig] == [sig];
    assert s1.queues == s0.queues[w := [sig]];
    Extend(c, r1, Dequeue(w));
    var s2 := Apply(c, s1, Dequeue(w));
    var r2 := r1 + [Dequeue(w)];
    assert [sig][1..] == [];
    assert s2.queues == s0.queues;
    Extend(c, r2, CheckLong(w));
    Extend(c, r2 + [CheckLong(w)], CheckShort(w));
    Extend(c, r2 + [CheckLong(w)] + [CheckShort(w)], StartScan(w));
    var r5 := r2 + [CheckLong(w)] + [CheckShort(w)] + [StartScan(w)];
    var s5 := Exec(c, r5).state;
    assert s5.positions == s0.positions && s5.phases[w].Scanning? && s5.queues == s0.queues;
    SubsetSize(Older(s5.positions, s5.phases[w].start), s5.positions.Keys);
    SubsetSize(Older(s5.positions, s5.phases[w].start) * Hypers(s5.positions), Hypers(s5.positions));
    var finish := FinishScan(w, |s5.positions|, |Hypers(s5.positions)|);
    Extend(c, r5, finish);
    steps' := r5 + [finish];
  }

  /** Saving an admitted signal on a new symbol adds one position of its kind and touches no other symbol. */
  lemma SaveOne(c: Limits, s: State, w: nat)
    requires |s.queues| == |s.phases| == c.workers >= 1 && w < c.workers
    requires s.phases[w].Passed? && Absent(s.positions, s.phases[w].sig.symbol)
    ensures Enabled(c, s, Save(w))
    ensures var s', sig := Apply(c, s, Save(w)), s.phases[w].sig;
            && s'.phases == s.phases[w := Idle] && s'.queues == s.queues
            && Adds(s.positions, s'.positions, sig.hyper, 1)
            && (OnSide(s.positions, sig.hyper, sig.side) ==> OnSide(s'.positions, sig.hyper, sig.side))
            && forall x: Symbol :: x != sig.symbol && Absent(s.positions, x) ==> Absent(s'.positions, x)
  {
    hide Adds;
    var sig := s.phases[w].sig;
    var k := Key(sig.symbol, sig.side);
    assert sig.side == Long || sig.side == Short;
    AddPosition(s.positions, k, Position(sig.hyper, w, s.phases[w].start, s.clock));
  }

  lemma AddPosition(positions: map<Key, Position>, k: Key, p: Position)
    requires k !in positions
    ensures Adds(positions, positions[k := p], p.hyper, 1)
  {
    hide Hypers, NonHypers;
    if p.hyper {
      AddHyper(positions, k, p);
    } else {
      AddPlain(positions, k, p);
    }
  }

  lemma AddHyper(positions: map<Key, Position>, k: Key, p: Position)
    requires k !in positions && p.hyper
    ensures |Hypers(positions[k := p])| == |Hypers(positions)| + 1
    ensures NonHypers(positions[k := p]) == NonHypers(positions)
  {
    assert Hypers(positions[k := p]) == Hypers(positions) + {k};
  }

  lemma AddPlain(positions: map<Key, Position>, k: Key, p: Position)
    requires k !in positions && !p.hyper
    ensures |positions[k := p]| == |positions| + 1
    ensures Hypers(positions[k := p]) == Hypers(positions)
  {
  }

  /** All positions of this kind are on this side. */
  ghost predicate OnSide(positions: map<Key, Position>, hyper: bool, side: Side) {
    forall k :: k in OfKind(positions, hyper) ==> k.side == side
  }

  /** n more positions count for this kind; those of the other kind are the same. */
  predicate Adds(before: map<Key, Position>, after: map<Key, Position>, hyper: bool, n: nat) {
    Counted(after, hyper) == Counted(before, hyper) + n && OfKind(after, !hyper) == OfKind(before, !hyper)
  }

  /** All workers are idle with empty queues, and the symbols from `top` on have no position. */
  ghost predicate Quiet(c: Limits, s: State, top: nat) {
    && |s.queues| == |s.phases| == c.workers
    && (forall w :: 0 <= w < c.workers ==> s.phases[w].Idle? && s.queues[w] == [])
    && (forall x :: x >= top ==> Absent(s.positions, x))
  }

  /** Symbols without a position before have none after, except those in `used` and from `top` on. */
  ghost predicate OnlyTouches(before: map<Key, Position>, after: map<Key, Position>, used: seq<Symbol>, top: nat) {
    forall x :: x !in used && 0 <= x < top && Absent(before, x) ==> Absent(after, x)
  }

  /** Signals that arrive one after the other fill slots, each through its own worker, as long as the limit allows. */
  lemma {:induction false} FillSerially(c: Limits, steps: seq<Step>, hyper: bool, side: Side, n: nat, top: nat) returns (steps': seq<Step>)
    requires c.workers >= 1 && Exec(c, steps).Reached? && Quiet(c, Exec(c, steps).state, top)
    requires Counted(Exec(c, steps).state.positions, hyper) + n <= Limit(c, hyper)
    ensures Exec(c, steps').Reached? && Quiet(c, Exec(c, steps').state, top + n)
    ensures var before, after := Exec(c, steps).state.positions, Exec(c, steps').state.positions;
            && Adds(before, after, hyper, n) && OnlyTouches(before, after, [], top)
            && (OnSide(before, hyper, side) ==> OnSide(after, hyper, side))
  {
    hide Exec, Route, Apply, Enabled, Absent, Counted, OfKind, OnSide;
    if n == 0 {
      steps' := steps;
    } else {
      var middle := FillSerially(c, steps, hyper, side, n - 1, top);
      var x := top + n - 1;
      var w := Route(c, x);
      var admitted := Admit(c, middle, w, Signal(x, side, hyper));
      SaveOne(c, Exec(c, admitted).state, w);
      Extend(c, admitted, Save(w));
      steps' := admitted + [Save(w)];
    }
  }

  /** Symbols that are all routed to different workers. */
  ghost predicate Racers(c: Limits, racers: seq<Symbol>)
    requires c.workers >= 1
  {
    forall i, j :: 0 <= i < j < |racers| ==> Route(c, racers[i]) != Route(c, racers[j])
  }

  /** One symbol for each of the given workers in use. */
  lemma {:induction false} PickRacers(c: Limits, ws: set<nat>) returns (racers: seq<Symbol>)
    requires c.workers >= 1 && ws <= Routes(c)
    ensures Racers(c, racers) && |racers| == |ws|
    ensures forall i :: 0 <= i < |racers| ==> Route(c, racers[i]) in ws
  {
    hide Route;
    if ws == {} {
      racers := [];
    } else {
      var w :| w in ws;
      var a: Symbol :| Route(c, a) == w;
      racers := PickRacers(c, ws - {w});
      racers := racers + [a];
    }
  }

  lemma {:induction false} AboveAll(symbols: seq<Symbol>) returns (top: nat)
    ensures forall i :: 0 <= i < |symbols| ==> symbols[i] < top
  {
    top := 0;
    if symbols != [] {
      var n := |symbols| - 1;
      top := AboveAll(symbols[..n]);
      top := if symbols[n] < top then top else symbols[n] + 1;
    }
  }

  ghost predicate Holds(c: Limits, racers: seq<Symbol>, from: nat, to: nat, w: nat)
    requires c.workers >= 1 && to <= |racers|
  {
    exists i :: from <= i < to && Route(c, racers[i]) == w
  }

  /** The racers from `from` up to `to` have passed the slot check, each in its own worker; all other workers are idle,
      and no racer from `from` on has a position. */
  ghost predicate Racing(c: Limits, s: State, racers: seq<Symbol>, hyper: bool, side: Side, from: nat, to: nat)
    requires c.workers >= 1 && to <= |racers|
  {
    && |s.queues| == |s.phases| == c.workers
    && (forall w :: 0 <= w < c.workers ==> s.queues[w] == [] && (s.phases[w].Idle? || Holds(c, racers, from, to, w)))
    && (forall i :: from <= i < to ==> && s.phases[Route(c, racers[i])].Passed?
                                       && s.phases[Route(c, racers[i])].sig == Signal(racers[i], side, hyper))
    && (forall i :: from <= i < |racers| ==> Absent(s.positions, racers[i]))
  }

  lemma {:induction false} AllPass(c: Limits, steps: seq<Step>, racers: seq<Symbol>, hyper: bool, side: Side, n: nat) returns (steps': seq<Step>)
    requires c.workers >= 1 && n <= |racers| && Racers(c, racers)
    requires Exec(c, steps).Reached? && Racing(c, Exec(c, steps).state, racers, hyper, side, 0, 0)
    requires Counted(Exec(c, steps).state.positions, hyper) < Limit(c, hyper)
    ensures Exec(c, steps').Reached? && Racing(c, Exec(c, steps').state, racers, hyper, side, 0, n)
    ensures Exec(c, steps').state.positions == Exec(c, steps).state.positions
  {
    hide Exec, Route, Absent, Counted;
    if n == 0 {
      steps' := steps;
    } else {
      var m := n - 1;
      var before := AllPass(c, steps, racers, hyper, side, m);
      var w := Route(c, racers[m]);
      var s := Exec(c, before).state;
      assert !Holds(c, racers, 0, m, w);
      steps' := Admit(c, before, w, Signal(racers[m], side, hyper));
      var s' := Exec(c, steps').state;
      PassedOne(c, s, s', racers, hyper, side, m);
    }
  }

  lemma PassedOne(c: Limits, s: State, s': State, racers: seq<Symbol>, hyper: bool, side: Side, m: nat)
    requires c.workers >= 1 && m < |racers| && Racers(c, racers) && Racing(c, s, racers, hyper, side, 0, m)
    requires s'.positions == s.positions && s'.queues == s.queues && |s'.phases| == |s.phases|
    requires var w := Route(c, racers[m]);
             && s'.phases[w].Passed? && s'.phases[w].sig == Signal(racers[m], side, hyper)
             && s'.phases == s.phases[w := s'.phases[w]]
    ensures Racing(c, s', racers, hyper, side, 0, m + 1)
  {
    hide Route, Absent;
    var v := Route(c, racers[m]);
    assert Holds(c, racers, 0, m + 1, v);
    forall w | 0 <= w < c.workers ensures s'.phases[w].Idle? || Holds(c, racers, 0, m + 1, w) {
      if w != v && !s'.phases[w].Idle? {
        assert Holds(c, racers, 0, m, w);
      }
    }
  }

  lemma SavedOne(c: Limits, s: State, s': State, racers: seq<Symbol>, hyper: bool, side: Side, m: nat)
    requires c.workers >= 1 && m < |racers| && Racers(c, racers) && Racing(c, s, racers, hyper, side, m, |racers|)
    requires s'.queues == s.queues && s'.phases == s.phases[Route(c, racers[m]) := Idle]
    requires forall x: Symbol :: x != racers[m] && Absent(s.positions, x) ==> Absent(s'.positions, x)
    ensures Racing(c, s', racers, hyper, side, m + 1, |racers|)
  {
    hide Route, Absent;
    var v := Route(c, racers[m]);
    forall i | m < i < |racers| ensures Route(c, racers[i]) != v && racers[i] != racers[m] {
    }
    forall w | 0 <= w < c.workers ensures s'.phases[w].Idle? || Holds(c, racers, m + 1, |racers|, w) {
      if w != v && !s'.phases[w].Idle? {
        assert Holds(c, racers, m, |racers|, w);
      }
    }
  }

  lemma {:induction false} AllSave(c: Limits, steps: seq<Step>, racers: seq<Symbol>, hyper: bool, side: Side, n: nat) returns (steps': seq<Step>)
    requires c.workers >= 1 && n <= |racers| && Racers(c, racers)
    requires Exec(c, steps).Reached? && Racing(c, Exec(c, steps).state, racers, hyper, side, 0, |racers|)
    ensures Exec(c, steps').Reached? && Racing(c, Exec(c, steps').state, racers, hyper, side, n, |racers|)
    ensures var before, after := Exec(c, steps).state.positions, Exec(c, steps').state.positions;
            && Adds(before, after, hyper, n)
            && (OnSide(before, hyper, side) ==> OnSide(after, hyper, side))
            && forall x: Symbol :: x !in racers && Absent(before, x) ==> Absent(after, x)
  {
    hide Exec, Route, Apply, Enabled, Absent, Counted, OfKind, OnSide, Racers;
    if n == 0 {
      steps' := steps;
    } else {
      var m := n - 1;
      var middle := AllSave(c, steps, racers, hyper, side, m);
      var s, w := Exec(c, middle).state, Route(c, racers[m]);
      SaveOne(c, s, w);
      Extend(c, middle, Save(w));
      steps' := middle + [Save(w)];
      SavedOne(c, s, Exec(c, steps').state, racers, hyper, side, m);
    }
  }

  /** From a quiet state: fill all slots of a kind but one, let all racers pass the check for the last one, then save. */
  lemma Race(c: Limits, steps: seq<Step>, racers: seq<Symbol>, hyper: bool, side: Side, top: nat) returns (steps': seq<Step>)
    requires c.workers >= 1 && Limit(c, hyper) >= 1 && Racers(c, racers)
    requires Exec(c, steps).Reached? && Quiet(c, Exec(c, steps).state, top)
    requires Counted(Exec(c, steps).state.positions, hyper) == 0
    requires forall i :: 0 <= i < |racers| ==> racers[i] < top && Absent(Exec(c, steps).state.positions, racers[i])
    ensures Exec(c, steps').Reached? && Quiet(c, Exec(c, steps').state, top + Limit(c, hyper) - 1)
    ensures var before, after := Exec(c, steps).state.positions, Exec(c, steps').state.positions;
            && Adds(before, after, hyper, Limit(c, hyper) + |racers| - 1) && OnlyTouches(before, after, racers, top)
            && (OnSide(before, hyper, side) ==> OnSide(after, hyper, side))
  {
    hide Exec, Route, Absent, Counted, OfKind, OnSide, Racers, Limit;
    var filled := FillSerially(c, steps, hyper, side, Limit(c, hyper) - 1, top);
    var passed := AllPass(c, filled, racers, hyper, side, |racers|);
    steps' := AllSave(c, passed, racers, hyper, side, |racers|);
    assert forall w :: 0 <= w < c.workers ==> !Holds(c, racers, |racers|, |racers|, w);
    assert forall x :: x >= top ==> x !in racers;
  }

  lemma CountedKinds(positions: map<Key, Position>)
    ensures |positions| == |Hypers(positions)| + |NonHypers(positions)|
  {
    assert positions.Keys == Hypers(positions) + NonHypers(positions);
  }

  lemma Start(c: Limits, top: nat)
    requires c.workers >= 1
    ensures Exec(c, []).Reached? && Quiet(c, Exec(c, []).state, top) && Exec(c, []).state.positions == map[]
  {
  }

  /** For every number of workers, every hash and every positive limit, some interleaving opens, on either side, exactly as
      many positions of a kind as the bound allows: the limit plus the workers in use minus one. */
  lemma BoundReached(c: Limits, hyper: bool, side: Side) returns (steps: seq<Step>)
    requires c.workers >= 1 && Limit(c, hyper) >= 1
    ensures Exec(c, steps).Reached?
    ensures |OfKind(Exec(c, steps).state.positions, hyper)| == Limit(c, hyper) + |Routes(c)| - 1
    ensures OnSide(Exec(c, steps).state.positions, hyper, side)
  {
    hide Exec, Route, Routes, Racers, Limit;
    var racers := PickRacers(c, Routes(c));
    var top := AboveAll(racers);
    Start(c, top);
    steps := Race(c, [], racers, hyper, side, top);
    CountedKinds(Exec(c, steps).state.positions);
  }

  /** The most positions of a kind any run can open is its limit plus the number of workers in use minus one. So the
      limit itself holds in all runs if and only if the hash routes all symbols to one worker. */
  lemma LimitHoldsIffOneRoute(c: Limits, hyper: bool)
    requires c.workers >= 1 && Limit(c, hyper) >= 1
    ensures (forall steps :: Exec(c, steps).Reached? ==> |OfKind(Exec(c, steps).state.positions, hyper)| <= Limit(c, hyper))
            <==> forall a, b :: Route(c, a) == Route(c, b)
  {
    hide Exec, Route;
    OneRouteIff(c);
    if |Routes(c)| == 1 {
      forall steps | Exec(c, steps).Reached? ensures |OfKind(Exec(c, steps).state.positions, hyper)| <= Limit(c, hyper) {
        SlotBounds(c, steps);
      }
    } else {
      RoutesWithinWorkers(c);
      var steps := BoundReached(c, hyper, Long);
      assert |OfKind(Exec(c, steps).state.positions, hyper)| > Limit(c, hyper);
    }
  }

  lemma OneRouteIff(c: Limits)
    requires c.workers >= 1
    ensures |Routes(c)| == 1 <==> forall a, b :: Route(c, a) == Route(c, b)
  {
    hide Route;
    var w := Route(c, 0);
    assert w in Routes(c);
    if forall a, b :: Route(c, a) == Route(c, b) {
      assert Routes(c) == {w};
    } else {
      var a, b :| Route(c, a) != Route(c, b);
      var two := {Route(c, a), Route(c, b)};
      assert two <= Routes(c);
      SubsetSize(two, Routes(c));
    }
  }

  // ----- Both bounds at once

  /** Some run opens the most positions of both kinds at the same time. */
  ghost predicate BothReached(c: Limits, steps: seq<Step>)
    requires c.workers >= 1
  {
    && Exec(c, steps).Reached?
    && |NonHypers(Exec(c, steps).state.positions)| == c.maxPos + |Routes(c)| - 1
    && |Hypers(Exec(c, steps).state.positions)| == c.maxHyper + |Routes(c)| - 1
  }

  /** Another symbol is routed to the same worker. */
  ghost predicate HasPeer(c: Limits, a: Symbol)
    requires c.workers >= 1
  {
    exists b: Symbol :: b != a && Route(c, b) == Route(c, a)
  }

  lemma {:induction false} PickPeers(c: Limits, racers: seq<Symbol>) returns (peers: seq<Symbol>)
    requires c.workers >= 1 && forall a :: HasPeer(c, a)
    ensures |peers| == |racers|
    ensures forall i :: 0 <= i < |racers| ==> peers[i] != racers[i] && Route(c, peers[i]) == Route(c, racers[i])
  {
    hide Route;
    peers := [];
    if racers != [] {
      var n := |racers| - 1;
      peers := PickPeers(c, racers[..n]);
      assert HasPeer(c, racers[n]);
      var b: Symbol :| b != racers[n] && Route(c, b) == Route(c, racers[n]);
      peers := peers + [b];
    }
  }

  /** Two teams of racers for all workers in use, with no symbol in common. */
  lemma PickTeams(c: Limits) returns (racers: seq<Symbol>, peers: seq<Symbol>, top: nat)
    requires c.workers >= 1 && forall a :: HasPeer(c, a)
    ensures Racers(c, racers) && Racers(c, peers) && |racers| == |peers| == |Routes(c)|
    ensures forall i :: 0 <= i < |racers| ==> racers[i] < top
    ensures forall i :: 0 <= i < |peers| ==> peers[i] < top && peers[i] !in racers
  {
    hide Route, Routes, HasPeer;
    racers := PickRacers(c, Routes(c));
    peers := PickPeers(c, racers);
    PeersRace(c, racers, peers);
    hide Racers;
    var both := racers + peers;
    top := AboveAll(both);
    assert forall i :: 0 <= i < |racers| ==> racers[i] == both[i];
    assert forall i :: 0 <= i < |peers| ==> peers[i] == both[|racers| + i];
  }

  lemma PeersReachBoth(c: Limits) returns (steps: seq<Step>)
    requires c.workers >= 1 && c.maxPos >= 1 && c.maxHyper >= 1 && forall a :: HasPeer(c, a)
    ensures BothReached(c, steps)
  {
    hide Exec, Route, Routes, HasPeer, Absent, Adds, OnSide, Hypers, NonHypers, Racers, Quiet, Counted;
    var racers, peers, top := PickTeams(c);
    Start(c, top);
    NoneOpen();
    var plain := Race(c, [], racers, false, Long, top);
    var before := Exec(c, plain).state.positions;
    AddedToNone(before, c.maxPos + |racers| - 1);
    assert forall i :: 0 <= i < |peers| ==> Absent(before, peers[i]);
    hide OnlyTouches;
    steps := Race(c, plain, peers, true, Short, top + c.maxPos - 1);
    AddedHypers(before, Exec(c, steps).state.positions, c.maxHyper + |peers| - 1);
  }

  lemma NoneOpen()
    ensures (forall x :: Absent(map[], x)) && Counted(map[], false) == 0
  {
  }

  lemma AddedToNone(after: map<Key, Position>, n: nat)
    requires Adds(map[], after, false, n)
    ensures |NonHypers(after)| == n && Counted(after, true) == 0
  {
    CountedKinds(after);
    assert Hypers(map[]) == {};
  }

  lemma AddedHypers(before: map<Key, Position>, after: map<Key, Position>, n: nat)
    requires Adds(before, after, true, n)
    ensures NonHypers(after) == NonHypers(before) && |Hypers(after)| == Counted(before, true) + n
  {
  }

  lemma PeersRace(c: Limits, racers: seq<Symbol>, peers: seq<Symbol>)
    requires c.workers >= 1 && Racers(c, racers) && |peers| == |racers|
    requires forall i :: 0 <= i < |racers| ==> peers[i] != racers[i] && Route(c, peers[i]) == Route(c, racers[i])
    ensures Racers(c, peers) && forall i :: 0 <= i < |peers| ==> peers[i] !in racers
  {
    hide Route;
    forall i, j | 0 <= i < |racers| && 0 <= j < |racers| ensures peers[i] != racers[j] {
      if i < j {
        assert Route(c, racers[i]) != Route(c, racers[j]);
      } else if j < i {
        assert Route(c, racers[j]) != Route(c, racers[i]);
      }
    }
  }

  /** A group at its bound holds a position of every worker in use. */
  lemma FullFlight(c: Limits, positions: map<Key, Position>, clock: nat, group: set<Key>, limit: int, w: nat) returns (k: Key)
    requires c.workers >= 1 && PositionsOk(c, positions, clock) && group <= positions.Keys && w in Routes(c)
    requires forall k :: k in group ==> |Older(positions, positions[k].start) * group| < limit
    requires limit >= 1 && |group| == limit + |Routes(c)| - 1
    ensures k in group && positions[k].worker == w
  {
    hide PositionsOk, Routes;
    RoutesWithinWorkers(c);
    assert group != {};
    var last := MaxStart(positions, group);
    var t := positions[last].start;
    var before := Older(positions, t) * group;
    var flying := group - before;
    assert group == before + flying;
    assert |flying| >= |Routes(c)|;
    k := SavedByWorker(c, positions, clock, flying, t, w);
  }

  lemma SavedByWorker(c: Limits, positions: map<Key, Position>, clock: nat, flying: set<Key>, t: nat, w: nat) returns (k: Key)
    requires c.workers >= 1 && PositionsOk(c, positions, clock) && flying <= positions.Keys && w in Routes(c)
    requires forall k :: k in flying ==> positions[k].start <= t <= positions[k].saved
    requires |flying| >= |Routes(c)|
    ensures k in flying && positions[k].worker == w
  {
    hide PositionsOk, Routes;
    WorkersInUse(c, positions, clock, flying);
    if w in SavedBy(positions, flying) {
      k :| k in flying && positions[k].worker == w;
    } else {
      InFlightFrom(c, positions, clock, flying, t, Routes(c) - {w});
      assert false;
    }
  }

  ghost function SavedBy(positions: map<Key, Position>, keys: set<Key>): set<nat>
    requires keys <= positions.Keys
  {
    set k | k in keys :: positions[k].worker
  }

  /** With a symbol that shares its worker with no other, both maxima would need a position on it. */
  lemma BothNeedPeers(c: Limits, steps: seq<Step>, a: Symbol)
    requires c.workers >= 1 && c.maxPos >= 1 && c.maxHyper >= 1 && BothReached(c, steps)
    ensures HasPeer(c, a)
  {
    AlwaysInv(c, steps);
    var s := Exec(c, steps).state;
    hide Exec, Route, WorkerOk;
    assert Route(c, a) in Routes(c);
    PlainAdmissions(c, s);
    var k := FullFlight(c, s.positions, s.clock, NonHypers(s.positions), c.maxPos, Route(c, a));
    HyperAdmissions(c, s);
    var l := FullFlight(c, s.positions, s.clock, Hypers(s.positions), c.maxHyper, Route(c, a));
    assert k != l;
    hide AdmissionsOk, Routes;
    assert k.symbol != l.symbol;
    assert Route(c, k.symbol) == Route(c, a) && Route(c, l.symbol) == Route(c, a);
  }

  /** One run opens the most positions of both kinds at once if and only if no symbol has a worker to itself. */
  lemma BothBoundsReachedIff(c: Limits)
    requires c.workers >= 1 && c.maxPos >= 1 && c.maxHyper >= 1
    ensures (exists steps :: BothReached(c, steps)) <==> forall a :: HasPeer(c, a)
  {
    hide BothReached, HasPeer;
    if forall a :: HasPeer(c, a) {
      var steps := PeersReachBoth(c);
    } else {
      var a :| !HasPeer(c, a);
      forall steps ensures !BothReached(c, steps) {
        if BothReached(c, steps) {
          BothNeedPeers(c, steps, a);
          assert false;
        }
      }
    }
  }
}
