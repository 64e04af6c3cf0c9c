/** The frame rate over whole runs of load samples and limit changes. */
module AnimationRuns {
  import opened Settings
  import opened Animation

  datatype Op = Sample(load: real) | Limit(limit: FpsLimit)

  function Step(c: Controller, op: Op): Controller {
    match op
    case Sample(load) => Update(c, load)
    case Limit(limit) => SetLimit(c, limit)
  }

  function Run(c: Controller, ops: seq<Op>): Controller
    decreases |ops|
  {
    if ops == [] then c else Step(Run(c, ops[..|ops| - 1]), ops[|ops| - 1])
  }

  /** After any run the rate is a table band within the limit then in force. */
  lemma {:induction false} RateIsABand(limit: FpsLimit, ops: seq<Op>)
    ensures InBands(Run(Controller(limit, MINIMUM_FPS, 0.0), ops))
    decreases |ops|
  {
    hide Update, SetLimit;
    if ops != [] {
      var before := Run(Controller(limit, MINIMUM_FPS, 0.0), ops[..|ops| - 1]);
      RateIsABand(limit, ops[..|ops| - 1]);
      match ops[|ops| - 1] {
        case Sample(load) => StepKeepsBands(before, load, limit);
        case Limit(l) => StepKeepsBands(before, 0.0, l);
      }
    }
  }

  // ---- hysteresis ----------------------------------------------------------------

  /** One rate change, and the load that caused it. */
  datatype Move = Move(load: real, from: nat, to: nat)

  function After(c: Controller, loads: seq<real>): Controller
    decreases |loads|
  {
    if loads == [] then c else Update(After(c, loads[..|loads| - 1]), loads[|loads| - 1])
  }

  /** The rate changes of a run of samples, in order. */
  function Moves(c: Controller, loads: seq<real>): seq<Move>
    decreases |loads|
  {
    if loads == [] then []
    else
      var n := |loads| - 1;
      var (from, to) := (After(c, loads[..n]).current, After(c, loads).current);
      Moves(c, loads[..n]) + if from == to then [] else [Move(loads[n], from, to)]
  }

  predicate Up(m: Move) {
    m.to > m.from
  }

  /** Why a change was made: a rise needs two points above the new band's minimum, a
      fall two points below the old one's, and a fall lands in the band of its load. */
  predicate Justified(m: Move, limit: FpsLimit) {
    && m.from in {5, 10, 15, 20, 30, 40} && m.to in {5, 10, 15, 20, 30, 40} && m.from != m.to
    && m.to <= Fps(limit)
    && (Up(m) ==> m.load >= MinimumLoad(m.to) + HYSTERESIS_PERCENT)
    && (!Up(m) ==>
          && m.load < MinimumLoad(m.from) - HYSTERESIS_PERCENT
          && forall e: nat :: e in {10, 15, 20, 30, 40} && m.to < e <= Fps(limit) ==> m.load < MinimumLoad(e))
  }

  lemma UpdateJustified(c: Controller, load: real)
    requires InBands(c)
    ensures InBands(Update(c, load)) && Update(c, load).limit == c.limit
    ensures Update(c, load).current != c.current ==>
              Justified(Move(load, c.current, Update(c, load).current), c.limit)
  {
    StepKeepsBands(c, load, c.limit);
    DesiredIs(load, c.limit);
    ThresholdIs(DesiredFps(load, c.limit));
    ThresholdIs(c.current);
    hide DesiredFps, BandThreshold;
  }

  lemma {:induction false} MovesJustified(c: Controller, loads: seq<real>)
    requires InBands(c)
    ensures InBands(After(c, loads)) && After(c, loads).limit == c.limit
    ensures forall i :: 0 <= i < |Moves(c, loads)| ==>
              Justified(Moves(c, loads)[i], c.limit) && Moves(c, loads)[i].load in loads
    ensures forall i :: 0 < i < |Moves(c, loads)| ==> Moves(c, loads)[i].from == Moves(c, loads)[i - 1].to
    ensures Moves(c, loads) != [] ==> Moves(c, loads)[|Moves(c, loads)| - 1].to == After(c, loads).current
    ensures Moves(c, loads) == [] ==> After(c, loads).current == c.current
    decreases |loads|
  {
    hide Update, Justified, InBands;
    if loads != [] {
      var n := |loads| - 1;
      MovesJustified(c, loads[..n]);
      UpdateJustified(After(c, loads[..n]), loads[n]);
      assert forall x :: x in loads[..n] ==> x in loads;
    }
  }

  /** A fall after a rise comes more than four points lower; a rise after a fall more
      than two points higher. */
  lemma OppositeApart(first: Move, second: Move, limit: FpsLimit)
    requires Justified(first, limit) && Justified(second, limit) && second.from == first.to
    ensures Up(first) && !Up(second) ==> first.load - second.load > 2.0 * HYSTERESIS_PERCENT
    ensures !Up(first) && Up(second) ==> second.load - first.load > HYSTERESIS_PERCENT
  {
    if !Up(first) && Up(second) {
      assert first.load < MinimumLoad(second.to);
    }
  }

  /** Between limit changes, two changes in a row in opposite directions happen at
      loads more than two points apart. */
  lemma OppositeChangesApart(c: Controller, loads: seq<real>, i: nat)
    requires InBands(c) && 0 < i < |Moves(c, loads)| && Up(Moves(c, loads)[i - 1]) != Up(Moves(c, loads)[i])
    ensures var d := Moves(c, loads)[i - 1].load - Moves(c, loads)[i].load;
      if Up(Moves(c, loads)[i - 1]) then d > 2.0 * HYSTERESIS_PERCENT else -d > HYSTERESIS_PERCENT
  {
    hide Moves, Justified, Up;
    MovesJustified(c, loads);
    OppositeApart(Moves(c, loads)[i - 1], Moves(c, loads)[i], c.limit);
  }

  /** A load wandering within two points moves the rate in one direction only. */
  lemma {:induction false} WanderingLoadSettles(c: Controller, loads: seq<real>, low: real, i: nat, j: nat)
    requires InBands(c) && forall x :: x in loads ==> low <= x <= low + HYSTERESIS_PERCENT
    requires i <= j < |Moves(c, loads)|
    ensures Up(Moves(c, loads)[i]) == Up(Moves(c, loads)[j])
    decreases j
  {
    hide Moves, Up, InBands, Justified;
    if i < j {
      WanderingLoadSettles(c, loads, low, i, j - 1);
      MovesJustified(c, loads);
      if Up(Moves(c, loads)[j - 1]) != Up(Moves(c, loads)[j]) {
        OppositeChangesApart(c, loads, j);
      }
    }
  }

  /** A sample leaves the rate off its band exactly within the margin of the jump it
      would take; the intermediate bands of a large jump are not tried. */
  lemma HeldExactly(c: Controller, load: real)
    requires InBands(c)
    ensures var (now, wanted) := (Update(c, load).current, DesiredFps(load, c.limit));
      now != wanted <==>
      (wanted > c.current && load < MinimumLoad(wanted) + HYSTERESIS_PERCENT)
      || (wanted < c.current && load >= MinimumLoad(c.current) - HYSTERESIS_PERCENT)
  {
    DesiredIs(load, c.limit);
    ThresholdIs(DesiredFps(load, c.limit));
    ThresholdIs(c.current);
    hide DesiredFps, BandThreshold;
  }

  /** So a full load that reaches 91 at once stays at the lowest rate. */
  lemma LargeJumpHeld()
    ensures Update(Controller(Fps40, 5, 0.0), 91.0).current == 5
    ensures Update(Update(Controller(Fps40, 5, 0.0), 89.0), 91.0).current == 30
  {
    DesiredIs(91.0, Fps40);
    DesiredIs(89.0, Fps40);
    ThresholdIs(40);
    ThresholdIs(30);
    hide DesiredFps, BandThreshold;
    assert MinimumLoad(40) == 90.0 && MinimumLoad(30) == 75.0;
    assert DesiredFps(91.0, Fps40) == 40;
    assert DesiredFps(89.0, Fps40) == 30;
  }
}
