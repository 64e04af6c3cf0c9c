/** The frame-rate controller: bands, limit and hysteresis. Loads are reals. */
module Animation {
  import opened Wrappers
  import opened Settings

  const MINIMUM_FPS: nat := 5
  const HYSTERESIS_PERCENT: real := 2.0

  datatype Band = Band(fps: nat, minimumLoad: real)

  const SPEED_BANDS: seq<Band> :=
    [Band(5, 0.0), Band(10, 10.0), Band(15, 30.0), Band(20, 55.0), Band(30, 75.0), Band(40, 90.0)]

  function Fps(limit: FpsLimit): nat {
    match limit
    case Fps10 => 10
    case Fps20 => 20
    case Fps30 => 30
    case Fps40 => 40
  }

  /** The last band, of those up to the limit, whose minimum the load reaches. */
  function LastReached(bands: seq<Band>, load: real, limit: FpsLimit, best: nat): nat
    decreases |bands|
  {
    if bands == [] || bands[0].fps > Fps(limit) then best
    else LastReached(bands[1..], load, limit, if load >= bands[0].minimumLoad then bands[0].fps else best)
  }

  function DesiredFps(load: real, limit: FpsLimit): nat {
    LastReached(SPEED_BANDS, load, limit, MINIMUM_FPS)
  }

  function BandThreshold(bands: seq<Band>, fps: nat): real
    decreases |bands|
  {
    if bands == [] then 0.0 else if bands[0].fps == fps then bands[0].minimumLoad else BandThreshold(bands[1..], fps)
  }

  function TransitionThreshold(current: nat, desired: nat): real {
    if desired > current then BandThreshold(SPEED_BANDS, desired) + HYSTERESIS_PERCENT
    else
      var lowered := BandThreshold(SPEED_BANDS, current) - HYSTERESIS_PERCENT;
      if lowered < 0.0 then 0.0 else lowered
  }

  datatype Controller = Controller(limit: FpsLimit, current: nat, latestLoad: real)

  function Update(c: Controller, load: real): Controller {
    var desired := DesiredFps(load, c.limit);
    var threshold := TransitionThreshold(c.current, desired);
    var change := if desired > c.current then load >= threshold else load < threshold;
    Controller(c.limit, if desired != c.current && change then desired else c.current, load)
  }

  function SetLimit(c: Controller, limit: FpsLimit): Controller {
    if c.limit == limit then c
    else
      var d := c.(limit := limit);
      var desired := DesiredFps(c.latestLoad, limit);
      if desired >= c.current then Update(d, c.latestLoad) else d.(current := desired)
  }

  datatype RateChange = RateChange(fps: nat, intervalMs: nat)

  /** What a step asks of the timer. */
  function Requested(before: Controller, after: Controller): Option<RateChange> {
    if before.current == after.current || after.current == 0 then None
    else Some(RateChange(after.current, 1_000 / after.current))
  }

  class AnimationController {
    var limit: FpsLimit
    var currentFps: nat
    var latestLoad: real

    constructor (limit: FpsLimit)
      ensures Value() == Controller(limit, MINIMUM_FPS, 0.0)
    {
      this.limit, currentFps, latestLoad := limit, MINIMUM_FPS, 0.0;
    }

    function Value(): Controller
      reads this
    {
      Controller(limit, currentFps, latestLoad)
    }

    method UpdateLoad(load: real) returns (change: Option<RateChange>)
      requires InBands(Value())
      modifies this
      ensures Value() == Update(old(Value()), load) && change == Requested(old(Value()), Value())
      ensures InBands(Value())
    {
      StepKeepsBands(Value(), load, limit);
      latestLoad := load;
      var desired := DesiredFps(load, limit);
      if desired == currentFps {
        return None;
      }
      var threshold := TransitionThreshold(currentFps, desired);
      var shouldChange := if desired > currentFps then load >= threshold else load < threshold;
      if !shouldChange {
        return None;
      }
      currentFps := desired;
      return Some(RateChange(desired, 1_000 / desired));
    }

    method ChangeLimit(newLimit: FpsLimit) returns (change: Option<RateChange>)
      requires InBands(Value())
      modifies this
      ensures Value() == SetLimit(old(Value()), newLimit) && change == Requested(old(Value()), Value())
      ensures InBands(Value())
    {
      StepKeepsBands(Value(), latestLoad, newLimit);
      if limit == newLimit {
        return None;
      }
      DesiredIs(latestLoad, newLimit);
      DesiredIs(latestLoad, limit);
      limit := newLimit;
      var desired := DesiredFps(latestLoad, newLimit);
      if desired >= currentFps {
        assert InBands(Value());
        change := UpdateLoad(latestLoad);
        return;
      }
      currentFps := desired;
      return Some(RateChange(desired, 1_000 / desired));
    }
  }

  // ---- the bands -----------------------------------------------------------------

  /** The minimum load of a rate. */
  function MinimumLoad(fps: nat): real {
    if fps == 10 then 10.0 else if fps == 15 then 30.0 else if fps == 20 then 55.0
    else if fps == 30 then 75.0 else if fps == 40 then 90.0 else 0.0
  }

  /** The rate is a table band within the limit. */
  predicate InBands(c: Controller) {
    c.current in {5, 10, 15, 20, 30, 40} && c.current <= Fps(c.limit)
  }

  lemma ThresholdIs(fps: nat)
    ensures BandThreshold(SPEED_BANDS, fps) == MinimumLoad(fps)
  {
    var b := SPEED_BANDS;
    assert b[1..][1..] == b[2..] && b[2..][1..] == b[3..] && b[3..][1..] == b[4..] && b[4..][1..] == b[5..] && b[5..][1..] == [];
    assert BandThreshold(b[5..], fps) == if fps == 40 then 90.0 else 0.0;
    assert BandThreshold(b[3..], fps) == if fps == 20 then 55.0 else BandThreshold(b[4..], fps);
    assert BandThreshold(b[1..], fps) == if fps == 10 then 10.0 else BandThreshold(b[2..], fps);
  }

  /** The desired rate is the greatest band within the limit that the load reaches. */
  lemma DesiredIs(load: real, limit: FpsLimit)
    ensures var d := DesiredFps(load, limit);
      && d in {5, 10, 15, 20, 30, 40} && d <= Fps(limit)
      && (d > 5 ==> load >= MinimumLoad(d))
      && forall e: nat :: e in {10, 15, 20, 30, 40} && d < e <= Fps(limit) ==> load < MinimumLoad(e)
  {
    var b := SPEED_BANDS;
    assert b[1..][1..] == b[2..] && b[2..][1..] == b[3..] && b[3..][1..] == b[4..] && b[4..][1..] == b[5..] && b[5..][1..] == [];
    hide LastReached;
    ReachedStep(b, 1, load, limit);
    ReachedStep(b, 2, load, limit);
    ReachedStep(b, 3, load, limit);
    ReachedStep(b, 4, load, limit);
    ReachedStep(b, 5, load, limit);
    ReachedStep(b, 0, load, limit);
  }

  lemma ReachedStep(b: seq<Band>, i: nat, load: real, limit: FpsLimit)
    requires i < |b|
    ensures forall best: nat :: LastReached(b[i..], load, limit, best) ==
                           if b[i].fps > Fps(limit) then best
                           else LastReached(b[i + 1..], load, limit, if load >= b[i].minimumLoad then b[i].fps else best)
    ensures forall best: nat :: LastReached(b[|b|..], load, limit, best) == best
  {
    assert b[i..][1..] == b[i + 1..] && b[i..][0] == b[i];
  }

  lemma StepKeepsBands(c: Controller, load: real, limit: FpsLimit)
    requires InBands(c)
    ensures InBands(Update(c, load)) && InBands(SetLimit(c, limit))
  {
    DesiredIs(load, c.limit);
    DesiredIs(c.latestLoad, limit);
  }
}
