/**
 * TimeSource.cc: a clock advanced by frame deltas, scaled by a time factor and gated by a nested pause
 * counter. Floats are modelled as reals.
 */
module Time {
  /** The state of a time source. */
  datatype Clock = Clock(pauseCounter: nat, deltaTime: real, timeFactor: real, totalTime: real)

  /** A new source: running, no delta yet, unit factor, zero total. */
  const NewClock := Clock(0, 0.0, 1.0, 0.0)

  function Paused(c: Clock): Clock {
    c.(pauseCounter := c.pauseCounter + 1)
  }

  function Played(c: Clock): Clock
    requires c.pauseCounter > 0
  {
    c.(pauseCounter := c.pauseCounter - 1)
  }

  function ResetTotal(c: Clock): Clock {
    c.(totalTime := 0.0)
  }

  /** One Update(dt): a running source takes dt scaled by the factor, a paused one a zero delta. */
  function Updated(c: Clock, dt: real): (r: Clock)
    ensures r.pauseCounter == c.pauseCounter && r.timeFactor == c.timeFactor
    ensures c.pauseCounter == 0 ==> r.deltaTime == dt * c.timeFactor && r.totalTime == c.totalTime + dt * c.timeFactor
    ensures c.pauseCounter > 0 ==> r.deltaTime == 0.0 && r.totalTime == c.totalTime
  {
    var delta := if c.pauseCounter == 0 then dt * c.timeFactor else 0.0;
    c.(deltaTime := delta, totalTime := c.totalTime + delta)
  }

  /** A run of frames, one Update per delta, oldest first. */
  function UpdatedAll(c: Clock, dts: seq<real>): Clock
    decreases |dts|
  {
    if dts == [] then c else UpdatedAll(Updated(c, dts[0]), dts[1..])
  }

  function Sum(dts: seq<real>): real
    decreases |dts|
  {
    if dts == [] then 0.0 else dts[0] + Sum(dts[1..])
  }

  /** Pausing and then playing leaves the source as it was, however deeply it was already paused. */
  lemma PlayedPaused(c: Clock)
    ensures Played(Paused(c)) == c
  {
  }

  /** Over a run of frames a running source accumulates the scaled sum of the deltas, and a paused
      one accumulates nothing; neither the counter nor the factor changes. */
  lemma {:induction false} UpdatedAllTotal(c: Clock, dts: seq<real>)
    ensures UpdatedAll(c, dts).pauseCounter == c.pauseCounter
    ensures UpdatedAll(c, dts).timeFactor == c.timeFactor
    ensures c.pauseCounter == 0 ==> UpdatedAll(c, dts).totalTime == c.totalTime + Sum(dts) * c.timeFactor
    ensures c.pauseCounter > 0 ==> UpdatedAll(c, dts).totalTime == c.totalTime
    decreases |dts|
  {
    if dts != [] {
      UpdatedAllTotal(Updated(c, dts[0]), dts[1..]);
    }
  }

  /** Reset touches only the total, so time measured from a reset is what the updates after it add. */
  lemma ResetThenRun(c: Clock, dts: seq<real>)
    requires c.pauseCounter == 0
    ensures ResetTotal(c).pauseCounter == c.pauseCounter && ResetTotal(c).timeFactor == c.timeFactor
    ensures ResetTotal(c).deltaTime == c.deltaTime
    ensures UpdatedAll(ResetTotal(c), dts).totalTime == Sum(dts) * c.timeFactor
  {
    UpdatedAllTotal(ResetTotal(c), dts);
  }

  class TimeSource {
    var pauseCounter: nat
    var deltaTime: real
    var timeFactor: real
    var totalTime: real

    function Data(): Clock
      reads this
    {
      Clock(pauseCounter, deltaTime, timeFactor, totalTime)
    }

    constructor ()
      ensures Data() == NewClock
    {
      pauseCounter, deltaTime, timeFactor, totalTime := 0, 0.0, 1.0, 0.0;
    }

    /** Leave one level of pause; the source must be paused. */
    method Play()
      requires pauseCounter > 0
      modifies this`pauseCounter
      ensures Data() == Played(old(Data()))
    {
      pauseCounter := pauseCounter - 1;
    }

    method Pause()
      modifies this`pauseCounter
      ensures Data() == Paused(old(Data()))
    {
      pauseCounter := pauseCounter + 1;
    }

    method Reset()
      modifies this`totalTime
      ensures Data() == ResetTotal(old(Data()))
    {
      totalTime := 0.0;
    }

    method Update(dt: real)
      modifies this`deltaTime, this`totalTime
      ensures Data() == Updated(old(Data()), dt)
    {
      deltaTime := if 0 == pauseCounter then dt * timeFactor else 0.0;
      totalTime := totalTime + deltaTime;
    }
  }
}
