/**
 * The spin scheduler of the wheel script: the module-level state that spin,
 * rotateWheel and stopRotateWheel share, as a class. The script re-arms a
 * 30 ms timer after every frame; here each timer firing is a call of Tick,
 * and Animate is the chain of firings up to the stop. Rotation is in degrees.
 */
module Scheduler {
  import opened Wrappers
  import opened Easing
  import opened Segments
  import opened Resolver

  /** Milliseconds added to the spin time by every frame. */
  const TickInterval: int := 30

  /** The angle one frame turns the wheel by at spin time `time` (the script's spinAngle). */
  function Increment(angleStart: real, time: real, total: real): real
    requires total > 0.0
  {
    angleStart - EaseOut(time, 0.0, angleStart, total)
  }

  /** Within the spin duration a frame never turns the wheel backwards, nor by more than the starting speed. */
  lemma IncrementBounds(angleStart: real, time: real, total: real)
    requires angleStart >= 0.0 && total > 0.0 && 0.0 <= time <= total
    ensures 0.0 <= Increment(angleStart, time, total) <= angleStart
  {
    EaseOutBounded(time, 0.0, angleStart, total);
  }

  /** The wheel slows down: a later frame turns it no more than an earlier one. */
  lemma IncrementDecelerates(angleStart: real, t1: real, t2: real, total: real)
    requires angleStart >= 0.0 && total > 0.0 && 0.0 <= t1 <= t2 <= total
    ensures Increment(angleStart, t2, total) <= Increment(angleStart, t1, total)
  {
    EaseOutMonotone(t1, t2, 0.0, angleStart, total);
  }

  /** At the end of the duration the speed is zero. */
  lemma IncrementVanishesAtEnd(angleStart: real, total: real)
    requires total > 0.0
    ensures Increment(angleStart, total, total) == 0.0
  {
    EaseOutEndpoints(0.0, angleStart, total);
  }

  /** The number of frames, from spin time `time` on, up to and including the stopping one. */
  function TicksToStop(time: int, total: real): (k: nat)
    ensures k >= 1
    decreases total.Floor - time
  {
    var next := time + TickInterval;
    if next as real >= total then 1 else 1 + TicksToStop(next, total)
  }

  /** The spin stops on the first frame whose spin time reaches the total. */
  lemma {:induction false} TicksToStopIsFirstReach(time: int, total: real)
    requires (time as real) < total
    ensures (time + TickInterval * TicksToStop(time, total)) as real >= total
    ensures (time + TickInterval * (TicksToStop(time, total) - 1)) as real < total
    decreases total.Floor - time
  {
    var next := time + TickInterval;
    if next as real < total {
      TicksToStopIsFirstReach(next, total);
    }
  }

  /** A whole spin, counting the frame spin() runs itself, lasts between 134 and 234 frames. */
  lemma SpinFrameCount(total: real)
    requires 4000.0 <= total < 7000.0
    ensures 134 <= TicksToStop(0, total) <= 234
  {
    TicksToStopIsFirstReach(0, total);
  }

  /** The rotation still to come, from spin time `time`, until the spin stops. */
  function Remaining(angleStart: real, total: real, time: int): real
    requires total > 0.0
    decreases total.Floor - time
  {
    var next := time + TickInterval;
    if next as real >= total then 0.0
    else Increment(angleStart, next as real, total) + Remaining(angleStart, total, next)
  }

  lemma {:induction false} RemainingNonNegative(angleStart: real, total: real, time: int)
    requires angleStart >= 0.0 && total > 0.0 && time >= 0
    ensures Remaining(angleStart, total, time) >= 0.0
    decreases total.Floor - time
  {
    var next := time + TickInterval;
    if (next as real) < total {
      IncrementBounds(angleStart, next as real, total);
      RemainingNonNegative(angleStart, total, next);
    }
  }

  /** How one frame ended: the wheel turns on, or it stopped with this winner. */
  datatype TickOutcome = Rolling | Stopped(winner: Option<string>)

  class Wheel {
    var isSpinning: bool
    var spinTime: int
    var spinTimeTotal: real
    var spinAngleStart: real
    var currentRotation: real
    var wheelNames: seq<NameColor>

    /** While a spin runs, its parameters are in the ranges spin() draws them from and it has not ended. */
    ghost predicate Valid()
      reads this
    {
      && spinTime >= 0
      && (isSpinning ==>
            && 10.0 <= spinAngleStart < 20.0
            && 4000.0 <= spinTimeTotal < 7000.0
            && (spinTime as real) < spinTimeTotal)
    }

    /** The script's initial values. */
    constructor ()
      ensures Valid() && !isSpinning
      ensures spinTime == 0 && spinTimeTotal == 0.0 && spinAngleStart == 0.0
      ensures currentRotation == 0.0 && wheelNames == []
    {
      isSpinning := false;
      spinTime := 0;
      spinTimeTotal := 0.0;
      spinAngleStart := 0.0;
      currentRotation := 0.0;
      wheelNames := [];
    }

    /** setWheelNames: replace the names on the wheel. */
    method SetWheelNames(names: seq<NameColor>)
      modifies this`wheelNames
      ensures wheelNames == names
    {
      wheelNames := names;
    }

    /**
     * spin(): ignored while a spin runs; otherwise draws the starting speed and
     * the duration from the random numbers `angleDraw` and `timeDraw` in [0, 1),
     * and runs the first frame at once.
     */
    method Spin(angleDraw: real, timeDraw: real)
      requires Valid()
      requires 0.0 <= angleDraw < 1.0 && 0.0 <= timeDraw < 1.0
      modifies this
      ensures Valid()
      ensures old(isSpinning) ==> unchanged(this)
      ensures !old(isSpinning) ==>
        && isSpinning
        && spinAngleStart == angleDraw * 10.0 + 10.0
        && spinTimeTotal == timeDraw * 3000.0 + 4000.0
        && 10.0 <= spinAngleStart < 20.0 && 4000.0 <= spinTimeTotal < 7000.0
        && spinTime == TickInterval
        && currentRotation == old(currentRotation) + Increment(spinAngleStart, TickInterval as real, spinTimeTotal)
        && currentRotation >= old(currentRotation)
        && wheelNames == old(wheelNames)
    {
      if isSpinning {
        return;
      }
      isSpinning := true;
      spinAngleStart := angleDraw * 10.0 + 10.0;
      spinTime := 0;
      spinTimeTotal := timeDraw * 3000.0 + 4000.0;
      var _ := Tick();
    }

    /**
     * rotateWheel(): one frame. The spin time advances by one interval; once it
     * reaches the total the wheel stops, otherwise it turns by the eased speed.
     */
    method Tick() returns (outcome: TickOutcome)
      requires Valid() && isSpinning
      modifies this
      ensures Valid()
      ensures spinTime == old(spinTime) + TickInterval
      ensures spinAngleStart == old(spinAngleStart) && spinTimeTotal == old(spinTimeTotal)
      ensures wheelNames == old(wheelNames)
      ensures currentRotation >= old(currentRotation)
      ensures (spinTime as real) >= spinTimeTotal ==>
        && !isSpinning
        && currentRotation == old(currentRotation)
        && outcome == Stopped(Winner(wheelNames, currentRotation))
      ensures (spinTime as real) < spinTimeTotal ==>
        && isSpinning
        && currentRotation == old(currentRotation) + Increment(spinAngleStart, spinTime as real, spinTimeTotal)
        && outcome == Rolling
    {
      spinTime := spinTime + TickInterval;
      if spinTime as real >= spinTimeTotal {
        var winner := Stop();
        outcome := Stopped(winner);
        return;
      }
      var spinAngle := Increment(spinAngleStart, spinTime as real, spinTimeTotal);
      IncrementBounds(spinAngleStart, spinTime as real, spinTimeTotal);
      currentRotation := currentRotation + spinAngle;
      outcome := Rolling;
    }

    /** stopRotateWheel(): end the spin and name the winner that the resolver gives. */
    method Stop() returns (winner: Option<string>)
      requires spinTime >= 0
      modifies this`isSpinning
      ensures Valid() && !isSpinning
      ensures winner == Winner(wheelNames, currentRotation)
    {
      isSpinning := false;
      winner := Winner(wheelNames, currentRotation);
    }

    /**
     * The timer chain of a running spin: frames until the stop. It ends after
     * exactly TicksToStop frames, having turned the wheel by Remaining.
     */
    method Animate() returns (winner: Option<string>)
      requires Valid() && isSpinning
      modifies this
      ensures Valid() && !isSpinning
      ensures spinAngleStart == old(spinAngleStart) && spinTimeTotal == old(spinTimeTotal)
      ensures wheelNames == old(wheelNames)
      ensures spinTime == old(spinTime) + TickInterval * TicksToStop(old(spinTime), old(spinTimeTotal))
      ensures currentRotation == old(currentRotation) + Remaining(old(spinAngleStart), old(spinTimeTotal), old(spinTime))
      ensures currentRotation >= old(currentRotation)
      ensures winner == Winner(wheelNames, currentRotation)
    {
      ghost var time0, rotation0 := spinTime, currentRotation;
      ghost var ticks0 := TicksToStop(time0, spinTimeTotal);
      ghost var remaining0 := Remaining(spinAngleStart, spinTimeTotal, time0);
      RemainingNonNegative(spinAngleStart, spinTimeTotal, time0);
      winner := None;
      while isSpinning
        invariant Valid()
        invariant spinAngleStart == old(spinAngleStart) && spinTimeTotal == old(spinTimeTotal)
        invariant wheelNames == old(wheelNames)
        invariant isSpinning ==>
          && spinTime + TickInterval * TicksToStop(spinTime, spinTimeTotal) == time0 + TickInterval * ticks0
          && currentRotation + Remaining(spinAngleStart, spinTimeTotal, spinTime) == rotation0 + remaining0
        invariant !isSpinning ==>
          && spinTime == time0 + TickInterval * ticks0
          && currentRotation == rotation0 + remaining0
          && winner == Winner(wheelNames, currentRotation)
        decreases if isSpinning then TicksToStop(spinTime, spinTimeTotal) else 0
      {
        var outcome := Tick();
        if outcome.Stopped? {
          winner := outcome.winner;
        }
      }
    }
  }
}
