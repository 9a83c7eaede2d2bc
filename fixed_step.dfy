/** The fixed-timestep arithmetic of the game loop: how many 10 ms steps an
    accumulated amount of time pays for, what is left over, and the
    interpolation fraction computed from the leftover. */
module FixedStep {

  /** The simulation step, in milliseconds. */
  const TimeStep: real := 10.0

  /** The number of times `while (accumulator >= timeStep)` runs its body
      when it starts from `acc`: none when `acc` is below one step, and
      otherwise every whole step `acc` holds. */
  function StepsDue(acc: real): (n: nat)
    ensures acc < TimeStep <==> n == 0
    ensures acc - n as real * TimeStep < TimeStep
    ensures n > 0 ==> acc - n as real * TimeStep >= 0.0
  {
    if acc < TimeStep then 0 else (acc / TimeStep).Floor
  }

  /** A count of steps that leaves between nothing and less than one step
      of `acc` over is the count the drain runs. */
  lemma StepsDueUnique(acc: real, n: nat)
    requires 0.0 <= acc - n as real * TimeStep < TimeStep
    ensures StepsDue(acc) == n
  {
  }

  /** If `n` whole steps fit in the accumulator, the drain runs at least
      `n` of them. */
  lemma StepsDueAtLeast(acc: real, n: nat)
    requires n > 0 && n as real * TimeStep <= acc
    ensures n <= StepsDue(acc)
  {
  }

  /** The interpolation fraction: the leftover time as a share of a step. */
  function Alpha(acc: real): (alpha: real)
    ensures alpha * TimeStep == acc
    ensures 0.0 <= acc < TimeStep ==> 0.0 <= alpha < 1.0
  {
    acc / TimeStep
  }

  /** The accumulator after one iteration that adds `frameTime` to `acc` and
      then drains it. */
  function Leftover(acc: real, frameTime: real): real
  {
    acc + frameTime - StepsDue(acc + frameTime) as real * TimeStep
  }

  /** Starting in `[0, TimeStep)`, an iteration whose clock did not go back
      ends in `[0, TimeStep)` again. */
  lemma LeftoverBound(acc: real, frameTime: real)
    requires 0.0 <= acc < TimeStep && frameTime >= 0.0
    ensures 0.0 <= Leftover(acc, frameTime) < TimeStep
  {
  }

  /** An iteration with no elapsed time runs no step and keeps the leftover. */
  lemma ZeroFrameTime(acc: real)
    requires acc < TimeStep
    ensures StepsDue(acc + 0.0) == 0 && Leftover(acc, 0.0) == acc
  {
  }

  /** The steps run over a whole sequence of iterations, one frame time per
      iteration, starting with accumulator `acc`. */
  function TotalSteps(acc: real, frameTimes: seq<real>): nat
    decreases frameTimes
  {
    if frameTimes == [] then 0
    else StepsDue(acc + frameTimes[0]) + TotalSteps(Leftover(acc, frameTimes[0]), frameTimes[1..])
  }

  /** The accumulator after a whole sequence of iterations. */
  function FinalLeftover(acc: real, frameTimes: seq<real>): real
    decreases frameTimes
  {
    if frameTimes == [] then acc
    else FinalLeftover(Leftover(acc, frameTimes[0]), frameTimes[1..])
  }

  /** One more iteration at the end of a sequence: it runs the steps due on
      the leftover so far plus its frame time, and leaves their leftover. */
  lemma {:induction false} TotalStepsSnoc(acc: real, frameTimes: seq<real>, t: real)
    ensures TotalSteps(acc, frameTimes + [t])
         == TotalSteps(acc, frameTimes) + StepsDue(FinalLeftover(acc, frameTimes) + t)
    ensures FinalLeftover(acc, frameTimes + [t]) == Leftover(FinalLeftover(acc, frameTimes), t)
    decreases frameTimes
  {
    if frameTimes == [] {
      assert [] + [t] == [t];
      assert [t][1..] == [];
    } else {
      var rest := frameTimes + [t];
      assert rest[0] == frameTimes[0];
      assert rest[1..] == frameTimes[1..] + [t];
      TotalStepsSnoc(Leftover(acc, frameTimes[0]), frameTimes[1..], t);
    }
  }

  /** The sum of the frame times. */
  function Sum(frameTimes: seq<real>): real
  {
    if frameTimes == [] then 0.0 else frameTimes[0] + Sum(frameTimes[1..])
  }

  /** No time is lost or invented: the steps run plus the leftover are the
      starting leftover plus all elapsed time. */
  lemma {:induction false} Conservation(acc: real, frameTimes: seq<real>)
    ensures TotalSteps(acc, frameTimes) as real * TimeStep + FinalLeftover(acc, frameTimes)
         == acc + Sum(frameTimes)
    decreases frameTimes
  {
    if frameTimes != [] {
      Conservation(Leftover(acc, frameTimes[0]), frameTimes[1..]);
    }
  }

  /** With a clock that never goes back, the leftover stays in
      `[0, TimeStep)` across any number of iterations. */
  lemma {:induction false} FinalLeftoverBound(acc: real, frameTimes: seq<real>)
    requires 0.0 <= acc < TimeStep
    requires forall i :: 0 <= i < |frameTimes| ==> frameTimes[i] >= 0.0
    ensures 0.0 <= FinalLeftover(acc, frameTimes) < TimeStep
    decreases frameTimes
  {
    if frameTimes != [] {
      LeftoverBound(acc, frameTimes[0]);
      FinalLeftoverBound(Leftover(acc, frameTimes[0]), frameTimes[1..]);
    }
  }

  /** Starting from an empty accumulator with a clock that never goes back,
      the steps run over all iterations are the whole steps in the total
      elapsed time, however that time was split into frames. */
  lemma TotalStepsFromZero(frameTimes: seq<real>)
    requires forall i :: 0 <= i < |frameTimes| ==> frameTimes[i] >= 0.0
    ensures TotalSteps(0.0, frameTimes) == StepsDue(Sum(frameTimes))
  {
    Conservation(0.0, frameTimes);
    FinalLeftoverBound(0.0, frameTimes);
    StepsDueUnique(Sum(frameTimes), TotalSteps(0.0, frameTimes));
  }
}
