/** The line-following PID controller (`follow_line` in Obstacles.py). The gains
    are set once by the robot's constructor and never changed; the controller
    carries the error integral and the previous error from tick to tick. */
module Pid {

  const Kp: real := 0.5
  const Ki: real := 0.01
  const Kd: real := 0.2

  /** What the controller remembers between ticks. */
  datatype Memory = Memory(integral: real, previousError: real)

  /** The memory of a freshly constructed robot. */
  const Fresh: Memory := Memory(0.0, 0.0)

  /** One controller step: the memory afterwards and the steering it returns. */
  datatype Output = Output(memory: Memory, steering: real)

  /** The left and right line-sensor scores of one tick. */
  datatype Reading = Reading(left: real, right: real)

  /** One step: the error is left minus right; it is added to the integral
      before the integral is used; the derivative is taken against the previous
      error, which then becomes this error. Collected by term, the steering is
      the error weighted by all three gains, plus the old integral's share,
      minus the old error's share; a balanced reading leaves fresh memory
      fresh and does not steer. */
  function Step(m: Memory, r: Reading): (o: Output)
    ensures o.memory.integral - m.integral == r.left - r.right == o.memory.previousError
    ensures o.steering == (Kp + Ki + Kd) * (r.left - r.right) + Ki * m.integral - Kd * m.previousError
    ensures m == Fresh && r.left == r.right ==> o == Output(Fresh, 0.0)
  {
    var error := r.left - r.right;
    var integral := m.integral + error;
    var derivative := error - m.previousError;
    Output(Memory(integral, error), Kp * error + Ki * integral + Kd * derivative)
  }

  /** A run of steps over consecutive readings: the final memory, and the sum of
      the steerings returned (the total change of the robot's direction). */
  function Run(m: Memory, rs: seq<Reading>): Output
    decreases |rs|
  {
    if |rs| == 0 then
      Output(m, 0.0)
    else
      var first := Step(m, rs[0]);
      var rest := Run(first.memory, rs[1..]);
      Output(rest.memory, first.steering + rest.steering)
  }

  /** The errors of a run of readings. */
  function Errors(rs: seq<Reading>): (es: seq<real>)
    ensures |es| == |rs|
    ensures forall k :: 0 <= k < |rs| ==> es[k] == rs[k].left - rs[k].right
  {
    seq(|rs|, k requires 0 <= k < |rs| => rs[k].left - rs[k].right)
  }

  /** Sum of a sequence, taken from the back. */
  function Sum(es: seq<real>): real
    decreases |es|
  {
    if |es| == 0 then 0.0 else Sum(es[..|es| - 1]) + es[|es| - 1]
  }

  /** The sum of the integrals a run holds after each of its steps: after step
      `k` the integral is the initial one plus the first `k` errors. */
  function SumOfIntegrals(initial: real, es: seq<real>): real
    decreases |es|
  {
    if |es| == 0 then 0.0 else SumOfIntegrals(initial, es[..|es| - 1]) + (initial + Sum(es))
  }

  /** The last error of a run, or `previous` if the run is empty. */
  function LastError(previous: real, es: seq<real>): real {
    if |es| == 0 then previous else es[|es| - 1]
  }

  /** Running one more step after a run is the same as a run one longer. */
  lemma {:induction false} RunSnoc(m: Memory, rs: seq<Reading>, r: Reading)
    ensures Run(m, rs + [r]).memory == Step(Run(m, rs).memory, r).memory
    ensures Run(m, rs + [r]).steering == Run(m, rs).steering + Step(Run(m, rs).memory, r).steering
    decreases |rs|
  {
    if |rs| == 0 {
      assert rs + [r] == [r];
    } else {
      assert (rs + [r])[1..] == rs[1..] + [r];
      RunSnoc(Step(m, rs[0]).memory, rs[1..], r);
    }
  }

  /** The controller in closed form. After any run of readings the integral is
      the initial integral plus the sum of the errors, the previous error is the
      last error, and the total steering is `Kp` times the summed errors, plus
      `Ki` times the summed running integrals, plus `Kd` times how far the last
      error moved from the remembered one (the derivative terms telescope). */
  lemma {:induction false} RunClosedForm(m: Memory, rs: seq<Reading>)
    ensures Run(m, rs).memory.integral == m.integral + Sum(Errors(rs))
    ensures Run(m, rs).memory.previousError == LastError(m.previousError, Errors(rs))
    ensures Run(m, rs).steering
            == Kp * Sum(Errors(rs))
               + Ki * SumOfIntegrals(m.integral, Errors(rs))
               + Kd * (LastError(m.previousError, Errors(rs)) - m.previousError)
    decreases |rs|
  {
    if |rs| > 0 {
      var init := rs[..|rs| - 1];
      var r := rs[|rs| - 1];
      assert rs == init + [r];
      assert Errors(rs)[..|rs| - 1] == Errors(init);
      RunClosedForm(m, init);
      RunSnoc(m, init, r);
    }
  }

  /** From a fresh controller the steering is determined by the readings alone:
      it is `Kp` times the summed errors, plus `Ki` times the summed running
      integrals, plus `Kd` times the last error. */
  lemma FreshRun(rs: seq<Reading>)
    requires |rs| > 0
    ensures Run(Fresh, rs).memory.integral == Sum(Errors(rs))
    ensures Run(Fresh, rs).steering
            == Kp * Sum(Errors(rs)) + Ki * SumOfIntegrals(0.0, Errors(rs)) + Kd * Errors(rs)[|rs| - 1]
  {
    RunClosedForm(Fresh, rs);
  }

  /** A fresh controller fed only symmetric readings never steers and stays
      fresh: the direction changes only once left and right differ. */
  lemma {:induction false} SymmetricRunDoesNotSteer(rs: seq<Reading>)
    requires forall k :: 0 <= k < |rs| ==> rs[k].left == rs[k].right
    ensures Run(Fresh, rs) == Output(Fresh, 0.0)
    decreases |rs|
  {
    if |rs| > 0 {
      SymmetricRunDoesNotSteer(rs[1..]);
    }
  }
}
