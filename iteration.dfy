/** The work one placeholder training iteration does on a transition, shared
    by `src/rl/cql.py` (lines 20-22) and `src/rl/iql.py` (lines 21-23): unpack
    it, ask the actor for a position and the critic for a value. Both results
    are discarded by the source; the model keeps them as a trace. */
module Iteration {

  import opened Buffer
  import opened ActorCritic

  datatype Step = Step(transition: Transition, output: ActorOutput, value: real)

  function Update(t: Transition): (s: Step)
    ensures s.transition == t
    ensures s.output == Act(t.state) && s.value == Evaluate(t.state, t.action)
    ensures -1.0 <= s.output.targetPosition <= 1.0 && s.output.confidence == 0.5
  {
    Step(t, Act(t.state), Evaluate(t.state, t.action))
  }
}
