/** `src/rl/actor_critic.py`: the placeholder policy and value evaluators. Both
    hold no state, so they are modelled as functions of their inputs. */
module ActorCritic {

  import opened Common

  datatype ActorOutput = ActorOutput(targetPosition: real, confidence: real)

  /** The fixed confidence every `act` call reports. */
  const FixedConfidence: real := 0.5

  /** Python's `sum` over a list of floats. */
  function Sum(s: seq<real>): real {
    if s == [] then 0.0 else s[0] + Sum(s[1..])
  }

  lemma {:induction false} SumAppend(a: seq<real>, b: seq<real>)
    ensures Sum(a + b) == Sum(a) + Sum(b)
  {
    if a == [] {
      assert a + b == b;
    } else {
      assert (a + b)[1..] == a[1..] + b;
      SumAppend(a[1..], b);
    }
  }

  /** Entries within `[-1, 1]` keep the sum within `[-|s|, |s|]`. */
  lemma {:induction false} SumBound(s: seq<real>)
    requires forall i | 0 <= i < |s| :: -1.0 <= s[i] <= 1.0
    ensures -(|s| as real) <= Sum(s) <= |s| as real
  {
    if s != [] {
      SumBound(s[1..]);
    }
  }

  /** `sum(state) / max(len(state), 1)`. */
  function Mean(state: seq<real>): real {
    Sum(state) / Max(|state|, 1) as real
  }

  /** `max(min(x, 1.0), -1.0)`. */
  function Clamp(x: real): (y: real)
    ensures -1.0 <= y <= 1.0
    ensures -1.0 <= x <= 1.0 ==> y == x
    ensures x > 1.0 ==> y == 1.0
    ensures x < -1.0 ==> y == -1.0
  {
    var upper := if 1.0 < x then 1.0 else x;
    if -1.0 > upper then -1.0 else upper
  }

  /** `Actor.act(state)`. */
  function Act(state: seq<real>): (out: ActorOutput)
    ensures -1.0 <= out.targetPosition <= 1.0
    ensures out.confidence == 0.5
    ensures state == [] ==> out.targetPosition == 0.0
    ensures -1.0 <= Mean(state) <= 1.0 ==> out.targetPosition == Mean(state)
    ensures Mean(state) > 1.0 ==> out.targetPosition == 1.0
    ensures Mean(state) < -1.0 ==> out.targetPosition == -1.0
  {
    ActorOutput(Clamp(Mean(state)), FixedConfidence)
  }

  /** A state whose entries all lie in `[-1, 1]` is never clamped: the target
      is exactly its mean. */
  lemma {:induction false} ActUnclampedInRange(state: seq<real>)
    requires forall i | 0 <= i < |state| :: -1.0 <= state[i] <= 1.0
    ensures Act(state).targetPosition == Mean(state)
  {
    SumBound(state);
    if state != [] {
      var n := |state| as real;
      assert -n <= Sum(state) <= n;
      assert -1.0 <= Sum(state) / n <= 1.0;
    }
  }

  /** A state summing to 5.0 over two entries (mean 2.5) is clamped to 1.0. */
  lemma {:induction false} ActClampsExample()
    ensures Act([2.5, 2.5]).targetPosition == 1.0
  {
    assert [2.5, 2.5][1..] == [2.5];
    assert Sum([2.5, 2.5]) == 5.0;
  }

  /** `Critic.evaluate(state, action)`. */
  function Evaluate(state: seq<real>, action: real): real {
    Sum(state) + action
  }

  /** The critic is additive over the layout of the state: a prefix adds its
      sum, and an empty state values the action alone. */
  lemma {:induction false} EvaluateSplit(prefix: seq<real>, rest: seq<real>, action: real)
    ensures Evaluate(prefix + rest, action) == Sum(prefix) + Evaluate(rest, action)
    ensures Evaluate([], action) == action
  {
    SumAppend(prefix, rest);
  }
}
