/** Whole-object runs of the stateful classes, each starting from new objects:
    the replay buffer's eviction order, the training entry point on an empty
    and on a filled buffer, and the agent threading its position through two
    calls. */
module Scenarios {

  import opened Common
  import opened Buffer
  import opened Checkpoint
  import opened Iteration
  import opened ActorCritic
  import opened Trainer
  import opened Agent
  import Cql
  import Iql
  import StateBuilder

  /** Capacity 2 with T1, T2, T3 added in turn keeps T2 and T3, oldest first,
      and a sample larger than the buffer returns the same two. */
  method CapacityTwo(t1: Transition, t2: Transition, t3: Transition)
    returns (stored: seq<Transition>, sampled: seq<Transition>, n: nat)
    ensures stored == [t2, t3] && sampled == [t2, t3] && n == 2
  {
    var buffer := new ReplayBuffer(2);
    buffer.Add(t1);
    buffer.Add(t2);
    buffer.Add(t3);
    stored := buffer.storage;
    sampled := buffer.Sample(5);
    n := buffer.Len();
  }

  /** The default trainer on the default, empty buffer trains on nothing and
      still writes the IQL placeholder to the default checkpoint path. */
  method EmptyDefaultRun() returns (steps: seq<Step>, files: map<string, string>)
    ensures steps == []
    ensures files == map["models/checkpoints/default/policy.pt" := "iql_checkpoint_placeholder"]
  {
    var buffer := new ReplayBuffer.Default();
    var trainer := new RLTrainer(DefaultConfig, buffer);
    var store := new FileStore();
    steps := trainer.Run(store);
    files := store.files;
  }

  /** A CQL epoch over two stored transitions runs twice, both times on the
      oldest one, and then exports its policy once. */
  method CqlRun(t1: Transition, t2: Transition, path: string)
    returns (steps: seq<Step>, writes: seq<(string, string)>)
    ensures steps == [Update(t1), Update(t1)]
    ensures writes == [(path, "cql_policy_placeholder")]
  {
    var buffer := new ReplayBuffer.Default();
    buffer.Add(t1);
    buffer.Add(t2);
    var trainer := new RLTrainer(TrainerConfig("cql", path), buffer);
    var store := new FileStore();
    steps := trainer.Run(store);
    writes := store.writes;
  }

  /** A new agent starts from position 0, and its second call sees the
      position its first call returned. */
  method TwoPredictions(text1: string, market1: StateBuilder.Features,
                        text2: string, market2: StateBuilder.Features)
    returns (first: Prediction, second: Prediction)
    ensures first.targetPosition == Act(PredictState(text1, market1, 0.0)).targetPosition
    ensures second.targetPosition == Act(PredictState(text2, market2, first.targetPosition)).targetPosition
    ensures first.confidence == 0.5 && second.confidence == 0.5
  {
    var agent := new RLKolAgent(None);
    first := agent.Predict(text1, market1);
    second := agent.Predict(text2, market2);
  }
}
