/** `src/rl/trainer.py`: `TrainerConfig` and `RLTrainer`, which resolves the
    configured algorithm to one strategy when it is constructed and whose
    `run` trains with that strategy and then writes its checkpoint. */
module Trainer {

  import opened Buffer
  import opened Iteration
  import opened Checkpoint
  import Cql
  import Iql

  datatype TrainerConfig = TrainerConfig(algorithm: string, checkpointPath: string)

  /** `TrainerConfig()`. */
  const DefaultConfig := TrainerConfig("iql", "models/checkpoints/default/policy.pt")

  datatype Algorithm = CQL | IQL

  /** `_build_trainer`'s test: `"cql"` selects CQL, every other string IQL. */
  function Resolve(algorithm: string): (a: Algorithm)
    ensures a == CQL <==> algorithm == "cql"
    ensures a == IQL <==> algorithm != "cql"
  {
    if algorithm == "cql" then CQL else IQL
  }

  /** Unknown names fall back to IQL without an error, and so does the default. */
  lemma {:induction false} ResolveFallback()
    ensures Resolve("ppo") == IQL && Resolve("CQL") == IQL && Resolve("") == IQL
    ensures Resolve(DefaultConfig.algorithm) == IQL
  {
  }

  /** The strategy object `RLTrainer.trainer` holds; `run`'s `isinstance`
      test is the match on this variant. */
  datatype Strategy = Conservative(cql: Cql.CQLTrainer) | Implicit(iql: Iql.IQLTrainer)
  {
    function Kind(): Algorithm {
      if Conservative? then CQL else IQL
    }

    function TrainBuffer(): ReplayBuffer {
      match this
      case Conservative(c) => c.buffer
      case Implicit(i) => i.buffer
    }

    function Object(): object {
      match this
      case Conservative(c) => c
      case Implicit(i) => i
    }
  }

  /** `_build_trainer`: a new strategy object over the given buffer. */
  method BuildTrainer(algorithm: string, buffer: ReplayBuffer) returns (s: Strategy)
    ensures s.Kind() == Resolve(algorithm)
    ensures s.TrainBuffer() == buffer
    ensures fresh(s.Object())
  {
    if algorithm == "cql" {
      var c := new Cql.CQLTrainer(buffer);
      return Conservative(c);
    }
    var i := new Iql.IQLTrainer(buffer);
    return Implicit(i);
  }

  class RLTrainer {
    const config: TrainerConfig
    const buffer: ReplayBuffer
    /** Resolved once, here, and never reassigned. */
    const trainer: Strategy

    ghost predicate Valid() {
      trainer.Kind() == Resolve(config.algorithm) && trainer.TrainBuffer() == buffer
    }

    constructor (config: TrainerConfig, buffer: ReplayBuffer)
      ensures Valid()
      ensures this.config == config && this.buffer == buffer
      ensures fresh(trainer.Object())
    {
      this.config := config;
      this.buffer := buffer;
      var s := BuildTrainer(config.algorithm, buffer);
      trainer := s;
    }

    /** `run`: CQL trains one epoch and exports its policy; IQL takes one step
        and saves its checkpoint. Either way exactly one checkpoint is written
        at `config.checkpointPath`, also on an empty buffer, and the buffer is
        not modified. */
    method Run(store: FileStore) returns (steps: seq<Step>)
      requires Valid()
      modifies store
      ensures trainer.Kind() == CQL ==>
        && |steps| == |buffer.storage|
        && (forall i | 0 <= i < |steps| :: steps[i] == Update(buffer.storage[0]))
        && store.files == old(store.files)[config.checkpointPath := Cql.PolicyContent]
        && store.writes == old(store.writes) + [(config.checkpointPath, Cql.PolicyContent)]
      ensures trainer.Kind() == IQL ==>
        && steps == (if buffer.storage == [] then [] else [Update(buffer.storage[0])])
        && store.files == old(store.files)[config.checkpointPath := Iql.CheckpointContent]
        && store.writes == old(store.writes) + [(config.checkpointPath, Iql.CheckpointContent)]
    {
      match trainer
      case Conservative(c) =>
        steps := c.TrainEpoch();
        c.ExportPolicy(store, config.checkpointPath);
      case Implicit(i) =>
        var step := i.TrainStep();
        steps := if step.Some? then [step.value] else [];
        i.Save(store, config.checkpointPath);
    }
  }
}
