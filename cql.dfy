/** `src/rl/cql.py`: `CQLTrainer`, whose epoch runs one iteration per stored
    transition and whose export writes a fixed placeholder policy. */
module Cql {

  import opened Buffer
  import opened Iteration
  import opened Checkpoint

  const PolicyContent := "cql_policy_placeholder"

  class CQLTrainer {
    /** The buffer it was given, shared with the caller. */
    const buffer: ReplayBuffer

    constructor (buffer: ReplayBuffer)
      ensures this.buffer == buffer
    {
      this.buffer := buffer;
    }

    /** `train_epoch`: `len(buffer)` iterations, each sampling a batch of one.
        Prefix sampling makes every iteration read the oldest transition. The
        method modifies nothing, so the buffer is left as it was. */
    method TrainEpoch() returns (steps: seq<Step>)
      ensures |steps| == |buffer.storage|
      ensures forall i | 0 <= i < |steps| :: steps[i] == Update(buffer.storage[0])
    {
      var n := buffer.Len();
      steps := [];
      for i := 0 to n
        invariant |steps| == i
        invariant forall j | 0 <= j < i :: steps[j] == Update(buffer.storage[0])
      {
        var batch := buffer.Sample(1);
        if batch == [] {
          break;
        }
        steps := steps + [Update(batch[0])];
      }
    }

    /** `export_policy(path)`. */
    method ExportPolicy(store: FileStore, path: string)
      modifies store
      ensures store.files == old(store.files)[path := PolicyContent]
      ensures store.writes == old(store.writes) + [(path, PolicyContent)]
    {
      store.Write(path, PolicyContent);
    }
  }
}
