/** `src/rl/iql.py`: `IQLTrainer`, whose step trains on one sampled batch and
    does nothing on an empty buffer, and whose save writes a fixed placeholder
    checkpoint. */
module Iql {

  import opened Common
  import opened Buffer
  import opened Iteration
  import opened Checkpoint

  const CheckpointContent := "iql_checkpoint_placeholder"

  class IQLTrainer {
    /** The buffer it was given, shared with the caller. */
    const buffer: ReplayBuffer

    constructor (buffer: ReplayBuffer)
      ensures this.buffer == buffer
    {
      this.buffer := buffer;
    }

    /** `train_step`: returns early on an empty storage; otherwise samples one
        batch of size one and trains on its transition, the oldest stored. */
    method TrainStep() returns (step: Option<Step>)
      ensures step == None <==> buffer.storage == []
      ensures step.Some? ==> step.value == Update(buffer.storage[0])
    {
      if buffer.storage == [] {
        return None;
      }
      var batch := buffer.Sample(1);
      step := Some(Update(batch[0]));
    }

    /** `save(path)`. */
    method Save(store: FileStore, path: string)
      modifies store
      ensures store.files == old(store.files)[path := CheckpointContent]
      ensures store.writes == old(store.writes) + [(path, CheckpointContent)]
    {
      store.Write(path, CheckpointContent);
    }
  }
}
