/** Checkpoint files, as the abstract effect of `open(path, "w").write(text)`:
    the file at `path` now holds exactly `text`, and the write is logged. */
module Checkpoint {

  class FileStore {
    var files: map<string, string>
    /** Every write, in the order made. */
    var writes: seq<(string, string)>

    constructor ()
      ensures files == map[] && writes == []
    {
      files := map[];
      writes := [];
    }

    method Write(path: string, content: string)
      modifies this
      ensures files == old(files)[path := content]
      ensures writes == old(writes) + [(path, content)]
    {
      files := files[path := content];
      writes := writes + [(path, content)];
    }
  }
}
