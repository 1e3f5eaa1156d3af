# KOL-RL-Agent in Dafny

This project models the core of KOL-RL-Agent and proves properties of the model. KOL-RL-Agent is a placeholder offline
reinforcement-learning agent. It turns the text of key opinion leaders (KOLs) into a trading target position.

The model covers three parts.

- **Training core.**
  - A replay buffer of transitions with a capacity. It drops its oldest entry on overflow and samples a positional
    prefix.
  - An actor that clamps the state's mean into [-1, 1], with a fixed confidence, and a critic that adds the action to
    the state's sum.
  - The state builder, which lays out KOL features, market values and the last position.
  - Two training strategies, CQL (one epoch) and IQL (one step). Each writes a fixed placeholder checkpoint.
  - The trainer, which resolves the strategy once and then trains and exports.
- **Inference agent.** It threads its last position through clean → chunk → encode → build → act.
- **Text and dataset transforms.**
  - The text cleaner, the word chunker, the mean-length encoder and the feature extractor.
  - The dataset builder: column canonicalisation, text picking, the usefulness filter, platform detection, the row
    filter and de-duplication.
  - The channel-name sanitiser and per-channel split of the top channels.

Each source file is one module. `Common` holds an option type and Python's `s[:n]`. `PyStr` holds the Python string
primitives the code relies on:

- `str.isspace`, which is the same set as the regular-expression class `\s`;
- `strip`, `split()` and `" ".join`;
- `re.sub(r"\s+", " ", ·)`;
- `lower` on ASCII letters.

The pure code is modelled as functions with lemmas. Code that updates objects is modelled as classes:

- `ReplayBuffer` keeps its storage and a ghost history of every addition. Its invariant is that the storage is the
  newest `capacity` additions.
- `RLKolAgent` keeps `lastPosition`.
- `RLTrainer` fixes its strategy in a constant.
- `FileStore` records each checkpoint write as a `(path, content)` pair and the file map that results.

Loops in the source are loops here: the CQL epoch, column canonicalisation, the row loop, the file loop and the
per-channel loop. Each is proved against a function that specifies it.

Three behaviours of the code are worth noting:

- `ReplayBuffer.sample` returns the oldest `batch_size` transitions (`list(storage)[:batch_size]`), and no random draw
  takes place. So every CQL iteration and every IQL step trains on the oldest transition.
- An unknown algorithm name selects IQL silently and does not fail.
- Checkpoints are written with a plain `open(path, "w")`, with no temporary file and rename.

## Model

| member | source | states |
|---|---|---|
| Common.Prefix | src/rl/buffer.py:22-23 | Python's `s[:n]`: a prefix of length min(n, len) for n >= 0, of length max(len + n, 0) for negative n |
| Buffer.Window | src/rl/buffer.py:16 | a deque with `maxlen` n holds the last min(len, n) items appended, in order |
| Buffer.Appended | src/rl/buffer.py:16-19 | one `append` to a deque with `maxlen`; specified through `Buffer.AppendedWindow`, which states that it keeps the window of the history extended by the item |
| Buffer.AppendedWindow | src/rl/buffer.py:16-19 | one bounded append to the window of a history is the window of the history extended by that item |
| Buffer.AppendAllWindow | src/rl/buffer.py:16-19 | after any sequence of `add` calls the storage is the last `capacity` transitions ever added, oldest first |
| Buffer.CapacityTwoExample | src/rl/buffer.py:16-19 | capacity 2 with T1, T2, T3 added gives [T2, T3] |
| Buffer.ReplayBuffer.constructor | src/rl/buffer.py:14-16 | a new buffer has the given capacity, empty storage and empty history |
| Buffer.ReplayBuffer.Default | src/rl/buffer.py:14-16 | the default capacity is 100000 |
| Buffer.ReplayBuffer.Add | src/rl/buffer.py:18-19 | appends at the end, evicts the oldest only when over capacity, never exceeds capacity, keeps the window invariant |
| Buffer.ReplayBuffer.Sample | src/rl/buffer.py:21-23 | returns Python's `storage[:k]`; for k >= 0 the first min(k, len) stored transitions; [] on an empty buffer; storage untouched |
| Buffer.ReplayBuffer.Len | src/rl/buffer.py:25-26 | is the stored count, at most the capacity |
| ActorCritic.Clamp | src/rl/actor_critic.py:20 | the result is in [-1, 1]; it equals the input when that is in range, else the nearer bound |
| ActorCritic.Act | src/rl/actor_critic.py:18-20 | target in [-1, 1], confidence 0.5, target 0 on an empty state, the mean when in range, 1 above, -1 below |
| ActorCritic.ActUnclampedInRange | src/rl/actor_critic.py:19-20 | a state whose entries lie in [-1, 1] gets its mean as target, unclamped |
| ActorCritic.ActClampsExample | src/rl/actor_critic.py:19-20 | [2.5, 2.5] gives target 1.0 |
| ActorCritic.Evaluate | src/rl/actor_critic.py:26-27 | the critic's value `sum(state) + action`; what it means entry by entry is stated by `ActorCritic.EvaluateSplit` |
| ActorCritic.EvaluateSplit | src/rl/actor_critic.py:26-27 | the critic adds each state entry to the action; an empty state gives the action |
| StateBuilder.Values | src/state/state_builder.py:13 | the market values in mapping order, one per entry |
| StateBuilder.Build | src/state/state_builder.py:11-15 | copy, extend, append give KOL features ++ market values ++ [last position]: length, prefix, market slots and last entry |
| StateBuilder.BuildExample | src/state/state_builder.py:11-15 | {"price": 10.0, "volume": 2.0}, [0.5], 0.1 give [0.5, 10.0, 2.0, 0.1] |
| StateBuilder.BuildEmpty | src/state/state_builder.py:12-15 | with no features the state is [last position] |
| Iteration.Update | src/rl/cql.py:20-22 | an iteration trains on the given transition: the actor's output on its state, in [-1, 1] with confidence 0.5, and the critic's value of its state and action |
| Checkpoint.FileStore.Write | src/rl/cql.py:24-26 | the file at the path now holds exactly the content, earlier content replaced, and the write is logged |
| Cql.CQLTrainer.constructor | src/rl/cql.py:10-13 | the trainer holds the given buffer itself |
| Cql.CQLTrainer.TrainEpoch | src/rl/cql.py:15-22 | len(buffer) iterations, each on the oldest transition; none on an empty buffer; modifies nothing |
| Cql.CQLTrainer.ExportPolicy | src/rl/cql.py:24-26 | writes exactly "cql_policy_placeholder" to the path |
| Iql.IQLTrainer.constructor | src/rl/iql.py:12-15 | the trainer holds the given buffer itself |
| Iql.IQLTrainer.TrainStep | src/rl/iql.py:17-23 | no step exactly when the storage is empty, otherwise one step on the oldest transition; modifies nothing |
| Iql.IQLTrainer.Save | src/rl/iql.py:25-27 | writes exactly "iql_checkpoint_placeholder" to the path |
| Trainer.Resolve | src/rl/trainer.py:25-28 | CQL if and only if the name is "cql", IQL for every other string |
| Trainer.ResolveFallback | src/rl/trainer.py:25-28 | "ppo", "CQL", "" and the default "iql" all select IQL |
| Trainer.BuildTrainer | src/rl/trainer.py:25-28 | a new strategy object of the resolved kind over the given buffer |
| Trainer.RLTrainer.constructor | src/rl/trainer.py:20-23 | keeps config and buffer and resolves the strategy once, sharing the buffer |
| Trainer.RLTrainer.Run | src/rl/trainer.py:30-36 | CQL: an epoch, then the policy export; IQL: a step, then the save; either way exactly one checkpoint write to the configured path, also on an empty buffer |
| Agent.KolFeaturesCount | src/inference/agent.py:28-30 | the text gives one KOL feature, or none when it is all whitespace |
| Agent.PredictStateEndsWithPosition | src/inference/agent.py:31 | the actor's input has KOL, market and one more entry, and ends with the previous position |
| Agent.RLKolAgent.constructor | src/inference/agent.py:18-25 | a new agent has the default cleaner and chunker settings and last position 0.0 |
| Agent.RLKolAgent.Predict | src/inference/agent.py:27-36 | the target is the actor's on build(market, encode(chunk(clean(text))), previous position), in [-1, 1], confidence 0.5, and becomes the new last position |
| TextCleaner.Clean | src/preprocessing/text_cleaner.py:14-20 | no whitespace at either end, whitespace only as single spaces, no uppercase when lowercasing, "" exactly for all-whitespace input |
| TextCleaner.CleanIsJoinedWords | src/preprocessing/text_cleaner.py:14-20 | the cleaned text is the words of the input joined by single spaces, lowered when lowercasing |
| TextCleaner.CleanWords | src/preprocessing/text_cleaner.py:16-17 | without lowercasing, cleaning keeps exactly the words of the input, in order: no two words are merged and none is split |
| TextCleaner.CleanKeepsContent | src/preprocessing/text_cleaner.py:16-19 | only whitespace changes: the other characters stay, in order, lowered when lowercasing and unchanged otherwise |
| TextCleaner.CleanSqueezed | src/preprocessing/text_cleaner.py:16-19 | the output is in normalised form |
| TextCleaner.CleanIdempotent | src/preprocessing/text_cleaner.py:14-20 | clean(clean(t)) == clean(t) |
| PyStr.LowerChar | src/preprocessing/text_cleaner.py:19 | the lowered character is not an uppercase letter and is whitespace exactly when the original is |
| PyStr.Lower | src/preprocessing/text_cleaner.py:19 | lowers character by character, keeping the length |
| PyStr.LowerIdempotent | src/preprocessing/text_cleaner.py:19 | lowering twice is lowering once |
| PyStr.TrimLeft | src/preprocessing/text_cleaner.py:16 | keeps a suffix that starts with a non-space, having dropped only whitespace |
| PyStr.TrimRight | src/preprocessing/text_cleaner.py:16 | keeps a prefix that ends with a non-space, having dropped only whitespace |
| PyStr.Strip | src/preprocessing/text_cleaner.py:16 | `strip`, the two trims; `PyStr.StripAt` and `PyStr.WordsStrip` state what it keeps |
| PyStr.Collapse | src/preprocessing/text_cleaner.py:17 | whitespace only as ' ', never two whitespace characters in a row, first character kept or made ' '; `PyStr.WordsCollapse` states that the words are kept |
| PyStr.WordsCollapse | src/preprocessing/text_cleaner.py:17 | collapsing whitespace runs keeps exactly the words of the text, in order |
| PyStr.WordsStrip | src/preprocessing/text_cleaner.py:16 | stripping keeps exactly the words of the text, in order |
| PyStr.Squeeze | src/preprocessing/text_cleaner.py:16-17 | strip then collapse; its meaning is stated by `PyStr.SqueezeIsJoin` |
| PyStr.NonSpaceSqueeze | src/preprocessing/text_cleaner.py:16-17 | strip and collapse keep every non-whitespace character, in order |
| PyStr.SqueezeSqueezed | src/preprocessing/text_cleaner.py:16-17 | strip then collapse gives the normalised form |
| PyStr.SqueezeFixed | src/preprocessing/text_cleaner.py:16-17 | a text already in normalised form is unchanged |
| PyStr.SqueezeEmpty | src/preprocessing/text_cleaner.py:16-17 | the result is empty exactly when the input is all whitespace |
| PyStr.SqueezedJoin | src/preprocessing/text_cleaner.py:16-17 | a text in normalised form is its own words joined by single spaces |
| PyStr.SqueezeIsJoin | src/preprocessing/text_cleaner.py:16-17 | strip then collapse equals `" ".join(s.split())` |
| PyStr.Words | src/preprocessing/chunker.py:15 | `split()` yields non-empty words with no whitespace |
| PyStr.WordsEmpty | src/preprocessing/chunker.py:15 | `split()` is empty exactly when the text is all whitespace |
| PyStr.WordsAppendSpace | src/preprocessing/chunker.py:15 | trailing whitespace adds no word to `split()` |
| PyStr.Join | src/preprocessing/chunker.py:17 | `" ".join`; `PyStr.JoinSqueezed` and `PyStr.WordsJoin` state what it builds |
| PyStr.JoinSqueezed | src/preprocessing/chunker.py:17 | words joined by single spaces are in normalised form |
| PyStr.WordsJoin | src/preprocessing/chunker.py:15-17 | splitting the words joined by spaces gives the words back |
| PyStr.StripAt | src/preprocessing/build_dataset.py:15 | strip keeps one contiguous piece of the text, with only whitespace before and after it |
| PyStr.TrimLeftAt | src/preprocessing/build_dataset.py:15-16 | lstrip stops exactly at the first non-whitespace character |
| PyStr.TrimRightAt | src/preprocessing/build_dataset.py:15 | rstrip stops exactly after the last non-whitespace character |
| Chunker.Group | src/preprocessing/chunker.py:16-18 | groups of 1..k words, all but the last of exactly k |
| Chunker.GroupFlatten | src/preprocessing/chunker.py:16-18 | the groups concatenated in order are the words, and each group of words is made of words |
| Chunker.GroupCount | src/preprocessing/chunker.py:18 | there are ceil(n / k) groups |
| Chunker.ChunksFrom | src/preprocessing/chunker.py:16-18 | the comprehension from index `start`; `Chunker.ChunksFromGroup` states that it joins the groups |
| Chunker.ChunksFromGroup | src/preprocessing/chunker.py:16-18 | the range-stepped comprehension joins exactly those groups |
| Chunker.ChunksAreGroups | src/preprocessing/chunker.py:15-19 | splitting each chunk gives back its group of words |
| Chunker.Chunk | src/preprocessing/chunker.py:14-19 | ceil(words / max_words) chunks for a positive max_words, none for a negative one |
| Chunker.ChunkWords | src/preprocessing/chunker.py:15-19 | each chunk has 1..max_words words, all but the last exactly max_words, and their words in order are `text.split()` |
| Chunker.ChunkShape | src/preprocessing/chunker.py:17 | every chunk is non-empty with no outer whitespace and single spaces |
| Chunker.ChunkBlank | src/preprocessing/chunker.py:15-18 | no chunks exactly when the text is blank or max_words is negative |
| Encoder.MaxLength | src/embedding/encoder.py:14 | bounds every chunk's length and is attained by one |
| Encoder.Encode | src/embedding/encoder.py:11-15 | [] exactly for no chunks, otherwise one value whose product with the count is the total length, between 0 and the longest chunk's length |
| FeatureExtractor.Count | src/preprocessing/feature_extractor.py:15 | at most the length, and 0 exactly when the character does not occur |
| FeatureExtractor.Extract | src/preprocessing/feature_extractor.py:11-16 | exactly the keys "length" and "exclamation_ratio"; length is len(text); ratio times max(len, 1) is the '!' count, in [0, 1], 0 for "" |
| Dataset.ColumnKey | src/preprocessing/build_dataset.py:37 | a column's canonical name, `col.strip().lower()`; `Dataset.ColumnMapSpec` states its use |
| Dataset.KeyedMapKeys | src/preprocessing/build_dataset.py:34-39 | the dict's keys are exactly the names of the columns |
| Dataset.KeyedMapLast | src/preprocessing/build_dataset.py:34-39 | a name maps to the last column carrying it |
| Dataset.ColumnMapSpec | src/preprocessing/build_dataset.py:34-39 | keys are exactly the stripped, lowered names; on a collision the later column wins |
| Dataset.StandardizeColumns | src/preprocessing/build_dataset.py:34-39 | the loop fills exactly the canonical column dict |
| Dataset.CandidateShape | src/preprocessing/build_dataset.py:43-51 | an offered candidate is non-empty and normalised |
| Dataset.CandidateOffered | src/preprocessing/build_dataset.py:43-51 | a candidate is offered exactly when its column holds a string that is not all whitespace |
| Dataset.ChosenTextSpec | src/preprocessing/build_dataset.py:42-52 | transcript, else summary, else description, else ""; always normalised |
| Dataset.ChosenTextEmpty | src/preprocessing/build_dataset.py:42-52 | "" exactly when no candidate column holds a non-blank string |
| Dataset.PickText | src/preprocessing/build_dataset.py:42-52 | the early-return loop over the candidates returns the chosen text |
| Dataset.UrlStartMeaning | src/preprocessing/build_dataset.py:16 | the URL test holds exactly when whitespace and then http:// or https:// in any case start the text |
| Dataset.LooksUseless | src/preprocessing/build_dataset.py:55-61 | the usefulness filter: shorter than 30 characters, a URL start or a bracket tag; `Dataset.UrlStartMeaning` and `Dataset.BracketTagMeaning` state what each test accepts |
| Dataset.BracketTagFound | src/preprocessing/build_dataset.py:15 | a text the tag test accepts is matched by the pattern |
| Dataset.BracketTagOfMatch | src/preprocessing/build_dataset.py:15 | a match of the pattern is a bracket tag |
| Dataset.BracketTagMeaning | src/preprocessing/build_dataset.py:15 | the tag test holds exactly when whitespace, '[', one or more non-']' characters, ']' and whitespace make up the text |
| Dataset.ContainsMeaning | src/preprocessing/build_dataset.py:66-69 | `sub in s` holds exactly when sub occurs at some index |
| Dataset.DetectPlatform | src/preprocessing/build_dataset.py:64-70 | the platform is one of "youtube", "tiktok", "unknown" |
| Dataset.DetectPlatformIgnoresCase | src/preprocessing/build_dataset.py:65 | the platform does not depend on letter case |
| Dataset.DetectPlatformRule | src/preprocessing/build_dataset.py:64-70 | youtube exactly when the lowered name contains "youtube", tiktok exactly when it contains "tiktok" and not "youtube", unknown exactly when it contains neither |
| Dataset.DetectPlatformBoth | src/preprocessing/build_dataset.py:64-70 | example: "TikTok_YouTube" counts as youtube |
| Dataset.DetectPlatformTikTok | src/preprocessing/build_dataset.py:64-70 | "TikTok.csv" gives "tiktok" |
| Dataset.RowRecord | src/preprocessing/build_dataset.py:89-117 | the record a row yields, if any; its meaning is stated by `Dataset.RowRecordSpec` |
| Dataset.RowRecordSpec | src/preprocessing/build_dataset.py:89-117 | a row yields a record exactly when both labels exist and parse and the chosen text is non-empty and useful; the record carries that text, file and platform |
| Dataset.RowsRecordsKept | src/preprocessing/build_dataset.py:88-118 | every record of the row loop is kept for a reason |
| Dataset.FileRecordsKept | src/preprocessing/build_dataset.py:73-118 | every record of a file has non-empty, normalised, useful text and names its file and platform |
| Dataset.FileWithoutLabels | src/preprocessing/build_dataset.py:80-84 | a file with no confidence column, or no sentiment column, under any spelling yields [] |
| Dataset.HasRequired | src/preprocessing/build_dataset.py:81-84 | true exactly when both confidence and sentiment have a column |
| Dataset.ProcessRow | src/preprocessing/build_dataset.py:89-117 | the loop body yields the row's record or skips it |
| Dataset.ProcessRows | src/preprocessing/build_dataset.py:86-118 | the row loop yields each row's record in row order and skips the others |
| Dataset.ProcessFile | src/preprocessing/build_dataset.py:73-118 | [] for an unreadable file or a missing label, otherwise each row's record in row order |
| Dataset.Dedupe | src/preprocessing/build_dataset.py:128 | `drop_duplicates` on (video_id, company, text), keeping the first; stated by the four `Dedupe` lemmas below |
| Dataset.DedupeSubsequence | src/preprocessing/build_dataset.py:128 | de-duplication keeps records in their order |
| Dataset.DedupeKeys | src/preprocessing/build_dataset.py:128 | every (video_id, company, text) key survives, and no other appears |
| Dataset.DedupeDistinct | src/preprocessing/build_dataset.py:128 | no two remaining records share a key |
| Dataset.DedupeKeepsFirst | src/preprocessing/build_dataset.py:128 | the first record with each key is kept |
| Dataset.LongTexts | src/preprocessing/build_dataset.py:129 | the filter on text length at least 30; stated by `Dataset.LongTextsKeepsLong` and `Dataset.BuiltSpec` |
| Dataset.LongTextsKeepsLong | src/preprocessing/build_dataset.py:129 | the length filter drops nothing when every text is long enough |
| Dataset.AllRecordsKept | src/preprocessing/build_dataset.py:122-124 | every collected record was kept by its file |
| Dataset.DedupeKept | src/preprocessing/build_dataset.py:128 | de-duplication keeps only collected records |
| Dataset.BuiltSpec | src/preprocessing/build_dataset.py:121-131 | distinct keys covering all collected keys, order kept, every text at least 30 characters, and the length filter removes nothing |
| Dataset.BuiltEmpty | src/preprocessing/build_dataset.py:125-126 | the dataset is empty exactly when no file yields a record |
| Dataset.BuildDataset | src/preprocessing/build_dataset.py:121-131 | the file loop, de-duplication and length filter give the specified dataset |
| SplitChannels.SafeName | scripts/split_top_channels.py:36-42 | the replacement chain; stated by the three `SafeName` lemmas below |
| SplitChannels.SafeNameMeaning | scripts/split_top_channels.py:36-42 | the replacement chain maps space, '/', ',' to '_', deletes both quotes and keeps every other character in order |
| SplitChannels.SafeNameClean | scripts/split_top_channels.py:36-42 | the name has no space, '/', ',', "'" or '"' and is no longer than the channel |
| SplitChannels.SafeNameOfClean | scripts/split_top_channels.py:36-42 | a channel without those characters keeps its name |
| SplitChannels.SafeNameCollides | scripts/split_top_channels.py:36-44 | "a b" and "a_b" get the same file name |
| SplitChannels.ChannelRows | scripts/split_top_channels.py:43 | every kept row is of the channel, and there are no more rows than in the input |
| SplitChannels.ChannelRowsMembers | scripts/split_top_channels.py:43 | a row is kept exactly when it is an input row whose channel_name equals the channel |
| SplitChannels.ChannelRowsSingle | scripts/split_top_channels.py:43 | one row is kept exactly when it is of the channel |
| SplitChannels.ChannelRowsAppend | scripts/split_top_channels.py:43 | the filter distributes over concatenation, so it keeps the order and the multiplicity of the input rows |
| SplitChannels.PathString | scripts/split_top_channels.py:30 | `str(Path(s))` on POSIX: the root and the non-empty, non-`.` components, or `.` |
| SplitChannels.JoinPath | scripts/split_top_channels.py:44 | `Path(dir) / name`: the root and the components of the directory, then the name |
| SplitChannels.OutPath | scripts/split_top_channels.py:44 | the output path of a channel's file |
| SplitChannels.OutPathInDirectory | scripts/split_top_channels.py:44 | the file name has no '/', and the path is the directory's string, a '/' unless the directory is `.` or a bare root, then the file name |
| SplitChannels.OutPathHere | scripts/split_top_channels.py:44 | an output directory of "" or "." gives the bare file name |
| SplitChannels.OutPathTrailingSlash | scripts/split_top_channels.py:44 | a trailing '/' on a directory that is not only slashes changes nothing |
| SplitChannels.SplitTopChannels | scripts/split_top_channels.py:33-45 | one write per channel of `head(top)` of the ranking, at most `top`, each at the pathlib join of the directory and the sanitised name, with exactly that channel's rows |
| SplitChannels.RankedOutputs | scripts/split_top_channels.py:33 | for a true value_counts ranking, every written file has rows and no channel is written twice |
| Scenarios.CapacityTwo | src/rl/buffer.py:14-26 | a capacity-2 buffer given T1, T2, T3 stores [T2, T3], samples [T2, T3] and has length 2 |
| Scenarios.EmptyDefaultRun | src/rl/trainer.py:13-36 | the default trainer on an empty buffer trains on nothing and writes the IQL placeholder to the default path |
| Scenarios.CqlRun | src/rl/cql.py:15-26 | a CQL epoch over two transitions trains twice on the oldest, then exports once |
| Scenarios.TwoPredictions | src/inference/agent.py:25-33 | a new agent starts at 0, and its second call sees the first call's target |

## Left out

- `train.py` and `infer.py` are argument parsing, JSON reads and printing, and are not part of this model. Of the two
  scripts, the argument parsing, the `read_csv` and `mkdir` calls and the prints are left out. The rest of
  `split_top_channels.main` is `SplitChannels.SplitTopChannels`. `build_dataset.main` only calls `build_dataset`
  (`Dataset.BuildDataset`) and writes the result unless it is empty, and that write is left out. So is `src/preprocessing/aligner.py`, which only stamps inputs with the
  current time.
- `src/utils/logger` is not part of this model, nor are the diagnostic prints.
- Real I/O:
  - `pd.read_csv` is replaced by an abstract table per file (`None` when reading raises);
  - `to_csv` writes are returned as `(path, rows)` values;
  - `mkdir` is left out;
  - checkpoint `open`/`write` is the recorded `FileStore` effect, and a failing write is not modelled;
  - the files of `build_dataset` are taken in the order given, which the caller makes the sorted order of the glob.
- The timestamp in `predict` is a clock read and is left out of `Agent.Prediction`.
- Floating point is modelled as exact `real` arithmetic (mean, clamp, ratio, sums). IEEE rounding, NaN and infinities
  of the training values are not modelled.
- Dataset cells keep NaN apart as `Dataset.Float.NaN`. Python's `float(...)` of a string and `str(...)` of a number are
  abstract functions (`Dataset.Coercion`), and pandas' type inference of columns is not modelled. Rows are maps, so
  column labels are unique, as `read_csv` makes them.
- The `Actor` and `Critic` objects the trainers create have no state. They are modelled as the functions `Act` and
  `Evaluate`, and the trainers hold no fields for them.
- The discarded results of each training iteration are kept as a `Step` trace, because the placeholder trainers change
  no state.
- `Extract` is a map, so the key order of the returned dict is not modelled.
- `StateBuilder.Build` takes the market mapping as its sequence of `(name, value)` entries in insertion order.
- `PyStr.Lower`, `PyStr.LowerChar`: map only `A`-`Z`. Python's `str.lower` also lowers non-ASCII letters, and this affects
  `TextCleaner.Clean`, `Dataset.ColumnKey` and `Dataset.DetectPlatform` on such text.
- `Dataset.FoldMatch`: covers the pattern letters of `https?://` only. That includes the long s (U+017F), which
  `re.IGNORECASE` matches to `s`.
- `Buffer.ReplayBuffer.constructor`: the capacity is a `nat`. A negative capacity makes `deque` raise, and that error
  path is not modelled.
- `Chunker.Chunk`: requires `maxWords != 0`, because `range` with step 0 raises in Python.
- `SplitChannels.SplitTopChannels`: takes the `value_counts` ranking as a parameter. `Dataset.Record` rows stand for the
  dataset read back from CSV, so the CSV round trip (for example an empty channel name reading back as NaN) and
  `value_counts` tie-breaking are not modelled. `SplitChannels.IsRanking` states what a true ranking is.
- `SplitChannels.OutPath`: only POSIX `pathlib` semantics are modelled. Windows paths and their drives are not, and `..`
  stays a component, as `pathlib` keeps it.
- `reset_index` and the DataFrame construction of `build_dataset` have no counterpart: the dataset is a sequence of
  records.
