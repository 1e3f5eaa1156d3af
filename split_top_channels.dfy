/** `scripts/split_top_channels.py`: writing one CSV file per top channel of the
    processed dataset. The channel ranking of `value_counts` is an input, and
    each file write is returned as its path and rows. */
module SplitChannels {

  import opened Common
  import opened Dataset

  // ---------------------------------------------------------------------------
  // safe_name

  /** `s.replace(c, r)` for a one-character `c`. */
  function Replace(s: string, c: char, r: string): string {
    if s == [] then [] else (if s[0] == c then r else [s[0]]) + Replace(s[1..], c, r)
  }

  /** The chain of replacements that turns a channel name into a file name. */
  function SafeName(channel: string): string {
    Replace(Replace(Replace(Replace(Replace(channel, ' ', "_"), '/', "_"), ',', "_"), '\'', ""), '"', "")
  }

  /** What the chain does to one character: space, `/` and `,` become `_`, the
      two quote characters go, and anything else stays. */
  function SafeChar(c: char): string {
    if c == ' ' || c == '/' || c == ',' then "_"
    else if c == '\'' || c == '"' then ""
    else [c]
  }

  /** The character-by-character reading of the chain. */
  function MapSafe(s: string): string {
    if s == [] then [] else SafeChar(s[0]) + MapSafe(s[1..])
  }

  predicate Forbidden(c: char) {
    c == ' ' || c == '/' || c == ',' || c == '\'' || c == '"'
  }

  lemma {:induction false} ReplaceAppend(a: string, b: string, c: char, r: string)
    ensures Replace(a + b, c, r) == Replace(a, c, r) + Replace(b, c, r)
    decreases |a|
  {
    if a != [] {
      assert (a + b)[1..] == a[1..] + b;
      ReplaceAppend(a[1..], b, c, r);
    } else {
      assert a + b == b;
    }
  }

  lemma {:induction false} SafeNameAppend(a: string, b: string)
    ensures SafeName(a + b) == SafeName(a) + SafeName(b)
  {
    ReplaceAppend(a, b, ' ', "_");
    var a1, b1 := Replace(a, ' ', "_"), Replace(b, ' ', "_");
    ReplaceAppend(a1, b1, '/', "_");
    var a2, b2 := Replace(a1, '/', "_"), Replace(b1, '/', "_");
    ReplaceAppend(a2, b2, ',', "_");
    var a3, b3 := Replace(a2, ',', "_"), Replace(b2, ',', "_");
    ReplaceAppend(a3, b3, '\'', "");
    var a4, b4 := Replace(a3, '\'', ""), Replace(b3, '\'', "");
    ReplaceAppend(a4, b4, '"', "");
  }

  lemma {:induction false} ReplaceShort(s: string, c: char, r: string)
    requires |s| <= 1
    ensures Replace(s, c, r) == if s == [] then [] else if s[0] == c then r else s
  {
    if s != [] {
      assert s[1..] == [];
    }
  }

  lemma {:induction false} SafeNameChar(c: char)
    ensures SafeName([c]) == SafeChar(c)
  {
    var s0 := [c];
    ReplaceShort(s0, ' ', "_");
    var s1 := Replace(s0, ' ', "_");
    ReplaceShort(s1, '/', "_");
    var s2 := Replace(s1, '/', "_");
    ReplaceShort(s2, ',', "_");
    var s3 := Replace(s2, ',', "_");
    ReplaceShort(s3, '\'', "");
    var s4 := Replace(s3, '\'', "");
    ReplaceShort(s4, '"', "");
  }

  /** The replacement chain acts on each character on its own. */
  lemma {:induction false} SafeNameMeaning(s: string)
    ensures SafeName(s) == MapSafe(s)
    decreases |s|
  {
    if s == [] {
    } else {
      assert s == [s[0]] + s[1..];
      SafeNameAppend([s[0]], s[1..]);
      SafeNameChar(s[0]);
      SafeNameMeaning(s[1..]);
    }
  }

  lemma {:induction false} MapSafeClean(s: string)
    ensures forall i | 0 <= i < |MapSafe(s)| :: !Forbidden(MapSafe(s)[i])
    ensures |MapSafe(s)| <= |s|
    decreases |s|
  {
    if s != [] {
      MapSafeClean(s[1..]);
    }
  }

  /** A file name never holds a space, a slash, a comma or a quote, and is no
      longer than the channel name. */
  lemma {:induction false} SafeNameClean(channel: string)
    ensures forall i | 0 <= i < |SafeName(channel)| :: !Forbidden(SafeName(channel)[i])
    ensures |SafeName(channel)| <= |channel|
  {
    SafeNameMeaning(channel);
    MapSafeClean(channel);
  }

  /** A name without those characters is used unchanged. */
  lemma {:induction false} SafeNameOfClean(channel: string)
    requires forall i | 0 <= i < |channel| :: !Forbidden(channel[i])
    ensures SafeName(channel) == channel
    decreases |channel|
  {
    SafeNameMeaning(channel);
    if channel != [] {
      SafeNameOfClean(channel[1..]);
      SafeNameMeaning(channel[1..]);
    }
  }

  /** Two different channels can share a file name, so the later file
      overwrites the earlier one. */
  lemma {:induction false} SafeNameCollides()
    ensures "a b" != "a_b" && SafeName("a b") == SafeName("a_b")
  {
    assert "a b"[1] != "a_b"[1];
    SafeNameMeaning("a b");
    SafeNameMeaning("a_b");
    assert MapSafe("a b") == "a_b";
    assert MapSafe("a_b") == "a_b";
  }

  // ---------------------------------------------------------------------------
  // The per-channel rows and the loop of main

  /** `df[df["channel_name"] == channel]`. */
  function ChannelRows(rows: seq<Record>, channel: string): (out: seq<Record>)
    ensures forall k | 0 <= k < |out| :: out[k].channelName == channel
    ensures |out| <= |rows|
  {
    if rows == [] then []
    else
      var rest := ChannelRows(rows[1..], channel);
      if rows[0].channelName == channel then [rows[0]] + rest else rest
  }

  /** Exactly the rows of that channel are kept. */
  lemma {:induction false} ChannelRowsMembers(rows: seq<Record>, channel: string)
    ensures forall r :: r in ChannelRows(rows, channel) <==> r in rows && r.channelName == channel
    decreases |rows|
  {
    if rows != [] {
      ChannelRowsMembers(rows[1..], channel);
      ChannelRowsCons(rows, channel);
      assert forall r :: r in rows <==> r == rows[0] || r in rows[1..] by {
        HeadTail(rows);
      }
    }
  }

  lemma {:induction false} ChannelRowsCons(rows: seq<Record>, channel: string)
    requires rows != []
    ensures ChannelRows(rows, channel) ==
      (if rows[0].channelName == channel then [rows[0]] else []) + ChannelRows(rows[1..], channel)
  {
  }

  /** A single row is kept exactly when its channel matches. */
  lemma {:induction false} ChannelRowsSingle(r: Record, channel: string)
    ensures ChannelRows([r], channel) == if r.channelName == channel then [r] else []
  {
    assert [r][1..] == [];
  }

  /** The mask keeps the rows in their order and with their repetitions: the
      rows of two pieces are the rows of the first, then those of the second. */
  lemma {:induction false} ChannelRowsAppend(a: seq<Record>, b: seq<Record>, channel: string)
    ensures ChannelRows(a + b, channel) == ChannelRows(a, channel) + ChannelRows(b, channel)
    decreases |a|
  {
    if a == [] {
      assert a + b == b;
    } else {
      var ab := a + b;
      assert ab[0] == a[0];
      assert ab[1..] == a[1..] + b;
      ChannelRowsCons(ab, channel);
      ChannelRowsCons(a, channel);
      ChannelRowsAppend(a[1..], b, channel);
      var head := if a[0].channelName == channel then [a[0]] else [];
      Assoc(head, ChannelRows(a[1..], channel), ChannelRows(b, channel));
    }
  }

  // ---------------------------------------------------------------------------
  // pathlib on POSIX: `Path(s)`, its string, and `/` with one file name

  /** How many `/` a path starts with. */
  function LeadingSlashes(s: string): nat
    decreases |s|
  {
    if s != [] && s[0] == '/' then 1 + LeadingSlashes(s[1..]) else 0
  }

  /** The root pathlib keeps: none for a relative path, `//` for exactly two
      leading slashes, and `/` for one or for three and more. */
  function Root(s: string): string {
    var n := LeadingSlashes(s);
    if n == 0 then "" else if n == 2 then "//" else "/"
  }

  /** The text before the first `/`. */
  function Segment(s: string): (seg: string)
    ensures |seg| <= |s| && seg == s[..|seg|]
    ensures s != [] && s[0] != '/' ==> seg != []
    decreases |s|
  {
    if s == [] || s[0] == '/' then [] else [s[0]] + Segment(s[1..])
  }

  /** The components pathlib keeps after the root: the pieces between slashes,
      with the empty ones (repeated or trailing `/`) and `.` left out. */
  function Parts(s: string): seq<string>
    decreases |s|
  {
    if s == [] then []
    else if s[0] == '/' then Parts(s[1..])
    else
      var seg := Segment(s);
      (if seg == "." then [] else [seg]) + Parts(s[|seg|..])
  }

  /** The components written with `/` between them. */
  function JoinParts(ps: seq<string>): string {
    if ps == [] then ""
    else if |ps| == 1 then ps[0]
    else JoinParts(ps[..|ps| - 1]) + "/" + ps[|ps| - 1]
  }

  /** `str(Path(s))`: the root and the components, or `.` when both are empty. */
  function PathString(s: string): string {
    if Root(s) == "" && Parts(s) == [] then "." else Root(s) + JoinParts(Parts(s))
  }

  /** `Path(dir) / name` for a name that is one component. */
  function JoinPath(dir: string, name: string): string {
    Root(dir) + JoinParts(Parts(dir) + [name])
  }

  /** `output_dir / f"{safe_name}.csv"`. */
  function OutPath(outputDir: string, channel: string): string {
    JoinPath(outputDir, SafeName(channel) + ".csv")
  }

  /** The file name of a channel is one path component: it has no `/`. */
  lemma {:induction false} FileNameNoSlash(channel: string)
    ensures var name := SafeName(channel) + ".csv";
      forall i | 0 <= i < |name| :: name[i] != '/'
  {
    var safe := SafeName(channel);
    var name := safe + ".csv";
    SafeNameClean(channel);
    forall i | 0 <= i < |name| ensures name[i] != '/' {
      if i < |safe| {
        assert name[i] == safe[i];
      } else {
        assert name[i] == ".csv"[i - |safe|];
      }
    }
  }

  lemma {:induction false} JoinPartsSnoc(ps: seq<string>, name: string)
    ensures JoinParts(ps + [name]) == if ps == [] then name else JoinParts(ps) + "/" + name
  {
    var all := ps + [name];
    assert all[|all| - 1] == name;
    if ps != [] {
      assert all[..|all| - 1] == ps;
    } else {
      assert all == [name];
    }
  }

  /** Every output file lies directly inside the directory `Path(output_dir)`
      names: the path is that directory's string, a `/` unless the directory
      is `.` or a bare root, and the file name, which has no `/` of its own. */
  lemma {:induction false} OutPathInDirectory(outputDir: string, channel: string)
    ensures var name := SafeName(channel) + ".csv";
      && (forall i | 0 <= i < |name| :: name[i] != '/')
      && OutPath(outputDir, channel) ==
           (if Parts(outputDir) == [] then Root(outputDir) else PathString(outputDir) + "/") + name
  {
    var name := SafeName(channel) + ".csv";
    FileNameNoSlash(channel);
    var root, ps := Root(outputDir), Parts(outputDir);
    JoinPartsSnoc(ps, name);
    if ps != [] {
      var j := JoinParts(ps);
      assert PathString(outputDir) == root + j;
      Assoc(root, j, "/");
      Assoc(root, j + "/", name);
    } else {
      assert JoinParts(ps + [name]) == name;
    }
  }

  /** An empty output directory, or `.`, puts the file in the working
      directory under its bare name. */
  lemma {:induction false} OutPathHere(channel: string)
    ensures OutPath("", channel) == SafeName(channel) + ".csv"
    ensures OutPath(".", channel) == SafeName(channel) + ".csv"
  {
    assert Segment(".") == ".";
    assert "."[1..] == "";
    assert Parts(".") == [];
    assert [] + [SafeName(channel) + ".csv"] == [SafeName(channel) + ".csv"];
  }

  lemma {:induction false} SegmentSlash(s: string)
    ensures Segment(s + "/") == Segment(s)
    decreases |s|
  {
    if s != [] && s[0] != '/' {
      assert (s + "/")[1..] == s[1..] + "/";
      SegmentSlash(s[1..]);
    }
  }

  lemma {:induction false} PartsSlash(s: string)
    ensures Parts(s + "/") == Parts(s)
    decreases |s|
  {
    var t := s + "/";
    if s == [] {
      assert t[1..] == [];
    } else if s[0] == '/' {
      assert t[1..] == s[1..] + "/";
      PartsSlash(s[1..]);
    } else {
      SegmentSlash(s);
      var seg := Segment(s);
      assert t[|seg|..] == s[|seg|..] + "/";
      PartsSlash(s[|seg|..]);
    }
  }

  lemma {:induction false} LeadingSlashesSlash(s: string, i: nat)
    requires i < |s| && s[i] != '/'
    ensures LeadingSlashes(s + "/") == LeadingSlashes(s)
    decreases i
  {
    if s[0] == '/' {
      assert (s + "/")[1..] == s[1..] + "/";
      LeadingSlashesSlash(s[1..], i - 1);
    }
  }

  /** A trailing `/` on an output directory that is not only slashes makes no
      difference, as pathlib drops it. */
  lemma {:induction false} OutPathTrailingSlash(outputDir: string, channel: string, i: nat)
    requires i < |outputDir| && outputDir[i] != '/'
    ensures OutPath(outputDir + "/", channel) == OutPath(outputDir, channel)
  {
    PartsSlash(outputDir);
    LeadingSlashesSlash(outputDir, i);
  }

  /** One file write: its path and the rows it holds. */
  datatype Output = Output(path: string, rows: seq<Record>)

  /** The loop of `main` over `value_counts().head(top)`, given that ranking. */
  method SplitTopChannels(rows: seq<Record>, ranking: seq<string>, top: int, outputDir: string)
    returns (writes: seq<Output>)
    ensures |writes| == |Prefix(ranking, top)|
    ensures top >= 0 ==> |writes| <= top
    ensures forall k | 0 <= k < |writes| ::
      writes[k] == Output(OutPath(outputDir, Prefix(ranking, top)[k]), ChannelRows(rows, Prefix(ranking, top)[k]))
  {
    var topChannels := Prefix(ranking, top);
    writes := [];
    for k := 0 to |topChannels|
      invariant |writes| == k
      invariant forall m | 0 <= m < k ::
        writes[m] == Output(OutPath(outputDir, topChannels[m]), ChannelRows(rows, topChannels[m]))
    {
      var channel := topChannels[k];
      var safeName := SafeName(channel);
      var channelRows := ChannelRows(rows, channel);
      var outPath := JoinPath(outputDir, safeName + ".csv");
      writes := writes + [Output(outPath, channelRows)];
    }
  }

  /** What `value_counts().index` is: the distinct channel names of the rows,
      most frequent first. */
  predicate IsRanking(ranking: seq<string>, rows: seq<Record>) {
    && (forall i, j | 0 <= i < j < |ranking| :: ranking[i] != ranking[j])
    && (forall i | 0 <= i < |ranking| :: exists r | r in rows :: r.channelName == ranking[i])
    && (forall r | r in rows :: r.channelName in ranking)
    && (forall i, j | 0 <= i < j < |ranking| ::
          |ChannelRows(rows, ranking[i])| >= |ChannelRows(rows, ranking[j])|)
  }

  /** Under a true ranking every file written holds at least one row, and no
      two files are for the same channel. */
  lemma {:induction false} RankedOutputs(rows: seq<Record>, ranking: seq<string>, top: int)
    requires IsRanking(ranking, rows)
    ensures forall k | 0 <= k < |Prefix(ranking, top)| :: ChannelRows(rows, Prefix(ranking, top)[k]) != []
    ensures forall i, j | 0 <= i < j < |Prefix(ranking, top)| :: Prefix(ranking, top)[i] != Prefix(ranking, top)[j]
  {
    var chosen := Prefix(ranking, top);
    forall k | 0 <= k < |chosen| ensures ChannelRows(rows, chosen[k]) != [] {
      assert chosen[k] == ranking[k];
      var r :| r in rows && r.channelName == ranking[k];
      ChannelRowsMembers(rows, chosen[k]);
      assert r in ChannelRows(rows, chosen[k]);
    }
  }
}
