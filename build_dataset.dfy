/** `src/preprocessing/build_dataset.py`: turning raw CSV tables into KOL text
    records with confidence and sentiment labels. Files and rows are abstract:
    a file is its name and the table `pd.read_csv` gives (or none when reading
    failed), a row maps column names to cells. */
module Dataset {

  import opened Common
  import opened PyStr

  /** `MIN_TEXT_LENGTH`. */
  const MinTextLength := 30

  // ---------------------------------------------------------------------------
  // standardize_columns

  /** `col.strip().lower()`. */
  function ColumnKey(col: string): string {
    Lower(Strip(col))
  }

  /** The dict `standardize_columns` fills, for any naming `key`: every name
      maps to the last column that has it. */
  function KeyedMap(columns: seq<string>, key: string -> string): map<string, string> {
    if columns == [] then map[]
    else KeyedMap(columns[..|columns| - 1], key)[key(columns[|columns| - 1]) := columns[|columns| - 1]]
  }

  function ColumnMap(columns: seq<string>): map<string, string> {
    KeyedMap(columns, ColumnKey)
  }

  /** The names `key` gives to `columns`. */
  function KeysOf(columns: seq<string>, key: string -> string): set<string> {
    set i | 0 <= i < |columns| :: key(columns[i])
  }

  /** Column `i` is the last one with its name. */
  predicate LastWithKey(columns: seq<string>, key: string -> string, i: int)
    requires 0 <= i < |columns|
  {
    forall j | i < j < |columns| :: key(columns[j]) != key(columns[i])
  }

  lemma {:induction false} KeysOfSnoc(columns: seq<string>, key: string -> string)
    requires columns != []
    ensures KeysOf(columns, key)
         == KeysOf(columns[..|columns| - 1], key) + {key(columns[|columns| - 1])}
  {
    var init := columns[..|columns| - 1];
    forall i | 0 <= i < |init| ensures columns[i] == init[i] { }
  }

  /** Every name of a column is a key, and nothing else is. */
  lemma {:induction false} KeyedMapKeys(columns: seq<string>, key: string -> string)
    ensures KeyedMap(columns, key).Keys == KeysOf(columns, key)
    decreases |columns|
  {
    if columns != [] {
      KeyedMapKeys(columns[..|columns| - 1], key);
      KeysOfSnoc(columns, key);
    }
  }

  /** A key maps to the last column that has it. */
  lemma {:induction false} KeyedMapLast(columns: seq<string>, key: string -> string, i: int)
    requires 0 <= i < |columns| && LastWithKey(columns, key, i)
    ensures key(columns[i]) in KeyedMap(columns, key)
    ensures KeyedMap(columns, key)[key(columns[i])] == columns[i]
    decreases |columns|
  {
    var init := columns[..|columns| - 1];
    var last := columns[|columns| - 1];
    if i < |init| {
      assert columns[i] == init[i];
      assert LastWithKey(init, key, i) by {
        forall j | i < j < |init| ensures key(init[j]) != key(init[i]) {
          assert init[j] == columns[j];
        }
      }
      KeyedMapLast(init, key, i);
      assert key(last) != key(columns[i]);
    }
  }

  /** `standardize_columns` maps exactly the canonical names, each to the last
      column carrying it. */
  lemma {:induction false} ColumnMapSpec(columns: seq<string>)
    ensures ColumnMap(columns).Keys == set i | 0 <= i < |columns| :: ColumnKey(columns[i])
    ensures forall i | 0 <= i < |columns| && LastWithKey(columns, ColumnKey, i) ::
      ColumnMap(columns)[ColumnKey(columns[i])] == columns[i]
  {
    KeyedMapKeys(columns, ColumnKey);
    forall i | 0 <= i < |columns| && LastWithKey(columns, ColumnKey, i)
      ensures ColumnMap(columns)[ColumnKey(columns[i])] == columns[i]
    {
      KeyedMapLast(columns, ColumnKey, i);
    }
  }

  method StandardizeColumns(columns: seq<string>) returns (mapping: map<string, string>)
    ensures mapping == ColumnMap(columns)
  {
    mapping := map[];
    for i := 0 to |columns|
      invariant mapping == ColumnMap(columns[..i])
    {
      var col := columns[i];
      assert columns[..i + 1][..i] == columns[..i];
      mapping := mapping[ColumnKey(col) := col];
    }
    assert columns[..|columns|] == columns;
  }

  // ---------------------------------------------------------------------------
  // Cells, rows and files

  /** A float as pandas holds it; NaN stands apart because it equals nothing. */
  datatype Float = Finite(value: real) | NaN

  /** A cell of a table read by `pd.read_csv`: a string, or a number (an empty
      cell reads as NaN). */
  datatype Cell = Str(s: string) | Num(x: Float)

  /** One row of a table, by column name. */
  type Row = map<string, Cell>

  datatype Table = Table(columns: seq<string>, rows: seq<Row>)

  /** A CSV file: its name, and the table read from it, or `None` when
      `pd.read_csv` raised. */
  datatype SourceFile = SourceFile(name: string, table: Option<Table>)

  /** Python's `float(s)` on a string (`None` when it raises) and `str(x)` on
      a number, both left abstract. */
  datatype Coercion = Coercion(parse: string -> Option<Float>, show: Float -> string)

  /** `float(cell)`. */
  function ToFloat(c: Cell, co: Coercion): Option<Float> {
    match c
    case Str(s) => co.parse(s)
    case Num(x) => Some(x)
  }

  /** `str(cell)`. */
  function ToStr(c: Cell, co: Coercion): string {
    match c
    case Str(s) => s
    case Num(x) => co.show(x)
  }

  /** A dataset row. */
  datatype Record = Record(
    sourceFile: string,
    platform: string,
    videoId: string,
    channelName: string,
    publishedAt: string,
    title: string,
    text: string,
    company: string,
    confidence: Float,
    sentiment: Float)

  // ---------------------------------------------------------------------------
  // pick_text

  /** The columns `pick_text` tries, in priority order. */
  const TextColumns: seq<string> := ["transcript", "summary", "description"]

  /** What the candidate `name` offers: the normalised value of its column when
      that is a string with something left after normalising. */
  function Candidate(row: Row, columnMap: map<string, string>, name: string): Option<string> {
    if name in columnMap && columnMap[name] in row && row[columnMap[name]].Str? then
      var normalized := Squeeze(row[columnMap[name]].s);
      if normalized != [] then Some(normalized) else None
    else None
  }

  /** A candidate is offered exactly when its column holds a string that is not
      all whitespace, and what is offered is non-empty and normalised. */
  lemma {:induction false} CandidateShape(row: Row, columnMap: map<string, string>, name: string)
    ensures Candidate(row, columnMap, name).Some? ==>
      Candidate(row, columnMap, name).value != [] && Squeezed(Candidate(row, columnMap, name).value)
  {
    if name in columnMap && columnMap[name] in row && row[columnMap[name]].Str? {
      SqueezeSqueezed(row[columnMap[name]].s);
    }
  }

  lemma {:induction false} CandidateOffered(row: Row, columnMap: map<string, string>, name: string)
    ensures Candidate(row, columnMap, name).Some? <==>
      name in columnMap && columnMap[name] in row
      && row[columnMap[name]].Str? && !AllSpace(row[columnMap[name]].s)
  {
    if name in columnMap && columnMap[name] in row && row[columnMap[name]].Str? {
      SqueezeEmpty(row[columnMap[name]].s);
    }
  }

  /** The first candidate among `names` on offer, or `""`. */
  function FirstCandidate(row: Row, columnMap: map<string, string>, names: seq<string>): string {
    if names == [] then ""
    else
      var value := Candidate(row, columnMap, names[0]);
      if value.Some? then value.value else FirstCandidate(row, columnMap, names[1..])
  }

  /** The text `pick_text` chooses. */
  function ChosenText(row: Row, columnMap: map<string, string>): string {
    FirstCandidate(row, columnMap, TextColumns)
  }

  /** The transcript when it is on offer, else the summary, else the
      description, else `""`; the result is always normalised. */
  lemma {:induction false} ChosenTextSpec(row: Row, columnMap: map<string, string>)
    ensures Squeezed(ChosenText(row, columnMap))
    ensures ChosenText(row, columnMap) ==
      var transcript := Candidate(row, columnMap, "transcript");
      var summary := Candidate(row, columnMap, "summary");
      var description := Candidate(row, columnMap, "description");
      if transcript.Some? then transcript.value
      else if summary.Some? then summary.value
      else if description.Some? then description.value
      else ""
  {
    CandidateShape(row, columnMap, "transcript");
    CandidateShape(row, columnMap, "summary");
    CandidateShape(row, columnMap, "description");
    assert Squeezed([]);
    var names := TextColumns;
    assert names[0] == "transcript" && names[1..] == ["summary", "description"];
    assert names[1..][0] == "summary" && names[1..][1..] == ["description"];
    assert names[1..][1..][0] == "description" && names[1..][1..][1..] == [];
    var n2 := names[1..];
    var n3 := n2[1..];
    assert FirstCandidate(row, columnMap, n3[1..]) == "";
    assert FirstCandidate(row, columnMap, n3) ==
      if Candidate(row, columnMap, "description").Some? then Candidate(row, columnMap, "description").value else "";
    assert FirstCandidate(row, columnMap, n2) ==
      if Candidate(row, columnMap, "summary").Some? then Candidate(row, columnMap, "summary").value
      else FirstCandidate(row, columnMap, n3);
    assert FirstCandidate(row, columnMap, names) ==
      if Candidate(row, columnMap, "transcript").Some? then Candidate(row, columnMap, "transcript").value
      else FirstCandidate(row, columnMap, n2);
  }

  /** No text is chosen exactly when no candidate column holds a string that
      is not all whitespace. */
  lemma {:induction false} ChosenTextEmpty(row: Row, columnMap: map<string, string>)
    ensures ChosenText(row, columnMap) == [] <==>
      forall k | 0 <= k < |TextColumns| :: Candidate(row, columnMap, TextColumns[k]).None?
  {
    var transcript := Candidate(row, columnMap, "transcript");
    var summary := Candidate(row, columnMap, "summary");
    var description := Candidate(row, columnMap, "description");
    assert ChosenText(row, columnMap) == [] <==> transcript.None? && summary.None? && description.None? by {
      ChosenTextSpec(row, columnMap);
      CandidateShape(row, columnMap, "transcript");
      CandidateShape(row, columnMap, "summary");
      CandidateShape(row, columnMap, "description");
    }
    assert TextColumns[0] == "transcript" && TextColumns[1] == "summary" && TextColumns[2] == "description";
    if ChosenText(row, columnMap) == [] {
      forall k | 0 <= k < |TextColumns| ensures Candidate(row, columnMap, TextColumns[k]).None? {
        assert k == 0 || k == 1 || k == 2;
      }
    } else if transcript.Some? {
      assert Candidate(row, columnMap, TextColumns[0]).Some?;
    } else if summary.Some? {
      assert Candidate(row, columnMap, TextColumns[1]).Some?;
    } else {
      assert Candidate(row, columnMap, TextColumns[2]).Some?;
    }
  }

  method PickText(row: Row, columnMap: map<string, string>) returns (text: string)
    ensures text == ChosenText(row, columnMap)
  {
    var candidates := TextColumns;
    for i := 0 to |candidates|
      invariant FirstCandidate(row, columnMap, candidates) == FirstCandidate(row, columnMap, candidates[i..])
    {
      var value := Candidate(row, columnMap, candidates[i]);
      if value.Some? {
        return value.value;
      }
      assert candidates[i..][1..] == candidates[i + 1..];
    }
    return "";
  }

  // ---------------------------------------------------------------------------
  // looks_useless

  /** `c` matches the pattern character `p` under `re.IGNORECASE`, for the
      pattern characters of `https?://`: a letter matches both of its cases,
      and `s` also matches U+017F, the long s. */
  predicate FoldMatch(c: char, p: char) {
    LowerChar(c) == p || (p == 's' && c == '\U{17f}')
  }

  predicate StartsWithFolded(s: string, p: string) {
    |p| <= |s| && forall i | 0 <= i < |p| :: FoldMatch(s[i], p[i])
  }

  predicate StartsWithUrl(s: string) {
    StartsWithFolded(s, "http://") || StartsWithFolded(s, "https://")
  }

  /** `^\s*https?://` with `re.IGNORECASE` finds a match. */
  predicate UrlStart(text: string) {
    StartsWithUrl(TrimLeft(text))
  }

  /** `^\s*\[[^\]]+\]\s*$` finds a match: the text is one bracketed tag such
      as `[Music]`, with whitespace around it at most. */
  predicate BracketTag(text: string) {
    IsTag(Strip(text))
  }

  /** `[`, at least one character other than `]`, then `]`. */
  predicate IsTag(t: string) {
    |t| >= 3 && t[0] == '[' && t[|t| - 1] == ']' && forall m | 1 <= m < |t| - 1 :: t[m] != ']'
  }

  /** `looks_useless`. */
  predicate LooksUseless(text: string) {
    |text| < MinTextLength || BracketTag(text) || UrlStart(text)
  }

  /** The regular expression's own reading of a URL start: whitespace up to index
      `i`, then `http://` or `https://` in any case. */
  predicate UrlAt(text: string, i: int) {
    0 <= i <= |text| && AllSpace(text[..i]) && StartsWithUrl(text[i..])
  }

  /** The regular expression's own reading of a bracketed tag: whitespace up to
      `i`, a `[` at `i`, at least one character other than `]`, a `]` at `j`, and
      whitespace after it. */
  predicate BracketAt(text: string, i: int, j: int) {
    && 0 <= i && i + 1 < j < |text|
    && AllSpace(text[..i]) && text[i] == '[' && text[j] == ']'
    && (forall m | i < m < j :: text[m] != ']')
    && AllSpace(text[j + 1..])
  }

  lemma {:induction false} UrlStartMeaning(text: string)
    ensures UrlStart(text) <==> exists i :: UrlAt(text, i)
  {
    var u := TrimLeft(text);
    if UrlStart(text) {
      var i := |text| - |u|;
      assert AllSpace(text[..i]);
      assert UrlAt(text, i);
    }
    if i :| UrlAt(text, i) {
      assert FoldMatch(text[i..][0], 'h');
      assert !IsSpace(text[i]);
      TrimLeftAt(text, i);
    }
  }

  /** The bracket shape of a stripped piece, read back in the whole text. */
  lemma {:induction false} BracketOfPiece(text: string, i: int, t: string)
    requires 0 <= i && i + |t| <= |text| && t == text[i..i + |t|]
    requires AllSpace(text[..i]) && AllSpace(text[i + |t|..])
    requires IsTag(t)
    ensures exists i, j :: BracketAt(text, i, j)
  {
    var j := i + |t| - 1;
    assert text[i] == t[0] && text[j] == t[|t| - 1];
    assert text[j + 1..] == text[i + |t|..];
    forall m | i < m < j ensures text[m] != ']' {
      assert text[m] == t[m - i];
    }
    assert BracketAt(text, i, j);
  }

  /** A bracket tag is a match of the pattern: the stripped piece is the tag. */
  lemma {:induction false} BracketTagFound(text: string)
    requires BracketTag(text)
    ensures exists i, j :: BracketAt(text, i, j)
  {
    var i, t := StripAt(text);
    BracketOfPiece(text, i, t);
  }

  /** For a match at `i` and `j`, `rstrip` of the text from `i` on ends at `j`. */
  lemma {:induction false} TrimRightOfMatch(text: string, i: int, j: int)
    requires BracketAt(text, i, j)
    ensures TrimRight(text[i..]) == text[i..j + 1]
  {
    var u := text[i..];
    var k := j + 1 - i;
    assert u[k..] == text[j + 1..];
    assert u[k - 1] == text[j];
    TrimRightAt(u, k);
    assert u[..k] == text[i..j + 1];
  }

  /** For a match at `i` and `j`, stripping leaves exactly `text[i..j + 1]`. */
  lemma {:induction false} StripOfMatch(text: string, i: int, j: int)
    requires BracketAt(text, i, j)
    ensures Strip(text) == text[i..j + 1]
  {
    assert TrimLeft(text) == text[i..] by {
      assert !IsSpace(text[i]);
      TrimLeftAt(text, i);
    }
    TrimRightOfMatch(text, i, j);
  }

  /** The matched piece of a match is a tag. */
  lemma {:induction false} TagOfMatch(text: string, i: int, j: int)
    requires BracketAt(text, i, j)
    ensures IsTag(text[i..j + 1])
  {
    var t := text[i..j + 1];
    forall m | 1 <= m < |t| - 1 ensures t[m] != ']' {
      assert t[m] == text[i + m];
    }
  }

  lemma {:induction false} BracketTagOfMatch(text: string, i: int, j: int)
    requires BracketAt(text, i, j)
    ensures BracketTag(text)
  {
    StripOfMatch(text, i, j);
    TagOfMatch(text, i, j);
  }

  lemma {:induction false} BracketTagMeaning(text: string)
    ensures BracketTag(text) <==> exists i, j :: BracketAt(text, i, j)
  {
    if BracketTag(text) {
      BracketTagFound(text);
    }
    if i, j :| BracketAt(text, i, j) {
      BracketTagOfMatch(text, i, j);
    }
  }

  // ---------------------------------------------------------------------------
  // detect_platform

  /** `sub in s`. */
  predicate Contains(s: string, sub: string)
    decreases |s|
  {
    |sub| <= |s| && (s[..|sub|] == sub || Contains(s[1..], sub))
  }

  predicate OccursAt(s: string, sub: string, i: int) {
    0 <= i && i + |sub| <= |s| && s[i..i + |sub|] == sub
  }

  /** `sub in s` holds exactly when `sub` occurs at some index of `s`. */
  lemma {:induction false} ContainsMeaning(s: string, sub: string)
    ensures Contains(s, sub) <==> exists i :: OccursAt(s, sub, i)
    decreases |s|
  {
    if s == [] {
      if sub == [] {
        assert OccursAt(s, sub, 0);
      }
    } else if |sub| <= |s| {
      ContainsMeaning(s[1..], sub);
      if s[..|sub|] == sub {
        assert OccursAt(s, sub, 0);
      }
      if i :| OccursAt(s[1..], sub, i) {
        assert s[1..][i..i + |sub|] == s[i + 1..i + 1 + |sub|];
        assert OccursAt(s, sub, i + 1);
      }
      if i :| OccursAt(s, sub, i) {
        if i > 0 {
          assert s[1..][i - 1..i - 1 + |sub|] == s[i..i + |sub|];
          assert OccursAt(s[1..], sub, i - 1);
        }
      }
    }
  }

  /** `detect_platform` on the file's name. */
  function DetectPlatform(fileName: string): (platform: string)
    ensures platform == "youtube" || platform == "tiktok" || platform == "unknown"
  {
    var name := Lower(fileName);
    if Contains(name, "youtube") then "youtube"
    else if Contains(name, "tiktok") then "tiktok"
    else "unknown"
  }

  /** The platform does not depend on the case of the name. */
  lemma {:induction false} DetectPlatformIgnoresCase(fileName: string)
    ensures DetectPlatform(Lower(fileName)) == DetectPlatform(fileName)
  {
    LowerIdempotent(fileName);
  }

  /** The rule for every file name: "youtube" anywhere in the lower-cased
      name decides first, then "tiktok", and otherwise the platform is unknown. */
  lemma {:induction false} DetectPlatformRule(fileName: string)
    ensures var name := Lower(fileName);
      && (DetectPlatform(fileName) == "youtube" <==> exists i :: OccursAt(name, "youtube", i))
      && (DetectPlatform(fileName) == "tiktok" <==>
            (forall i :: !OccursAt(name, "youtube", i)) && exists i :: OccursAt(name, "tiktok", i))
      && (DetectPlatform(fileName) == "unknown" <==>
            (forall i :: !OccursAt(name, "youtube", i)) && forall i :: !OccursAt(name, "tiktok", i))
  {
    ContainsMeaning(Lower(fileName), "youtube");
    ContainsMeaning(Lower(fileName), "tiktok");
  }

  /** A name that mentions both platforms counts as YouTube. */
  lemma {:induction false} DetectPlatformBoth()
    ensures DetectPlatform("TikTok_YouTube") == "youtube"
  {
    var a := Lower("TikTok_YouTube");
    assert a == "tiktok_youtube";
    assert OccursAt(a, "youtube", 7);
    ContainsMeaning(a, "youtube");
  }

  /** An occurrence starts with the first character of what occurs. */
  lemma {:induction false} OccursHead(s: string, sub: string, i: int)
    requires OccursAt(s, sub, i) && sub != []
    ensures s[i] == sub[0]
  {
    assert s[i..i + |sub|][0] == s[i];
  }

  /** A TikTok export that never mentions YouTube. */
  lemma {:induction false} DetectPlatformTikTok()
    ensures DetectPlatform("TikTok.csv") == "tiktok"
  {
    var b := Lower("TikTok.csv");
    assert b[0] == 't' && b[1] == 'i' && b[2] == 'k' && b[3] == 't' && b[4] == 'o' && b[5] == 'k';
    assert b[6] == '.' && b[7] == 'c' && b[8] == 's' && b[9] == 'v';
    assert OccursAt(b, "tiktok", 0);
    ContainsMeaning(b, "tiktok");
    ContainsMeaning(b, "youtube");
    forall i ensures !OccursAt(b, "youtube", i) {
      if OccursAt(b, "youtube", i) {
        OccursHead(b, "youtube", i);
      }
    }
  }

  // ---------------------------------------------------------------------------
  // process_file

  /** The trimmed string form of the column that `name` canonically denotes,
      `""` when there is no such column in the row. */
  function Field(row: Row, columnMap: map<string, string>, name: string, co: Coercion): string {
    var col := if name in columnMap then columnMap[name] else "";
    Strip(if col in row then ToStr(row[col], co) else "")
  }

  /** The record one row yields, or `None` when the row is skipped: a label that
      is missing or not a float, or a text that is empty or useless. */
  function RowRecord(row: Row, columnMap: map<string, string>, fileName: string,
                     platform: string, co: Coercion): Option<Record>
    requires "confidence" in columnMap && "sentiment" in columnMap
  {
    var confidenceCol := columnMap["confidence"];
    var sentimentCol := columnMap["sentiment"];
    if confidenceCol !in row || sentimentCol !in row then None
    else
      var confidence := ToFloat(row[confidenceCol], co);
      var sentiment := ToFloat(row[sentimentCol], co);
      if confidence.None? || sentiment.None? then None
      else
        var text := ChosenText(row, columnMap);
        if text == [] || LooksUseless(text) then None
        else Some(Record(
          sourceFile := fileName,
          platform := platform,
          videoId := Field(row, columnMap, "video_id", co),
          channelName := Field(row, columnMap, "channel_name", co),
          publishedAt := Field(row, columnMap, "publishedat", co),
          title := Field(row, columnMap, "title", co),
          text := text,
          company := Field(row, columnMap, "company", co),
          confidence := confidence.value,
          sentiment := sentiment.value))
  }

  /** A row yields a record exactly when both labels are present and read as
      floats and the chosen text is non-empty and not useless; the record
      carries that text, the file's name and its platform. */
  lemma {:induction false} RowRecordSpec(row: Row, columnMap: map<string, string>, fileName: string,
                      platform: string, co: Coercion)
    requires "confidence" in columnMap && "sentiment" in columnMap
    ensures var r := RowRecord(row, columnMap, fileName, platform, co);
      && (r.Some? ==> r.value.text == ChosenText(row, columnMap))
      && (r.Some? ==> r.value.sourceFile == fileName && r.value.platform == platform)
      && (r.Some? <==>
        && columnMap["confidence"] in row && columnMap["sentiment"] in row
        && ToFloat(row[columnMap["confidence"]], co).Some?
        && ToFloat(row[columnMap["sentiment"]], co).Some?
        && ChosenText(row, columnMap) != [] && !LooksUseless(ChosenText(row, columnMap)))
  {
  }

  /** The records of `rows`, in row order. */
  function RowsRecords(rows: seq<Row>, columnMap: map<string, string>, fileName: string,
                       platform: string, co: Coercion): seq<Record>
    requires "confidence" in columnMap && "sentiment" in columnMap
  {
    if rows == [] then []
    else
      var r := RowRecord(rows[|rows| - 1], columnMap, fileName, platform, co);
      RowsRecords(rows[..|rows| - 1], columnMap, fileName, platform, co)
        + (if r.Some? then [r.value] else [])
  }

  /** The labels `process_file` demands. */
  const RequiredColumns: seq<string> := ["confidence", "sentiment"]

  /** The records of a file: none when it cannot be read or lacks a label
      column, else those of its rows. */
  function FileRecords(file: SourceFile, co: Coercion): seq<Record> {
    if file.table.None? then []
    else
      var columnMap := ColumnMap(file.table.value.columns);
      if "confidence" in columnMap && "sentiment" in columnMap then
        RowsRecords(file.table.value.rows, columnMap, file.name, DetectPlatform(file.name), co)
      else []
  }

  /** What a kept record satisfies: its text is non-empty, normalised and not
      useless, and it names the file and platform it came from. */
  predicate Kept(r: Record, fileName: string) {
    && r.text != [] && Squeezed(r.text) && !LooksUseless(r.text)
    && r.sourceFile == fileName && r.platform == DetectPlatform(fileName)
  }

  lemma {:induction false} KeptSnoc(prev: seq<Record>, r: Option<Record>, fileName: string)
    requires forall k | 0 <= k < |prev| :: Kept(prev[k], fileName)
    requires r.Some? ==> Kept(r.value, fileName)
    ensures var all := prev + (if r.Some? then [r.value] else []);
      forall k | 0 <= k < |all| :: Kept(all[k], fileName)
  {
    var all := prev + (if r.Some? then [r.value] else []);
    forall k | 0 <= k < |all| ensures Kept(all[k], fileName) {
      if k < |prev| {
        assert all[k] == prev[k];
      } else {
        assert all[k] == r.value;
      }
    }
  }

  lemma {:induction false} RowRecordKept(row: Row, columnMap: map<string, string>,
                                         fileName: string, co: Coercion)
    requires "confidence" in columnMap && "sentiment" in columnMap
    ensures var r := RowRecord(row, columnMap, fileName, DetectPlatform(fileName), co);
      r.Some? ==> Kept(r.value, fileName)
  {
    RowRecordSpec(row, columnMap, fileName, DetectPlatform(fileName), co);
    ChosenTextSpec(row, columnMap);
  }

  lemma {:induction false} RowsRecordsKept(rows: seq<Row>, columnMap: map<string, string>,
                                           fileName: string, co: Coercion)
    requires "confidence" in columnMap && "sentiment" in columnMap
    ensures forall k | 0 <= k < |RowsRecords(rows, columnMap, fileName, DetectPlatform(fileName), co)| ::
      Kept(RowsRecords(rows, columnMap, fileName, DetectPlatform(fileName), co)[k], fileName)
    decreases |rows|
  {
    if rows != [] {
      var platform := DetectPlatform(fileName);
      var init, row := rows[..|rows| - 1], rows[|rows| - 1];
      var prev := RowsRecords(init, columnMap, fileName, platform, co);
      var r := RowRecord(row, columnMap, fileName, platform, co);
      var all := RowsRecords(rows, columnMap, fileName, platform, co);
      assert all == prev + (if r.Some? then [r.value] else []);
      RowsRecordsKept(init, columnMap, fileName, co);
      RowRecordKept(row, columnMap, fileName, co);
      KeptSnoc(prev, r, fileName);
    }
  }

  /** Every record of a file is kept for a reason: non-empty, normalised,
      useful text, tagged with the file's name and platform. */
  lemma {:induction false} FileRecordsKept(file: SourceFile, co: Coercion)
    ensures forall k | 0 <= k < |FileRecords(file, co)| :: Kept(FileRecords(file, co)[k], file.name)
  {
    if file.table.Some? {
      var columnMap := ColumnMap(file.table.value.columns);
      if "confidence" in columnMap && "sentiment" in columnMap {
        RowsRecordsKept(file.table.value.rows, columnMap, file.name, co);
      }
    }
  }

  /** A file without a confidence or a sentiment column, under any spelling
      that canonicalises to it, yields nothing. */
  lemma {:induction false} FileWithoutLabels(file: SourceFile, co: Coercion)
    requires file.table.Some?
    requires || (forall i | 0 <= i < |file.table.value.columns| ::
                  ColumnKey(file.table.value.columns[i]) != "confidence")
             || (forall i | 0 <= i < |file.table.value.columns| ::
                  ColumnKey(file.table.value.columns[i]) != "sentiment")
    ensures FileRecords(file, co) == []
  {
    ColumnMapSpec(file.table.value.columns);
  }

  /** The `required` loop of `process_file`: every label has a column. */
  method HasRequired(columnMap: map<string, string>) returns (ok: bool)
    ensures ok <==> "confidence" in columnMap && "sentiment" in columnMap
  {
    for j := 0 to |RequiredColumns|
      invariant forall k | 0 <= k < j :: RequiredColumns[k] in columnMap
    {
      if RequiredColumns[j] !in columnMap {
        return false;
      }
    }
    assert RequiredColumns[0] == "confidence" && RequiredColumns[1] == "sentiment";
    return true;
  }

  /** The body of the row loop of `process_file`. */
  method ProcessRow(row: Row, columnMap: map<string, string>, fileName: string,
                    platform: string, co: Coercion) returns (record: Option<Record>)
    requires "confidence" in columnMap && "sentiment" in columnMap
    ensures record == RowRecord(row, columnMap, fileName, platform, co)
  {
    var confidenceCol := columnMap["confidence"];
    var sentimentCol := columnMap["sentiment"];
    if confidenceCol !in row || sentimentCol !in row {
      return None;
    }
    var confidence := ToFloat(row[confidenceCol], co);
    var sentiment := ToFloat(row[sentimentCol], co);
    if confidence.None? || sentiment.None? {
      return None;
    }
    var text := PickText(row, columnMap);
    if text == [] || LooksUseless(text) {
      return None;
    }
    record := Some(Record(
      sourceFile := fileName,
      platform := platform,
      videoId := Field(row, columnMap, "video_id", co),
      channelName := Field(row, columnMap, "channel_name", co),
      publishedAt := Field(row, columnMap, "publishedat", co),
      title := Field(row, columnMap, "title", co),
      text := text,
      company := Field(row, columnMap, "company", co),
      confidence := confidence.value,
      sentiment := sentiment.value));
  }

  method ProcessFile(file: SourceFile, co: Coercion) returns (records: seq<Record>)
    ensures records == FileRecords(file, co)
  {
    if file.table.None? {
      return [];
    }
    var table := file.table.value;
    var columnMap := StandardizeColumns(table.columns);
    var labelled := HasRequired(columnMap);
    if !labelled {
      return [];
    }
    var platform := DetectPlatform(file.name);
    records := ProcessRows(table.rows, columnMap, file.name, platform, co);
  }

  /** The row loop of `process_file`: each row's record, in row order. */
  method ProcessRows(rows: seq<Row>, columnMap: map<string, string>, fileName: string,
                     platform: string, co: Coercion) returns (records: seq<Record>)
    requires "confidence" in columnMap && "sentiment" in columnMap
    ensures records == RowsRecords(rows, columnMap, fileName, platform, co)
  {
    records := [];
    for i := 0 to |rows|
      invariant records == RowsRecords(rows[..i], columnMap, fileName, platform, co)
    {
      assert rows[..i + 1][..i] == rows[..i];
      var record := ProcessRow(rows[i], columnMap, fileName, platform, co);
      if record.Some? {
        records := records + [record.value];
      }
    }
    assert rows[..|rows|] == rows;
  }

  // ---------------------------------------------------------------------------
  // build_dataset

  /** The records of all files, file after file. */
  function AllRecords(files: seq<SourceFile>, co: Coercion): seq<Record> {
    if files == [] then []
    else AllRecords(files[..|files| - 1], co) + FileRecords(files[|files| - 1], co)
  }

  /** The columns `drop_duplicates` compares. */
  function KeyOf(r: Record): (string, string, string) {
    (r.videoId, r.company, r.text)
  }

  function RecordKeys(rs: seq<Record>): set<(string, string, string)> {
    set i | 0 <= i < |rs| :: KeyOf(rs[i])
  }

  /** Record `i` is the first with its key. */
  predicate FirstOfKey(rs: seq<Record>, i: int)
    requires 0 <= i < |rs|
  {
    KeyOf(rs[i]) !in RecordKeys(rs[..i])
  }

  /** `drop_duplicates(subset=["video_id", "company", "text"])` with the default
      `keep="first"`: a record stays exactly when no earlier one has its key. */
  function Dedupe(rs: seq<Record>): seq<Record> {
    if rs == [] then []
    else Dedupe(rs[..|rs| - 1]) + (if FirstOfKey(rs, |rs| - 1) then [rs[|rs| - 1]] else [])
  }

  /** `df[df["text"].str.len() >= MIN_TEXT_LENGTH]`. */
  function LongTexts(rs: seq<Record>): seq<Record> {
    if rs == [] then []
    else
      LongTexts(rs[..|rs| - 1])
        + (if |rs[|rs| - 1].text| >= MinTextLength then [rs[|rs| - 1]] else [])
  }

  /** `a` is `b` with some elements left out, order kept. */
  predicate Subsequence(a: seq<Record>, b: seq<Record>)
    decreases |b|
  {
    if a == [] then true
    else if b == [] then false
    else if a[|a| - 1] == b[|b| - 1] then Subsequence(a[..|a| - 1], b[..|b| - 1])
    else Subsequence(a, b[..|b| - 1])
  }

  lemma {:induction false} SubsequenceSnoc(a: seq<Record>, b: seq<Record>, x: Record)
    requires Subsequence(a, b)
    ensures Subsequence(a, b + [x]) && Subsequence(a + [x], b + [x])
  {
    assert (b + [x])[..|b|] == b;
    assert (a + [x])[..|a|] == a;
    SubsequenceGrow(a, b, x);
  }

  lemma {:induction false} SubsequenceGrow(a: seq<Record>, b: seq<Record>, x: Record)
    requires Subsequence(a, b)
    ensures Subsequence(a, b + [x])
    decreases |b|, 1
  {
    var b' := b + [x];
    assert b'[..|b|] == b;
    if a != [] && a[|a| - 1] == x {
      // the last element of `a` now pairs with `x`; the rest still fits in `b`
      SubsequenceInit(a, b);
    }
  }

  lemma {:induction false} SubsequenceInit(a: seq<Record>, b: seq<Record>)
    requires a != [] && Subsequence(a, b)
    ensures Subsequence(a[..|a| - 1], b)
    decreases |b|, 0
  {
    var init := a[..|a| - 1];
    if a[|a| - 1] == b[|b| - 1] {
      if init != [] {
        SubsequenceGrow(init, b[..|b| - 1], b[|b| - 1]);
        InitLast(b);
      }
    } else {
      SubsequenceInit(a, b[..|b| - 1]);
      if init != [] {
        SubsequenceGrow(init, b[..|b| - 1], b[|b| - 1]);
        InitLast(b);
      }
    }
  }

  lemma {:induction false} RecordKeysSnoc(rs: seq<Record>, x: Record)
    ensures RecordKeys(rs + [x]) == RecordKeys(rs) + {KeyOf(x)}
  {
    var t := rs + [x];
    forall i | 0 <= i < |rs| ensures t[i] == rs[i] { }
    assert KeyOf(t[|rs|]) == KeyOf(x);
  }

  /** Deduplication keeps records in their order. */
  lemma {:induction false} DedupeSubsequence(rs: seq<Record>)
    ensures Subsequence(Dedupe(rs), rs)
    decreases |rs|
  {
    if rs != [] {
      var init, x := rs[..|rs| - 1], rs[|rs| - 1];
      InitLast(rs);
      DedupeSubsequence(init);
      SubsequenceSnoc(Dedupe(init), init, x);
      if FirstOfKey(rs, |rs| - 1) {
        assert Dedupe(rs) == Dedupe(init) + [x];
      } else {
        assert Dedupe(rs) == Dedupe(init);
      }
    }
  }

  /** Every key of the input survives deduplication, and no other appears. */
  lemma {:induction false} DedupeKeys(rs: seq<Record>)
    ensures RecordKeys(Dedupe(rs)) == RecordKeys(rs)
    decreases |rs|
  {
    if rs != [] {
      var init := rs[..|rs| - 1];
      var last := rs[|rs| - 1];
      DedupeKeys(init);
      RecordKeysSnoc(init, last);
      InitLast(rs);
      if FirstOfKey(rs, |rs| - 1) {
        RecordKeysSnoc(Dedupe(init), last);
      } else {
        assert Dedupe(rs) == Dedupe(init);
      }
    }
  }

  /** No two deduplicated records share a key. */
  lemma {:induction false} DedupeDistinct(rs: seq<Record>)
    ensures forall i, j | 0 <= i < j < |Dedupe(rs)| :: KeyOf(Dedupe(rs)[i]) != KeyOf(Dedupe(rs)[j])
    decreases |rs|
  {
    if rs != [] {
      var init := rs[..|rs| - 1];
      var last := rs[|rs| - 1];
      DedupeDistinct(init);
      DedupeKeys(init);
      var d := Dedupe(init);
      if FirstOfKey(rs, |rs| - 1) {
        forall i | 0 <= i < |d| ensures KeyOf(d[i]) != KeyOf(last) {
          assert KeyOf(d[i]) in RecordKeys(d);
        }
        assert Dedupe(rs) == d + [last];
      }
    }
  }

  /** The first record with each key is kept. */
  lemma {:induction false} DedupeKeepsFirst(rs: seq<Record>, i: int)
    requires 0 <= i < |rs| && FirstOfKey(rs, i)
    ensures rs[i] in Dedupe(rs)
    decreases |rs|
  {
    var init := rs[..|rs| - 1];
    if i < |init| {
      assert init[..i] == rs[..i];
      DedupeKeepsFirst(init, i);
    }
  }

  /** The length filter keeps everything when every text is long enough. */
  lemma {:induction false} LongTextsKeepsLong(rs: seq<Record>)
    requires forall k | 0 <= k < |rs| :: |rs[k].text| >= MinTextLength
    ensures LongTexts(rs) == rs
    decreases |rs|
  {
    if rs != [] {
      var init := rs[..|rs| - 1];
      assert forall k | 0 <= k < |init| :: init[k] == rs[k];
      LongTextsKeepsLong(init);
      assert LongTexts(rs) == init + [rs[|rs| - 1]];
      InitLast(rs);
    }
  }

  /** A record came from one of `files` and was kept there. */
  predicate FromFiles(r: Record, files: seq<SourceFile>) {
    exists i | 0 <= i < |files| :: Kept(r, files[i].name)
  }

  lemma {:induction false} AllRecordsKept(files: seq<SourceFile>, co: Coercion)
    ensures forall k | 0 <= k < |AllRecords(files, co)| :: FromFiles(AllRecords(files, co)[k], files)
    decreases |files|
  {
    if files != [] {
      var init := files[..|files| - 1];
      var file := files[|files| - 1];
      AllRecordsKept(init, co);
      FileRecordsKept(file, co);
      var a := AllRecords(init, co);
      var b := FileRecords(file, co);
      forall k | 0 <= k < |a + b| ensures FromFiles((a + b)[k], files) {
        if k < |a| {
          var i :| 0 <= i < |init| && Kept(a[k], init[i].name);
          assert files[i] == init[i];
        } else {
          assert Kept(b[k - |a|], files[|files| - 1].name);
        }
      }
    }
  }

  /** The dataset `build_dataset` returns. */
  function Built(files: seq<SourceFile>, co: Coercion): seq<Record> {
    LongTexts(Dedupe(AllRecords(files, co)))
  }

  lemma {:induction false} DedupeKept(rs: seq<Record>, files: seq<SourceFile>)
    requires forall k | 0 <= k < |rs| :: FromFiles(rs[k], files)
    ensures forall k | 0 <= k < |Dedupe(rs)| :: FromFiles(Dedupe(rs)[k], files)
    decreases |rs|
  {
    if rs != [] {
      DedupeKept(rs[..|rs| - 1], files);
    }
  }

  /** The dataset is the deduplicated records (the length filter finds nothing
      left to drop, because shorter texts were already useless); its records
      have distinct keys, cover every key, keep their order and each came from
      a file. */
  lemma {:induction false} BuiltSpec(files: seq<SourceFile>, co: Coercion)
    ensures Built(files, co) == Dedupe(AllRecords(files, co))
    ensures Subsequence(Built(files, co), AllRecords(files, co))
    ensures RecordKeys(Built(files, co)) == RecordKeys(AllRecords(files, co))
    ensures forall i, j | 0 <= i < j < |Built(files, co)| ::
      KeyOf(Built(files, co)[i]) != KeyOf(Built(files, co)[j])
    ensures forall k | 0 <= k < |Built(files, co)| ::
      FromFiles(Built(files, co)[k], files) && |Built(files, co)[k].text| >= MinTextLength
  {
    var all := AllRecords(files, co);
    var d := Dedupe(all);
    AllRecordsKept(files, co);
    DedupeKept(all, files);
    forall k | 0 <= k < |d| ensures |d[k].text| >= MinTextLength {
      var i :| 0 <= i < |files| && Kept(d[k], files[i].name);
    }
    LongTextsKeepsLong(d);
    DedupeSubsequence(all);
    DedupeKeys(all);
    DedupeDistinct(all);
  }

  /** The dataset is empty exactly when no file yields a record. */
  lemma {:induction false} BuiltEmpty(files: seq<SourceFile>, co: Coercion)
    ensures Built(files, co) == [] <==> AllRecords(files, co) == []
  {
    BuiltSpec(files, co);
    var all := AllRecords(files, co);
    if all != [] {
      assert KeyOf(all[0]) in RecordKeys(all);
    }
  }

  method BuildDataset(files: seq<SourceFile>, co: Coercion) returns (dataset: seq<Record>)
    ensures dataset == Built(files, co)
  {
    var allRecords: seq<Record> := [];
    for i := 0 to |files|
      invariant allRecords == AllRecords(files[..i], co)
    {
      assert files[..i + 1][..i] == files[..i];
      var records := ProcessFile(files[i], co);
      allRecords := allRecords + records;
    }
    assert files[..|files|] == files;
    if allRecords == [] {
      return [];
    }
    dataset := Dedupe(allRecords);
    dataset := LongTexts(dataset);
  }
}
