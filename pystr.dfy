/** Python's string primitives that the preprocessing code relies on, over
    `seq<char>`: `str.isspace`, `str.lower` (ASCII letters), `str.lstrip`,
    `str.rstrip`, `str.strip`, `str.split()`, `" ".join` and the substitution
    `re.sub(r"\s+", " ", s)`. */
module PyStr {

  import opened Common

  /** `c.isspace()` in Python 3, which is also what `strip()`, `split()` and the
      regular-expression class `\s` test: ASCII 9-13 and 28-32, and the
      Unicode separators. */
  predicate IsSpace(c: char) {
    || ('\t' <= c <= '\r')
    || ('\U{1c}' <= c <= ' ')
    || c == '\U{85}' || c == '\U{a0}' || c == '\U{1680}'
    || ('\U{2000}' <= c <= '\U{200a}')
    || c == '\U{2028}' || c == '\U{2029}' || c == '\U{202f}' || c == '\U{205f}' || c == '\U{3000}'
  }

  predicate IsUpper(c: char) { 'A' <= c <= 'Z' }

  function LowerChar(c: char): (d: char)
    ensures !IsUpper(d)
    ensures IsSpace(d) == IsSpace(c)
  {
    if IsUpper(c) then (c as int + 32) as char else c
  }

  /** `s.lower()`, restricted to the ASCII letters. */
  function Lower(s: string): (r: string)
    ensures |r| == |s|
    ensures forall i | 0 <= i < |r| :: r[i] == LowerChar(s[i])
  {
    seq(|s|, i requires 0 <= i < |s| => LowerChar(s[i]))
  }

  /** `s.lstrip()`: what is left is a suffix, and only whitespace was dropped. */
  function TrimLeft(s: string): (r: string)
    ensures |r| <= |s| && r == s[|s| - |r|..]
    ensures r != [] ==> !IsSpace(r[0])
    ensures forall i | 0 <= i < |s| - |r| :: IsSpace(s[i])
  {
    if s != [] && IsSpace(s[0]) then TrimLeft(s[1..]) else s
  }

  /** `s.rstrip()`: what is left is a prefix, and only whitespace was dropped. */
  function TrimRight(s: string): (r: string)
    ensures |r| <= |s| && r == s[..|r|]
    ensures r != [] ==> !IsSpace(r[|r| - 1])
    ensures forall i | |r| <= i < |s| :: IsSpace(s[i])
  {
    if s != [] && IsSpace(s[|s| - 1]) then TrimRight(s[..|s| - 1]) else s
  }

  /** `s.strip()`. */
  function Strip(s: string): string {
    TrimRight(TrimLeft(s))
  }

  /** The longest prefix of `s` without whitespace. */
  function TakeWord(s: string): (w: string)
    ensures |w| <= |s| && w == s[..|w|]
    ensures forall i | 0 <= i < |w| :: !IsSpace(w[i])
    ensures |w| < |s| ==> IsSpace(s[|w|])
  {
    if s != [] && !IsSpace(s[0]) then [s[0]] + TakeWord(s[1..]) else []
  }

  /** A word as `split()` produces it: non-empty and free of whitespace. */
  predicate IsWord(w: string) {
    w != [] && forall i | 0 <= i < |w| :: !IsSpace(w[i])
  }

  predicate AllWords(ws: seq<string>) {
    forall i | 0 <= i < |ws| :: IsWord(ws[i])
  }

  /** `s.split()` with no separator: the maximal runs of non-whitespace, in order. */
  function Words(s: string): (ws: seq<string>)
    ensures AllWords(ws)
    decreases |s|
  {
    var t := TrimLeft(s);
    if t == [] then []
    else
      var w := TakeWord(t);
      var rest := Words(t[|w|..]);
      AllWordsCons(w, rest);
      [w] + rest
  }

  lemma {:induction false} AllWordsCons(w: string, ws: seq<string>)
    requires IsWord(w) && AllWords(ws)
    ensures AllWords([w] + ws)
  {
    forall i | 0 <= i < |[w] + ws| ensures IsWord(([w] + ws)[i]) {
      if i > 0 {
        assert ([w] + ws)[i] == ws[i - 1];
      }
    }
  }

  /** `" ".join(ws)`. */
  function Join(ws: seq<string>): string {
    if |ws| == 0 then ""
    else if |ws| == 1 then ws[0]
    else ws[0] + (" " + Join(ws[1..]))
  }

  /** `re.sub(r"\s+", " ", s)`: every maximal whitespace run becomes one space. */
  function Collapse(s: string): (r: string)
    ensures |r| <= |s|
    ensures s != [] ==> r != [] && r[0] == (if IsSpace(s[0]) then ' ' else s[0])
    ensures forall i | 0 <= i < |r| :: IsSpace(r[i]) ==> r[i] == ' '
    ensures forall i | 0 <= i < |r| - 1 :: IsSpace(r[i]) ==> !IsSpace(r[i + 1])
    decreases |s|
  {
    if s == [] then []
    else if IsSpace(s[0]) then " " + Collapse(TrimLeft(s))
    else [s[0]] + Collapse(s[1..])
  }

  /** `re.sub(r"\s+", " ", s.strip())`, the normalisation both the text cleaner
      and the dataset builder apply. */
  function Squeeze(s: string): string {
    Collapse(Strip(s))
  }

  /** The characters of `s` that are not whitespace, in order. */
  function NonSpace(s: string): string {
    if s == [] then [] else (if IsSpace(s[0]) then [] else [s[0]]) + NonSpace(s[1..])
  }

  predicate AllSpace(s: string) {
    forall i | 0 <= i < |s| :: IsSpace(s[i])
  }

  /** Whitespace only as single spaces, never two in a row. */
  predicate SingleSpaced(r: string) {
    && (forall i | 0 <= i < |r| :: IsSpace(r[i]) ==> r[i] == ' ')
    && (forall i | 0 <= i < |r| - 1 :: IsSpace(r[i]) ==> !IsSpace(r[i + 1]))
  }

  /** The shape `Squeeze` produces: single-spaced, with no whitespace at either end. */
  predicate Squeezed(r: string) {
    && (r != [] ==> !IsSpace(r[0]) && !IsSpace(r[|r| - 1]))
    && SingleSpaced(r)
  }

  // ---- Lemmas about the non-whitespace content ----

  lemma {:induction false} NonSpaceAppend(a: string, b: string)
    ensures NonSpace(a + b) == NonSpace(a) + NonSpace(b)
  {
    if a != [] {
      assert (a + b)[0] == a[0];
      assert (a + b)[1..] == a[1..] + b;
      NonSpaceAppend(a[1..], b);
    } else {
      assert a + b == b;
    }
  }

  lemma {:induction false} NonSpaceAllSpace(s: string)
    requires AllSpace(s)
    ensures NonSpace(s) == []
  {
    if s != [] {
      NonSpaceAllSpace(s[1..]);
    }
  }

  /** Dropping leading whitespace keeps the non-whitespace content. */
  lemma {:induction false} NonSpaceDropFront(s: string, k: int)
    requires 0 <= k <= |s| && AllSpace(s[..k])
    ensures NonSpace(s[k..]) == NonSpace(s)
  {
    assert s == s[..k] + s[k..];
    NonSpaceAppend(s[..k], s[k..]);
    NonSpaceAllSpace(s[..k]);
  }

  /** Dropping trailing whitespace keeps the non-whitespace content. */
  lemma {:induction false} NonSpaceDropBack(s: string, k: int)
    requires 0 <= k <= |s| && AllSpace(s[k..])
    ensures NonSpace(s[..k]) == NonSpace(s)
  {
    assert s == s[..k] + s[k..];
    NonSpaceAppend(s[..k], s[k..]);
    NonSpaceAllSpace(s[k..]);
  }

  lemma {:induction false} NonSpaceTrimLeft(s: string)
    ensures NonSpace(TrimLeft(s)) == NonSpace(s)
  {
    var k := |s| - |TrimLeft(s)|;
    assert AllSpace(s[..k]) by {
      forall i | 0 <= i < k ensures IsSpace(s[..k][i]) {
        assert s[..k][i] == s[i];
      }
    }
    NonSpaceDropFront(s, k);
  }

  lemma {:induction false} NonSpaceTrimRight(s: string)
    ensures NonSpace(TrimRight(s)) == NonSpace(s)
  {
    var k := |TrimRight(s)|;
    assert AllSpace(s[k..]) by {
      forall i | 0 <= i < |s| - k ensures IsSpace(s[k..][i]) {
        assert s[k..][i] == s[k + i];
      }
    }
    NonSpaceDropBack(s, k);
  }

  lemma {:induction false} NonSpaceCollapse(s: string)
    ensures NonSpace(Collapse(s)) == NonSpace(s)
    decreases |s|
  {
    if s == [] {
    } else if IsSpace(s[0]) {
      var t := TrimLeft(s);
      var c := Collapse(t);
      assert (" " + c)[1..] == c;
      NonSpaceCollapse(t);
      NonSpaceTrimLeft(s);
    } else {
      var c := Collapse(s[1..]);
      assert ([s[0]] + c)[1..] == c;
      NonSpaceCollapse(s[1..]);
    }
  }

  /** Squeezing changes whitespace only: the other characters stay, in order. */
  lemma {:induction false} NonSpaceSqueeze(s: string)
    ensures NonSpace(Squeeze(s)) == NonSpace(s)
  {
    NonSpaceCollapse(Strip(s));
    NonSpaceTrimRight(TrimLeft(s));
    NonSpaceTrimLeft(s);
  }

  // ---- Lemmas about the shape of a squeezed string ----

  lemma {:induction false} CollapseLast(s: string)
    requires s != [] && !IsSpace(s[|s| - 1])
    ensures Collapse(s) != [] && Collapse(s)[|Collapse(s)| - 1] == s[|s| - 1]
    decreases |s|
  {
    if IsSpace(s[0]) {
      var t := TrimLeft(s);
      assert t != [];
      assert t[|t| - 1] == s[|s| - 1];
      CollapseLast(t);
    } else if |s| > 1 {
      CollapseLast(s[1..]);
    }
  }

  lemma {:induction false} StripEnds(s: string)
    ensures Strip(s) != [] ==> !IsSpace(Strip(s)[0]) && !IsSpace(Strip(s)[|Strip(s)| - 1])
  {
    var t := TrimLeft(s);
    var r := TrimRight(t);
    if r != [] {
      assert r[0] == t[0];
    }
  }

  /** Whatever the input, `Squeeze` leaves no whitespace at either end, only
      single spaces inside, and never two of them in a row. */
  lemma {:induction false} SqueezeSqueezed(s: string)
    ensures Squeezed(Squeeze(s))
  {
    var t := Strip(s);
    StripEnds(s);
    if t != [] {
      CollapseLast(t);
    }
  }

  lemma {:induction false} CollapseSingleSpaced(r: string)
    requires SingleSpaced(r)
    ensures Collapse(r) == r
    decreases |r|
  {
    if r != [] {
      SingleSpacedTail(r);
      CollapseSingleSpaced(r[1..]);
      if IsSpace(r[0]) {
        assert r[1..] == [] || !IsSpace(r[1..][0]);
        TrimLeftOfWordStart(r[1..]);
        assert TrimLeft(r) == r[1..];
        assert Collapse(r) == [' '] + r[1..];
      } else {
        assert Collapse(r) == [r[0]] + r[1..];
      }
      HeadTail(r);
    }
  }

  lemma {:induction false} SingleSpacedTail(r: string)
    requires r != [] && SingleSpaced(r)
    ensures SingleSpaced(r[1..])
  {
    var t := r[1..];
    forall i | 0 <= i < |t| ensures IsSpace(t[i]) ==> t[i] == ' ' {
      assert t[i] == r[i + 1];
    }
    forall i | 0 <= i < |t| - 1 ensures IsSpace(t[i]) ==> !IsSpace(t[i + 1]) {
      assert t[i] == r[i + 1] && t[i + 1] == r[i + 2];
    }
  }

  /** A squeezed string is a fixed point of `Squeeze`. */
  lemma {:induction false} SqueezeFixed(r: string)
    requires Squeezed(r)
    ensures Squeeze(r) == r
  {
    assert TrimLeft(r) == r;
    assert TrimRight(r) == r;
    CollapseSingleSpaced(r);
  }

  /** `Squeeze` gives the empty string exactly for all-whitespace input. */
  lemma {:induction false} SqueezeEmpty(s: string)
    ensures Squeeze(s) == [] <==> AllSpace(s)
  {
    var t := TrimLeft(s);
    if AllSpace(s) {
      assert t == [];
    } else {
      var i :| 0 <= i < |s| && !IsSpace(s[i]);
      assert t != [];
      assert TrimRight(t) != [] by {
        assert !IsSpace(t[0]);
      }
    }
  }

  // ---- Lower-casing ----

  lemma {:induction false} LowerSqueezed(r: string)
    requires Squeezed(r)
    ensures Squeezed(Lower(r))
  {
  }

  lemma {:induction false} LowerIdempotent(s: string)
    ensures Lower(Lower(s)) == Lower(s)
  {
  }

  lemma {:induction false} LowerAppend(a: string, b: string)
    ensures Lower(a + b) == Lower(a) + Lower(b)
  {
  }

  lemma {:induction false} NonSpaceLower(s: string)
    ensures NonSpace(Lower(s)) == Lower(NonSpace(s))
  {
    if s != [] {
      var head := if IsSpace(s[0]) then [] else [s[0]];
      assert Lower(s)[0] == LowerChar(s[0]);
      assert Lower(s)[1..] == Lower(s[1..]);
      assert NonSpace(Lower(s)) == Lower(head) + NonSpace(Lower(s[1..]));
      NonSpaceLower(s[1..]);
      LowerAppend(head, NonSpace(s[1..]));
    }
  }

  // ---- split() and join() ----

  lemma {:induction false} TrimLeftOfWordStart(s: string)
    requires s == [] || !IsSpace(s[0])
    ensures TrimLeft(s) == s
  {
  }

  lemma {:induction false} TakeWordOfWord(w: string, rest: string)
    requires forall i | 0 <= i < |w| :: !IsSpace(w[i])
    requires rest == [] || IsSpace(rest[0])
    ensures TakeWord(w + rest) == w
    decreases |w|
  {
    if w != [] {
      assert (w + rest)[1..] == w[1..] + rest;
      TakeWordOfWord(w[1..], rest);
    } else {
      assert w + rest == rest;
    }
  }

  lemma {:induction false} JoinStart(ws: seq<string>)
    requires AllWords(ws) && ws != []
    ensures Join(ws) != [] && Join(ws)[0] == ws[0][0]
  {
  }

  /** `" ".join(ws)` of proper words is squeezed. */
  lemma {:induction false} JoinSqueezed(ws: seq<string>)
    requires AllWords(ws)
    ensures Squeezed(Join(ws))
  {
    if |ws| >= 2 {
      var j := Join(ws[1..]);
      JoinSqueezed(ws[1..]);
      JoinStart(ws[1..]);
      var r := ws[0] + " " + j;
      assert r == Join(ws);
      forall i | 0 <= i < |r| && IsSpace(r[i]) ensures r[i] == ' ' {
        if i > |ws[0]| { assert r[i] == j[i - |ws[0]| - 1]; }
      }
      forall i | 0 <= i < |r| - 1 && IsSpace(r[i]) ensures !IsSpace(r[i + 1]) {
        if i > |ws[0]| { assert r[i] == j[i - |ws[0]| - 1]; assert r[i + 1] == j[i - |ws[0]|]; }
      }
    }
  }

  lemma {:induction false} TrimLeftIdempotent(s: string)
    ensures TrimLeft(TrimLeft(s)) == TrimLeft(s)
  {
  }

  /** Leading whitespace does not change the words. */
  lemma {:induction false} WordsTrimLeft(s: string)
    ensures Words(s) == Words(TrimLeft(s))
  {
    TrimLeftIdempotent(s);
  }

  lemma {:induction false} WordsLeading(w: string, rest: string)
    requires IsWord(w)
    requires rest == [] || IsSpace(rest[0])
    ensures Words(w + rest) == [w] + Words(rest)
  {
    var s := w + rest;
    TrimLeftOfWordStart(s);
    TakeWordOfWord(w, rest);
    assert s[|w|..] == rest;
  }

  lemma {:induction false} WordsSingle(w: string)
    requires IsWord(w)
    ensures Words(w) == [w]
  {
    WordsLeading(w, []);
    assert w + [] == w;
  }

  lemma {:induction false} WordsAfterSpace(j: string)
    requires j != [] && !IsSpace(j[0])
    ensures Words(" " + j) == Words(j)
  {
    assert (" " + j)[1..] == j;
    assert TrimLeft(" " + j) == j;
    WordsTrimLeft(" " + j);
  }

  lemma {:induction false} WordsJoinStep(ws: seq<string>)
    requires |ws| >= 2 && AllWords(ws)
    requires Words(Join(ws[1..])) == ws[1..]
    ensures Words(Join(ws)) == ws
  {
    var j := Join(ws[1..]);
    assert Join(ws) == ws[0] + (" " + j);
    JoinStart(ws[1..]);
    WordsLeading(ws[0], " " + j);
    WordsAfterSpace(j);
    assert Words(Join(ws)) == [ws[0]] + ws[1..];
    HeadTail(ws);
  }

  /** Splitting the join of proper words gives the words back. */
  lemma {:induction false} WordsJoin(ws: seq<string>)
    requires AllWords(ws)
    ensures Words(Join(ws)) == ws
  {
    if |ws| == 1 {
      WordsSingle(ws[0]);
    } else if |ws| >= 2 {
      WordsJoin(ws[1..]);
      WordsJoinStep(ws);
    }
  }

  /** `split()` finds no word exactly in all-whitespace text. */
  lemma {:induction false} WordsEmpty(s: string)
    ensures Words(s) == [] <==> AllSpace(s)
  {
    var t := TrimLeft(s);
    if AllSpace(s) {
      assert t == [];
    } else {
      var i :| 0 <= i < |s| && !IsSpace(s[i]);
      assert t != [];
    }
  }

  /** Whitespace in front does not change the words. */
  lemma {:induction false} TrimLeftSpaceFront(x: string)
    ensures TrimLeft(" " + x) == TrimLeft(x)
  {
    var y := " " + x;
    assert IsSpace(y[0]);
    TrimLeftSpace(y);
    assert y[1..] == x;
  }

  lemma {:induction false} TrimLeftSpace(y: string)
    requires y != [] && IsSpace(y[0])
    ensures TrimLeft(y) == TrimLeft(y[1..])
  {
  }

  lemma {:induction false} WordsSpaceFront(x: string)
    ensures Words(" " + x) == Words(x)
  {
    TrimLeftSpaceFront(x);
    WordsTrimLeft(" " + x);
    WordsTrimLeft(x);
  }

  /** `lstrip` splits a text into its leading whitespace and the rest. */
  lemma {:induction false} TrimLeftSplit(u: string) returns (i: nat, t: string)
    ensures t == TrimLeft(u) && i + |t| == |u|
    ensures u == u[..i] + t && AllSpace(u[..i])
  {
    t := TrimLeft(u);
    i := |u| - |t|;
    assert AllSpace(u[..i]) by {
      forall j | 0 <= j < i ensures IsSpace(u[..i][j]) {
        assert u[..i][j] == u[j];
      }
    }
    assert t == u[i..];
    assert u == u[..i] + u[i..];
  }

  /** A text that starts with a word splits into that word and a rest that
      is empty or starts with whitespace. */
  lemma {:induction false} TakeWordSplit(t: string) returns (w: string, r: string)
    requires t != [] && !IsSpace(t[0])
    ensures w == TakeWord(t) && r == t[|w|..] && t == w + r
    ensures IsWord(w) && (r == [] || IsSpace(r[0]))
  {
    w := TakeWord(t);
    assert TakeWord(t) == [t[0]] + TakeWord(t[1..]);
    r := t[|w|..];
    assert t == w + r;
  }

  lemma {:induction false} WordsUnfold(u: string, t: string, w: string, r: string)
    requires t == TrimLeft(u) && t != [] && w == TakeWord(t) && r == t[|w|..]
    ensures Words(u) == [w] + Words(r)
  {
  }

  /** `split()` of a non-blank text: its first word, then the words of the rest. */
  lemma {:induction false} WordsFirst(u: string) returns (i: nat, w: string, r: string)
    requires !AllSpace(u)
    ensures i + |w| + |r| == |u| && u == u[..i] + (w + r) && AllSpace(u[..i])
    ensures IsWord(w) && (r == [] || IsSpace(r[0]))
    ensures Words(u) == [w] + Words(r)
  {
    var t;
    i, t := TrimLeftSplit(u);
    assert t != [] by {
      var j :| 0 <= j < |u| && !IsSpace(u[j]);
      assert i <= j;
    }
    assert t == u[i..] && u[i..][0] == u[i];
    assert !IsSpace(t[0]);
    w, r := TakeWordSplit(t);
    WordsUnfold(u, t, w, r);
  }

  /** Whitespace at the end does not change the words. */
  lemma {:induction false} WordsAppendSpace(u: string, sp: string)
    requires AllSpace(sp)
    ensures Words(u + sp) == Words(u)
    decreases |u|
  {
    if AllSpace(u) {
      assert AllSpace(u + sp) by {
        forall j | 0 <= j < |u + sp| ensures IsSpace((u + sp)[j]) {
          if j < |u| { assert (u + sp)[j] == u[j]; } else { assert (u + sp)[j] == sp[j - |u|]; }
        }
      }
      WordsEmpty(u);
      WordsEmpty(u + sp);
    } else {
      var i, w, r := WordsFirst(u);
      var v := u + sp;
      Reassociate(u[..i], w, r, sp);
      WordsOfPieces(v, u[..i], w, r + sp);
      WordsAppendSpace(r, sp);
    }
  }

  /** The words of leading whitespace, a word, and a rest that starts with
      whitespace. */
  lemma {:induction false} WordsOfPieces(v: string, pre: string, w: string, rest: string)
    requires v == pre + (w + rest) && AllSpace(pre) && IsWord(w)
    requires rest == [] || IsSpace(rest[0])
    ensures Words(v) == [w] + Words(rest)
  {
    TrimLeftAt(v, |pre|);
    assert v[|pre|..] == w + rest;
    WordsTrimLeft(v);
    WordsLeading(w, rest);
  }

  /** `rstrip` splits a text into the rest and its trailing whitespace. */
  lemma {:induction false} TrimRightSplit(t: string) returns (r: string, tail: string)
    ensures r == TrimRight(t) && t == r + tail && AllSpace(tail)
  {
    r := TrimRight(t);
    tail := t[|r|..];
    forall j | 0 <= j < |tail| ensures IsSpace(tail[j]) {
      assert tail[j] == t[|r| + j];
    }
    SplitAt(t, |r|);
  }

  /** `split()` ignores the whitespace `strip()` removes. */
  lemma {:induction false} WordsStrip(s: string)
    ensures Words(Strip(s)) == Words(s)
  {
    WordsTrimLeft(s);
    var r, tail := TrimRightSplit(TrimLeft(s));
    WordsAppendSpace(r, tail);
  }

  lemma {:induction false} CollapseNonSpace(s: string)
    requires s != [] && !IsSpace(s[0])
    ensures Collapse(s) == [s[0]] + Collapse(s[1..])
  {
  }

  /** `re.sub(r"\s+", " ", ·)` leaves the non-whitespace run in front as it is. */
  lemma {:induction false} CollapseWord(w: string, rest: string)
    requires forall j | 0 <= j < |w| :: !IsSpace(w[j])
    ensures Collapse(w + rest) == w + Collapse(rest)
    decreases |w|
  {
    if w == [] {
      assert w + rest == rest;
    } else {
      var s := w + rest;
      assert s[0] == w[0];
      assert s[1..] == w[1..] + rest;
      CollapseNonSpace(s);
      CollapseWord(w[1..], rest);
      Assoc([w[0]], w[1..], Collapse(rest));
      HeadTail(w);
    }
  }

  /** Collapsing whitespace runs keeps them as separators: the words are the
      same, so no run disappears and none is added. */
  lemma {:induction false} WordsCollapse(s: string)
    ensures Words(Collapse(s)) == Words(s)
    decreases |s|
  {
    if s == [] {
    } else if IsSpace(s[0]) {
      var t := TrimLeft(s);
      assert t == TrimLeft(s[1..]);
      assert Collapse(s) == " " + Collapse(t);
      WordsSpaceFront(Collapse(t));
      WordsCollapse(t);
      WordsTrimLeft(s);
    } else {
      var i, w, rest := WordsFirst(s);
      assert i == 0;
      assert s == w + rest;
      CollapseWord(w, rest);
      var c := Collapse(rest);
      assert c == [] || c[0] == ' ';
      WordsLeading(w, c);
      WordsCollapse(rest);
    }
  }

  lemma {:induction false} SingleSpacedDrop(r: string, k: nat)
    requires k <= |r| && SingleSpaced(r)
    ensures SingleSpaced(r[k..])
  {
    var t := r[k..];
    forall i | 0 <= i < |t| ensures IsSpace(t[i]) ==> t[i] == ' ' {
      assert t[i] == r[k + i];
    }
    forall i | 0 <= i < |t| - 1 ensures IsSpace(t[i]) ==> !IsSpace(t[i + 1]) {
      assert t[i] == r[k + i] && t[i + 1] == r[k + i + 1];
    }
  }

  /** In a squeezed string, whitespace is one space followed by the rest of
      a squeezed string. */
  lemma {:induction false} SqueezedAfterSpace(r: string, k: nat)
    requires Squeezed(r) && k < |r| && IsSpace(r[k])
    ensures k + 1 < |r| && r[k] == ' ' && Squeezed(r[k + 1..])
  {
    var r' := r[k + 1..];
    SingleSpacedDrop(r, k + 1);
    if r' != [] {
      assert r'[0] == r[k + 1] && r'[|r'| - 1] == r[|r| - 1];
    }
  }

  /** A squeezed string is its first word, alone or followed by one space and
      a shorter squeezed string. */
  lemma {:induction false} SqueezedFirst(r: string) returns (w: string, r': string, more: bool)
    requires Squeezed(r) && r != []
    ensures IsWord(w)
    ensures more ==> r == w + (" " + r') && Squeezed(r') && r' != [] && |r'| < |r|
    ensures more ==> Words(r) == [w] + Words(r')
    ensures !more ==> r == w && Words(r) == [w]
  {
    var rest;
    w, rest := TakeWordSplit(r);
    TrimLeftOfWordStart(r);
    WordsUnfold(r, r, w, rest);
    if rest == [] {
      more, r' := false, [];
      assert r == w by { assert w + [] == w; }
    } else {
      more := true;
      var k := |w|;
      assert rest[0] == r[k];
      SqueezedAfterSpace(r, k);
      r' := r[k + 1..];
      assert rest == r[k..] && rest[0] == ' ';
      assert rest[1..] == r';
      HeadTail(rest);
      assert r'[0] == r[k + 1];
      WordsAfterSpace(r');
    }
  }

  lemma {:induction false} JoinCons(w: string, ws: seq<string>)
    requires ws != []
    ensures Join([w] + ws) == w + (" " + Join(ws))
  {
    assert ([w] + ws)[1..] == ws;
  }

  /** A squeezed string is the `" ".join` of its own words. */
  lemma {:induction false} SqueezedJoin(r: string)
    requires Squeezed(r)
    ensures Join(Words(r)) == r
    decreases |r|
  {
    if r != [] {
      var w, r', more := SqueezedFirst(r);
      if more {
        SqueezedJoin(r');
        WordsEmpty(r');
        assert !AllSpace(r');
        JoinCons(w, Words(r'));
      }
    }
  }

  /** `re.sub(r"\s+", " ", s.strip())` is `" ".join(s.split())`: every
      whitespace run between words becomes exactly one space. */
  lemma {:induction false} SqueezeIsJoin(s: string)
    ensures Squeeze(s) == Join(Words(s))
  {
    SqueezeSqueezed(s);
    SqueezedJoin(Squeeze(s));
    WordsCollapse(Strip(s));
    WordsStrip(s);
  }

  // ---- Where trimming stops ----

  /** `lstrip` stops at the first character that is not whitespace. */
  lemma {:induction false} TrimLeftAt(s: string, i: int)
    requires 0 <= i <= |s| && AllSpace(s[..i])
    requires i < |s| ==> !IsSpace(s[i])
    ensures TrimLeft(s) == s[i..]
    decreases i
  {
    if i > 0 {
      assert IsSpace(s[..i][0]);
      assert s[1..][..i - 1] == s[..i][1..];
      TrimLeftAt(s[1..], i - 1);
      assert s[1..][i - 1..] == s[i..];
    }
  }

  /** `rstrip` stops after the last character that is not whitespace. */
  lemma {:induction false} TrimRightAt(s: string, j: int)
    requires 0 <= j <= |s| && AllSpace(s[j..])
    requires j > 0 ==> !IsSpace(s[j - 1])
    ensures TrimRight(s) == s[..j]
    decreases |s| - j
  {
    if j < |s| {
      assert IsSpace(s[j..][|s| - 1 - j]);
      var init := s[..|s| - 1];
      assert init[j..] == s[j..][..|s| - 1 - j];
      TrimRightAt(init, j);
      assert init[..j] == s[..j];
    }
  }

  /** A piece cut out of `s` between two whitespace-only stretches. */
  lemma {:induction false} SpaceAround(s: string, u: string, t: string, i: int)
    requires |u| <= |s| && u == s[|s| - |u|..] && forall k | 0 <= k < |s| - |u| :: IsSpace(s[k])
    requires |t| <= |u| && t == u[..|t|] && forall k | |t| <= k < |u| :: IsSpace(u[k])
    requires i == |s| - |u|
    ensures 0 <= i && i + |t| <= |s| && t == s[i..i + |t|]
    ensures AllSpace(s[..i]) && AllSpace(s[i + |t|..])
  {
    var j := i + |t|;
    assert s[i..j] == u[..|t|];
    forall k | 0 <= k < |s[j..]| ensures IsSpace(s[j..][k]) {
      assert s[j..][k] == u[|t| + k];
    }
  }

  /** `strip` keeps one contiguous piece `t` of `s`, starting at `i`, with only
      whitespace around it. */
  lemma {:induction false} StripAt(s: string) returns (i: nat, t: string)
    ensures t == Strip(s)
    ensures i + |t| <= |s| && t == s[i..i + |t|]
    ensures AllSpace(s[..i]) && AllSpace(s[i + |t|..])
  {
    var u := TrimLeft(s);
    t := Strip(s);
    i := |s| - |u|;
    SpaceAround(s, u, t, i);
  }
}
