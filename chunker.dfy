/** `src/preprocessing/chunker.py`: `TextChunker(max_words).chunk(text)` splits
    the text into words and joins each run of `max_words` consecutive words
    with single spaces. */
module Chunker {

  import opened Common
  import opened PyStr

  /** The default of the `max_words` constructor argument. */
  const DefaultMaxWords := 128

  function Flatten<T>(g: seq<seq<T>>): seq<T> {
    if g == [] then [] else g[0] + Flatten(g[1..])
  }

  /** The reference grouping: the first `k` words, then the groups of the rest. */
  function Group(ws: seq<string>, k: nat): (g: seq<seq<string>>)
    requires k > 0
    ensures forall i | 0 <= i < |g| :: 1 <= |g[i]| <= k
    ensures forall i | 0 <= i < |g| - 1 :: |g[i]| == k
    decreases |ws|
  {
    if ws == [] then []
    else if |ws| <= k then [ws]
    else [ws[..k]] + Group(ws[k..], k)
  }

  /** Reading the groups in order gives back the words, and every group of
      words is made of words. */
  lemma {:induction false} GroupFlatten(ws: seq<string>, k: nat)
    requires k > 0
    ensures Flatten(Group(ws, k)) == ws
    ensures AllWords(ws) ==> forall i | 0 <= i < |Group(ws, k)| :: AllWords(Group(ws, k)[i])
    decreases |ws|
  {
    if ws == [] {
    } else if |ws| <= k {
      assert Flatten([ws]) == ws + Flatten([]);
    } else {
      var g := Group(ws, k);
      GroupFlatten(ws[k..], k);
      assert g[1..] == Group(ws[k..], k);
      assert Flatten(g) == ws[..k] + ws[k..];
      if AllWords(ws) {
        forall i | 0 <= i < |g| ensures AllWords(g[i]) {
          if i == 0 {
            assert forall j | 0 <= j < k :: g[0][j] == ws[j];
          } else {
            assert g[i] == Group(ws[k..], k)[i - 1];
            assert forall j | 0 <= j < |ws| - k :: ws[k..][j] == ws[k + j];
          }
        }
      }
    }
  }

  lemma {:induction false} SmallMultiple(d: int, k: int)
    requires k > 0 && -k < d * k < k
    ensures d == 0
  {
  }

  lemma {:induction false} DivUnique(a: int, k: int, q: int, r: int)
    requires k > 0 && 0 <= r < k && a == q * k + r
    ensures a / k == q
  {
    var q' := a / k;
    assert (q' - q) * k == q' * k - q * k;
    SmallMultiple(q' - q, k);
  }

  lemma {:induction false} DivStep(m: int, k: int)
    requires k > 0 && m >= 0
    ensures (m + k) / k == m / k + 1
  {
    var q := m / k;
    var r := m % k;
    assert m + k == (q + 1) * k + r;
    DivUnique(m + k, k, q + 1, r);
  }

  /** `ceil(n / k)`: how many runs of at most `k` items hold `n` items. */
  function CeilDiv(n: nat, k: nat): nat
    requires k > 0
  {
    (n + k - 1) / k
  }

  lemma {:induction false} CeilZero(k: nat)
    requires k > 0
    ensures CeilDiv(0, k) == 0
  {
    DivUnique(k - 1, k, 0, k - 1);
  }

  lemma {:induction false} CeilOne(n: nat, k: nat)
    requires k > 0 && 1 <= n <= k
    ensures CeilDiv(n, k) == 1
  {
    DivUnique(n + k - 1, k, 1, n - 1);
  }

  lemma {:induction false} CeilStep(n: nat, k: nat)
    requires k > 0 && n > k
    ensures CeilDiv(n, k) == CeilDiv(n - k, k) + 1
  {
    assert n - k + k - 1 == n - 1;
    assert n + k - 1 == (n - 1) + k;
    DivStep(n - 1, k);
  }

  lemma {:induction false} CeilPositive(n: nat, k: nat)
    requires k > 0 && n >= 1
    ensures CeilDiv(n, k) >= 1
  {
    assert n + k - 1 == (n - 1) + k;
    DivStep(n - 1, k);
  }

  /** There are `ceil(n / k)` groups of `n` words. */
  lemma {:induction false} GroupCount(ws: seq<string>, k: nat)
    requires k > 0
    ensures |Group(ws, k)| == CeilDiv(|ws|, k)
    decreases |ws|
  {
    if ws == [] {
      CeilZero(k);
    } else if |ws| <= k {
      CeilOne(|ws|, k);
    } else {
      GroupCount(ws[k..], k);
      assert |Group(ws, k)| == 1 + |Group(ws[k..], k)|;
      assert |ws[k..]| == |ws| - k;
      CeilStep(|ws|, k);
    }
  }

  /** `" ".join` applied to every group. */
  function JoinAll(g: seq<seq<string>>): (r: seq<string>)
    ensures |r| == |g| && forall i | 0 <= i < |g| :: r[i] == Join(g[i])
  {
    seq(|g|, i requires 0 <= i < |g| => Join(g[i]))
  }

  /** `[" ".join(words[i:i + k]) for i in range(start, len(words), k)]`. */
  function ChunksFrom(words: seq<string>, k: nat, start: nat): seq<string>
    requires k > 0
    decreases |words| - start
  {
    if start >= |words| then []
    else [Join(words[start..Min(start + k, |words|)])] + ChunksFrom(words, k, start + k)
  }

  lemma {:induction false} JoinAllCons(a: seq<string>, g: seq<seq<string>>)
    ensures JoinAll([a] + g) == [Join(a)] + JoinAll(g)
  {
    var l := JoinAll([a] + g);
    var r := [Join(a)] + JoinAll(g);
    forall i | 0 <= i < |l| ensures l[i] == r[i] {
      if i > 0 {
        assert ([a] + g)[i] == g[i - 1];
      }
    }
  }

  lemma {:induction false} JoinAllStep(c: seq<string>, c': seq<string>, g: seq<seq<string>>,
                                       g': seq<seq<string>>, head: seq<string>)
    requires c == [Join(head)] + c' && c' == JoinAll(g') && g == [head] + g'
    ensures c == JoinAll(g)
  {
    JoinAllCons(head, g');
  }

  /** One step of `Group` on a suffix longer than `k`. */
  lemma {:induction false} GroupStep(words: seq<string>, k: nat, start: nat)
    requires k > 0 && start + k < |words|
    ensures Group(words[start..], k) == [words[start..start + k]] + Group(words[start + k..], k)
  {
    var rest := words[start..];
    assert rest[..k] == words[start..start + k];
    assert rest[k..] == words[start + k..];
  }

  /** The last, possibly short, group. */
  lemma {:induction false} ChunksFromLast(words: seq<string>, k: nat, start: nat)
    requires k > 0 && start < |words| <= start + k
    ensures ChunksFrom(words, k, start) == JoinAll(Group(words[start..], k))
  {
    var rest := words[start..];
    assert words[start..Min(start + k, |words|)] == rest;
    assert ChunksFrom(words, k, start) == [Join(rest)] + [];
    JoinAllCons(rest, []);
    assert [rest] + [] == [rest];
  }

  lemma {:induction false} ChunksFromGroup(words: seq<string>, k: nat, start: nat)
    requires k > 0 && start <= |words|
    ensures ChunksFrom(words, k, start) == JoinAll(Group(words[start..], k))
    decreases |words| - start
  {
    if start == |words| {
      assert words[start..] == [];
    } else if |words| <= start + k {
      ChunksFromLast(words, k, start);
    } else {
      var head := words[start..start + k];
      ChunksFromGroup(words, k, start + k);
      assert ChunksFrom(words, k, start) == [Join(head)] + ChunksFrom(words, k, start + k);
      GroupStep(words, k, start);
      JoinAllStep(ChunksFrom(words, k, start), ChunksFrom(words, k, start + k),
                  Group(words[start..], k), Group(words[start + k..], k), head);
    }
  }

  /** The words of every chunk. */
  function WordsOf(chunks: seq<string>): (r: seq<seq<string>>)
    ensures |r| == |chunks| && forall i | 0 <= i < |chunks| :: r[i] == Words(chunks[i])
  {
    seq(|chunks|, i requires 0 <= i < |chunks| => Words(chunks[i]))
  }

  lemma {:induction false} ChunksAreGroups(text: string, k: nat)
    requires k > 0
    ensures ChunksFrom(Words(text), k, 0) == JoinAll(Group(Words(text), k))
    ensures WordsOf(ChunksFrom(Words(text), k, 0)) == Group(Words(text), k)
  {
    var ws := Words(text);
    ChunksFromGroup(ws, k, 0);
    assert ws[0..] == ws;
    var g := Group(ws, k);
    GroupFlatten(ws, k);
    forall i | 0 <= i < |g| ensures Words(Join(g[i])) == g[i] {
      WordsJoin(g[i]);
    }
  }

  function Chunk(text: string, maxWords: int): (chunks: seq<string>)
    requires maxWords != 0
    ensures maxWords < 0 ==> chunks == []
    ensures maxWords > 0 ==> |chunks| == CeilDiv(|Words(text)|, maxWords)
  {
    if maxWords < 0 then []
    else
      ChunksAreGroups(text, maxWords);
      GroupCount(Words(text), maxWords);
      ChunksFrom(Words(text), maxWords, 0)
  }

  /** Every chunk holds between one and `maxWords` words, all but the last
      exactly `maxWords`, and reading the chunks' words in order gives back
      `text.split()`. */
  lemma {:induction false} ChunkWords(text: string, maxWords: int)
    requires maxWords > 0
    ensures var chunks := Chunk(text, maxWords);
      && (forall i | 0 <= i < |chunks| :: 1 <= |Words(chunks[i])| <= maxWords)
      && (forall i | 0 <= i < |chunks| - 1 :: |Words(chunks[i])| == maxWords)
      && Flatten(WordsOf(chunks)) == Words(text)
  {
    ChunksAreGroups(text, maxWords);
    GroupFlatten(Words(text), maxWords);
  }

  /** Every chunk is non-empty, single-spaced and has no whitespace at either end. */
  lemma {:induction false} ChunkShape(text: string, maxWords: int)
    requires maxWords != 0
    ensures forall i | 0 <= i < |Chunk(text, maxWords)| ::
      Chunk(text, maxWords)[i] != [] && Squeezed(Chunk(text, maxWords)[i])
  {
    if maxWords > 0 {
      ChunksAreGroups(text, maxWords);
      var g := Group(Words(text), maxWords);
      GroupFlatten(Words(text), maxWords);
      forall i | 0 <= i < |g| ensures Join(g[i]) != [] && Squeezed(Join(g[i])) {
        JoinSqueezed(g[i]);
        JoinStart(g[i]);
      }
    }
  }

  /** Text without words, empty or all whitespace, gives no chunk. */
  lemma {:induction false} ChunkBlank(text: string, maxWords: int)
    requires maxWords != 0
    ensures Chunk(text, maxWords) == [] <==> (maxWords < 0 || AllSpace(text))
  {
    WordsEmpty(text);
    if maxWords > 0 && !AllSpace(text) {
      CeilPositive(|Words(text)|, maxWords);
    }
  }
}
