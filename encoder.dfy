/** `src/embedding/encoder.py`: `KOLTextEncoder.encode(chunks)` gives the empty
    vector for no chunks and otherwise the one-element vector holding the mean
    chunk length. */
module Encoder {

  import opened Common

  function TotalLength(chunks: seq<string>): nat {
    if chunks == [] then 0 else |chunks[0]| + TotalLength(chunks[1..])
  }

  function MaxLength(chunks: seq<string>): (m: nat)
    ensures forall i | 0 <= i < |chunks| :: |chunks[i]| <= m
    ensures chunks != [] ==> exists i | 0 <= i < |chunks| :: |chunks[i]| == m
  {
    if chunks == [] then 0
    else
      var rest := MaxLength(chunks[1..]);
      if |chunks[0]| >= rest then |chunks[0]| else rest
  }

  /** No chunk longer than `bound` keeps the total within `|chunks| * bound`. */
  lemma {:induction false} TotalLengthBound(chunks: seq<string>, bound: nat)
    requires forall i | 0 <= i < |chunks| :: |chunks[i]| <= bound
    ensures TotalLength(chunks) <= |chunks| * bound
  {
    if chunks != [] {
      TotalLengthBound(chunks[1..], bound);
      assert |chunks| * bound == bound + (|chunks| - 1) * bound;
    }
  }

  function Encode(chunks: seq<string>): (v: seq<real>)
    ensures chunks == [] <==> v == []
    ensures chunks != [] ==> |v| == 1
    ensures chunks != [] ==> IsMean(v[0], TotalLength(chunks), |chunks|)
    ensures chunks != [] ==> 0.0 <= v[0] <= MaxLength(chunks) as real
  {
    if chunks == [] then []
    else
      TotalLengthBound(chunks, MaxLength(chunks));
      MeanOf(TotalLength(chunks), |chunks|, MaxLength(chunks));
      [TotalLength(chunks) as real / |chunks| as real]
  }
}
