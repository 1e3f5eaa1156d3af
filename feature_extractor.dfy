/** `src/preprocessing/feature_extractor.py`: `FeatureExtractor.extract(text)`
    gives the text's length and the share of its characters that are `!`. */
module FeatureExtractor {

  import opened Common

  const LengthKey := "length"
  const ExclamationKey := "exclamation_ratio"

  /** `s.count(c)` for a one-character `c`. */
  function Count(s: string, c: char): (n: nat)
    ensures n <= |s|
    ensures n == 0 <==> forall i | 0 <= i < |s| :: s[i] != c
  {
    if s == [] then 0 else (if s[0] == c then 1 else 0) + Count(s[1..], c)
  }

  function Extract(text: string): (features: map<string, real>)
    ensures features.Keys == {LengthKey, ExclamationKey}
    ensures features[LengthKey] == |text| as real
    ensures IsMean(features[ExclamationKey], Count(text, '!'), Max(|text|, 1))
    ensures 0.0 <= features[ExclamationKey] <= 1.0
    ensures text == [] ==> features[ExclamationKey] == 0.0
  {
    var count := Count(text, '!');
    var n := Max(|text|, 1);
    MeanOf(count, n, 1);
    map[LengthKey := |text| as real, ExclamationKey := count as real / n as real]
  }
}
