/** `src/preprocessing/text_cleaner.py`: `TextCleaner(lowercase).clean(text)`
    strips the text, turns every whitespace run into one space and, when
    `lowercase` is set (the default), lower-cases it. */
module TextCleaner {

  import opened PyStr

  /** The default of the `lowercase` constructor argument. */
  const DefaultLowercase := true

  function Clean(text: string, lowercase: bool): (r: string)
    ensures r != [] ==> !IsSpace(r[0]) && !IsSpace(r[|r| - 1])
    ensures forall i | 0 <= i < |r| :: IsSpace(r[i]) ==> r[i] == ' '
    ensures forall i | 0 <= i < |r| - 1 :: r[i] != ' ' || r[i + 1] != ' '
    ensures lowercase ==> forall i | 0 <= i < |r| :: !IsUpper(r[i])
    ensures r == [] <==> AllSpace(text)
  {
    var normalized := Squeeze(text);
    SqueezeSqueezed(text);
    SqueezeEmpty(text);
    CleanedShape(text, normalized, lowercase);
    if lowercase then Lower(normalized) else normalized
  }

  /** The shape of the result, from the shape `Squeeze` gives. */
  lemma {:induction false} CleanedShape(text: string, normalized: string, lowercase: bool)
    requires Squeezed(normalized) && (normalized == [] <==> AllSpace(text))
    ensures var r := if lowercase then Lower(normalized) else normalized;
      && (r != [] ==> !IsSpace(r[0]) && !IsSpace(r[|r| - 1]))
      && (forall i | 0 <= i < |r| :: IsSpace(r[i]) ==> r[i] == ' ')
      && (forall i | 0 <= i < |r| - 1 :: r[i] != ' ' || r[i + 1] != ' ')
      && (lowercase ==> forall i | 0 <= i < |r| :: !IsUpper(r[i]))
      && (r == [] <==> AllSpace(text))
  {
    if lowercase {
      LowerSqueezed(normalized);
      SqueezedNoDoubleSpace(Lower(normalized));
    } else {
      SqueezedNoDoubleSpace(normalized);
    }
  }

  lemma {:induction false} SqueezedNoDoubleSpace(r: string)
    requires Squeezed(r)
    ensures forall i | 0 <= i < |r| - 1 :: r[i] != ' ' || r[i + 1] != ' '
  {
    forall i | 0 <= i < |r| - 1 ensures r[i] != ' ' || r[i + 1] != ' ' {
      assert IsSpace(' ');
    }
  }

  /** Only whitespace changes: the other characters are kept in order, and
      lower-cased exactly when `lowercase` is set. */
  lemma {:induction false} CleanKeepsContent(text: string, lowercase: bool)
    ensures NonSpace(Clean(text, lowercase)) == if lowercase then Lower(NonSpace(text)) else NonSpace(text)
  {
    NonSpaceSqueeze(text);
    if lowercase {
      NonSpaceLower(Squeeze(text));
    }
  }

  /** Cleaning is `" ".join(text.split())`, lower-cased when `lowercase` is
      set: every whitespace run between two words becomes exactly one space,
      and leading and trailing whitespace goes. */
  lemma {:induction false} CleanIsJoinedWords(text: string, lowercase: bool)
    ensures Clean(text, lowercase) == if lowercase then Lower(Join(Words(text))) else Join(Words(text))
  {
    SqueezeIsJoin(text);
  }

  /** Without lower-casing, `split()` finds the same words before and after
      cleaning: no whitespace run between words is dropped. */
  lemma {:induction false} CleanWords(text: string)
    ensures Words(Clean(text, false)) == Words(text)
  {
    SqueezeIsJoin(text);
    WordsJoin(Words(text));
  }

  lemma {:induction false} CleanSqueezed(text: string, lowercase: bool)
    ensures Squeezed(Clean(text, lowercase))
  {
  }

  lemma {:induction false} SqueezeOfClean(text: string, lowercase: bool)
    ensures Squeeze(Clean(text, lowercase)) == Clean(text, lowercase)
  {
    CleanSqueezed(text, lowercase);
    SqueezeFixed(Clean(text, lowercase));
  }

  /** Cleaning a cleaned text changes nothing. */
  lemma {:induction false} CleanIdempotent(text: string, lowercase: bool)
    ensures Clean(Clean(text, lowercase), lowercase) == Clean(text, lowercase)
  {
    SqueezeOfClean(text, lowercase);
    if lowercase {
      LowerIdempotent(Squeeze(text));
    }
  }
}
