/** `src/state/state_builder.py`: `StateBuilder.build` lays out one state
    vector as the KOL features, then the market values in the mapping's
    order, then the last position. */
module StateBuilder {

  /** A Python dict from feature name to value, as its `(key, value)` items in
      insertion order. */
  type Features = seq<(string, real)>

  /** `market_features.values()`, in the mapping's order. */
  function Values(m: Features): (vs: seq<real>)
    ensures |vs| == |m| && forall i | 0 <= i < |m| :: vs[i] == m[i].1
  {
    seq(|m|, i requires 0 <= i < |m| => m[i].1)
  }

  /** The state vector as one concatenation. */
  function StateVector(marketFeatures: Features, kolFeatures: seq<real>, lastPosition: real): seq<real> {
    kolFeatures + Values(marketFeatures) + [lastPosition]
  }

  /** `build`: copy the KOL features, extend by the market values, append the
      position. The argument sequences are values, so the caller's list is
      never changed. */
  method Build(marketFeatures: Features, kolFeatures: seq<real>, lastPosition: real) returns (state: seq<real>)
    ensures state == StateVector(marketFeatures, kolFeatures, lastPosition)
    ensures |state| == |kolFeatures| + |marketFeatures| + 1
    ensures state[..|kolFeatures|] == kolFeatures
    ensures forall j | 0 <= j < |marketFeatures| :: state[|kolFeatures| + j] == marketFeatures[j].1
    ensures state[|state| - 1] == lastPosition
  {
    state := kolFeatures;
    state := state + Values(marketFeatures);
    state := state + [lastPosition];
  }

  /** `build({"price": 10.0, "volume": 2.0}, [0.5], 0.1) == [0.5, 10.0, 2.0, 0.1]`. */
  lemma {:induction false} BuildExample()
    ensures StateVector([("price", 10.0), ("volume", 2.0)], [0.5], 0.1) == [0.5, 10.0, 2.0, 0.1]
  {
    assert Values([("price", 10.0), ("volume", 2.0)]) == [10.0, 2.0];
  }

  /** Both inputs empty: the state is the position alone. */
  lemma {:induction false} BuildEmpty(lastPosition: real)
    ensures StateVector([], [], lastPosition) == [lastPosition]
  {
    assert Values([]) == [];
  }
}
