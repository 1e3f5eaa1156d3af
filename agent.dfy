/** `src/inference/agent.py`: `RLKolAgent`, whose `predict` runs the text
    through clean, chunk and encode, builds the state with the position of the
    previous call, asks the actor, and keeps the new position for the next
    call. The `timestamp` of the reply is a clock read and is left out. */
module Agent {

  import opened Common
  import opened PyStr
  import opened ActorCritic
  import TextCleaner
  import Chunker
  import Encoder
  import StateBuilder

  /** The reply of `predict` without its timestamp. */
  datatype Prediction = Prediction(targetPosition: real, confidence: real)

  /** The KOL features `predict` derives from the text, with the default
      cleaner and chunker. */
  function KolFeatures(text: string): seq<real> {
    Encoder.Encode(Chunker.Chunk(TextCleaner.Clean(text, TextCleaner.DefaultLowercase), Chunker.DefaultMaxWords))
  }

  /** Text with any word gives one feature (its mean chunk length), blank text
      none; so the state has `|market| + 2` or `|market| + 1` entries. */
  lemma {:induction false} KolFeaturesCount(text: string)
    ensures |KolFeatures(text)| == if AllSpace(text) then 0 else 1
  {
    var cleaned := TextCleaner.Clean(text, TextCleaner.DefaultLowercase);
    Chunker.ChunkBlank(cleaned, Chunker.DefaultMaxWords);
  }

  /** The state the actor sees for one call. */
  function PredictState(text: string, market: StateBuilder.Features, lastPosition: real): seq<real> {
    StateBuilder.StateVector(market, KolFeatures(text), lastPosition)
  }

  /** The actor's input ends with the position from the previous call. */
  lemma {:induction false} PredictStateEndsWithPosition(text: string, market: StateBuilder.Features, lastPosition: real)
    ensures var s := PredictState(text, market, lastPosition);
      |s| == |KolFeatures(text)| + |market| + 1 && s[|s| - 1] == lastPosition
  {
  }

  class RLKolAgent {
    const modelPath: Option<string>
    /** `TextCleaner()`'s `lowercase`. */
    const lowercase: bool
    /** `TextChunker()`'s `max_words`. */
    const maxWords: int
    var lastPosition: real

    ghost predicate Valid() {
      lowercase == TextCleaner.DefaultLowercase && maxWords == Chunker.DefaultMaxWords
    }

    constructor (modelPath: Option<string>)
      ensures Valid() && this.modelPath == modelPath && lastPosition == 0.0
    {
      this.modelPath := modelPath;
      lowercase := TextCleaner.DefaultLowercase;
      maxWords := Chunker.DefaultMaxWords;
      lastPosition := 0.0;
    }

    method Predict(kolText: string, marketState: StateBuilder.Features) returns (p: Prediction)
      requires Valid()
      modifies this
      ensures p.targetPosition == Act(PredictState(kolText, marketState, old(lastPosition))).targetPosition
      ensures -1.0 <= p.targetPosition <= 1.0 && p.confidence == 0.5
      ensures lastPosition == p.targetPosition
    {
      var cleaned := TextCleaner.Clean(kolText, lowercase);
      var chunks := Chunker.Chunk(cleaned, maxWords);
      var kolFeatures := Encoder.Encode(chunks);
      var state := StateBuilder.Build(marketState, kolFeatures, lastPosition);
      var actorOutput := Act(state);
      lastPosition := actorOutput.targetPosition;
      p := Prediction(actorOutput.targetPosition, actorOutput.confidence);
    }
  }
}
