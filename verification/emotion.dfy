/**
 * The emotion classifier: an ordered chain of strict threshold tests over the
 * feature vector, first match wins, Neutral when nothing matches.
 */
module Emotion {
  import opened Features

  /** The displayed labels, without their emoji text. */
  datatype Label = Neutral | Happy | Surprised | Shocked | Angry

  /** Smile width above which the face is Happy. */
  const HappySmile: real := 0.02
  /** Brow raise above which the face is Surprised. */
  const SurprisedBrow: real := 0.03
  /** Mouth opening above which the face is Shocked. */
  const ShockedMouth: real := 0.05
  /** Brow raise below which the face is Angry. */
  const AngryBrow: real := -0.02

  /**
   * The if / else-if chain. Its postconditions describe the region of feature
   * space each label occupies once the earlier tests have failed.
   */
  function Classify(f: Features): (r: Label)
    ensures r == Happy <==> f.smile > HappySmile
    ensures r == Surprised <==> f.smile <= HappySmile && f.browRaise > SurprisedBrow
    ensures r == Shocked <==>
              f.smile <= HappySmile && f.browRaise <= SurprisedBrow && f.mouthOpen > ShockedMouth
    ensures r == Angry <==>
              f.smile <= HappySmile && f.browRaise <= SurprisedBrow && f.mouthOpen <= ShockedMouth
              && f.browRaise < AngryBrow
    ensures r == Neutral <==>
              f.smile <= HappySmile && f.browRaise <= SurprisedBrow && f.mouthOpen <= ShockedMouth
              && f.browRaise >= AngryBrow
  {
    if f.smile > HappySmile then Happy
    else if f.browRaise > SurprisedBrow then Surprised
    else if f.mouthOpen > ShockedMouth then Shocked
    else if f.browRaise < AngryBrow then Angry
    else Neutral
  }

  /** A smile wins whatever the brows and mouth do. */
  lemma SmileTakesPrecedence(f: Features)
    requires f.smile > HappySmile
    ensures Classify(f) == Happy
    ensures forall b: real, m: real :: Classify(Features(m, b, f.smile)) == Happy
  {
  }

  /** A feature exactly at its threshold does not fire its rule. */
  lemma ThresholdsAreStrict()
    ensures Classify(Features(0.0, 0.0, HappySmile)) == Neutral
    ensures Classify(Features(0.0, SurprisedBrow, 0.0)) == Neutral
    ensures Classify(Features(ShockedMouth, 0.0, 0.0)) == Neutral
    ensures Classify(Features(0.0, AngryBrow, 0.0)) == Neutral
  {
  }

  /** One feature vector per label, plus one where three rules fire at once and the first wins. */
  lemma OneExamplePerLabel()
    ensures Classify(Features(0.0, 0.0, 0.03)) == Happy
    ensures Classify(Features(0.0, 0.04, 0.01)) == Surprised
    ensures Classify(Features(0.06, 0.0, 0.01)) == Shocked
    ensures Classify(Features(0.0, -0.03, 0.0)) == Angry
    ensures Classify(Features(0.0, 0.0, 0.0)) == Neutral
    ensures Classify(Features(0.06, 0.04, 0.03)) == Happy
  {
  }
}
