/**
 * Feature extraction: three signed scalars, each the difference of one
 * coordinate of two fixed landmarks.
 */
module Features {
  import opened Wrappers
  import opened Landmarks

  datatype FeatureName = MouthOpen | BrowRaise | Smile

  /** The feature vector the classifier reads. */
  datatype Features = Features(mouthOpen: real, browRaise: real, smile: real)

  /** A feature is `lm[from].axis - lm[minus].axis`. */
  datatype FeatureDef = FeatureDef(from: nat, minus: nat, axis: Axis)

  /** Why a landmark set could not be measured: the point at `missing` was read but absent. */
  datatype Fault = InsufficientLandmarks(missing: nat)

  /** The landmark pairs behind each feature (upper/lower lip, brow pair, smile-width pair). */
  function Def(name: FeatureName): FeatureDef
  {
    match name
    case MouthOpen => FeatureDef(13, 14, Y)
    case BrowRaise => FeatureDef(10, 151, Y)
    case Smile => FeatureDef(48, 54, X)
  }

  /** The largest landmark index any feature reads. */
  const MaxIndex: nat := 151

  /** A landmark set long enough for every feature. */
  predicate Covers(lm: LandmarkSet)
  {
    |lm| > MaxIndex
  }

  /** Landmark indices in the order the features read them: mouth, then brows, then smile. */
  const ReadOrder: seq<nat> := [
    Def(MouthOpen).from, Def(MouthOpen).minus,
    Def(BrowRaise).from, Def(BrowRaise).minus,
    Def(Smile).from, Def(Smile).minus
  ]

  function Measure(lm: LandmarkSet, d: FeatureDef): real
    requires d.from < |lm| && d.minus < |lm|
  {
    Coord(lm[d.from], d.axis) - Coord(lm[d.minus], d.axis)
  }

  function Value(f: Features, name: FeatureName): real
  {
    match name
    case MouthOpen => f.mouthOpen
    case BrowRaise => f.browRaise
    case Smile => f.smile
  }

  /**
   * The features of a landmark set, or the index whose point is read first
   * while absent (the script throws there).
   */
  function Extract(lm: LandmarkSet): (r: Result<Features, Fault>)
    ensures r.Ok? <==> Covers(lm)
    ensures r.Ok? ==> r.value.mouthOpen == lm[13].y - lm[14].y
    ensures r.Ok? ==> r.value.browRaise == lm[10].y - lm[151].y
    ensures r.Ok? ==> r.value.smile == lm[48].x - lm[54].x
    ensures r.Err? ==> r.error.missing >= |lm|
    ensures r.Err? ==> r.error.missing == (if |lm| <= 13 then 13 else if |lm| == 14 then 14 else 151)
  {
    assert ReadOrder == [13, 14, 10, 151, 48, 54];
    match FirstMissing(ReadOrder, |lm|)
    case Some(k) => Err(InsufficientLandmarks(ReadOrder[k]))
    case None =>
      assert ReadOrder[3] < |lm|;
      Ok(Features(Measure(lm, Def(MouthOpen)), Measure(lm, Def(BrowRaise)), Measure(lm, Def(Smile))))
  }

  /**
   * Only the y coordinates of points 10, 13, 14 and 151, the x coordinates of
   * points 48 and 54, and the number of points influence extraction; the
   * number of points matters only when a set is too short.
   */
  lemma ExtractReadsOnlyItsLandmarks(a: LandmarkSet, b: LandmarkSet)
    requires |a| == |b| || (Covers(a) && Covers(b))
    requires forall i :: i in {10, 13, 14, 151} && i < |a| && i < |b| ==> a[i].y == b[i].y
    requires forall i :: i in {48, 54} && i < |a| && i < |b| ==> a[i].x == b[i].x
    ensures Extract(a) == Extract(b)
  {
  }
}
