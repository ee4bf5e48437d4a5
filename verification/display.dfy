/**
 * The per-frame result handler: classify every detected face in order and
 * overwrite one shared label with each result.
 */
module Display {
  import opened Wrappers
  import opened Landmarks
  import opened Features
  import opened Emotion

  /** The label element: whatever the page shows before any face is classified, or a label. */
  datatype Display = Placeholder | Showing(shown: Label)

  /**
   * The label after a frame, and the position of the face whose landmark set
   * was too short, if one stopped the loop (the script throws there).
   */
  datatype Outcome = Outcome(display: Display, aborted: Option<nat>)

  /** The emotion of one face, or the landmark read that fails. */
  function DetectEmotion(lm: LandmarkSet): (r: Result<Label, Fault>)
    ensures r.Ok? <==> |lm| > 151
    ensures r.Ok? ==>
              r.value == Classify(Features(lm[13].y - lm[14].y, lm[10].y - lm[151].y, lm[48].x - lm[54].x))
    ensures r.Err? ==> r.error.missing >= |lm|
  {
    match Extract(lm)
    case Ok(f) => Ok(Classify(f))
    case Err(e) => Err(e)
  }

  /** The label of a landmark set long enough to be classified. */
  function EmotionOf(lm: LandmarkSet): Label
    requires Covers(lm)
  {
    DetectEmotion(lm).value
  }

  /** Classify `faces` front to back, each result replacing the label shown. */
  function ShowEach(d: Display, faces: seq<LandmarkSet>): (r: Outcome)
    ensures (forall i :: 0 <= i < |faces| ==> Covers(faces[i])) <==> r.aborted.None?
    ensures r.aborted.None? ==>
              r.display == if |faces| == 0 then d else Showing(EmotionOf(faces[|faces| - 1]))
    ensures r.aborted.Some? ==>
              var k := r.aborted.value;
              && k < |faces| && !Covers(faces[k])
              && (forall j :: 0 <= j < k ==> Covers(faces[j]))
              && r.display == if k == 0 then d else Showing(EmotionOf(faces[k - 1]))
    decreases |faces|
  {
    if |faces| == 0 then Outcome(d, None)
    else match DetectEmotion(faces[0])
      case Err(_) => Outcome(d, Some(0))
      case Ok(l) =>
        var rest := ShowEach(Showing(l), faces[1..]);
        Outcome(rest.display, match rest.aborted case None => None case Some(k) => Some(k + 1))
  }

  /**
   * One detector callback: `faces` is the optional list of per-face landmark
   * sets. An absent list leaves the label as it was.
   */
  function ProcessResults(d: Display, faces: Option<seq<LandmarkSet>>): (r: Outcome)
    ensures faces.None? ==> r == Outcome(d, None)
    ensures faces.Some? && |faces.value| == 0 ==> r == Outcome(d, None)
    ensures faces.Some? ==>
              (r.aborted.None? <==> forall i :: 0 <= i < |faces.value| ==> Covers(faces.value[i]))
    ensures faces.Some? && r.aborted.None? && |faces.value| > 0 ==>
              r.display == Showing(EmotionOf(faces.value[|faces.value| - 1]))
    ensures r.aborted.Some? ==>
              var k := r.aborted.value;
              && faces.Some? && k < |faces.value| && !Covers(faces.value[k])
              && (forall j :: 0 <= j < k ==> Covers(faces.value[j]))
              && r.display == if k == 0 then d else Showing(EmotionOf(faces.value[k - 1]))
  {
    match faces
    case None => Outcome(d, None)
    case Some(fs) => ShowEach(d, fs)
  }

  /**
   * Only the six coordinates the features read decide a face's emotion; the
   * number of points matters only when a set is too short.
   */
  lemma DetectEmotionReadsOnlyItsLandmarks(a: LandmarkSet, b: LandmarkSet)
    requires |a| == |b| || (Covers(a) && Covers(b))
    requires forall i :: i in {10, 13, 14, 151} && i < |a| && i < |b| ==> a[i].y == b[i].y
    requires forall i :: i in {48, 54} && i < |a| && i < |b| ==> a[i].x == b[i].x
    ensures DetectEmotion(a) == DetectEmotion(b)
  {
  }

  /** Points appended after a classifiable set leave its emotion unchanged. */
  lemma ExtraPointsChangeNothing(a: LandmarkSet, extra: LandmarkSet)
    requires Covers(a)
    ensures DetectEmotion(a + extra) == DetectEmotion(a)
  {
  }

  /** A face with only twelve points fails on the first read, the upper lip, and changes nothing. */
  lemma TwelvePointFaceIsRejected(d: Display, p: Point)
    ensures DetectEmotion(seq(12, _ => p)) == Err(InsufficientLandmarks(13))
    ensures ProcessResults(d, Some([seq(12, _ => p)])) == Outcome(d, Some(0))
  {
  }

  /** Every face of every frame can be classified. */
  predicate AllCover(frames: seq<Option<seq<LandmarkSet>>>)
  {
    forall i, j :: 0 <= i < |frames| && frames[i].Some? && 0 <= j < |frames[i].value| ==>
      Covers(frames[i].value[j])
  }

  /** The label after a sequence of detector callbacks, each one applied to the label the previous one left. */
  function Session(d: Display, frames: seq<Option<seq<LandmarkSet>>>): (r: Display)
    ensures |frames| == 0 ==> r == d
    ensures |frames| > 0 && (frames[|frames| - 1].None? || |frames[|frames| - 1].value| == 0) ==>
              r == Session(d, frames[..|frames| - 1])
    ensures |frames| > 0 && frames[|frames| - 1].Some? && |frames[|frames| - 1].value| > 0
            && AllCover(frames[|frames| - 1..]) ==>
              var fs := frames[|frames| - 1].value;
              r == Showing(EmotionOf(fs[|fs| - 1]))
    decreases |frames|
  {
    if |frames| == 0 then d
    else ProcessResults(Session(d, frames[..|frames| - 1]), frames[|frames| - 1]).display
  }

  /** The last face of the latest frame that reported any face. */
  function LatestFace(frames: seq<Option<seq<LandmarkSet>>>): (r: Option<LandmarkSet>)
    ensures AllCover(frames) && r.Some? ==> Covers(r.value)
    ensures r.None? ==>
              forall i :: 0 <= i < |frames| && frames[i].Some? ==> |frames[i].value| == 0
    decreases |frames|
  {
    if |frames| == 0 then None
    else
      var last := frames[|frames| - 1];
      if last.Some? && |last.value| > 0 then Some(last.value[|last.value| - 1])
      else
        assert AllCover(frames) ==> AllCover(frames[..|frames| - 1]);
        LatestFace(frames[..|frames| - 1])
  }

  /**
   * Frames without faces leave the label alone: after any sequence of
   * frames, the label is that of the latest face seen, or the initial one.
   */
  lemma {:induction false} SessionShowsLatestFace(d: Display, frames: seq<Option<seq<LandmarkSet>>>)
    requires AllCover(frames)
    ensures Session(d, frames) == match LatestFace(frames)
                                  case None => d
                                  case Some(lm) => Showing(EmotionOf(lm))
    decreases |frames|
  {
    if |frames| > 0 {
      var init := frames[..|frames| - 1];
      assert AllCover(init);
      SessionShowsLatestFace(d, init);
    }
  }
}
