/**
  The label computed for each tracked box: a class name and a confidence,
  of which only the name is drawn, next to the track id. The script looks
  the label up at `detections[track_id]`, using the track id as a position
  in the current frame's detection list. Ids keep growing with every
  detection, so that position is the track's own detection only while
  `next_id` is still 0, that is, up to the first frame with a detection. `LabelAsWritten` models the lookup as written;
  `Annotate` pairs each track with the detection it was made from.
 */
module Labels {
  import opened Geometry
  import opened Detector
  import opened Tracker

  /** The class list used when `coco.names` is absent. */
  const MockClasses: seq<string> := ["person", "car", "dog"]

  /**
    The `label`/`conf` pair the drawing loop computes for a track. Only
    `label` is drawn, as `"{label} ID:{track_id}"`; `conf` is never read.
   */
  datatype Caption = Caption(text: string, conf: real)

  /** The defaults `label = "object"`, `conf = 0`, kept when no detection is consulted. */
  const Unlabelled: Caption := Caption("object", 0.0)

  /** `classes[class_id] if class_id < len(classes) else "obj"`: never indexes past the list. */
  function ClassName(classId: nat, classes: seq<string>): string
  {
    if classId < |classes| then classes[classId] else "obj"
  }

  /** The caption a detection calls for: its class name (guarded) and its confidence. */
  function CaptionOf(d: Detection, classes: seq<string>): Caption
  {
    Caption(ClassName(d.classId, classes), d.conf)
  }

  /**
    The lookup as written: the detection at position `track_id` is consulted
    exactly when `track_id < len(detections)` (which also rules out an empty
    list); otherwise the defaults stay.
   */
  function LabelAsWritten(trackId: nat, dets: seq<Detection>, classes: seq<string>): (c: Caption)
    ensures trackId < |dets| ==> c == CaptionOf(dets[trackId], classes)
    ensures trackId >= |dets| ==> c == Unlabelled
  {
    if |dets| > 0 && trackId < |dets| then
      CaptionOf(dets[trackId], classes)
    else
      Unlabelled
  }

  /**
    Once `next_id` has reached the number of detections (from the second
    frame of the mock input on), every track of an update keeps the
    defaults: no detection's label is ever drawn.
   */
  lemma LabelsLostOnceIdsPassFrameSize(s: State, dets: seq<Detection>, classes: seq<string>)
    requires s.nextId >= |dets|
    ensures forall k :: 0 <= k < |dets| ==>
              LabelAsWritten(Update(s, dets).tracked[k].id, dets, classes) == Unlabelled
  {
  }

  /** The two mock detections call for "person" at 0.9 and "car" at 0.8. */
  lemma MockCaptions()
    ensures CaptionOf(MockDetections[0], MockClasses) == Caption("person", 0.9)
    ensures CaptionOf(MockDetections[1], MockClasses) == Caption("car", 0.8)
  {
    assert ClassName(0, MockClasses) == "person";
    assert ClassName(1, MockClasses) == "car";
  }

  /**
    The mock demo: in every frame after the first, both boxes are labelled
    "object" (with the computed `conf` left at 0), although `MockCaptions`
    shows the detections are a person (0.9) and a car (0.8).
   */
  lemma MockLabelsLost(frames: seq<seq<Detection>>, f: nat)
    requires AllMock(frames)
    requires 1 <= f < |frames|
    ensures |Run(Initial, frames).outputs[f]| == 2
    ensures LabelAsWritten(Run(Initial, frames).outputs[f][0].id, MockDetections, MockClasses) == Unlabelled
    ensures LabelAsWritten(Run(Initial, frames).outputs[f][1].id, MockDetections, MockClasses) == Unlabelled
  {
    MockRun(frames, f);
    var out := Run(Initial, frames).outputs[f];
    assert out[0].id >= 2 && out[1].id >= 2;
  }

  /**
    A frame with one detection `first`, followed by a frame detecting `d0` and
    then `d1`, whatever the class list: the box of `d0` (id 1) is labelled
    from `d1` (its class name, the computed `conf` being `d1`'s), and the box
    of `d1` (id 2) keeps the defaults.
   */
  lemma MislabelExample(first: Detection, d0: Detection, d1: Detection, classes: seq<string>)
    ensures Update(Initial, [first]).state.nextId == 1
    ensures Update(Update(Initial, [first]).state, [d0, d1]).tracked == [Track(1, d0.box), Track(2, d1.box)]
    ensures LabelAsWritten(Update(Update(Initial, [first]).state, [d0, d1]).tracked[0].id, [d0, d1], classes) ==
            CaptionOf(d1, classes)
    ensures LabelAsWritten(Update(Update(Initial, [first]).state, [d0, d1]).tracked[1].id, [d0, d1], classes) ==
            Unlabelled
  {
  }

  /**
    The as-written lookup is right while `next_id` is still 0, that is, up to
    and including the first frame with a detection.
   */
  lemma AsWrittenAgreesWhileNextIdZero(s: State, dets: seq<Detection>, classes: seq<string>)
    requires s.nextId == 0
    ensures forall k :: 0 <= k < |dets| ==>
              LabelAsWritten(Update(s, dets).tracked[k].id, dets, classes) == CaptionOf(dets[k], classes)
  {
  }

  /** A tracked box ready to be drawn: the track and its computed label and confidence. */
  datatype Annotated = Annotated(track: Track, caption: Caption)

  /** Pairs the k-th track with the caption of the k-th detection. */
  function Pair(tracked: seq<Track>, dets: seq<Detection>, classes: seq<string>): (r: seq<Annotated>)
    requires |tracked| == |dets|
    ensures |r| == |dets|
    ensures forall k :: 0 <= k < |dets| ==> r[k] == Annotated(tracked[k], CaptionOf(dets[k], classes))
    decreases |dets|
  {
    if |dets| == 0 then [] else [Annotated(tracked[0], CaptionOf(dets[0], classes))] + Pair(tracked[1..], dets[1..], classes)
  }

  /**
    The update followed by the labelling, with each track captioned from the
    detection it was made from: the k-th result carries id `next_id + k`, the
    k-th detection's box, and the same detection's class name and confidence.
   */
  function Annotate(s: State, dets: seq<Detection>, classes: seq<string>): (r: seq<Annotated>)
    ensures |r| == |dets|
    ensures forall k :: 0 <= k < |dets| ==>
              r[k].track.id == s.nextId + k && r[k].track.box == dets[k].box &&
              r[k].caption == CaptionOf(dets[k], classes)
  {
    Pair(Update(s, dets).tracked, dets, classes)
  }

  /** While `next_id` is still 0 the corrected captions are the ones the script computes. */
  lemma AnnotateMatchesAsWrittenWhileNextIdZero(s: State, dets: seq<Detection>, classes: seq<string>)
    requires s.nextId == 0
    ensures forall k :: 0 <= k < |dets| ==>
              Annotate(s, dets, classes)[k].caption ==
              LabelAsWritten(Annotate(s, dets, classes)[k].track.id, dets, classes)
  {
  }

  /** On later mock frames the corrected captions name the right classes. */
  lemma MockAnnotated(s: State)
    ensures Annotate(s, MockDetections, MockClasses)[0].caption == Caption("person", 0.9)
    ensures Annotate(s, MockDetections, MockClasses)[1].caption == Caption("car", 0.8)
  {
  }
}
