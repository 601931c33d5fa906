/**
  The per-frame detection list the tracker is fed: YOLO candidates are
  reduced to their best class, kept only when that class's score exceeds
  0.5, and the survivors chosen by non-maximum suppression are emitted as
  `[x1, y1, x2, y2, confidence, class_id]`.
 */
module Detector {
  import opened Geometry

  /** Both the score filter and the NMS score threshold use 0.5. */
  const ConfidenceThreshold: real := 0.5

  /**
    One row of a YOLO output layer with its box already scaled to pixels:
    centre, size and the per-class scores `detection[5:]` (the objectness
    entry in between is not consulted).
   */
  datatype Candidate = Candidate(centerX: int, centerY: int, width: int, height: int, scores: seq<real>)

  /** A candidate that passed the score test: one entry each of `boxes`, `confidences`, `class_ids`. */
  datatype Proposal = Proposal(rect: Rect, conf: real, classId: nat)

  /** One element of `detections`: `[x1, y1, x2, y2, confidence, class_id]`. */
  datatype Detection = Detection(box: Box, conf: real, classId: nat)

  /** `np.argmax`: the first position holding the largest score. */
  function ArgMax(s: seq<real>): (k: nat)
    requires |s| > 0
    ensures k < |s|
    ensures forall j :: 0 <= j < |s| ==> s[j] <= s[k]
    ensures forall j :: 0 <= j < k ==> s[j] < s[k]
  {
    if |s| == 1 then 0
    else
      var best := ArgMax(s[..|s| - 1]);
      if s[|s| - 1] > s[best] then |s| - 1 else best
  }

  /** YOLO rows always carry class scores; `np.argmax` of an empty row raises. */
  predicate Scored(c: Candidate)
  {
    |c.scores| > 0
  }

  /** `scores[class_id]`: the score of the best class. */
  function Confidence(c: Candidate): real
    requires Scored(c)
  {
    c.scores[ArgMax(c.scores)]
  }

  /** The entries appended for a candidate that passes the score test. */
  function Propose(c: Candidate): Proposal
    requires Scored(c)
  {
    Proposal(FromCenter(c.centerX, c.centerY, c.width, c.height), Confidence(c), ArgMax(c.scores))
  }

  predicate Passes(c: Candidate)
    requires Scored(c)
  {
    Confidence(c) > ConfidenceThreshold
  }

  /**
    The loop over YOLO rows: every candidate whose best score is above 0.5
    contributes a proposal, in row order, and nothing else does (see
    `FilterOrigin`).
   */
  function Filter(cands: seq<Candidate>): (props: seq<Proposal>)
    requires forall i :: 0 <= i < |cands| ==> Scored(cands[i])
    ensures |props| <= |cands|
    ensures forall j :: 0 <= j < |props| ==> props[j].conf > ConfidenceThreshold
    ensures forall i :: 0 <= i < |cands| && Passes(cands[i]) ==> Propose(cands[i]) in props
  {
    if |cands| == 0 then []
    else
      var rest := Filter(cands[1..]);
      assert forall i :: 1 <= i < |cands| ==> cands[i] == cands[1..][i - 1];
      if Passes(cands[0]) then [Propose(cands[0])] + rest else rest
  }

  /** Every proposal comes from a candidate that passed the score test. */
  lemma {:induction false} FilterOrigin(cands: seq<Candidate>, j: nat) returns (i: nat)
    requires forall k :: 0 <= k < |cands| ==> Scored(cands[k])
    requires j < |Filter(cands)|
    ensures i < |cands| && Passes(cands[i]) && Filter(cands)[j] == Propose(cands[i])
  {
    if Passes(cands[0]) && j == 0 {
      i := 0;
    } else {
      var j' := if Passes(cands[0]) then j - 1 else j;
      var i' := FilterOrigin(cands[1..], j');
      i := i' + 1;
    }
  }

  /** The filter works row by row: filtering a concatenation filters each part. */
  lemma {:induction false} FilterAppend(a: seq<Candidate>, b: seq<Candidate>)
    requires forall i :: 0 <= i < |a| ==> Scored(a[i])
    requires forall i :: 0 <= i < |b| ==> Scored(b[i])
    ensures forall i :: 0 <= i < |a + b| ==> Scored((a + b)[i])
    ensures Filter(a + b) == Filter(a) + Filter(b)
  {
    if |a| > 0 {
      assert (a + b)[1..] == a[1..] + b;
      FilterAppend(a[1..], b);
    } else {
      assert a + b == b;
    }
  }

  /** `[x, y, x + w, y + h, confidences[i], class_ids[i]]`. */
  function Emit(p: Proposal): (d: Detection)
    ensures ToRect(d.box) == p.rect
    ensures d.conf == p.conf && d.classId == p.classId
  {
    Detection(Corners(p.rect), p.conf, p.classId)
  }

  /** The proposals NMS kept, in the order of `indexes`. */
  function EmitKept(props: seq<Proposal>, keep: seq<nat>): (dets: seq<Detection>)
    requires forall j :: 0 <= j < |keep| ==> keep[j] < |props|
    ensures |dets| == |keep|
    ensures forall j :: 0 <= j < |keep| ==> dets[j] == Emit(props[keep[j]])
  {
    if |keep| == 0 then [] else [Emit(props[keep[0]])] + EmitKept(props, keep[1..])
  }

  /** `d` is what the script emits for candidate `c`. */
  predicate Detects(c: Candidate, d: Detection)
    requires Scored(c)
  {
    d == Emit(Propose(c))
  }

  /**
    The detection list of a frame with YOLO present, NMS being given as the
    list of proposal indexes it keeps. Every detection stems from a candidate
    scoring above 0.5 and spans exactly that candidate's width and height.
   */
  function FrameDetections(cands: seq<Candidate>, keep: seq<nat>): (dets: seq<Detection>)
    requires forall i :: 0 <= i < |cands| ==> Scored(cands[i])
    requires forall j :: 0 <= j < |keep| ==> keep[j] < |Filter(cands)|
    ensures |dets| == |keep|
    ensures forall j :: 0 <= j < |dets| ==> dets[j].conf > ConfidenceThreshold
    ensures forall j :: 0 <= j < |dets| ==>
              exists i :: 0 <= i < |cands| && Passes(cands[i]) && Detects(cands[i], dets[j]) &&
                          dets[j].box.x2 - dets[j].box.x1 == cands[i].width &&
                          dets[j].box.y2 - dets[j].box.y1 == cands[i].height
  {
    var props := Filter(cands);
    var dets := EmitKept(props, keep);
    forall j | 0 <= j < |dets|
      ensures exists i :: 0 <= i < |cands| && Passes(cands[i]) && Detects(cands[i], dets[j]) &&
                          dets[j].box.x2 - dets[j].box.x1 == cands[i].width &&
                          dets[j].box.y2 - dets[j].box.y1 == cands[i].height
    {
      var i := FilterOrigin(cands, keep[j]);
      assert Detects(cands[i], dets[j]);
    }
    dets
  }

  /** The fixed list used when the YOLO files are absent. */
  const MockDetections: seq<Detection> :=
    [Detection(Box(100, 100, 200, 200), 0.9, 0), Detection(Box(300, 150, 400, 300), 0.8, 1)]

  /** The detections of one frame: YOLO's when its files are present, the mock list otherwise. */
  function FrameInput(useYolo: bool, cands: seq<Candidate>, keep: seq<nat>): (dets: seq<Detection>)
    requires useYolo ==> forall i :: 0 <= i < |cands| ==> Scored(cands[i])
    requires useYolo ==> forall j :: 0 <= j < |keep| ==> keep[j] < |Filter(cands)|
    ensures !useYolo ==> dets == MockDetections && |dets| == 2
    ensures useYolo ==> |dets| == |keep|
    ensures forall j :: 0 <= j < |dets| ==> dets[j].conf > ConfidenceThreshold
  {
    if useYolo then FrameDetections(cands, keep) else MockDetections
  }
}
