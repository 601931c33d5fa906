/**
  Generation loop of the music generator: the trained network, seen only as a
  predictor of the next note's index, is asked ten times for a note; after
  each answer the window drops its oldest code and takes the new one. The
  notes are then laid out at consecutive offsets.
 */
module Generation {
  import opened Vocabulary
  import opened Dataset

  /** `range(10)` in the generation loop. */
  const GenerateCount: nat := 10

  /**
    The network followed by `np.argmax`: from the current window of codes to
    the index of the predicted note.
   */
  type Predictor = seq<nat> -> nat

  /** The network's output layer has `nVocab` units, so argmax lands in `[0, nVocab)`. */
  ghost predicate PredictsWithin(predict: Predictor, nVocab: nat)
  {
    forall w :: predict(w) < nVocab
  }

  /** `pattern[:, 1:, :]`: everything but the oldest code (nothing of an empty window). */
  function DropFirst(w: seq<nat>): seq<nat>
  {
    if |w| == 0 then [] else w[1..]
  }

  /** One step of the window: drop the oldest code and append `code`. */
  function Shift(window: seq<nat>, code: nat): (r: seq<nat>)
    ensures |window| > 0 ==> |r| == |window|
    ensures |window| == 0 ==> r == [code]
    ensures r[|r| - 1] == code
    ensures forall k :: 0 <= k < |r| - 1 ==> r[k] == window[k + 1]
  {
    DropFirst(window) + [code]
  }

  /** The window after feeding `codes` one after the other. */
  function ShiftAll(window: seq<nat>, codes: seq<nat>): seq<nat>
    decreases |codes|
  {
    if |codes| == 0 then window else ShiftAll(Shift(window, codes[0]), codes[1..])
  }

  /**
    A non-empty window always holds the most recent codes: after feeding
    `codes`, it is the last `|window|` codes of the seed followed by `codes`.
   */
  lemma {:induction false} ShiftAllIsSuffix(window: seq<nat>, codes: seq<nat>)
    requires |window| > 0
    ensures ShiftAll(window, codes) == (window + codes)[|codes|..]
    decreases |codes|
  {
    if |codes| > 0 {
      var next := Shift(window, codes[0]);
      ShiftAllIsSuffix(next, codes[1..]);
      assert next == (window + codes)[1..|window| + 1];
      assert next + codes[1..] == (window + codes)[1..];
    }
  }

  /** The notes a generation run produced and the window it ended with. */
  datatype Generated = Generated(notes: seq<string>, window: seq<nat>)

  /**
    The generation loop: `count` times ask the predictor for an index, emit
    `pitchnames[index]`, and shift `note_to_int` of that note into the window.
   */
  function Generate(p: seq<string>, m: map<string, nat>, window: seq<nat>, predict: Predictor, count: nat)
    : (g: Generated)
    requires PredictsWithin(predict, |p|)
    requires forall i :: 0 <= i < |p| ==> p[i] in m
    ensures |g.notes| == count
    ensures forall k :: 0 <= k < count ==> g.notes[k] in p
    ensures |window| > 0 ==> |g.window| == |window|
    decreases count
  {
    if count == 0 then Generated([], window)
    else
      var index := predict(window);
      var result := p[index];
      var rest := Generate(p, m, Shift(window, m[result]), predict, count - 1);
      Generated([result] + rest.notes, rest.window)
  }

  /** The predictions alone: the indexes the predictor returns when fed its own answers. */
  function Predictions(window: seq<nat>, predict: Predictor, count: nat): (codes: seq<nat>)
    ensures |codes| == count
    decreases count
  {
    if count == 0 then []
    else [predict(window)] + Predictions(Shift(window, predict(window)), predict, count - 1)
  }

  lemma {:induction false} PredictionsBounded(window: seq<nat>, predict: Predictor, count: nat, n: nat)
    requires PredictsWithin(predict, n)
    ensures |Predictions(window, predict, count)| == count
    ensures forall k :: 0 <= k < count ==> Predictions(window, predict, count)[k] < n
    decreases count
  {
    if count > 0 {
      PredictionsBounded(Shift(window, predict(window)), predict, count - 1, n);
    }
  }

  /** The window a generation run ends with is the seed shifted by the predictions. */
  lemma {:induction false} GenerateWindow(
    p: seq<string>, m: map<string, nat>, window: seq<nat>, predict: Predictor, count: nat)
    requires forall i :: 0 <= i < |p| ==> p[i] in m && m[p[i]] == i
    requires PredictsWithin(predict, |p|)
    ensures Generate(p, m, window, predict, count).window == ShiftAll(window, Predictions(window, predict, count))
    decreases count
  {
    if count > 0 {
      var index := predict(window);
      var next := Shift(window, index);
      assert m[p[index]] == index;
      GenerateWindow(p, m, next, predict, count - 1);
      var codes := Predictions(window, predict, count);
      assert codes[1..] == Predictions(next, predict, count - 1);
    }
  }

  /** One turn of the generation loop, when `m` maps the emitted note back to its index. */
  lemma GenerateStep(p: seq<string>, m: map<string, nat>, window: seq<nat>, predict: Predictor, count: nat)
    requires forall i :: 0 <= i < |p| ==> p[i] in m && m[p[i]] == i
    requires PredictsWithin(predict, |p|)
    requires count > 0
    ensures predict(window) < |p|
    ensures Generate(p, m, window, predict, count).notes ==
            [p[predict(window)]] + Generate(p, m, Shift(window, predict(window)), predict, count - 1).notes
  {
    assert m[p[predict(window)]] == predict(window);
  }

  /** The notes of a generation run are the predictions decoded through `pitchnames`. */
  lemma {:induction false} GenerateNotes(
    p: seq<string>, m: map<string, nat>, window: seq<nat>, predict: Predictor, codes: seq<nat>)
    requires forall i :: 0 <= i < |p| ==> p[i] in m && m[p[i]] == i
    requires PredictsWithin(predict, |p|)
    requires codes == Predictions(window, predict, |codes|)
    requires forall k :: 0 <= k < |codes| ==> codes[k] < |p|
    ensures Generate(p, m, window, predict, |codes|).notes == Decode(p, codes)
    decreases |codes|
  {
    if |codes| > 0 {
      var next := Shift(window, codes[0]);
      GenerateStep(p, m, window, predict, |codes|);
      GenerateNotes(p, m, next, predict, codes[1..]);
    }
  }

  /**
    With `note_to_int` the inverse of `pitchnames` (as `NoteToIntBijection`
    shows it is), generating is the same as iterating the predictor on codes
    and decoding its answers: the code shifted in is the predicted index
    itself, and the final window is the seed followed by the predictions.
   */
  lemma GenerateIsDecodedPredictions(
    p: seq<string>, m: map<string, nat>, window: seq<nat>, predict: Predictor, count: nat)
    requires forall i :: 0 <= i < |p| ==> p[i] in m && m[p[i]] == i
    requires PredictsWithin(predict, |p|)
    ensures |Predictions(window, predict, count)| == count
    ensures forall k :: 0 <= k < count ==> Predictions(window, predict, count)[k] < |p|
    ensures Generate(p, m, window, predict, count).notes == Decode(p, Predictions(window, predict, count))
    ensures |window| > 0 ==>
              Generate(p, m, window, predict, count).window == (window + Predictions(window, predict, count))[count..]
  {
    PredictionsBounded(window, predict, count, |p|);
    GenerateNotes(p, m, window, predict, Predictions(window, predict, count));
    GenerateWindow(p, m, window, predict, count);
    if |window| > 0 {
      ShiftAllIsSuffix(window, Predictions(window, predict, count));
    }
  }

  /** A generated note placed in the output stream: `note.Note(name)` with its `offset`. */
  datatype NoteEvent = NoteEvent(pitch: string, offset: nat)

  /**
    The loop that builds `output_notes`: each note's offset is the number of
    notes placed before it, so the k-th note sits at offset k.
   */
  method AssignOffsets(generated: seq<string>) returns (events: seq<NoteEvent>)
    ensures |events| == |generated|
    ensures forall k :: 0 <= k < |events| ==> events[k].pitch == generated[k] && events[k].offset == k
  {
    events := [];
    for i := 0 to |generated|
      invariant |events| == i
      invariant forall k :: 0 <= k < i ==> events[k].pitch == generated[k] && events[k].offset == k
    {
      var n := NoteEvent(generated[i], |events|);
      events := events + [n];
    }
  }

  /** Every note generated over a vocabulary of `notes` occurs in `notes`. */
  lemma GeneratedFromNotes(notes: seq<string>, p: seq<string>, m: map<string, nat>,
                           window: seq<nat>, predict: Predictor, count: nat)
    requires Elems(p) == Elems(notes)
    requires PredictsWithin(predict, |p|)
    requires forall i :: 0 <= i < |p| ==> p[i] in m
    ensures forall k :: 0 <= k < count ==> Generate(p, m, window, predict, count).notes[k] in notes
  {
    var g := Generate(p, m, window, predict, count);
    forall k | 0 <= k < count
      ensures g.notes[k] in notes
    {
      assert g.notes[k] in Elems(p);
    }
  }

  /**
    Steps 1, 2, 5 and 6 of the script, with the network as `predict` and the
    random start as `start` (drawn from `[0, n_patterns - 1)`): ten events at
    offsets 0 to 9, each a note that occurs in the training notes.
   */
  method GenerateMusic(notes: seq<string>, start: nat, predict: Predictor) returns (events: seq<NoteEvent>)
    requires start + 1 < PatternCount(|notes|, SequenceLength)
    requires PredictsWithin(predict, |Elems(notes)|)
    ensures |events| == GenerateCount
    ensures forall k :: 0 <= k < |events| ==> events[k].offset == k && events[k].pitch in notes
  {
    var pitchnames, nVocab, inputs, targets := PrepareData(notes, SequenceLength);
    var m := NoteToInt(pitchnames);
    InElems(pitchnames);
    GeneratedFromNotes(notes, pitchnames, m, inputs[start], predict, GenerateCount);
    var generated := Generate(pitchnames, m, inputs[start], predict, GenerateCount);
    events := AssignOffsets(generated.notes);
  }
}
