# Detection tracker and note-sequence generator, modelled in Dafny

This project models the algorithmic core of two demo scripts of the
CodeAlpha AI internship repository.

**`object_detection_tracker.py`:**
- The per-frame detection list. Each YOLO output row is reduced to its best class with a first-maximum argmax. It is kept when that class's score is above 0.5. Its centre/size box becomes left/top/width/height with Python's truncating `int()`, and the rows kept by non-maximum suppression are emitted in corner form `[x1, y1, x2, y2, conf, class_id]`. Without the YOLO files, a fixed list of two mock detections is used instead.
- `SimpleSortTracker`. An update gives every detection of the frame the next fresh id, keeps only this frame's boxes, and returns the stored id/box pairs.
- The label computed for each tracked box. Its class name is drawn next to the track id; its confidence is computed but never drawn.

**`music_generation_ai.py`:**
- `pitchnames = sorted(set(notes))`, ordered by Python's string order.
- `note_to_int`, built from `enumerate(pitchnames)`.
- The training windows and their target notes.
- The ten-step generation loop. The trained network, followed by `argmax`, is a parameter `predict`. After each prediction the window drops its oldest code and takes the code of the emitted note.
- Placing the generated notes at consecutive offsets.

The script's own comment calls the class a "Simplified SORT tracker"
(`object_detection_tracker.py:5`), a name that suggests IoU matching
between frames with tentative and confirmed tracks. The code does none of that:
- there is no association between frames;
- every detection of every frame gets a new id;
- the previous frame's tracks are discarded.

The model follows the code.

Modules:
- `Geometry`: box forms and the edge arithmetic.
- `Detector`: argmax, the score filter and the emitted detections.
- `Tracker`: `SimpleSortTracker`, and the main loop's calls to it.
- `Labels`: the caption lookup as written, and a corrected labelling.
- `StringOrder`: Python's ordering of `str`.
- `Vocabulary`: `pitchnames` and `note_to_int`.
- `Dataset`: windows and targets.
- `Generation`: the window shift, the generation loop and the offsets.

## Model

| member | source | states |
|---|---|---|
| Geometry.Edge | CodeAlpha-AI_Internship/object_detection_tracker.py:66-67 | `int(c - s/2)` is the exact edge `c - s/2` rounded toward zero (not down): within half a unit of it, on the same side of zero |
| Geometry.FromCenter | CodeAlpha-AI_Internship/object_detection_tracker.py:62-68 | the left/top/width/height box keeps the reported size, and its own centre lies within half a pixel of the reported centre |
| Geometry.Corners | CodeAlpha-AI_Internship/object_detection_tracker.py:75-76 | the corner box starts at `(x, y)` and spans exactly `w` by `h` |
| Geometry.CornersRoundTrip | CodeAlpha-AI_Internship/object_detection_tracker.py:75-76 | converting to corners loses nothing: the left/top/width/height box is recovered from the corners |
| Detector.ArgMax | CodeAlpha-AI_Internship/object_detection_tracker.py:58-60 | the chosen class has the largest score, and every earlier class scores strictly less (first maximum, as `np.argmax`) |
| Detector.Filter | CodeAlpha-AI_Internship/object_detection_tracker.py:56-70 | every kept proposal has confidence above 0.5, and every row whose best score is above 0.5 is kept as `Detector.Propose` of it: its box, confidence and class, the three appends of lines 68-70 |
| Detector.FilterOrigin | CodeAlpha-AI_Internship/object_detection_tracker.py:56-70 | conversely, every kept proposal is the proposal of some row whose best score is above 0.5 |
| Detector.FilterAppend | CodeAlpha-AI_Internship/object_detection_tracker.py:56-57 | going through several output layers in turn gives the concatenation of each layer's proposals |
| Detector.Emit | CodeAlpha-AI_Internship/object_detection_tracker.py:75-76 | the emitted corner box converts back to exactly the proposal's box; confidence and class are carried over |
| Detector.EmitKept | CodeAlpha-AI_Internship/object_detection_tracker.py:72-76 | one detection per index kept by NMS, in the order of the indexes, each the emission of that proposal |
| Detector.FrameDetections | CodeAlpha-AI_Internship/object_detection_tracker.py:55-76 | every detection of a YOLO frame stems from a row scoring above 0.5, has that row's width and height, and confidence above 0.5 |
| Detector.FrameInput | CodeAlpha-AI_Internship/object_detection_tracker.py:49-79 | a frame is exactly the two mock detections of line 79 without YOLO, one detection per NMS index with it, and never a detection at or below 0.5 |
| Tracker.Assign | CodeAlpha-AI_Internship/object_detection_tracker.py:13-15 | the k-th detection of the update gets id `next_id + k` and its own box |
| Tracker.ToMap | CodeAlpha-AI_Internship/object_detection_tracker.py:12-14 | the keys of the built dict are exactly the ids assigned |
| Tracker.ToMapLastWins | CodeAlpha-AI_Internship/object_detection_tracker.py:14 | a later assignment to the same key overwrites an earlier one: an id holds the box of its last occurrence |
| Tracker.Update | CodeAlpha-AI_Internship/object_detection_tracker.py:11-17 | one returned track per detection, in detection order, with consecutive ids from the old `next_id` and the detection's box; `next_id` advances by the number of detections |
| Tracker.ConsecutiveMap | CodeAlpha-AI_Internship/object_detection_tracker.py:12-16 | storing tracks with consecutive ids keys the map by exactly those ids, each holding its own box |
| Tracker.UpdateStoresTracks | CodeAlpha-AI_Internship/object_detection_tracker.py:12-17 | after an update the tracker holds exactly the ids `[old next_id, new next_id)`, each with its detection's box |
| Tracker.UpdateForgetsTracks | CodeAlpha-AI_Internship/object_detection_tracker.py:12-16 | the result of an update does not depend on the previous tracks at all, only on `next_id` and the detections |
| Tracker.UpdateEmpty | CodeAlpha-AI_Internship/object_detection_tracker.py:11-17 | an empty frame returns nothing, empties the tracker and leaves `next_id` unchanged |
| Tracker.UpdateValid | CodeAlpha-AI_Internship/object_detection_tracker.py:12-16 | after an update every stored id is below `next_id` |
| Tracker.UpdateIdsFresh | CodeAlpha-AI_Internship/object_detection_tracker.py:14-15 | every id returned by an update was never handed out before and is not among the previous tracks |
| Tracker.Run | CodeAlpha-AI_Internship/object_detection_tracker.py:41-82 | one output per frame with one track per detection; `next_id` ends at the number of detections seen |
| Tracker.RunIdsConsecutive | CodeAlpha-AI_Internship/object_detection_tracker.py:7-17 | over any number of frames the returned ids, in order, are consecutive from the starting `next_id`, and their count is the number of detections |
| Tracker.RunIdsUnique | CodeAlpha-AI_Internship/object_detection_tracker.py:7-17 | no id is ever returned twice over a run; ids strictly increase |
| Tracker.RunFrame | CodeAlpha-AI_Internship/object_detection_tracker.py:41-82 | the k-th track of frame f has id `start + (detections in frames before f) + k` and the k-th detection's box |
| Tracker.MockRun | CodeAlpha-AI_Internship/object_detection_tracker.py:77-82 | in the mock demo, started from `Tracker.Initial` (the state `__init__` sets up at lines 7-9: no tracks, ids from 0), frame f returns ids `2f` and `2f+1` with the two fixed boxes: the same objects get new ids every frame |
| Tracker.MockInputIsAllMock | CodeAlpha-AI_Internship/object_detection_tracker.py:77-79 | without the YOLO files every frame fed to the tracker is the mock list, so the mock-demo lemmas apply to the script's own input |
| Labels.LabelAsWritten | CodeAlpha-AI_Internship/object_detection_tracker.py:85-92 | the computed `label`/`conf` are the class name and the confidence of the detection at position `track_id`, or `"object"`/0 when `track_id` is not a position of the frame's list; the class name comes from `Labels.ClassName`, which falls back to `"obj"` for a class id past the end of `classes` (line 91) and so never indexes past it |
| Labels.LabelsLostOnceIdsPassFrameSize | CodeAlpha-AI_Internship/object_detection_tracker.py:89-92 | once `next_id` is at least the frame's detection count, every track of that frame keeps the defaults `"object"`/0 |
| Labels.MockCaptions | CodeAlpha-AI_Internship/object_detection_tracker.py:90-92 | with `Labels.MockClasses`, the fallback class list of line 30, the two mock detections call for "person" at 0.9 and "car" at 0.8 |
| Labels.MockLabelsLost | CodeAlpha-AI_Internship/object_detection_tracker.py:77-92 | in the mock demo, from the second frame on, both boxes are labelled `"object"` (the computed `conf` stays 0) |
| Labels.MislabelExample | CodeAlpha-AI_Internship/object_detection_tracker.py:89-92 | for any class list, after a frame with one detection, a frame detecting `d0` and then `d1` returns tracks 1 and 2 with their own boxes, labels track 1 from `d1` (class name and computed `conf`) and leaves track 2 with the defaults |
| Labels.AsWrittenAgreesWhileNextIdZero | CodeAlpha-AI_Internship/object_detection_tracker.py:85-92 | while `next_id` is still 0 (up to and including the first frame with a detection) the lookup as written labels every track from its own detection |
| Labels.Annotate | CodeAlpha-AI_Internship/object_detection_tracker.py:85-92 | corrected labelling: the k-th track (id `next_id + k`, the k-th box) is captioned from the k-th detection, on every frame |
| Labels.AnnotateMatchesAsWrittenWhileNextIdZero | CodeAlpha-AI_Internship/object_detection_tracker.py:85-92 | the corrected captions coincide with the script's while `next_id` is still 0 |
| Labels.MockAnnotated | CodeAlpha-AI_Internship/object_detection_tracker.py:79-92 | with the correction, every mock frame labels its two boxes "person" and "car", with computed confidences 0.9 and 0.8 |
| StringOrder.Less | CodeAlpha-AI_Internship/music_generation_ai.py:14 | Python's `<` on `str`, the order `sorted` uses: lexicographic on code points, a proper prefix before its extensions |
| StringOrder.LessIsLexicographic | CodeAlpha-AI_Internship/music_generation_ai.py:14 | `a < b` exactly when `a` is a proper prefix of `b` or, at the first position where they differ, `a` has the smaller code point |
| StringOrder.LessIrreflexive | CodeAlpha-AI_Internship/music_generation_ai.py:14 | no string sorts before itself |
| StringOrder.LessTransitive | CodeAlpha-AI_Internship/music_generation_ai.py:14 | the string order is transitive |
| StringOrder.LessAsymmetric | CodeAlpha-AI_Internship/music_generation_ai.py:14 | two strings never sort before each other |
| StringOrder.LessTotal | CodeAlpha-AI_Internship/music_generation_ai.py:14 | any two distinct strings are ordered one way or the other |
| Vocabulary.Insert | CodeAlpha-AI_Internship/music_generation_ai.py:14 | adding a name to a strictly sorted list keeps it strictly sorted and adds exactly that name |
| Vocabulary.Pitchnames | CodeAlpha-AI_Internship/music_generation_ai.py:14 | `pitchnames` is strictly sorted and holds exactly the distinct notes |
| Vocabulary.SortedUnique | CodeAlpha-AI_Internship/music_generation_ai.py:14 | two strictly sorted lists with the same elements are equal |
| Vocabulary.PitchnamesIsSortedSet | CodeAlpha-AI_Internship/music_generation_ai.py:14 | `pitchnames` is the only strictly sorted list of the distinct notes |
| Vocabulary.VocabSize | CodeAlpha-AI_Internship/music_generation_ai.py:15 | `n_vocab` is the number of distinct notes |
| Vocabulary.NoteToInt | CodeAlpha-AI_Internship/music_generation_ai.py:18 | the keys are the names of the list; each maps to a position holding it; without repeats, each name maps to its own position |
| Vocabulary.NoteToIntBijection | CodeAlpha-AI_Internship/music_generation_ai.py:14-18 | on the vocabulary, `note_to_int` is a bijection from the distinct notes onto `[0, n_vocab)` whose inverse is indexing `pitchnames` |
| Dataset.Encode | CodeAlpha-AI_Internship/music_generation_ai.py:27 | encoding keeps the length and codes each note through the map |
| Dataset.Decode | CodeAlpha-AI_Internship/music_generation_ai.py:62 | decoding keeps the length and reads each code as a position in `pitchnames` |
| Dataset.DecodeEncode | CodeAlpha-AI_Internship/music_generation_ai.py:14-28 | every window of vocabulary notes encodes to codes below `n_vocab`, and decoding the encoding gives the window back |
| Dataset.BuildPatterns | CodeAlpha-AI_Internship/music_generation_ai.py:24-28 | there are `len(notes) - 20` patterns (none for a shorter list); pattern i is the encoding of `notes[i : i+20]` and its target the code of `notes[i+20]` |
| Dataset.PatternsDecode | CodeAlpha-AI_Internship/music_generation_ai.py:20-28 | every pattern code lies in `[0, n_vocab)`, every pattern decodes back to its window, and every target to the note after it |
| Dataset.PrepareData | CodeAlpha-AI_Internship/music_generation_ai.py:13-30 | the vocabulary, its size and the patterns together: sorted distinct notes, all codes in `[0, n_vocab)`, and inputs and targets decoding to the windows and following notes |
| Generation.Shift | CodeAlpha-AI_Internship/music_generation_ai.py:65-66 | a shift keeps the window length, ends with the new code and moves every other code one place forward |
| Generation.ShiftAllIsSuffix | CodeAlpha-AI_Internship/music_generation_ai.py:59-66 | after feeding several codes, the window is the last `len(window)` codes of the seed followed by those codes |
| Generation.Generate | CodeAlpha-AI_Internship/music_generation_ai.py:59-66 | the loop emits exactly `count` notes, each a vocabulary entry, and keeps the window length |
| Generation.PredictionsBounded | CodeAlpha-AI_Internship/music_generation_ai.py:60-61 | a predictor with `n_vocab` outputs only ever yields indexes below `n_vocab` |
| Generation.GenerateWindow | CodeAlpha-AI_Internship/music_generation_ai.py:59-66 | the final window is the seed shifted by the predicted indexes, because `note_to_int[pitchnames[index]]` is `index` |
| Generation.GenerateNotes | CodeAlpha-AI_Internship/music_generation_ai.py:59-63 | the emitted notes are exactly the predicted indexes decoded through `pitchnames` |
| Generation.GenerateIsDecodedPredictions | CodeAlpha-AI_Internship/music_generation_ai.py:59-66 | generating equals iterating the predictor on its own answers and decoding them; the final window is the seed followed by the predictions, cut to the window length |
| Generation.AssignOffsets | CodeAlpha-AI_Internship/music_generation_ai.py:69-73 | the k-th output note is the k-th generated note, at offset k |
| Generation.GeneratedFromNotes | CodeAlpha-AI_Internship/music_generation_ai.py:59-63 | every generated note occurs in the training notes |
| Generation.GenerateMusic | CodeAlpha-AI_Internship/music_generation_ai.py:12-73 | the whole pipeline yields ten notes at offsets 0 to 9, each a note of the training list |

## Left out

- Camera capture, drawing, display, the ESC key and the console messages: I/O only.
- The YOLO network, `blobFromImage` and the scaling of the normalised YOLO outputs to pixels: floating point on frames. A candidate row enters the model with its centre and size already in whole pixels, and with its class scores as reals.
- The objectness entry `detection[4]` is not modelled, because the script never reads it.
- `cv2.dnn.NMSBoxes`: a foreign call. Its result is a parameter, the list of kept indexes, each required to name a proposal.
- The `if len(indexes) > 0` test is not modelled separately, because an empty index list emits nothing either way.
- The confidence `conf` computed on lines 88 and 92 is never drawn (line 94 draws only the label and the track id). The model keeps it in `Caption` so that the lookup is modelled as written, but promises nothing about what appears on screen.
- The class-name list printed on line 98 indexes `classes` without a guard: a class id at or past `len(classes)` raises an uncaught `IndexError` there and ends the script (the camera is not released and the windows are not closed), so the `"obj"` fallback of line 91 never outlives that frame. Printing, and this exception, are not modelled.
- The class list read from `coco.names`: file I/O. Only the fallback list `["person", "car", "dog"]` is a constant of the model; elsewhere the list is a parameter.
- The mock note list `['C4', …] * 50`: the model works on any list of note names.
- Keras:
  - building and training the LSTM;
  - the reshape, the division by `n_vocab`, and `to_categorical`.
  The network followed by `argmax` is the parameter `predict`, required to answer below `n_vocab`. The window is kept as integer codes; dividing every code by `n_vocab` is injective and is left out.
- `np.random.randint(0, n_patterns - 1)`: randomness. The start is a parameter with `start + 1 < n_patterns`. This is also the condition under which `randint` does not raise.
- music21 notes and the MIDI file: output only. A note event is its name and its offset.
- The translation tool and the FAQ chatbot are not part of this model.

## Findings

| source | as written | input that shows it | evidently intended | confidence | as-written member | corrected member |
|---|---|---|---|---|---|---|
| CodeAlpha-AI_Internship/object_detection_tracker.py:89-92 | the label of a track is looked up at `detections[track_id]`, using the ever-growing track id as a position in the current frame's list | with the YOLO files and the standard COCO class list, a frame detecting one person, then a frame detecting a person (class 0) and a car (class 2): the person's box (id 1) is drawn as "car ID:1" and the car's box (id 2) as "object ID:2"; in the mock demo every box after the first frame is drawn as "object" | caption the k-th track of the update with the k-th detection of the frame, the one it was made from | not executed | Labels.MislabelExample | Labels.Annotate |
