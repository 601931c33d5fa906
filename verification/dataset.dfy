/**
  Training-set construction of the music generator: every window of
  `sequence_length` consecutive notes, encoded through `note_to_int`, paired
  with the encoding of the note that follows it.
 */
module Dataset {
  import opened Vocabulary

  /** `sequence_length` in the script. */
  const SequenceLength: nat := 20

  /** Every note of `s` has a code in `m`. */
  predicate Encodable(m: map<string, nat>, s: seq<string>)
  {
    forall k :: 0 <= k < |s| ==> s[k] in m
  }

  /** `[note_to_int[n] for n in s]`. */
  function Encode(m: map<string, nat>, s: seq<string>): (r: seq<nat>)
    requires Encodable(m, s)
    ensures |r| == |s|
    ensures forall k :: 0 <= k < |s| ==> r[k] == m[s[k]]
  {
    if |s| == 0 then [] else [m[s[0]]] + Encode(m, s[1..])
  }

  /** `[pitchnames[c] for c in codes]`: the way codes are turned back into notes. */
  function Decode(p: seq<string>, codes: seq<nat>): (r: seq<string>)
    requires forall k :: 0 <= k < |codes| ==> codes[k] < |p|
    ensures |r| == |codes|
    ensures forall k :: 0 <= k < |codes| ==> r[k] == p[codes[k]]
  {
    if |codes| == 0 then [] else [p[codes[0]]] + Decode(p, codes[1..])
  }

  /** Decoding inverts any coding that `p` reads back position by position. */
  lemma DecodeInverts(p: seq<string>, codes: seq<nat>, s: seq<string>)
    requires |codes| == |s|
    requires forall k :: 0 <= k < |codes| ==> codes[k] < |p| && p[codes[k]] == s[k]
    ensures Decode(p, codes) == s
  {
  }

  /** Encoding through a map that `p` inverts yields codes below `|p|` that `p` reads back. */
  lemma EncodeInverted(p: seq<string>, m: map<string, nat>, s: seq<string>)
    requires forall x :: x in Elems(p) ==> x in m && m[x] < |p| && p[m[x]] == x
    requires forall k :: 0 <= k < |s| ==> s[k] in Elems(p)
    ensures Encodable(m, s)
    ensures forall k :: 0 <= k < |s| ==> Encode(m, s)[k] < |p| && p[Encode(m, s)[k]] == s[k]
  {
  }

  /**
    Decoding an encoded window through the vocabulary it was encoded with gives
    the window back, and every code lies in `[0, n_vocab)`.
   */
  lemma DecodeEncode(p: seq<string>, s: seq<string>)
    requires forall k :: 0 <= k < |s| ==> s[k] in Elems(p)
    ensures Encodable(NoteToInt(p), s)
    ensures forall k :: 0 <= k < |s| ==> Encode(NoteToInt(p), s)[k] < |p|
    ensures Decode(p, Encode(NoteToInt(p), s)) == s
  {
    var m := NoteToInt(p);
    EncodeInverted(p, m, s);
    DecodeInverts(p, Encode(m, s), s);
  }

  /** `len(notes) - sequence_length` patterns, or none when the list is too short. */
  function PatternCount(n: nat, len: nat): nat
  {
    if n > len then n - len else 0
  }

  /**
    The loop that fills `network_input` and `network_output`: pattern `i` is the
    encoding of `notes[i .. i + len)` and its target the encoding of the note
    right after it.
   */
  method BuildPatterns(notes: seq<string>, len: nat, m: map<string, nat>)
    returns (inputs: seq<seq<nat>>, targets: seq<nat>)
    requires Encodable(m, notes)
    ensures |inputs| == |targets| == PatternCount(|notes|, len)
    ensures forall i :: 0 <= i < |inputs| ==>
              i + len < |notes| && |inputs[i]| == len && inputs[i] == Encode(m, notes[i..i + len])
    ensures forall i :: 0 <= i < |targets| ==> i + len < |notes| && targets[i] == m[notes[i + len]]
  {
    inputs, targets := [], [];
    var i := 0;
    while i < PatternCount(|notes|, len)
      invariant 0 <= i <= PatternCount(|notes|, len)
      invariant |inputs| == |targets| == i
      invariant forall k :: 0 <= k < i ==> |inputs[k]| == len && inputs[k] == Encode(m, notes[k..k + len])
      invariant forall k :: 0 <= k < i ==> targets[k] == m[notes[k + len]]
    {
      var seqIn := notes[i..i + len];
      var seqOut := notes[i + len];
      var code := Encode(m, seqIn);
      inputs := inputs + [code];
      targets := targets + [m[seqOut]];
      i := i + 1;
    }
  }

  /**
    The patterns of `notes`, encoded through a map that `p` inverts, hold
    codes below `|p|` and decode back to the windows and the notes after them.
   */
  lemma PatternsDecode(notes: seq<string>, len: nat, p: seq<string>, m: map<string, nat>,
                       inputs: seq<seq<nat>>, targets: seq<nat>)
    requires Elems(p) == Elems(notes)
    requires forall x :: x in Elems(p) ==> x in m && m[x] < |p| && p[m[x]] == x
    requires |inputs| == |targets|
    requires forall i :: 0 <= i < |inputs| ==>
               i + len < |notes| && |inputs[i]| == len && inputs[i] == Encode(m, notes[i..i + len])
    requires forall i :: 0 <= i < |targets| ==> i + len < |notes| && targets[i] == m[notes[i + len]]
    ensures forall i, k :: 0 <= i < |inputs| && 0 <= k < |inputs[i]| ==> inputs[i][k] < |p|
    ensures forall i :: 0 <= i < |inputs| ==> Decode(p, inputs[i]) == notes[i..i + len]
    ensures forall i :: 0 <= i < |targets| ==> targets[i] < |p| && p[targets[i]] == notes[i + len]
  {
    InElems(notes);
    forall i | 0 <= i < |inputs|
      ensures forall k :: 0 <= k < |inputs[i]| ==> inputs[i][k] < |p|
      ensures Decode(p, inputs[i]) == notes[i..i + len]
    {
      assert |inputs[i]| == len && i + len < |notes|;
      var w := notes[i..i + len];
      assert forall k :: 0 <= k < |w| ==> w[k] == notes[i + k];
      EncodeInverted(p, m, w);
      DecodeInverts(p, inputs[i], w);
    }
  }

  /**
    Steps 1-2 of the script: the vocabulary, its size, and the encoded
    patterns. Every input and target code lies in `[0, n_vocab)`, and the
    patterns decode back to the windows they were cut from.
   */
  method PrepareData(notes: seq<string>, len: nat)
    returns (pitchnames: seq<string>, nVocab: nat, inputs: seq<seq<nat>>, targets: seq<nat>)
    ensures StrictlySorted(pitchnames) && Elems(pitchnames) == Elems(notes)
    ensures nVocab == |pitchnames| == |Elems(notes)|
    ensures |inputs| == |targets| == PatternCount(|notes|, len)
    ensures forall i :: 0 <= i < |inputs| ==> |inputs[i]| == len
    ensures forall i, k :: 0 <= i < |inputs| && 0 <= k < |inputs[i]| ==> inputs[i][k] < nVocab
    ensures forall i :: 0 <= i < |targets| ==> targets[i] < nVocab
    ensures forall i :: 0 <= i < |inputs| ==>
              Decode(pitchnames, inputs[i]) == notes[i..i + len]
    ensures forall i :: 0 <= i < |targets| ==> pitchnames[targets[i]] == notes[i + len]
  {
    pitchnames := Pitchnames(notes);
    VocabSize(notes);
    nVocab := |pitchnames|;
    var m := NoteToInt(pitchnames);
    InElems(notes);
    inputs, targets := BuildPatterns(notes, len, m);
    PatternsDecode(notes, len, pitchnames, m, inputs, targets);
  }
}
