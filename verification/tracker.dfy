/**
  `SimpleSortTracker`: the whole state is the next id to hand out and the map
  from id to box of the current frame. An update forgets every previous track
  and gives each incoming detection, in order, the next fresh id. There is no
  matching between frames: an object seen in two frames gets two ids.
 */
module Tracker {
  import opened Geometry
  import opened Detector

  /** One element of the returned `list(self.trackers.items())`: an id and its box. */
  datatype Track = Track(id: nat, box: Box)

  /** `self.next_id` and `self.trackers`. */
  datatype State = State(nextId: nat, tracks: map<nat, Box>)

  /** `__init__`: no tracks, ids start at 0. */
  const Initial: State := State(0, map[])

  /** Every stored id has already been handed out. */
  predicate Valid(s: State)
  {
    forall id :: id in s.tracks ==> id < s.nextId
  }

  /** The body of the update loop: the k-th detection gets id `next + k` and its box `det[:4]`. */
  function Assign(next: nat, dets: seq<Detection>): (ts: seq<Track>)
    ensures |ts| == |dets|
    ensures forall k :: 0 <= k < |dets| ==> ts[k].id == next + k && ts[k].box == dets[k].box
    decreases |dets|
  {
    if |dets| == 0 then [] else [Track(next, dets[0].box)] + Assign(next + 1, dets[1..])
  }

  /** The ids of a list of tracks. */
  function Ids(ts: seq<Track>): set<nat>
  {
    set k | 0 <= k < |ts| :: ts[k].id
  }

  /** `newtrackers[id] = box` for each track in turn: the keys are the ids of the tracks. */
  function ToMap(ts: seq<Track>): (m: map<nat, Box>)
    ensures m.Keys == Ids(ts)
  {
    if |ts| == 0 then map[]
    else
      var init := ts[..|ts| - 1];
      var last := ts[|ts| - 1];
      assert forall k :: 0 <= k < |init| ==> init[k] == ts[k];
      assert Ids(ts) == Ids(init) + {last.id};
      ToMap(init)[last.id := last.box]
  }

  /** A later assignment to the same id overwrites an earlier one: an id holds its last box. */
  lemma {:induction false} ToMapLastWins(ts: seq<Track>, k: nat)
    requires k < |ts|
    requires forall j :: k < j < |ts| ==> ts[j].id != ts[k].id
    ensures ts[k].id in ToMap(ts) && ToMap(ts)[ts[k].id] == ts[k].box
    decreases |ts|
  {
    var init := ts[..|ts| - 1];
    if k < |ts| - 1 {
      assert init[k] == ts[k];
      ToMapLastWins(init, k);
    }
  }

  /** The result of one `update`: the new state and the list it returns. */
  datatype Step = Step(state: State, tracked: seq<Track>)

  /**
    `update(detections)`: one track per detection, with consecutive ids from
    the old `next_id` in detection order, each holding only the detection's
    box; `next_id` advances by the number of detections. `UpdateStoresTracks`
    states what the stored map holds.
   */
  function Update(s: State, dets: seq<Detection>): (r: Step)
    ensures |r.tracked| == |dets|
    ensures forall k :: 0 <= k < |dets| ==>
              r.tracked[k].id == s.nextId + k && r.tracked[k].box == dets[k].box
    ensures r.state.nextId == s.nextId + |dets|
  {
    var tracked := Assign(s.nextId, dets);
    Step(State(s.nextId + |dets|, ToMap(tracked)), tracked)
  }

  /**
    Storing tracks numbered consecutively from `next` keys the map by exactly
    those ids, each holding its own track's box.
   */
  lemma ConsecutiveMap(ts: seq<Track>, next: nat)
    requires forall k :: 0 <= k < |ts| ==> ts[k].id == next + k
    ensures forall id :: id in ToMap(ts) <==> next <= id < next + |ts|
    ensures forall k :: 0 <= k < |ts| ==> ToMap(ts)[next + k] == ts[k].box
  {
    forall id | next <= id < next + |ts|
      ensures id in Ids(ts)
    {
      assert ts[id - next].id == id;
    }
    forall k | 0 <= k < |ts|
      ensures ToMap(ts)[next + k] == ts[k].box
    {
      ToMapLastWins(ts, k);
    }
  }

  /**
    The map kept after an update holds exactly the new tracks: the ids
    `[old next_id, new next_id)`, each with its detection's box.
   */
  lemma UpdateStoresTracks(s: State, dets: seq<Detection>)
    ensures forall id :: id in Update(s, dets).state.tracks <==> s.nextId <= id < s.nextId + |dets|
    ensures forall k :: 0 <= k < |dets| ==> Update(s, dets).state.tracks[s.nextId + k] == dets[k].box
  {
    var ts := Assign(s.nextId, dets);
    ConsecutiveMap(ts, s.nextId);
    assert Update(s, dets).state.tracks == ToMap(ts);
  }

  /** The new map depends only on the detections and the old `next_id`: previous tracks are discarded. */
  lemma UpdateForgetsTracks(s1: State, s2: State, dets: seq<Detection>)
    requires s1.nextId == s2.nextId
    ensures Update(s1, dets) == Update(s2, dets)
  {
  }

  /** No detections: nothing is returned, nothing is kept, and `next_id` stays put. */
  lemma UpdateEmpty(s: State)
    ensures Update(s, []).tracked == []
    ensures Update(s, []).state == State(s.nextId, map[])
  {
    assert Update(s, []).state.tracks == map[];
  }

  /** The state after an update only holds ids that have been handed out. */
  lemma UpdateValid(s: State, dets: seq<Detection>)
    ensures Valid(Update(s, dets).state)
  {
    UpdateStoresTracks(s, dets);
  }

  /** Every id returned by an update is one this tracker never handed out before. */
  lemma UpdateIdsFresh(s: State, dets: seq<Detection>)
    requires Valid(s)
    ensures forall k :: 0 <= k < |dets| ==> Update(s, dets).tracked[k].id !in s.tracks
    ensures forall k :: 0 <= k < |dets| ==> Update(s, dets).tracked[k].id >= s.nextId
  {
  }

  /** The concatenation of per-frame outputs, in frame order. */
  function Flatten(outs: seq<seq<Track>>): seq<Track>
  {
    if |outs| == 0 then [] else outs[0] + Flatten(outs[1..])
  }

  function TotalCount(frames: seq<seq<Detection>>): nat
  {
    if |frames| == 0 then 0 else |frames[0]| + TotalCount(frames[1..])
  }

  /** The final state and the per-frame outputs of one `update` per frame. */
  datatype RunResult = RunResult(state: State, outputs: seq<seq<Track>>)

  /** The main loop's calls to `tracker.update`, one per frame in order. */
  function Run(s: State, frames: seq<seq<Detection>>): (r: RunResult)
    ensures |r.outputs| == |frames|
    ensures r.state.nextId == s.nextId + TotalCount(frames)
    ensures forall f :: 0 <= f < |frames| ==> |r.outputs[f]| == |frames[f]|
    decreases |frames|
  {
    if |frames| == 0 then RunResult(s, [])
    else
      var step := Update(s, frames[0]);
      var rest := Run(step.state, frames[1..]);
      assert forall f :: 1 <= f < |frames| ==> frames[f] == frames[1..][f - 1];
      RunResult(rest.state, [step.tracked] + rest.outputs)
  }

  /**
    Across any number of frames the ids form one consecutive run: the k-th
    track returned since state `s` has id `s.nextId + k`. So no id is ever
    issued twice, and `next_id` is exactly the number of detections seen.
   */
  lemma {:induction false} RunIdsConsecutive(s: State, frames: seq<seq<Detection>>)
    ensures |Flatten(Run(s, frames).outputs)| == TotalCount(frames)
    ensures forall k :: 0 <= k < |Flatten(Run(s, frames).outputs)| ==>
              Flatten(Run(s, frames).outputs)[k].id == s.nextId + k
    decreases |frames|
  {
    if |frames| > 0 {
      var step := Update(s, frames[0]);
      var rest := Run(step.state, frames[1..]);
      RunIdsConsecutive(step.state, frames[1..]);
      var outs := Run(s, frames).outputs;
      assert outs == [step.tracked] + rest.outputs;
      assert outs[1..] == rest.outputs;
      assert Flatten(outs) == step.tracked + Flatten(rest.outputs);
    }
  }

  /** Two tracks returned at different points of a run never share an id. */
  lemma RunIdsUnique(s: State, frames: seq<seq<Detection>>)
    ensures forall a, b :: 0 <= a < b < |Flatten(Run(s, frames).outputs)| ==>
              Flatten(Run(s, frames).outputs)[a].id < Flatten(Run(s, frames).outputs)[b].id
  {
    RunIdsConsecutive(s, frames);
  }

  lemma RunHead(s: State, frames: seq<seq<Detection>>)
    requires |frames| > 0
    ensures Run(s, frames).outputs[0] == Update(s, frames[0]).tracked
    ensures Run(s, frames).outputs[1..] == Run(Update(s, frames[0]).state, frames[1..]).outputs
  {
  }

  lemma TotalCountPrefix(frames: seq<seq<Detection>>, g: nat)
    requires g < |frames|
    ensures TotalCount(frames[..g + 1]) == |frames[0]| + TotalCount(frames[1..][..g])
  {
    assert frames[..g + 1][1..] == frames[1..][..g];
  }

  /**
    Frame `f` of a run is numbered right after every detection of the frames
    before it: its k-th track has id `s.nextId + TotalCount(frames[..f]) + k`.
   */
  lemma {:induction false} RunFrame(s: State, frames: seq<seq<Detection>>, f: nat)
    requires f < |frames|
    ensures |Run(s, frames).outputs[f]| == |frames[f]|
    ensures forall k :: 0 <= k < |frames[f]| ==>
              Run(s, frames).outputs[f][k] == Track(s.nextId + TotalCount(frames[..f]) + k, frames[f][k].box)
    decreases f
  {
    RunHead(s, frames);
    if f == 0 {
      assert frames[..0] == [];
    } else {
      var s' := Update(s, frames[0]).state;
      var rest := frames[1..];
      var g: nat := f - 1;
      RunFrame(s', rest, g);
      TotalCountPrefix(frames, g);
      assert frames[..g + 1] == frames[..f];
      assert rest[g] == frames[f];
      assert Run(s, frames).outputs[f] == Run(s', rest).outputs[g];
    }
  }

  predicate AllMock(frames: seq<seq<Detection>>)
  {
    forall i :: 0 <= i < |frames| ==> frames[i] == MockDetections
  }

  /** Without the YOLO files every frame the script feeds the tracker is the mock list. */
  lemma MockInputIsAllMock(frames: seq<seq<Detection>>, cands: seq<seq<Candidate>>, keeps: seq<seq<nat>>)
    requires |cands| == |frames| && |keeps| == |frames|
    requires forall i :: 0 <= i < |frames| ==> frames[i] == FrameInput(false, cands[i], keeps[i])
    ensures AllMock(frames)
  {
  }

  lemma {:induction false} MockCount(frames: seq<seq<Detection>>)
    requires AllMock(frames)
    ensures TotalCount(frames) == 2 * |frames|
    decreases |frames|
  {
    if |frames| > 0 {
      assert AllMock(frames[1..]) by {
        forall i | 0 <= i < |frames[1..]|
          ensures frames[1..][i] == MockDetections
        {
          assert frames[1..][i] == frames[i + 1];
        }
      }
      MockCount(frames[1..]);
    }
  }

  lemma MockPrefixCount(frames: seq<seq<Detection>>, f: nat)
    requires AllMock(frames)
    requires f < |frames|
    ensures TotalCount(frames[..f]) == 2 * f
  {
    var prefix := frames[..f];
    assert AllMock(prefix) by {
      forall i | 0 <= i < |prefix|
        ensures prefix[i] == MockDetections
      {
        assert prefix[i] == frames[i];
      }
    }
    MockCount(prefix);
  }

  /**
    The demo without YOLO files: frame f (from 0) of the mock input is
    returned as ids 2f and 2f+1 with the two mock boxes, so the same two
    objects get new ids in every frame.
   */
  lemma MockRun(frames: seq<seq<Detection>>, f: nat)
    requires AllMock(frames)
    requires f < |frames|
    ensures |Run(Initial, frames).outputs[f]| == 2
    ensures Run(Initial, frames).outputs[f][0] == Track(2 * f, Box(100, 100, 200, 200))
    ensures Run(Initial, frames).outputs[f][1] == Track(2 * f + 1, Box(300, 150, 400, 300))
  {
    RunFrame(Initial, frames, f);
    MockPrefixCount(frames, f);
    var out := Run(Initial, frames).outputs[f];
    assert frames[f] == MockDetections;
    assert |out| == 2;
    assert out[0] == Track(2 * f, MockDetections[0].box);
    assert out[1] == Track(2 * f + 1, MockDetections[1].box);
    assert MockDetections[0].box == Box(100, 100, 200, 200);
    assert MockDetections[1].box == Box(300, 150, 400, 300);
  }
}
