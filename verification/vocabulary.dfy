/**
  The note vocabulary of the music generator: `pitchnames`, the sorted list of
  distinct note names, and `note_to_int`, the map from a name to its position.
 */
module Vocabulary {
  import opened StringOrder

  /** The set of names occurring in a sequence (Python's `set(notes)`). */
  function Elems(s: seq<string>): set<string>
  {
    set x | x in s
  }

  lemma InElems(s: seq<string>)
    ensures forall k :: 0 <= k < |s| ==> s[k] in Elems(s)
  {
  }

  predicate StrictlySorted(s: seq<string>)
  {
    forall i, j :: 0 <= i < j < |s| ==> Less(s[i], s[j])
  }

  predicate Distinct<T(==)>(s: seq<T>)
  {
    forall i, j :: 0 <= i < j < |s| ==> s[i] != s[j]
  }

  lemma StrictlySortedIsDistinct(s: seq<string>)
    requires StrictlySorted(s)
    ensures Distinct(s)
  {
    forall i, j | 0 <= i < j < |s|
      ensures s[i] != s[j]
    {
      LessIrreflexive(s[i]);
    }
  }

  /** Adds `x` to a strictly sorted list at its sorted position, unless it is already there. */
  function Insert(x: string, s: seq<string>): (r: seq<string>)
    requires StrictlySorted(s)
    ensures StrictlySorted(r)
    ensures Elems(r) == Elems(s) + {x}
  {
    if |s| == 0 then [x]
    else if x == s[0] then s
    else if Less(x, s[0]) then
      assert StrictlySorted([x] + s) by {
        forall j | 0 < j < |s| {
          LessTransitive(x, s[0], s[j]);
        }
      }
      [x] + s
    else
      LessTotal(x, s[0]);
      var rest := Insert(x, s[1..]);
      assert Elems(s) == {s[0]} + Elems(s[1..]) by {
        assert s == [s[0]] + s[1..];
      }
      assert forall y :: y in rest ==> Less(s[0], y) by {
        forall y | y in rest
          ensures Less(s[0], y)
        {
          if y != x {
            assert y in Elems(rest);
            assert y in Elems(s[1..]);
            var j :| 0 <= j < |s[1..]| && s[1..][j] == y;
            assert s[j + 1] == y;
          }
        }
      }
      assert Elems([s[0]] + rest) == {s[0]} + Elems(rest);
      [s[0]] + rest
  }

  /** `sorted(set(notes))`: the vocabulary, built by inserting every note in turn. */
  function Pitchnames(notes: seq<string>): (p: seq<string>)
    ensures StrictlySorted(p)
    ensures Elems(p) == Elems(notes)
  {
    if |notes| == 0 then []
    else
      var init := notes[..|notes| - 1];
      assert notes == init + [notes[|notes| - 1]];
      assert Elems(notes) == Elems(init) + {notes[|notes| - 1]};
      Insert(notes[|notes| - 1], Pitchnames(init))
  }

  /**
    A strictly sorted list is determined by its elements: there is exactly one
    sorted enumeration of a set of names.
   */
  lemma {:induction false} SortedUnique(a: seq<string>, b: seq<string>)
    requires StrictlySorted(a) && StrictlySorted(b)
    requires Elems(a) == Elems(b)
    ensures a == b
  {
    assert forall k :: 0 <= k < |a| ==> a[k] in Elems(a);
    assert forall k :: 0 <= k < |b| ==> b[k] in Elems(b);
    if |a| == 0 {
    } else {
      assert a[0] in Elems(b);
      assert b[0] in Elems(a);
      assert |b| > 0;
      if a[0] != b[0] {
        var i :| 0 <= i < |a| && a[i] == b[0];
        var j :| 0 <= j < |b| && b[j] == a[0];
        assert Less(a[0], b[0]);
        assert Less(b[0], a[0]);
        LessAsymmetric(a[0], b[0]);
        assert false;
      }
      forall x | x in Elems(a[1..])
        ensures x in Elems(b[1..])
      {
        var i :| 0 <= i < |a[1..]| && a[1..][i] == x;
        assert Less(a[0], x);
        LessIrreflexive(x);
        assert x in Elems(b);
        var j :| 0 <= j < |b| && b[j] == x;
        assert j != 0;
        assert b[1..][j - 1] == x;
      }
      forall x | x in Elems(b[1..])
        ensures x in Elems(a[1..])
      {
        var j :| 0 <= j < |b[1..]| && b[1..][j] == x;
        assert Less(b[0], x);
        LessIrreflexive(x);
        assert x in Elems(a);
        var i :| 0 <= i < |a| && a[i] == x;
        assert i != 0;
        assert a[1..][i - 1] == x;
      }
      SortedUnique(a[1..], b[1..]);
      assert a == [a[0]] + a[1..] && b == [b[0]] + b[1..];
    }
  }

  /**
    `Pitchnames` is the unique strictly sorted list whose elements are exactly
    the distinct notes: any other such list equals it.
   */
  lemma PitchnamesIsSortedSet(notes: seq<string>, p: seq<string>)
    requires StrictlySorted(p) && Elems(p) == Elems(notes)
    ensures Pitchnames(notes) == p
  {
    SortedUnique(Pitchnames(notes), p);
  }

  lemma {:induction false} DistinctCardinality<T>(s: seq<T>)
    requires Distinct(s)
    ensures |set x | x in s| == |s|
  {
    if |s| > 0 {
      var init := s[..|s| - 1];
      var last := s[|s| - 1];
      assert Distinct(init);
      DistinctCardinality(init);
      assert (set x | x in s) == (set x | x in init) + {last} by {
        assert s == init + [last];
      }
      assert last !in (set x | x in init);
    }
  }

  /** `n_vocab = len(pitchnames)` is the number of distinct notes. */
  lemma VocabSize(notes: seq<string>)
    ensures |Pitchnames(notes)| == |Elems(notes)|
  {
    var p := Pitchnames(notes);
    StrictlySortedIsDistinct(p);
    DistinctCardinality(p);
  }

  /**
    `dict((name, number) for number, name in enumerate(p))`: each name maps to
    a position of `p` holding it (later entries overwrite earlier ones), and,
    when the names are distinct, to its own position.
   */
  function NoteToInt(p: seq<string>): (m: map<string, nat>)
    ensures m.Keys == Elems(p)
    ensures forall x :: x in m ==> m[x] < |p| && p[m[x]] == x
    ensures Distinct(p) ==> forall i :: 0 <= i < |p| ==> m[p[i]] == i
  {
    if |p| == 0 then map[]
    else
      var init := p[..|p| - 1];
      assert p == init + [p[|p| - 1]];
      NoteToInt(init)[p[|p| - 1] := |p| - 1]
  }

  /**
    On the vocabulary of a note list (any strictly sorted list of its distinct
    notes, which by `PitchnamesIsSortedSet` is `Pitchnames(notes)`),
    `note_to_int` is a bijection between the distinct notes and `[0, n_vocab)`,
    and `pitchnames` is its inverse.
   */
  lemma NoteToIntBijection(notes: seq<string>, p: seq<string>, m: map<string, nat>)
    requires StrictlySorted(p) && Elems(p) == Elems(notes) && m == NoteToInt(p)
    ensures m.Keys == Elems(notes)
    ensures forall x :: x in m ==> m[x] < |p| && p[m[x]] == x
    ensures forall i :: 0 <= i < |p| ==> p[i] in m && m[p[i]] == i
    ensures forall x, y :: x in m && y in m && m[x] == m[y] ==> x == y
  {
    StrictlySortedIsDistinct(p);
    InElems(p);
    forall x, y | x in m && y in m && m[x] == m[y]
      ensures x == y
    {
      assert p[m[x]] == x;
    }
  }
}
