/** Picking the items at marked positions of a list, in order. */
module Selections {

  /** Exactly the marked positions, one after another. */
  ghost predicate Covers(positions: seq<int>, marks: seq<bool>) {
    && (forall k :: 0 <= k < |positions| ==> 0 <= positions[k] < |marks|)
    && (forall k, l :: 0 <= k < l < |positions| ==> positions[k] < positions[l])
    && forall i :: 0 <= i < |marks| ==> (marks[i] <==> i in positions)
  }

  ghost predicate PicksAt<T>(items: seq<T>, marks: seq<bool>, picked: seq<T>, positions: seq<int>) {
    && |items| == |marks| && |picked| == |positions| && Covers(positions, marks)
    && forall k :: 0 <= k < |picked| ==> picked[k] == items[positions[k]]
  }

  /** The picked items are those at the marked positions, each once and in the order of the list. */
  ghost predicate Picks<T>(items: seq<T>, marks: seq<bool>, picked: seq<T>) {
    exists positions: seq<int> :: PicksAt(items, marks, picked, positions)
  }

  lemma PicksNone<T>()
    ensures Picks<T>([], [], [])
  {
    assert PicksAt<T>([], [], [], []);
  }

  lemma CoversLast(positions: seq<int>, marks: seq<bool>, mark: bool)
    requires Covers(positions, marks)
    ensures Covers(if mark then positions + [|marks|] else positions, marks + [mark])
  {
    var more: seq<int>, all := if mark then positions + [|marks|] else positions, marks + [mark];
    forall i | 0 <= i < |all|
      ensures all[i] <==> i in more
    {
      assert i < |marks| ==> (marks[i] <==> i in positions);
    }
  }

  lemma PicksLast<T>(items: seq<T>, marks: seq<bool>, picked: seq<T>, item: T, mark: bool)
    requires Picks(items, marks, picked)
    ensures Picks(items + [item], marks + [mark], if mark then picked + [item] else picked)
  {
    var positions: seq<int> :| PicksAt(items, marks, picked, positions);
    CoversLast(positions, marks, mark);
    if mark {
      assert PicksAt(items + [item], marks + [mark], picked + [item], positions + [|marks|]);
    } else {
      assert PicksAt(items + [item], marks + [mark], picked, positions);
    }
  }

  function Shifted(positions: seq<int>): (r: seq<int>)
    ensures |r| == |positions| && forall k :: 0 <= k < |r| ==> r[k] == positions[k] + 1
  {
    seq(|positions|, k requires 0 <= k < |positions| => positions[k] + 1)
  }

  lemma InShifted(positions: seq<int>, i: int)
    ensures i in Shifted(positions) <==> i - 1 in positions
  {
    if i - 1 in positions {
      var k :| 0 <= k < |positions| && positions[k] == i - 1;
      assert Shifted(positions)[k] == i;
    }
  }

  lemma CoversFirst(positions: seq<int>, marks: seq<bool>, mark: bool)
    requires Covers(positions, marks)
    ensures Covers((if mark then [0] else []) + Shifted(positions), [mark] + marks)
  {
    var more: seq<int>, all := (if mark then [0] else []) + Shifted(positions), [mark] + marks;
    forall i | 0 <= i < |all|
      ensures all[i] <==> i in more
    {
      InShifted(positions, i);
      assert i > 0 ==> (marks[i - 1] <==> i - 1 in positions);
    }
  }

  lemma PicksFirst<T>(items: seq<T>, marks: seq<bool>, picked: seq<T>, item: T, mark: bool)
    requires Picks(items, marks, picked)
    ensures Picks([item] + items, [mark] + marks, if mark then [item] + picked else picked)
  {
    var positions: seq<int> :| PicksAt(items, marks, picked, positions);
    CoversFirst(positions, marks, mark);
    var more := (if mark then [0] else []) + Shifted(positions);
    var now := if mark then [item] + picked else picked;
    forall k | 0 <= k < |now|
      ensures now[k] == ([item] + items)[more[k]]
    {
      var l := if mark then k - 1 else k;
      if l >= 0 { assert 0 <= positions[l] < |items| && more[k] == positions[l] + 1; }
    }
    assert PicksAt([item] + items, [mark] + marks, now, more);
  }

  lemma PicksFront<T>(items: seq<T>, marks: seq<bool>, picked: seq<T>)
    requires items != [] && Picks(items, marks, picked)
    ensures marks != []
    ensures
      var n, m := |items| - 1, |picked| - 1;
      if marks[n] then picked != [] && picked[m] == items[n] && Picks(items[..n], marks[..n], picked[..m])
      else Picks(items[..n], marks[..n], picked)
  {
    var positions: seq<int> :| PicksAt(items, marks, picked, positions);
    var n, m := |items| - 1, |picked| - 1;
    if marks[n] {
      assert n in positions;
      assert positions[m] == n;
      var front := positions[..m];
      forall i | 0 <= i < n
        ensures marks[i] <==> i in front
      {
        if i in positions {
          var k :| 0 <= k < |positions| && positions[k] == i;
          assert front[k] == i;
        }
      }
      assert PicksAt(items[..n], marks[..n], picked[..m], front);
    } else {
      assert PicksAt(items[..n], marks[..n], picked, positions);
    }
  }

  /** Items and marks determine what is picked. */
  lemma {:induction false} PicksOnce<T>(items: seq<T>, marks: seq<bool>, p: seq<T>, q: seq<T>)
    requires Picks(items, marks, p) && Picks(items, marks, q)
    ensures p == q
  {
    if items == [] {
      assert p == [] && q == [];
    } else {
      var n := |items| - 1;
      PicksFront(items, marks, p);
      PicksFront(items, marks, q);
      if marks[n] {
        PicksOnce(items[..n], marks[..n], p[..|p| - 1], q[..|q| - 1]);
        assert p == p[..|p| - 1] + [items[n]] && q == q[..|q| - 1] + [items[n]];
      } else {
        PicksOnce(items[..n], marks[..n], p, q);
      }
    }
  }
}
