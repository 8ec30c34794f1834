/** The list edits behind the settings sheet's tables, as functions on sequences: deleting a
    set of rows, and moving a set of rows to a drop row (`genericDelItem`,
    `genericDropSelfCallback`). */
module ListEdit {

  predicate StrictlyIncreasing(s: seq<int>)
  {
    forall i, j :: 0 <= i < j < |s| ==> s[i] < s[j]
  }

  predicate Distinct(s: seq<int>)
  {
    forall i, j :: 0 <= i < j < |s| ==> s[i] != s[j]
  }

  predicate InRange(s: seq<int>, n: int)
  {
    forall i :: 0 <= i < |s| ==> 0 <= s[i] < n
  }

  // ---------------------------------------------------------------------------------------
  // sorted(indexes)

  function InsertSorted(x: int, s: seq<int>): (r: seq<int>)
    requires StrictlyIncreasing(s) && x !in s
    ensures StrictlyIncreasing(r)
    ensures multiset(r) == multiset(s) + multiset{x}
  {
    if s == [] then [x]
    else if x < s[0] then
      ConsIncreasing(x, s);
      [x] + s
    else
      assert s == [s[0]] + s[1..];
      var tail := InsertSorted(x, s[1..]);
      HeadBelowInserted(s[0], x, s[1..], tail);
      ConsIncreasing(s[0], tail);
      [s[0]] + tail
  }

  /** Inserting into the tail only adds elements above the head. */
  lemma HeadBelowInserted(h: int, x: int, t: seq<int>, tail: seq<int>)
    requires h < x && forall k :: 0 <= k < |t| ==> h < t[k]
    requires multiset(tail) == multiset(t) + multiset{x}
    ensures tail != [] && h < tail[0]
  {
    assert x in multiset(tail);
    assert tail[0] in multiset(tail);
    if tail[0] != x {
      assert tail[0] in t;
    }
  }

  /** A head below the first element of an increasing sequence keeps it increasing. */
  lemma ConsIncreasing(h: int, t: seq<int>)
    requires StrictlyIncreasing(t) && (t == [] || h < t[0])
    ensures StrictlyIncreasing([h] + t)
  {
    var r := [h] + t;
    forall i, j | 0 <= i < j < |r|
      ensures r[i] < r[j]
    {
      if i == 0 && j > 1 {
        assert r[j] == t[j - 1] && t[0] <= t[j - 1];
      }
    }
  }

  /** `sorted(indexes)` for distinct indexes: the same indexes, strictly ascending. */
  function Sort(s: seq<int>): (r: seq<int>)
    requires Distinct(s)
    ensures StrictlyIncreasing(r)
    ensures multiset(r) == multiset(s)
  {
    if s == [] then []
    else
      DistinctTail(s);
      var tail := Sort(s[1..]);
      assert s == [s[0]] + s[1..];
      assert s[0] !in multiset(tail);
      InsertSorted(s[0], tail)
  }

  /** Dropping the head keeps distinct indexes distinct, and the head is not among the rest. */
  lemma DistinctTail(s: seq<int>)
    requires Distinct(s) && s != []
    ensures Distinct(s[1..])
    ensures s[0] !in s[1..]
  {
    forall i, j | 0 <= i < j < |s| - 1
      ensures s[1..][i] != s[1..][j]
    {
      assert s[1..][i] == s[i + 1] && s[1..][j] == s[j + 1];
    }
    assert forall k :: 0 <= k < |s| - 1 ==> s[1..][k] == s[k + 1];
  }

  // ---------------------------------------------------------------------------------------
  // Removing and picking rows

  /** The row numbers listed in `idx`. */
  function Indexes(idx: seq<int>): set<int>
  {
    set k | k in idx
  }

  /** `del s[i]`. */
  function Delete<T>(s: seq<T>, i: int): (r: seq<T>)
    requires 0 <= i < |s|
  {
    s[..i] + s[i + 1..]
  }

  /** The rows of `s` whose index is not in `removed`, in their order. */
  function RemoveIdx<T>(s: seq<T>, removed: set<int>): (r: seq<T>)
    ensures |r| <= |s|
  {
    if s == [] then []
    else RemoveIdx(s[..|s| - 1], removed) + (if |s| - 1 in removed then [] else [s[|s| - 1]])
  }

  /** `[items[index] for index in indexes]`. */
  function Picked<T>(s: seq<T>, idx: seq<int>): (r: seq<T>)
    requires InRange(idx, |s|)
    ensures |r| == |idx|
  {
    seq(|idx|, j requires 0 <= j < |idx| => s[idx[j]])
  }

  /** `len([index for index in indexes if index < rowIndex])`. */
  function CountBelow(idx: seq<int>, row: int): (c: nat)
    ensures c <= |idx|
  {
    if idx == [] then 0 else (if idx[0] < row then 1 else 0) + CountBelow(idx[1..], row)
  }

  lemma {:induction false} RemoveIdxNothingInRange<T>(s: seq<T>, removed: set<int>)
    requires forall k :: k in removed ==> k >= |s|
    ensures RemoveIdx(s, removed) == s
  {
    if s != [] {
      RemoveIdxNothingInRange(s[..|s| - 1], removed);
      assert s[..|s| - 1] + [s[|s| - 1]] == s;
    }
  }

  /** Rows below every removed index stay where they are. */
  lemma {:induction false} RemoveIdxPrefix<T>(s: seq<T>, removed: set<int>, i: int)
    requires 0 <= i < |s|
    requires forall k :: k in removed ==> k > i
    ensures i < |RemoveIdx(s, removed)|
    ensures RemoveIdx(s, removed)[..i + 1] == s[..i + 1]
  {
    var init := s[..|s| - 1];
    if |s| - 1 == i {
      RemoveIdxNothingInRange(init, removed);
      assert RemoveIdx(s, removed) == init + [s[i]] == s;
    } else {
      RemoveIdxPrefix(init, removed, i);
      var r0 := RemoveIdx(init, removed);
      assert RemoveIdx(s, removed)[..i + 1] == r0[..i + 1];
      assert init[..i + 1] == s[..i + 1];
    }
  }

  /** Removing one more index, below all the others, is one `del`. */
  lemma {:induction false} RemoveIdxLowest<T>(s: seq<T>, removed: set<int>, i: int)
    requires 0 <= i < |s|
    requires forall k :: k in removed ==> k > i
    ensures i < |RemoveIdx(s, removed)|
    ensures RemoveIdx(s, removed + {i}) == Delete(RemoveIdx(s, removed), i)
  {
    RemoveIdxPrefix(s, removed, i);
    var init := s[..|s| - 1];
    if |s| - 1 == i {
      RemoveIdxNothingInRange(init, removed);
      RemoveIdxNothingInRange(init, removed + {i});
      assert RemoveIdx(s, removed) == init + [s[i]];
      assert Delete(init + [s[i]], i) == init;
    } else {
      RemoveIdxLowest(init, removed, i);
      var r0 := RemoveIdx(init, removed);
      var last := if |s| - 1 in removed then [] else [s[|s| - 1]];
      assert RemoveIdx(s, removed + {i}) == Delete(r0, i) + last;
      assert RemoveIdx(s, removed) == r0 + last;
      assert Delete(r0 + last, i) == Delete(r0, i) + last;
    }
  }

  lemma {:induction false} CountBelowNone(idx: seq<int>, row: int)
    requires forall j :: 0 <= j < |idx| ==> idx[j] >= row
    ensures CountBelow(idx, row) == 0
  {
    if idx != [] {
      CountBelowNone(idx[1..], row);
    }
  }

  /** Strictly ascending indexes in `[lo, n)` number at most `n - lo`. */
  lemma {:induction false} AscendingSize(idx: seq<int>, lo: int, n: int)
    requires StrictlyIncreasing(idx)
    requires forall j :: 0 <= j < |idx| ==> lo <= idx[j] < n
    ensures |idx| <= if n > lo then n - lo else 0
  {
    if idx != [] {
      AscendingSize(idx[1..], idx[0] + 1, n);
    }
  }

  /** At most `row - lo` indexes fall below `row`, and at most `n - row` do not. */
  lemma {:induction false} CountBelowBounds(idx: seq<int>, lo: int, row: int, n: int)
    requires StrictlyIncreasing(idx)
    requires forall j :: 0 <= j < |idx| ==> lo <= idx[j] < n
    requires lo <= row <= n
    ensures CountBelow(idx, row) <= row - lo
    ensures |idx| - CountBelow(idx, row) <= n - row
  {
    if idx != [] {
      if idx[0] < row {
        CountBelowBounds(idx[1..], idx[0] + 1, row, n);
      } else {
        CountBelowNone(idx, row);
        AscendingSize(idx, row, n);
      }
    }
  }

  /** Removing `|idx|` distinct in-range rows leaves `|s| - |idx|` rows. */
  lemma {:induction false} RemoveIdxLength<T>(s: seq<T>, idx: seq<int>)
    requires StrictlyIncreasing(idx) && InRange(idx, |s|)
    ensures |RemoveIdx(s, Indexes(idx))| == |s| - |idx|
  {
    if idx == [] {
      RemoveIdxNothingInRange(s, {});
      assert Indexes(idx) == {};
    } else {
      var rest := idx[1..];
      RemoveIdxLength(s, rest);
      assert Indexes(idx) == Indexes(rest) + {idx[0]};
      RemoveIdxLowest(s, Indexes(rest), idx[0]);
    }
  }

  /** The kept row `a` lands at `a` minus the number of removed rows below it: kept rows keep
      their relative order. */
  lemma {:induction false} RemoveIdxAt<T>(s: seq<T>, idx: seq<int>, a: int)
    requires StrictlyIncreasing(idx) && InRange(idx, |s|)
    requires 0 <= a < |s| && a !in idx
    ensures 0 <= a - CountBelow(idx, a) < |RemoveIdx(s, Indexes(idx))|
    ensures RemoveIdx(s, Indexes(idx))[a - CountBelow(idx, a)] == s[a]
  {
    RemoveIdxLength(s, idx);
    CountBelowBounds(idx, 0, a, |s|);
    if idx == [] {
      RemoveIdxNothingInRange(s, {});
      assert Indexes(idx) == {};
    } else {
      var rest := idx[1..];
      var i0 := idx[0];
      RemoveIdxAt(s, rest, a);
      var j := Indexes(rest);
      assert Indexes(idx) == j + {i0};
      RemoveIdxLowest(s, j, i0);
      var r0 := RemoveIdx(s, j);
      var p := a - CountBelow(rest, a);
      assert CountBelow(idx, a) == (if i0 < a then 1 else 0) + CountBelow(rest, a);
      if i0 < a {
        CountBelowBounds(rest, i0 + 1, a, |s|);
        DeleteShift(r0, i0, p);
      } else {
        CountBelowNone(rest, a);
        DeleteShift(r0, i0, a);
      }
    }
  }

  /** Deleting position `i` keeps the items before it and shifts the ones after it down by one. */
  lemma DeleteShift<T>(r: seq<T>, i: int, p: int)
    requires 0 <= i < |r| && 0 <= p < |r| && p != i
    ensures p < i ==> Delete(r, i)[p] == r[p]
    ensures p > i ==> Delete(r, i)[p - 1] == r[p]
  {
  }

  lemma DeleteMultiset<T>(s: seq<T>, i: int)
    requires 0 <= i < |s|
    ensures multiset(Delete(s, i)) + multiset{s[i]} == multiset(s)
  {
    assert s == s[..i] + [s[i]] + s[i + 1..];
  }

  lemma PickedFirst<T>(s: seq<T>, idx: seq<int>)
    requires InRange(idx, |s|) && idx != []
    ensures Picked(s, idx) == [s[idx[0]]] + Picked(s, idx[1..])
  {
  }

  /** The removed rows and the kept rows together are the original rows. */
  lemma {:induction false} RemoveAndPickPartition<T>(s: seq<T>, idx: seq<int>)
    requires StrictlyIncreasing(idx) && InRange(idx, |s|)
    ensures multiset(RemoveIdx(s, Indexes(idx))) + multiset(Picked(s, idx)) == multiset(s)
  {
    if idx == [] {
      RemoveIdxNothingInRange(s, {});
      assert Indexes(idx) == {};
      assert Picked(s, idx) == [];
    } else {
      var rest := idx[1..];
      var i0 := idx[0];
      RemoveAndPickPartition(s, rest);
      var j := Indexes(rest);
      assert Indexes(idx) == j + {i0};
      RemoveIdxLowest(s, j, i0);
      RemoveIdxPrefix(s, j, i0);
      var r0 := RemoveIdx(s, j);
      assert r0[i0] == s[i0] by {
        assert r0[..i0 + 1][i0] == s[..i0 + 1][i0];
      }
      DeleteMultiset(r0, i0);
      PickedFirst(s, idx);
    }
  }

  // ---------------------------------------------------------------------------------------
  // The drop

  /** `rowIndex` less the number of moved rows above it: where the block starts once the moved
      rows are taken out. */
  function DropTarget(idx: seq<int>, row: int): int
  {
    row - CountBelow(idx, row)
  }

  lemma DropTargetBounds<T>(s: seq<T>, idx: seq<int>, row: int)
    requires StrictlyIncreasing(idx) && InRange(idx, |s|) && 0 <= row <= |s|
    ensures 0 <= DropTarget(idx, row) <= |RemoveIdx(s, Indexes(idx))|
  {
    RemoveIdxLength(s, idx);
    CountBelowBounds(idx, 0, row, |s|);
  }

  /** `genericDropSelfCallback` on a real drop: the kept rows, with the moved rows inserted as one
      block, in ascending original order, at the drop target. */
  function Moved<T>(s: seq<T>, idx: seq<int>, row: int): (r: seq<T>)
    requires StrictlyIncreasing(idx) && InRange(idx, |s|) && 0 <= row <= |s|
    ensures |r| == |s|
    ensures 0 <= DropTarget(idx, row) <= DropTarget(idx, row) + |idx| <= |r|
  {
    var rest := RemoveIdx(s, Indexes(idx));
    var at := DropTarget(idx, row);
    DropTargetBounds(s, idx, row);
    RemoveIdxLength(s, idx);
    rest[..at] + Picked(s, idx) + rest[at..]
  }

  /** A drop is a permutation of the rows. */
  lemma MovedIsPermutation<T>(s: seq<T>, idx: seq<int>, row: int)
    requires StrictlyIncreasing(idx) && InRange(idx, |s|) && 0 <= row <= |s|
    ensures multiset(Moved(s, idx, row)) == multiset(s)
  {
    var rest := RemoveIdx(s, Indexes(idx));
    var at := DropTarget(idx, row);
    DropTargetBounds(s, idx, row);
    RemoveAndPickPartition(s, idx);
    assert rest == rest[..at] + rest[at..];
  }

  /** The moved rows sit in consecutive slots from the drop target, in ascending original order;
      taking them out gives back the kept rows in their order. */
  lemma MovedBlock<T>(s: seq<T>, idx: seq<int>, row: int)
    requires StrictlyIncreasing(idx) && InRange(idx, |s|) && 0 <= row <= |s|
    ensures |Moved(s, idx, row)| == |s|
    ensures forall j :: 0 <= j < |idx| ==> Moved(s, idx, row)[DropTarget(idx, row) + j] == s[idx[j]]
    ensures Moved(s, idx, row)[..DropTarget(idx, row)] + Moved(s, idx, row)[DropTarget(idx, row) + |idx|..]
            == RemoveIdx(s, Indexes(idx))
  {
    var rest := RemoveIdx(s, Indexes(idx));
    var at := DropTarget(idx, row);
    DropTargetBounds(s, idx, row);
    RemoveIdxLength(s, idx);
    var m := Moved(s, idx, row);
    assert m == rest[..at] + Picked(s, idx) + rest[at..];
    assert m[..at] == rest[..at];
    assert m[at + |idx|..] == rest[at..];
    assert rest == rest[..at] + rest[at..];
  }

  /** Where the kept row at position `p` of the shortened list ends up once the block of `n`
      picked rows is inserted at `at`. */
  function Shifted(p: int, at: int, n: int): int
  {
    if p < at then p else p + n
  }

  /** Position `p` of the kept rows is found at `Shifted(p, ...)` in the moved list. */
  lemma MovedAtShifted<T>(s: seq<T>, idx: seq<int>, row: int, p: int)
    requires StrictlyIncreasing(idx) && InRange(idx, |s|) && 0 <= row <= |s|
    requires 0 <= p < |RemoveIdx(s, Indexes(idx))|
    ensures 0 <= Shifted(p, DropTarget(idx, row), |idx|) < |s|
    ensures Moved(s, idx, row)[Shifted(p, DropTarget(idx, row), |idx|)] == RemoveIdx(s, Indexes(idx))[p]
  {
    var rest := RemoveIdx(s, Indexes(idx));
    var at := DropTarget(idx, row);
    var picked := Picked(s, idx);
    DropTargetBounds(s, idx, row);
    RemoveIdxLength(s, idx);
    assert |picked| == |idx|;
    var m := Moved(s, idx, row);
    assert m == rest[..at] + picked + rest[at..];
    if p < at {
      assert m[p] == rest[..at][p];
    } else {
      assert m[p + |idx|] == rest[at..][p - at];
    }
  }

  /** A kept row keeps its place among the kept rows, pushed past the block when it falls at or
      after the drop target. */
  lemma MovedKeptRow<T>(s: seq<T>, idx: seq<int>, row: int, a: int)
    requires StrictlyIncreasing(idx) && InRange(idx, |s|) && 0 <= row <= |s|
    requires 0 <= a < |s| && a !in idx
    ensures var p := Shifted(a - CountBelow(idx, a), DropTarget(idx, row), |idx|);
            0 <= p < |s| && Moved(s, idx, row)[p] == s[a]
  {
    var p := a - CountBelow(idx, a);
    var rest := RemoveIdx(s, Indexes(idx));
    RemoveIdxAt(s, idx, a);
    assert 0 <= p < |rest| && rest[p] == s[a];
    MovedAtShifted(s, idx, row, p);
  }

  /** Dragging a selection keeps the rows that were not selected in their relative order: any two
      of them appear in the moved list in the order they had before. */
  lemma MovedKeepsOthersInOrder<T>(s: seq<T>, idx: seq<int>, row: int, a: int, b: int)
    requires StrictlyIncreasing(idx) && InRange(idx, |s|) && 0 <= row <= |s|
    requires 0 <= a < b < |s| && a !in idx && b !in idx
    ensures var m := Moved(s, idx, row);
            var pa := Shifted(a - CountBelow(idx, a), DropTarget(idx, row), |idx|);
            var pb := Shifted(b - CountBelow(idx, b), DropTarget(idx, row), |idx|);
            && 0 <= pa < pb < |m|
            && m[pa] == s[a]
            && m[pb] == s[b]
  {
    MovedKeptRow(s, idx, row, a);
    MovedKeptRow(s, idx, row, b);
    CountBelowStep(idx, a, b);
  }

  /** Between two kept rows `a < b`, at most `b - a - 1` removed rows. */
  lemma {:induction false} CountBelowStep(idx: seq<int>, a: int, b: int)
    requires StrictlyIncreasing(idx)
    requires a < b && a !in idx
    ensures CountBelow(idx, b) - CountBelow(idx, a) <= b - a - 1
  {
    if idx != [] {
      var rest := idx[1..];
      if idx[0] < a || b <= idx[0] {
        CountBelowStep(rest, a, b);
      } else {
        assert idx[0] !in rest;
        CountBelowStep(rest, idx[0], b);
        CountBelowNone(rest, idx[0]);
        CountBelowNone(rest, a);
      }
    }
  }
}
