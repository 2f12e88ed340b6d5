/** Height maps: footprint maximum, support-cell count and the footprint stamp,
    i.e. np.max(hmap[x0:x1, y0:y1]), np.sum(rec == v) and the slice assignment. */
module Grid {
  function Max(a: real, b: real): real { if a >= b then a else b }

  function Min(a: int, b: int): int { if a <= b then a else b }

  ghost predicate InRect(i: int, j: int, x0: int, x1: int, y0: int, y1: int) {
    x0 <= i < x1 && y0 <= j < y1
  }

  /** Largest value of row i between columns y0 (inclusive) and y1 (exclusive). */
  function RowMax(h: array2<real>, i: int, y0: int, y1: int): real
    reads h
    requires 0 <= i < h.Length0 && 0 <= y0 < y1 <= h.Length1
    decreases y1 - y0
  {
    if y1 - y0 == 1 then h[i, y0] else Max(RowMax(h, i, y0, y1 - 1), h[i, y1 - 1])
  }

  /** Largest value of the rectangle [x0, x1) x [y0, y1). */
  function RectMax(h: array2<real>, x0: int, x1: int, y0: int, y1: int): real
    reads h
    requires 0 <= x0 < x1 <= h.Length0 && 0 <= y0 < y1 <= h.Length1
    decreases x1 - x0
  {
    if x1 - x0 == 1 then RowMax(h, x0, y0, y1)
    else Max(RectMax(h, x0, x1 - 1, y0, y1), RowMax(h, x1 - 1, y0, y1))
  }

  /** Number of cells of row i in [y0, y1) equal to v. */
  function RowCount(h: array2<real>, i: int, y0: int, y1: int, v: real): nat
    reads h
    requires 0 <= i < h.Length0 && 0 <= y0 <= y1 <= h.Length1
    decreases y1 - y0
  {
    if y1 == y0 then 0 else RowCount(h, i, y0, y1 - 1, v) + (if h[i, y1 - 1] == v then 1 else 0)
  }

  /** Number of cells of the rectangle [x0, x1) x [y0, y1) equal to v. */
  function RectCount(h: array2<real>, x0: int, x1: int, y0: int, y1: int, v: real): nat
    reads h
    requires 0 <= x0 <= x1 <= h.Length0 && 0 <= y0 <= y1 <= h.Length1
    decreases x1 - x0
  {
    if x1 == x0 then 0 else RectCount(h, x0, x1 - 1, y0, y1, v) + RowCount(h, x1 - 1, y0, y1, v)
  }

  lemma {:induction false} RowMaxIsMax(h: array2<real>, i: int, y0: int, y1: int)
    requires 0 <= i < h.Length0 && 0 <= y0 < y1 <= h.Length1
    ensures forall j :: y0 <= j < y1 ==> h[i, j] <= RowMax(h, i, y0, y1)
    ensures exists j :: y0 <= j < y1 && h[i, j] == RowMax(h, i, y0, y1)
    decreases y1 - y0
  {
    if y1 - y0 > 1 {
      RowMaxIsMax(h, i, y0, y1 - 1);
      var j :| y0 <= j < y1 - 1 && h[i, j] == RowMax(h, i, y0, y1 - 1);
      if RowMax(h, i, y0, y1) != h[i, y1 - 1] {
        assert h[i, j] == RowMax(h, i, y0, y1);
      } else {
        assert y0 <= y1 - 1 < y1;
      }
    } else {
      assert h[i, y0] == RowMax(h, i, y0, y1);
    }
  }

  /** The footprint maximum bounds every footprint cell and is attained by one. */
  lemma {:induction false} RectMaxIsMax(h: array2<real>, x0: int, x1: int, y0: int, y1: int)
    requires 0 <= x0 < x1 <= h.Length0 && 0 <= y0 < y1 <= h.Length1
    ensures forall i, j :: InRect(i, j, x0, x1, y0, y1) ==> h[i, j] <= RectMax(h, x0, x1, y0, y1)
    ensures exists i, j :: InRect(i, j, x0, x1, y0, y1) && h[i, j] == RectMax(h, x0, x1, y0, y1)
    decreases x1 - x0
  {
    RowMaxIsMax(h, x1 - 1, y0, y1);
    var m := RectMax(h, x0, x1, y0, y1);
    if x1 - x0 > 1 {
      RectMaxIsMax(h, x0, x1 - 1, y0, y1);
      forall i, j | InRect(i, j, x0, x1, y0, y1) ensures h[i, j] <= m {
        if i < x1 - 1 {
          assert InRect(i, j, x0, x1 - 1, y0, y1);
        }
      }
      if m == RowMax(h, x1 - 1, y0, y1) {
        var j :| y0 <= j < y1 && h[x1 - 1, j] == m;
        assert InRect(x1 - 1, j, x0, x1, y0, y1);
      } else {
        var i, j :| InRect(i, j, x0, x1 - 1, y0, y1) && h[i, j] == RectMax(h, x0, x1 - 1, y0, y1);
        assert InRect(i, j, x0, x1, y0, y1) && h[i, j] == m;
      }
    } else {
      var j :| y0 <= j < y1 && h[x0, j] == m;
      assert InRect(x0, j, x0, x1, y0, y1);
    }
  }

  lemma {:induction false} RowCountBounds(h: array2<real>, i: int, y0: int, y1: int, v: real)
    requires 0 <= i < h.Length0 && 0 <= y0 <= y1 <= h.Length1
    ensures RowCount(h, i, y0, y1, v) <= y1 - y0
    ensures (exists j :: y0 <= j < y1 && h[i, j] == v) ==> RowCount(h, i, y0, y1, v) >= 1
    decreases y1 - y0
  {
    if y1 > y0 {
      RowCountBounds(h, i, y0, y1 - 1, v);
    }
  }

  /** The support count lies between 0 and the footprint area, and is at least 1
      for a value some footprint cell holds. */
  lemma {:induction false} RectCountBounds(h: array2<real>, x0: int, x1: int, y0: int, y1: int, v: real)
    requires 0 <= x0 <= x1 <= h.Length0 && 0 <= y0 <= y1 <= h.Length1
    ensures RectCount(h, x0, x1, y0, y1, v) <= (x1 - x0) * (y1 - y0)
    ensures (exists i, j :: InRect(i, j, x0, x1, y0, y1) && h[i, j] == v) ==> RectCount(h, x0, x1, y0, y1, v) >= 1
    decreases x1 - x0
  {
    if x1 > x0 {
      RectCountBounds(h, x0, x1 - 1, y0, y1, v);
      RowCountBounds(h, x1 - 1, y0, y1, v);
      assert (x1 - 1 - x0) * (y1 - y0) + (y1 - y0) == (x1 - x0) * (y1 - y0);
      if exists i, j :: InRect(i, j, x0, x1, y0, y1) && h[i, j] == v {
        var i, j :| InRect(i, j, x0, x1, y0, y1) && h[i, j] == v;
        if i < x1 - 1 {
          assert InRect(i, j, x0, x1 - 1, y0, y1);
        }
      }
    }
  }

  /** A height map as a value: rows of cells. */
  type Heights = seq<seq<real>>

  /** rows x cols cells. */
  predicate Shaped(m: Heights, rows: int, cols: int) {
    |m| == rows && forall i :: 0 <= i < |m| ==> |m[i]| == cols
  }

  /** The value a height map holds. */
  function Snapshot(h: array2<real>): (m: Heights)
    reads h
    ensures Shaped(m, h.Length0, h.Length1)
    ensures forall i, j :: 0 <= i < h.Length0 && 0 <= j < h.Length1 ==> m[i][j] == h[i, j]
  {
    seq(h.Length0, i requires 0 <= i < h.Length0 reads h => seq(h.Length1, j requires 0 <= j < h.Length1 reads h => h[i, j]))
  }

  /** RowMax on a height map value. */
  function HRowMax(m: Heights, i: int, y0: int, y1: int): real
    requires 0 <= i < |m| && 0 <= y0 < y1 <= |m[i]|
    decreases y1 - y0
  {
    if y1 - y0 == 1 then m[i][y0] else Max(HRowMax(m, i, y0, y1 - 1), m[i][y1 - 1])
  }

  /** RectMax on a height map value. */
  function HRectMax(m: Heights, x0: int, x1: int, y0: int, y1: int): real
    requires 0 <= x0 < x1 <= |m| && 0 <= y0 < y1 && forall i :: x0 <= i < x1 ==> y1 <= |m[i]|
    decreases x1 - x0
  {
    if x1 - x0 == 1 then HRowMax(m, x0, y0, y1)
    else Max(HRectMax(m, x0, x1 - 1, y0, y1), HRowMax(m, x1 - 1, y0, y1))
  }

  lemma {:induction false} RowMaxSnapshot(h: array2<real>, i: int, y0: int, y1: int)
    requires 0 <= i < h.Length0 && 0 <= y0 < y1 <= h.Length1
    ensures RowMax(h, i, y0, y1) == HRowMax(Snapshot(h), i, y0, y1)
    decreases y1 - y0
  {
    if y1 - y0 > 1 {
      RowMaxSnapshot(h, i, y0, y1 - 1);
    }
  }

  /** The footprint maximum of the array is the footprint maximum of its value. */
  lemma {:induction false} RectMaxSnapshot(h: array2<real>, x0: int, x1: int, y0: int, y1: int)
    requires 0 <= x0 < x1 <= h.Length0 && 0 <= y0 < y1 <= h.Length1
    ensures RectMax(h, x0, x1, y0, y1) == HRectMax(Snapshot(h), x0, x1, y0, y1)
    decreases x1 - x0
  {
    RowMaxSnapshot(h, x1 - 1, y0, y1);
    if x1 - x0 > 1 {
      RectMaxSnapshot(h, x0, x1 - 1, y0, y1);
    }
  }

  lemma {:induction false} HRowMaxIsMax(m: Heights, i: int, y0: int, y1: int)
    requires 0 <= i < |m| && 0 <= y0 < y1 <= |m[i]|
    ensures forall j :: y0 <= j < y1 ==> m[i][j] <= HRowMax(m, i, y0, y1)
    ensures exists j :: y0 <= j < y1 && m[i][j] == HRowMax(m, i, y0, y1)
    decreases y1 - y0
  {
    if y1 - y0 > 1 {
      HRowMaxIsMax(m, i, y0, y1 - 1);
      var j :| y0 <= j < y1 - 1 && m[i][j] == HRowMax(m, i, y0, y1 - 1);
      if HRowMax(m, i, y0, y1) != m[i][y1 - 1] {
        assert m[i][j] == HRowMax(m, i, y0, y1);
      } else {
        assert y0 <= y1 - 1 < y1;
      }
    } else {
      assert m[i][y0] == HRowMax(m, i, y0, y1);
    }
  }

  /** The footprint maximum of a value bounds every footprint cell and is
      attained by one. */
  lemma {:induction false} HRectMaxIsMax(m: Heights, x0: int, x1: int, y0: int, y1: int)
    requires 0 <= x0 < x1 <= |m| && 0 <= y0 < y1 && forall i :: x0 <= i < x1 ==> y1 <= |m[i]|
    ensures forall i, j :: InRect(i, j, x0, x1, y0, y1) ==> m[i][j] <= HRectMax(m, x0, x1, y0, y1)
    ensures exists i, j :: InRect(i, j, x0, x1, y0, y1) && m[i][j] == HRectMax(m, x0, x1, y0, y1)
    decreases x1 - x0
  {
    HRowMaxIsMax(m, x1 - 1, y0, y1);
    var v := HRectMax(m, x0, x1, y0, y1);
    if x1 - x0 > 1 {
      HRectMaxIsMax(m, x0, x1 - 1, y0, y1);
      forall i, j | InRect(i, j, x0, x1, y0, y1) ensures m[i][j] <= v {
        if i < x1 - 1 {
          assert InRect(i, j, x0, x1 - 1, y0, y1);
        }
      }
      if v == HRowMax(m, x1 - 1, y0, y1) {
        var j :| y0 <= j < y1 && m[x1 - 1][j] == v;
        assert InRect(x1 - 1, j, x0, x1, y0, y1);
      } else {
        var i, j :| InRect(i, j, x0, x1 - 1, y0, y1) && m[i][j] == HRectMax(m, x0, x1 - 1, y0, y1);
        assert InRect(i, j, x0, x1, y0, y1) && m[i][j] == v;
      }
    } else {
      var j :| y0 <= j < y1 && m[x0][j] == v;
      assert InRect(x0, j, x0, x1, y0, y1);
    }
  }

  /** The slice assignment on a value: the cells of [x0, x1) x [y0, y1) become
      max(footprint maximum, top). */
  function HStamp(m: Heights, x0: int, x1: int, y0: int, y1: int, top: real): Heights
    requires 0 <= x0 < x1 <= |m| && 0 <= y0 < y1 && forall i :: x0 <= i < x1 ==> y1 <= |m[i]|
  {
    var v := Max(HRectMax(m, x0, x1, y0, y1), top);
    seq(|m|, i requires 0 <= i < |m| =>
      seq(|m[i]|, j requires 0 <= j < |m[i]| => if x0 <= i < x1 && y0 <= j < y1 then v else m[i][j]))
  }

  /** A stamp keeps the shape, levels the footprint at or above top and above
      every old footprint cell, and changes no other cell. */
  lemma HStampMeaning(m: Heights, x0: int, x1: int, y0: int, y1: int, top: real, rows: int, cols: int)
    requires Shaped(m, rows, cols) && 0 <= x0 < x1 <= rows && 0 <= y0 < y1 <= cols
    ensures var m' := HStamp(m, x0, x1, y0, y1, top);
      && Shaped(m', rows, cols)
      && (forall i, j :: x0 <= i < x1 && y0 <= j < y1 ==> top <= m'[i][j] && m'[i][j] == m'[x0][y0])
      && (forall i, j :: 0 <= i < rows && 0 <= j < cols ==> m[i][j] <= m'[i][j])
      && (forall i, j :: 0 <= i < rows && 0 <= j < cols && !(x0 <= i < x1 && y0 <= j < y1) ==> m'[i][j] == m[i][j])
  {
    HRectMaxIsMax(m, x0, x1, y0, y1);
    assert forall i, j :: x0 <= i < x1 && y0 <= j < y1 ==> InRect(i, j, x0, x1, y0, y1);
  }

  /** hmap[x0:x1, y0:y1] = max(np.max(hmap[x0:x1, y0:y1]), top): every footprint
      cell becomes the larger of the old footprint maximum and `top`; every other
      cell keeps its value, so no cell decreases. */
  method StampFootprint(h: array2<real>, x0: int, x1: int, y0: int, y1: int, top: real)
    requires 0 <= x0 < x1 <= h.Length0 && 0 <= y0 < y1 <= h.Length1
    modifies h
    ensures forall i, j :: 0 <= i < h.Length0 && 0 <= j < h.Length1 ==>
      h[i, j] == if InRect(i, j, x0, x1, y0, y1) then Max(old(RectMax(h, x0, x1, y0, y1)), top) else old(h[i, j])
    ensures forall i, j :: 0 <= i < h.Length0 && 0 <= j < h.Length1 ==> old(h[i, j]) <= h[i, j]
  {
    RectMaxIsMax(h, x0, x1, y0, y1);
    var maxH := Max(RectMax(h, x0, x1, y0, y1), top);
    forall i, j | x0 <= i < x1 && y0 <= j < y1 {
      h[i, j] := maxH;
    }
  }

  /** Two height maps are equal when they agree cell by cell. */
  lemma SnapshotEq(h: array2<real>, m: Heights)
    requires Shaped(m, h.Length0, h.Length1)
    requires forall i, j :: 0 <= i < h.Length0 && 0 <= j < h.Length1 ==> m[i][j] == h[i, j]
    ensures Snapshot(h) == m
  {
    var s := Snapshot(h);
    forall i | 0 <= i < h.Length0
      ensures s[i] == m[i]
    {
      assert |s[i]| == |m[i]|;
      forall j | 0 <= j < h.Length1
        ensures s[i][j] == m[i][j]
      {
      }
    }
  }
}
