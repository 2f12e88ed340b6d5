/** Items (boxes): integer grid sizes, the four axis-swap rotations and the
    in-place Box object of pack_env/box.py. */
module Geometry {
  /** Rotation modes: 0 no rotation, 1 X<->Y, 2 X<->Z, 3 Y<->Z. */
  const RotateNoop: int := 0
  const RotateXY: int := 1
  const RotateXZ: int := 2
  const RotateYZ: int := 3

  datatype Size = Size(dx: int, dy: int, dz: int) {
    function Vol(): int { dx * dy * dz }

    /** The size after rotating with `mode`; any other mode leaves it as is. */
    function Rotated(mode: int): Size {
      if mode == RotateXY then Size(dy, dx, dz)
      else if mode == RotateXZ then Size(dz, dy, dx)
      else if mode == RotateYZ then Size(dx, dz, dy)
      else this
    }

    function Sides(): multiset<int> { multiset{dx, dy, dz} }

    /** This size lists the sides of `s` in one of the six orders. */
    predicate IsReorderOf(s: Size) {
      || this == s || this == Size(s.dx, s.dz, s.dy) || this == Size(s.dy, s.dx, s.dz)
      || this == Size(s.dy, s.dz, s.dx) || this == Size(s.dz, s.dx, s.dy) || this == Size(s.dz, s.dy, s.dx)
    }

    /** The same three sides, largest first (list.sort(reverse=True)). */
    function SortedDesc(): (r: Size)
      ensures r.dx >= r.dy >= r.dz
      ensures r.IsReorderOf(this)
    {
      SortThree(dx, dy, dz);
      var l := SortDesc([dx, dy, dz]);
      Size(l[0], l[1], l[2])
    }
  }

  /** x inserted into a descending list before the first smaller element. */
  function InsertDesc(x: int, s: seq<int>): seq<int> {
    if s == [] || x >= s[0] then [x] + s else [s[0]] + InsertDesc(x, s[1..])
  }

  /** Sorting three sides puts them in one of the six orders, largest first. */
  lemma SortThree(a: int, b: int, c: int)
    ensures var l := SortDesc([a, b, c]);
      |l| == 3 && l[0] >= l[1] >= l[2] && Size(l[0], l[1], l[2]).IsReorderOf(Size(a, b, c))
  {
    assert [a, b, c][1..] == [b, c] && [b, c][1..] == [c] && [c][1..] == [];
    assert SortDesc([]) == [];
    assert SortDesc([c]) == InsertDesc(c, []) == [c];
    var lb := SortDesc([b, c]);
    assert lb == InsertDesc(b, [c]);
    if b < c {
      assert [c][1..] == [];
      assert InsertDesc(b, []) == [b];
    }
    assert lb == if b >= c then [b, c] else [c, b];
    var l := SortDesc([a, b, c]);
    assert l == InsertDesc(a, lb);
    if a >= lb[0] {
      assert l == [a] + lb;
    } else {
      assert lb[1..] == [lb[1]];
      assert l == [lb[0]] + InsertDesc(a, [lb[1]]);
    }
  }

  /** list.sort(reverse=True) on a list of integers, as an insertion sort. */
  function SortDesc(s: seq<int>): seq<int> {
    if s == [] then [] else InsertDesc(s[0], SortDesc(s[1..]))
  }

  /** A reordering keeps the multiset of sides and the volume. */
  lemma ReorderKeepsSidesAndVol(r: Size, s: Size)
    requires r.IsReorderOf(s)
    ensures r.Sides() == s.Sides()
    ensures r.Vol() == s.Vol()
  {
    ReorderKeepsVol(r, s);
    assert r.Sides() == multiset{r.dx, r.dy, r.dz};
  }

  lemma ReorderKeepsVol(r: Size, s: Size)
    requires r.IsReorderOf(s)
    ensures r.Vol() == s.Vol()
  {
    var a, b, c := s.dx, s.dy, s.dz;
    if r == Size(a, c, b) {
      assert a * c * b == a * b * c;
    } else if r == Size(b, a, c) {
      assert b * a * c == a * b * c;
    } else if r == Size(b, c, a) {
      assert b * c * a == a * b * c;
    } else if r == Size(c, a, b) {
      assert c * a * b == a * b * c;
    } else if r == Size(c, b, a) {
      assert c * b * a == a * b * c;
    }
  }

  /** Sorting keeps the sides and the volume, and sorting again changes nothing. */
  lemma SortedDescKeepsSides(s: Size)
    ensures s.SortedDesc().Sides() == s.Sides()
    ensures s.SortedDesc().Vol() == s.Vol()
    ensures s.SortedDesc().SortedDesc() == s.SortedDesc()
  {
    ReorderKeepsSidesAndVol(s.SortedDesc(), s);
  }

  /** Rotating twice with the same mode restores the size. */
  lemma RotateTwice(s: Size, mode: int)
    ensures s.Rotated(mode).Rotated(mode) == s
  {
  }

  /** A rotation only reorders the three sides, so the volume is kept too. */
  lemma RotatePermutesSides(s: Size, mode: int)
    ensures s.Rotated(mode).IsReorderOf(s)
    ensures s.Rotated(mode).Sides() == s.Sides()
    ensures s.Rotated(mode).Vol() == s.Vol()
  {
    ReorderKeepsSidesAndVol(s.Rotated(mode), s);
  }

  /** Exactly the modes 1, 2 and 3 move a side of a box with three distinct sides. */
  lemma RotateMovesIffSwapMode(s: Size, mode: int)
    requires s.dx != s.dy && s.dy != s.dz && s.dx != s.dz
    ensures s.Rotated(mode) != s <==> mode in {RotateXY, RotateXZ, RotateYZ}
  {
  }

  /** A value snapshot of a Box: position, size, weight and name. */
  datatype BoxRec = BoxRec(x: int, y: int, z: real, size: Size, wt: real, name: string) {
    function Vol(): int { size.Vol() }
    function Rotated(mode: int): BoxRec { this.(size := size.Rotated(mode)) }
  }

  /** Sum of the weights of a list of boxes. */
  function SumWt(bs: seq<BoxRec>): real {
    if bs == [] then 0.0 else SumWt(bs[..|bs| - 1]) + bs[|bs| - 1].wt
  }

  /** Sum of the volumes of a list of boxes. */
  function SumVol(bs: seq<BoxRec>): int {
    if bs == [] then 0 else SumVol(bs[..|bs| - 1]) + bs[|bs| - 1].Vol()
  }

  class Box {
    var x: int
    var y: int
    var z: real
    var dx: int
    var dy: int
    var dz: int
    var wt: real
    var name: string
    var parentGen: string
    var packRot: int
    var packCntrId: int
    var packCntrName: string
    var packCntrSize: (real, real, real)

    constructor (dx: int, dy: int, dz: int, wt: real, name: string, parentGen: string)
      ensures x == 0 && y == 0 && z == 0.0
      ensures this.dx == dx && this.dy == dy && this.dz == dz
      ensures this.wt == wt && this.name == name && this.parentGen == parentGen
      ensures packRot == RotateNoop && packCntrId == -1 && packCntrName == ""
      ensures packCntrSize == (0.0, 0.0, 0.0)
    {
      x, y, z := 0, 0, 0.0;
      this.dx, this.dy, this.dz := dx, dy, dz;
      this.wt, this.name, this.parentGen := wt, name, parentGen;
      packRot, packCntrId, packCntrName := RotateNoop, -1, "";
      packCntrSize := (0.0, 0.0, 0.0);
    }

    function Dims(): Size reads this { Size(dx, dy, dz) }

    function Vol(): int reads this { Dims().Vol() }

    function Snapshot(): BoxRec reads this { BoxRec(x, y, z, Dims(), wt, name) }

    /** The (x, y, z, dx, dy, dz, wt) tuple of the box. */
    function Standardize(): (int, int, real, int, int, int, real) reads this {
      (x, y, z, dx, dy, dz, wt)
    }

    /** Rotates the box in place: only the three size fields change. */
    method Rotate(mode: int)
      modifies this
      ensures Dims() == old(Dims()).Rotated(mode)
      ensures x == old(x) && y == old(y) && z == old(z) && wt == old(wt)
      ensures name == old(name) && parentGen == old(parentGen)
      ensures packRot == old(packRot) && packCntrId == old(packCntrId)
      ensures packCntrName == old(packCntrName) && packCntrSize == old(packCntrSize)
    {
      if mode == RotateXY { dx, dy := dy, dx; }
      if mode == RotateXZ { dx, dz := dz, dx; }
      if mode == RotateYZ { dy, dz := dz, dy; }
    }
  }
}
