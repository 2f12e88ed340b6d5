/** One container of pack_env/container.py: a height map over the catalog-wide
    (max_X x max_Y) grid, the placement-legality query and capacity bookkeeping. */
module ContainerModel {
  import opened Geometry
  import opened Grid

  /** config.min_supported_corners */
  const MinSupportedCorners: int := 3

  /** Number of the four values equal to their maximum `rm`. */
  function SupportedCorners(r00: real, r10: real, r01: real, r11: real): (n: int) {
    var rm := Max(Max(r00, r10), Max(r01, r11));
    (if r00 == rm then 1 else 0) + (if r10 == rm then 1 else 0)
      + (if r01 == rm then 1 else 0) + (if r11 == rm then 1 else 0)
  }


  /** The corner maximum `rm` of the footprint of `s` at (x, y). */
  function CornerMax(h: array2<real>, s: Size, x: int, y: int): real
    reads h
    requires 0 <= x && x + s.dx <= h.Length0 && 0 <= y && y + s.dy <= h.Length1
    requires s.dx >= 1 && s.dy >= 1
  {
    Max(Max(h[x, y], h[x + s.dx - 1, y]), Max(h[x, y + s.dy - 1], h[x + s.dx - 1, y + s.dy - 1]))
  }

  /** How many of the four footprint corners equal their maximum. */
  function FootprintCorners(h: array2<real>, s: Size, x: int, y: int): int
    reads h
    requires 0 <= x && x + s.dx <= h.Length0 && 0 <= y && y + s.dy <= h.Length1
    requires s.dx >= 1 && s.dy >= 1
  {
    SupportedCorners(h[x, y], h[x + s.dx - 1, y], h[x, y + s.dy - 1], h[x + s.dx - 1, y + s.dy - 1])
  }

  /** The three support-ratio tests of the source, max_area/area > 0.95/3,
      > 0.85/3 (rm == max_h, 3 corners) and > 0.50/3 (rm == max_h, 4 corners),
      stated exactly over integers. */
  predicate AreaSupported(maxArea: int, area: int, rmIsMax: bool, corners: int) {
    || 300 * maxArea > 95 * area
    || (rmIsMax && corners == 3 && 300 * maxArea > 85 * area)
    || (rmIsMax && corners == 4 && 300 * maxArea > 50 * area)
  }

  /** The part of the placement query after the bounds test. */
  function PlacementInside(h: array2<real>, s: Size, x: int, y: int, maxZ: int, strict: bool): real
    reads h
    requires 0 <= x && x + s.dx <= h.Length0 && 0 <= y && y + s.dy <= h.Length1
    requires s.dx >= 1 && s.dy >= 1
  {
    var rm := CornerMax(h, s, x, y);
    var corners := FootprintCorners(h, s, x, y);
    if corners < MinSupportedCorners then -1.0
    else
      var maxH := RectMax(h, x, x + s.dx, y, y + s.dy);
      if maxH + s.dz as real > maxZ as real then -1.0
      else
        var maxArea := RectCount(h, x, x + s.dx, y, y + s.dy, maxH);
        var area := s.dx * s.dy;
        if strict && maxArea < area then -1.0
        else if AreaSupported(maxArea, area, rm == maxH, corners) then maxH
        else -1.0
  }

  class Container {
    const dx: int
    const dy: int
    const dz: int
    const name: string
    const maxVol: int
    const maxWt: real
    const maxX: nat
    const maxY: nat
    const maxZ: int
    const maxW: real

    var boxes: seq<BoxRec>
    var totalBoxWts: real
    var totalBoxVols: int
    var freeWt: real
    var freeVol: int
    var heightMap: array2<real>

    ghost predicate Valid()
      reads this, heightMap
    {
      && 0 <= dx <= maxX && 0 <= dy <= maxY && 0 <= dz <= maxZ
      && maxVol == dx * dy * dz
      && heightMap.Length0 == maxX && heightMap.Length1 == maxY
      && totalBoxWts == SumWt(boxes) && totalBoxVols == SumVol(boxes)
      && freeWt == maxWt - totalBoxWts && freeVol == maxVol - totalBoxVols
      && forall i, j :: 0 <= i < maxX && 0 <= j < maxY ==> 0.0 <= heightMap[i, j] <= maxZ as real
    }

    /** The height map of an empty container: inside the container's own
        dx x dy footprint a box may rest at max_Z - dz, every other cell is full. */
    ghost predicate FreshHeightMap()
      reads this, heightMap
    {
      forall i, j :: 0 <= i < heightMap.Length0 && 0 <= j < heightMap.Length1 ==>
        heightMap[i, j] == if i < dx && j < dy then (maxZ - dz) as real else maxZ as real
    }

    constructor (dx: int, dy: int, dz: int, maxWt: real, maxX: nat, maxY: nat, maxZ: int, maxW: real, name: string)
      requires 0 <= dx <= maxX && 0 <= dy <= maxY && 0 <= dz <= maxZ
      ensures Valid() && fresh(heightMap) && FreshHeightMap()
      ensures this.dx == dx && this.dy == dy && this.dz == dz && this.name == name
      ensures this.maxX == maxX && this.maxY == maxY && this.maxZ == maxZ && this.maxW == maxW
      ensures this.maxWt == maxWt && maxVol == dx * dy * dz
      ensures boxes == [] && totalBoxWts == 0.0 && totalBoxVols == 0
      ensures freeWt == maxWt && freeVol == dx * dy * dz
    {
      this.dx, this.dy, this.dz, this.name := dx, dy, dz, name;
      maxVol := dx * dy * dz;
      this.maxWt := maxWt;
      this.maxX, this.maxY, this.maxZ, this.maxW := maxX, maxY, maxZ, maxW;
      boxes := [];
      totalBoxWts, totalBoxVols := 0.0, 0;
      freeWt, freeVol := maxWt, dx * dy * dz;
      heightMap := new real[maxX, maxY]((i, j) =>
        if i < dx && j < dy then (maxZ - dz) as real else maxZ as real);
    }

    /** Forgets every placed box and restores the empty height map. */
    method Reset()
      requires Valid()
      modifies this
      ensures Valid() && fresh(heightMap) && FreshHeightMap()
      ensures boxes == [] && totalBoxWts == 0.0 && totalBoxVols == 0
      ensures freeWt == maxWt && freeVol == maxVol
    {
      boxes := [];
      totalBoxWts, totalBoxVols := 0.0, 0;
      freeWt, freeVol := maxWt, maxVol;
      heightMap := new real[maxX, maxY]((i, j) =>
        if i < dx && j < dy then (maxZ - dz) as real else maxZ as real);
    }

    /** Base height at which a box of size `s` would rest with its front-left
        corner at (x, y), or -1 when the placement is illegal. `strict` stands
        for checkMode == "strict". */
    function CheckBoxPlacementValid(s: Size, x: int, y: int, strict: bool): real
      reads this, heightMap
      requires Valid() && s.dx >= 1 && s.dy >= 1
    {
      if x + s.dx > dx || y + s.dy > dy then -1.0
      else if x < 0 || y < 0 then -1.0
      else PlacementInside(heightMap, s, x, y, maxZ, strict)
    }

    /** Places `box` with its front-left corner at (x, y) if weight, volume and
        legality allow. The source passes its check_print argument in the
        checkMode slot, so the check always runs in normal mode. */
    method DropBox(box: Box, x: int, y: int) returns (ok: bool)
      requires Valid() && box.dx >= 1 && box.dy >= 1
      modifies this, heightMap, box
      ensures Valid() && heightMap == old(heightMap)
      ensures ok <==> box.wt <= old(freeWt) && old(box.Vol()) <= old(freeVol)
                      && old(CheckBoxPlacementValid(box.Dims(), x, y, false)) != -1.0
      ensures !ok ==> boxes == old(boxes) && freeWt == old(freeWt) && freeVol == old(freeVol)
                      && unchanged(box) && unchanged(heightMap)
      ensures ok ==> box.x == x && box.y == y && box.z == old(CheckBoxPlacementValid(box.Dims(), x, y, false))
      ensures ok ==> box.Dims() == old(box.Dims()) && box.wt == old(box.wt) && box.name == old(box.name)
      ensures ok ==> boxes == old(boxes) + [box.Snapshot()]
      ensures ok ==> freeWt == old(freeWt) - box.wt && freeVol == old(freeVol) - box.Vol()
      ensures ok ==> freeWt >= 0.0 && freeVol >= 0
      ensures ok ==> forall i, j :: 0 <= i < maxX && 0 <= j < maxY ==>
        heightMap[i, j] == if InRect(i, j, x, x + box.dx, y, y + box.dy)
                           then Max(box.z, box.z + box.dz as real)
                           else old(heightMap[i, j])
      ensures forall i, j :: 0 <= i < maxX && 0 <= j < maxY ==> old(heightMap[i, j]) <= heightMap[i, j]
    {
      if box.wt > freeWt || box.Vol() > freeVol {
        return false;
      }
      var newH := CheckBoxPlacementValid(box.Dims(), x, y, false);
      if newH == -1.0 {
        return false;
      }
      PlacementFits(this, box.Dims(), x, y, false);
      Place(box, x, y, newH);
      ok := true;
    }

    /** Commits a legal placement at base height `h`: sets the box position,
        appends it, stamps the footprint and recomputes the capacity totals. */
    method Place(box: Box, x: int, y: int, h: real)
      requires Valid() && box.dx >= 1 && box.dy >= 1
      requires 0 <= x && x + box.dx <= dx && 0 <= y && y + box.dy <= dy
      requires h == RectMax(heightMap, x, x + box.dx, y, y + box.dy)
      requires 0.0 <= h && h + box.dz as real <= maxZ as real
      requires box.wt <= freeWt && box.Vol() <= freeVol
      modifies this, heightMap, box
      ensures Valid() && heightMap == old(heightMap)
      ensures box.x == x && box.y == y && box.z == h
      ensures box.Dims() == old(box.Dims()) && box.wt == old(box.wt) && box.name == old(box.name)
      ensures boxes == old(boxes) + [box.Snapshot()]
      ensures freeWt == old(freeWt) - box.wt && freeVol == old(freeVol) - box.Vol()
      ensures freeWt >= 0.0 && freeVol >= 0
      ensures forall i, j :: 0 <= i < maxX && 0 <= j < maxY ==>
        heightMap[i, j] == if InRect(i, j, x, x + box.dx, y, y + box.dy)
                           then Max(box.z, box.z + box.dz as real)
                           else old(heightMap[i, j])
      ensures forall i, j :: 0 <= i < maxX && 0 <= j < maxY ==> old(heightMap[i, j]) <= heightMap[i, j]
    {
      ghost var dims := box.Dims();
      box.x, box.y, box.z := x, y, h;
      assert box.Dims() == dims;
      var placed := box.Snapshot();
      SumsAppend(boxes, placed);
      boxes := boxes + [placed];
      UpdateHeightMap(box);
      RecountTotals();
    }

    /** The four capacity totals, recomputed from the placed boxes. */
    method RecountTotals()
      modifies this
      ensures boxes == old(boxes) && heightMap == old(heightMap)
      ensures totalBoxWts == SumWt(boxes) && totalBoxVols == SumVol(boxes)
      ensures freeWt == maxWt - totalBoxWts && freeVol == maxVol - totalBoxVols
    {
      totalBoxWts := SumWt(boxes);
      totalBoxVols := SumVol(boxes);
      freeWt := maxWt - totalBoxWts;
      freeVol := maxVol - totalBoxVols;
    }

    /** update_height_map on the container's own map, for a box already
        positioned at its base height: the footprint cells rise to the box's
        top, the others keep their values, and every cell stays in [0, max_Z]. */
    method UpdateHeightMap(box: Box)
      requires heightMap.Length0 == maxX && heightMap.Length1 == maxY
      requires box.dx >= 1 && box.dy >= 1
      requires 0 <= box.x && box.x + box.dx <= maxX && 0 <= box.y && box.y + box.dy <= maxY
      requires box.z == RectMax(heightMap, box.x, box.x + box.dx, box.y, box.y + box.dy)
      requires box.z + box.dz as real <= maxZ as real
      requires forall i, j :: 0 <= i < maxX && 0 <= j < maxY ==> 0.0 <= heightMap[i, j] <= maxZ as real
      modifies heightMap
      ensures forall i, j :: 0 <= i < maxX && 0 <= j < maxY ==>
        heightMap[i, j] == if InRect(i, j, box.x, box.x + box.dx, box.y, box.y + box.dy)
                           then Max(box.z, box.z + box.dz as real)
                           else old(heightMap[i, j])
      ensures forall i, j :: 0 <= i < maxX && 0 <= j < maxY ==> old(heightMap[i, j]) <= heightMap[i, j]
      ensures forall i, j :: 0 <= i < maxX && 0 <= j < maxY ==> 0.0 <= heightMap[i, j] <= maxZ as real
    {
      var x0, x1, y0, y1 := box.x, box.x + box.dx, box.y, box.y + box.dy;
      RectMaxIsMax(heightMap, x0, x1, y0, y1);
      ghost var i0, j0 :| InRect(i0, j0, x0, x1, y0, y1) && heightMap[i0, j0] == box.z;
      assert box.z <= maxZ as real;
      StampFootprint(heightMap, x0, x1, y0, y1, box.z + box.dz as real);
      forall i, j | 0 <= i < maxX && 0 <= j < maxY
        ensures 0.0 <= heightMap[i, j] <= maxZ as real
      {
        if InRect(i, j, x0, x1, y0, y1) {
          assert heightMap[i, j] == Max(box.z, box.z + box.dz as real);
        } else {
          assert heightMap[i, j] == old(heightMap[i, j]);
        }
      }
    }
  }

  lemma SumsAppend(bs: seq<BoxRec>, b: BoxRec)
    ensures SumWt(bs + [b]) == SumWt(bs) + b.wt
    ensures SumVol(bs + [b]) == SumVol(bs) + b.Vol()
  {
    assert (bs + [b])[..|bs|] == bs;
  }

  /** The facts about a legal answer that a placement needs. */
  lemma PlacementFits(c: Container, s: Size, x: int, y: int, strict: bool)
    requires c.Valid() && s.dx >= 1 && s.dy >= 1
    requires c.CheckBoxPlacementValid(s, x, y, strict) != -1.0
    ensures 0 <= x && x + s.dx <= c.dx && 0 <= y && y + s.dy <= c.dy
    ensures var r := c.CheckBoxPlacementValid(s, x, y, strict);
      && r == RectMax(c.heightMap, x, x + s.dx, y, y + s.dy)
      && 0.0 <= r && r + s.dz as real <= c.maxZ as real
  {
    var h := c.heightMap;
    RectMaxIsMax(h, x, x + s.dx, y, y + s.dy);
    var m := RectMax(h, x, x + s.dx, y, y + s.dy);
    var i, j :| InRect(i, j, x, x + s.dx, y, y + s.dy) && h[i, j] == m;
    assert 0.0 <= h[i, j];
  }

  /** What a legal answer of the placement query means: the footprint lies
      inside the container, at least 3 corners rest at the corner maximum, the
      answer is the footprint's highest cell, the box top stays within max_Z, and
      the support area passes one of the three ratio tests. */
  lemma PlacementMeaning(c: Container, s: Size, x: int, y: int, strict: bool)
    requires c.Valid() && s.dx >= 1 && s.dy >= 1
    requires c.CheckBoxPlacementValid(s, x, y, strict) != -1.0
    ensures 0 <= x && x + s.dx <= c.dx && 0 <= y && y + s.dy <= c.dy
    ensures FootprintCorners(c.heightMap, s, x, y) >= MinSupportedCorners
    ensures var r := c.CheckBoxPlacementValid(s, x, y, strict);
      && r == RectMax(c.heightMap, x, x + s.dx, y, y + s.dy)
      && 0.0 <= r && r + s.dz as real <= c.maxZ as real
      && (forall i, j :: InRect(i, j, x, x + s.dx, y, y + s.dy) ==> c.heightMap[i, j] <= r)
      && (exists i, j :: InRect(i, j, x, x + s.dx, y, y + s.dy) && c.heightMap[i, j] == r)
    ensures var r := c.CheckBoxPlacementValid(s, x, y, strict);
      var support := RectCount(c.heightMap, x, x + s.dx, y, y + s.dy, r);
      var area := s.dx * s.dy;
      && 1 <= support <= area
      && (strict ==> support == area)
      && AreaSupported(support, area, CornerMax(c.heightMap, s, x, y) == r, FootprintCorners(c.heightMap, s, x, y))
  {
    var h := c.heightMap;
    RectMaxIsMax(h, x, x + s.dx, y, y + s.dy);
    var m := RectMax(h, x, x + s.dx, y, y + s.dy);
    RectCountBounds(h, x, x + s.dx, y, y + s.dy, m);
    var i, j :| InRect(i, j, x, x + s.dx, y, y + s.dy) && h[i, j] == m;
    assert 0.0 <= h[i, j];
  }

  /** A flat footprint inside the container whose top fits is always accepted,
      at the height of that floor. */
  lemma FlatFootprintAccepted(c: Container, s: Size, x: int, y: int, v: real)
    requires c.Valid() && s.dx >= 1 && s.dy >= 1
    requires 0 <= x && x + s.dx <= c.dx && 0 <= y && y + s.dy <= c.dy
    requires forall i, j :: InRect(i, j, x, x + s.dx, y, y + s.dy) ==> c.heightMap[i, j] == v
    requires v + s.dz as real <= c.maxZ as real
    ensures c.CheckBoxPlacementValid(s, x, y, true) == v
  {
    var h := c.heightMap;
    assert InRect(x, y, x, x + s.dx, y, y + s.dy);
    assert InRect(x + s.dx - 1, y, x, x + s.dx, y, y + s.dy);
    assert InRect(x, y + s.dy - 1, x, x + s.dx, y, y + s.dy);
    assert InRect(x + s.dx - 1, y + s.dy - 1, x, x + s.dx, y, y + s.dy);
    RectMaxIsMax(h, x, x + s.dx, y, y + s.dy);
    var m := RectMax(h, x, x + s.dx, y, y + s.dy);
    assert m == v;
    FlatCount(h, x, x + s.dx, y, y + s.dy, v);
  }

  lemma {:induction false} FlatCount(h: array2<real>, x0: int, x1: int, y0: int, y1: int, v: real)
    requires 0 <= x0 <= x1 <= h.Length0 && 0 <= y0 <= y1 <= h.Length1
    requires forall i, j :: InRect(i, j, x0, x1, y0, y1) ==> h[i, j] == v
    ensures RectCount(h, x0, x1, y0, y1, v) == (x1 - x0) * (y1 - y0)
    decreases x1 - x0
  {
    if x1 > x0 {
      FlatCount(h, x0, x1 - 1, y0, y1, v);
      FlatRowCount(h, x1 - 1, y0, y1, v);
      assert (x1 - 1 - x0) * (y1 - y0) + (y1 - y0) == (x1 - x0) * (y1 - y0);
    }
  }

  lemma {:induction false} FlatRowCount(h: array2<real>, i: int, y0: int, y1: int, v: real)
    requires 0 <= i < h.Length0 && 0 <= y0 <= y1 <= h.Length1
    requires forall j :: y0 <= j < y1 ==> h[i, j] == v
    ensures RowCount(h, i, y0, y1, v) == y1 - y0
    decreases y1 - y0
  {
    if y1 > y0 {
      FlatRowCount(h, i, y0, y1 - 1, v);
    }
  }
}
