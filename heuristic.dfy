/** The greedy corner heuristic of pack_env/packingHeuristic.py: an anchor
    frontier packer over a zero-initialised height map, a catalog pre-filter
    tried smallest volume first, and the prefix-partitioning loop that splits
    an order into containers. Each loop is a method proved equal to a
    function that follows the source step by step: Plan for the item loop,
    SingleOutcome for the container scan, PassSpec for one pass and Passes
    for the whole partitioning. */
module Heuristic {
  import opened Wrappers
  import opened Geometry
  import opened Grid
  import opened ContainerModel
  import opened Catalog

  /** One row of items_info: the real sides (largest first), their integer
      ceilings, the weight and the item name. */
  datatype Item = Item(l: real, w: real, h: real, dx: nat, dy: nat, dz: nat, wt: real, name: string)

  /** A physical item: positive real sides, largest first, and integer sides of at least 1. The
      real sides are floating-point values, so any anchor height derived from
      one is a float. */
  predicate ValidItem(it: Item) {
    it.l >= it.w >= it.h > 0.0 && it.dx >= 1 && it.dy >= 1 && it.dz >= 1
  }

  predicate ValidItems(items: seq<Item>) {
    forall i :: 0 <= i < |items| ==> ValidItem(items[i])
  }

  /** A candidate corner (x, y, z): x and y are grid cells, z is a height.
      Every anchor the packer makes is a sum of the origin and item sides, so
      x and y are never negative. */
  datatype Anchor = Anchor(x: nat, y: nat, z: real)

  /** An accepted placement: its anchor and the orientation 0..3 chosen. */
  datatype Placement = Placement(at: Anchor, rot: int)

  /** All cells of the map are non-negative (the source asserts max_h >= 0). */
  ghost predicate NonNegative(hmap: array2<real>)
    reads hmap
  {
    forall i, j :: 0 <= i < hmap.Length0 && 0 <= j < hmap.Length1 ==> 0.0 <= hmap[i, j]
  }

  /** check_valid_placement on the value of a cdx x cdy map: in bounds, at
      least three supported corners and the footprint maximum plus dz within
      the container height. No area-ratio test. */
  predicate ValidPlacementOn(m: Heights, x: int, y: int, dx: int, dy: int, dz: real,
                             cdx: int, cdy: int, cdz: real)
    requires Shaped(m, cdx, cdy) && dx >= 1 && dy >= 1
  {
    if x + dx > cdx || y + dy > cdy then false
    else if x < 0 || y < 0 then false
    else if SupportedCorners(m[x][y], m[x + dx - 1][y], m[x][y + dy - 1], m[x + dx - 1][y + dy - 1]) < MinSupportedCorners then false
    else HRectMax(m, x, x + dx, y, y + dy) + dz <= cdz
  }

  /** The placement check accepts exactly the in-bounds footprints with three
      supported corners whose every cell leaves room for dz below cdz. */
  lemma ValidPlacementOnMeaning(m: Heights, x: int, y: int, dx: int, dy: int, dz: real,
                                cdx: int, cdy: int, cdz: real)
    requires Shaped(m, cdx, cdy) && dx >= 1 && dy >= 1
    ensures ValidPlacementOn(m, x, y, dx, dy, dz, cdx, cdy, cdz) <==>
      && 0 <= x && x + dx <= cdx && 0 <= y && y + dy <= cdy
      && SupportedCorners(m[x][y], m[x + dx - 1][y], m[x][y + dy - 1], m[x + dx - 1][y + dy - 1]) >= MinSupportedCorners
      && forall i, j :: x <= i < x + dx && y <= j < y + dy ==> m[i][j] + dz <= cdz
  {
    var x1, y1 := x + dx, y + dy;
    if 0 <= x && x1 <= cdx && 0 <= y && y1 <= cdy {
      HRectMaxIsMax(m, x, x1, y, y1);
      assert forall i, j :: x <= i < x1 && y <= j < y1 ==> InRect(i, j, x, x1, y, y1);
    }
  }

  /** check_valid_placement on the array: the bounds tests, the four corners
      of the footprint and np.max over it. */
  method CheckValidPlacement(hmap: array2<real>, x: int, y: int, dx: int, dy: int, dz: real,
                             cdx: int, cdy: int, cdz: real) returns (valid: bool)
    requires hmap.Length0 == cdx && hmap.Length1 == cdy && dx >= 1 && dy >= 1
    ensures valid == ValidPlacementOn(Snapshot(hmap), x, y, dx, dy, dz, cdx, cdy, cdz)
  {
    if x + dx > cdx || y + dy > cdy {
      return false;
    }
    if x < 0 || y < 0 {
      return false;
    }
    var supportedCorners := FootprintCorners(hmap, Size(dx, dy, 0), x, y);
    if supportedCorners < MinSupportedCorners {
      return false;
    }
    var maxH := RectMax(hmap, x, x + dx, y, y + dy);
    RectMaxSnapshot(hmap, x, x + dx, y, y + dy);
    return maxH + dz <= cdz;
  }

  /** cndn_1 .. cndn_4: the first orientation whose rotated extent fits the
      container from anchor a (0 none, 1 X<->Y, 2 X<->Z, 3 Y<->Z), or -1. */
  function Orientation(it: Item, a: Anchor, cx: int, cy: int, ch: real): int {
    if it.dx + a.x <= cx && it.dy + a.y <= cy && it.h + a.z <= ch then 0
    else if it.dy + a.x <= cx && it.dx + a.y <= cy && it.h + a.z <= ch then 1
    else if it.dz + a.x <= cx && it.dy + a.y <= cy && it.dx as real + a.z <= ch then 2
    else if it.dx + a.x <= cx && it.dz + a.y <= cy && it.dy as real + a.z <= ch then 3
    else -1
  }

  /** The orientation picked is one whose condition holds, and no earlier one holds. */
  lemma OrientationIsFirstFit(it: Item, a: Anchor, cx: int, cy: int, ch: real)
    ensures var r := Orientation(it, a, cx, cy, ch);
      && -1 <= r <= 3
      && (r == -1 <==> !Fits(it, a, cx, cy, ch, 0) && !Fits(it, a, cx, cy, ch, 1)
                        && !Fits(it, a, cx, cy, ch, 2) && !Fits(it, a, cx, cy, ch, 3))
      && (r >= 0 ==> Fits(it, a, cx, cy, ch, r) && forall k :: 0 <= k < r ==> !Fits(it, a, cx, cy, ch, k))
  {
  }

  /** The extent of the item rotated by `rot` (Size.Rotated) fits from anchor a,
      the height of the rotated item being h for 0 and 1, dx for 2 and dy for 3. */
  predicate Fits(it: Item, a: Anchor, cx: int, cy: int, ch: real, rot: int) {
    var s := Size(it.dx, it.dy, it.dz).Rotated(rot);
    var height := if rot == RotateXZ then it.dx as real else if rot == RotateYZ then it.dy as real else it.h;
    s.dx + a.x <= cx && s.dy + a.y <= cy && height + a.z <= ch
  }

  /** The three new anchors an accepted placement adds: front-left-bottom on
      top of the item, right-edge and far-edge at its base height. */
  datatype Corners = Corners(flb: Anchor, re: Anchor, fu: Anchor)

  function NewCorners(it: Item, p: Placement): Corners {
    var a := p.at;
    if p.rot == 0 then Corners(Anchor(a.x, a.y, it.h + a.z), Anchor(it.dx + a.x, a.y, a.z), Anchor(a.x, it.dy + a.y, a.z))
    else if p.rot == 1 then Corners(Anchor(a.x, a.y, it.h + a.z), Anchor(it.dy + a.x, a.y, a.z), Anchor(a.x, it.dx + a.y, a.z))
    else if p.rot == 2 then Corners(Anchor(a.x, a.y, it.l + a.z), Anchor(it.dz + a.x, a.y, a.z), Anchor(a.x, it.dy + a.y, a.z))
    else Corners(Anchor(a.x, a.y, it.w + a.z), Anchor(it.dx + a.x, a.y, a.z), Anchor(a.x, it.dz + a.y, a.z))
  }

  /** The three anchor lists after a sequence of placements. */
  datatype Frontier = Frontier(flb: seq<Anchor>, re: seq<Anchor>, fu: seq<Anchor>)

  function FrontierAfter(items: seq<Item>, ps: seq<Placement>): Frontier
    requires |items| == |ps|
  {
    if |ps| == 0 then Frontier([Anchor(0, 0, 0.0)], [], [])
    else
      var f := FrontierAfter(items[..|ps| - 1], ps[..|ps| - 1]);
      var c := NewCorners(items[|ps| - 1], ps[|ps| - 1]);
      Frontier(f.flb + [c.flb], f.re + [c.re], f.fu + [c.fu])
  }

  /** Each placement adds exactly one anchor to each of the three lists. */
  lemma {:induction false} FrontierSizes(items: seq<Item>, ps: seq<Placement>)
    requires |items| == |ps|
    ensures var f := FrontierAfter(items, ps); |f.flb| == |ps| + 1 && |f.re| == |ps| && |f.fu| == |ps|
  {
    if |ps| > 0 {
      FrontierSizes(items[..|ps| - 1], ps[..|ps| - 1]);
    }
  }

  /** The anchors of a list of placements (used_points). */
  function Used(ps: seq<Placement>): (u: seq<Anchor>)
    ensures |u| == |ps|
    ensures forall k :: 0 <= k < |ps| ==> u[k] == ps[k].at
  {
    if |ps| == 0 then [] else Used(ps[..|ps| - 1]) + [ps[|ps| - 1].at]
  }

  /** The anchors of s not in used, in order. */
  function Without(s: seq<Anchor>, used: seq<Anchor>): (r: seq<Anchor>)
    ensures forall a :: a in r <==> a in s && a !in used
  {
    if |s| == 0 then []
    else
      var rest := Without(s[..|s| - 1], used);
      var a := s[|s| - 1];
      if a in used then rest else rest + [a]
  }

  /** avbl_corners: right-edge, then far-edge, then front-left-bottom anchors,
      minus the used ones. */
  function Available(f: Frontier, used: seq<Anchor>): seq<Anchor> {
    Without(f.re + f.fu + f.flb, used)
  }

  /** What every completed run of the item loop satisfies: one placement per
      item, each at an unused frontier anchor, with the first orientation
      that fits. */
  ghost predicate ValidPlan(items: seq<Item>, ps: seq<Placement>, cx: int, cy: int, ch: real) {
    && |ps| == |items|
    && (forall i :: 0 <= i < |ps| ==> ps[i].rot == Orientation(items[i], ps[i].at, cx, cy, ch) && ps[i].rot >= 0)
    && (forall i :: 0 <= i < |ps| ==> ps[i].at in Available(FrontierAfter(items[..i], ps[..i]), Used(ps[..i])))
  }

  /** Placements of a valid plan never share an anchor. */
  lemma ValidPlanDistinct(items: seq<Item>, ps: seq<Placement>, cx: int, cy: int, ch: real)
    requires ValidPlan(items, ps, cx, cy, ch)
    ensures forall i, k :: 0 <= k < i < |ps| ==> ps[k].at != ps[i].at
  {
    forall i, k | 0 <= k < i < |ps|
      ensures ps[k].at != ps[i].at
    {
      var u := Used(ps[..i]);
      assert u[k] == ps[k].at;
      assert ps[i].at !in u;
    }
  }

  /** The test of the inner anchor loop: a placement is accepted at an anchor
      when the unrotated check passes on the current map and some orientation
      fits. */
  predicate MapAccepts(m: Heights, it: Item, a: Anchor, cx: int, cy: int, ch: real)
    requires Shaped(m, cx, cy) && ValidItem(it)
  {
    ValidPlacementOn(m, a.x, a.y, it.dx, it.dy, it.h, cx, cy, ch) && Orientation(it, a, cx, cy, ch) >= 0
  }

  /** The index of the first accepted anchor of avail, or -1. */
  function FirstFit(m: Heights, it: Item, avail: seq<Anchor>, cx: int, cy: int, ch: real): (k: int)
    requires Shaped(m, cx, cy) && ValidItem(it)
    ensures -1 <= k < |avail|
    ensures k >= 0 ==> MapAccepts(m, it, avail[k], cx, cy, ch)
    ensures forall j :: 0 <= j < |avail| && (k < 0 || j < k) ==> !MapAccepts(m, it, avail[j], cx, cy, ch)
    decreases |avail|
  {
    if |avail| == 0 then -1
    else if MapAccepts(m, it, avail[0], cx, cy, ch) then 0
    else
      var k := FirstFit(m, it, avail[1..], cx, cy, ch);
      if k < 0 then -1 else k + 1
  }

  /** Scans the available anchors in order and returns the index of the
      first accepted one, or -1. */
  method ChooseAnchor(hmap: array2<real>, it: Item, avail: seq<Anchor>, cx: int, cy: int, ch: real)
      returns (j: int)
    requires hmap.Length0 == cx && hmap.Length1 == cy && ValidItem(it)
    ensures j == FirstFit(Snapshot(hmap), it, avail, cx, cy, ch)
  {
    ghost var m := Snapshot(hmap);
    var k := 0;
    while k < |avail|
      invariant k <= |avail|
      invariant forall i :: 0 <= i < k ==> !MapAccepts(m, it, avail[i], cx, cy, ch)
    {
      var a := avail[k];
      var checkValid := CheckValidPlacement(hmap, a.x, a.y, it.dx, it.dy, it.h, cx, cy, ch);
      if checkValid && Orientation(it, a, cx, cy, ch) >= 0 {
        return k;
      }
      k := k + 1;
    }
    return -1;
  }

  /** np.zeros((rows, cols)) */
  function Zeros(rows: nat, cols: nat): (m: Heights)
    ensures Shaped(m, rows, cols)
    ensures forall i, j :: 0 <= i < rows && 0 <= j < cols ==> m[i][j] == 0.0
  {
    seq(rows, i => seq(cols, j => 0.0))
  }

  /** update_height_map on the value of a cx x cy map: rows [r0, r1) and
      columns [c0, c1), cut at the map's edges by numpy slicing, become the
      larger of their maximum and top. np.max of an empty slice raises. */
  function UpdatedMap(m: Heights, cx: nat, cy: nat, r0: nat, r1: int, c0: nat, c1: int, top: real): (r: Option<Heights>)
    requires Shaped(m, cx, cy)
    ensures r.Some? ==> Shaped(r.value, cx, cy)
  {
    var rEnd, cEnd := Min(r1, cx), Min(c1, cy);
    if r0 >= rEnd || c0 >= cEnd then None else Some(HStamp(m, r0, rEnd, c0, cEnd, top))
  }

  /** The rows [r0, r1), the columns [c0, c1) and the top height that the
      orientation branch of a placement passes to update_height_map: branch 1
      passes the anchor's y before its x, branch 2 the anchor height as first
      row and branch 3 as first column. */
  datatype StampArgs = StampArgs(r0: nat, r1: int, c0: nat, c1: int, top: real)

  function StampArgsOf(it: Item, p: Placement): StampArgs {
    var a := p.at;
    if p.rot == 0 then StampArgs(a.x, a.x + it.dx, a.y, a.y + it.dy, a.z + it.h)
    else if p.rot == 1 then StampArgs(a.y, a.y + it.dx, a.x, a.x + it.dy, a.z + it.h)
    else if p.rot == 2 then StampArgs(0, it.dz, a.y, a.y + it.dy, a.x as real + it.l)
    else StampArgs(a.x, a.x + it.dx, 0, it.dz, a.y as real + it.w)
  }

  /** Branches 2 and 3 slice with the anchor height, and a float index raises;
      the only integer anchor heights are the 0 of the first anchor and of the
      right and far anchors inherited from it. */
  predicate StampRaises(p: Placement) {
    p.rot != 0 && p.rot != 1 && p.at.z != 0.0
  }

  /** The stamp of the chosen orientation branch on a cx x cy map value. */
  function StampOf(m: Heights, cx: nat, cy: nat, it: Item, p: Placement): (r: Option<Heights>)
    requires Shaped(m, cx, cy)
    ensures r.Some? ==> Shaped(r.value, cx, cy)
  {
    var s := StampArgsOf(it, p);
    if StampRaises(p) then None else UpdatedMap(m, cx, cy, s.r0, s.r1, s.c0, s.c1, s.top)
  }

  /** One round of the item loop on map m: the first accepted available
      anchor with its first fitting orientation, and the stamped map; Failed
      when no anchor is accepted, Raised when the stamp raises. */
  function PlaceSpec(m: Heights, it: Item, f: Frontier, used: seq<Anchor>, cx: nat, cy: nat, ch: real)
      : (r: Attempt<(Heights, Placement)>)
    requires Shaped(m, cx, cy) && ValidItem(it)
    ensures r.Done? ==> Shaped(r.result.0, cx, cy)
  {
    var avail := Available(f, used);
    var k := FirstFit(m, it, avail, cx, cy, ch);
    if k < 0 then Failed
    else
      var p := Placement(avail[k], Orientation(it, avail[k], cx, cy, ch));
      match StampOf(m, cx, cy, it, p)
      case None => Raised
      case Some(m') => Done((m', p))
  }

  /** The height map and the placements after the first items of the loop;
      the frontier is FrontierAfter the placements. */
  datatype Progress = Progress(m: Heights, ps: seq<Placement>)

  /** The item loop of pack_in_single_container over its first n items,
      starting from a zero cx x cy map; it stops at the first item that finds
      no anchor. */
  function PlanPrefix(items: seq<Item>, n: nat, cx: nat, cy: nat, ch: real): (r: Attempt<Progress>)
    requires n <= |items| && ValidItems(items)
    ensures r.Done? ==> |r.result.ps| == n && Shaped(r.result.m, cx, cy)
    decreases n
  {
    if n == 0 then Done(Progress(Zeros(cx, cy), []))
    else
      match PlanPrefix(items, n - 1, cx, cy, ch)
      case Done(pg) =>
        (match PlaceSpec(pg.m, items[n - 1], FrontierAfter(items[..n - 1], pg.ps), Used(pg.ps), cx, cy, ch)
         case Done(step) => Done(Progress(step.0, pg.ps + [step.1]))
         case Failed => Failed
         case Raised => Raised)
      case Failed => Failed
      case Raised => Raised
  }

  /** The placements of the whole item loop. */
  function Plan(items: seq<Item>, cx: nat, cy: nat, ch: real): Attempt<seq<Placement>>
    requires ValidItems(items)
  {
    match PlanPrefix(items, |items|, cx, cy, ch)
    case Done(pg) => Done(pg.ps)
    case Failed => Failed
    case Raised => Raised
  }

  /** Once the loop has stopped, later items change nothing. */
  lemma {:induction false} PlanPrefixStops(items: seq<Item>, k: nat, n: nat, cx: nat, cy: nat, ch: real)
    requires k <= n <= |items| && ValidItems(items) && !PlanPrefix(items, k, cx, cy, ch).Done?
    ensures PlanPrefix(items, n, cx, cy, ch) == PlanPrefix(items, k, cx, cy, ch)
    decreases n
  {
    if n > k {
      PlanPrefixStops(items, k, n - 1, cx, cy, ch);
    }
  }

  /** Every prefix the loop completes is a valid plan of those items. */
  lemma {:induction false} PlanPrefixValid(items: seq<Item>, n: nat, cx: nat, cy: nat, ch: real)
    requires n <= |items| && ValidItems(items) && PlanPrefix(items, n, cx, cy, ch).Done?
    ensures ValidPlan(items[..n], PlanPrefix(items, n, cx, cy, ch).result.ps, cx, cy, ch)
    decreases n
  {
    if n > 0 {
      var pg := PlanPrefix(items, n - 1, cx, cy, ch).result;
      PlanPrefixValid(items, n - 1, cx, cy, ch);
      var f := FrontierAfter(items[..n - 1], pg.ps);
      var avail := Available(f, Used(pg.ps));
      var k := FirstFit(pg.m, items[n - 1], avail, cx, cy, ch);
      var p := Placement(avail[k], Orientation(items[n - 1], avail[k], cx, cy, ch));
      assert avail[k] in avail;
      PlaceStep(items, pg.ps, n - 1, p, f, cx, cy, ch);
    }
  }

  /** A completed item loop is a valid plan of all items. */
  lemma PlanValid(items: seq<Item>, cx: nat, cy: nat, ch: real)
    requires ValidItems(items) && Plan(items, cx, cy, ch).Done?
    ensures ValidPlan(items, Plan(items, cx, cy, ch).result, cx, cy, ch)
  {
    PlanPrefixValid(items, |items|, cx, cy, ch);
    assert items[..|items|] == items;
  }

  /** update_height_map on the array, with numpy slice clipping. */
  method UpdateHeightMap(hmap: array2<real>, r0: nat, r1: int, c0: nat, c1: int, top: real)
      returns (ok: bool)
    modifies hmap
    ensures var s := UpdatedMap(old(Snapshot(hmap)), hmap.Length0, hmap.Length1, r0, r1, c0, c1, top);
      && (ok <==> s.Some?) && (ok ==> Snapshot(hmap) == s.value)
    ensures !ok ==> unchanged(hmap)
    ensures forall i, j :: 0 <= i < hmap.Length0 && 0 <= j < hmap.Length1 ==> old(hmap[i, j]) <= hmap[i, j]
  {
    var rEnd, cEnd := Min(r1, hmap.Length0), Min(c1, hmap.Length1);
    if r0 >= rEnd || c0 >= cEnd {
      return false;
    }
    ghost var m := Snapshot(hmap);
    RectMaxSnapshot(hmap, r0, rEnd, c0, cEnd);
    StampFootprint(hmap, r0, rEnd, c0, cEnd, top);
    SnapshotEq(hmap, HStamp(m, r0, rEnd, c0, cEnd, top));
    return true;
  }

  /** The stamp of the chosen orientation branch on the array. */
  method StampPlacement(hmap: array2<real>, it: Item, p: Placement) returns (ok: bool)
    modifies hmap
    ensures var s := StampOf(old(Snapshot(hmap)), hmap.Length0, hmap.Length1, it, p);
      && (ok <==> s.Some?) && (ok ==> Snapshot(hmap) == s.value)
    ensures !ok ==> unchanged(hmap)
    ensures forall i, j :: 0 <= i < hmap.Length0 && 0 <= j < hmap.Length1 ==> old(hmap[i, j]) <= hmap[i, j]
  {
    if StampRaises(p) {
      return false;
    }
    var s := StampArgsOf(it, p);
    ok := UpdateHeightMap(hmap, s.r0, s.r1, s.c0, s.c1, s.top);
  }

  /** One iteration of the item loop: the first accepted available anchor,
      with its orientation, and the stamp of the height map. */
  method PlaceOne(hmap: array2<real>, it: Item, f: Frontier, used: seq<Anchor>, cx: nat, cy: nat, ch: real)
      returns (res: Attempt<Placement>)
    requires hmap.Length0 == cx && hmap.Length1 == cy && NonNegative(hmap) && ValidItem(it)
    modifies hmap
    ensures NonNegative(hmap)
    ensures var s := PlaceSpec(old(Snapshot(hmap)), it, f, used, cx, cy, ch);
      && (res.Failed? <==> s.Failed?) && (res.Raised? <==> s.Raised?)
      && (res.Done? ==> s.Done? && res.result == s.result.1 && Snapshot(hmap) == s.result.0)
    ensures !res.Done? ==> unchanged(hmap)
  {
    var avail := Available(f, used);
    var j := ChooseAnchor(hmap, it, avail, cx, cy, ch);
    if j < 0 {
      return Failed;
    }
    var a := avail[j];
    var p := Placement(a, Orientation(it, a, cx, cy, ch));
    var ok := StampPlacement(hmap, it, p);
    if !ok {
      return Raised;
    }
    return Done(p);
  }

  /** The item loop of pack_in_single_container over a zero height map of
      cx x cy cells. */
  method PlaceItems(items: seq<Item>, cx: nat, cy: nat, ch: real) returns (res: Attempt<seq<Placement>>)
    requires ValidItems(items)
    ensures res == Plan(items, cx, cy, ch)
    ensures res.Done? ==> ValidPlan(items, res.result, cx, cy, ch)
  {
    var hmap := new real[cx, cy]((i, j) => 0.0);
    SnapshotEq(hmap, Zeros(cx, cy));
    var flb: seq<Anchor>, re: seq<Anchor>, fu: seq<Anchor> := [Anchor(0, 0, 0.0)], [], [];
    var used: seq<Anchor> := [];
    var ps: seq<Placement> := [];
    var i := 0;
    while i < |items|
      invariant 0 <= i <= |items| && |ps| == i
      invariant Frontier(flb, re, fu) == FrontierAfter(items[..i], ps)
      invariant used == Used(ps)
      invariant hmap.Length0 == cx && hmap.Length1 == cy && NonNegative(hmap)
      invariant PlanPrefix(items, i, cx, cy, ch) == Done(Progress(Snapshot(hmap), ps))
    {
      var it := items[i];
      var step := PlaceOne(hmap, it, Frontier(flb, re, fu), used, cx, cy, ch);
      if !step.Done? {
        PlanPrefixStops(items, i + 1, |items|, cx, cy, ch);
        return if step.Failed? then Failed else Raised;
      }
      var p := step.result;
      var c := NewCorners(it, p);
      FrontierStep(items, ps, i, p);
      flb, re, fu := flb + [c.flb], re + [c.re], fu + [c.fu];
      used := used + [p.at];
      ps := ps + [p];
      i := i + 1;
    }
    PlanValid(items, cx, cy, ch);
    return Done(ps);
  }

  /** One accepted placement appends its corners to the frontier and its
      anchor to the used list. */
  lemma FrontierStep(items: seq<Item>, ps: seq<Placement>, i: int, p: Placement)
    requires 0 <= i < |items| && |ps| == i
    ensures var f := FrontierAfter(items[..i], ps); var c := NewCorners(items[i], p);
      FrontierAfter(items[..i + 1], ps + [p]) == Frontier(f.flb + [c.flb], f.re + [c.re], f.fu + [c.fu])
    ensures Used(ps + [p]) == Used(ps) + [p.at]
  {
    var items', ps' := items[..i + 1], ps + [p];
    assert items'[..i] == items[..i];
    assert ps'[..i] == ps;
  }

  /** One accepted placement keeps the plan valid on the longer prefix. */
  lemma PlaceStep(items: seq<Item>, ps: seq<Placement>, i: int, p: Placement, f: Frontier,
                  cx: int, cy: int, ch: real)
    requires 0 <= i < |items| && |ps| == i && f == FrontierAfter(items[..i], ps)
    requires ValidPlan(items[..i], ps, cx, cy, ch)
    requires p.rot == Orientation(items[i], p.at, cx, cy, ch) && p.rot >= 0
    requires p.at in Available(f, Used(ps))
    ensures ValidPlan(items[..i + 1], ps + [p], cx, cy, ch)
  {
    var items', ps' := items[..i + 1], ps + [p];
    assert items'[..i] == items[..i];
    assert ps'[..i] == ps;
  }

  /** The boxes are distinct objects. */
  predicate DistinctBoxes(boxes: seq<Box>) {
    forall i, j :: 0 <= i < j < |boxes| ==> boxes[i] != boxes[j]
  }

  /** What a packed box records: its container, its placement and its size
      after the orientation's axis swap. */
  ghost predicate Stamped(b: Box, p: Placement, oldDims: Size, cid: nat, cname: string, csize: (real, real, real))
    reads b
  {
    && b.packCntrId == cid && b.packCntrName == cname && b.packCntrSize == csize
    && b.x == p.at.x && b.y == p.at.y && b.z == p.at.z && b.packRot == p.rot
    && b.Dims() == oldDims.Rotated(p.rot)
  }

  /** The stamping loop of pack_in_single_container: box i gets container id,
      name and size, the i-th position and orientation, and its axis swap. */
  method StampBoxes(boxes: seq<Box>, ps: seq<Placement>, cid: nat, cname: string, csize: (real, real, real))
    requires |boxes| == |ps| && DistinctBoxes(boxes)
    modifies boxes
    ensures forall k :: 0 <= k < |boxes| ==> Stamped(boxes[k], ps[k], old(boxes[k].Dims()), cid, cname, csize)
    ensures forall k :: 0 <= k < |boxes| ==>
      boxes[k].wt == old(boxes[k].wt) && boxes[k].name == old(boxes[k].name) && boxes[k].parentGen == old(boxes[k].parentGen)
  {
    for i := 0 to |boxes|
      invariant forall k :: 0 <= k < i ==> Stamped(boxes[k], ps[k], old(boxes[k].Dims()), cid, cname, csize)
      invariant forall k :: 0 <= k < |boxes| ==>
        boxes[k].wt == old(boxes[k].wt) && boxes[k].name == old(boxes[k].name) && boxes[k].parentGen == old(boxes[k].parentGen)
      invariant forall k :: i <= k < |boxes| ==> boxes[k].Dims() == old(boxes[k].Dims())
    {
      StampBox(boxes[i], ps[i], cid, cname, csize);
    }
  }

  /** The body of the stamping loop for one box. */
  method StampBox(box: Box, p: Placement, cid: nat, cname: string, csize: (real, real, real))
    modifies box
    ensures Stamped(box, p, old(box.Dims()), cid, cname, csize)
    ensures box.wt == old(box.wt) && box.name == old(box.name) && box.parentGen == old(box.parentGen)
  {
    box.packCntrId, box.packCntrName, box.packCntrSize := cid, cname, csize;
    box.x, box.y, box.z := p.at.x, p.at.y, p.at.z;
    box.packRot := p.rot;
    box.Rotate(p.rot);
  }

  /** The packing record of one container: its name, catalog id and boxes. */
  datatype PackInfo = PackInfo(name: string, cid: nat, boxes: seq<Box>)

  /** pack_in_single_container: the outcome of the item loop on a zero map of
      the container's grid; on success every box records its placement,
      otherwise no box is modified. The statistics taken first raise on an
      empty item list. */
  method PackInSingleContainer(items: seq<Item>, boxes: seq<Box>, cid: nat, cname: string, cntr: Details)
      returns (r: Attempt<PackInfo>)
    requires ValidItems(items) && |boxes| == |items| && DistinctBoxes(boxes)
    requires cntr.X >= 0 && cntr.Y >= 0
    modifies boxes
    ensures |items| == 0 ==> r.Raised?
    ensures |items| > 0 ==> var s := Plan(items, cntr.X, cntr.Y, cntr.H);
      (r.Failed? <==> s.Failed?) && (r.Raised? <==> s.Raised?)
    ensures !r.Done? ==> forall k :: 0 <= k < |boxes| ==> unchanged(boxes[k])
    ensures r.Done? ==> r.result == PackInfo(cname, cid, boxes)
    ensures r.Done? ==> var s := Plan(items, cntr.X, cntr.Y, cntr.H);
      && s.Done? && ValidPlan(items, s.result, cntr.X, cntr.Y, cntr.H)
      && forall k :: 0 <= k < |boxes| ==>
           Stamped(boxes[k], s.result[k], old(boxes[k].Dims()), cid, cname, (cntr.L, cntr.W, cntr.H))
  {
    if |items| == 0 {
      return Raised;
    }
    var plan := PlaceItems(items, cntr.X, cntr.Y, cntr.H);
    if !plan.Done? {
      return if plan.Failed? then Failed else Raised;
    }
    var ps := plan.result;
    StampBoxes(boxes, ps, cid, cname, (cntr.L, cntr.W, cntr.H));
    return Done(PackInfo(cname, cid, boxes));
  }

  /** 0, 1, .., n - 1 */
  function Range(n: nat): (r: seq<nat>)
    ensures |r| == n && forall k :: 0 <= k < n ==> r[k] == k
  {
    if n == 0 then [] else Range(n - 1) + [n - 1]
  }

  /** The combined volume sum(dx * dy * h) of the items. */
  function SumItemVol(items: seq<Item>): real {
    if |items| == 0 then 0.0
    else SumItemVol(items[..|items| - 1]) + (items[|items| - 1].dx * items[|items| - 1].dy) as real * items[|items| - 1].h
  }

  /** The combined weight of the items. */
  function SumItemWt(items: seq<Item>): real {
    if |items| == 0 then 0.0 else SumItemWt(items[..|items| - 1]) + items[|items| - 1].wt
  }

  /** The catalog pre-filter: the container's volume and weight limits cover
      the combined volume and weight, and its L, W, H cover the largest dx, dy
      and h of the items. */
  predicate Suitable(d: Details, items: seq<Item>)
    requires |items| > 0
  {
    && SumItemVol(items) <= d.maxVol
    && SumItemWt(items) <= d.maxWeight
    && MaxInt(seq(|items|, k requires 0 <= k < |items| => items[k].dx)) as real <= d.L
    && MaxInt(seq(|items|, k requires 0 <= k < |items| => items[k].dy)) as real <= d.W
    && MaxReal(seq(|items|, k requires 0 <= k < |items| => items[k].h)) <= d.H
  }

  /** The suitable containers among ids, in the order of ids. */
  function SuitableIds(cat: seq<Details>, ids: seq<nat>, items: seq<Item>): (r: seq<nat>)
    requires IdsIn(cat, ids) && |items| > 0
    ensures IdsIn(cat, r)
    ensures forall x :: x in r <==> x in ids && Suitable(cat[x], items)
  {
    if |ids| == 0 then []
    else
      var rest := SuitableIds(cat, ids[..|ids| - 1], items);
      var c := ids[|ids| - 1];
      assert ids == ids[..|ids| - 1] + [c];
      if Suitable(cat[c], items) then rest + [c] else rest
  }

  /** Every catalog entry has a non-negative integer grid. */
  predicate CatalogGrids(cat: seq<Details>) {
    forall c :: 0 <= c < |cat| ==> cat[c].X >= 0 && cat[c].Y >= 0
  }

  /** The scan over the suitable containers from position k: the position of
      the first container whose item loop succeeds; the scan stops, raising,
      at the first one whose loop raises. */
  function FirstPackingFrom(cat: seq<Details>, ids: seq<nat>, items: seq<Item>, k: nat): (r: Attempt<nat>)
    requires ValidItems(items) && CatalogGrids(cat) && IdsIn(cat, ids) && k <= |ids|
    ensures r.Done? ==> k <= r.result < |ids| && Plan(items, cat[ids[r.result]].X, cat[ids[r.result]].Y, cat[ids[r.result]].H).Done?
    ensures forall j :: k <= j < |ids| && (r.Failed? || (r.Done? && j < r.result)) ==>
      Plan(items, cat[ids[j]].X, cat[ids[j]].Y, cat[ids[j]].H).Failed?
    decreases |ids| - k
  {
    if k == |ids| then Failed
    else
      match Plan(items, cat[ids[k]].X, cat[ids[k]].Y, cat[ids[k]].H)
      case Done(_) => Done(k)
      case Raised => Raised
      case Failed => FirstPackingFrom(cat, ids, items, k + 1)
  }

  /** What check_packing_single_container decides: the chosen catalog id, a
      failure, or a raise (on an empty item list, or from an item loop). The
      suitable containers are tried smallest max_vol first. */
  function SingleOutcome(cat: seq<Details>, items: seq<Item>): (r: Attempt<nat>)
    requires ValidItems(items) && CatalogGrids(cat)
    ensures |items| == 0 ==> r.Raised?
    ensures r.Done? ==> (|items| > 0 && r.result < |cat| && Suitable(cat[r.result], items)
                         && Plan(items, cat[r.result].X, cat[r.result].Y, cat[r.result].H).Done?)
  {
    if |items| == 0 then Raised
    else
      var ids := SuitableIds(cat, SortByVol(cat, Range(|cat|)), items);
      match FirstPackingFrom(cat, ids, items, 0)
      case Done(k) => assert ids[k] in ids; Done(ids[k])
      case Failed => Failed
      case Raised => Raised
  }

  /** A single-container failure means the item loop fails in every
      suitable container of the catalog. */
  lemma SingleOutcomeFailed(cat: seq<Details>, items: seq<Item>, c: nat)
    requires ValidItems(items) && CatalogGrids(cat) && SingleOutcome(cat, items).Failed?
    requires |items| > 0 && c < |cat| && Suitable(cat[c], items)
    ensures Plan(items, cat[c].X, cat[c].Y, cat[c].H).Failed?
  {
    var all := Range(|cat|);
    assert all[c] == c;
    var order := SortByVol(cat, all);
    assert c in order by {
      assert c in multiset(all);
    }
    var ids := SuitableIds(cat, order, items);
    assert c in ids;
    var j :| 0 <= j < |ids| && ids[j] == c;
    assert FirstPackingFrom(cat, ids, items, 0).Failed?;
  }

  /** check_packing_single_container: tries the suitable containers smallest
      max_vol first and returns the first that packs every item. */
  method CheckPackingSingleContainer(cat: seq<Details>, items: seq<Item>, boxes: seq<Box>)
      returns (r: Attempt<PackInfo>)
    requires ValidItems(items) && |boxes| == |items| && DistinctBoxes(boxes) && CatalogGrids(cat)
    modifies boxes
    ensures var s := SingleOutcome(cat, items);
      && (r.Done? <==> s.Done?) && (r.Raised? <==> s.Raised?)
      && (r.Done? ==> r.result.cid == s.result)
    ensures |items| == 0 ==> r.Raised?
    ensures |items| > 0 && (forall c :: 0 <= c < |cat| ==> !Suitable(cat[c], items)) ==> r.Failed?
    ensures !r.Done? ==> forall k :: 0 <= k < |boxes| ==> unchanged(boxes[k])
    ensures r.Done? ==> |items| > 0 && r.result.cid < |cat| && Suitable(cat[r.result.cid], items)
    ensures r.Done? ==> r.result.name == cat[r.result.cid].name + "(1)" && r.result.boxes == boxes
    ensures r.Done? ==> var d := cat[r.result.cid]; var s := Plan(items, d.X, d.Y, d.H);
      && s.Done? && ValidPlan(items, s.result, d.X, d.Y, d.H)
      && forall k :: 0 <= k < |boxes| ==>
           Stamped(boxes[k], s.result[k], old(boxes[k].Dims()), r.result.cid, r.result.name, (d.L, d.W, d.H))
  {
    if |items| == 0 {
      return Raised;
    }
    var order := SortByVol(cat, Range(|cat|));
    var suitable := SuitableIds(cat, order, items);
    var first := PackFirst(cat, items, boxes, suitable);
    if first.Done? {
      assert suitable[first.result.0] in suitable;
      return Done(first.result.1);
    }
    return if first.Failed? then Failed else Raised;
  }

  /** The for loop of check_packing_single_container: the first of the
      suitable containers, in order, whose packing succeeds; the index in
      suitable comes with the packing. */
  method PackFirst(cat: seq<Details>, items: seq<Item>, boxes: seq<Box>, suitable: seq<nat>)
      returns (r: Attempt<(nat, PackInfo)>)
    requires ValidItems(items) && |boxes| == |items| && DistinctBoxes(boxes) && CatalogGrids(cat)
    requires |items| > 0 && IdsIn(cat, suitable)
    modifies boxes
    ensures var s := FirstPackingFrom(cat, suitable, items, 0);
      && (r.Done? <==> s.Done?) && (r.Raised? <==> s.Raised?)
      && (r.Done? ==> r.result.0 == s.result)
    ensures !r.Done? ==> forall k :: 0 <= k < |boxes| ==> unchanged(boxes[k])
    ensures r.Done? ==> r.result.0 < |suitable| && var cid := suitable[r.result.0];
      && r.result.1.cid == cid && r.result.1.name == cat[cid].name + "(1)" && r.result.1.boxes == boxes
    ensures r.Done? ==> var d := cat[suitable[r.result.0]]; var s := Plan(items, d.X, d.Y, d.H);
      && s.Done? && ValidPlan(items, s.result, d.X, d.Y, d.H)
      && forall k :: 0 <= k < |boxes| ==>
           Stamped(boxes[k], s.result[k], old(boxes[k].Dims()), r.result.1.cid, r.result.1.name, (d.L, d.W, d.H))
  {
    for k := 0 to |suitable|
      invariant forall b :: 0 <= b < |boxes| ==> unchanged(boxes[b])
      invariant FirstPackingFrom(cat, suitable, items, k) == FirstPackingFrom(cat, suitable, items, 0)
    {
      var cid := suitable[k];
      assert cid in suitable;
      var name := cat[cid].name + "(1)";
      var p := PackInSingleContainer(items, boxes, cid, name, cat[cid]);
      if p.Done? {
        return Done((k, p.result));
      }
      if p.Raised? {
        return Raised;
      }
    }
    return Failed;
  }

  /** No id occurs twice. */
  predicate DistinctIds(s: seq<nat>) {
    forall i, j :: 0 <= i < j < |s| ==> s[i] != s[j]
  }

  predicate IdsBelow(ids: seq<nat>, n: int) {
    forall k :: 0 <= k < |ids| ==> ids[k] < n
  }

  /** The elements of s not in out, in order. */
  function Filter(s: seq<nat>, out: seq<nat>): (r: seq<nat>)
    ensures |r| <= |s|
    ensures forall x :: x in r <==> x in s && x !in out
    ensures DistinctIds(s) ==> DistinctIds(r)
  {
    if |s| == 0 then []
    else
      var rest := Filter(s[..|s| - 1], out);
      var x := s[|s| - 1];
      assert s == s[..|s| - 1] + [x];
      if x in out then rest else rest + [x]
  }

  /** The elements of s at the given positions, in order. */
  function Select<T>(s: seq<T>, ids: seq<nat>): (r: seq<T>)
    requires IdsBelow(ids, |s|)
    ensures |r| == |ids| && forall k :: 0 <= k < |ids| ==> r[k] == s[ids[k]]
  {
    seq(|ids|, k requires 0 <= k < |ids| => s[ids[k]])
  }

  /** The outcome of one pass of check_packing: the ids of the last prefix
      that packed, its packing, and the deferred ids. */
  datatype Pass = Pass(packed: seq<nat>, keep: Option<PackInfo>, cant: seq<nat>)

  /** The decisions of one pass, without the boxes: the ids of the last
      prefix that packed, its container id, and the deferred ids. */
  datatype Round = Round(packed: seq<nat>, cid: Option<nat>, cant: seq<nat>)

  function CidOf(keep: Option<PackInfo>): Option<nat> {
    if keep.Some? then Some(keep.value.cid) else None
  }

  /** check_packing_single_container as a decision on the ids of a
      selection of the order: the chosen catalog id, a failure or a raise. */
  function Decider(cat: seq<Details>, items: seq<Item>): seq<nat> -> Attempt<nat> {
    ids => if CatalogGrids(cat) && IdsBelow(ids, |items|) && ValidItems(Select(items, ids))
           then SingleOutcome(cat, Select(items, ids)) else Raised
  }

  /** decide agrees with check_packing_single_container on every selection
      of the order's ids. The methods of the partitioning loop are proved for
      any such decide, and check_packing passes Decider. */
  ghost predicate Decides(decide: seq<nat> -> Attempt<nat>, cat: seq<Details>, items: seq<Item>) {
    forall ids {:trigger Select(items, ids)} :: IdsBelow(ids, |items|) ==>
      decide(ids) == if CatalogGrids(cat) && ValidItems(Select(items, ids)) then SingleOutcome(cat, Select(items, ids)) else Raised
  }

  lemma DeciderDecides(cat: seq<Details>, items: seq<Item>)
    ensures Decides(Decider(cat, items), cat, items)
  {
  }

  /** The first i rounds of one pass over idsLeft, for a single-container
      decision decide: round i tries the i-th prefix minus the deferred ids,
      and a raise ends the pass. */
  function PassSpec(decide: seq<nat> -> Attempt<nat>, idsLeft: seq<nat>, i: nat): (r: Attempt<Round>)
    requires i <= |idsLeft|
    ensures !r.Failed?
    decreases i
  {
    if i == 0 then Done(Round([], None, []))
    else
      match PassSpec(decide, idsLeft, i - 1)
      case Done(rd) => RoundStep(decide, idsLeft, i, rd)
      case Failed => Failed
      case Raised => Raised
  }

  /** Round i of a pass whose earlier rounds ended in rd: a success keeps
      the ids tried, a failure defers the newest of them (ids[-1], which
      raises on an empty list). */
  function RoundStep(decide: seq<nat> -> Attempt<nat>, idsLeft: seq<nat>, i: nat, rd: Round): (r: Attempt<Round>)
    requires 0 < i <= |idsLeft|
    ensures !r.Failed?
  {
    var ids := Filter(idsLeft[..i], rd.cant);
    match decide(ids)
    case Done(c) => Done(Round(ids, Some(c), rd.cant))
    case Failed => if |ids| == 0 then Raised else Done(Round(rd.packed, rd.cid, rd.cant + [ids[|ids| - 1]]))
    case Raised => Raised
  }

  /** The bookkeeping a pass over distinct ids keeps after the rounds over a
      prefix: the kept part and the deferred ids split the prefix; no round
      kept means every id was deferred; a kept round records what decide
      chose for its ids. */
  ghost predicate RoundSplits(decide: seq<nat> -> Attempt<nat>, prefix: seq<nat>, rd: Round, n: nat) {
    && DistinctIds(rd.packed) && DistinctIds(rd.cant) && IdsBelow(rd.packed, n) && IdsBelow(rd.cant, n)
    && (forall x :: x in prefix <==> x in rd.packed || x in rd.cant)
    && (forall x :: !(x in rd.packed && x in rd.cant))
    && (rd.cid.None? ==> rd.cant == prefix && rd.packed == [])
    && (rd.cid.Some? ==> |rd.packed| > 0 && decide(rd.packed) == Done(rd.cid.value))
  }

  lemma RoundStepSplits(decide: seq<nat> -> Attempt<nat>, idsLeft: seq<nat>, i: nat, rd: Round, n: nat)
    requires DistinctIds(idsLeft) && IdsBelow(idsLeft, n) && 0 < i <= |idsLeft|
    requires RoundSplits(decide, idsLeft[..i - 1], rd, n)
    ensures var r := RoundStep(decide, idsLeft, i, rd);
      r.Done? ==> RoundSplits(decide, idsLeft[..i], r.result, n)
  {
    PassStep(idsLeft, i, rd.packed, rd.cant, rd.cid.None?, n);
  }

  lemma {:induction false} PassSpecSplits(decide: seq<nat> -> Attempt<nat>, idsLeft: seq<nat>, i: nat, n: nat)
    requires DistinctIds(idsLeft) && IdsBelow(idsLeft, n) && i <= |idsLeft|
    ensures var r := PassSpec(decide, idsLeft, i);
      r.Done? ==> RoundSplits(decide, idsLeft[..i], r.result, n)
    decreases i
  {
    if i > 0 {
      PassSpecSplits(decide, idsLeft, i - 1, n);
      var prev := PassSpec(decide, idsLeft, i - 1);
      if prev.Done? {
        RoundStepSplits(decide, idsLeft, i, prev.result, n);
      }
    }
  }

  /** A whole pass that completes splits its working ids. */
  lemma PassSplits(decide: seq<nat> -> Attempt<nat>, idsLeft: seq<nat>, n: nat)
    requires DistinctIds(idsLeft) && IdsBelow(idsLeft, n)
    ensures var r := PassSpec(decide, idsLeft, |idsLeft|);
      r.Done? ==> RoundSplits(decide, idsLeft, r.result, n)
  {
    PassSpecSplits(decide, idsLeft, |idsLeft|, n);
    assert idsLeft[..|idsLeft|] == idsLeft;
  }

  /** A raise ends the pass: later rounds change nothing. */
  lemma {:induction false} PassSpecStops(decide: seq<nat> -> Attempt<nat>, idsLeft: seq<nat>, k: nat, m: nat)
    requires k <= m <= |idsLeft|
    requires !PassSpec(decide, idsLeft, k).Done?
    ensures PassSpec(decide, idsLeft, m) == PassSpec(decide, idsLeft, k)
    decreases m
  {
    if m > k {
      PassSpecStops(decide, idsLeft, k, m - 1);
    }
  }

  /** One pass of the while loop of check_packing, over every prefix of the
      working ids. */
  method PackingPass(cat: seq<Details>, items: seq<Item>, boxes: seq<Box>, idsLeft: seq<nat>,
                     ghost decide: seq<nat> -> Attempt<nat>)
      returns (r: Attempt<Pass>)
    requires ValidItems(items) && |boxes| == |items| && DistinctBoxes(boxes) && CatalogGrids(cat)
    requires DistinctIds(idsLeft) && IdsBelow(idsLeft, |items|)
    requires Decides(decide, cat, items)
    modifies boxes
    ensures var s := PassSpec(decide, idsLeft, |idsLeft|);
      && (r.Raised? <==> s.Raised?) && (r.Done? <==> s.Done?)
      && (r.Done? ==> s.result == Round(r.result.packed, CidOf(r.result.keep), r.result.cant))
    ensures r.Done? && r.result.keep.Some? ==>
      IdsBelow(r.result.packed, |boxes|) && r.result.keep.value.boxes == Select(boxes, r.result.packed)
    ensures r.Done? ==> RoundSplits(decide, idsLeft, Round(r.result.packed, CidOf(r.result.keep), r.result.cant), |items|)
  {
    var packed: seq<nat> := [];
    var keep: Option<PackInfo> := None;
    var cant: seq<nat> := [];
    for i := 1 to |idsLeft| + 1
      invariant PassSpec(decide, idsLeft, i - 1) == Done(Round(packed, CidOf(keep), cant))
      invariant keep.Some? ==> IdsBelow(packed, |boxes|) && keep.value.boxes == Select(boxes, packed)
    {
      var step := PackingRound(cat, items, boxes, idsLeft, i, Pass(packed, keep, cant), decide);
      if !step.Done? {
        PassSpecStops(decide, idsLeft, i, |idsLeft|);
        return Raised;
      }
      packed, keep, cant := step.result.packed, step.result.keep, step.result.cant;
    }
    PassSplits(decide, idsLeft, |items|);
    return Done(Pass(packed, keep, cant));
  }

  /** The body of the prefix loop of check_packing: the i-th prefix minus the
      deferred ids is tried in a single container; a success keeps those ids
      and their packing, a failure defers the newest id. */
  method PackingRound(cat: seq<Details>, items: seq<Item>, boxes: seq<Box>, idsLeft: seq<nat>, i: nat, pass: Pass,
                      ghost decide: seq<nat> -> Attempt<nat>)
      returns (r: Attempt<Pass>)
    requires ValidItems(items) && |boxes| == |items| && DistinctBoxes(boxes) && CatalogGrids(cat)
    requires DistinctIds(idsLeft) && IdsBelow(idsLeft, |items|) && 0 < i <= |idsLeft|
    requires Decides(decide, cat, items)
    requires PassSpec(decide, idsLeft, i - 1) == Done(Round(pass.packed, CidOf(pass.keep), pass.cant))
    requires pass.keep.Some? ==> IdsBelow(pass.packed, |boxes|) && pass.keep.value.boxes == Select(boxes, pass.packed)
    modifies boxes
    ensures var s := PassSpec(decide, idsLeft, i);
      && (r.Done? <==> s.Done?)
      && (r.Done? ==> s.result == Round(r.result.packed, CidOf(r.result.keep), r.result.cant))
    ensures r.Done? && r.result.keep.Some? ==>
      IdsBelow(r.result.packed, |boxes|) && r.result.keep.value.boxes == Select(boxes, r.result.packed)
  {
    PassRound(decide, idsLeft, i, Round(pass.packed, CidOf(pass.keep), pass.cant), |items|);
    var ids := Filter(idsLeft[..i], pass.cant);
    var subItems, subBoxes := Select(items, ids), Select(boxes, ids);
    SelectedItemsValid(items, ids);
    SelectionValid(boxes, ids);
    var res := CheckPackingSingleContainer(cat, subItems, subBoxes);
    assert decide(ids) == SingleOutcome(cat, subItems);
    if res.Raised? {
      return Raised;
    }
    if res.Done? {
      return Done(Pass(ids, Some(res.result), pass.cant));
    }
    return Done(Pass(pass.packed, pass.keep, pass.cant + [ids[|ids| - 1]]));
  }

  /** Round i of a pass over distinct ids tries a non-empty selection of
      distinct ids in range, and extends the rounds before it by RoundStep. */
  lemma PassRound(decide: seq<nat> -> Attempt<nat>, idsLeft: seq<nat>, i: nat, rd: Round, n: nat)
    requires DistinctIds(idsLeft) && IdsBelow(idsLeft, n) && 0 < i <= |idsLeft|
    requires PassSpec(decide, idsLeft, i - 1) == Done(rd)
    ensures var ids := Filter(idsLeft[..i], rd.cant); DistinctIds(ids) && IdsBelow(ids, n) && |ids| > 0
    ensures PassSpec(decide, idsLeft, i) == RoundStep(decide, idsLeft, i, rd)
  {
    PassSpecSplits(decide, idsLeft, i - 1, n);
    PassStep(idsLeft, i, rd.packed, rd.cant, rd.cid.None?, n);
  }

  /** The i-th prefix minus the deferred ids ends with the prefix's newest id. */
  lemma PrefixStep(idsLeft: seq<nat>, i: int, cant: seq<nat>)
    requires DistinctIds(idsLeft) && 1 <= i <= |idsLeft|
    requires forall x :: x in cant ==> x in idsLeft[..i - 1]
    ensures Filter(idsLeft[..i], cant) == Filter(idsLeft[..i - 1], cant) + [idsLeft[i - 1]]
    ensures idsLeft[i - 1] !in cant && idsLeft[i - 1] !in idsLeft[..i - 1]
    ensures forall x :: x in idsLeft[..i] <==> x in idsLeft[..i - 1] || x == idsLeft[i - 1]
  {
    assert idsLeft[..i][..i - 1] == idsLeft[..i - 1];
    assert idsLeft[..i] == idsLeft[..i - 1] + [idsLeft[i - 1]];
  }

  /** One round of the packing pass keeps the loop's bookkeeping: whether
      the round packs all of ids or moves the newest id to cant. */
  lemma PassStep(idsLeft: seq<nat>, i: int, packed: seq<nat>, cant: seq<nat>, none: bool, n: int)
    requires DistinctIds(idsLeft) && IdsBelow(idsLeft, n) && 1 <= i <= |idsLeft|
    requires DistinctIds(packed) && DistinctIds(cant)
    requires forall x :: x in idsLeft[..i - 1] <==> x in packed || x in cant
    requires forall x :: !(x in packed && x in cant)
    requires none ==> cant == idsLeft[..i - 1] && packed == []
    requires IdsBelow(packed, n) && IdsBelow(cant, n)
    ensures var ids := Filter(idsLeft[..i], cant);
      && DistinctIds(ids) && IdsBelow(ids, n) && |ids| > 0 && ids[|ids| - 1] == idsLeft[i - 1]
      && (forall x :: x in idsLeft[..i] <==> x in ids || x in cant)
      && (forall x :: !(x in ids && x in cant))
    ensures var c := cant + [idsLeft[i - 1]];
      && DistinctIds(c) && IdsBelow(c, n)
      && (forall x :: x in idsLeft[..i] <==> x in packed || x in c)
      && (forall x :: !(x in packed && x in c))
      && (none ==> c == idsLeft[..i])
  {
    PassStepIds(idsLeft, i, cant, n);
    PassStepCant(idsLeft, i, packed, cant, n);
    if none {
      assert idsLeft[..i] == idsLeft[..i - 1] + [idsLeft[i - 1]];
    }
  }

  /** The ids a round tries: distinct, below n, ending in the newest id. */
  lemma PassStepIds(idsLeft: seq<nat>, i: int, cant: seq<nat>, n: int)
    requires DistinctIds(idsLeft) && IdsBelow(idsLeft, n) && 1 <= i <= |idsLeft|
    requires forall x :: x in cant ==> x in idsLeft[..i - 1]
    ensures var ids := Filter(idsLeft[..i], cant);
      && DistinctIds(ids) && IdsBelow(ids, n) && |ids| > 0 && ids[|ids| - 1] == idsLeft[i - 1]
  {
    var ids := Filter(idsLeft[..i], cant);
    PrefixStep(idsLeft, i, cant);
    IdsBelowSub(ids, idsLeft, n);
  }

  /** Deferring the newest id keeps the prefix split between packed and cant. */
  lemma PassStepCant(idsLeft: seq<nat>, i: int, packed: seq<nat>, cant: seq<nat>, n: int)
    requires DistinctIds(idsLeft) && IdsBelow(idsLeft, n) && 1 <= i <= |idsLeft|
    requires DistinctIds(cant)
    requires forall x :: x in idsLeft[..i - 1] <==> x in packed || x in cant
    requires forall x :: !(x in packed && x in cant)
    ensures var c := cant + [idsLeft[i - 1]];
      && DistinctIds(c) && IdsBelow(c, n)
      && (forall x :: x in idsLeft[..i] <==> x in packed || x in c)
      && (forall x :: !(x in packed && x in c))
  {
    PrefixStep(idsLeft, i, cant);
    var c := cant + [idsLeft[i - 1]];
    IdsBelowSub(c, idsLeft, n);
  }

  lemma IdsBelowSub(a: seq<nat>, b: seq<nat>, n: int)
    requires IdsBelow(b, n) && forall x :: x in a ==> x in b
    ensures IdsBelow(a, n)
  {
    forall k | 0 <= k < |a|
      ensures a[k] < n
    {
      assert a[k] in b;
    }
  }

  /** A selection of valid items is valid. */
  lemma SelectedItemsValid(items: seq<Item>, ids: seq<nat>)
    requires ValidItems(items) && IdsBelow(ids, |items|)
    ensures ValidItems(Select(items, ids))
  {
  }

  /** A selection by distinct ids picks distinct boxes of the order. */
  lemma SelectionValid(boxes: seq<Box>, ids: seq<nat>)
    requires DistinctBoxes(boxes) && DistinctIds(ids) && IdsBelow(ids, |boxes|)
    ensures DistinctBoxes(Select(boxes, ids))
    ensures forall b :: b in Select(boxes, ids) ==> b in boxes
  {
    var sb := Select(boxes, ids);
    forall b | b in sb
      ensures b in boxes
    {
      var k :| 0 <= k < |sb| && sb[k] == b;
      assert boxes[ids[k]] == b;
    }
  }

  /** One entry of items_partition_info. */
  datatype Part = Part(ids: seq<nat>, info: Option<PackInfo>)

  /** What check_packing returns on success: the used container ids and the
      renamed container names, in order, the packing stored under each name,
      and the partition it kept. */
  datatype Packing = Packing(containerIds: seq<nat>, names: seq<string>, infos: seq<PackInfo>, parts: seq<Part>)

  /** All ids of the parts. */
  function PartIds(parts: seq<Part>): set<nat> {
    if |parts| == 0 then {} else PartIds(parts[..|parts| - 1]) + ToSet(parts[|parts| - 1].ids)
  }

  /** An id is in the parts exactly when one of them holds it. */
  lemma {:induction false} PartIdsMeaning(parts: seq<Part>, x: nat)
    ensures x in PartIds(parts) <==> exists k :: 0 <= k < |parts| && x in parts[k].ids
    decreases |parts|
  {
    if |parts| > 0 {
      var init := parts[..|parts| - 1];
      PartIdsMeaning(init, x);
      if x in PartIds(init) {
        var k :| 0 <= k < |init| && x in init[k].ids;
        assert parts[k] == init[k];
      }
      if exists k :: 0 <= k < |parts| && x in parts[k].ids {
        var k :| 0 <= k < |parts| && x in parts[k].ids;
        if k < |init| {
          assert init[k] == parts[k];
        }
      }
    }
  }

  /** No id is in two parts. */
  ghost predicate PartsDisjoint(parts: seq<Part>) {
    forall i, j, x :: 0 <= i < j < |parts| && x in parts[i].ids ==> x !in parts[j].ids
  }

  /** The passes of check_packing's while loop from the working ids idsLeft:
      a pass that defers every id ends in "can't be packed"; otherwise the
      next pass works on the deferred ids, until none is left. */
  function Passes(decide: seq<nat> -> Attempt<nat>, idsLeft: seq<nat>, n: nat): Attempt<seq<Round>>
    requires DistinctIds(idsLeft) && IdsBelow(idsLeft, n)
    decreases |idsLeft|
  {
    if |idsLeft| == 0 then Done([])
    else
      match PassSpec(decide, idsLeft, |idsLeft|)
      case Done(rd) =>
        PassSpecSplits(decide, idsLeft, |idsLeft|, n);
        assert idsLeft[..|idsLeft|] == idsLeft;
        if |rd.cant| == |idsLeft| then Failed
        else
          CantShorter(idsLeft, rd.packed, rd.cant);
          Prepend([rd], Passes(decide, rd.cant, n))
      case Failed => Failed
      case Raised => Raised
  }

  function Prepend(done: seq<Round>, a: Attempt<seq<Round>>): Attempt<seq<Round>> {
    match a
    case Done(rest) => Done(done + rest)
    case Failed => Failed
    case Raised => Raised
  }

  /** The rounds split the ids: every id is packed by exactly one round. */
  ghost predicate Splits(rds: seq<Round>, ids: seq<nat>, n: nat) {
    && (forall x :: x in ids <==> exists k :: 0 <= k < |rds| && x in rds[k].packed)
    && (forall i, j, x :: 0 <= i < j < |rds| && x in rds[i].packed ==> x !in rds[j].packed)
    && (forall k :: 0 <= k < |rds| ==> IdsBelow(rds[k].packed, n))
  }

  /** Every round kept the container decide chose for its part. */
  ghost predicate Kept(decide: seq<nat> -> Attempt<nat>, rds: seq<Round>) {
    forall k :: 0 <= k < |rds| ==> rds[k].cid.Some? && decide(rds[k].packed) == Done(rds[k].cid.value)
  }

  /** A run of passes that completes splits the working ids into the parts
      of its rounds, and every round keeps the container decide chose for
      its part. */
  lemma {:induction false} PassesPartition(decide: seq<nat> -> Attempt<nat>, idsLeft: seq<nat>, n: nat)
    requires DistinctIds(idsLeft) && IdsBelow(idsLeft, n) && Passes(decide, idsLeft, n).Done?
    ensures Splits(Passes(decide, idsLeft, n).result, idsLeft, n)
    ensures Kept(decide, Passes(decide, idsLeft, n).result)
    decreases |idsLeft|
  {
    if |idsLeft| > 0 {
      PassesUnfold(decide, idsLeft, n);
      var s := PassSpec(decide, idsLeft, |idsLeft|);
      assert s.Done? && |s.result.cant| != |idsLeft|;
      var rd := s.result;
      PassSpecSplits(decide, idsLeft, |idsLeft|, n);
      assert idsLeft[..|idsLeft|] == idsLeft;
      CantShorter(idsLeft, rd.packed, rd.cant);
      var tail := Passes(decide, rd.cant, n);
      assert Passes(decide, idsLeft, n) == Prepend([rd], tail);
      PassesPartition(decide, rd.cant, n);
      SplitsCons(rd, tail.result, idsLeft, n);
      KeptCons(decide, rd, tail.result);
    }
  }

  lemma SplitsCons(rd: Round, rest: seq<Round>, ids: seq<nat>, n: nat)
    requires forall x :: x in ids <==> x in rd.packed || x in rd.cant
    requires forall x :: !(x in rd.packed && x in rd.cant)
    requires IdsBelow(rd.packed, n) && Splits(rest, rd.cant, n)
    ensures Splits([rd] + rest, ids, n)
  {
    var rds := [rd] + rest;
    forall x
      ensures x in ids <==> exists k :: 0 <= k < |rds| && x in rds[k].packed
    {
      if x in ids {
        if x in rd.packed {
          assert rds[0] == rd;
        } else {
          var k :| 0 <= k < |rest| && x in rest[k].packed;
          assert rds[k + 1] == rest[k];
        }
      }
      if exists k :: 0 <= k < |rds| && x in rds[k].packed {
        var k :| 0 <= k < |rds| && x in rds[k].packed;
        if k > 0 {
          assert rds[k] == rest[k - 1];
        }
      }
    }
    forall i, j, x | 0 <= i < j < |rds| && x in rds[i].packed
      ensures x !in rds[j].packed
    {
      assert rds[j] == rest[j - 1];
      if i > 0 {
        assert rds[i] == rest[i - 1];
      }
    }
    forall k | 0 <= k < |rds|
      ensures IdsBelow(rds[k].packed, n)
    {
      if k > 0 {
        assert rds[k] == rest[k - 1];
      }
    }
  }

  lemma KeptCons(decide: seq<nat> -> Attempt<nat>, rd: Round, rest: seq<Round>)
    requires rd.cid.Some? && decide(rd.packed) == Done(rd.cid.value) && Kept(decide, rest)
    ensures Kept(decide, [rd] + rest)
  {
    var rds := [rd] + rest;
    forall k | 0 < k < |rds|
      ensures rds[k] == rest[k - 1]
    {
    }
  }

  /** The ids 0 .. n - 1 are distinct and below n. */
  lemma RangeIds(n: nat)
    ensures DistinctIds(Range(n)) && IdsBelow(Range(n), n)
  {
  }

  /** The passes of check_packing over the whole order, whose working ids
      start as list(range(len(items_info))). */
  function Partitioning(cat: seq<Details>, items: seq<Item>): Attempt<seq<Round>> {
    RangeIds(|items|);
    Passes(Decider(cat, items), Range(|items|), |items|)
  }

  /** The while loop of check_packing: packing passes over the ids still to
      pack until none is left; a pass that raises raises, and a pass that
      defers every id ends the loop in "can't be packed". The outcome and the
      parts are those of the passes; on success the parts split the order
      exactly and each carries its packing. */
  method PartitionItems(cat: seq<Details>, items: seq<Item>, boxes: seq<Box>, ghost decide: seq<nat> -> Attempt<nat>)
      returns (r: Attempt<seq<Part>>)
    requires ValidItems(items) && |boxes| == |items| && DistinctBoxes(boxes) && CatalogGrids(cat)
    requires Decides(decide, cat, items)
    modifies boxes
    ensures r.Done? ==> var parts := r.result;
      && (forall x: nat :: x in PartIds(parts) <==> x < |items|)
      && PartsDisjoint(parts)
      && (forall k :: 0 <= k < |parts| ==>
            && IdsBelow(parts[k].ids, |items|) && parts[k].info.Some?
            && parts[k].info.value.boxes == Select(boxes, parts[k].ids))
    ensures var s := Passes(decide, Range(|items|), |items|);
      && (r.Done? <==> s.Done?) && (r.Failed? <==> s.Failed?)
      && (r.Done? ==> |s.result| == |r.result| && forall k :: 0 <= k < |r.result| ==>
            r.result[k].ids == s.result[k].packed && CidOf(r.result[k].info) == s.result[k].cid)
  {
    var idsLeft := Range(|items|);
    var invalid := false;
    var parts: seq<Part> := [];
    ghost var done: seq<Round> := [];
    RangeIds(|items|);
    ghost var target := Passes(decide, Range(|items|), |items|);
    PrependNothing(target);
    while |idsLeft| > 0 && !invalid
      invariant PartitionSoFar(decide, boxes, |items|, target, done, parts, idsLeft, invalid)
      decreases |idsLeft|, if invalid then 0 else 1
    {
      var pass := PackingPass(cat, items, boxes, idsLeft, decide);
      if !pass.Done? {
        PassesAdvance(decide, target, done, idsLeft, |items|);
        return Raised;
      }
      var ps := pass.result;
      PartitionStep(decide, boxes, |items|, target, done, parts, idsLeft, ps);
      done := done + [PassSpec(decide, idsLeft, |idsLeft|).result];
      invalid := |ps.cant| == |idsLeft|;
      idsLeft := ps.cant;
      parts := parts + [Part(ps.packed, ps.keep)];
    }
    if |idsLeft| > 0 {
      return Failed;
    }
    PartitionEnd(decide, boxes, |items|, target, done, parts);
    return Done(parts);
  }

  /** The invariant of check_packing's while loop after the passes done so
      far: the parts kept so far are those of the rounds done, and the
      outcome still to come is that of the passes over idsLeft. */
  ghost predicate PartitionSoFar(decide: seq<nat> -> Attempt<nat>, boxes: seq<Box>, n: nat, target: Attempt<seq<Round>>,
                                 done: seq<Round>, parts: seq<Part>, idsLeft: seq<nat>, invalid: bool) {
    && DistinctIds(idsLeft) && IdsBelow(idsLeft, n)
    && PartsCarry(boxes, parts)
    && (invalid ==> |idsLeft| > 0 && target == Failed)
    && PartsMatch(parts, done)
    && (!invalid ==> target == Prepend(done, Passes(decide, idsLeft, n)))
  }

  /** Each kept packing holds the boxes of its part's ids. */
  ghost predicate PartsCarry(boxes: seq<Box>, parts: seq<Part>) {
    forall k :: 0 <= k < |parts| && parts[k].info.Some? ==>
      IdsBelow(parts[k].ids, |boxes|) && parts[k].info.value.boxes == Select(boxes, parts[k].ids)
  }

  /** The parts record the rounds' packed ids and containers. */
  ghost predicate PartsMatch(parts: seq<Part>, rds: seq<Round>) {
    |parts| == |rds| && forall k :: 0 <= k < |parts| ==> parts[k].ids == rds[k].packed && CidOf(parts[k].info) == rds[k].cid
  }

  lemma PartsSnoc(boxes: seq<Box>, parts: seq<Part>, rds: seq<Round>, p: Part, rd: Round)
    requires PartsCarry(boxes, parts) && PartsMatch(parts, rds)
    requires p.info.Some? ==> IdsBelow(p.ids, |boxes|) && p.info.value.boxes == Select(boxes, p.ids)
    requires p.ids == rd.packed && CidOf(p.info) == rd.cid
    ensures PartsCarry(boxes, parts + [p]) && PartsMatch(parts + [p], rds + [rd])
  {
    var parts', rds' := parts + [p], rds + [rd];
    assert forall k :: 0 <= k < |parts| ==> parts'[k] == parts[k] && rds'[k] == rds[k];
  }

  /** One pass of the loop that completes keeps the invariant, and a pass
      that defers fewer ids than it started with shortens the working list. */
  lemma PartitionStep(decide: seq<nat> -> Attempt<nat>, boxes: seq<Box>, n: nat, target: Attempt<seq<Round>>,
                      done: seq<Round>, parts: seq<Part>, idsLeft: seq<nat>, ps: Pass)
    requires |boxes| == n
    requires PartitionSoFar(decide, boxes, n, target, done, parts, idsLeft, false) && |idsLeft| > 0
    requires PassSpec(decide, idsLeft, |idsLeft|) == Done(Round(ps.packed, CidOf(ps.keep), ps.cant))
    requires RoundSplits(decide, idsLeft, Round(ps.packed, CidOf(ps.keep), ps.cant), n)
    requires ps.keep.Some? ==> ps.keep.value.boxes == Select(boxes, ps.packed)
    ensures PartitionSoFar(decide, boxes, n, target, done + [PassSpec(decide, idsLeft, |idsLeft|).result],
                           parts + [Part(ps.packed, ps.keep)], ps.cant, |ps.cant| == |idsLeft|)
    ensures |ps.cant| != |idsLeft| ==> |ps.cant| < |idsLeft|
  {
    var rd := Round(ps.packed, CidOf(ps.keep), ps.cant);
    PassesAdvance(decide, target, done, idsLeft, n);
    PartsSnoc(boxes, parts, done, Part(ps.packed, ps.keep), rd);
    if |ps.cant| != |idsLeft| {
      CantShorter(idsLeft, ps.packed, ps.cant);
    }
  }

  /** When no id is left the rounds done are the whole outcome, and the
      parts split the order. */
  lemma PartitionEnd(decide: seq<nat> -> Attempt<nat>, boxes: seq<Box>, n: nat, target: Attempt<seq<Round>>,
                     done: seq<Round>, parts: seq<Part>)
    requires |boxes| == n
    requires PartitionSoFar(decide, boxes, n, target, done, parts, [], false)
    requires target == Passes(decide, Range(n), n)
    ensures target == Done(done)
    ensures forall x: nat :: x in PartIds(parts) <==> x < n
    ensures PartsDisjoint(parts)
    ensures forall k :: 0 <= k < |parts| ==>
      && IdsBelow(parts[k].ids, n) && parts[k].info.Some?
      && parts[k].info.value.boxes == Select(boxes, parts[k].ids)
  {
    assert done + [] == done;
    RangeIds(n);
    PassesPartition(decide, Range(n), n);
    PartsOfRounds(decide, parts, done, n);
  }

  /** The while loop of check_packing with the decisions of
      check_packing_single_container: its outcome is Partitioning's. */
  method PartitionOrder(cat: seq<Details>, items: seq<Item>, boxes: seq<Box>) returns (r: Attempt<seq<Part>>)
    requires ValidItems(items) && |boxes| == |items| && DistinctBoxes(boxes) && CatalogGrids(cat)
    modifies boxes
    ensures r.Done? ==> var parts := r.result;
      && (forall x: nat :: x in PartIds(parts) <==> x < |items|)
      && PartsDisjoint(parts)
      && (forall k :: 0 <= k < |parts| ==>
            && IdsBelow(parts[k].ids, |items|) && parts[k].info.Some?
            && parts[k].info.value.boxes == Select(boxes, parts[k].ids))
    ensures var s := Partitioning(cat, items);
      && (r.Done? <==> s.Done?) && (r.Failed? <==> s.Failed?)
      && (r.Done? ==> |s.result| == |r.result| && forall k :: 0 <= k < |r.result| ==>
            r.result[k].ids == s.result[k].packed && CidOf(r.result[k].info) == s.result[k].cid)
  {
    DeciderDecides(cat, items);
    r := PartitionItems(cat, items, boxes, Decider(cat, items));
  }

  /** check_packing: the partition of the order into containers, then the
      renaming of the used containers with a per-type counter. */
  method CheckPacking(cat: seq<Details>, items: seq<Item>, boxes: seq<Box>) returns (r: Attempt<Packing>)
    requires ValidItems(items) && |boxes| == |items| && DistinctBoxes(boxes) && CatalogGrids(cat)
    modifies boxes
    ensures r.Done? ==> var pk := r.result;
      && |pk.infos| == |pk.parts| && |pk.names| == |pk.parts| && |pk.containerIds| == |pk.parts|
      && (forall x: nat :: x in PartIds(pk.parts) <==> x < |items|)
      && PartsDisjoint(pk.parts)
      && (forall k :: 0 <= k < |pk.parts| ==>
            && IdsBelow(pk.parts[k].ids, |items|)
            && pk.parts[k].info == Some(pk.infos[k])
            && pk.infos[k].boxes == Select(boxes, pk.parts[k].ids)
            && pk.containerIds[k] == pk.infos[k].cid
            && pk.names[k] == NumberedName(Bases(pk.infos), k))
    ensures var s := Partitioning(cat, items);
      && (r.Done? <==> s.Done?) && (r.Failed? <==> s.Failed?)
      && (r.Done? ==> |s.result| == |r.result.parts| && forall k :: 0 <= k < |r.result.parts| ==>
            r.result.parts[k].ids == s.result[k].packed && Some(r.result.containerIds[k]) == s.result[k].cid)
  {
    var partition := PartitionOrder(cat, items, boxes);
    if !partition.Done? {
      return if partition.Failed? then Failed else Raised;
    }
    var pk := NameParts(partition.result);
    return Done(pk);
  }

  /** The tail of check_packing: the containers of the parts, their ids and
      their numbered names. */
  method NameParts(parts: seq<Part>) returns (pk: Packing)
    requires forall k :: 0 <= k < |parts| ==> parts[k].info.Some?
    ensures pk.parts == parts
    ensures |pk.infos| == |parts| && |pk.names| == |parts| && |pk.containerIds| == |parts|
    ensures forall k :: 0 <= k < |parts| ==>
      && parts[k].info == Some(pk.infos[k]) && pk.containerIds[k] == pk.infos[k].cid
      && pk.names[k] == NumberedName(Bases(pk.infos), k)
  {
    var infos := seq(|parts|, k requires 0 <= k < |parts| => parts[k].info.value);
    var names := RenameContainers(infos);
    var cids := seq(|infos|, k requires 0 <= k < |infos| => infos[k].cid);
    pk := Packing(cids, names, infos, parts);
  }

  /** The parts recorded from a split of 0 .. n - 1 partition it. */
  lemma PartsOfRounds(decide: seq<nat> -> Attempt<nat>, parts: seq<Part>, rds: seq<Round>, n: nat)
    requires |parts| == |rds| && Splits(rds, Range(n), n)
    requires Kept(decide, rds)
    requires forall k :: 0 <= k < |parts| ==> parts[k].ids == rds[k].packed && CidOf(parts[k].info) == rds[k].cid
    ensures forall x: nat :: x in PartIds(parts) <==> x < n
    ensures PartsDisjoint(parts)
    ensures forall k :: 0 <= k < |parts| ==> IdsBelow(parts[k].ids, n) && parts[k].info.Some?
  {
    var all := Range(n);
    forall x: nat
      ensures x in PartIds(parts) <==> x < n
    {
      PartIdsMeaning(parts, x);
      if x < n {
        assert all[x] == x && all[x] in all;
        var k :| 0 <= k < |rds| && x in rds[k].packed;
        assert x in parts[k].ids;
      }
      if x in PartIds(parts) {
        var k :| 0 <= k < |parts| && x in parts[k].ids;
        assert x in rds[k].packed;
      }
    }
    forall i, j, x | 0 <= i < j < |parts| && x in parts[i].ids
      ensures x !in parts[j].ids
    {
      assert x in rds[i].packed;
    }
  }

  /** One unfolding of the passes from a non-empty working list. */
  lemma PassesUnfold(decide: seq<nat> -> Attempt<nat>, idsLeft: seq<nat>, n: nat)
    requires DistinctIds(idsLeft) && IdsBelow(idsLeft, n) && |idsLeft| > 0
    ensures var s := PassSpec(decide, idsLeft, |idsLeft|);
      && (!s.Done? ==> Passes(decide, idsLeft, n) == Raised)
      && (s.Done? && |s.result.cant| == |idsLeft| ==> Passes(decide, idsLeft, n) == Failed)
      && (s.Done? && |s.result.cant| != |idsLeft| ==>
            DistinctIds(s.result.cant) && IdsBelow(s.result.cant, n) &&
            Passes(decide, idsLeft, n) == Prepend([s.result], Passes(decide, s.result.cant, n)))
  {
    PassSpecSplits(decide, idsLeft, |idsLeft|, n);
  }

  /** The bookkeeping of one pass of check_packing's loop: the outcome still
      to come after the rounds done so far. */
  lemma PassesAdvance(decide: seq<nat> -> Attempt<nat>, target: Attempt<seq<Round>>, done: seq<Round>, idsLeft: seq<nat>, n: nat)
    requires DistinctIds(idsLeft) && IdsBelow(idsLeft, n) && |idsLeft| > 0
    requires target == Prepend(done, Passes(decide, idsLeft, n))
    ensures var s := PassSpec(decide, idsLeft, |idsLeft|);
      && (!s.Done? ==> target == Raised)
      && (s.Done? && |s.result.cant| == |idsLeft| ==> target == Failed)
      && (s.Done? && |s.result.cant| != |idsLeft| ==>
            DistinctIds(s.result.cant) && IdsBelow(s.result.cant, n) &&
            target == Prepend(done + [s.result], Passes(decide, s.result.cant, n)))
  {
    PassesUnfold(decide, idsLeft, n);
    var s := PassSpec(decide, idsLeft, |idsLeft|);
    if s.Done? && |s.result.cant| != |idsLeft| {
      PrependTwice(done, s.result, Passes(decide, s.result.cant, n));
    }
  }

  lemma PrependNothing(a: Attempt<seq<Round>>)
    ensures Prepend([], a) == a
  {
    if a.Done? {
      assert [] + a.result == a.result;
    }
  }

  lemma PrependTwice(done: seq<Round>, rd: Round, a: Attempt<seq<Round>>)
    ensures Prepend(done, Prepend([rd], a)) == Prepend(done + [rd], a)
  {
    if a.Done? {
      assert done + ([rd] + a.result) == done + [rd] + a.result;
    }
  }

  /** A pass that packed something defers fewer ids than it started with. */
  lemma CantShorter(idsLeft: seq<nat>, packed: seq<nat>, cant: seq<nat>)
    requires DistinctIds(cant) && |packed| > 0
    requires forall x :: x in idsLeft <==> x in packed || x in cant
    requires forall x :: !(x in packed && x in cant)
    ensures |cant| < |idsLeft|
  {
    assert packed[0] in idsLeft && packed[0] !in cant;
    DistinctSubsetShorter(cant, idsLeft, packed[0]);
  }

  /** A duplicate-free list whose elements all occur in t, which has another
      element as well, is shorter than t. */
  lemma DistinctSubsetShorter(s: seq<nat>, t: seq<nat>, extra: nat)
    requires DistinctIds(s) && (forall x :: x in s ==> x in t) && extra in t && extra !in s
    ensures |s| < |t|
  {
    var ss := ToSet(s);
    var ts := ToSet(t);
    DistinctCard(s);
    SetOfSeqCard(t);
    var rest := ts - ss;
    assert extra in rest;
    assert ts == ss + rest && ss * rest == {};
    assert |rest| >= 1;
  }

  /** The set of elements of a list. */
  function ToSet(s: seq<nat>): (r: set<nat>)
    ensures forall x :: x in r <==> x in s
  {
    if |s| == 0 then {} else ToSet(s[..|s| - 1]) + {s[|s| - 1]}
  }

  lemma {:induction false} DistinctCard(s: seq<nat>)
    requires DistinctIds(s)
    ensures |ToSet(s)| == |s|
  {
    if |s| > 0 {
      DistinctCard(s[..|s| - 1]);
      assert s[|s| - 1] !in ToSet(s[..|s| - 1]);
    }
  }

  lemma {:induction false} SetOfSeqCard(s: seq<nat>)
    ensures |ToSet(s)| <= |s|
  {
    if |s| > 0 {
      SetOfSeqCard(s[..|s| - 1]);
    }
  }

  /** container_name.split("(")[0] */
  function BaseName(s: string): (b: string)
    ensures b <= s && '(' !in b
    ensures |b| < |s| ==> s[|b|] == '('
  {
    if |s| == 0 || s[0] == '(' then "" else [s[0]] + BaseName(s[1..])
  }

  function Bases(infos: seq<PackInfo>): seq<string>
  {
    seq(|infos|, k requires 0 <= k < |infos| => BaseName(infos[k].name))
  }

  function DigitChar(d: nat): char
    requires d < 10
  {
    "0123456789"[d]
  }

  /** str(n) for a natural number. */
  function NatToString(n: nat): (r: string)
    ensures |r| >= 1 && '(' !in r
    ensures n >= 10 ==> |r| >= 2
    decreases n
  {
    if n < 10 then [DigitChar(n)] else NatToString(n / 10) + [DigitChar(n % 10)]
  }

  /** How many of the names equal b. */
  function CountOf(bases: seq<string>, b: string): nat {
    if |bases| == 0 then 0 else CountOf(bases[..|bases| - 1], b) + (if bases[|bases| - 1] == b then 1 else 0)
  }

  /** The k-th output name: the base name and, in parentheses, how many of the
      first k + 1 parts used that base. */
  function NumberedName(bases: seq<string>, k: nat): string
    requires k < |bases|
  {
    bases[k] + "(" + NatToString(CountOf(bases[..k + 1], bases[k])) + ")"
  }

  /** The renaming loop of check_packing over the cntrs counter dictionary. */
  method RenameContainers(infos: seq<PackInfo>) returns (names: seq<string>)
    ensures |names| == |infos|
    ensures forall k :: 0 <= k < |infos| ==> names[k] == NumberedName(Bases(infos), k)
  {
    var bases := Bases(infos);
    var cntrs: map<string, nat> := map[];
    names := [];
    for k := 0 to |infos|
      invariant |names| == k
      invariant Counted(cntrs, bases[..k])
      invariant forall j :: 0 <= j < k ==> names[j] == NumberedName(bases, j)
    {
      var cx := BaseName(infos[k].name);
      CountedStep(cntrs, bases, k);
      if cx !in cntrs {
        cntrs := cntrs[cx := 0];
      }
      cntrs := cntrs[cx := cntrs[cx] + 1];
      var name := cx + "(" + NatToString(cntrs[cx]) + ")";
      assert cx == bases[k] && name == NumberedName(bases, k);
      names := names + [name];
    }
  }

  /** cntrs holds, for each base name met in bs, how many times it was met. */
  ghost predicate Counted(cntrs: map<string, nat>, bs: seq<string>) {
    forall b :: (b in cntrs <==> CountOf(bs, b) > 0) && (b in cntrs ==> cntrs[b] == CountOf(bs, b))
  }

  /** Counting one more name: its counter goes up by one, from 0 when new. */
  lemma CountedStep(cntrs: map<string, nat>, bases: seq<string>, k: nat)
    requires k < |bases| && Counted(cntrs, bases[..k])
    ensures var c := (if bases[k] in cntrs then cntrs[bases[k]] else 0) + 1;
      && c == CountOf(bases[..k + 1], bases[k])
      && Counted(cntrs[bases[k] := c], bases[..k + 1])
  {
    assert bases[..k + 1][..k] == bases[..k];
  }

  lemma {:induction false} NatToStringInjective(a: nat, b: nat)
    requires NatToString(a) == NatToString(b)
    ensures a == b
    decreases a
  {
    var sa, sb := NatToString(a), NatToString(b);
    if a >= 10 && b >= 10 {
      assert sa[..|sa| - 1] == NatToString(a / 10);
      assert sb[..|sb| - 1] == NatToString(b / 10);
      NatToStringInjective(a / 10, b / 10);
      assert DigitChar(a % 10) == sa[|sa| - 1] == DigitChar(b % 10);
    }
  }

  lemma {:induction false} CountOfGrows(bases: seq<string>, i: nat, j: nat)
    requires i + 1 < j <= |bases| && bases[i] == bases[j - 1]
    ensures CountOf(bases[..i + 1], bases[i]) < CountOf(bases[..j], bases[i])
  {
    assert bases[..j][..j - 1] == bases[..j - 1];
    CountOfMonotone(bases, i + 1, j - 1, bases[i]);
  }

  lemma {:induction false} CountOfMonotone(bases: seq<string>, i: nat, j: nat, b: string)
    requires i <= j <= |bases|
    ensures CountOf(bases[..i], b) <= CountOf(bases[..j], b)
    decreases j
  {
    if i < j {
      assert bases[..j][..j - 1] == bases[..j - 1];
      CountOfMonotone(bases, i, j - 1, b);
    }
  }

  /** The renamed containers have pairwise distinct names, so no packing
      overwrites another in the result dictionary. */
  lemma NumberedNamesDistinct(infos: seq<PackInfo>, i: nat, j: nat)
    requires i < j < |infos|
    ensures NumberedName(Bases(infos), i) != NumberedName(Bases(infos), j)
  {
    var bs := Bases(infos);
    var ci, cj := CountOf(bs[..i + 1], bs[i]), CountOf(bs[..j + 1], bs[j]);
    if NumberedName(bs, i) == NumberedName(bs, j) {
      SplitNumbered(bs[i], NatToString(ci), bs[j], NatToString(cj));
      NatToStringInjective(ci, cj);
      CountOfGrows(bs, i, j + 1);
      assert false;
    }
  }

  /** A base name without '(' and its count can be read back off a
      numbered name. */
  lemma SplitNumbered(a: string, x: string, b: string, y: string)
    requires '(' !in a && '(' !in b && '(' !in x && '(' !in y
    requires a + "(" + x + ")" == b + "(" + y + ")"
    ensures a == b && x == y
  {
    var n := a + "(" + x + ")";
    assert n[|a|] == '(' && n[|b|] == '(';
    assert a == n[..|a|];
    assert x == n[|a| + 1..|n| - 1];
  }
}
