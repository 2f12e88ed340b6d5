/** The container catalog of containers_info.py and what is derived from it:
    per-entry sides sorted largest first, their integer truncations, the
    real volume, and the catalog-wide maxima and minima. */
module Catalog {
  import opened Geometry

  const UnitLwh: int := 1

  datatype Entry = Entry(name: string, maxWeight: real, length: real, width: real, height: real)

  /** ORIGINAL_CONTAINERS_INFO, keyed by position 0..17. */
  const OriginalContainersInfo: seq<Entry> := [
    Entry("BOX-012", 30.0, 12.0, 12.0, 12.0),
    Entry("BOX-014", 30.0, 5.5, 9.0, 12.0),
    Entry("BOX-018", 30.0, 7.5, 13.0, 18.0),
    Entry("BOX-024", 30.0, 9.75, 18.0, 24.0),
    Entry("BOX-028", 30.0, 16.0, 20.0, 28.0),
    Entry("BOX-075", 30.0, 15.0, 18.0, 24.0),
    Entry("BOX-32C", 30.0, 41.0, 24.0, 8.0),
    Entry("BOX-540", 30.0, 11.0, 13.0, 21.0),
    Entry("BOX-681", 30.0, 10.0, 20.0, 20.0),
    Entry("BOX-GOX", 30.0, 24.0, 14.0, 8.0),
    Entry("BOX-LRG", 30.0, 3.0, 13.0, 18.0),
    Entry("BOX-MED", 30.0, 3.0, 11.0, 16.0),
    Entry("BOX-SML", 30.0, 2.0, 11.0, 13.0),
    Entry("BOX-TUB", 10.0, 6.0, 6.0, 36.0),
    Entry("Box-GOH", 50.0, 48.0, 20.0, 24.0),
    Entry("ENV-001", 1.0, 7.25, 0.5, 12.0),
    Entry("ENV-005", 1.0, 10.5, 0.5, 15.0),
    Entry("ENV-007", 1.0, 14.25, 0.5, 20.0)
  ]

  /** One entry of CONTAINERS_CONFIG["container_details"]. */
  datatype Details = Details(name: string, maxWeight: real, maxVol: real,
                             L: real, W: real, H: real, X: int, Y: int, Z: int)

  datatype Config = Config(numContainers: nat, details: seq<Details>,
                           minX: int, maxX: int, minY: int, maxY: int, minZ: int, maxZ: int,
                           maxW: real, maxVol: real)

  /** r is (a, b, c) in one of the six orders. */
  predicate Permutes3(r: (real, real, real), a: real, b: real, c: real) {
    || r == (a, b, c) || r == (a, c, b) || r == (b, a, c)
    || r == (b, c, a) || r == (c, a, b) || r == (c, b, a)
  }

  /** Three reals, largest first. */
  function Sort3(a: real, b: real, c: real): (r: (real, real, real))
    ensures r.0 >= r.1 >= r.2
    ensures Permutes3(r, a, b, c)
  {
    if a >= b then
      if b >= c then (a, b, c) else if a >= c then (a, c, b) else (c, a, b)
    else
      if a >= c then (b, a, c) else if b >= c then (b, c, a) else (c, b, a)
  }

  /** Python's int() on a real: truncation toward zero. */
  function Trunc(v: real): int {
    if v >= 0.0 then v.Floor else -((-v).Floor)
  }

  /** The integer side of a real side (both branches of the source truncate). */
  function IntSide(v: real): int {
    if v >= 1.0 then Trunc(Trunc(v) as real / UnitLwh as real) else Trunc(v / UnitLwh as real)
  }

  function DeriveEntry(e: Entry): Details {
    var lwh := Sort3(e.length, e.width, e.height);
    var vol := e.length * e.width * e.height;
    var xyz := Size(IntSide(lwh.0), IntSide(lwh.1), IntSide(lwh.2)).SortedDesc();
    Details(e.name, e.maxWeight, vol, lwh.0, lwh.1, lwh.2, xyz.dx, xyz.dy, xyz.dz)
  }

  /** For an entry with non-negative sides: L >= W >= H is the entry's sorted
      real sides, max_vol is the product of the original sides, and the
      integer sides are the truncations of L, W, H, so X >= Y >= Z and each
      integer side is at most its real side. */
  lemma DeriveEntrySides(e: Entry)
    requires e.length >= 0.0 && e.width >= 0.0 && e.height >= 0.0
    ensures var d := DeriveEntry(e);
      && d.L >= d.W >= d.H
      && Permutes3((d.L, d.W, d.H), e.length, e.width, e.height)
      && d.X == d.L.Floor && d.Y == d.W.Floor && d.Z == d.H.Floor
      && d.X >= d.Y >= d.Z
      && d.X as real <= d.L && d.Y as real <= d.W && d.Z as real <= d.H
      && d.name == e.name && d.maxWeight == e.maxWeight
  {
    var lwh := Sort3(e.length, e.width, e.height);
    Sort3NonNegative(e.length, e.width, e.height);
    IntSideIsFloor(lwh.0);
    IntSideIsFloor(lwh.1);
    IntSideIsFloor(lwh.2);
    FloorMonotone(lwh.1, lwh.0);
    FloorMonotone(lwh.2, lwh.1);
  }

  lemma Sort3NonNegative(a: real, b: real, c: real)
    requires a >= 0.0 && b >= 0.0 && c >= 0.0
    ensures var r := Sort3(a, b, c); r.0 >= 0.0 && r.1 >= 0.0 && r.2 >= 0.0
  {
  }

  /** On a non-negative side both branches of the source come to the floor. */
  lemma IntSideIsFloor(v: real)
    requires v >= 0.0
    ensures IntSide(v) == v.Floor
  {
    assert UnitLwh as real == 1.0;
    if v >= 1.0 {
      var t := Trunc(v);
      assert t == v.Floor;
      assert t as real / 1.0 == t as real;
      assert (t as real).Floor == t;
    } else {
      assert v / 1.0 == v;
    }
  }

  lemma FloorMonotone(a: real, b: real)
    requires a <= b
    ensures a.Floor <= b.Floor
  {
  }

  /** Largest element of a non-empty list. */
  function MaxInt(s: seq<int>): (m: int)
    requires |s| > 0
    ensures forall i :: 0 <= i < |s| ==> s[i] <= m
    ensures exists i :: 0 <= i < |s| && s[i] == m
  {
    if |s| == 1 then s[0]
    else
      var r := MaxInt(s[..|s| - 1]);
      var last := s[|s| - 1];
      if r >= last then r else last
  }

  /** Smallest element of a non-empty list. */
  function MinInt(s: seq<int>): (m: int)
    requires |s| > 0
    ensures forall i :: 0 <= i < |s| ==> m <= s[i]
    ensures exists i :: 0 <= i < |s| && s[i] == m
  {
    if |s| == 1 then s[0]
    else
      var r := MinInt(s[..|s| - 1]);
      var last := s[|s| - 1];
      if r <= last then r else last
  }

  function MaxReal(s: seq<real>): (m: real)
    requires |s| > 0
    ensures forall i :: 0 <= i < |s| ==> s[i] <= m
    ensures exists i :: 0 <= i < |s| && s[i] == m
  {
    if |s| == 1 then s[0]
    else
      var r := MaxReal(s[..|s| - 1]);
      var last := s[|s| - 1];
      if r >= last then r else last
  }

  /** The derived details of a list of entries, in order. */
  function DeriveAll(info: seq<Entry>): (ds: seq<Details>)
    ensures |ds| == |info|
  {
    if |info| == 0 then [] else DeriveAll(info[..|info| - 1]) + [DeriveEntry(info[|info| - 1])]
  }

  lemma {:induction false} DeriveAllAt(info: seq<Entry>, k: int)
    requires 0 <= k < |info|
    ensures DeriveAll(info)[k] == DeriveEntry(info[k])
    decreases |info|
  {
    if k < |info| - 1 {
      DeriveAllAt(info[..|info| - 1], k);
    }
  }

  /** The integer and the real columns the catalog takes maxima over. */
  datatype IntField = FieldX | FieldY | FieldZ
  datatype RealField = FieldWeight | FieldVol

  function GetInt(d: Details, f: IntField): int {
    match f
    case FieldX => d.X
    case FieldY => d.Y
    case FieldZ => d.Z
  }

  function GetReal(d: Details, f: RealField): real {
    match f
    case FieldWeight => d.maxWeight
    case FieldVol => d.maxVol
  }

  /** One integer field of every entry of a list. */
  function Column(ds: seq<Details>, f: IntField): (c: seq<int>)
    ensures |c| == |ds|
  {
    if |ds| == 0 then [] else Column(ds[..|ds| - 1], f) + [GetInt(ds[|ds| - 1], f)]
  }

  function RealColumn(ds: seq<Details>, f: RealField): (c: seq<real>)
    ensures |c| == |ds|
  {
    if |ds| == 0 then [] else RealColumn(ds[..|ds| - 1], f) + [GetReal(ds[|ds| - 1], f)]
  }

  lemma ColumnSnoc(ds: seq<Details>, d: Details)
    ensures forall f :: Column(ds + [d], f) == Column(ds, f) + [GetInt(d, f)]
    ensures forall f :: RealColumn(ds + [d], f) == RealColumn(ds, f) + [GetReal(d, f)]
  {
    assert (ds + [d])[..|ds|] == ds;
  }

  lemma DeriveAllSnoc(info: seq<Entry>, k: int)
    requires 0 <= k < |info|
    ensures DeriveAll(info[..k + 1]) == DeriveAll(info[..k]) + [DeriveEntry(info[k])]
  {
    assert info[..k + 1][..k] == info[..k];
  }

  lemma {:induction false} ColumnAt(ds: seq<Details>, f: IntField, k: int)
    requires 0 <= k < |ds|
    ensures Column(ds, f)[k] == GetInt(ds[k], f)
    decreases |ds|
  {
    if k < |ds| - 1 {
      ColumnAt(ds[..|ds| - 1], f, k);
    }
  }

  lemma {:induction false} RealColumnAt(ds: seq<Details>, f: RealField, k: int)
    requires 0 <= k < |ds|
    ensures RealColumn(ds, f)[k] == GetReal(ds[k], f)
    decreases |ds|
  {
    if k < |ds| - 1 {
      RealColumnAt(ds[..|ds| - 1], f, k);
    }
  }

  lemma ColumnMaxMin(ds: seq<Details>, f: IntField)
    requires |ds| > 0
    ensures forall k :: 0 <= k < |ds| ==> MinInt(Column(ds, f)) <= GetInt(ds[k], f) <= MaxInt(Column(ds, f))
    ensures exists k :: 0 <= k < |ds| && GetInt(ds[k], f) == MaxInt(Column(ds, f))
    ensures exists k :: 0 <= k < |ds| && GetInt(ds[k], f) == MinInt(Column(ds, f))
  {
    var c := Column(ds, f);
    forall k | 0 <= k < |ds|
      ensures MinInt(c) <= GetInt(ds[k], f) <= MaxInt(c)
    {
      ColumnAt(ds, f, k);
    }
    var i :| 0 <= i < |c| && c[i] == MaxInt(c);
    ColumnAt(ds, f, i);
    var j :| 0 <= j < |c| && c[j] == MinInt(c);
    ColumnAt(ds, f, j);
  }

  lemma RealColumnMax(ds: seq<Details>, f: RealField)
    requires |ds| > 0
    ensures forall k :: 0 <= k < |ds| ==> GetReal(ds[k], f) <= MaxReal(RealColumn(ds, f))
    ensures exists k :: 0 <= k < |ds| && GetReal(ds[k], f) == MaxReal(RealColumn(ds, f))
  {
    var c := RealColumn(ds, f);
    forall k | 0 <= k < |ds|
      ensures GetReal(ds[k], f) <= MaxReal(c)
    {
      RealColumnAt(ds, f, k);
    }
    var i :| 0 <= i < |c| && c[i] == MaxReal(c);
    RealColumnAt(ds, f, i);
  }

  /** The per-entry loop: the details of each entry and the X, Y, Z, W and
      volume lists, in catalog order. */
  method DeriveLists(info: seq<Entry>)
      returns (details: seq<Details>, xs: seq<int>, ys: seq<int>, zs: seq<int>, ws: seq<real>, vs: seq<real>)
    ensures details == DeriveAll(info)
    ensures xs == Column(details, FieldX) && ys == Column(details, FieldY) && zs == Column(details, FieldZ)
    ensures ws == RealColumn(details, FieldWeight) && vs == RealColumn(details, FieldVol)
  {
    details, xs, ys, zs, ws, vs := [], [], [], [], [], [];
    for k := 0 to |info|
      invariant |details| == |xs| == |ys| == |zs| == |ws| == |vs| == k
      invariant details == DeriveAll(info[..k])
      invariant xs == Column(details, FieldX) && ys == Column(details, FieldY) && zs == Column(details, FieldZ)
      invariant ws == RealColumn(details, FieldWeight) && vs == RealColumn(details, FieldVol)
    {
      var d := DeriveEntry(info[k]);
      DeriveAllSnoc(info, k);
      ColumnSnoc(details, d);
      details := details + [d];
      xs, ys, zs := xs + [d.X], ys + [d.Y], zs + [d.Z];
      ws, vs := ws + [d.maxWeight], vs + [d.maxVol];
    }
    assert info[..|info|] == info;
  }

  /** The module-level derivation loop followed by the maxima and minima. */
  method DeriveCatalog(info: seq<Entry>) returns (cfg: Config)
    requires |info| > 0
    ensures cfg.numContainers == |info| && |cfg.details| == |info|
    ensures cfg.details == DeriveAll(info)
    ensures forall k :: 0 <= k < |info| ==>
      && cfg.minX <= cfg.details[k].X <= cfg.maxX
      && cfg.minY <= cfg.details[k].Y <= cfg.maxY
      && cfg.minZ <= cfg.details[k].Z <= cfg.maxZ
      && cfg.details[k].maxWeight <= cfg.maxW
      && cfg.details[k].maxVol <= cfg.maxVol
    ensures exists k :: 0 <= k < |info| && cfg.details[k].X == cfg.maxX
    ensures exists k :: 0 <= k < |info| && cfg.details[k].Y == cfg.maxY
    ensures exists k :: 0 <= k < |info| && cfg.details[k].Z == cfg.maxZ
    ensures exists k :: 0 <= k < |info| && cfg.details[k].X == cfg.minX
    ensures exists k :: 0 <= k < |info| && cfg.details[k].Y == cfg.minY
    ensures exists k :: 0 <= k < |info| && cfg.details[k].Z == cfg.minZ
    ensures exists k :: 0 <= k < |info| && cfg.details[k].maxWeight == cfg.maxW
    ensures exists k :: 0 <= k < |info| && cfg.details[k].maxVol == cfg.maxVol
  {
    var details, xs, ys, zs, ws, vs := DeriveLists(info);
    cfg := Config(|info|, details, MinInt(xs), MaxInt(xs), MinInt(ys), MaxInt(ys),
                  MinInt(zs), MaxInt(zs), MaxReal(ws), MaxReal(vs));
    ColumnMaxMin(details, FieldX);
    ColumnMaxMin(details, FieldY);
    ColumnMaxMin(details, FieldZ);
    RealColumnMax(details, FieldWeight);
    RealColumnMax(details, FieldVol);
    forall k | 0 <= k < |info|
      ensures && cfg.minX <= cfg.details[k].X <= cfg.maxX
              && cfg.minY <= cfg.details[k].Y <= cfg.maxY
              && cfg.minZ <= cfg.details[k].Z <= cfg.maxZ
              && cfg.details[k].maxWeight <= cfg.maxW
              && cfg.details[k].maxVol <= cfg.maxVol
    {
      var d := details[k];
      assert GetInt(d, FieldX) == d.X && GetInt(d, FieldY) == d.Y && GetInt(d, FieldZ) == d.Z;
      assert GetReal(d, FieldWeight) == d.maxWeight && GetReal(d, FieldVol) == d.maxVol;
    }
  }

  /** The catalog has 18 entries, all with non-negative sides. */
  lemma CatalogShape()
    ensures |OriginalContainersInfo| == 18
    ensures forall k :: 0 <= k < |OriginalContainersInfo| ==>
      var e := OriginalContainersInfo[k];
      e.length > 0.0 && e.width > 0.0 && e.height > 0.0 && e.maxWeight > 0.0
  {
  }

  /** The ids all index the catalog. */
  predicate IdsIn(cat: seq<Details>, ids: seq<nat>) {
    forall k :: 0 <= k < |ids| ==> ids[k] < |cat|
  }

  predicate AscendingByVol(cat: seq<Details>, ids: seq<nat>)
    requires IdsIn(cat, ids)
  {
    forall i, j :: 0 <= i < j < |ids| ==> cat[ids[i]].maxVol <= cat[ids[j]].maxVol
  }

  /** Inserts id after every element of the (ascending) list whose volume is
      not larger, which is where a stable sort puts a later element. */
  function InsertByVol(cat: seq<Details>, id: nat, s: seq<nat>): (r: seq<nat>)
    requires id < |cat| && IdsIn(cat, s)
    ensures IdsIn(cat, r) && |r| == |s| + 1
    ensures multiset(r) == multiset(s) + multiset{id}
  {
    if |s| == 0 then [id]
    else if cat[s[|s| - 1]].maxVol <= cat[id].maxVol then s + [id]
    else
      assert s == s[..|s| - 1] + [s[|s| - 1]];
      InsertByVol(cat, id, s[..|s| - 1]) + [s[|s| - 1]]
  }

  lemma {:induction false} InsertByVolAscending(cat: seq<Details>, id: nat, s: seq<nat>)
    requires id < |cat| && IdsIn(cat, s) && AscendingByVol(cat, s)
    ensures AscendingByVol(cat, InsertByVol(cat, id, s))
  {
    if |s| > 0 && cat[s[|s| - 1]].maxVol > cat[id].maxVol {
      var s', last := s[..|s| - 1], s[|s| - 1];
      InsertByVolAscending(cat, id, s');
      var ins := InsertByVol(cat, id, s');
      var r := ins + [last];
      forall k | 0 <= k < |ins|
        ensures cat[ins[k]].maxVol <= cat[last].maxVol
      {
        assert ins[k] in multiset(ins);
        if ins[k] != id {
          assert ins[k] in multiset(s');
          var m :| 0 <= m < |s'| && s'[m] == ins[k];
          assert s[m] == ins[k];
        }
      }
      assert r == InsertByVol(cat, id, s);
    }
  }

  /** list.sort(key=max_vol) over container ids: a stable insertion sort. */
  function SortByVol(cat: seq<Details>, ids: seq<nat>): (r: seq<nat>)
    requires IdsIn(cat, ids)
    ensures IdsIn(cat, r) && |r| == |ids|
    ensures multiset(r) == multiset(ids)
  {
    if |ids| == 0 then []
    else
      assert ids == ids[..|ids| - 1] + [ids[|ids| - 1]];
      InsertByVol(cat, ids[|ids| - 1], SortByVol(cat, ids[..|ids| - 1]))
  }

  /** The sorted ids are ascending by catalog volume. */
  lemma {:induction false} SortByVolAscending(cat: seq<Details>, ids: seq<nat>)
    requires IdsIn(cat, ids)
    ensures AscendingByVol(cat, SortByVol(cat, ids))
  {
    if |ids| > 0 {
      SortByVolAscending(cat, ids[..|ids| - 1]);
      InsertByVolAscending(cat, ids[|ids| - 1], SortByVol(cat, ids[..|ids| - 1]));
    }
  }
}
