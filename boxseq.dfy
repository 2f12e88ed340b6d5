/** Box-sequence utilities of pack_env/box_seq_generator.py: the queue reorder
    used by recovery, the box-list creator for a customer order, and the
    creator that recursively bisects a container into boxes. Randomness is a
    stream of raw draws given as a parameter. */
module BoxSeq {
  import opened Wrappers
  import opened Geometry
  import opened Catalog

  // ----- Python list operations -----

  /** list.pop(i): the removed element and the rest; None is an IndexError.
      A negative i counts from the end. */
  function Pop<T>(s: seq<T>, i: int): (r: Option<(T, seq<T>)>)
    ensures r.Some? <==> -|s| <= i < |s|
    ensures r.Some? ==> |r.value.1| == |s| - 1
    ensures r.Some? ==> multiset(r.value.1) + multiset{r.value.0} == multiset(s)
  {
    if -|s| <= i < |s| then
      var k := if i >= 0 then i else |s| + i;
      assert s == s[..k] + [s[k]] + s[k + 1..];
      Some((s[k], s[..k] + s[k + 1..]))
    else None
  }

  /** The index a slice bound c stands for in a list of length n. */
  function SliceBound(n: nat, c: int): (k: nat)
    ensures k <= n
  {
    if c < 0 then (if n + c < 0 then 0 else n + c) else if c > n then n else c
  }

  /** reset_list: pop current_id, then replace_id - 1, and put the two back
      at current_id with the replacement first. */
  function ResetList<T>(list: seq<T>, currentId: int, replaceId: int): Attempt<seq<T>> {
    match Pop(list, currentId)
    case None => Raised
    case Some((current, rest)) =>
      match Pop(rest, replaceId - 1)
      case None => Raised
      case Some((replace, rest2)) =>
        var k := SliceBound(|rest2|, currentId);
        Done(rest2[..k] + [replace, current] + rest2[k..])
  }

  /** What an aborted reset_list leaves in the list it popped from: the first
      pop takes place before the second one raises. */
  function AfterRaisedReset<T>(list: seq<T>, currentId: int): seq<T> {
    match Pop(list, currentId)
    case None => list
    case Some((_, rest)) => rest
  }

  /** reset_list raises exactly when one of its two pops is out of range, and
      otherwise returns a reordering of its input. */
  lemma ResetListOutcome<T>(list: seq<T>, currentId: int, replaceId: int)
    ensures !ResetList(list, currentId, replaceId).Failed?
    ensures ResetList(list, currentId, replaceId).Raised? <==>
      !(-|list| <= currentId < |list| && -(|list| - 1) <= replaceId - 1 < |list| - 1)
    ensures var r := ResetList(list, currentId, replaceId);
      r.Done? ==> |r.result| == |list| && multiset(r.result) == multiset(list)
  {
    var r := ResetList(list, currentId, replaceId);
    if r.Done? {
      var (current, rest) := Pop(list, currentId).value;
      var (replace, rest2) := Pop(rest, replaceId - 1).value;
      var k := SliceBound(|rest2|, currentId);
      assert rest2 == rest2[..k] + rest2[k..];
      calc {
        multiset(r.result);
        multiset(rest2[..k]) + multiset{replace, current} + multiset(rest2[k..]);
        multiset(rest2) + multiset{replace} + multiset{current};
        multiset(list);
      }
    }
  }

  /** The recovery use: for current_id < replace_id, the box at replace_id
      moves to current_id and everything between shifts back by one. */
  lemma ResetListForward<T>(list: seq<T>, c: int, r: int)
    requires 0 <= c < r < |list|
    ensures ResetList(list, c, r) == Done(list[..c] + [list[r], list[c]] + list[c + 1..r] + list[r + 1..])
  {
    var rest := list[..c] + list[c + 1..];
    assert Pop(list, c) == Some((list[c], rest));
    assert rest[r - 1] == list[r];
    var rest2 := rest[..r - 1] + rest[r..];
    assert Pop(rest, r - 1) == Some((list[r], rest2));
    assert rest2 == list[..c] + (list[c + 1..r] + list[r + 1..]);
    assert SliceBound(|rest2|, c) == c;
    assert rest2[..c] == list[..c];
    assert rest2[c..] == list[c + 1..r] + list[r + 1..];
    assert ResetList(list, c, r) == Done(rest2[..c] + [list[r], list[c]] + rest2[c..]);
    assert rest2[..c] + [list[r], list[c]] + rest2[c..]
        == list[..c] + [list[r], list[c]] + list[c + 1..r] + list[r + 1..];
  }

  // ----- sums over box lists -----

  lemma {:induction false} SumsConcat(a: seq<BoxRec>, b: seq<BoxRec>)
    ensures SumVol(a + b) == SumVol(a) + SumVol(b)
    ensures SumWt(a + b) == SumWt(a) + SumWt(b)
    decreases |b|
  {
    if |b| > 0 {
      var b' := b[..|b| - 1];
      assert (a + b)[..|a + b| - 1] == a + b';
      SumsConcat(a, b');
    } else {
      assert a + b == a;
    }
  }

  /** Removing one box takes exactly its volume off the total. */
  lemma SumVolRemove(b: seq<BoxRec>, k: int)
    requires 0 <= k < |b|
    ensures SumVol(b) == SumVol(b[..k] + b[k + 1..]) + b[k].Vol()
  {
    var pre, post, one := b[..k], b[k + 1..], [b[k]];
    assert b == pre + (one + post);
    SumsConcat(pre, one + post);
    SumsConcat(one, post);
    SumsConcat(pre, post);
    assert SumVol(one) == b[k].Vol() by {
      assert one[..0] == [];
    }
  }

  /** Taking the same element out of two equal multisets leaves them equal. */
  lemma MultisetRemove<T>(a: seq<T>, b: seq<T>, k: int)
    requires 0 <= k < |b| && multiset(a + [b[k]]) == multiset(b)
    ensures multiset(a) == multiset(b[..k] + b[k + 1..])
  {
    assert b == b[..k] + [b[k]] + b[k + 1..];
    assert multiset(b) == multiset(b[..k] + b[k + 1..]) + multiset{b[k]};
    assert multiset(a + [b[k]]) == multiset(a) + multiset{b[k]};
    assert multiset(a) == multiset(b) - multiset{b[k]};
  }

  /** The total volume does not depend on the order of the boxes. */
  lemma {:induction false} SumVolPermutation(a: seq<BoxRec>, b: seq<BoxRec>)
    requires multiset(a) == multiset(b)
    ensures SumVol(a) == SumVol(b)
    decreases |a|
  {
    if |a| > 0 {
      var a' := a[..|a| - 1];
      var x := a[|a| - 1];
      assert a == a' + [x];
      assert x in multiset(b);
      var k :| 0 <= k < |b| && b[k] == x;
      MultisetRemove(a', b, k);
      SumVolRemove(b, k);
      SumVolPermutation(a', b[..k] + b[k + 1..]);
    } else {
      assert multiset(b) == multiset{};
    }
  }

  /** The boxes of a prefix have at most the volume of the whole list. */
  lemma {:induction false} SumVolPrefix(a: seq<BoxRec>, n: nat)
    requires n <= |a| && forall k :: 0 <= k < |a| ==> a[k].Vol() >= 0
    ensures SumVol(a[..n]) <= SumVol(a)
    decreases |a|
  {
    if n < |a| {
      assert a[..|a| - 1][..n] == a[..n];
      SumVolPrefix(a[..|a| - 1], n);
    } else {
      assert a[..n] == a;
    }
  }

  // ----- PredictionBoxSeqCreator -----

  /** The creator used at prediction time: the box list is the customer
      order itself. */
  class PredictionBoxSeqCreator {
    var customerOrderList: seq<BoxRec>
    var boxList: seq<BoxRec>
    /** box_list and customer_order_list are one and the same Python list,
        so a pop from either removes from both. */
    var aliased: bool
    var numBoxes: int
    var fullBoxVol: int

    /** num_boxes and full_box_vol describe the current box list, and the
        two names of one list show the same contents. */
    predicate Valid() reads this {
      numBoxes == |boxList| && fullBoxVol == SumVol(boxList)
        && (aliased ==> boxList == customerOrderList)
    }

    /** __init__ (a deep copy of the order) followed by reset(); the order
        must be non-empty because its first entry gives the customer id. */
    constructor (order: seq<BoxRec>)
      requires |order| > 0
      ensures Valid() && customerOrderList == order && boxList == order && aliased
    {
      customerOrderList := order;
      boxList := order;
      aliased := true;
      numBoxes := |order|;
      fullBoxVol := SumVol(order);
    }

    /** generate_box_list: the box list becomes the order list object itself. */
    method GenerateBoxList()
      modifies this
      ensures Valid() && boxList == customerOrderList && aliased
      ensures customerOrderList == old(customerOrderList)
    {
      boxList := customerOrderList;
      aliased := true;
      numBoxes := |boxList|;
      fullBoxVol := SumVol(boxList);
    }

    /** reset: empties the box list (a new empty list), then generates it again. */
    method Reset()
      modifies this
      ensures Valid() && boxList == customerOrderList && aliased
      ensures customerOrderList == old(customerOrderList)
    {
      boxList := [];
      aliased := false;
      GenerateBoxList();
    }

    /** reset_box_list: the list becomes reset_list's result, a new list.
        The pops act on the list object itself, so while it is the order
        list the order loses the popped boxes too; when a pop raises, the
        first pop has already taken place. */
    method ResetBoxList(currentBoxId: int, replaceBoxId: int, checkPrint: bool) returns (r: Attempt<()>)
      modifies this
      ensures r.Done? <==> ResetList(old(boxList), currentBoxId, replaceBoxId).Done?
      ensures r.Done? ==> boxList == ResetList(old(boxList), currentBoxId, replaceBoxId).result && !aliased
      ensures r.Done? && old(aliased) ==>
        customerOrderList == AfterRaisedReset(AfterRaisedReset(old(boxList), currentBoxId), replaceBoxId - 1)
      ensures r.Done? && old(Valid()) ==> Valid()
      ensures !r.Done? ==> r.Raised? && boxList == AfterRaisedReset(old(boxList), currentBoxId) && aliased == old(aliased)
      ensures !r.Done? && old(aliased) ==> customerOrderList == boxList
      ensures !old(aliased) ==> customerOrderList == old(customerOrderList)
      ensures numBoxes == old(numBoxes) && fullBoxVol == old(fullBoxVol)
    {
      var res := ResetList(boxList, currentBoxId, replaceBoxId);
      ResetListOutcome(boxList, currentBoxId, replaceBoxId);
      if res.Done? {
        if aliased {
          customerOrderList := AfterRaisedReset(AfterRaisedReset(boxList, currentBoxId), replaceBoxId - 1);
        }
        SumVolPermutation(boxList, res.result);
        boxList := res.result;
        aliased := false;
        return Done(());
      }
      boxList := AfterRaisedReset(boxList, currentBoxId);
      if aliased {
        customerOrderList := boxList;
      }
      return Raised;
    }
  }

  // ----- CuttingBoxSeqCreator -----

  /** The split axes of _cut_box. */
  const SplitX: int := 0
  const SplitY: int := 1
  const SplitZ: int := 2

  /** The container the training creator always cuts (container_id = 11). */
  const CutContainerId: nat := 11
  /** np.random.choice(range(10, 11)) always draws 10. */
  const CutNumBoxes: nat := 10
  /** allow_rotations of the configuration. */
  const AllowRotations: seq<int> := [0, 1, 2, 3]

  /** Next raw draw of a random stream; a used-up stream draws 0. */
  function Head(draws: seq<nat>): nat {
    if |draws| > 0 then draws[0] else 0
  }

  function Tail(draws: seq<nat>): (r: seq<nat>)
    ensures |r| <= |draws|
  {
    if |draws| > 0 then draws[1..] else []
  }

  /** rng.choice(options) for a raw draw. */
  function Choice(options: seq<int>, d: nat): (r: int)
    requires |options| > 0
    ensures r in options
  {
    options[d % |options|]
  }

  /** rng.integers(lo, hi) for a raw draw. */
  function Integer(lo: int, hi: int, d: nat): (r: int)
    requires lo < hi
    ensures lo <= r < hi
  {
    lo + d % (hi - lo)
  }

  function Side(s: Size, axis: int): int {
    if axis == SplitX then s.dx else if axis == SplitY then s.dy else s.dz
  }

  function SumSides(s: Size): int {
    s.dx + s.dy + s.dz
  }

  predicate SidesAtLeast(s: Size, m: int) {
    s.dx >= m && s.dy >= m && s.dz >= m
  }

  /** A side may be split when it is at least 2 * minSideLen and above maxSideLen. */
  predicate CanSplit(side: int, minSide: int, maxSide: int) {
    side >= minSide * 2 && side > maxSide
  }

  /** possibleSplitActions, in the order X, Y, Z. */
  function SplitActions(s: Size, minSide: int, maxSide: int): (r: seq<int>)
    ensures forall a :: a in r <==> a in {SplitX, SplitY, SplitZ} && CanSplit(Side(s, a), minSide, maxSide)
  {
    (if CanSplit(s.dx, minSide, maxSide) then [SplitX] else [])
    + (if CanSplit(s.dy, minSide, maxSide) then [SplitY] else [])
    + (if CanSplit(s.dz, minSide, maxSide) then [SplitZ] else [])
  }

  /** _check_box_size_valid: every side within [minSideLen, maxSideLen]. */
  predicate SizeValid(s: Size, minSide: int, maxSide: int) {
    && minSide <= s.dx <= maxSide
    && minSide <= s.dy <= maxSide
    && minSide <= s.dz <= maxSide
  }

  /** boxA and boxB of a split along `axis` at `pos`, before their weights
      and side order are set. */
  function SplitPieces(b: BoxRec, axis: int, pos: int): (BoxRec, BoxRec) {
    var s := b.size;
    if axis == SplitX then
      (b.(size := s.(dx := pos)), b.(x := b.x + pos, size := s.(dx := s.dx - pos)))
    else if axis == SplitY then
      (b.(size := s.(dy := pos)), b.(y := b.y + pos, size := s.(dy := s.dy - pos)))
    else
      (b.(size := s.(dz := pos)), b.(z := b.z + pos as real, size := s.(dz := s.dz - pos)))
  }

  /** get_wt (without the rounding to two decimals) and the descending
      re-sort of the sides. */
  function Finish(piece: BoxRec, whole: BoxRec): (r: BoxRec)
    requires whole.Vol() != 0
    ensures r.size.IsReorderOf(piece.size) && r.Vol() == piece.Vol()
    ensures r.wt == whole.wt * (piece.Vol() as real / whole.Vol() as real)
  {
    SortedDescKeepsSides(piece.size);
    piece.(wt := whole.wt * (piece.Vol() as real / whole.Vol() as real), size := piece.size.SortedDesc())
  }

  /** The two pieces split the box: along the axis their sides are pos and
      side - pos, the other sides are the box's; boxB moves by pos along
      the axis; and their volumes add up to the box's. */
  lemma SplitPiecesPartition(b: BoxRec, axis: int, pos: int)
    requires axis in {SplitX, SplitY, SplitZ}
    ensures var (pa, pb) := SplitPieces(b, axis, pos);
      && Side(pa.size, axis) == pos && Side(pb.size, axis) == Side(b.size, axis) - pos
      && (forall a :: a in {SplitX, SplitY, SplitZ} && a != axis ==>
            Side(pa.size, a) == Side(b.size, a) && Side(pb.size, a) == Side(b.size, a))
      && pa.x == b.x && pa.y == b.y && pa.z == b.z
      && pb.x == b.x + (if axis == SplitX then pos else 0)
      && pb.y == b.y + (if axis == SplitY then pos else 0)
      && pb.z == b.z + (if axis == SplitZ then pos as real else 0.0)
      && pa.Vol() + pb.Vol() == b.Vol()
  {
    SplitPiecesVol(b, axis, pos);
  }

  lemma SplitPiecesVol(b: BoxRec, axis: int, pos: int)
    ensures SplitPieces(b, axis, pos).0.Vol() + SplitPieces(b, axis, pos).1.Vol() == b.Vol()
  {
    var s := b.size;
    if axis == SplitX {
      assert pos * s.dy * s.dz + (s.dx - pos) * s.dy * s.dz == s.dx * s.dy * s.dz by {
        assert pos * (s.dy * s.dz) + (s.dx - pos) * (s.dy * s.dz) == s.dx * (s.dy * s.dz);
      }
    } else if axis == SplitY {
      assert s.dx * pos * s.dz + s.dx * (s.dy - pos) * s.dz == s.dx * s.dy * s.dz by {
        assert (s.dx * s.dz) * pos + (s.dx * s.dz) * (s.dy - pos) == (s.dx * s.dz) * s.dy;
      }
    } else {
      assert s.dx * s.dy * pos + s.dx * s.dy * (s.dz - pos) == s.dx * s.dy * s.dz;
    }
  }

  /** Pieces cut at least m from either end have sides of at least m and a
      smaller side sum than the box. */
  lemma SplitPiecesSides(b: BoxRec, axis: int, pos: int, m: int)
    requires m >= 1 && SidesAtLeast(b.size, m) && m <= pos <= Side(b.size, axis) - m
    ensures var (pa, pb) := SplitPieces(b, axis, pos);
      && SidesAtLeast(pa.size, m) && SidesAtLeast(pb.size, m)
      && SumSides(pa.size) < SumSides(b.size) && SumSides(pb.size) < SumSides(b.size)
  {
  }

  /** A reordering of the sides keeps their sum and their lower bound. */
  lemma ReorderSums(r: Size, s: Size, m: int)
    requires r.IsReorderOf(s)
    ensures SumSides(r) == SumSides(s)
    ensures SidesAtLeast(s, m) ==> SidesAtLeast(r, m)
  {
  }

  lemma VolPositive(s: Size)
    requires SidesAtLeast(s, 1)
    ensures s.Vol() > 0
  {
    assert s.dx * s.dy > 0;
    assert (s.dx * s.dy) * s.dz > 0;
  }

  /** One bisection step of _cut_box. */
  datatype Halves = Halves(a: BoxRec, b: BoxRec, rest: seq<nat>)

  /** The split action and position drawn from the stream, and the two
      finished pieces: they keep the volume and, apportioned by volume, the
      weight. */
  function SplitOnce(b: BoxRec, minSide: int, maxSide: int, draws: seq<nat>): (h: Halves)
    requires minSide >= 1 && SidesAtLeast(b.size, minSide) && SplitActions(b.size, minSide, maxSide) != []
    ensures SidesAtLeast(h.a.size, minSide) && SidesAtLeast(h.b.size, minSide)
    ensures SumSides(h.a.size) < SumSides(b.size) && SumSides(h.b.size) < SumSides(b.size)
    ensures h.a.Vol() + h.b.Vol() == b.Vol() && h.a.wt + h.b.wt == b.wt
  {
    var action := Choice(SplitActions(b.size, minSide, maxSide), Head(draws));
    var d1 := Tail(draws);
    var pos := Integer(minSide, Side(b.size, action) - minSide + 1, Head(d1));
    SplitFacts(b, action, pos, minSide);
    var pieces := SplitPieces(b, action, pos);
    Halves(Finish(pieces.0, b), Finish(pieces.1, b), Tail(d1))
  }

  /** What SplitOnce needs of a split at pos, at least m from either end. */
  lemma SplitFacts(b: BoxRec, axis: int, pos: int, m: int)
    requires m >= 1 && SidesAtLeast(b.size, m) && m <= pos <= Side(b.size, axis) - m
    ensures b.Vol() > 0
    ensures var (pa, pb) := SplitPieces(b, axis, pos);
      var (fa, fb) := (Finish(pa, b), Finish(pb, b));
      && SidesAtLeast(fa.size, m) && SidesAtLeast(fb.size, m)
      && SumSides(fa.size) < SumSides(b.size) && SumSides(fb.size) < SumSides(b.size)
      && fa.Vol() + fb.Vol() == b.Vol() && fa.wt + fb.wt == b.wt
  {
    VolPositive(b.size);
    var (pa, pb) := SplitPieces(b, axis, pos);
    SplitPiecesSides(b, axis, pos, m);
    SplitPiecesVol(b, axis, pos);
    var (fa, fb) := (Finish(pa, b), Finish(pb, b));
    ReorderSums(fa.size, pa.size, m);
    ReorderSums(fb.size, pb.size, m);
    WeightsApportioned(b.wt, pa.Vol(), pb.Vol(), b.Vol());
  }

  /** _cut_box on a value: the box list after the leaves of b are appended
      to acc, in the order the recursion reaches them, and what is left of
      the random stream. */
  function Cut(acc: seq<BoxRec>, b: BoxRec, minSide: int, maxSide: int, draws: seq<nat>): (seq<BoxRec>, seq<nat>)
    requires minSide >= 1 && SidesAtLeast(b.size, minSide)
    decreases SumSides(b.size)
  {
    if SplitActions(b.size, minSide, maxSide) == [] then (acc + [b], draws)
    else
      var h := SplitOnce(b, minSide, maxSide, draws);
      var ra := Cut(acc, h.a, minSide, maxSide, h.rest);
      Cut(ra.0, h.b, minSide, maxSide, ra.1)
  }

  /** The leaves fill the box: the list grows by exactly the box's volume
      and, with weights apportioned by volume, by exactly its weight. */
  lemma {:induction false} CutConserves(acc: seq<BoxRec>, b: BoxRec, minSide: int, maxSide: int, draws: seq<nat>)
    requires minSide >= 1 && SidesAtLeast(b.size, minSide)
    ensures SumVol(Cut(acc, b, minSide, maxSide, draws).0) == SumVol(acc) + b.Vol()
    ensures SumWt(Cut(acc, b, minSide, maxSide, draws).0) == SumWt(acc) + b.wt
    decreases SumSides(b.size)
  {
    if SplitActions(b.size, minSide, maxSide) == [] {
      assert (acc + [b])[..|acc|] == acc;
    } else {
      var h := SplitOnce(b, minSide, maxSide, draws);
      var ra := Cut(acc, h.a, minSide, maxSide, h.rest);
      CutConserves(acc, h.a, minSide, maxSide, h.rest);
      CutConserves(ra.0, h.b, minSide, maxSide, ra.1);
    }
  }

  lemma WeightsApportioned(w: real, va: int, vb: int, v: int)
    requires va + vb == v && v != 0
    ensures w * (va as real / v as real) + w * (vb as real / v as real) == w
  {
    assert va as real / v as real + vb as real / v as real == 1.0;
  }

  /** The list only grows at its end, and no appended leaf can be split
      further or has a side shorter than minSideLen. */
  lemma {:induction false} CutLeavesFinal(acc: seq<BoxRec>, b: BoxRec, minSide: int, maxSide: int, draws: seq<nat>)
    requires minSide >= 1 && SidesAtLeast(b.size, minSide)
    ensures var r := Cut(acc, b, minSide, maxSide, draws).0;
      && acc <= r
      && forall k :: |acc| <= k < |r| ==>
        SplitActions(r[k].size, minSide, maxSide) == [] && SidesAtLeast(r[k].size, minSide)
    decreases SumSides(b.size)
  {
    if SplitActions(b.size, minSide, maxSide) != [] {
      var h := SplitOnce(b, minSide, maxSide, draws);
      var ra := Cut(acc, h.a, minSide, maxSide, h.rest);
      CutLeavesFinal(acc, h.a, minSide, maxSide, h.rest);
      CutLeavesFinal(ra.0, h.b, minSide, maxSide, ra.1);
    }
  }

  /** A box that cannot be split and has sides of at least minSideLen passes
      _check_box_size_valid whenever 2 * minSideLen - 1 <= maxSideLen. */
  lemma FinalIsValid(s: Size, minSide: int, maxSide: int)
    requires SplitActions(s, minSide, maxSide) == [] && SidesAtLeast(s, minSide)
    requires 2 * minSide - 1 <= maxSide
    ensures SizeValid(s, minSide, maxSide)
  {
    assert !CanSplit(Side(s, SplitX), minSide, maxSide);
    assert !CanSplit(Side(s, SplitY), minSide, maxSide);
    assert !CanSplit(Side(s, SplitZ), minSide, maxSide);
  }

  /** minSideLen = max(1, int(m / 5)) for the smallest container side m. */
  function MinSideLen(m: nat): int {
    if m / 5 > 1 then m / 5 else 1
  }

  /** maxSideLen = max(1, int(m / 1.1)), with 1.1 taken as the exact 11/10. */
  function MaxSideLen(m: nat): int {
    if (m * 10) / 11 > 1 then (m * 10) / 11 else 1
  }

  /** The derived bounds leave no unsplittable side outside them, so the
      assertion at the leaves of _cut_box always holds. */
  lemma SideLenGap(m: nat)
    ensures MinSideLen(m) >= 1
    ensures 2 * MinSideLen(m) - 1 <= MaxSideLen(m)
    ensures m >= 1 ==> MinSideLen(m) <= m
  {
    if m >= 10 {
      assert 2 * (m / 5) <= (2 * m) / 5 + 1;
      assert (m * 10) / 11 >= (2 * m) / 5;
    }
  }

  function Min3(s: Size): int {
    if s.dx <= s.dy && s.dx <= s.dz then s.dx else if s.dy <= s.dz then s.dy else s.dz
  }

  function Max3(s: Size): int {
    if s.dx >= s.dy && s.dx >= s.dz then s.dx else if s.dy >= s.dz then s.dy else s.dz
  }

  /** The list comprehension of _rotate_box calls: each box rotated by
      rng.choice(allow_rotations), drawn in list order. */
  function RotateAll(boxes: seq<BoxRec>, draws: seq<nat>): (r: seq<BoxRec>)
    ensures |r| == |boxes|
    ensures forall k :: 0 <= k < |boxes| ==> r[k].size.IsReorderOf(boxes[k].size)
    decreases |boxes|
  {
    if |boxes| == 0 then []
    else
      RotatePermutesSides(boxes[0].size, Choice(AllowRotations, Head(draws)));
      [boxes[0].Rotated(Choice(AllowRotations, Head(draws)))] + RotateAll(boxes[1..], Tail(draws))
  }

  /** random.shuffle: for i from len - 1 down to 1, swap x[i] with x[j] for
      a draw j in [0, i]. */
  function ShuffleFrom<T>(s: seq<T>, i: int, draws: seq<nat>): (r: seq<T>)
    requires i < |s|
    ensures |r| == |s| && multiset(r) == multiset(s)
    decreases i
  {
    if i < 1 then s
    else
      var j := Head(draws) % (i + 1);
      ShuffleFrom(s[i := s[j]][j := s[i]], i - 1, Tail(draws))
  }

  function Shuffle<T>(s: seq<T>, draws: seq<nat>): (r: seq<T>)
    ensures |r| == |s| && multiset(r) == multiset(s)
  {
    ShuffleFrom(s, |s| - 1, draws)
  }

  /** box_list[:num_boxes] */
  function Truncate<T>(s: seq<T>, n: nat): (r: seq<T>)
    ensures |r| == if |s| < n then |s| else n
    ensures r <= s
  {
    if |s| < n then s else s[..n]
  }

  /** The creator used in training: a box list cut from one container. */
  class CuttingBoxSeqCreator {
    const containerName: string
    const containerSize: Size
    const containerMaxWt: real
    const minSideLen: int
    const maxSideLen: int
    const nForseeableBox: int
    var boxList: seq<BoxRec>
    var numBoxes: int
    var fullBoxVol: int

    /** The bounds derived by the constructor; they make every leaf valid. */
    predicate Valid() {
      && minSideLen >= 1 && 2 * minSideLen - 1 <= maxSideLen
      && SidesAtLeast(containerSize, minSideLen)
    }

    /** The box the cutting starts from: the whole container at the origin. */
    function RawBox(): BoxRec {
      BoxRec(0, 0, 0.0, containerSize, containerMaxWt, "cut")
    }

    /** __init__ followed by reset(): container 11 of the catalog, side
        bounds from its smallest side, then one generated box list. The
        two asserts of __init__ are preconditions. */
    constructor (cat: seq<Details>, lookahead: nat, draws: seq<nat>, shuffleDraws: seq<nat>)
      requires |cat| > CutContainerId
      requires var d := cat[CutContainerId]; var s := Size(d.X, d.Y, d.Z);
        && Min3(s) >= 0
        && MinSideLen(Min3(s)) * 2 <= Max3(s) && MaxSideLen(Min3(s)) <= Min3(s)
      ensures Valid()
      ensures var d := cat[CutContainerId];
        && containerName == d.name && containerSize == Size(d.X, d.Y, d.Z) && containerMaxWt == d.maxWeight
        && minSideLen == MinSideLen(Min3(containerSize)) && maxSideLen == MaxSideLen(Min3(containerSize))
        && nForseeableBox == 1 + lookahead
      ensures var cut := Cut([], RawBox(), minSideLen, maxSideLen, draws);
        boxList == Truncate(Shuffle(RotateAll(cut.0, cut.1), shuffleDraws), CutNumBoxes)
      ensures numBoxes == |boxList| && numBoxes <= CutNumBoxes && fullBoxVol == SumVol(boxList)
    {
      var d := cat[CutContainerId];
      containerName := d.name;
      containerSize := Size(d.X, d.Y, d.Z);
      containerMaxWt := d.maxWeight;
      var m := Min3(Size(d.X, d.Y, d.Z));
      minSideLen := MinSideLen(m);
      maxSideLen := MaxSideLen(m);
      nForseeableBox := 1 + lookahead;
      boxList := [];
      numBoxes := 0;
      fullBoxVol := 0;
      new;
      SideLenGap(m);
      GenerateBoxList(draws, shuffleDraws);
    }

    /** _cut_box: appends the leaves of the bisection of `box` to the box
        list and returns what is left of the random stream. */
    method CutBox(box: BoxRec, draws: seq<nat>) returns (rest: seq<nat>)
      requires Valid() && SidesAtLeast(box.size, minSideLen)
      modifies this
      ensures numBoxes == old(numBoxes) && fullBoxVol == old(fullBoxVol)
      ensures (boxList, rest) == Cut(old(boxList), box, minSideLen, maxSideLen, draws)
      decreases SumSides(box.size)
    {
      if SplitActions(box.size, minSideLen, maxSideLen) == [] {
        // the assertion of _cut_box holds at every leaf
        FinalIsValid(box.size, minSideLen, maxSideLen);
        boxList := boxList + [box];
        rest := draws;
      } else {
        var h := SplitOnce(box, minSideLen, maxSideLen, draws);
        rest := CutBox(h.a, h.rest);
        rest := CutBox(h.b, rest);
      }
    }

    /** generate_box_list: cut the container, rotate every leaf, shuffle,
        keep the first num_boxes. */
    method GenerateBoxList(draws: seq<nat>, shuffleDraws: seq<nat>)
      requires Valid()
      modifies this
      ensures Valid()
      ensures var cut := Cut([], RawBox(), minSideLen, maxSideLen, draws);
        boxList == Truncate(Shuffle(RotateAll(cut.0, cut.1), shuffleDraws), CutNumBoxes)
      ensures numBoxes == |boxList| && fullBoxVol == SumVol(boxList)
    {
      boxList := [];
      var rest := CutBox(RawBox(), draws);
      boxList := RotateAll(boxList, rest);
      boxList := Shuffle(boxList, shuffleDraws);
      boxList := Truncate(boxList, CutNumBoxes);
      numBoxes := |boxList|;
      fullBoxVol := SumVol(boxList);
    }

    /** reset: a fresh box list. */
    method Reset(draws: seq<nat>, shuffleDraws: seq<nat>)
      requires Valid()
      modifies this
      ensures Valid()
      ensures var cut := Cut([], RawBox(), minSideLen, maxSideLen, draws);
        boxList == Truncate(Shuffle(RotateAll(cut.0, cut.1), shuffleDraws), CutNumBoxes)
      ensures numBoxes == |boxList| && fullBoxVol == SumVol(boxList)
    {
      boxList := [];
      GenerateBoxList(draws, shuffleDraws);
    }

    /** reset_box_list, as in the prediction creator. */
    method ResetBoxList(currentBoxId: int, replaceBoxId: int) returns (r: Attempt<()>)
      modifies this
      ensures r.Done? <==> ResetList(old(boxList), currentBoxId, replaceBoxId).Done?
      ensures r.Done? ==> boxList == ResetList(old(boxList), currentBoxId, replaceBoxId).result
      ensures !r.Done? ==> r.Raised? && boxList == AfterRaisedReset(old(boxList), currentBoxId)
      ensures fullBoxVol == old(fullBoxVol) && numBoxes == old(numBoxes)
    {
      var res := ResetList(boxList, currentBoxId, replaceBoxId);
      ResetListOutcome(boxList, currentBoxId, replaceBoxId);
      if res.Done? {
        boxList := res.result;
        return Done(());
      }
      boxList := AfterRaisedReset(boxList, currentBoxId);
      return Raised;
    }

    /** drop_box: removes the first box; an empty list raises. */
    method DropBox() returns (r: Attempt<()>)
      modifies this
      ensures r.Done? <==> |old(boxList)| > 0
      ensures r.Done? ==> boxList == old(boxList)[1..]
      ensures !r.Done? ==> r.Raised? && boxList == old(boxList)
      ensures fullBoxVol == old(fullBoxVol) && numBoxes == old(numBoxes)
    {
      if |boxList| == 0 {
        return Raised;
      }
      boxList := boxList[1..];
      return Done(());
    }

    /** pop_box as written: once its first assertion passes it reads
        self.n_foreseeable_box, an attribute that is never set (the
        constructor sets n_forseeable_box), so every call raises. */
    method PopBoxAsWritten(idx: int) returns (r: Attempt<()>)
      ensures r.Raised?
    {
      return Raised;
    }

    /** pop_box as intended: removes the box at idx, which must be in the
        list and among the n_forseeable_box visible ones. */
    method PopBox(idx: int) returns (r: Attempt<()>)
      modifies this
      ensures r.Done? <==> idx < |old(boxList)| && idx < nForseeableBox && -|old(boxList)| <= idx
      ensures r.Done? ==> boxList == Pop(old(boxList), idx).value.1
      ensures r.Done? && 0 <= idx ==> boxList == old(boxList)[..idx] + old(boxList)[idx + 1..]
      ensures !r.Done? ==> r.Raised? && boxList == old(boxList)
      ensures fullBoxVol == old(fullBoxVol) && numBoxes == old(numBoxes)
    {
      if !(|boxList| > idx) || !(idx < nForseeableBox) {
        return Raised;
      }
      var p := Pop(boxList, idx);
      if p.None? {
        return Raised;
      }
      boxList := p.value.1;
      return Done(());
    }
  }

  /** Every box of the list passes _check_box_size_valid. */
  predicate AllSizesValid(bs: seq<BoxRec>, minSide: int, maxSide: int) {
    forall k :: 0 <= k < |bs| ==> SizeValid(bs[k].size, minSide, maxSide)
  }

  /** Every leaf of the bisection passes _check_box_size_valid. */
  lemma LeavesValid(raw: BoxRec, minSide: int, maxSide: int, draws: seq<nat>)
    requires minSide >= 1 && 2 * minSide - 1 <= maxSide && SidesAtLeast(raw.size, minSide)
    ensures AllSizesValid(Cut([], raw, minSide, maxSide, draws).0, minSide, maxSide)
  {
    var leaves := Cut([], raw, minSide, maxSide, draws).0;
    CutLeavesFinal([], raw, minSide, maxSide, draws);
    forall k | 0 <= k < |leaves|
      ensures SizeValid(leaves[k].size, minSide, maxSide)
    {
      FinalIsValid(leaves[k].size, minSide, maxSide);
    }
  }

  /** Rotating a box reorders its sides, so a valid box stays valid. */
  lemma RotatedValid(bs: seq<BoxRec>, minSide: int, maxSide: int, draws: seq<nat>)
    requires AllSizesValid(bs, minSide, maxSide)
    ensures AllSizesValid(RotateAll(bs, draws), minSide, maxSide)
  {
    var r := RotateAll(bs, draws);
    forall k | 0 <= k < |r|
      ensures SizeValid(r[k].size, minSide, maxSide)
    {
      assert r[k].size.IsReorderOf(bs[k].size);
    }
  }

  /** A reordering of a list of valid boxes holds only valid boxes. */
  lemma ShuffledValid(a: seq<BoxRec>, b: seq<BoxRec>, minSide: int, maxSide: int)
    requires multiset(a) == multiset(b) && AllSizesValid(a, minSide, maxSide)
    ensures AllSizesValid(b, minSide, maxSide)
  {
    forall k | 0 <= k < |b|
      ensures SizeValid(b[k].size, minSide, maxSide)
    {
      assert b[k] in multiset(a);
      var i :| 0 <= i < |a| && a[i] == b[k];
    }
  }

  /** Every box a CuttingBoxSeqCreator generates passes _check_box_size_valid,
      there are at most ten of them, and together they take no more than the
      container's volume; before the truncation they fill it exactly. */
  lemma GeneratedBoxesFit(minSide: int, maxSide: int, raw: BoxRec, draws: seq<nat>, shuffleDraws: seq<nat>)
    requires minSide >= 1 && 2 * minSide - 1 <= maxSide && SidesAtLeast(raw.size, minSide)
    ensures var cut := Cut([], raw, minSide, maxSide, draws);
      var all := Shuffle(RotateAll(cut.0, cut.1), shuffleDraws);
      var boxes := Truncate(all, CutNumBoxes);
      && SumVol(all) == raw.Vol()
      && |boxes| <= CutNumBoxes
      && SumVol(boxes) <= raw.Vol()
      && AllSizesValid(boxes, minSide, maxSide)
  {
    var cut := Cut([], raw, minSide, maxSide, draws);
    var rot := RotateAll(cut.0, cut.1);
    var all := Shuffle(rot, shuffleDraws);
    var boxes := Truncate(all, CutNumBoxes);
    assert AllSizesValid(all, minSide, maxSide) by {
      LeavesValid(raw, minSide, maxSide, draws);
      RotatedValid(cut.0, minSide, maxSide, cut.1);
      ShuffledValid(rot, all, minSide, maxSide);
    }
    assert SumVol(all) == raw.Vol() by {
      CutConserves([], raw, minSide, maxSide, draws);
      RotateAllVol(cut.0, cut.1);
      SumVolPermutation(rot, all);
    }
    assert SumVol(boxes) <= SumVol(all) by {
      forall k | 0 <= k < |all|
        ensures all[k].Vol() >= 0
      {
        VolPositive(all[k].size);
      }
      SumVolPrefix(all, |boxes|);
      assert boxes == all[..|boxes|];
    }
  }

  /** Rotating the leaves keeps the total volume. */
  lemma {:induction false} RotateAllVol(boxes: seq<BoxRec>, draws: seq<nat>)
    ensures SumVol(RotateAll(boxes, draws)) == SumVol(boxes)
    decreases |boxes|
  {
    if |boxes| > 0 {
      var r := RotateAll(boxes, draws);
      RotateAllVol(boxes[1..], Tail(draws));
      SumsConcat([r[0]], r[1..]);
      SumsConcat([boxes[0]], boxes[1..]);
      assert r == [r[0]] + r[1..];
      assert boxes == [boxes[0]] + boxes[1..];
      ReorderKeepsSidesAndVol(r[0].size, boxes[0].size);
      assert SumVol([r[0]]) == r[0].Vol();
      assert SumVol([boxes[0]]) == boxes[0].Vol();
    }
  }
}
