/** The sequencing environment of pack_env/packingEnv.py: the dense action-id
    enumeration, the largest-first container order, and PackEnv's step and
    mask-recovery state machine over an abstract ContainerSets. */
module Env {
  import opened Wrappers
  import opened Geometry
  import opened Catalog

  // ----- action ids -----

  /** (container, rotation, x, y): one entry of actionId_lookUp. */
  datatype Action = Action(container: int, rotation: int, x: int, y: int)

  /** Index position of an action in the four nested loops of the
      constructor: container i, rotation j, x index xi, y index yi. */
  datatype Slot = Slot(i: int, j: int, xi: int, yi: int)

  /** The loop counter actionId reached at a slot. */
  function Encode(nr: nat, nx: nat, ny: nat, s: Slot): int {
    ((s.i * nr + s.j) * nx + s.xi) * ny + s.yi
  }

  /** The slot an id stands for: the innermost loop varies fastest. */
  function Decode(nr: nat, nx: nat, ny: nat, id: int): Slot
    requires nr > 0 && nx > 0 && ny > 0
  {
    var t1 := id / ny;
    var t2 := t1 / nx;
    Slot(t2 / nr, t2 % nr, t1 % nx, id % ny)
  }

  predicate SlotIn(nc: nat, nr: nat, nx: nat, ny: nat, s: Slot) {
    0 <= s.i < nc && 0 <= s.j < nr && 0 <= s.xi < nx && 0 <= s.yi < ny
  }

  function Total(nc: nat, nr: nat, nx: nat, ny: nat): nat {
    nc * nr * nx * ny
  }

  lemma MulAtLeast(k: int, n: int)
    requires k >= 1 && n > 0
    ensures k * n >= n
  {
  }

  lemma DivMod(q: int, r: int, n: int)
    requires n > 0 && 0 <= r < n
    ensures (q * n + r) / n == q && (q * n + r) % n == r
  {
    var a := q * n + r;
    var d := a / n;
    assert a == d * n + a % n;
    if d > q {
      MulAtLeast(d - q, n);
      assert false;
    } else if d < q {
      MulAtLeast(q - d, n);
      assert false;
    }
  }

  lemma DivBelow(a: int, b: int, n: int)
    requires n > 0 && 0 <= a < b * n
    ensures 0 <= a / n < b
  {
  }

  lemma PairBelow(hi: int, lo: int, n: int, b: int)
    requires n > 0 && 0 <= hi < b && 0 <= lo < n
    ensures 0 <= hi * n + lo < b * n
  {
    MulAtLeast(b - hi, n);
  }

  /** Every slot gets an id in [0, C*R*NX*NY), and decoding that id gives the slot back. */
  lemma DecodeEncode(nc: nat, nr: nat, nx: nat, ny: nat, s: Slot)
    requires nr > 0 && nx > 0 && ny > 0 && SlotIn(nc, nr, nx, ny, s)
    ensures 0 <= Encode(nr, nx, ny, s) < Total(nc, nr, nx, ny)
    ensures Decode(nr, nx, ny, Encode(nr, nx, ny, s)) == s
  {
    var t2 := s.i * nr + s.j;
    var t1 := t2 * nx + s.xi;
    PairBelow(s.i, s.j, nr, nc);
    PairBelow(t2, s.xi, nx, nc * nr);
    PairBelow(t1, s.yi, ny, nc * nr * nx);
    DivMod(t1, s.yi, ny);
    DivMod(t2, s.xi, nx);
    DivMod(s.i, s.j, nr);
  }

  /** Every id in [0, C*R*NX*NY) is the id of exactly the slot it decodes to. */
  lemma EncodeDecode(nc: nat, nr: nat, nx: nat, ny: nat, id: int)
    requires nr > 0 && nx > 0 && ny > 0 && 0 <= id < Total(nc, nr, nx, ny)
    ensures SlotIn(nc, nr, nx, ny, Decode(nr, nx, ny, id))
    ensures Encode(nr, nx, ny, Decode(nr, nx, ny, id)) == id
  {
    var t1 := id / ny;
    var t2 := t1 / nx;
    assert id == t1 * ny + id % ny;
    assert t1 == t2 * nx + t1 % nx;
    assert t2 == (t2 / nr) * nr + t2 % nr;
    DivBelow(id, nc * nr * nx, ny);
    DivBelow(t1, nc * nr, nx);
    DivBelow(t2, nc, nr);
  }

  /** Two ids in range that decode to the same slot are equal. */
  lemma DecodeInjective(nc: nat, nr: nat, nx: nat, ny: nat, a: int, b: int)
    requires nr > 0 && nx > 0 && ny > 0
    requires 0 <= a < Total(nc, nr, nx, ny) && 0 <= b < Total(nc, nr, nx, ny)
    requires Decode(nr, nx, ny, a) == Decode(nr, nx, ny, b)
    ensures a == b
  {
    EncodeDecode(nc, nr, nx, ny, a);
    EncodeDecode(nc, nr, nx, ny, b);
  }

  /** The entry actionId_lookUp[id] for an id in range. */
  function ActionAt(nc: nat, nr: nat, xPoss: seq<int>, yPoss: seq<int>, id: int): (a: Action)
    requires nr > 0 && |xPoss| > 0 && |yPoss| > 0 && 0 <= id < Total(nc, nr, |xPoss|, |yPoss|)
  {
    EncodeDecode(nc, nr, |xPoss|, |yPoss|, id);
    var s := Decode(nr, |xPoss|, |yPoss|, id);
    Action(s.i, s.j, xPoss[s.xi], yPoss[s.yi])
  }

  /** m holds exactly the ids below n, each mapped to its action. */
  ghost predicate FilledUpTo(nc: nat, nr: nat, xPoss: seq<int>, yPoss: seq<int>, m: map<int, Action>, n: int)
    requires nr > 0 && |xPoss| > 0 && |yPoss| > 0
  {
    && (forall id :: id in m <==> 0 <= id < n)
    && (forall id :: id in m ==> 0 <= id < Total(nc, nr, |xPoss|, |yPoss|) && m[id] == ActionAt(nc, nr, xPoss, yPoss, id))
  }

  /** One pass of the innermost loop body: the id counter names the slot being filled. */
  lemma FillStep(nc: nat, nr: nat, xPoss: seq<int>, yPoss: seq<int>, m: map<int, Action>, s: Slot)
    requires nr > 0 && |xPoss| > 0 && |yPoss| > 0 && SlotIn(nc, nr, |xPoss|, |yPoss|, s)
    requires FilledUpTo(nc, nr, xPoss, yPoss, m, Encode(nr, |xPoss|, |yPoss|, s))
    ensures var n := Encode(nr, |xPoss|, |yPoss|, s);
      FilledUpTo(nc, nr, xPoss, yPoss, m[n := Action(s.i, s.j, xPoss[s.xi], yPoss[s.yi])], n + 1)
  {
    DecodeEncode(nc, nr, |xPoss|, |yPoss|, s);
  }

  /** The id counter carries from one loop level to the next. */
  lemma EncodeCarry(nr: nat, nx: nat, ny: nat, i: int, j: int, xi: int)
    ensures Encode(nr, nx, ny, Slot(i, j, xi, ny)) == Encode(nr, nx, ny, Slot(i, j, xi + 1, 0))
    ensures Encode(nr, nx, ny, Slot(i, j, nx, 0)) == Encode(nr, nx, ny, Slot(i, j + 1, 0, 0))
    ensures Encode(nr, nx, ny, Slot(i, nr, 0, 0)) == Encode(nr, nx, ny, Slot(i + 1, 0, 0, 0))
  {
    assert ((i * nr + j) * nx + xi) * ny + ny == ((i * nr + j) * nx + (xi + 1)) * ny;
    assert (i * nr + j) * nx + nx == (i * nr + (j + 1)) * nx;
    assert i * nr + nr == (i + 1) * nr;
  }

  lemma EncodeEnds(nc: nat, nr: nat, nx: nat, ny: nat)
    ensures Encode(nr, nx, ny, Slot(0, 0, 0, 0)) == 0
    ensures Encode(nr, nx, ny, Slot(nc, 0, 0, 0)) == Total(nc, nr, nx, ny)
  {
  }

  /** The four nested loops of PackEnv.__init__ that fill actionId_lookUp. */
  method BuildActionLookUp(nc: nat, nr: nat, xPoss: seq<int>, yPoss: seq<int>) returns (m: map<int, Action>)
    requires nr > 0 && |xPoss| > 0 && |yPoss| > 0
    ensures forall id :: id in m <==> 0 <= id < Total(nc, nr, |xPoss|, |yPoss|)
    ensures forall id :: id in m ==> m[id] == ActionAt(nc, nr, xPoss, yPoss, id)
  {
    var nx, ny := |xPoss|, |yPoss|;
    m := map[];
    var actionId := 0;
    EncodeEnds(nc, nr, nx, ny);
    for i := 0 to nc
      invariant actionId == Encode(nr, nx, ny, Slot(i, 0, 0, 0))
      invariant FilledUpTo(nc, nr, xPoss, yPoss, m, actionId)
    {
      for j := 0 to nr
        invariant actionId == Encode(nr, nx, ny, Slot(i, j, 0, 0))
        invariant FilledUpTo(nc, nr, xPoss, yPoss, m, actionId)
      {
        for xi := 0 to nx
          invariant actionId == Encode(nr, nx, ny, Slot(i, j, xi, 0))
          invariant FilledUpTo(nc, nr, xPoss, yPoss, m, actionId)
        {
          for yi := 0 to ny
            invariant actionId == Encode(nr, nx, ny, Slot(i, j, xi, yi))
            invariant FilledUpTo(nc, nr, xPoss, yPoss, m, actionId)
          {
            FillStep(nc, nr, xPoss, yPoss, m, Slot(i, j, xi, yi));
            m := m[actionId := Action(i, j, xPoss[xi], yPoss[yi])];
            actionId := actionId + 1;
          }
          EncodeCarry(nr, nx, ny, i, j, xi);
        }
        EncodeCarry(nr, nx, ny, i, j, nx);
      }
      EncodeCarry(nr, nx, ny, i, nr, nx);
    }
  }

  /** The lookup built by the constructor is a bijection between the ids
      [0, C*R*NX*NY) and the slots: every slot's id maps to that slot's
      action, and distinct ids stand for distinct slots. */
  lemma ActionLookUpBijective(nc: nat, nr: nat, xPoss: seq<int>, yPoss: seq<int>, m: map<int, Action>, s: Slot, a: int, b: int)
    requires nr > 0 && |xPoss| > 0 && |yPoss| > 0
    requires forall id :: id in m <==> 0 <= id < Total(nc, nr, |xPoss|, |yPoss|)
    requires forall id :: id in m ==> m[id] == ActionAt(nc, nr, xPoss, yPoss, id)
    requires SlotIn(nc, nr, |xPoss|, |yPoss|, s)
    requires a in m && b in m && a != b
    ensures var id := Encode(nr, |xPoss|, |yPoss|, s);
      id in m && m[id] == Action(s.i, s.j, xPoss[s.xi], yPoss[s.yi])
    ensures Decode(nr, |xPoss|, |yPoss|, a) != Decode(nr, |xPoss|, |yPoss|, b)
  {
    DecodeEncode(nc, nr, |xPoss|, |yPoss|, s);
    if Decode(nr, |xPoss|, |yPoss|, a) == Decode(nr, |xPoss|, |yPoss|, b) {
      DecodeInjective(nc, nr, |xPoss|, |yPoss|, a, b);
    }
  }

  // ----- container order -----

  /** v[::-1] */
  function Reverse<T>(s: seq<T>): (r: seq<T>)
    ensures |r| == |s|
  {
    if |s| == 0 then [] else Reverse(s[1..]) + [s[0]]
  }

  lemma {:induction false} ReverseFacts<T>(s: seq<T>)
    ensures multiset(Reverse(s)) == multiset(s)
    ensures forall k :: 0 <= k < |s| ==> Reverse(s)[k] == s[|s| - 1 - k]
  {
    if |s| > 0 {
      ReverseFacts(s[1..]);
      assert s == [s[0]] + s[1..];
    }
  }

  predicate DescendingByVol(cat: seq<Details>, ids: seq<nat>)
    requires IdsIn(cat, ids)
  {
    forall i, j :: 0 <= i < j < |ids| ==> cat[ids[i]].maxVol >= cat[ids[j]].maxVol
  }

  /** sort_init_container_ids: a stable sort by catalog max_vol, reversed. */
  function SortInitContainerIds(cat: seq<Details>, ids: seq<nat>): (r: seq<nat>)
    requires IdsIn(cat, ids)
    ensures |r| == |ids|
  {
    Reverse(SortByVol(cat, ids))
  }

  /** The sorted ids are a permutation of the given ones, largest volume
      first; so the first id has the largest volume of all. */
  lemma SortInitContainerIdsOrder(cat: seq<Details>, ids: seq<nat>)
    requires IdsIn(cat, ids)
    ensures var r := SortInitContainerIds(cat, ids);
      && IdsIn(cat, r) && multiset(r) == multiset(ids)
      && DescendingByVol(cat, r)
      && (|r| > 0 ==> forall k :: 0 <= k < |ids| ==> cat[ids[k]].maxVol <= cat[r[0]].maxVol)
  {
    var s := SortByVol(cat, ids);
    var r := SortInitContainerIds(cat, ids);
    assert r == Reverse(s);
    ReverseFacts(s);
    assert DescendingByVol(cat, r) by {
      SortByVolAscending(cat, ids);
      forall i, j | 0 <= i < j < |r|
        ensures cat[r[i]].maxVol >= cat[r[j]].maxVol
      {
        assert r[i] == s[|s| - 1 - i] && r[j] == s[|s| - 1 - j];
      }
    }
    if |r| > 0 {
      FirstIsLargest(cat, r, ids);
    }
  }

  lemma FirstIsLargest(cat: seq<Details>, r: seq<nat>, ids: seq<nat>)
    requires IdsIn(cat, r) && IdsIn(cat, ids) && |r| > 0
    requires multiset(r) == multiset(ids) && DescendingByVol(cat, r)
    ensures forall k :: 0 <= k < |ids| ==> cat[ids[k]].maxVol <= cat[r[0]].maxVol
  {
    forall k | 0 <= k < |ids|
      ensures cat[ids[k]].maxVol <= cat[r[0]].maxVol
    {
      assert ids[k] in multiset(r);
      var m :| 0 <= m < |r| && r[m] == ids[k];
    }
  }

  // ----- ContainerSets, as an interface -----

  /** What ContainerSets.drop_box returns: success, the box as it now is
      (placed, on success), and the new container-set state. */
  datatype DropOut<S> = DropOut(ok: bool, placed: BoxRec, state: S)

  /** The operations of ContainerSets that PackEnv uses. Its source is not
      part of this model; these are its signatures, with the state made
      explicit. */
  datatype CSOps<!S> = CSOps(
    create: seq<BoxRec> -> S,
    dropBox: (S, int, int, BoxRec, Action, set<int>) -> DropOut<S>,
    validMask: (S, BoxRec, seq<nat>, seq<int>) -> seq<bool>,
    replaceContainers: (S, nat) -> S,
    usedCount: S -> nat)

  /** np.sum of a 0/1 mask. */
  function Count(mask: seq<bool>): (n: nat)
    ensures n <= |mask|
    ensures n == 0 <==> forall k :: 0 <= k < |mask| ==> !mask[k]
  {
    if |mask| == 0 then 0 else (if mask[0] then 1 else 0) + Count(mask[1..])
  }

  /** allow_rotations of get_current_box_mask. */
  const MaskRotations: seq<int> := [0, 1, 2, 3]

  /** get_valid_mask of the container sets for one box, all four rotations allowed. */
  function Mask<S>(ops: CSOps<S>, cs: S, box: BoxRec, ids: seq<nat>): seq<bool> {
    ops.validMask(cs, box, ids, MaskRotations)
  }

  /** The container sets after the recovery of set_cur_observation_vals: the
      largest container replaces when the box fits nowhere. */
  function Recovered<S>(ops: CSOps<S>, cs: S, box: BoxRec, ids: seq<nat>): S
    requires |ids| > 0
  {
    if Count(Mask(ops, cs, box, ids)) == 0 then ops.replaceContainers(cs, ids[0]) else cs
  }

  datatype Info = Info(numTotalBoxes: int, numPacked: int, numUnpacked: int, fracPacked: real, numContainers: int)

  datatype StepOut = StepOut(reward: real, done: bool, info: Info)

  // ----- PackEnv -----

  class PackEnv<S> {
    const ops: CSOps<S>
    const cat: seq<Details>
    const numContainers: nat
    const numRotations: nat
    const xPoss: seq<int>
    const yPoss: seq<int>
    const nForseeableBox: int
    const actionIdLookUp: map<int, Action>
    var initContainerIds: seq<nat>
    /** box_list and num_boxes of the box-sequence generator */
    var boxList: seq<BoxRec>
    var numBoxes: int
    /** container_sets_status */
    var cs: S
    var currentBoxId: int
    var packedBoxCounter: int
    var usedContainers: set<int>
    var currentContainer: nat
    /** The queue position of the box current_box refers to; -1 until the
        first observation sets it. */
    var curSlot: int
    var currentBoxMask: seq<bool>
    var currentPackedBox: Option<BoxRec>

    ghost predicate Valid() reads this {
      && numBoxes == |boxList|
      && 0 <= currentBoxId == packedBoxCounter
      && IdsIn(cat, initContainerIds) && |initContainerIds| > 0
      && -1 <= curSlot < |boxList|
    }

    /** __init__, with the generator's initial box list given as `boxes`. */
    constructor (ops: CSOps<S>, cat: seq<Details>, initIds: seq<nat>, nc: nat, nr: nat,
                 xPoss: seq<int>, yPoss: seq<int>, lookahead: nat, boxes: seq<BoxRec>)
      requires IdsIn(cat, initIds) && |initIds| > 0
      requires nr > 0 && |xPoss| > 0 && |yPoss| > 0
      ensures Valid()
      ensures this.ops == ops && this.cat == cat && numContainers == nc && numRotations == nr
      ensures this.xPoss == xPoss && this.yPoss == yPoss && nForseeableBox == 1 + lookahead
      ensures initContainerIds == SortInitContainerIds(cat, initIds)
      ensures forall id :: id in actionIdLookUp <==> 0 <= id < Total(nc, nr, |xPoss|, |yPoss|)
      ensures forall id :: id in actionIdLookUp ==> actionIdLookUp[id] == ActionAt(nc, nr, xPoss, yPoss, id)
      ensures boxList == boxes && numBoxes == |boxes| && cs == ops.create(boxes)
      ensures currentBoxId == 0 && packedBoxCounter == 0 && usedContainers == {}
      ensures currentContainer == initContainerIds[0] && curSlot == -1
    {
      var lookUp := BuildActionLookUp(nc, nr, xPoss, yPoss);
      actionIdLookUp := lookUp;
      this.ops := ops;
      this.cat := cat;
      SortInitContainerIdsOrder(cat, initIds);
      initContainerIds := SortInitContainerIds(cat, initIds);
      numContainers := nc;
      numRotations := nr;
      this.xPoss := xPoss;
      this.yPoss := yPoss;
      nForseeableBox := 1 + lookahead;
      boxList := boxes;
      numBoxes := |boxes|;
      cs := ops.create(boxes);
      currentBoxId := 0;
      packedBoxCounter := 0;
      usedContainers := {};
      currentContainer := SortInitContainerIds(cat, initIds)[0];
      curSlot := -1;
      currentBoxMask := [];
      currentPackedBox := None;
    }

    /** get_current_box_mask(box_id): the mask of the box at current_box_id,
        whatever box_id is. */
    function CurrentBoxMask(boxId: int): seq<bool>
      reads this
      requires 0 <= currentBoxId < |boxList|
    {
      Mask(ops, cs, boxList[currentBoxId], initContainerIds)
    }

    /** The mask does not depend on the box id it is asked for, so the
        forward scan of the recovery sees the current box's mask throughout. */
    lemma MaskIgnoresBoxId(a: int, b: int)
      requires 0 <= currentBoxId < |boxList|
      ensures CurrentBoxMask(a) == CurrentBoxMask(b)
    {
    }

    /** The recovery part of set_cur_observation_vals. An empty current mask
        starts the forward scan, which can find nothing, so the queue is never
        reordered; the largest container then replaces, and a mask that is
        still empty fails the assertion. */
    method SetCurObservationVals() returns (r: Attempt<()>)
      requires Valid()
      modifies this
      ensures Valid()
      ensures boxList == old(boxList) && numBoxes == old(numBoxes)
      ensures currentBoxId == old(currentBoxId) && packedBoxCounter == old(packedBoxCounter)
      ensures initContainerIds == old(initContainerIds) && usedContainers == old(usedContainers)
      ensures currentContainer == old(currentContainer)
      ensures currentPackedBox == old(currentPackedBox)
      ensures !(0 <= currentBoxId < |boxList|) ==> r.Raised? && cs == old(cs)
      ensures 0 <= currentBoxId < |boxList| ==> !r.Failed?
      ensures 0 <= currentBoxId < |boxList| ==>
        && cs == Recovered(ops, old(cs), boxList[currentBoxId], initContainerIds)
        && (r.Done? <==> Count(Mask(ops, cs, boxList[currentBoxId], initContainerIds)) > 0)
        && (r.Done? ==> currentBoxMask == Mask(ops, cs, boxList[currentBoxId], initContainerIds)
                        && curSlot == currentBoxId)
    {
      if !(0 <= currentBoxId < |boxList|) {
        return Raised;
      }
      var mask := CurrentBoxMask(currentBoxId);
      if Count(mask) == 0 {
        for boxId := currentBoxId + 1 to |boxList| {
          var m := CurrentBoxMask(boxId);
          if Count(m) > 0 {
            // reset_box_list(current_box_id, box_id, ...) would run here
            assert false;
          }
        }
        var suitable := initContainerIds[0];
        cs := ops.replaceContainers(cs, suitable);
        mask := CurrentBoxMask(currentBoxId);
        if Count(mask) == 0 {
          return Raised;
        }
      }
      curSlot := currentBoxId;
      currentBoxMask := mask;
      return Done(());
    }

    /** The bookkeeping of reset before the first observation: fresh
        container sets over the new boxes, zeroed counters, no container used,
        and the containers reordered largest first. */
    method StartEpisode(boxes: seq<BoxRec>)
      requires Valid()
      modifies this
      ensures Valid()
      ensures boxList == boxes && numBoxes == |boxes| && cs == ops.create(boxes)
      ensures currentBoxId == 0 && packedBoxCounter == 0 && usedContainers == {}
      ensures initContainerIds == SortInitContainerIds(cat, old(initContainerIds))
      ensures currentContainer == initContainerIds[0]
    {
      boxList := boxes;
      numBoxes := |boxes|;
      cs := ops.create(boxes);
      currentBoxId := 0;
      packedBoxCounter := 0;
      usedContainers := {};
      curSlot := if curSlot < |boxes| then curSlot else -1;
      SortContainers();
      currentContainer := initContainerIds[0];
    }

    /** sort_init_container_ids, on the environment's own list. */
    method SortContainers()
      requires IdsIn(cat, initContainerIds) && |initContainerIds| > 0
      modifies this`initContainerIds
      ensures initContainerIds == SortInitContainerIds(cat, old(initContainerIds))
      ensures IdsIn(cat, initContainerIds) && |initContainerIds| > 0
    {
      SortInitContainerIdsOrder(cat, initContainerIds);
      initContainerIds := SortInitContainerIds(cat, initContainerIds);
    }

    /** reset, with the fresh generator's box list given as `boxes`. */
    method Reset(boxes: seq<BoxRec>) returns (r: Attempt<()>)
      requires Valid()
      modifies this
      ensures Valid()
      ensures boxList == boxes && numBoxes == |boxes|
      ensures currentBoxId == 0 && packedBoxCounter == 0 && usedContainers == {}
      ensures initContainerIds == SortInitContainerIds(cat, old(initContainerIds))
      ensures currentContainer == initContainerIds[0]
      ensures |boxes| == 0 ==> r.Raised?
      ensures |boxes| > 0 ==> !r.Failed?
      ensures |boxes| > 0 ==>
        && cs == Recovered(ops, ops.create(boxes), boxes[0], initContainerIds)
        && (r.Done? <==> Count(Mask(ops, cs, boxes[0], initContainerIds)) > 0)
        && (r.Done? ==> curSlot == 0 && currentBoxMask == Mask(ops, cs, boxes[0], initContainerIds))
    {
      StartEpisode(boxes);
      r := SetCurObservationVals();
    }

    /** The box that step places: the current box, turned by the rotation code. */
    function TurnedBox(a: Action): BoxRec
      reads this
      requires 0 <= curSlot < |boxList|
    {
      boxList[curSlot].Rotated(a.rotation)
    }

    /** What container_sets_status.drop_box answers for the current box and action a. */
    function DropResult(a: Action): DropOut<S>
      reads this
      requires 0 <= curSlot < |boxList|
    {
      ops.dropBox(cs, currentBoxId, a.container, TurnedBox(a), a, usedContainers)
    }

    /** The first half of step: turn the current box in its queue slot, drop
        it, and on success count it and record its container. */
    method DropCurrent(a: Action) returns (ok: bool)
      requires Valid() && 0 <= curSlot < |boxList|
      modifies this
      ensures Valid()
      ensures curSlot == old(curSlot)
      ensures ok == old(DropResult(a)).ok && cs == old(DropResult(a)).state
      ensures boxList == old(boxList)[curSlot := if ok then old(DropResult(a)).placed else old(TurnedBox(a))]
      ensures ok ==> && currentBoxId == old(currentBoxId) + 1 && packedBoxCounter == old(packedBoxCounter) + 1
                     && usedContainers == old(usedContainers) + {a.container}
                     && currentPackedBox == Some(old(DropResult(a)).placed)
      ensures !ok ==> && currentBoxId == old(currentBoxId) && packedBoxCounter == old(packedBoxCounter)
                      && usedContainers == old(usedContainers) && currentPackedBox == old(currentPackedBox)
      ensures currentBoxMask == old(currentBoxMask) && numBoxes == old(numBoxes)
      ensures initContainerIds == old(initContainerIds) && currentContainer == old(currentContainer)
    {
      var out := DropResult(a);
      var box := TurnedBox(a);
      boxList := boxList[curSlot := box];
      cs := out.state;
      ok := out.ok;
      if ok {
        boxList := boxList[curSlot := out.placed];
        currentPackedBox := Some(out.placed);
        currentBoxId := currentBoxId + 1;
        packedBoxCounter := packedBoxCounter + 1;
        usedContainers := usedContainers + {a.container};
      }
    }

    /** step(action): look the action up, drop the current box, and set the
        reward and termination: -1 on a failed drop, 1/(containers used)
        once every box is packed, 0 otherwise, observing the next box then. */
    method Step(action: int) returns (r: Attempt<StepOut>)
      requires Valid()
      modifies this
      ensures Valid()
      ensures initContainerIds == old(initContainerIds) && numBoxes == old(numBoxes)
      ensures currentContainer == old(currentContainer)
      ensures action !in actionIdLookUp || !(0 <= old(curSlot) < old(|boxList|)) ==>
        r.Raised? && boxList == old(boxList) && cs == old(cs) && currentBoxId == old(currentBoxId)
      ensures action in actionIdLookUp && 0 <= old(curSlot) < old(|boxList|) ==>
        var out := old(DropResult(actionIdLookUp[action]));
        && !r.Failed?
        && (!out.ok ==>
              && r == Done(StepOut(-1.0, true, StepInfo(numBoxes, old(packedBoxCounter), ops.usedCount(out.state))))
              && cs == out.state && currentBoxId == old(currentBoxId)
              && boxList == old(boxList)[old(curSlot) := old(TurnedBox(actionIdLookUp[action]))]
              && curSlot == old(curSlot) && currentBoxMask == old(currentBoxMask))
        && (out.ok ==>
              && currentBoxId == old(currentBoxId) + 1 && packedBoxCounter == old(packedBoxCounter) + 1
              && boxList == old(boxList)[old(curSlot) := out.placed]
              && usedContainers == old(usedContainers) + {actionIdLookUp[action].container}
              && currentPackedBox == Some(out.placed))
        && (out.ok && packedBoxCounter == numBoxes ==>
              && cs == out.state && curSlot == old(curSlot) && currentBoxMask == old(currentBoxMask)
              && (r.Done? <==> ops.usedCount(out.state) > 0)
              && (r.Done? ==> r.result.done && r.result.reward == 1.0 / ops.usedCount(out.state) as real
                              && 0.0 < r.result.reward <= 1.0))
        && (out.ok && packedBoxCounter != numBoxes ==>
              && (!(0 <= currentBoxId < |boxList|) ==> r.Raised?)
              && (0 <= currentBoxId < |boxList| ==>
                    && cs == Recovered(ops, out.state, boxList[currentBoxId], initContainerIds)
                    && (r.Done? <==> Count(Mask(ops, cs, boxList[currentBoxId], initContainerIds)) > 0))
              && (r.Done? ==> && r.result.reward == 0.0 && !r.result.done
                              && curSlot == currentBoxId && Count(currentBoxMask) > 0))
    {
      if action !in actionIdLookUp || !(0 <= curSlot < |boxList|) {
        return Raised;
      }
      var a := actionIdLookUp[action];
      var ok := DropCurrent(a);
      var reward: real;
      var done: bool;
      if ok {
        reward, done := 0.0, false;
        if packedBoxCounter == numBoxes {
          var n := ops.usedCount(cs);
          if n == 0 {
            return Raised;
          }
          reward, done := 1.0 / n as real, true;
        }
      } else {
        reward, done := -1.0, true;
      }
      var info := StepInfo(numBoxes, packedBoxCounter, ops.usedCount(cs));
      if done {
        return Done(StepOut(reward, true, info));
      }
      var res := SetCurObservationVals();
      if res.Raised? {
        return Raised;
      }
      return Done(StepOut(reward, false, info));
    }
  }

  /** The info dict of step; num_boxes is positive whenever a step gets this far. */
  function StepInfo(numBoxes: int, packed: int, containers: nat): (info: Info)
    ensures info.numPacked + info.numUnpacked == info.numTotalBoxes
  {
    Info(numBoxes, packed, numBoxes - packed,
         if numBoxes == 0 then 0.0 else packed as real / numBoxes as real, containers)
  }
}
