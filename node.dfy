/** Search-tree nodes of mcts/node.py: per-node statistics, the
    exploration score, the tie-keeping maximum of choose_best and the
    backward reward fold of roll_out. Nodes live in an arena (see
    MonteCarlo), so parent and children are arena indices. */
module MctsNode {
  import opened Wrappers

  /** INF of mcts/node.py: choose_best starts its running maximum at -INF. */
  const Inf: real := 1000000007.0

  /** rel_tol of the math.isclose call in choose_best (abs_tol stays 0). */
  const RelTol: real := 0.00001

  /** prev_node, next_nodes (action, child) in insertion order, terminated,
      value (None until expansion), reward, q, w, n, p. */
  datatype Node = Node(prev: Option<nat>, next: seq<(int, nat)>, terminated: bool, value: Option<real>,
                       reward: real, q: real, w: real, n: nat, p: real)

  /** Node.__init__(prev, p) */
  function NewNode(prev: Option<nat>, p: real): (nd: Node)
    ensures nd.prev == prev && nd.p == p && nd.next == [] && !nd.terminated && nd.value == None
    ensures nd.reward == 0.0 && nd.q == 0.0 && nd.w == 0.0 && nd.n == 0
  {
    Node(prev, [], false, None, 0.0, 0.0, 0.0, 0, p)
  }

  predicate IsExpanded(nd: Node) {
    |nd.next| > 0
  }

  /** Node.terminate */
  function Terminated(nd: Node): (r: Node)
    ensures r.terminated && r.p == 0.0
    ensures r.prev == nd.prev && r.next == nd.next && r.value == nd.value && r.reward == nd.reward
    ensures r.n == nd.n && r.w == nd.w && r.q == nd.q
  {
    nd.(terminated := true, p := 0.0)
  }

  /** Node.update(value): one more visit, value added to the total, q the mean. */
  function Updated(nd: Node, v: real): (r: Node)
    ensures r.n == nd.n + 1 && r.w == nd.w + v && r.q == r.w / r.n as real
    ensures r.prev == nd.prev && r.next == nd.next && r.terminated == nd.terminated
    ensures r.value == nd.value && r.reward == nd.reward && r.p == nd.p
  {
    var n := nd.n + 1;
    var w := nd.w + v;
    nd.(n := n, w := w, q := w / n as real)
  }

  function Sum(vs: seq<real>): real {
    if |vs| == 0 then 0.0 else vs[0] + Sum(vs[1..])
  }

  /** update called once per value, in order. */
  function UpdateAll(nd: Node, vs: seq<real>): Node
    decreases |vs|
  {
    if |vs| == 0 then nd else UpdateAll(Updated(nd, vs[0]), vs[1..])
  }

  /** After updates with vs, n has grown by |vs|, w by their sum, and q is
      w over n; from a fresh node q is the plain average of vs. */
  lemma {:induction false} UpdatesAverage(nd: Node, vs: seq<real>)
    ensures var r := UpdateAll(nd, vs);
      && r.n == nd.n + |vs| && r.w == nd.w + Sum(vs)
      && r.prev == nd.prev && r.next == nd.next && r.p == nd.p && r.reward == nd.reward
      && (|vs| > 0 ==> r.q == r.w / r.n as real)
      && (|vs| > 0 && nd.n == 0 && nd.w == 0.0 ==> r.q == Sum(vs) / |vs| as real)
    decreases |vs|
  {
    if |vs| > 0 {
      UpdatesAverage(Updated(nd, vs[0]), vs[1..]);
      var r := UpdateAll(nd, vs);
      if nd.n == 0 && nd.w == 0.0 {
        assert r.w == Sum(vs) && r.n == |vs|;
      }
    }
  }

  /** get_u_value: p * sqrt(n of the parent) / (n + 1), with the square root
      of the parent's visit count given. */
  function UValue(p: real, sqrtParentN: real, n: nat): real {
    p * sqrtParentN / (n + 1) as real
  }

  /** The value choose_best ranks a child by. */
  function Score(child: Node, parentQ: real, sqrtParentN: real, c: real): real {
    if child.n > 0 then (child.q - parentQ) + c * UValue(child.p, sqrtParentN, child.n)
    else 0.0 + c * UValue(child.p, sqrtParentN, child.n)
  }

  /** A larger prior never lowers a child's score, whether or not it was
      visited (with c and the parent's square root non-negative). */
  lemma ScoreRisesWithPrior(child: Node, p2: real, parentQ: real, sqrtParentN: real, c: real)
    requires c >= 0.0 && sqrtParentN >= 0.0 && child.p <= p2
    ensures Score(child, parentQ, sqrtParentN, c) <= Score(child.(p := p2), parentQ, sqrtParentN, c)
  {
    var d := (child.n + 1) as real;
    assert child.p * sqrtParentN <= p2 * sqrtParentN;
    assert child.p * sqrtParentN / d <= p2 * sqrtParentN / d;
    assert c * UValue(child.p, sqrtParentN, child.n) <= c * UValue(p2, sqrtParentN, child.n);
  }

  /** More visits never raise a visited child's score when its mean value
      stays the same: the exploration term shrinks as n grows. */
  lemma ScoreFallsWithVisits(child: Node, n2: nat, parentQ: real, sqrtParentN: real, c: real)
    requires c >= 0.0 && sqrtParentN >= 0.0 && child.p >= 0.0 && 0 < child.n <= n2
    ensures Score(child.(n := n2), parentQ, sqrtParentN, c) <= Score(child, parentQ, sqrtParentN, c)
  {
    var a := child.p * sqrtParentN;
    var d1, d2 := (child.n + 1) as real, (n2 + 1) as real;
    assert a >= 0.0;
    assert a / d2 <= a / d1 by {
      assert a / d2 * d2 == a == a / d1 * d1;
      assert a / d2 * d1 <= a / d2 * d2;
    }
    assert c * UValue(child.p, sqrtParentN, n2) <= c * UValue(child.p, sqrtParentN, child.n);
  }

  function Abs(x: real): real { if x < 0.0 then -x else x }

  function Max(a: real, b: real): real { if a >= b then a else b }

  /** math.isclose(a, b, rel_tol=1e-5) */
  predicate Close(a: real, b: real) {
    Abs(a - b) <= RelTol * Max(Abs(a), Abs(b))
  }

  /** The running maximum of choose_best and the positions it keeps as ties. */
  datatype Ties = Ties(max: real, ties: seq<nat>)

  /** One iteration of choose_best's loop, for the k-th child's score v. */
  function TieStep(t: Ties, v: real, k: nat): Ties {
    if Close(v, t.max) then Ties(t.max, t.ties + [k])
    else if v > t.max then Ties(v, [k])
    else t
  }

  /** choose_best's loop over the scores of the children, in dict order. */
  function TieFold(scores: seq<real>): (t: Ties)
    ensures forall a :: 0 <= a < |t.ties| ==> t.ties[a] < |scores|
  {
    if |scores| == 0 then Ties(-Inf, [])
    else TieStep(TieFold(scores[..|scores| - 1]), scores[|scores| - 1], |scores| - 1)
  }

  /** A score close to an earlier maximum m stays below any later maximum v
      that was itself not close to m. */
  lemma CloseStaysBelow(x: real, m: real, v: real)
    requires Close(x, m) && v > m && !Close(v, m)
    ensures x <= v
  {
  }

  /** What choose_best keeps: the ties are distinct child positions whose
      scores are all within tolerance of the final maximum, and every score
      is at most that maximum or within tolerance of it; a maximum above -INF
      is the score of the first tie. */
  lemma {:induction false} TieFoldMaximal(scores: seq<real>)
    ensures var t := TieFold(scores);
      && (forall a :: 0 <= a < |t.ties| ==> t.ties[a] < |scores| && Close(scores[t.ties[a]], t.max))
      && (forall a, b :: 0 <= a < b < |t.ties| ==> t.ties[a] < t.ties[b])
      && (forall k :: 0 <= k < |scores| ==> scores[k] <= t.max || Close(scores[k], t.max))
      && t.max >= -Inf && (|t.ties| == 0 ==> t.max == -Inf)
      && (|t.ties| > 0 && t.max > -Inf ==> t.max == scores[t.ties[0]])
  {
    if |scores| > 0 {
      var init := scores[..|scores| - 1];
      var v := scores[|scores| - 1];
      var k := |scores| - 1;
      TieFoldMaximal(init);
      var t0 := TieFold(init);
      var t := TieFold(scores);
      assert t == TieStep(t0, v, k);
      assert forall j :: 0 <= j < k ==> scores[j] == init[j];
      if !Close(v, t0.max) && v > t0.max {
        forall j | 0 <= j < |scores|
          ensures scores[j] <= t.max || Close(scores[j], t.max)
        {
          if j < k && Close(scores[j], t0.max) {
            CloseStaysBelow(scores[j], t0.max, v);
          }
        }
      }
    }
  }

  /** choose_best's tie list ends up empty exactly when no score reaches
      -INF, not even within tolerance. */
  lemma {:induction false} TieFoldEmpty(scores: seq<real>)
    ensures TieFold(scores).ties == [] <==>
      forall k :: 0 <= k < |scores| ==> scores[k] < -Inf && !Close(scores[k], -Inf)
    ensures TieFold(scores).ties == [] ==> TieFold(scores).max == -Inf
  {
    if |scores| > 0 {
      var init := scores[..|scores| - 1];
      TieFoldEmpty(init);
      assert forall j :: 0 <= j < |scores| - 1 ==> scores[j] == init[j];
    }
  }

  /** The fold of roll_out: value = r_i + gamma * value from the last
      collected reward back to the first. */
  function Discounted(rewards: seq<real>, gamma: real, value: real): real {
    if |rewards| == 0 then value else rewards[0] + gamma * Discounted(rewards[1..], gamma, value)
  }

  /** With gamma = 1 (the default) the folded value is the sum of all
      rewards plus the starting value. */
  lemma {:induction false} DiscountedUndiscounted(rewards: seq<real>, value: real)
    ensures Discounted(rewards, 1.0, value) == Sum(rewards) + value
  {
    if |rewards| > 0 {
      DiscountedUndiscounted(rewards[1..], value);
    }
  }

  /** The backward loop at the end of MCTSNode.roll_out. */
  method FoldBack(rewards: seq<real>, gamma: real, value: real) returns (r: real)
    ensures r == Discounted(rewards, gamma, value)
  {
    r := value;
    var i := |rewards|;
    while i > 0
      invariant 0 <= i <= |rewards|
      invariant r == Discounted(rewards[i..], gamma, value)
    {
      i := i - 1;
      assert rewards[i..][1..] == rewards[i + 1..];
      r := rewards[i] + gamma * r;
    }
    assert rewards[0..] == rewards;
  }
}
