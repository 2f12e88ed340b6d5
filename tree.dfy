/** The search tree of mcts/monteCarlo.py over an arena of nodes: node i's
    parent and children are arena indices, and a node is never removed, so
    re-rooting leaves the old tree in the arena, unreachable from the root. */
module MonteCarlo {
  import opened Wrappers
  import opened MctsNode

  // ----- the arena -----

  /** A parent sits before its children in the arena. */
  ghost predicate ParentsBefore(ns: seq<Node>) {
    forall i :: 0 <= i < |ns| && ns[i].prev.Some? ==> ns[i].prev.value < i
  }

  /** Every child sits after its parent and points back to it, unless it has
      been cut loose by a re-rooting, which only happens below the root. */
  ghost predicate ChildLinks(ns: seq<Node>, root: nat) {
    forall i, k :: 0 <= i < |ns| && 0 <= k < |ns[i].next| ==>
      var j := ns[i].next[k].1;
      i < j < |ns| && (ns[j].prev == Some(i) || (ns[j].prev == None && i < root))
  }

  /** An expanded node carries the value of its expansion. */
  ghost predicate ValuedWhenExpanded(ns: seq<Node>) {
    forall i :: 0 <= i < |ns| && IsExpanded(ns[i]) ==> ns[i].value.Some?
  }

  ghost predicate Arena(ns: seq<Node>, root: nat) {
    && root < |ns| && ns[root].prev == None
    && ParentsBefore(ns) && ChildLinks(ns, root) && ValuedWhenExpanded(ns)
  }

  /** b has the links of a: same length, parents, children, and expandedness. */
  ghost predicate SameLinks(a: seq<Node>, b: seq<Node>) {
    && |a| == |b|
    && forall i :: 0 <= i < |a| ==>
         a[i].prev == b[i].prev && a[i].next == b[i].next && a[i].value.Some? == b[i].value.Some?
  }

  lemma SameLinksArena(a: seq<Node>, b: seq<Node>, root: nat)
    requires Arena(a, root) && SameLinks(a, b)
    ensures Arena(b, root)
  {
    assert ChildLinks(b, root) by {
      forall i, k | 0 <= i < |b| && 0 <= k < |b[i].next|
        ensures var j := b[i].next[k].1;
          i < j < |b| && (b[j].prev == Some(i) || (b[j].prev == None && i < root))
      {
        assert b[i].next[k] == a[i].next[k];
      }
    }
  }

  /** The parent links from j up to a node without parent: j, its parent,
      its grandparent, ... */
  ghost function Ancestors(ns: seq<Node>, j: nat): (path: seq<nat>)
    requires ParentsBefore(ns) && j < |ns|
    ensures |path| > 0 && path[0] == j
    ensures forall t :: 0 <= t < |path| ==> path[t] <= j
    decreases j
  {
    if ns[j].prev.None? then [j] else [j] + Ancestors(ns, ns[j].prev.value)
  }

  /** The path climbs strictly: each entry is the parent of the one before,
      and the last one has no parent. */
  lemma {:induction false} AncestorsShape(ns: seq<Node>, j: nat)
    requires ParentsBefore(ns) && j < |ns|
    ensures var path := Ancestors(ns, j);
      && ns[path[|path| - 1]].prev == None
      && (forall s, t :: 0 <= s < t < |path| ==> path[s] > path[t])
    decreases j
  {
    if ns[j].prev.Some? {
      AncestorsShape(ns, ns[j].prev.value);
    }
  }

  /** Every entry of the path before the t-th is above it. */
  lemma AncestorsBelow(ns: seq<Node>, j: nat, t: nat)
    requires ParentsBefore(ns) && j < |ns| && t < |Ancestors(ns, j)|
    ensures var path := Ancestors(ns, j);
      forall s :: 0 <= s < t ==> path[s] > path[t]
  {
    AncestorsShape(ns, j);
  }

  /** The t-th entry of the path has the next entry as parent, or no parent
      when it is the last. */
  lemma {:induction false} AncestorsLink(ns: seq<Node>, j: nat, t: nat)
    requires ParentsBefore(ns) && j < |ns| && t < |Ancestors(ns, j)|
    ensures var path := Ancestors(ns, j);
      && (t < |path| - 1 ==> ns[path[t]].prev == Some(path[t + 1]))
      && (t == |path| - 1 ==> ns[path[t]].prev == None)
    decreases j
  {
    if t > 0 {
      AncestorsLink(ns, ns[j].prev.value, t - 1);
    }
  }

  /** Ancestors only read parent links. */
  lemma {:induction false} AncestorsFrame(a: seq<Node>, b: seq<Node>, j: nat)
    requires ParentsBefore(a) && ParentsBefore(b) && j < |a| <= |b|
    requires forall i :: 0 <= i < |a| ==> a[i].prev == b[i].prev
    ensures Ancestors(a, j) == Ancestors(b, j)
    decreases j
  {
    if a[j].prev.Some? {
      AncestorsFrame(a, b, a[j].prev.value);
    }
  }

  // ----- expansion -----

  /** np.where(mask == 1)[0]: the marked positions, ascending. */
  function KeptActions(mask: seq<bool>): (kept: seq<int>)
    ensures forall t :: 0 <= t < |kept| ==> 0 <= kept[t] < |mask|
  {
    if |mask| == 0 then []
    else KeptActions(mask[..|mask| - 1]) + (if mask[|mask| - 1] then [|mask| - 1] else [])
  }

  /** The kept actions are exactly the marked positions, each once, in order. */
  lemma {:induction false} KeptActionsExact(mask: seq<bool>)
    ensures var kept := KeptActions(mask);
      && (forall a :: a in kept <==> 0 <= a < |mask| && mask[a])
      && (forall s, t :: 0 <= s < t < |kept| ==> kept[s] < kept[t])
  {
    if |mask| > 0 {
      var init := mask[..|mask| - 1];
      KeptActionsExact(init);
      assert forall a :: 0 <= a < |mask| - 1 ==> mask[a] == init[a];
    }
  }

  /** next_nodes after expansion: key t-th kept action, child at base + t. */
  function Links(keys: seq<int>, base: nat): seq<(int, nat)>
  {
    seq(|keys|, t requires 0 <= t < |keys| => (keys[t], base + t))
  }

  /** The fresh children of node i, one per prior. */
  function Kids(i: nat, priors: seq<real>): seq<Node>
  {
    seq(|priors|, t requires 0 <= t < |priors| => NewNode(Some(i), priors[t]))
  }

  /** credit * policy[a] for every kept action a. */
  function Priors(kept: seq<int>, policy: seq<real>, credit: real): seq<real>
    requires forall t :: 0 <= t < |kept| ==> 0 <= kept[t] < |policy|
  {
    seq(|kept|, t requires 0 <= t < |kept| => credit * policy[kept[t]])
  }

  /** Every kept action indexes the policy. */
  predicate Covers(kept: seq<int>, policy: seq<real>) {
    forall t :: 0 <= t < |kept| ==> kept[t] < |policy|
  }

  /** The loop of MCTSNode.expand over the kept actions: the prior of each,
      or an IndexError once an action lies outside the policy. */
  method KeptPriors(kept: seq<int>, policy: seq<real>, credit: real) returns (ok: bool, priors: seq<real>)
    requires forall t :: 0 <= t < |kept| ==> 0 <= kept[t]
    ensures ok <==> Covers(kept, policy)
    ensures ok ==> priors == Priors(kept, policy, credit)
  {
    priors := [];
    for t := 0 to |kept|
      invariant forall s :: 0 <= s < t ==> kept[s] < |policy|
      invariant |priors| == t
      invariant forall s :: 0 <= s < t ==> priors[s] == credit * policy[kept[s]]
    {
      var a := kept[t];
      if a >= |policy| {
        return false, priors;
      }
      priors := priors + [credit * policy[a]];
    }
    ghost var spec := Priors(kept, policy, credit);
    assert |spec| == |priors| && forall s :: 0 <= s < |spec| ==> spec[s] == priors[s];
    ok := true;
  }

  /** The arena after node i is expanded with the given keys and priors. */
  function Expanded(ns: seq<Node>, i: nat, keys: seq<int>, priors: seq<real>, v: real): seq<Node>
    requires i < |ns| && |keys| == |priors|
  {
    ns[i := ns[i].(next := Links(keys, |ns|), value := Some(v))] + Kids(i, priors)
  }

  /** Expansion appends the children after every existing node and leaves
      the existing nodes' parents, visits and expandedness (but for node i)
      as they were. */
  lemma ExpandedShape(ns: seq<Node>, i: nat, keys: seq<int>, priors: seq<real>, v: real)
    requires i < |ns| && |keys| == |priors|
    ensures var e := Expanded(ns, i, keys, priors, v);
      && |e| == |ns| + |keys| && e[i] == ns[i].(next := Links(keys, |ns|), value := Some(v))
      && (forall j :: 0 <= j < |ns| && j != i ==> e[j] == ns[j])
      && (forall t :: 0 <= t < |keys| ==> e[|ns| + t] == NewNode(Some(i), priors[t]))
  {
  }

  lemma ExpandedParents(ns: seq<Node>, i: nat, keys: seq<int>, priors: seq<real>, v: real)
    requires ParentsBefore(ns) && i < |ns| && |keys| == |priors|
    ensures ParentsBefore(Expanded(ns, i, keys, priors, v))
  {
    var e := Expanded(ns, i, keys, priors, v);
    ExpandedShape(ns, i, keys, priors, v);
    forall j | 0 <= j < |e| && e[j].prev.Some?
      ensures e[j].prev.value < j
    {
      if j >= |ns| {
        assert e[j] == NewNode(Some(i), priors[j - |ns|]);
      }
    }
  }

  lemma ExpandedLinks(ns: seq<Node>, root: nat, i: nat, keys: seq<int>, priors: seq<real>, v: real)
    requires ChildLinks(ns, root) && i < |ns| && !IsExpanded(ns[i]) && |keys| == |priors|
    ensures ChildLinks(Expanded(ns, i, keys, priors, v), root)
  {
    var e := Expanded(ns, i, keys, priors, v);
    var base := |ns|;
    ExpandedShape(ns, i, keys, priors, v);
    forall j, k | 0 <= j < |e| && 0 <= k < |e[j].next|
      ensures var c := e[j].next[k].1;
        j < c < |e| && (e[c].prev == Some(j) || (e[c].prev == None && j < root))
    {
      if j == i {
        assert e[j].next[k] == (keys[k], base + k);
        assert e[base + k] == NewNode(Some(i), priors[k]);
      } else if j < base {
        assert e[j].next == ns[j].next;
        var c := ns[j].next[k].1;
        assert c < base;
        assert e[c].prev == ns[c].prev;
      }
    }
  }

  lemma ExpandedValued(ns: seq<Node>, i: nat, keys: seq<int>, priors: seq<real>, v: real)
    requires ValuedWhenExpanded(ns) && i < |ns| && |keys| == |priors|
    ensures ValuedWhenExpanded(Expanded(ns, i, keys, priors, v))
  {
    var e := Expanded(ns, i, keys, priors, v);
    ExpandedShape(ns, i, keys, priors, v);
    forall j | 0 <= j < |e| && IsExpanded(e[j])
      ensures e[j].value.Some?
    {
    }
  }

  /** Expanding an unexpanded node keeps the arena well formed and changes
      no existing node's parent or visit count. */
  lemma ExpandedArena(ns: seq<Node>, root: nat, i: nat, keys: seq<int>, priors: seq<real>, v: real)
    requires Arena(ns, root) && i < |ns| && !IsExpanded(ns[i]) && |keys| == |priors|
    ensures var e := Expanded(ns, i, keys, priors, v);
      && Arena(e, root) && |e| == |ns| + |keys| && e[i].value == Some(v)
      && forall j :: 0 <= j < |ns| ==> e[j].prev == ns[j].prev && e[j].n == ns[j].n
  {
    ExpandedShape(ns, i, keys, priors, v);
    ExpandedParents(ns, i, keys, priors, v);
    ExpandedLinks(ns, root, i, keys, priors, v);
    ExpandedValued(ns, i, keys, priors, v);
  }

  // ----- statistics along a path -----

  /** One step of backup: the node's edge reward plus gamma times the value
      from below. */
  function BackStep(reward: real, gamma: real, below: real): real {
    reward + gamma * below
  }

  /** The values backup hands to update along path, starting from value. */
  ghost function Backed(ns: seq<Node>, path: seq<nat>, value: real, gamma: real): (vals: seq<real>)
    requires forall t :: 0 <= t < |path| ==> path[t] < |ns|
    ensures |vals| == |path|
  {
    if |path| == 0 then []
    else
      var v := BackStep(ns[path[0]].reward, gamma, value);
      [v] + Backed(ns, path[1..], v, gamma)
  }

  /** The t-th backed value is the t-th node's own edge reward plus gamma
      times the value backed just below it (the leaf's: the given value). */
  lemma {:induction false} BackedAt(ns: seq<Node>, path: seq<nat>, value: real, gamma: real, t: nat)
    requires forall s :: 0 <= s < |path| ==> path[s] < |ns|
    requires t < |path|
    ensures var vals := Backed(ns, path, value, gamma);
      vals[t] == BackStep(ns[path[t]].reward, gamma, if t == 0 then value else vals[t - 1])
    decreases t
  {
    if t > 0 {
      var v := BackStep(ns[path[0]].reward, gamma, value);
      BackedAt(ns, path[1..], v, gamma, t - 1);
      assert Backed(ns, path, value, gamma) == [v] + Backed(ns, path[1..], v, gamma);
    }
  }

  /** The arena b is a after the first t nodes of path have been updated
      with their backed values, and nothing else changed. */
  ghost predicate UpdatedAlong(a: seq<Node>, b: seq<Node>, path: seq<nat>, vals: seq<real>, t: nat)
    requires t <= |path| == |vals| && forall s :: 0 <= s < |path| ==> path[s] < |a|
  {
    && SameLinks(a, b)
    && (forall i :: 0 <= i < |b| && i !in path[..t] ==> b[i] == a[i])
    && (forall s :: 0 <= s < t ==> b[path[s]] == Updated(a[path[s]], vals[s]))
  }

  /** One round of backup's loop: the t-th node of a strictly climbing path
      is still untouched, and updating it extends the updated prefix. */
  lemma BackupStep(a: seq<Node>, b: seq<Node>, path: seq<nat>, vals: seq<real>, t: nat)
    requires t < |path| == |vals| && forall s :: 0 <= s < |path| ==> path[s] < |a|
    requires forall s :: 0 <= s < t ==> path[s] > path[t]
    requires UpdatedAlong(a, b, path, vals, t)
    ensures b[path[t]] == a[path[t]]
    ensures UpdatedAlong(a, b[path[t] := Updated(b[path[t]], vals[t])], path, vals, t + 1)
  {
    var c := b[path[t] := Updated(b[path[t]], vals[t])];
    assert path[t] !in path[..t];
    assert path[..t + 1] == path[..t] + [path[t]];
    forall s | 0 <= s < t
      ensures c[path[s]] == Updated(a[path[s]], vals[s])
    {
      assert path[s] != path[t];
    }
  }

  /** How the t-th entry of path is linked to the next: its parent, or none
      when it is the last. */
  ghost predicate LinkAt(a: seq<Node>, path: seq<nat>, t: nat)
    requires t < |path| && path[t] < |a|
  {
    && (t < |path| - 1 ==> a[path[t]].prev == Some(path[t + 1]))
    && (t == |path| - 1 ==> a[path[t]].prev == None)
  }

  /** backup's loop leaves at the node without parent, which ends the
      path, so every node of the path has been updated. */
  lemma BackupEnds(a: seq<Node>, b: seq<Node>, path: seq<nat>, vals: seq<real>, t: nat)
    requires t < |path| == |vals| && forall s :: 0 <= s < |path| ==> path[s] < |a|
    requires LinkAt(a, path, t) && a[path[t]].prev.None?
    requires UpdatedAlong(a, b, path, vals, t + 1)
    ensures forall i :: 0 <= i < |b| && i !in path ==> b[i] == a[i]
    ensures forall s :: 0 <= s < |path| ==> b[path[s]] == Updated(a[path[s]], vals[s])
  {
    assert t == |path| - 1;
    assert path[..t + 1] == path;
  }

  /** A node of the path that still has a parent is not the last one, and
      its parent comes next. */
  lemma PathClimbs(a: seq<Node>, b: seq<Node>, path: seq<nat>, t: nat)
    requires t < |path| && forall s :: 0 <= s < |path| ==> path[s] < |a|
    requires LinkAt(a, path, t)
    requires SameLinks(a, b) && b[path[t]].prev.Some?
    ensures t + 1 < |path| && b[path[t]].prev.value == path[t + 1]
  {
    assert a[path[t]].prev == b[path[t]].prev;
  }

  /** Python's `if cur_depth > reached_depth: reached_depth = cur_depth`. */
  function MaxDepth(a: int, b: int): int { if b > a then b else a }

  /** The head and rest of the stream of np.random.randint draws. */
  function First(picks: seq<nat>): nat { if |picks| > 0 then picks[0] else 0 }

  function Rest(picks: seq<nat>): seq<nat> { if |picks| > 0 then picks[1..] else [] }

  /** dict.get on next_nodes: the position of the child stored under key a. */
  function FindKey(cs: seq<(int, nat)>, a: int): (r: Option<nat>)
    ensures r.Some? ==> r.value < |cs| && cs[r.value].0 == a
    ensures r.Some? ==> forall k :: 0 <= k < r.value ==> cs[k].0 != a
    ensures r.None? <==> forall k :: 0 <= k < |cs| ==> cs[k].0 != a
  {
    if |cs| == 0 then None
    else if cs[0].0 == a then Some(0)
    else match FindKey(cs[1..], a)
      case None => None
      case Some(k) => Some(k + 1)
  }

  /** The arena after re-rooting at child j of the old root: j loses its
      parent and its children and gets prior 1. */
  function Rerooted(ns: seq<Node>, j: nat): seq<Node>
    requires j < |ns|
  {
    ns[j := ns[j].(p := 1.0, prev := None, next := [])]
  }

  lemma RerootedArena(ns: seq<Node>, root: nat, j: nat)
    requires Arena(ns, root) && j < |ns| && ns[j].prev == Some(root)
    ensures Arena(Rerooted(ns, j), j)
  {
    var e := Rerooted(ns, j);
    assert root < j;
    assert ChildLinks(e, j) by {
      forall i, k | 0 <= i < |e| && 0 <= k < |e[i].next|
        ensures var c := e[i].next[k].1;
          i < c < |e| && (e[c].prev == Some(i) || (e[c].prev == None && i < j))
      {
        assert i != j && e[i].next == ns[i].next;
        var c := ns[i].next[k].1;
        if c == j {
          assert ns[j].prev == Some(i);
        } else {
          assert e[c] == ns[c];
        }
      }
    }
  }

  /** The simulation environment and the network, as the search sees them:
      step(env, action) gives reward, done and the next environment; mask
      marks the legal actions; predict gives the policy and the value. */
  datatype Oracle<!E> = Oracle(
    step: (E, int) -> Attempt<(real, bool, E)>,
    mask: E -> seq<bool>,
    predict: E -> (seq<real>, real))

  class MCTree<E> {
    const oracle: Oracle<E>
    /** sim_env: every search pass works on a copy, so it never changes. */
    const simEnv: E
    const credit: real
    const c: real
    const maxDepth: int
    const rolloutLength: int
    /** np.sqrt on visit counts */
    const sqrt: nat -> real
    var nodes: seq<Node>
    var root: nat
    var subrt: int
    var reachedDepth: int

    ghost predicate Valid() reads this {
      Arena(nodes, root)
    }

    /** MCTree.__init__ with search_depth given. */
    constructor (oracle: Oracle<E>, env: E, searchDepth: int, credit: real, sqrt: nat -> real)
      ensures Valid()
      ensures nodes == [NewNode(None, 1.0)] && root == 0
      ensures this.oracle == oracle && simEnv == env && maxDepth == searchDepth
      ensures this.credit == credit && c == 1.0 && rolloutLength == -1
      ensures subrt == 0 && reachedDepth == -1 && this.sqrt == sqrt
    {
      this.oracle := oracle;
      simEnv := env;
      this.credit := credit;
      c := 1.0;
      rolloutLength := -1;
      maxDepth := searchDepth;
      this.sqrt := sqrt;
      nodes := [NewNode(None, 1.0)];
      root := 0;
      subrt := 0;
      reachedDepth := -1;
    }

    /** MCTSNode.expand on node i in environment env: one child per legal
        action with prior credit * policy[a], or a single child at action 0
        with prior 1 when nothing is legal; the node keeps the network's value. */
    method Expand(i: nat, env: E) returns (r: Attempt<()>)
      requires Valid() && i < |nodes| && !IsExpanded(nodes[i])
      modifies this`nodes
      ensures r.Done? <==> 0.0 <= credit <= 1.0 && Covers(KeptActions(oracle.mask(env)), oracle.predict(env).0)
      ensures !r.Failed?
      ensures r.Done? ==>
        var kept := KeptActions(oracle.mask(env));
        var pv := oracle.predict(env);
        && Valid()
        && (|kept| > 0 ==> nodes == Expanded(old(nodes), i, kept, Priors(kept, pv.0, credit), pv.1))
        && (|kept| == 0 ==> nodes == Expanded(old(nodes), i, [0], [1.0], pv.1))
      ensures r.Done? ==> && |nodes| > |old(nodes)| && nodes[i].value.Some?
                          && forall j :: 0 <= j < |old(nodes)| ==> nodes[j].prev == old(nodes[j].prev) && nodes[j].n == old(nodes[j].n)
    {
      if !(credit <= 1.0 && credit >= 0.0) {
        return Raised;
      }
      var mask := oracle.mask(env);
      var kept := KeptActions(mask);
      var pv := oracle.predict(env);
      var policy, value := pv.0, pv.1;
      var ok, priors := KeptPriors(kept, policy, credit);
      if !ok {
        return Raised;
      }
      var keys := kept;
      if |keys| == 0 {
        keys, priors := [0], [1.0];
      }
      ExpandedArena(nodes, root, i, keys, priors, value);
      nodes := Expanded(nodes, i, keys, priors, value);
      return Done(());
    }

    /** The score of child j, ranked against its own parent; None when it
        has no parent (AttributeError on None in the source). */
    function ChildScore(j: nat): Option<real>
      reads this
      requires ParentsBefore(nodes) && j < |nodes|
    {
      match nodes[j].prev
      case None => None
      case Some(p) => Some(Score(nodes[j], nodes[p].q, sqrt(nodes[p].n), c))
    }

    /** The scores of the children cs in dict order, or None if one raises. */
    function ScoresOf(cs: seq<(int, nat)>): (r: Option<seq<real>>)
      reads this
      requires ParentsBefore(nodes) && forall k :: 0 <= k < |cs| ==> cs[k].1 < |nodes|
      ensures r.Some? ==> |r.value| == |cs|
    {
      if |cs| == 0 then Some([])
      else
        match ScoresOf(cs[..|cs| - 1])
        case None => None
        case Some(ss) =>
          match ChildScore(cs[|cs| - 1].1)
          case None => None
          case Some(s) => Some(ss + [s])
    }

    /** Node.choose_best on node i: the tie at position pick (mod their
        number) among the children scoring within tolerance of the best.
        The picked child scores within tolerance of the maximum, and no
        child scores above it by more than the tolerance. */
    method ChooseBest(i: nat, pick: nat) returns (r: Attempt<(int, nat)>)
      requires Valid() && i < |nodes|
      ensures !r.Failed?
      ensures |nodes[i].next| == 0 || ScoresOf(nodes[i].next).None? ==> r.Raised?
      ensures |nodes[i].next| > 0 && ScoresOf(nodes[i].next).Some? ==>
        var ss := ScoresOf(nodes[i].next).value;
        var t := TieFold(ss);
        && (r.Done? <==> |t.ties| > 0)
        && (r.Done? ==> r.result == nodes[i].next[t.ties[pick % |t.ties|]])
        && (r.Done? ==> exists k :: 0 <= k < |ss| && r.result == nodes[i].next[k] && Close(ss[k], t.max))
        && (forall k :: 0 <= k < |ss| ==> ss[k] <= t.max || Close(ss[k], t.max))
    {
      var cs := nodes[i].next;
      if |cs| == 0 {
        return Raised;
      }
      var t := FoldScores(cs);
      if t.None? {
        return Raised;
      }
      TieFoldMaximal(ScoresOf(cs).value);
      if |t.value.ties| == 0 {
        return Raised;
      }
      var idx := t.value.ties[pick % |t.value.ties|];
      return Done(cs[idx]);
    }

    /** The loop of choose_best over the children in dict order: the running
        maximum and the indices tied with it, or None once a score raises. */
    method FoldScores(cs: seq<(int, nat)>) returns (r: Option<Ties>)
      requires ParentsBefore(nodes) && forall m :: 0 <= m < |cs| ==> cs[m].1 < |nodes|
      ensures r.None? <==> ScoresOf(cs).None?
      ensures r.Some? ==> r.value == TieFold(ScoresOf(cs).value)
    {
      var t := Ties(-Inf, []);
      ghost var ss: seq<real> := [];
      for k := 0 to |cs|
        invariant ScoresOf(cs[..k]) == Some(ss)
        invariant t == TieFold(ss)
      {
        assert cs[..k + 1][..k] == cs[..k];
        var s := ChildScore(cs[k].1);
        if s.None? {
          assert ScoresOf(cs[..k + 1]).None?;
          ScoresNoneGrows(cs, k + 1);
          return None;
        }
        assert (ss + [s.value])[..|ss|] == ss;
        t := TieStep(t, s.value, k);
        ss := ss + [s.value];
      }
      assert cs[..|cs|] == cs;
      return Some(t);
    }

    /** Once a prefix of the children raises, the whole loop raises. */
    lemma {:induction false} ScoresNoneGrows(cs: seq<(int, nat)>, k: nat)
      requires ParentsBefore(nodes) && forall m :: 0 <= m < |cs| ==> cs[m].1 < |nodes|
      requires 0 < k <= |cs| && ScoresOf(cs[..k]).None?
      ensures ScoresOf(cs).None?
      decreases |cs| - k
    {
      if k < |cs| {
        assert cs[..k + 1][..k] == cs[..k];
        ScoresNoneGrows(cs, k + 1);
      } else {
        assert cs[..k] == cs;
      }
    }

    /** MCTree.backup(leaf, value, gamma): from the leaf up to the node
        without parent, each node's value becomes its reward plus gamma times
        the value below, and update is called with it; no other node changes. */
    method Backup(leaf: nat, value: real, gamma: real)
      requires ParentsBefore(nodes) && leaf < |nodes|
      modifies this`nodes
      ensures SameLinks(old(nodes), nodes)
      ensures var path := Ancestors(old(nodes), leaf);
        var vals := Backed(old(nodes), path, value, gamma);
        && |nodes| == |old(nodes)|
        && (forall i :: 0 <= i < |nodes| && i !in path ==> nodes[i] == old(nodes[i]))
        && (forall t :: 0 <= t < |path| ==> nodes[path[t]] == Updated(old(nodes[path[t]]), vals[t]))
    {
      ghost var ns0 := nodes;
      ghost var path := Ancestors(ns0, leaf);
      ghost var vals := Backed(ns0, path, value, gamma);
      var cur := leaf;
      var v := value;
      ghost var t := 0;
      assert path[..0] == [];
      while true
        invariant 0 <= t < |path| && cur == path[t]
        invariant v == if t == 0 then value else vals[t - 1]
        invariant UpdatedAlong(ns0, nodes, path, vals, t)
        decreases cur
      {
        AncestorsBelow(ns0, leaf, t);
        BackupStep(ns0, nodes, path, vals, t);
        BackedAt(ns0, path, value, gamma, t);
        AncestorsLink(ns0, leaf, t);
        v := BackStep(nodes[cur].reward, gamma, v);
        nodes := nodes[cur := Updated(nodes[cur], v)];
        if nodes[cur].prev.Some? {
          PathClimbs(ns0, nodes, path, t);
          cur := nodes[cur].prev.value;
          t := t + 1;
          continue;
        }
        break;
      }
      assert ns0[cur].prev == nodes[cur].prev;
      BackupEnds(ns0, nodes, path, vals, t);
    }

    /** The descent of MCTree.tree_policy: from the root follow choose_best,
        stepping a copy of the environment, until a terminated node (value 0),
        an unexpanded node (expanded here; its value), the depth limit (the
        node's value) or a finished episode (the child terminated, value 0).
        The leaf reached lies below the root. */
    method Descent(picks: seq<nat>) returns (r: Attempt<(nat, real)>, rest: seq<nat>, curDepth: int)
      requires Valid()
      modifies this`nodes, this`subrt
      ensures !r.Failed?
      ensures r.Done? ==> && Valid() && r.result.0 < |nodes| && root in Ancestors(nodes, r.result.0)
                          && nodes[root].n == old(nodes[root].n) && curDepth >= 0
                          && old(subrt) <= subrt <= old(subrt) + 1
    {
      var cur := root;
      curDepth := 0;
      var env := simEnv;
      var value: real;
      rest := picks;
      while true
        invariant Valid() && root <= cur < |nodes|
        invariant root in Ancestors(nodes, cur)
        invariant nodes[root].n == old(nodes[root].n) && curDepth >= 0 && subrt == old(subrt)
        decreases |nodes| - cur
      {
        if nodes[cur].terminated {
          value := 0.0;
          break;
        }
        if !IsExpanded(nodes[cur]) {
          ghost var before := nodes;
          var e := Expand(cur, env);
          if e.Raised? {
            return Raised, rest, curDepth;
          }
          AncestorsFrame(before, nodes, cur);
          value := nodes[cur].value.value;
          break;
        }
        if curDepth == maxDepth {
          value := nodes[cur].value.value;
          break;
        }
        var choice := ChooseBest(cur, First(rest));
        rest := Rest(rest);
        if choice.Raised? {
          return Raised, rest, curDepth;
        }
        var (action, next) := choice.result;
        var outcome := oracle.step(env, action);
        if !outcome.Done? {
          return Raised, rest, curDepth;
        }
        var (reward, done, env2) := outcome.result;
        env := env2;
        Descend(cur, next, reward, done);
        cur := next;
        if done {
          subrt := subrt + 1;
          value := 0.0;
          break;
        }
        curDepth := curDepth + 1;
      }
      r := Done((cur, value));
    }

    /** One MCTree.tree_policy pass: the descent, the deepest depth seen so
        far, and the backup of the leaf's value with gamma = 1. Every pass
        that returns visits the root exactly once more. */
    method TreePolicy(picks: seq<nat>) returns (r: Attempt<()>, rest: seq<nat>, ghost depth: int)
      requires Valid()
      modifies this`nodes, this`subrt, this`reachedDepth
      ensures !r.Failed?
      ensures r.Done? ==> && Valid() && nodes[root].n == old(nodes[root].n) + 1
                          && depth >= 0 && reachedDepth == MaxDepth(old(reachedDepth), depth)
                          && old(subrt) <= subrt <= old(subrt) + 1
    {
      var leaf, curDepth;
      leaf, rest, curDepth := Descent(picks);
      depth := curDepth;
      if leaf.Raised? {
        return Raised, rest, depth;
      }
      var (cur, value) := leaf.result;
      if curDepth > reachedDepth {
        reachedDepth := curDepth;
      }
      ghost var before := nodes;
      AncestorsShape(nodes, cur);
      Backup(cur, value, 1.0);
      SameLinksArena(before, nodes, root);
      ghost var path := Ancestors(before, cur);
      ghost var t :| 0 <= t < |path| && path[t] == root;
      assert nodes[root] == Updated(before[root], Backed(before, path, value, 1.0)[t]);
      r := Done(());
    }

    /** The step of tree_policy from cur to its chosen child next: the child
        records the step's reward and, on a finished episode, is terminated. */
    method Descend(cur: nat, next: nat, reward: real, done: bool)
      requires Valid() && root <= cur < |nodes| && (exists k :: 0 <= k < |nodes[cur].next| && nodes[cur].next[k].1 == next)
      requires root in Ancestors(nodes, cur)
      modifies this`nodes
      ensures Valid() && |nodes| == |old(nodes)| && cur < next < |nodes|
      ensures root in Ancestors(nodes, next) && nodes[root] == old(nodes[root])
      ensures nodes[next].reward == reward
      ensures done ==> nodes[next].terminated
      ensures !done ==> nodes[next] == old(nodes[next]).(reward := reward)
      ensures forall j :: 0 <= j < |nodes| && j != next ==> nodes[j] == old(nodes[j])
    {
      var k :| 0 <= k < |nodes[cur].next| && nodes[cur].next[k].1 == next;
      assert nodes[next].prev == Some(cur);
      ghost var before := nodes;
      nodes := nodes[next := nodes[next].(reward := reward)];
      if done && !nodes[next].terminated {
        nodes := nodes[next := Terminated(nodes[next])];
      }
      assert SameLinks(before, nodes);
      SameLinksArena(before, nodes, root);
      AncestorsFrame(before, nodes, cur);
      assert Ancestors(nodes, next) == [next] + Ancestors(nodes, cur);
    }

    /** MCTree.select_action: sim_times passes of tree_policy, then
        choose_best at the root; the action returned is the key of one of
        the root's children, and the root has been visited once per pass. */
    method SelectAction(simTimes: int, picks: seq<nat>) returns (r: Attempt<int>, rest: seq<nat>)
      requires Valid()
      modifies this`nodes, this`subrt, this`reachedDepth
      ensures !r.Failed?
      ensures r.Done? ==> && Valid()
                          && nodes[root].n == old(nodes[root].n) + (if simTimes > 0 then simTimes else 0)
                          && exists k :: 0 <= k < |nodes[root].next| && nodes[root].next[k].0 == r.result
      ensures r.Done? ==> reachedDepth >= old(reachedDepth)
    {
      var times := if simTimes > 0 then simTimes else 0;
      rest := picks;
      for i := 0 to times
        invariant Valid() && nodes[root].n == old(nodes[root].n) + i
        invariant reachedDepth >= old(reachedDepth)
      {
        var pass;
        ghost var depth;
        pass, rest, depth := TreePolicy(rest);
        if pass.Raised? {
          return Raised, rest;
        }
      }
      var best := ChooseBest(root, First(rest));
      rest := Rest(rest);
      if best.Raised? {
        return Raised, rest;
      }
      return Done(best.result.0), rest;
    }

    /** MCTree.succeed(put_action): the child of the root under the action
        becomes the root, with prior 1, no parent and no children, and the
        search counters restart; a missing child fails the assertion. */
    method Succeed(a: int) returns (r: Attempt<()>)
      requires Valid()
      modifies this`nodes, this`root, this`reachedDepth, this`subrt
      ensures !r.Failed?
      ensures r.Done? <==> FindKey(old(nodes[root].next), a).Some?
      ensures r.Raised? ==> nodes == old(nodes) && root == old(root)
      ensures r.Done? ==>
        var j := old(nodes[root].next)[FindKey(old(nodes[root].next), a).value].1;
        && Valid() && root == j && nodes == Rerooted(old(nodes), j)
        && reachedDepth == -1 && subrt == 0
    {
      var cs := nodes[root].next;
      var k := FindKey(cs, a);
      if k.None? {
        return Raised;
      }
      var j := cs[k.value].1;
      RerootedArena(nodes, root, j);
      nodes := Rerooted(nodes, j);
      root := j;
      reachedDepth := -1;
      subrt := 0;
      r := Done(());
    }
  }
}
