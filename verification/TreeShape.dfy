/** When an arena with symmetric links, as loading accepts it, is a tree. */
module TreeShape {
  import opened Wrappers
  import opened SearchTree

  /** The `k`-th node on the way up from `i`, if there is one. */
  function Ancestor(nodes: seq<Node>, i: nat, k: nat): Option<nat>
    decreases k
  {
    if k == 0 then Some(i)
    else if i < |nodes| && nodes[i].parent.Some? then Ancestor(nodes, nodes[i].parent.value, k - 1)
    else None
  }

  lemma {:induction false} AncestorOfAncestor(nodes: seq<Node>, i: nat, j: nat, k: nat)
    requires Ancestor(nodes, i, j).Some?
    ensures Ancestor(nodes, i, j + k) == Ancestor(nodes, Ancestor(nodes, i, j).value, k)
    decreases j
  {
    if j > 0 { AncestorOfAncestor(nodes, nodes[i].parent.value, j - 1, k); }
  }

  lemma {:induction false} AncestorInRange(t: Tree, i: nat, k: nat)
    requires WellFormed(t) && i < |t.nodes|
    ensures Ancestor(t.nodes, i, k).Some? ==> Ancestor(t.nodes, i, k).value < |t.nodes|
    decreases k
  {
    if k > 0 && t.nodes[i].parent.Some? {
      assert ParentListsIt(t.nodes, i);
      AncestorInRange(t, t.nodes[i].parent.value, k - 1);
    }
  }

  /** Some path down from the root ends at the node. */
  ghost predicate EndsAt(t: Tree, path: seq<string>, i: nat) {
    Chain(t, path) && path[|path| - 1] in t.index && t.index[path[|path| - 1]] == i
  }

  ghost predicate Reachable(t: Tree, i: nat) {
    exists path :: EndsAt(t, path, i)
  }

  ghost predicate ClimbsToRoot(t: Tree, i: nat) {
    exists k: nat :: Ancestor(t.nodes, i, k) == Some(t.root)
  }

  lemma {:induction false} ChainClimbs(t: Tree, path: seq<string>, i: nat)
    requires WellFormed(t) && EndsAt(t, path, i)
    ensures Ancestor(t.nodes, i, |path| - 1) == Some(t.root)
    decreases |path|
  {
    var n := |path| - 1;
    assert Linked(t, path, n);
    if n > 0 {
      var p := t.index[path[n - 1]];
      assert ChildrenNameIt(t.nodes, p);
      assert IsChildOf(t.nodes, i, p);
      var front := path[..n];
      forall j | 0 <= j < |front| ensures Linked(t, front, j) { assert Linked(t, path, j); }
      ChainClimbs(t, front, p);
    }
  }

  lemma {:induction false} ClimbIsChain(t: Tree, i: nat, k: nat) returns (path: seq<string>)
    requires WellFormed(t) && i < |t.nodes| && Ancestor(t.nodes, i, k) == Some(t.root)
    ensures EndsAt(t, path, i) && |path| == k + 1
    decreases k
  {
    if k == 0 {
      path := [t.nodes[i].key];
      assert Linked(t, path, 0);
    } else {
      assert ParentListsIt(t.nodes, i);
      var front := ClimbIsChain(t, t.nodes[i].parent.value, k - 1);
      ChainExtends(t, front, t.nodes[i].key);
      path := front + [t.nodes[i].key];
    }
  }

  /** A node is below the root exactly if the way up from it reaches the root. */
  lemma ReachableIffClimbs(t: Tree, i: nat)
    requires WellFormed(t) && i < |t.nodes|
    ensures Reachable(t, i) <==> ClimbsToRoot(t, i)
  {
    if Reachable(t, i) {
      var path :| EndsAt(t, path, i);
      ChainClimbs(t, path, i);
    }
    if ClimbsToRoot(t, i) {
      var k: nat :| Ancestor(t.nodes, i, k) == Some(t.root);
      var path := ClimbIsChain(t, i, k);
    }
  }

  /** The path is the only one: its length is that of the way up, and with it each key. */
  lemma {:induction false} OnlyPath(t: Tree, a: seq<string>, b: seq<string>, i: nat)
    requires WellFormed(t) && EndsAt(t, a, i) && EndsAt(t, b, i)
    ensures a == b
    decreases |a|
  {
    var n, m := |a| - 1, |b| - 1;
    assert Linked(t, a, n) && Linked(t, b, m);
    assert a[n] == t.nodes[i].key == b[m];
    if n > 0 && m > 0 {
      FrontEndsAtParent(t, a, i);
      FrontEndsAtParent(t, b, i);
      OnlyPath(t, a[..n], b[..m], t.nodes[i].parent.value);
      assert a == a[..n] + [a[n]] && b == b[..m] + [b[m]];
    } else if n > 0 {
      FrontEndsAtParent(t, a, i);
    } else if m > 0 {
      FrontEndsAtParent(t, b, i);
    }
  }

  lemma FrontEndsAtParent(t: Tree, path: seq<string>, i: nat)
    requires WellFormed(t) && EndsAt(t, path, i) && |path| > 1
    ensures t.nodes[i].parent.Some? && EndsAt(t, path[..|path| - 1], t.nodes[i].parent.value)
  {
    var n := |path| - 1;
    assert Linked(t, path, n) && Linked(t, path, n - 1);
    assert ChildrenNameIt(t.nodes, t.index[path[n - 1]]);
    assert IsChildOf(t.nodes, i, t.index[path[n - 1]]);
    forall j | 0 <= j < n ensures Linked(t, path[..n], j) { assert Linked(t, path, j); }
  }

  /* ---------- cycles ---------- */

  ghost predicate OnCycle(nodes: seq<Node>, i: nat) {
    exists k: nat :: k > 0 && Ancestor(nodes, i, k) == Some(i)
  }

  /** A node on a cycle has ancestors without end. */
  lemma {:induction false} CycleGoesOn(nodes: seq<Node>, i: nat, k: nat, n: nat)
    requires k > 0 && Ancestor(nodes, i, k) == Some(i)
    ensures Ancestor(nodes, i, n).Some?
    decreases n
  {
    if n >= k {
      AncestorOfAncestor(nodes, i, k, n - k);
      CycleGoesOn(nodes, i, k, n - k);
    } else if Ancestor(nodes, i, n).None? {
      NoneStaysNone(nodes, i, n, k - n);
    }
  }

  lemma {:induction false} NoneStaysNone(nodes: seq<Node>, i: nat, n: nat, m: nat)
    requires Ancestor(nodes, i, n).None?
    ensures Ancestor(nodes, i, n + m).None?
    decreases n
  {
    if n > 0 && i < |nodes| && nodes[i].parent.Some? {
      NoneStaysNone(nodes, nodes[i].parent.value, n - 1, m);
    }
  }

  /** What is below the root is on no cycle. */
  lemma ReachableNotOnCycle(t: Tree, i: nat)
    requires WellFormed(t) && i < |t.nodes| && ClimbsToRoot(t, i)
    ensures !OnCycle(t.nodes, i)
  {
    var m: nat :| Ancestor(t.nodes, i, m) == Some(t.root);
    AncestorOfAncestor(t.nodes, i, m, 1);
    assert Ancestor(t.nodes, t.root, 1) == None;
    if OnCycle(t.nodes, i) {
      var k: nat :| k > 0 && Ancestor(t.nodes, i, k) == Some(i);
      CycleGoesOn(t.nodes, i, k, m + 1);
    }
  }

  /** Among more numbers than there are below `n`, two are the same. */
  lemma {:induction false} Pigeonhole(s: seq<nat>, n: nat) returns (i: nat, j: nat)
    requires |s| > n && forall k | 0 <= k < |s| :: s[k] < n
    ensures i < j < |s| && s[i] == s[j]
    decreases n
  {
    var last := s[|s| - 1];
    if k :| 0 <= k < |s| - 1 && s[k] == last {
      return k, |s| - 1;
    }
    var renamed := seq(|s| - 1, k requires 0 <= k < |s| - 1 => if s[k] == n - 1 then last else s[k]);
    i, j := Pigeonhole(renamed, n - 1);
  }

  /** From a node that is not below the root the way up ends at another node without a
      parent, or comes to a cycle. */
  lemma LostNode(t: Tree, i: nat) returns (k: nat)
    requires WellFormed(t) && i < |t.nodes| && !ClimbsToRoot(t, i)
    ensures Ancestor(t.nodes, i, k).Some? && Ancestor(t.nodes, i, k).value < |t.nodes|
    ensures
      var a := Ancestor(t.nodes, i, k).value;
      OnCycle(t.nodes, a) || (t.nodes[a].parent == None && a != t.root)
  {
    var n := |t.nodes|;
    if m: nat :| m <= n && Ancestor(t.nodes, i, m).None? {
      k := FirstNone(t, i, m);
    } else {
      forall m | 0 <= m <= n ensures Ancestor(t.nodes, i, m).Some? && Ancestor(t.nodes, i, m).value < n {
        AncestorInRange(t, i, m);
      }
      var way: seq<nat> :=
        seq(n + 1, m requires 0 <= m <= n && Ancestor(t.nodes, i, m).Some? => Ancestor(t.nodes, i, m).value);
      var x, y := Pigeonhole(way, n);
      k := x;
      AncestorOfAncestor(t.nodes, i, x, y - x);
      assert Ancestor(t.nodes, way[x], y - x) == Some(way[x]);
    }
  }

  lemma {:induction false} FirstNone(t: Tree, i: nat, m: nat) returns (k: nat)
    requires WellFormed(t) && i < |t.nodes| && Ancestor(t.nodes, i, m).None? && !ClimbsToRoot(t, i)
    ensures Ancestor(t.nodes, i, k).Some? && Ancestor(t.nodes, i, k).value < |t.nodes|
    ensures t.nodes[Ancestor(t.nodes, i, k).value].parent == None && Ancestor(t.nodes, i, k).value != t.root
    decreases m
  {
    if Ancestor(t.nodes, i, m - 1).None? {
      k := FirstNone(t, i, m - 1);
    } else {
      k := m - 1;
      AncestorInRange(t, i, k);
      AncestorOfAncestor(t.nodes, i, k, 1);
    }
  }

  /** Every node is below the root. */
  ghost predicate IsTree(t: Tree) {
    forall i | 0 <= i < |t.nodes| :: Reachable(t, i)
  }

  ghost predicate OnlyRootParentless(t: Tree) {
    forall i | 0 <= i < |t.nodes| :: t.nodes[i].parent == None ==> i == t.root
  }

  ghost predicate Acyclic(t: Tree) {
    forall i | 0 <= i < |t.nodes| :: !OnCycle(t.nodes, i)
  }

  /** What loading accepts is a tree exactly if nothing but the root is without a parent
      and no node is its own ancestor. */
  lemma IsTreeIff(t: Tree)
    requires WellFormed(t)
    ensures IsTree(t) <==> OnlyRootParentless(t) && Acyclic(t)
  {
    if IsTree(t) {
      forall i | 0 <= i < |t.nodes|
        ensures !OnCycle(t.nodes, i) && (t.nodes[i].parent == None ==> i == t.root)
      {
        ReachableIffClimbs(t, i);
        ReachableNotOnCycle(t, i);
        var k: nat :| Ancestor(t.nodes, i, k) == Some(t.root);
      }
    }
    if OnlyRootParentless(t) && Acyclic(t) {
      forall i | 0 <= i < |t.nodes| ensures Reachable(t, i) {
        ReachableIffClimbs(t, i);
        if !ClimbsToRoot(t, i) { var k := LostNode(t, i); }
      }
    }
  }

  /* ---------- children listed twice ---------- */

  function ChildrenOf(nodes: seq<Node>, i: nat): set<nat> {
    set c: nat | c < |nodes| && nodes[c].parent == Some(i)
  }

  function Elements(s: seq<nat>): set<nat> {
    set x | x in s
  }

  lemma ElementsOneMore(front: seq<nat>, last: nat)
    ensures Elements(front + [last]) == Elements(front) + {last}
    ensures last in Elements(front) <==> last in front
    ensures last !in front ==> |Elements(front + [last])| == |Elements(front)| + 1
    ensures last in front ==> Elements(front + [last]) == Elements(front)
  {
    assert Elements(front + [last]) == Elements(front) + {last};
  }

  lemma NoTwinsOneMore(front: seq<nat>, last: nat)
    ensures NoTwins(front + [last]) <==> NoTwins(front) && last !in front
  {
    var s := front + [last];
    if NoTwins(s) {
      forall i, j | 0 <= i < j < |front| ensures front[i] != front[j] { assert s[i] != s[j]; }
      forall i | 0 <= i < |front| ensures front[i] != last { assert s[i] != s[|front|]; }
    }
  }

  lemma {:induction false} SizeIffNoTwins(s: seq<nat>)
    ensures |Elements(s)| <= |s|
    ensures |Elements(s)| == |s| <==> NoTwins(s)
  {
    if s != [] {
      var front, last := s[..|s| - 1], s[|s| - 1];
      assert s == front + [last];
      SizeIffNoTwins(front);
      ElementsOneMore(front, last);
      NoTwinsOneMore(front, last);
      hide Elements, NoTwins;
    }
  }

  /** A node lists no child twice exactly if it lists as many as name it their parent. */
  lemma NoTwinsIff(t: Tree, i: nat)
    requires WellFormed(t) && i < |t.nodes|
    ensures NoTwins(t.nodes[i].children) <==> |t.nodes[i].children| == |ChildrenOf(t.nodes, i)|
  {
    var children := t.nodes[i].children;
    assert ChildrenNameIt(t.nodes, i);
    assert Elements(children) == ChildrenOf(t.nodes, i) by {
      forall c | c in children ensures c in ChildrenOf(t.nodes, i) { assert IsChildOf(t.nodes, c, i); }
      forall c | c in ChildrenOf(t.nodes, i) ensures c in children { assert ParentListsIt(t.nodes, c); }
    }
    SizeIffNoTwins(children);
  }
}
