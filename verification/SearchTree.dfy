/** The search tree as a value: an arena of nodes and an index by key. */
module SearchTree {
  import opened Wrappers

  /** The scores are reals: `explore(n, m)` is the exploration bonus of a child seen
      `m` times under a parent seen `n` times, `limit(n)` the widening limit. */
  datatype Config = Config(explore: (nat, nat) -> real, limit: nat -> real)

  datatype Node = Node(key: string, parent: Option<nat>, children: seq<nat>,
                       visits: nat, rewardSum: real, best: Option<real>)

  datatype Tree = Tree(config: Config, root: nat, nodes: seq<Node>, index: map<string, nat>)

  datatype Error = UnknownNode | OtherParent | RewardNotFinite | EmptyPath | NotAChild | DepthZero

  datatype Reward = Finite(value: real) | NonFinite

  const VISITS_MAX: nat := 0xFFFF_FFFF_FFFF_FFFF

  /* ---------- what keeps an arena a tree ---------- */

  /** The index is the inverse of the node keys. */
  ghost predicate IndexInverse(nodes: seq<Node>, index: map<string, nat>) {
    && (forall k | k in index :: index[k] < |nodes| && nodes[index[k]].key == k)
    && (forall i | 0 <= i < |nodes| :: nodes[i].key in index && index[nodes[i].key] == i)
  }

  predicate ParentListsIt(nodes: seq<Node>, i: nat)
    requires i < |nodes|
  {
    nodes[i].parent.Some? ==>
      nodes[i].parent.value < |nodes| && i in nodes[nodes[i].parent.value].children
  }

  predicate IsChildOf(nodes: seq<Node>, c: nat, i: nat) {
    c < |nodes| && nodes[c].parent == Some(i)
  }

  ghost predicate ChildrenNameIt(nodes: seq<Node>, i: nat)
    requires i < |nodes|
  {
    forall c | c in nodes[i].children :: IsChildOf(nodes, c, i)
  }

  /** Parents list their children, and children name their parent. */
  ghost predicate LinksAgree(nodes: seq<Node>) {
    forall i | 0 <= i < |nodes| :: ParentListsIt(nodes, i) && ChildrenNameIt(nodes, i)
  }

  /** A list of children in which none is listed twice. */
  predicate NoTwins(children: seq<nat>) {
    forall i, j | 0 <= i < j < |children| :: children[i] != children[j]
  }

  ghost predicate WellFormed(t: Tree) {
    && t.root < |t.nodes| && t.nodes[t.root].parent == None
    && IndexInverse(t.nodes, t.index)
    && LinksAgree(t.nodes)
  }

  function Fresh(rootKey: string, config: Config): (t: Tree)
    ensures WellFormed(t) && t.nodes[t.root].key == rootKey
  {
    Tree(config, 0, [Node(rootKey, None, [], 0, 0.0, None)], map[rootKey := 0])
  }

  function RootKey(t: Tree): string
    requires t.root < |t.nodes|
  {
    t.nodes[t.root].key
  }

  /* ---------- adding a child ---------- */

  function WithChild(t: Tree, p: nat, key: string): (u: Tree)
    requires p < |t.nodes|
  {
    var c := |t.nodes|;
    t.(nodes := t.nodes[p := t.nodes[p].(children := t.nodes[p].children + [c])]
                + [Node(key, Some(p), [], 0, 0.0, None)],
       index := t.index[key := c])
  }

  lemma WithChildWellFormed(t: Tree, p: nat, key: string)
    requires WellFormed(t) && p < |t.nodes| && key !in t.index
    ensures WellFormed(WithChild(t, p, key))
  {
    var u := WithChild(t, p, key);
    forall i | 0 <= i < |u.nodes| ensures ParentListsIt(u.nodes, i) && ChildrenNameIt(u.nodes, i) {
      if i < |t.nodes| {
        assert ParentListsIt(t.nodes, i) && ChildrenNameIt(t.nodes, i);
        assert forall c | c in t.nodes[i].children :: IsChildOf(t.nodes, c, i);
      }
    }
  }

  /** Adding a child that is there already changes nothing; a key has one parent. */
  function EnsureChild(t: Tree, parentKey: string, childKey: string): (r: Result<Tree, Error>)
    requires WellFormed(t)
    ensures r.Ok? ==> WellFormed(r.value)
  {
    if parentKey !in t.index then Err(UnknownNode)
    else if childKey !in t.index then
      WithChildWellFormed(t, t.index[parentKey], childKey);
      Ok(WithChild(t, t.index[parentKey], childKey))
    else if t.nodes[t.index[childKey]].parent == Some(t.index[parentKey]) then Ok(t)
    else Err(OtherParent)
  }

  /* ---------- crediting a path ---------- */

  function SatInc(visits: nat): nat {
    if visits < VISITS_MAX then visits + 1 else visits
  }

  function Better(best: Option<real>, reward: real): Option<real> {
    if best.None? || reward > best.value then Some(reward) else best
  }

  function CreditNode(n: Node, reward: real): Node {
    n.(visits := SatInc(n.visits), rewardSum := n.rewardSum + reward, best := Better(n.best, reward))
  }

  function Credit(t: Tree, i: nat, reward: real): Tree
    requires i < |t.nodes|
  {
    t.(nodes := t.nodes[i := CreditNode(t.nodes[i], reward)])
  }

  /** Two trees of the same shape differ only in their statistics. */
  ghost predicate SameShape(t: Tree, u: Tree) {
    && u == t.(nodes := u.nodes) && |t.nodes| == |u.nodes|
    && forall i | 0 <= i < |t.nodes| ::
         && t.nodes[i].key == u.nodes[i].key && t.nodes[i].parent == u.nodes[i].parent
         && t.nodes[i].children == u.nodes[i].children
  }

  lemma SameShapeWellFormed(t: Tree, u: Tree)
    requires WellFormed(t) && SameShape(t, u)
    ensures WellFormed(u)
  {
    forall i | 0 <= i < |u.nodes| ensures ParentListsIt(u.nodes, i) && ChildrenNameIt(u.nodes, i) {
      assert ParentListsIt(t.nodes, i) && ChildrenNameIt(t.nodes, i);
      assert forall c | c in t.nodes[i].children :: IsChildOf(t.nodes, c, i);
    }
  }

  /** Crediting from position `i` of a path on; it stops at the first key that is
      unknown or no child of the one before, keeping what it has done. */
  function CreditFrom(t: Tree, path: seq<string>, i: nat, reward: real): (r: (Tree, Option<Error>))
    requires WellFormed(t) && i <= |path|
    requires i > 0 ==> path[i - 1] in t.index
    ensures SameShape(t, r.0) && WellFormed(r.0)
    decreases |path| - i
  {
    if i == |path| then (t, None)
    else if path[i] !in t.index then (t, Some(UnknownNode))
    else if i > 0 && t.index[path[i]] !in t.nodes[t.index[path[i - 1]]].children then (t, Some(NotAChild))
    else
      var u := Credit(t, t.index[path[i]], reward);
      SameShapeWellFormed(t, u);
      CreditFrom(u, path, i + 1, reward)
  }

  function Backpropagate(t: Tree, path: seq<string>, reward: Reward): (r: (Tree, Option<Error>))
    requires WellFormed(t)
    ensures SameShape(t, r.0) && WellFormed(r.0)
  {
    if reward.NonFinite? then (t, Some(RewardNotFinite))
    else if path == [] then (t, Some(EmptyPath))
    else CreditFrom(t, path, 0, reward.value)
  }

  /* ---------- chains ---------- */

  predicate Linked(t: Tree, path: seq<string>, j: nat)
    requires j < |path|
  {
    && path[j] in t.index && t.index[path[j]] < |t.nodes|
    && (if j == 0 then t.index[path[0]] == t.root
        else path[j - 1] in t.index && t.index[path[j - 1]] < |t.nodes|
             && t.index[path[j]] in t.nodes[t.index[path[j - 1]]].children)
  }

  /** A path that starts at the root and goes from parent to child. */
  ghost predicate Chain(t: Tree, path: seq<string>) {
    path != [] && forall j | 0 <= j < |path| :: Linked(t, path, j)
  }

  /** A chain never comes back to a node, so nothing below the root is a cycle,
      even in a tree that was loaded. */
  lemma {:induction false} ChainDistinct(t: Tree, path: seq<string>, i: nat, j: nat)
    requires WellFormed(t) && Chain(t, path) && i < j < |path|
    ensures path[i] != path[j]
    decreases i
  {
    assert Linked(t, path, i) && Linked(t, path, j) && Linked(t, path, j - 1);
    var p := t.index[path[j - 1]];
    assert ChildrenNameIt(t.nodes, p);
    assert IsChildOf(t.nodes, t.index[path[j]], p);
    if i > 0 {
      assert Linked(t, path, i - 1);
      assert ChildrenNameIt(t.nodes, t.index[path[i - 1]]);
      assert IsChildOf(t.nodes, t.index[path[i]], t.index[path[i - 1]]);
      ChainDistinct(t, path, i - 1, j - 1);
    }
  }

  /** Crediting a chain always succeeds and credits each node on it once. */
  ghost predicate CreditedOn(t: Tree, u: Tree, path: seq<string>, first: nat, reward: real)
    requires first <= |path|
  {
    && SameShape(t, u)
    && forall i | 0 <= i < |t.nodes| ::
         u.nodes[i] == if t.nodes[i].key in path[first..] then CreditNode(t.nodes[i], reward) else t.nodes[i]
  }

  lemma CreditStep(t: Tree, path: seq<string>, first: nat, reward: real) returns (u: Tree)
    requires WellFormed(t) && Chain(t, path) && first < |path|
    requires first > 0 ==> path[first - 1] in t.index
    ensures path[first] in t.index && path[first] !in path[first + 1..]
    ensures u == Credit(t, t.index[path[first]], reward) && WellFormed(u) && Chain(u, path)
    ensures CreditFrom(t, path, first, reward) == CreditFrom(u, path, first + 1, reward)
  {
    assert Linked(t, path, first);
    u := Credit(t, t.index[path[first]], reward);
    SameShapeWellFormed(t, u);
    ShapeKeepsChain(t, u, path);
    forall j | first < j < |path| ensures path[j] != path[first] { ChainDistinct(t, path, first, j); }
  }

  lemma {:induction false} CreditChain(t: Tree, path: seq<string>, first: nat, reward: real)
    requires WellFormed(t) && Chain(t, path) && first <= |path|
    requires first > 0 ==> path[first - 1] in t.index
    ensures CreditFrom(t, path, first, reward).1 == None
    ensures CreditedOn(t, CreditFrom(t, path, first, reward).0, path, first, reward)
    decreases |path| - first
  {
    if first < |path| {
      var u := CreditStep(t, path, first, reward);
      hide CreditFrom, Chain, Linked;
      CreditChain(u, path, first + 1, reward);
      CreditedOneMore(t, u, CreditFrom(u, path, first + 1, reward).0, path, first, reward);
    }
  }

  lemma CreditedOneMore(t: Tree, u: Tree, v: Tree, path: seq<string>, first: nat, reward: real)
    requires WellFormed(t) && first < |path| && path[first] in t.index
    requires u == Credit(t, t.index[path[first]], reward) && CreditedOn(u, v, path, first + 1, reward)
    requires path[first] !in path[first + 1..]
    ensures CreditedOn(t, v, path, first, reward)
  {
    assert path[first..] == [path[first]] + path[first + 1..];
    forall i | 0 <= i < |t.nodes|
      ensures v.nodes[i] == if t.nodes[i].key in path[first..] then CreditNode(t.nodes[i], reward) else t.nodes[i]
    {
      assert u.nodes[i].key == t.nodes[i].key;
    }
  }

  lemma ShapeKeepsChain(t: Tree, u: Tree, path: seq<string>)
    requires Chain(t, path) && SameShape(t, u)
    ensures Chain(u, path)
  {
    forall j | 0 <= j < |path| ensures Linked(u, path, j) {
      assert Linked(t, path, j);
    }
  }

  lemma ChildKeepsChain(t: Tree, p: nat, key: string, path: seq<string>)
    requires WellFormed(t) && p < |t.nodes| && key !in t.index && Chain(t, path)
    ensures Chain(WithChild(t, p, key), path)
  {
    var u := WithChild(t, p, key);
    forall j | 0 <= j < |path| ensures Linked(u, path, j) {
      assert Linked(t, path, j);
    }
  }

  lemma ChainExtends(t: Tree, path: seq<string>, key: string)
    requires WellFormed(t) && Chain(t, path) && key in t.index && path[|path| - 1] in t.index
    requires t.nodes[t.index[key]].parent == Some(t.index[path[|path| - 1]])
    ensures Chain(t, path + [key])
  {
    assert Linked(t, path, |path| - 1);
    assert ParentListsIt(t.nodes, t.index[key]);
    forall j | 0 <= j < |path| + 1 ensures Linked(t, path + [key], j) {
      if j < |path| { assert Linked(t, path, j); }
    }
  }
}
