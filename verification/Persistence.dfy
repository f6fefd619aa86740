/** Writing the tree to its file form and loading it back with validation. */
module Persistence {
  import opened Wrappers
  import opened SearchTree

  /** What a float field of a file may hold. */
  datatype Float = Number(value: real) | PlusInfinity | MinusInfinity | NotANumber

  datatype PersistedNode = PersistedNode(key: string, parent: Option<nat>, children: seq<nat>,
                                         visits: nat, rewardSum: Float, best: Option<Float>)

  datatype Persisted = Persisted(config: Config, root: nat, nodes: seq<PersistedNode>)

  datatype LoadError =
    | NoNodes
    | RootOutOfBounds
    | RootHasParent
    | BadRewardSum(node: nat)
    | BadBestReward(node: nat)
    | DuplicateKey(node: nat)
    | ParentOutOfBounds(node: nat)
    | MissingInParent(node: nat)
    | ChildOutOfBounds(node: nat, child: nat)
    | ChildMismatch(node: nat, child: nat)

  function ToPersistedNode(n: Node): PersistedNode {
    PersistedNode(n.key, n.parent, n.children, n.visits, Number(n.rewardSum),
                  if n.best.Some? then Some(Number(n.best.value)) else None)
  }

  function ToPersisted(t: Tree): (p: Persisted)
    ensures |p.nodes| == |t.nodes|
  {
    Persisted(t.config, t.root, seq(|t.nodes|, i requires 0 <= i < |t.nodes| => ToPersistedNode(t.nodes[i])))
  }

  /** An absent best reward means that the node has none; so does minus infinity. */
  predicate BestOk(best: Option<Float>) {
    best.None? || best.value.Number? || best.value.MinusInfinity?
  }

  predicate StatsOk(n: PersistedNode) {
    n.rewardSum.Number? && BestOk(n.best)
  }

  function IntoNode(n: PersistedNode): Node
    requires StatsOk(n)
  {
    Node(n.key, n.parent, n.children, n.visits, n.rewardSum.value,
         if n.best.Some? && n.best.value.Number? then Some(n.best.value.value) else None)
  }

  ghost predicate ParentOk(p: Persisted, i: nat)
    requires i < |p.nodes|
  {
    p.nodes[i].parent.Some? ==>
      p.nodes[i].parent.value < |p.nodes| && i in p.nodes[p.nodes[i].parent.value].children
  }

  predicate ChildOk(p: Persisted, i: nat, c: nat) {
    c < |p.nodes| && p.nodes[c].parent == Some(i)
  }

  ghost predicate ChildrenOk(p: Persisted, i: nat)
    requires i < |p.nodes|
  {
    forall c | c in p.nodes[i].children :: ChildOk(p, i, c)
  }

  ghost predicate KeysDistinct(p: Persisted) {
    forall i, j | 0 <= i < j < |p.nodes| :: p.nodes[i].key != p.nodes[j].key
  }

  ghost predicate AllStatsOk(p: Persisted) {
    forall i | 0 <= i < |p.nodes| :: StatsOk(p.nodes[i])
  }

  /** What a file must satisfy to be loaded. */
  ghost predicate Loadable(p: Persisted) {
    && p.root < |p.nodes| && p.nodes[p.root].parent == None
    && AllStatsOk(p) && KeysDistinct(p)
    && forall i | 0 <= i < |p.nodes| :: ParentOk(p, i) && ChildrenOk(p, i)
  }

  /** The fault that each error reports is really there. */
  ghost predicate Faulty(p: Persisted, e: LoadError) {
    match e
    case NoNodes => p.nodes == []
    case RootOutOfBounds => p.root >= |p.nodes|
    case RootHasParent => p.root < |p.nodes| && p.nodes[p.root].parent.Some?
    case BadRewardSum(i) => i < |p.nodes| && !p.nodes[i].rewardSum.Number?
    case BadBestReward(i) => i < |p.nodes| && !BestOk(p.nodes[i].best)
    case DuplicateKey(i) => i < |p.nodes| && exists j | 0 <= j < i :: p.nodes[j].key == p.nodes[i].key
    case ParentOutOfBounds(i) =>
      i < |p.nodes| && p.nodes[i].parent.Some? && p.nodes[i].parent.value >= |p.nodes|
    case MissingInParent(i) =>
      i < |p.nodes| && p.nodes[i].parent.Some? && p.nodes[i].parent.value < |p.nodes|
      && i !in p.nodes[p.nodes[i].parent.value].children
    case ChildOutOfBounds(i, c) => i < |p.nodes| && c in p.nodes[i].children && c >= |p.nodes|
    case ChildMismatch(i, c) =>
      i < |p.nodes| && c in p.nodes[i].children && c < |p.nodes| && p.nodes[c].parent != Some(i)
  }

  /** The first pass over the nodes: statistics, and the index by key. */
  method IndexNodes(p: Persisted) returns (r: Result<map<string, nat>, LoadError>)
    ensures r.Err? ==> Faulty(p, r.error)
    ensures r.Ok? ==> AllStatsOk(p) && KeysDistinct(p)
    ensures r.Ok? ==> (forall i | 0 <= i < |p.nodes| :: p.nodes[i].key in r.value && r.value[p.nodes[i].key] == i)
    ensures r.Ok? ==> (forall k | k in r.value :: r.value[k] < |p.nodes| && p.nodes[r.value[k]].key == k)
  {
    var indexByKey: map<string, nat> := map[];
    for i := 0 to |p.nodes|
      invariant forall j | 0 <= j < i :: StatsOk(p.nodes[j])
      invariant forall j | 0 <= j < i :: p.nodes[j].key in indexByKey && indexByKey[p.nodes[j].key] == j
      invariant forall k | k in indexByKey :: indexByKey[k] < i && p.nodes[indexByKey[k]].key == k
    {
      var node := p.nodes[i];
      if !node.rewardSum.Number? {
        return Err(BadRewardSum(i));
      }
      if !BestOk(node.best) {
        return Err(BadBestReward(i));
      }
      if node.key in indexByKey {
        return Err(DuplicateKey(i));
      }
      indexByKey := indexByKey[node.key := i];
    }
    r := Ok(indexByKey);
  }

  /** The second pass: parents list their children and children name their parent. */
  method CheckLinks(p: Persisted) returns (failure: Option<LoadError>)
    ensures failure.Some? ==> Faulty(p, failure.value)
    ensures failure.None? ==> forall i | 0 <= i < |p.nodes| :: ParentOk(p, i) && ChildrenOk(p, i)
  {
    for i := 0 to |p.nodes|
      invariant forall k | 0 <= k < i :: ParentOk(p, k) && ChildrenOk(p, k)
    {
      var node := p.nodes[i];
      if node.parent.Some? {
        var parent := node.parent.value;
        if parent >= |p.nodes| {
          return Some(ParentOutOfBounds(i));
        }
        if i !in p.nodes[parent].children {
          return Some(MissingInParent(i));
        }
      }
      for c := 0 to |node.children|
        invariant forall k | 0 <= k < c :: ChildOk(p, i, node.children[k])
      {
        var child := node.children[c];
        assert child in p.nodes[i].children;
        if child >= |p.nodes| {
          return Some(ChildOutOfBounds(i, child));
        }
        if p.nodes[child].parent != Some(i) {
          return Some(ChildMismatch(i, child));
        }
      }
    }
    failure := None;
  }

  /** Loading accepts exactly the loadable files. What it makes of one is a
      well-formed tree, so a file that passes describes no cycle below the root. */
  method FromPersisted(p: Persisted) returns (r: Result<Tree, LoadError>)
    ensures r.Ok? <==> Loadable(p)
    ensures r.Err? ==> Faulty(p, r.error)
    ensures r.Ok? ==> WellFormed(r.value)
    ensures r.Ok? ==> LoadedFrom(r.value, p)
  {
    if p.nodes == [] {
      return Err(NoNodes);
    }
    if p.root >= |p.nodes| {
      return Err(RootOutOfBounds);
    }
    if p.nodes[p.root].parent.Some? {
      return Err(RootHasParent);
    }
    var indexed := IndexNodes(p);
    if indexed.Err? {
      FaultyIsNotLoadable(p, indexed.error);
      return Err(indexed.error);
    }
    var failure := CheckLinks(p);
    if failure.Some? {
      FaultyIsNotLoadable(p, failure.value);
      return Err(failure.value);
    }
    var nodes: seq<Node> := seq(|p.nodes|, i requires 0 <= i < |p.nodes| && AllStatsOk(p) => IntoNode(p.nodes[i]));
    r := Ok(Tree(p.config, p.root, nodes, indexed.value));
    LoadedLinksAgree(p, nodes);
  }

  lemma FaultyIsNotLoadable(p: Persisted, e: LoadError)
    requires Faulty(p, e)
    ensures !Loadable(p)
  {
    match e
    case ParentOutOfBounds(i) => assert !ParentOk(p, i);
    case MissingInParent(i) => assert !ParentOk(p, i);
    case ChildOutOfBounds(i, c) => assert !ChildOk(p, i, c) && !ChildrenOk(p, i);
    case ChildMismatch(i, c) => assert !ChildOk(p, i, c) && !ChildrenOk(p, i);
    case _ =>
  }

  ghost predicate LoadedFrom(t: Tree, p: Persisted) {
    && t.config == p.config && t.root == p.root && |t.nodes| == |p.nodes|
    && forall i | 0 <= i < |p.nodes| :: StatsOk(p.nodes[i]) && t.nodes[i] == IntoNode(p.nodes[i])
  }

  lemma LoadedLinksAgree(p: Persisted, nodes: seq<Node>)
    requires |nodes| == |p.nodes|
    requires forall i | 0 <= i < |nodes| ::
               nodes[i].parent == p.nodes[i].parent && nodes[i].children == p.nodes[i].children
    requires forall i | 0 <= i < |p.nodes| :: ParentOk(p, i) && ChildrenOk(p, i)
    ensures LinksAgree(nodes)
  {
    forall i | 0 <= i < |nodes| ensures ParentListsIt(nodes, i) && ChildrenNameIt(nodes, i) {
      assert ParentOk(p, i) && ChildrenOk(p, i);
      assert forall c | c in p.nodes[i].children :: ChildOk(p, i, c);
    }
  }

  /** A well-formed tree can be saved and what is loaded back is that tree, its
      index included: the index is determined by the nodes. */
  lemma SaveThenLoad(t: Tree, u: Tree)
    requires WellFormed(t)
    ensures Loadable(ToPersisted(t))
    ensures WellFormed(u) && LoadedFrom(u, ToPersisted(t)) ==> u == t
  {
    var p := ToPersisted(t);
    forall i | 0 <= i < |p.nodes| ensures ParentOk(p, i) && ChildrenOk(p, i) {
      assert ParentListsIt(t.nodes, i) && ChildrenNameIt(t.nodes, i);
      assert forall c | c in t.nodes[i].children :: IsChildOf(t.nodes, c, i);
    }
    forall i, j | 0 <= i < j < |p.nodes| ensures p.nodes[i].key != p.nodes[j].key {
      assert t.index[t.nodes[i].key] == i && t.index[t.nodes[j].key] == j;
    }
    if WellFormed(u) && LoadedFrom(u, p) {
      assert u.nodes == t.nodes;
      assert u.index.Keys == t.index.Keys by {
        forall k | k in u.index ensures k in t.index { assert u.nodes[u.index[k]].key == k; }
        forall k | k in t.index ensures k in u.index { assert t.nodes[t.index[k]].key == k; }
      }
      forall k | k in t.index ensures u.index[k] == t.index[k] { assert t.nodes[t.index[k]].key == k; }
    }
  }

  /** Flushing the tree and building a new one from the file. */
  method SaveAndLoad(t: Tree) returns (u: Tree)
    requires WellFormed(t)
    ensures u == t
  {
    var r := FromPersisted(ToPersisted(t));
    SaveThenLoad(t, if r.Ok? then r.value else t);
    u := r.value;
  }

  /** The load check does not look for a child listed twice: this file passes. */
  lemma DuplicateChildIsLoadable(config: Config)
    ensures
      var root := PersistedNode("root", None, [1, 1], 0, Number(0.0), None);
      var child := PersistedNode("a", Some(0), [], 0, Number(0.0), None);
      Loadable(Persisted(config, 0, [root, child]))
  {
    var root := PersistedNode("root", None, [1, 1], 0, Number(0.0), None);
    var child := PersistedNode("a", Some(0), [], 0, Number(0.0), None);
    var p := Persisted(config, 0, [root, child]);
    assert ParentOk(p, 0) && ParentOk(p, 1) && ChildrenOk(p, 0) && ChildrenOk(p, 1);
    assert root.key != child.key;
  }

  /** Nor for a cycle, and away from the root there can be one: `a` and `b` are each
      other's parent in this file, which passes. From the root it cannot be reached. */
  lemma DetachedCycleIsLoadable(config: Config)
    ensures
      var root := PersistedNode("root", None, [], 0, Number(0.0), None);
      var a := PersistedNode("a", Some(2), [2], 0, Number(0.0), None);
      var b := PersistedNode("b", Some(1), [1], 0, Number(0.0), None);
      Loadable(Persisted(config, 0, [root, a, b]))
  {
    var root := PersistedNode("root", None, [], 0, Number(0.0), None);
    var a := PersistedNode("a", Some(2), [2], 0, Number(0.0), None);
    var b := PersistedNode("b", Some(1), [1], 0, Number(0.0), None);
    var p := Persisted(config, 0, [root, a, b]);
    assert ParentOk(p, 0) && ParentOk(p, 1) && ParentOk(p, 2);
    assert ChildrenOk(p, 0) && ChildrenOk(p, 1) && ChildrenOk(p, 2);
    assert root.key != a.key && root.key != b.key && a.key != b.key;
  }
}
