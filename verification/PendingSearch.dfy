/** The driver that alternates reporting a reward and selecting where to go on. */
module PendingSearch {
  import opened Wrappers
  import opened SearchTree
  import opened Selection

  datatype Search = Search(tree: Tree, pending: Option<seq<string>>)

  datatype Call = Select(maxDepth: nat) | Report(key: string, reward: Reward, maxDepth: nat)

  datatype SelectionStep = SelectionStep(selectedKey: string, selectedPath: seq<string>,
                                         backpropagationPath: seq<string>)

  type Outcome = (Search, Result<SelectionStep, Error>)

  /** The pending path goes down from the root of a well-formed tree. */
  ghost predicate SearchOk(s: Search) {
    WellFormed(s.tree) && (s.pending.Some? ==> Chain(s.tree, s.pending.value))
  }

  function Last(path: seq<string>): string
    requires path != []
  {
    path[|path| - 1]
  }

  function PathSoFar(s: Search): (path: seq<string>)
    requires SearchOk(s)
    ensures Chain(s.tree, path)
  {
    match s.pending
    case Some(path) => path
    case None =>
      assert Linked(s.tree, [RootKey(s.tree)], 0);
      [RootKey(s.tree)]
  }

  /** The path a report for `key` runs along: one node further, unless it is for
      the node that was selected. */
  function ReportPath(path: seq<string>, key: string): (r: seq<string>)
    requires path != []
    ensures r != []
  {
    if Last(path) == key then path else path + [key]
  }

  function Grown(t: Tree, path: seq<string>, key: string): (r: Result<Tree, Error>)
    requires WellFormed(t) && Chain(t, path)
    ensures r.Ok? ==> WellFormed(r.value) && Chain(r.value, ReportPath(path, key)) && Chain(r.value, path)
  {
    if Last(path) == key then Ok(t)
    else
      assert Linked(t, path, |path| - 1);
      if key !in t.index then
        var p := t.index[Last(path)];
        WithChildWellFormed(t, p, key);
        ChildKeepsChain(t, p, key, path);
        ChainExtends(WithChild(t, p, key), path, key);
        Ok(WithChild(t, p, key))
      else if t.nodes[t.index[key]].parent == Some(t.index[Last(path)]) then
        ChainExtends(t, path, key);
        Ok(t)
      else Err(OtherParent)
  }

  /** Growing is ensuring the child below the end of the path. */
  lemma GrownEnsuresChild(t: Tree, path: seq<string>, key: string)
    requires WellFormed(t) && Chain(t, path) && Last(path) != key
    ensures Grown(t, path, key) == EnsureChild(t, Last(path), key)
  {
    assert Linked(t, path, |path| - 1);
  }

  function Selected(s: Search, t: Tree, maxDepth: nat, backpropagated: seq<string>): (r: Outcome)
    requires WellFormed(t) && (s.pending.Some? ==> Chain(t, s.pending.value))
    ensures SearchOk(r.0) && r.0.tree == t
  {
    if maxDepth == 0 then (s.(tree := t), Err(DepthZero))
    else
      SelectedIsChain(t, maxDepth);
      var path := SelectPath(t, maxDepth).value;
      (Search(t, Some(path)), Ok(SelectionStep(Last(path), path, backpropagated)))
  }

  /** One call of the driver. A call that fails keeps what it did before failing. */
  function Do(s: Search, call: Call): (r: Outcome)
    requires SearchOk(s)
    ensures SearchOk(r.0)
  {
    match call
    case Select(maxDepth) => Selected(s, s.tree, maxDepth, [])
    case Report(key, reward, maxDepth) =>
      var path := PathSoFar(s);
      match Grown(s.tree, path, key)
      case Err(e) => (s, Err(e))
      case Ok(u) =>
        var (v, failure) := Backpropagate(u, ReportPath(path, key), reward);
        assert s.pending.Some? ==> Chain(v, s.pending.value) by { ShapeKeepsChain(u, v, path); }
        if failure.Some? then (s.(tree := v), Err(failure.value))
        else Selected(s, v, maxDepth, ReportPath(path, key))
  }

  /** Is the key already somewhere else in the tree? */
  predicate UnderOtherParent(t: Tree, path: seq<string>, key: string)
    requires path != [] && Last(path) in t.index
  {
    && Last(path) != key && key in t.index && t.index[key] < |t.nodes|
    && t.nodes[t.index[key]].parent != Some(t.index[Last(path)])
  }

  /** A report fails for three reasons only. */
  lemma ReportFailsIff(s: Search, key: string, reward: Reward, maxDepth: nat)
    requires SearchOk(s)
    ensures Linked(s.tree, PathSoFar(s), |PathSoFar(s)| - 1)
    ensures
      var r := Do(s, Report(key, reward, maxDepth)).1;
      var elsewhere := UnderOtherParent(s.tree, PathSoFar(s), key);
      && (r.Err? <==> elsewhere || reward.NonFinite? || maxDepth == 0)
      && (r.Err? ==> r.error == if elsewhere then OtherParent
                                else if reward.NonFinite? then RewardNotFinite else DepthZero)
  {
    var path := PathSoFar(s);
    assert Linked(s.tree, path, |path| - 1);
    var g := Grown(s.tree, path, key);
    if g.Ok? && reward.Finite? { CreditChain(g.value, ReportPath(path, key), 0, reward.value); }
  }

  function Run(s: Search, calls: seq<Call>): (r: Search)
    requires SearchOk(s)
    ensures SearchOk(r)
    decreases |calls|
  {
    if calls == [] then s else Do(Run(s, calls[..|calls| - 1]), calls[|calls| - 1]).0
  }
}
