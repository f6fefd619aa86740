/** The search tree and its driver as they run: fields updated in place, loops
    over children and paths. Each method is proved against the functions of
    `SearchTree`, `Selection` and `PendingSearch`. */
module MctsClasses {
  import opened Wrappers
  import opened SearchTree
  import Selection
  import PS = PendingSearch

  class Mcts {
    const config: Config
    var root: nat
    var nodes: seq<Node>
    var indexByKey: map<string, nat>

    ghost function View(): Tree
      reads this
    {
      Tree(config, root, nodes, indexByKey)
    }

    ghost predicate Valid()
      reads this
    {
      WellFormed(View())
    }

    constructor (rootKey: string, config: Config)
      ensures Valid() && View() == Fresh(rootKey, config)
    {
      this.config := config;
      root := 0;
      nodes := [Node(rootKey, None, [], 0, 0.0, None)];
      indexByKey := map[rootKey := 0];
    }

    method EnsureChild(parentKey: string, childKey: string) returns (r: Result<(), Error>)
      requires Valid()
      modifies this
      ensures Valid()
      ensures match SearchTree.EnsureChild(old(View()), parentKey, childKey)
              case Ok(u) => r == Ok(()) && View() == u
              case Err(e) => r == Err(e) && View() == old(View())
    {
      ghost var t := View();
      if parentKey !in indexByKey {
        return Err(UnknownNode);
      }
      var parent := indexByKey[parentKey];
      if childKey in indexByKey {
        var existingChild := indexByKey[childKey];
        if nodes[existingChild].parent != Some(parent) {
          return Err(OtherParent);
        }
        // The parent lists it already, so the repair the program has here is never needed.
        assert ParentListsIt(nodes, existingChild) && existingChild in nodes[parent].children;
        return Ok(());
      }
      WithChildWellFormed(t, parent, childKey);
      var childIndex := |nodes|;
      nodes := nodes + [Node(childKey, Some(parent), [], 0, 0.0, None)];
      nodes := nodes[parent := nodes[parent].(children := nodes[parent].children + [childIndex])];
      indexByKey := indexByKey[childKey := childIndex];
      assert nodes == WithChild(t, parent, childKey).nodes;
      r := Ok(());
    }

    method CreditAt(nodeIndex: nat, reward: real)
      requires Valid() && nodeIndex < |nodes|
      modifies this`nodes
      ensures Valid() && View() == Credit(old(View()), nodeIndex, reward)
    {
      ghost var t := View();
      var node := nodes[nodeIndex];
      node := node.(visits := SatInc(node.visits));
      node := node.(rewardSum := node.rewardSum + reward);
      if node.best.None? || reward > node.best.value {
        node := node.(best := Some(reward));
      }
      nodes := nodes[nodeIndex := node];
      SameShapeWellFormed(t, View());
    }

    method BackpropagatePath(path: seq<string>, reward: Reward) returns (failure: Option<Error>)
      requires Valid()
      modifies this`nodes
      ensures Valid()
      ensures (View(), failure) == Backpropagate(old(View()), path, reward)
    {
      if reward.NonFinite? {
        return Some(RewardNotFinite);
      }
      if path == [] {
        return Some(EmptyPath);
      }
      ghost var result := CreditFrom(View(), path, 0, reward.value);
      for index := 0 to |path|
        invariant Valid()
        invariant index > 0 ==> path[index - 1] in indexByKey
        invariant CreditFrom(View(), path, index, reward.value) == result
      {
        var key := path[index];
        if key !in indexByKey {
          return Some(UnknownNode);
        }
        var nodeIndex := indexByKey[key];
        if index > 0 {
          var previousIndex := indexByKey[path[index - 1]];
          if nodeIndex !in nodes[previousIndex].children {
            return Some(NotAChild);
          }
        }
        CreditAt(nodeIndex, reward.value);
      }
      failure := None;
    }

    method ShouldExpandHere(nodeIndex: nat) returns (expand: bool)
      requires nodeIndex < |nodes|
      ensures expand <==> Selection.Expandable(config, nodes[nodeIndex])
    {
      var node := nodes[nodeIndex];
      if node.children == [] {
        return true;
      }
      var visits := if node.visits < 1 then 1 else node.visits;
      expand := |node.children| as real < config.limit(visits);
    }

    /** The scan keeps the first best child, and on a tie the one with the smaller key. */
    method SelectBestChildByUcb(parentIndex: nat) returns (bestChild: Option<nat>)
      requires Valid() && parentIndex < |nodes|
      ensures Selection.InArena(View(), nodes[parentIndex].children)
      ensures bestChild.None? <==> nodes[parentIndex].children == []
      ensures bestChild.Some? ==>
                Selection.BestAmong(View(), parentIndex, nodes[parentIndex].children, bestChild.value)
      ensures bestChild.Some? ==> Selection.Preferred(View(), parentIndex, bestChild.value)
    {
      ghost var t := View();
      var parent := nodes[parentIndex];
      assert ChildrenNameIt(nodes, parentIndex);
      assert forall c | c in parent.children :: IsChildOf(nodes, c, parentIndex);
      bestChild := None;
      var bestScore := Selection.NegInfinity;
      for i := 0 to |parent.children|
        invariant Selection.InArena(t, parent.children[..i])
        invariant i == 0 <==> bestChild.None?
        invariant i == 0 ==> bestScore.NegInfinity?
        invariant bestChild.Some? ==>
                    bestChild.value in parent.children[..i] && bestChild.value < |nodes|
                    && bestScore == Selection.ScoreOf(config, parent, nodes[bestChild.value])
                    && Selection.BestAmong(t, parentIndex, parent.children[..i], bestChild.value)
      {
        var childIndex := parent.children[i];
        assert childIndex in parent.children && IsChildOf(nodes, childIndex, parentIndex);
        var score := Selection.ScoreOf(config, parent, nodes[childIndex]);
        assert parent.children[..i + 1] == parent.children[..i] + [childIndex];
        if bestChild.Some? { KeepBest(t, parentIndex, parent.children[..i], bestChild.value, childIndex); }
        Selection.LessTotal(nodes[childIndex].key, nodes[childIndex].key);
        if Selection.Greater(score, bestScore) {
          bestScore := score;
          bestChild := Some(childIndex);
        } else if score == bestScore && bestChild.Some?
                  && Selection.Less(nodes[childIndex].key, nodes[bestChild.value].key) {
          bestChild := Some(childIndex);
        }
      }
      assert parent.children[..|parent.children|] == parent.children;
      if bestChild.Some? { Selection.BestIsPreferred(t, parentIndex, bestChild.value); }
    }

    /** One step down, or none where the walk stops. A node that may not be widened
        has children, so the program's "no selectable children" cannot happen. */
    method Descend(cursor: nat) returns (next: Option<nat>)
      requires Valid() && cursor < |nodes|
      ensures next == Selection.NextOnWalk(View(), cursor)
    {
      var expand := ShouldExpandHere(cursor);
      if expand {
        return None;
      }
      next := SelectBestChildByUcb(cursor);
      var children := nodes[cursor].children;
      Selection.BestIsUnique(View(), cursor, children, children, next.value,
                             Selection.BestOf(View(), cursor, children));
    }

    method SelectPath(maxDepth: nat) returns (r: Result<seq<string>, Error>)
      requires Valid()
      ensures r == Selection.SelectPath(View(), maxDepth)
    {
      if maxDepth == 0 {
        return Err(DepthZero);
      }
      ghost var t := View();
      var selected := [nodes[root].key];
      var cursor: nat := root;
      hide WellFormed, Selection.NextOnWalk;
      while |selected| < maxDepth
        invariant 1 <= |selected| <= maxDepth && cursor < |nodes|
        invariant Selection.KeysOnward(t, selected, cursor, maxDepth)
               == Selection.KeysOnward(t, [nodes[root].key], root, maxDepth)
      {
        var nextChild := Descend(cursor);
        if nextChild.None? {
          break;
        }
        selected := selected + [nodes[nextChild.value].key];
        cursor := nextChild.value;
      }
      Selection.KeysOnwardIsSelected(t, maxDepth);
      r := Ok(selected);
    }
  }

  lemma KeepBest(t: Tree, p: nat, s: seq<nat>, b: nat, c: nat)
    requires p < |t.nodes| && c < |t.nodes| && Selection.InArena(t, s) && Selection.BestAmong(t, p, s, b)
    ensures !Selection.Beats(t, p, b, c) ==> Selection.BestAmong(t, p, s + [c], c)
    ensures Selection.Beats(t, p, b, c) ==> Selection.BestAmong(t, p, s + [c], b)
  {
    Selection.LessTotal(t.nodes[b].key, t.nodes[c].key);
    Selection.LessTotal(t.nodes[c].key, t.nodes[c].key);
    if !Selection.Beats(t, p, b, c) {
      forall d | d in s ensures Selection.Beats(t, p, c, d) {
        Selection.BeatsTransitive(t, p, c, b, d);
      }
    }
  }

  class PendingTreeSearch {
    const tree: Mcts
    var pendingSelectionPath: Option<seq<string>>

    ghost function View(): PS.Search
      reads this, tree
    {
      PS.Search(tree.View(), pendingSelectionPath)
    }

    ghost predicate Valid()
      reads this, tree
    {
      PS.SearchOk(View())
    }

    constructor (rootKey: string, config: Config)
      ensures Valid() && fresh(tree)
      ensures View() == PS.Search(Fresh(rootKey, config), None)
    {
      tree := new Mcts(rootKey, config);
      pendingSelectionPath := None;
    }

    method SelectNext(maxDepth: nat) returns (r: Result<PS.SelectionStep, Error>)
      requires Valid()
      modifies this
      ensures Valid() && (View(), r) == PS.Do(old(View()), PS.Select(maxDepth))
    {
      r := Select(maxDepth, []);
    }

    /** The common end of both calls: descend, and remember the path. */
    method Select(maxDepth: nat, backpropagated: seq<string>) returns (r: Result<PS.SelectionStep, Error>)
      requires Valid()
      modifies this
      ensures Valid() && (View(), r) == PS.Selected(old(View()), old(View()).tree, maxDepth, backpropagated)
    {
      var selected := tree.SelectPath(maxDepth);
      if selected.Err? {
        return Err(selected.error);
      }
      Selection.SelectedIsChain(tree.View(), maxDepth);
      pendingSelectionPath := Some(selected.value);
      r := Ok(PS.SelectionStep(selected.value[|selected.value| - 1], selected.value, backpropagated));
    }

    method BackpropagateAndSelect(currentKey: string, reward: Reward, maxDepth: nat)
      returns (r: Result<PS.SelectionStep, Error>)
      requires Valid()
      modifies this, tree
      ensures Valid() && (View(), r) == PS.Do(old(View()), PS.Report(currentKey, reward, maxDepth))
    {
      ghost var s := View();
      ghost var soFar := PS.PathSoFar(s);
      var path;
      if pendingSelectionPath.Some? {
        path := pendingSelectionPath.value;
      } else {
        path := [tree.nodes[tree.root].key];
      }
      var parent := path[|path| - 1];
      if parent != currentKey {
        PS.GrownEnsuresChild(s.tree, path, currentKey);
        var ensured := tree.EnsureChild(parent, currentKey);
        if ensured.Err? {
          return Err(ensured.error);
        }
        path := path + [currentKey];
      }
      ghost var u := tree.View();
      assert PS.Grown(s.tree, soFar, currentKey) == Ok(u);
      var failure := tree.BackpropagatePath(path, reward);
      ShapeKeepsChain(u, tree.View(), soFar);
      if failure.Some? {
        return Err(failure.value);
      }
      r := Select(maxDepth, path);
    }
  }
}
