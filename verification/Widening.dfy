/** Progressive widening over whole runs: no node is ever given more children than its
    visits allow, plus the one being added, plus those that came with a refused reward. */
module Widening {
  import opened Wrappers
  import opened SearchTree
  import opened Selection
  import opened PendingSearch
  import opened SearchRuns

  ghost predicate Monotone(config: Config) {
    forall m: nat, n: nat | m <= n :: config.limit(m) <= config.limit(n)
  }

  function MaxReal(a: real, b: real): real {
    if a < b then b else a
  }

  /** Without the refused ones, fewer children than the widening limit for the node's
      visits, or one, plus one. */
  predicate WithinLimit(config: Config, n: Node, refused: nat) {
    |n.children| as real < MaxReal(1.0, config.limit(Max1(n.visits))) + 1.0 + refused as real
  }

  /** How many steps below the root a node is. */
  function Depth(nodes: seq<Node>, i: nat): nat
    requires i < |nodes|
    decreases i
  {
    match nodes[i].parent
    case None => 0
    case Some(p) => if p < i then 1 + Depth(nodes, p) else 0
  }

  lemma {:induction false} DepthDependsOnParents(nodes: seq<Node>, more: seq<Node>, i: nat)
    requires i < |nodes| <= |more|
    requires forall k | 0 <= k < |nodes| :: more[k].parent == nodes[k].parent
    ensures Depth(more, i) == Depth(nodes, i)
    decreases i
  {
    if nodes[i].parent.Some? && nodes[i].parent.value < i {
      DepthDependsOnParents(nodes, more, nodes[i].parent.value);
    }
  }

  ghost predicate Ordered(t: Tree) {
    forall i | 0 <= i < |t.nodes| :: t.nodes[i].parent.Some? ==> t.nodes[i].parent.value < i
  }

  /** A chain goes one level down with each step. */
  lemma {:induction false} ChainDepth(t: Tree, path: seq<string>, j: nat)
    requires WellFormed(t) && Ordered(t) && Chain(t, path) && j < |path|
    ensures path[j] in t.index && Depth(t.nodes, t.index[path[j]]) == j
    decreases j
  {
    assert Linked(t, path, j);
    if j > 0 {
      ChainDepth(t, path, j - 1);
      var p := t.index[path[j - 1]];
      assert ChildrenNameIt(t.nodes, p);
      assert IsChildOf(t.nodes, t.index[path[j]], p);
    }
  }

  /** `refused(i)` is how many children of node `i` came with refused reports. */
  ghost predicate LimitsKept(t: Tree, refused: nat -> nat, maxDepth: nat) {
    forall i | 0 <= i < |t.nodes| ::
      Depth(t.nodes, i) + 1 < maxDepth ==> WithinLimit(t.config, t.nodes[i], refused(i))
  }

  /** Was the path cut off by the depth, or may widening go on at its end, the refused
      children not counted? */
  ghost predicate StopsWell(t: Tree, refused: nat -> nat, path: seq<string>, maxDepth: nat) {
    && path != [] && |path| <= maxDepth && Last(path) in t.index && t.index[Last(path)] < |t.nodes|
    && var e := t.index[Last(path)];
    && var n := t.nodes[e];
    && (|path| == maxDepth || |n.children| <= refused(e)
        || |n.children| as real < LimitOf(t, n) + refused(e) as real)
  }

  function LimitOf(t: Tree, n: Node): real {
    t.config.limit(Max1(n.visits))
  }

  ghost predicate WideInv(s: Search, refused: nat -> nat, maxDepth: nat) {
    && SearchOk(s) && Ordered(s.tree) && LimitsKept(s.tree, refused, maxDepth)
    && StopsWell(s.tree, refused, PathSoFar(s), maxDepth)
  }

  /** Does the call add a child to node `i` and then refuse the reward? */
  predicate AddsRefused(s: Search, call: Call, i: nat)
    requires SearchOk(s)
  {
    && call.Report? && call.reward.NonFinite? && call.key !in s.tree.index
    && Last(PathSoFar(s)) in s.tree.index && s.tree.index[Last(PathSoFar(s))] == i
  }

  lemma ChildKeepsLimits(t: Tree, p: nat, key: string, before: nat -> nat, after: nat -> nat, maxDepth: nat)
    requires WellFormed(t) && Ordered(t) && LimitsKept(t, before, maxDepth) && p < |t.nodes|
    requires forall i :: after(i) >= before(i)
    requires after(p) == before(p) ==>
               Depth(t.nodes, p) + 1 < maxDepth ==>
                 WithinLimit(t.config, t.nodes[p].(children := t.nodes[p].children + [|t.nodes|]), after(p))
    ensures Ordered(WithChild(t, p, key)) && LimitsKept(WithChild(t, p, key), after, maxDepth)
  {
    var u := WithChild(t, p, key);
    forall i | 0 <= i < |u.nodes|
      ensures Depth(u.nodes, i) + 1 < maxDepth ==> WithinLimit(u.config, u.nodes[i], after(i))
    {
      if i < |t.nodes| {
        DepthDependsOnParents(t.nodes, u.nodes, i);
        assert Depth(t.nodes, i) + 1 < maxDepth ==> WithinLimit(t.config, t.nodes[i], before(i));
      }
    }
  }

  lemma CreditKeepsLimits(t: Tree, u: Tree, path: seq<string>, reward: real, refused: nat -> nat, maxDepth: nat)
    requires Ordered(t) && LimitsKept(t, refused, maxDepth) && Monotone(t.config)
    requires CreditedOn(t, u, path, 0, reward)
    ensures Ordered(u) && LimitsKept(u, refused, maxDepth)
  {
    forall i | 0 <= i < |u.nodes|
      ensures Depth(u.nodes, i) + 1 < maxDepth ==> WithinLimit(u.config, u.nodes[i], refused(i))
    {
      DepthDependsOnParents(t.nodes, u.nodes, i);
      assert Depth(t.nodes, i) + 1 < maxDepth ==> WithinLimit(t.config, t.nodes[i], refused(i));
      assert t.config.limit(Max1(t.nodes[i].visits)) <= t.config.limit(Max1(u.nodes[i].visits));
    }
  }

  lemma SelectedStopsWell(t: Tree, refused: nat -> nat, maxDepth: nat)
    requires WellFormed(t) && maxDepth >= 1
    ensures StopsWell(t, refused, SelectPath(t, maxDepth).value, maxDepth)
  {
    var w := Walk(t, t.root, maxDepth - 1);
    WalkIsTheGreedyWalk(t, t.root, w, maxDepth);
    var path := SelectPath(t, maxDepth).value;
    assert w[|w| - 1] in w && Last(path) == t.nodes[w[|w| - 1]].key;
  }

  /** A refused report that adds no child changes nothing at all. */
  lemma RefusedChangesNothing(s: Search, call: Call)
    requires SearchOk(s) && call.Report? && call.reward.NonFinite? && call.key in s.tree.index
    ensures Do(s, call).0 == s
  {
  }

  /** One that does adds just that. */
  lemma RefusedAddsChild(s: Search, call: Call)
    requires SearchOk(s) && call.Report? && call.reward.NonFinite? && call.key !in s.tree.index
    ensures Last(PathSoFar(s)) in s.tree.index
    ensures Do(s, call).0 == s.(tree := WithChild(s.tree, s.tree.index[Last(PathSoFar(s))], call.key))
  {
    assert Linked(s.tree, PathSoFar(s), |PathSoFar(s)| - 1);
  }

  lemma RefusedKeepsWideInv(s: Search, call: Call, before: nat -> nat, after: nat -> nat, maxDepth: nat)
    requires WideInv(s, before, maxDepth) && call.Report? && call.reward.NonFinite?
    requires forall i :: after(i) == before(i) + (if AddsRefused(s, call, i) then 1 else 0)
    ensures WideInv(Do(s, call).0, after, maxDepth)
  {
    var t, path := s.tree, PathSoFar(s);
    assert Linked(t, path, |path| - 1);
    if call.key in t.index {
      RefusedChangesNothing(s, call);
    } else {
      RefusedAddsChild(s, call);
      var p := t.index[Last(path)];
      ChildKeepsLimits(t, p, call.key, before, after, maxDepth);
      assert PathSoFar(Do(s, call).0) == path;
    }
  }

  /** A report with a finite reward: growing keeps the limits because the path stopped
      well, crediting because the limit grows. */
  lemma AcceptedKeepsWideInv(s: Search, call: Call, refused: nat -> nat, maxDepth: nat)
    requires WideInv(s, refused, maxDepth) && Monotone(s.tree.config) && maxDepth >= 1
    requires call.Report? && call.reward.Finite? && call.maxDepth == maxDepth
    ensures WideInv(Do(s, call).0, refused, maxDepth)
  {
    var t, path, key := s.tree, PathSoFar(s), call.key;
    var g := Grown(t, path, key);
    if g.Ok? {
      var full := ReportPath(path, key);
      GrownKeepsLimits(s, key, refused, maxDepth);
      CreditChain(g.value, full, 0, call.reward.value);
      var v := Backpropagate(g.value, full, call.reward).0;
      CreditKeepsLimits(g.value, v, full, call.reward.value, refused, maxDepth);
      SelectedStopsWell(v, refused, maxDepth);
    }
  }

  lemma GrownKeepsLimits(s: Search, key: string, refused: nat -> nat, maxDepth: nat)
    requires WideInv(s, refused, maxDepth) && Grown(s.tree, PathSoFar(s), key).Ok?
    ensures
      var u := Grown(s.tree, PathSoFar(s), key).value;
      u.config == s.tree.config && Ordered(u) && LimitsKept(u, refused, maxDepth)
  {
    var t, path := s.tree, PathSoFar(s);
    ChainDepth(t, path, |path| - 1);
    if Last(path) != key && key !in t.index {
      ChildKeepsLimits(t, t.index[Last(path)], key, refused, refused, maxDepth);
    }
  }

  lemma SelectKeepsWideInv(s: Search, refused: nat -> nat, maxDepth: nat)
    requires WideInv(s, refused, maxDepth) && maxDepth >= 1
    ensures WideInv(Do(s, Select(maxDepth)).0, refused, maxDepth)
  {
    SelectedStopsWell(s.tree, refused, maxDepth);
    hide Ordered, LimitsKept;
  }

  lemma ConfigKept(s: Search, call: Call)
    requires SearchOk(s)
    ensures Do(s, call).0.tree.config == s.tree.config
  {
  }

  lemma DoKeepsWideInv(s: Search, call: Call, before: nat -> nat, after: nat -> nat, maxDepth: nat)
    requires WideInv(s, before, maxDepth) && Monotone(s.tree.config) && maxDepth >= 1 && call.maxDepth == maxDepth
    requires forall i :: after(i) == before(i) + (if AddsRefused(s, call, i) then 1 else 0)
    ensures WideInv(Do(s, call).0, after, maxDepth) && Do(s, call).0.tree.config == s.tree.config
  {
    ConfigKept(s, call);
    hide Do, Monotone, Ordered, LimitsKept, StopsWell, SearchOk;
    if call.Report? && call.reward.NonFinite? {
      RefusedKeepsWideInv(s, call, before, after, maxDepth);
    } else {
      if call.Report? {
        AcceptedKeepsWideInv(s, call, before, maxDepth);
      } else {
        SelectKeepsWideInv(s, before, maxDepth);
      }
      hide WideInv;
      SameCounts(Do(s, call).0, before, after, maxDepth);
    }
  }

  lemma SameCounts(s: Search, before: nat -> nat, after: nat -> nat, maxDepth: nat)
    requires WideInv(s, before, maxDepth) && forall i :: after(i) == before(i)
    ensures WideInv(s, after, maxDepth)
  {
  }

  /** How many refused reports of a run added a child to node `i`. */
  function RefusedAdds(s: Search, calls: seq<Call>, i: nat): nat
    requires SearchOk(s)
    decreases |calls|
  {
    if calls == [] then 0
    else
      var front := calls[..|calls| - 1];
      RefusedAdds(s, front, i) + (if AddsRefused(Run(s, front), calls[|calls| - 1], i) then 1 else 0)
  }

  lemma {:induction false} RunKeepsWideInv(s: Search, calls: seq<Call>, refused: nat -> nat, maxDepth: nat)
    requires WideInv(s, i => 0, maxDepth) && Monotone(s.tree.config) && maxDepth >= 1
    requires forall k | 0 <= k < |calls| :: calls[k].maxDepth == maxDepth
    requires forall i :: refused(i) == RefusedAdds(s, calls, i)
    ensures WideInv(Run(s, calls), refused, maxDepth) && Run(s, calls).tree.config == s.tree.config
    decreases |calls|
  {
    assert SearchOk(s);
    if calls == [] {
      SameCounts(s, i => 0, refused, maxDepth);
    } else {
      var front := calls[..|calls| - 1];
      var before := (i: nat) requires SearchOk(s) => RefusedAdds(s, front, i);
      hide Do, WideInv, SearchOk, Monotone, AddsRefused;
      RunKeepsWideInv(s, front, before, maxDepth);
      DoKeepsWideInv(Run(s, front), calls[|calls| - 1], before, refused, maxDepth);
    }
  }

  /** In every run from a fresh tree with one search depth and a limit that grows with
      the visits, whatever the rewards: each node above the last level has fewer children
      than that limit, or one, plus one, plus those that refused reports added to it. */
  lemma ProgressiveWideningBound(rootKey: string, config: Config, calls: seq<Call>, maxDepth: nat, i: nat)
    requires Monotone(config) && forall k | 0 <= k < |calls| :: calls[k].maxDepth == maxDepth
    requires i < |Run(Search(Fresh(rootKey, config), None), calls).tree.nodes|
    ensures
      var s := Search(Fresh(rootKey, config), None);
      var t := Run(s, calls).tree;
      Depth(t.nodes, i) + 1 < maxDepth ==> WithinLimit(config, t.nodes[i], RefusedAdds(s, calls, i))
  {
    var s := Search(Fresh(rootKey, config), None);
    if maxDepth >= 1 {
      FreshIsWide(rootKey, config, maxDepth);
      hide Fresh, Run, RefusedAdds, Monotone, SearchOk, Ordered, StopsWell, WithinLimit, Depth;
      RunKeepsWideInv(s, calls, (i: nat) => RefusedAdds(s, calls, i), maxDepth);
    }
  }

  lemma FreshIsWide(rootKey: string, config: Config, maxDepth: nat)
    requires maxDepth >= 1
    ensures WideInv(Search(Fresh(rootKey, config), None), i => 0, maxDepth)
    ensures Fresh(rootKey, config).config == config
  {
  }

  /** With finite rewards nothing is added to the limit. */
  lemma {:induction false} FiniteRunsRefuseNothing(s: Search, calls: seq<Call>, i: nat)
    requires SearchOk(s) && forall k | 0 <= k < |calls| :: calls[k].Report? ==> calls[k].reward.Finite?
    ensures RefusedAdds(s, calls, i) == 0
    decreases |calls|
  {
    if calls != [] { FiniteRunsRefuseNothing(s, calls[..|calls| - 1], i); }
  }

  /* ---------- refused reports that do add children ---------- */

  /** Keys that differ from the root's and from each other by their length. */
  function NewKey(rootKey: string, n: nat): string {
    rootKey + seq(n + 1, i => 'x')
  }

  function Refused(rootKey: string, maxDepth: nat, n: nat): (calls: seq<Call>)
    ensures |calls| == n
  {
    if n == 0 then [] else Refused(rootKey, maxDepth, n - 1) + [Report(NewKey(rootKey, n - 1), NonFinite, maxDepth)]
  }

  /** Nothing selected, nothing visited, and `n` children under the root. */
  ghost predicate Crowded(s: Search, rootKey: string, config: Config, n: nat) {
    && SearchOk(s) && s.pending == None && s.tree.config == config && s.tree.root == 0
    && RootKey(s.tree) == rootKey && |s.tree.nodes[0].children| == n && s.tree.nodes[0].visits == 0
    && (forall k | k in s.tree.index :: |k| <= |rootKey| + n)
  }

  lemma OneMoreRefused(s: Search, rootKey: string, config: Config, maxDepth: nat, n: nat)
    requires Crowded(s, rootKey, config, n)
    ensures Crowded(Do(s, Report(NewKey(rootKey, n), NonFinite, maxDepth)).0, rootKey, config, n + 1)
  {
    var key := NewKey(rootKey, n);
    assert |key| == |rootKey| + n + 1;
    assert PathSoFar(s) == [rootKey] && Last([rootKey]) == rootKey;
    assert Linked(s.tree, PathSoFar(s), 0);
    assert Do(s, Report(key, NonFinite, maxDepth)).0 == s.(tree := WithChild(s.tree, 0, key));
  }

  lemma {:induction false} RefusedCrowd(rootKey: string, config: Config, maxDepth: nat, n: nat)
    ensures Crowded(Run(Search(Fresh(rootKey, config), None), Refused(rootKey, maxDepth, n)), rootKey, config, n)
  {
    var s, calls := Search(Fresh(rootKey, config), None), Refused(rootKey, maxDepth, n);
    if n > 0 {
      RefusedCrowd(rootKey, config, maxDepth, n - 1);
      assert calls[..n - 1] == Refused(rootKey, maxDepth, n - 1);
      hide Do, Crowded, NewKey, Fresh, SearchOk;
      OneMoreRefused(Run(s, calls[..n - 1]), rootKey, config, maxDepth, n - 1);
    }
  }

  /** After `n` refused reports the root has more children than its limit allows. */
  ghost predicate Escapes(rootKey: string, config: Config, maxDepth: nat, n: nat) {
    var t := Run(Search(Fresh(rootKey, config), None), Refused(rootKey, maxDepth, n)).tree;
    && |t.nodes| >= 1 && Depth(t.nodes, 0) + 1 < maxDepth && t.config == config
    && !WithinLimit(config, t.nodes[0], 0)
  }

  /** Whatever the limits, enough refused reports for new keys break the bound at the
      root: the child is added before the reward is refused, and no new path is selected. */
  lemma RefusedReportsEscapeTheBound(rootKey: string, config: Config, maxDepth: nat)
    requires maxDepth >= 2
    ensures exists n: nat :: Escapes(rootKey, config, maxDepth, n)
  {
    var most := MaxReal(1.0, config.limit(1));
    var n := most.Floor + 2;
    RefusedCrowd(rootKey, config, maxDepth, n);
    assert Escapes(rootKey, config, maxDepth, n);
  }
}
