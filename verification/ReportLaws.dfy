/** What reports do to the tree, in the nodes' own terms. */
module ReportLaws {
  import opened Wrappers
  import opened SearchTree
  import opened Selection
  import opened PendingSearch
  import opened SearchRuns

  /* ---------- one report ---------- */

  /** Where the search stands: at the end of the pending path, or at the root. */
  function Here(s: Search): seq<string>
    requires SearchOk(s)
  {
    match s.pending
    case Some(path) => path
    case None => [s.tree.nodes[s.tree.root].key]
  }

  /** The node under `key` has been credited once more; a new one for the first time. */
  predicate CreditedOnce(t: Tree, u: Tree, key: string, reward: real) {
    && key in u.index && u.index[key] < |u.nodes|
    && var after := u.nodes[u.index[key]];
    && if key in t.index && t.index[key] < |t.nodes| then
         var before := t.nodes[t.index[key]];
         && after.visits == (if before.visits < VISITS_MAX then before.visits + 1 else before.visits)
         && after.rewardSum == before.rewardSum + reward
         && after.best == Some(match before.best case None => reward
                               case Some(b) => if reward > b then reward else b)
       else after.visits == 1 && after.rewardSum == reward && after.best == Some(reward)
  }

  predicate SameStatistics(t: Tree, u: Tree, key: string) {
    && key in t.index && t.index[key] < |t.nodes| && key in u.index && u.index[key] < |u.nodes|
    && var before, after := t.nodes[t.index[key]], u.nodes[u.index[key]];
    && after.visits == before.visits && after.rewardSum == before.rewardSum && after.best == before.best
  }

  lemma CreditedKeys(t: Tree, u: Tree, path: seq<string>, reward: real, key: string)
    requires WellFormed(t) && Chain(t, path) && CreditedOn(t, u, path, 0, reward)
    ensures key in path ==> CreditedOnce(t, u, key, reward)
    ensures key in t.index && key !in path ==> SameStatistics(t, u, key)
  {
    if key in path {
      var j :| 0 <= j < |path| && path[j] == key;
      assert Linked(t, path, j);
    }
    if key in t.index {
      assert t.nodes[t.index[key]].key == key;
      assert path[0..] == path;
    }
  }

  /** Growing adds at most a node without statistics. */
  lemma GrownKeys(t: Tree, path: seq<string>, key: string, k: string)
    requires WellFormed(t) && Chain(t, path) && Grown(t, path, key).Ok?
    ensures
      var g := Grown(t, path, key).value;
      && (k in t.index ==> SameStatistics(t, g, k) && g.index[k] == t.index[k])
      && (k in g.index && k !in t.index ==>
            k == key && g.index[k] < |g.nodes|
            && g.nodes[g.index[k]].visits == 0 && g.nodes[g.index[k]].rewardSum == 0.0
            && g.nodes[g.index[k]].best == None)
  {
    assert Linked(t, path, |path| - 1);
  }

  /** What a report that succeeds makes of the tree and returns. */
  lemma ReportSucceeds(s: Search, key: string, reward: real, maxDepth: nat)
    requires SearchOk(s) && Do(s, Report(key, Finite(reward), maxDepth)).1.Ok?
    ensures Here(s) == PathSoFar(s) != [] && Grown(s.tree, PathSoFar(s), key).Ok?
    ensures WellFormed(s.tree) && Chain(s.tree, PathSoFar(s))
    ensures
      var (after, r) := Do(s, Report(key, Finite(reward), maxDepth));
      var path := Here(s);
      var credited := if path[|path| - 1] == key then path else path + [key];
      var g := Grown(s.tree, path, key).value;
      && r.value.backpropagationPath == credited && WellFormed(g) && Chain(g, credited)
      && CreditedOn(g, after.tree, credited, 0, reward)
  {
    var path := PathSoFar(s);
    var g := Grown(s.tree, path, key).value;
    CreditChain(g, ReportPath(path, key), 0, reward);
    hide Grown, CreditFrom, CreditedOn, Chain, SelectPath, WellFormed;
  }

  lemma CreditedAfterGrowing(t: Tree, g: Tree, u: Tree, path: seq<string>, key: string, k: string, reward: real)
    requires WellFormed(t) && Chain(t, path) && Grown(t, path, key).Ok? && g == Grown(t, path, key).value
    ensures CreditedOnce(g, u, k, reward) && k in g.index ==> CreditedOnce(t, u, k, reward)
    ensures k in t.index && SameStatistics(g, u, k) ==> SameStatistics(t, u, k)
    ensures k in t.index ==> k in g.index
  {
    GrownKeys(t, path, key, k);
    hide Grown, Chain, WellFormed;
  }

  /** A report that succeeds credits the path so far and its own key behind it, unless the
      path ends there already, each node on it once and no other; and it says so. */
  lemma ReportLaw(s: Search, key: string, reward: real, maxDepth: nat, k: string)
    requires SearchOk(s) && Do(s, Report(key, Finite(reward), maxDepth)).1.Ok?
    ensures Here(s) != []
    ensures
      var (after, r) := Do(s, Report(key, Finite(reward), maxDepth));
      var path := Here(s);
      var credited := if path[|path| - 1] == key then path else path + [key];
      && r.value.backpropagationPath == credited
      && (k in credited ==> CreditedOnce(s.tree, after.tree, k, reward))
      && (k in s.tree.index && k !in credited ==> SameStatistics(s.tree, after.tree, k))
  {
    hide *;
    ReportSucceeds(s, key, reward, maxDepth);
    var path, u := Here(s), Do(s, Report(key, Finite(reward), maxDepth)).0.tree;
    var g := Grown(s.tree, path, key).value;
    var credited := if path[|path| - 1] == key then path else path + [key];
    CreditedKeys(g, u, credited, reward, k);
    CreditedAfterGrowing(s.tree, g, u, path, key, k, reward);
    if k in credited { OnChain(g, credited, k); }
  }

  lemma OnChain(t: Tree, path: seq<string>, k: string)
    requires Chain(t, path) && k in path
    ensures k in t.index
  {
    var j :| 0 <= j < |path| && path[j] == k;
    assert Linked(t, path, j);
  }

  /* ---------- what is selected ---------- */

  predicate Known(t: Tree, key: string) {
    key in t.index && t.index[key] < |t.nodes|
  }

  predicate MayWiden(t: Tree, i: nat)
    requires i < |t.nodes|
  {
    var n := t.nodes[i];
    n.children == [] || |n.children| as real < t.config.limit(if n.visits < 1 then 1 else n.visits)
  }

  /** From the root to the preferred child each time, until a node may be widened or the
      depth is used up. */
  ghost predicate IsSelection(t: Tree, path: seq<string>, depth: nat) {
    && path != [] && |path| <= depth && (forall j | 0 <= j < |path| :: Known(t, path[j]))
    && t.index[path[0]] == t.root
    && (forall j | 0 <= j < |path| - 1 :: PrefersNext(t, path, j))
    && (|path| == depth || MayWiden(t, t.index[path[|path| - 1]]))
  }

  ghost predicate PrefersNext(t: Tree, path: seq<string>, j: nat)
    requires j + 1 < |path| && Known(t, path[j]) && Known(t, path[j + 1])
  {
    !MayWiden(t, t.index[path[j]]) && Preferred(t, t.index[path[j]], t.index[path[j + 1]])
  }

  lemma SelectPathPrefers(t: Tree, maxDepth: nat)
    requires WellFormed(t) && maxDepth >= 1
    ensures IsSelection(t, SelectPath(t, maxDepth).value, maxDepth)
  {
    var w := Walk(t, t.root, maxDepth - 1);
    var path := Keys(t, w);
    WalkIsTheGreedyWalk(t, t.root, w, maxDepth);
    forall j | 0 <= j < |path| ensures Known(t, path[j]) && t.index[path[j]] == w[j] {
      assert w[j] in w;
    }
    forall j | 0 <= j < |path| - 1 ensures PrefersNext(t, path, j) {
      assert GreedyStep(t, w, j);
      BestIsPreferred(t, w[j], w[j + 1]);
    }
    hide Walk, WellFormed, GreedyStep, Preferred, PrefersNext;
  }

  lemma SelectedLaw(s: Search, t: Tree, maxDepth: nat, credited: seq<string>)
    requires WellFormed(t) && (s.pending.Some? ==> Chain(t, s.pending.value))
    ensures
      var (after, r) := Selected(s, t, maxDepth, credited);
      && (r.Ok? <==> maxDepth >= 1)
      && (r.Ok? ==>
            && IsSelection(t, r.value.selectedPath, maxDepth)
            && after.pending == Some(r.value.selectedPath)
            && r.value.selectedKey == r.value.selectedPath[|r.value.selectedPath| - 1]
            && r.value.backpropagationPath == credited)
      && (r.Err? ==> after.pending == s.pending)
  {
    if maxDepth >= 1 { SelectPathPrefers(t, maxDepth); }
    hide SelectPath, WellFormed, Chain;
  }

  /** A call that succeeds returns the selection in the tree it leaves, and remembers it; one
      that fails goes on remembering what it did. Selecting alone changes nothing else, and
      fails for a depth of zero only. */
  lemma SelectionLaw(s: Search, call: Call)
    requires SearchOk(s)
    ensures
      var (after, r) := Do(s, call);
      && (r.Ok? ==>
            && IsSelection(after.tree, r.value.selectedPath, call.maxDepth)
            && after.pending == Some(r.value.selectedPath)
            && r.value.selectedKey == r.value.selectedPath[|r.value.selectedPath| - 1])
      && (r.Err? ==> after.pending == s.pending)
      && (call.Select? ==> after.tree == s.tree && (r.Err? <==> call.maxDepth == 0))
      && (call.Select? && r.Ok? ==> r.value.backpropagationPath == [])
  {
    var path := PathSoFar(s);
    assert path != [];
    hide Selected, IsSelection, Grown, ReportPath, Backpropagate, WellFormed, Chain;
    match call
    case Select(maxDepth) => SelectedLaw(s, s.tree, maxDepth, []);
    case Report(key, reward, maxDepth) =>
      if Grown(s.tree, path, key).Ok? {
        var u := Grown(s.tree, path, key).value;
        var (v, failure) := Backpropagate(u, ReportPath(path, key), reward);
        ShapeKeepsChain(u, v, path);
        if failure.None? { SelectedLaw(s, v, maxDepth, ReportPath(path, key)); }
      }
  }

  /* ---------- runs ---------- */

  /** How many reports for `key` succeeded. */
  function Accepted(s: Search, calls: seq<Call>, key: string): nat
    requires SearchOk(s)
    decreases |calls|
  {
    if calls == [] then 0
    else
      var front, last := calls[..|calls| - 1], calls[|calls| - 1];
      Accepted(s, front, key)
      + (if Succeeds(Run(s, front), last, key) then 1 else 0)
  }

  /** Visits never go down. */
  lemma DoKeepsVisits(s: Search, call: Call, k: string)
    requires SearchOk(s) && k in s.tree.index
    ensures
      var u := Do(s, call).0.tree;
      && k in u.index && u.index[k] < |u.nodes| && s.tree.index[k] < |s.tree.nodes|
      && u.nodes[u.index[k]].visits >= s.tree.nodes[s.tree.index[k]].visits
  {
    if call.Report? {
      var path := PathSoFar(s);
      var g := Grown(s.tree, path, call.key);
      if g.Ok? {
        GrownKeys(s.tree, path, call.key, k);
        if call.reward.Finite? {
          var full := ReportPath(path, call.key);
          CreditChain(g.value, full, 0, call.reward.value);
          var u := CreditFrom(g.value, full, 0, call.reward.value).0;
          CreditedKeys(g.value, u, full, call.reward.value, k);
        }
      }
    }
    hide Grown, CreditFrom, CreditedOn, Chain, ReportPath, SelectPath;
  }

  ghost predicate VisitsAtLeast(t: Tree, key: string, n: nat) {
    n > 0 ==> key in t.index && t.index[key] < |t.nodes| && t.nodes[t.index[key]].visits >= Min(n, VISITS_MAX)
  }

  predicate Succeeds(s: Search, call: Call, key: string)
    requires SearchOk(s)
  {
    call.Report? && call.key == key && Do(s, call).1.Ok?
  }

  lemma SuccessIsVisit(s: Search, call: Call, key: string, n: nat)
    requires SearchOk(s) && VisitsAtLeast(s.tree, key, n) && Succeeds(s, call, key)
    ensures VisitsAtLeast(Do(s, call).0.tree, key, n + 1)
  {
    SucceedsFinite(s, call);
    ReportLaw(s, key, call.reward.value, call.maxDepth, key);
    hide Do, SearchOk;
  }

  lemma OtherCallKeepsVisits(s: Search, call: Call, key: string, n: nat)
    requires SearchOk(s) && VisitsAtLeast(s.tree, key, n)
    ensures VisitsAtLeast(Do(s, call).0.tree, key, n)
  {
    if n > 0 { DoKeepsVisits(s, call, key); }
    hide Do, SearchOk;
  }

  /** Every report that succeeds is a visit of its own node. */
  lemma {:induction false} AcceptedAreVisits(s: Search, calls: seq<Call>, key: string)
    requires SearchOk(s)
    ensures VisitsAtLeast(Run(s, calls).tree, key, Accepted(s, calls, key))
    decreases |calls|
  {
    if calls != [] {
      var front, last := calls[..|calls| - 1], calls[|calls| - 1];
      AcceptedAreVisits(s, front, key);
      var n := Accepted(s, front, key);
      hide Do, SearchOk, VisitsAtLeast;
      if Succeeds(Run(s, front), last, key) {
        SuccessIsVisit(Run(s, front), last, key, n);
      } else {
        OtherCallKeepsVisits(Run(s, front), last, key, n);
      }
    }
  }

  lemma SucceedsFinite(s: Search, call: Call)
    requires SearchOk(s) && call.Report? && Do(s, call).1.Ok?
    ensures call.reward.Finite?
  {
    ReportFailsIff(s, call.key, call.reward, call.maxDepth);
  }

  /* ---------- the best reward ---------- */

  predicate InLog(log: Log, e: SearchRuns.Entry) {
    log.Add? && (log.entry == e || InLog(log.before, e))
  }

  /** The best reward through a node is one of those credited to it, and none is better. */
  lemma {:induction false} BestIsLargest(log: Log, key: string)
    ensures BestThrough(log, key) == None <==> forall e | InLog(log, e) :: key !in e.path
    ensures BestThrough(log, key).Some? ==>
              && (exists e :: InLog(log, e) && key in e.path && e.reward == BestThrough(log, key).value)
              && (forall e | InLog(log, e) && key in e.path :: e.reward <= BestThrough(log, key).value)
  {
    if log.Add? {
      BestIsLargest(log.before, key);
      assert InLog(log, log.entry);
      if BestThrough(log.before, key).Some? {
        var e :| InLog(log.before, e) && key in e.path && e.reward == BestThrough(log.before, key).value;
        assert InLog(log, e);
      }
      assert forall e | InLog(log.before, e) :: InLog(log, e);
    }
  }

  predicate Reported(calls: seq<Call>, reward: real) {
    exists k | 0 <= k < |calls| :: calls[k].Report? && calls[k].reward == Finite(reward)
  }

  lemma {:induction false} LoggedWereReported(s: Search, calls: seq<Call>, e: SearchRuns.Entry)
    requires SearchOk(s) && InLog(LogOf(s, calls), e)
    ensures Reported(calls, e.reward)
    decreases |calls|
  {
    var front, last := calls[..|calls| - 1], calls[|calls| - 1];
    if InLog(LogOf(s, front), e) {
      LoggedWereReported(s, front, e);
      var k :| 0 <= k < |front| && front[k].Report? && front[k].reward == Finite(e.reward);
      assert calls[k] == front[k];
    } else {
      assert calls[|calls| - 1].reward == Finite(e.reward);
    }
  }

  /** In every run from a fresh tree the best reward of a node is one that was reported. */
  lemma BestWasReported(rootKey: string, config: Config, calls: seq<Call>, i: nat)
    requires Size(LogOf(Search(Fresh(rootKey, config), None), calls)) <= VISITS_MAX
    requires i < |Run(Search(Fresh(rootKey, config), None), calls).tree.nodes|
    ensures
      var n := Run(Search(Fresh(rootKey, config), None), calls).tree.nodes[i];
      n.best.Some? ==> Reported(calls, n.best.value)
  {
    FreshRunTallied(rootKey, config, calls);
    var s := Search(Fresh(rootKey, config), None);
    var n, log := Run(s, calls).tree.nodes[i], LogOf(s, calls);
    assert TalliedNode(n, log);
    hide Run, RunInv, Fresh, LogOf;
    BestIsLargest(log, n.key);
    if n.best.Some? {
      var e :| InLog(log, e) && n.key in e.path && e.reward == n.best.value;
      LoggedWereReported(s, calls, e);
    }
  }
}
