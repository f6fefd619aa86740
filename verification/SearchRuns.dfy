/** What runs of the search driver from a fresh tree guarantee: every statistic in
    the arena is the tally of the backpropagations done, statistics flow from
    children to parents without loss, and progressive widening bounds the number of
    children of every node. */
module SearchRuns {
  import opened Wrappers
  import opened SearchTree
  import opened Selection
  import opened PendingSearch

  /* ---------- the log of completed backpropagations ---------- */

  datatype Entry = Entry(path: seq<string>, reward: real)

  datatype Log = Empty | Add(before: Log, entry: Entry)

  function Size(log: Log): nat {
    if log.Empty? then 0 else Size(log.before) + 1
  }

  /** Two things are counted: the visits, and the rewards added up. */
  datatype Measure = Visits | Rewards

  function Weight(e: Entry, m: Measure): real {
    if m.Visits? then 1.0 else e.reward
  }

  /** What an entry contributes to a tally it counts for. */
  function Share(e: Entry, m: Measure, counts: bool): real {
    if counts then Weight(e, m) else 0.0
  }

  function Stat(n: Node, m: Measure): real {
    if m.Visits? then n.visits as real else n.rewardSum
  }

  predicate Passes(e: Entry, key: string) {
    key in e.path
  }

  predicate EndsAt(e: Entry, key: string) {
    e.path != [] && Last(e.path) == key
  }

  /** The backpropagations that passed through `key`. */
  function Through(log: Log, key: string, m: Measure): real {
    match log
    case Empty => 0.0
    case Add(before, e) => Through(before, key, m) + Share(e, m, Passes(e, key))
  }

  /** The backpropagations that ended at `key`. */
  function Ending(log: Log, key: string, m: Measure): real {
    match log
    case Empty => 0.0
    case Add(before, e) => Ending(before, key, m) + Share(e, m, EndsAt(e, key))
  }

  function BestThrough(log: Log, key: string): Option<real> {
    match log
    case Empty => None
    case Add(before, e) =>
      if Passes(e, key) then Better(BestThrough(before, key), e.reward) else BestThrough(before, key)
  }

  /** The call's entry in the log, if it gets as far as backpropagating. */
  function Logged(s: Search, call: Call): Option<Entry>
    requires SearchOk(s)
  {
    if call.Report? && call.reward.Finite? && Grown(s.tree, PathSoFar(s), call.key).Ok?
    then Some(Entry(ReportPath(PathSoFar(s), call.key), call.reward.value)) else None
  }

  function Extended(log: Log, e: Option<Entry>): Log {
    match e
    case None => log
    case Some(entry) => Add(log, entry)
  }

  function LogOf(s: Search, calls: seq<Call>): Log
    requires SearchOk(s)
    decreases |calls|
  {
    if calls == [] then Empty
    else
      var front := calls[..|calls| - 1];
      Extended(LogOf(s, front), Logged(Run(s, front), calls[|calls| - 1]))
  }

  /* ---------- the invariant of runs from a fresh tree ---------- */

  /** Nodes come after their parents; only the root has none; no child is listed twice. */
  predicate GrownNode(t: Tree, i: nat)
    requires i < |t.nodes|
  {
    && NoTwins(t.nodes[i].children)
    && (match t.nodes[i].parent case None => i == t.root case Some(p) => p < i)
  }

  /** The node's statistics are what the log says about its key. */
  predicate TalliedNode(n: Node, log: Log) {
    && Stat(n, Visits) == Through(log, n.key, Visits)
    && Stat(n, Rewards) == Through(log, n.key, Rewards)
    && n.best == BestThrough(log, n.key)
  }

  ghost predicate AllChains(t: Tree, log: Log) {
    log.Add? ==> AllChains(t, log.before) && Chain(t, log.entry.path)
  }

  ghost predicate NodesOk(t: Tree, log: Log) {
    forall i | 0 <= i < |t.nodes| :: GrownNode(t, i) && TalliedNode(t.nodes[i], log)
  }

  ghost predicate RunInv(s: Search, log: Log) {
    SearchOk(s) && NodesOk(s.tree, log) && AllChains(s.tree, log)
  }

  lemma {:induction false} ThroughBounded(log: Log, key: string)
    ensures Through(log, key, Visits) <= Size(log) as real
  {
    if log.Add? { ThroughBounded(log.before, key); }
  }

  lemma UnknownKeyUnpassed(t: Tree, e: Entry, key: string)
    requires Chain(t, e.path) && key !in t.index
    ensures !Passes(e, key)
  {
    forall j | 0 <= j < |e.path| ensures e.path[j] != key { assert Linked(t, e.path, j); }
  }

  lemma {:induction false} UnknownKeyUntouched(t: Tree, log: Log, key: string)
    requires key !in t.index && AllChains(t, log)
    ensures Through(log, key, Visits) == Through(log, key, Rewards) == 0.0 && BestThrough(log, key) == None
  {
    if log.Add? {
      UnknownKeyUnpassed(t, log.entry, key);
      hide Chain, Passes;
      UnknownKeyUntouched(t, log.before, key);
    }
  }

  lemma {:induction false} ShapeKeepsChains(t: Tree, u: Tree, log: Log)
    requires AllChains(t, log) && SameShape(t, u)
    ensures AllChains(u, log)
  {
    if log.Add? {
      ShapeKeepsChain(t, u, log.entry.path);
      hide Chain, SameShape;
      ShapeKeepsChains(t, u, log.before);
    }
  }

  lemma {:induction false} ChildKeepsChains(t: Tree, p: nat, key: string, log: Log)
    requires WellFormed(t) && p < |t.nodes| && key !in t.index && AllChains(t, log)
    ensures AllChains(WithChild(t, p, key), log)
  {
    if log.Add? {
      ChildKeepsChain(t, p, key, log.entry.path);
      hide Chain, WellFormed, WithChild;
      ChildKeepsChains(t, p, key, log.before);
    }
  }

  lemma NewChildKeepsNodesOk(t: Tree, log: Log, p: nat, key: string)
    requires WellFormed(t) && p < |t.nodes| && key !in t.index && NodesOk(t, log) && AllChains(t, log)
    ensures NodesOk(WithChild(t, p, key), log)
  {
    var u := WithChild(t, p, key);
    UnknownKeyUntouched(t, log, key);
    forall i | 0 <= i < |u.nodes| ensures GrownNode(u, i) && TalliedNode(u.nodes[i], log) {
      if i < |t.nodes| {
        assert GrownNode(t, i) && TalliedNode(t.nodes[i], log);
        ChildrenInRange(t, i);
      }
    }
  }

  lemma GrownKeepsRunInv(s: Search, log: Log, key: string)
    requires RunInv(s, log)
    requires Grown(s.tree, PathSoFar(s), key).Ok?
    ensures RunInv(s.(tree := Grown(s.tree, PathSoFar(s), key).value), log)
  {
    var path, t := PathSoFar(s), s.tree;
    assert Linked(t, path, |path| - 1);
    hide Chain, WellFormed, NodesOk, AllChains;
    if Last(path) != key && key !in t.index {
      var p := t.index[Last(path)];
      NewChildKeepsNodesOk(t, log, p, key);
      ChildKeepsChains(t, p, key, log);
    }
  }

  lemma CreditKeepsNodesOk(t: Tree, u: Tree, log: Log, e: Entry)
    requires NodesOk(t, log) && Size(log) < VISITS_MAX && CreditedOn(t, u, e.path, 0, e.reward)
    ensures NodesOk(u, Add(log, e))
  {
    assert e.path[0..] == e.path;
    forall i | 0 <= i < |u.nodes| ensures GrownNode(u, i) && TalliedNode(u.nodes[i], Add(log, e)) {
      assert GrownNode(t, i) && TalliedNode(t.nodes[i], log);
      ThroughBounded(log, t.nodes[i].key);
    }
  }

  lemma CreditKeepsRunInv(s: Search, u: Tree, log: Log, e: Entry)
    requires RunInv(s, log) && Size(log) < VISITS_MAX
    requires Chain(s.tree, e.path) && CreditedOn(s.tree, u, e.path, 0, e.reward)
    ensures RunInv(s.(tree := u), Add(log, e))
  {
    SameShapeWellFormed(s.tree, u);
    ShapeKeepsChains(s.tree, u, log);
    ShapeKeepsChain(s.tree, u, e.path);
    if s.pending.Some? { ShapeKeepsChain(s.tree, u, s.pending.value); }
    CreditKeepsNodesOk(s.tree, u, log, e);
  }

  lemma DoKeepsRunInv(s: Search, log: Log, call: Call)
    requires RunInv(s, log) && Size(Extended(log, Logged(s, call))) <= VISITS_MAX
    ensures RunInv(Do(s, call).0, Extended(log, Logged(s, call)))
  {
    hide NodesOk, AllChains, SameShape;
    if call.Report? {
      var path := PathSoFar(s);
      assert path != [];
      hide Chain;
      var g := Grown(s.tree, path, call.key);
      if g.Ok? {
        GrownKeepsRunInv(s, log, call.key);
        if call.reward.Finite? {
          var full := ReportPath(path, call.key);
          CreditChain(g.value, full, 0, call.reward.value);
          var v := Backpropagate(g.value, full, call.reward).0;
          CreditKeepsRunInv(s.(tree := g.value), v, log, Entry(full, call.reward.value));
        }
      }
    }
  }

  lemma {:induction false} RunKeepsRunInv(s: Search, calls: seq<Call>)
    requires RunInv(s, Empty) && Size(LogOf(s, calls)) <= VISITS_MAX
    ensures RunInv(Run(s, calls), LogOf(s, calls))
    decreases |calls|
  {
    assert SearchOk(s);
    hide Do, Logged, RunInv, SearchOk;
    if calls != [] {
      var front := calls[..|calls| - 1];
      RunKeepsRunInv(s, front);
      DoKeepsRunInv(Run(s, front), LogOf(s, front), calls[|calls| - 1]);
    }
  }

  lemma FreshRunInv(rootKey: string, config: Config)
    ensures RunInv(Search(Fresh(rootKey, config), None), Empty)
  {
  }

  /** After any calls on a fresh tree, failed ones among them, each node's visits,
      reward sum and best reward are those of the backpropagations through it. */
  lemma FreshRunTallied(rootKey: string, config: Config, calls: seq<Call>)
    requires Size(LogOf(Search(Fresh(rootKey, config), None), calls)) <= VISITS_MAX
    ensures
      var s := Search(Fresh(rootKey, config), None);
      RunInv(Run(s, calls), LogOf(s, calls))
  {
    var s := Search(Fresh(rootKey, config), None);
    FreshRunInv(rootKey, config);
    hide Fresh, RunInv, SearchOk, Do, LogOf, Run;
    RunKeepsRunInv(s, calls);
  }

  /* ---------- flow conservation ---------- */

  predicate InRange(cs: seq<nat>, n: nat) {
    forall k | 0 <= k < |cs| :: cs[k] < n
  }

  /** A statistic of the first `n` listed nodes, added up. */
  function SumOver(nodes: seq<Node>, cs: seq<nat>, n: nat, m: Measure): real
    requires n <= |cs| && InRange(cs, |nodes|)
  {
    if n == 0 then 0.0 else SumOver(nodes, cs, n - 1, m) + Stat(nodes[cs[n - 1]], m)
  }

  function SumThrough(log: Log, nodes: seq<Node>, cs: seq<nat>, n: nat, m: Measure): real
    requires n <= |cs| && InRange(cs, |nodes|)
  {
    if n == 0 then 0.0 else SumThrough(log, nodes, cs, n - 1, m) + Through(log, nodes[cs[n - 1]].key, m)
  }

  lemma {:induction false} SumOverIsSumThrough(log: Log, nodes: seq<Node>, cs: seq<nat>, n: nat, m: Measure)
    requires n <= |cs| && InRange(cs, |nodes|) && forall k | 0 <= k < |cs| :: TalliedNode(nodes[cs[k]], log)
    ensures SumOver(nodes, cs, n, m) == SumThrough(log, nodes, cs, n, m)
  {
    if n > 0 {
      assert TalliedNode(nodes[cs[n - 1]], log);
      SumOverIsSumThrough(log, nodes, cs, n - 1, m);
    }
  }

  /** Of the listed nodes, the entry passes through the one at `hit` only. */
  predicate Hits(e: Entry, nodes: seq<Node>, cs: seq<nat>, hit: nat, k: nat)
    requires k < |cs| && cs[k] < |nodes|
  {
    Passes(e, nodes[cs[k]].key) <==> k == hit
  }

  /** What one more entry adds to a sum over nodes: its share if it passes through
      one of them, nothing if through none (then `hit` is past the end). */
  lemma {:induction false} SumThroughOneMore(log: Log, e: Entry, nodes: seq<Node>, cs: seq<nat>, n: nat, hit: nat,
                                             m: Measure)
    requires n <= |cs| && InRange(cs, |nodes|) && forall k | 0 <= k < |cs| :: Hits(e, nodes, cs, hit, k)
    ensures SumThrough(Add(log, e), nodes, cs, n, m) == SumThrough(log, nodes, cs, n, m) + Share(e, m, hit < n)
  {
    if n > 0 {
      assert Hits(e, nodes, cs, hit, n - 1);
      SumThroughOneMore(log, e, nodes, cs, n - 1, hit, m);
    }
  }

  /** A chain through `i` goes on to exactly one child of `i`, unless it ends there. */
  lemma ChainThroughNode(t: Tree, e: Entry, i: nat) returns (hit: nat)
    requires WellFormed(t) && Chain(t, e.path) && i < |t.nodes|
    requires NoTwins(t.nodes[i].children) && InRange(t.nodes[i].children, |t.nodes|)
    ensures forall k | 0 <= k < |t.nodes[i].children| :: Hits(e, t.nodes, t.nodes[i].children, hit, k)
    ensures hit < |t.nodes[i].children| <==> Passes(e, t.nodes[i].key) && !EndsAt(e, t.nodes[i].key)
  {
    var path, cs := e.path, t.nodes[i].children;
    assert ChildrenNameIt(t.nodes, i);
    if t.nodes[i].key !in path || Last(path) == t.nodes[i].key {
      forall k | 0 <= k < |cs| ensures Hits(e, t.nodes, cs, |cs|, k) {
        assert IsChildOf(t.nodes, cs[k], i);
        if t.nodes[cs[k]].key in path { var m := ChildOnChain(t, path, i, cs[k]); }
      }
      return |cs|;
    }
    var j :| 0 <= j < |path| && path[j] == t.nodes[i].key;
    assert Linked(t, path, j) && Linked(t, path, j + 1);
    hit :| 0 <= hit < |cs| && cs[hit] == t.index[path[j + 1]];
    forall k | 0 <= k < |cs| ensures Hits(e, t.nodes, cs, hit, k) {
      assert IsChildOf(t.nodes, cs[k], i);
      if t.nodes[cs[k]].key in path {
        var m := ChildOnChain(t, path, i, cs[k]);
        if j < m - 1 { ChainDistinct(t, path, j, m - 1); } else if m - 1 < j { ChainDistinct(t, path, m - 1, j); }
      }
    }
  }

  /** Where a chain passes through a child it comes from the child's parent. */
  lemma ChildOnChain(t: Tree, path: seq<string>, i: nat, c: nat) returns (m: nat)
    requires WellFormed(t) && Chain(t, path) && i < |t.nodes|
    requires IsChildOf(t.nodes, c, i) && t.nodes[c].key in path
    ensures 0 < m < |path| && path[m] == t.nodes[c].key && path[m - 1] == t.nodes[i].key
    ensures Last(path) != t.nodes[i].key
  {
    m :| 0 <= m < |path| && path[m] == t.nodes[c].key;
    assert Linked(t, path, m);
    assert m > 0;
    assert Linked(t, path, m - 1);
    var p := t.index[path[m - 1]];
    assert ChildrenNameIt(t.nodes, p);
    assert IsChildOf(t.nodes, c, p);
    ChainDistinct(t, path, m - 1, |path| - 1);
  }

  lemma ChildrenInRange(t: Tree, i: nat)
    requires WellFormed(t) && i < |t.nodes|
    ensures InRange(t.nodes[i].children, |t.nodes|)
  {
    assert ChildrenNameIt(t.nodes, i);
    forall k | 0 <= k < |t.nodes[i].children| ensures t.nodes[i].children[k] < |t.nodes| {
      assert IsChildOf(t.nodes, t.nodes[i].children[k], i);
    }
  }

  lemma EntryFlow(t: Tree, log: Log, e: Entry, i: nat, m: Measure)
    requires WellFormed(t) && i < |t.nodes| && NoTwins(t.nodes[i].children)
    requires InRange(t.nodes[i].children, |t.nodes|) && Chain(t, e.path)
    ensures SumThrough(Add(log, e), t.nodes, t.nodes[i].children, |t.nodes[i].children|, m)
         == SumThrough(log, t.nodes, t.nodes[i].children, |t.nodes[i].children|, m)
            + Share(e, m, Passes(e, t.nodes[i].key) && !EndsAt(e, t.nodes[i].key))
    ensures EndsAt(e, t.nodes[i].key) ==> Passes(e, t.nodes[i].key)
  {
    var hit := ChainThroughNode(t, e, i);
    hide WellFormed, Chain;
    SumThroughOneMore(log, e, t.nodes, t.nodes[i].children, |t.nodes[i].children|, hit, m);
  }

  lemma {:induction false} LogFlow(t: Tree, log: Log, i: nat, m: Measure)
    requires WellFormed(t) && i < |t.nodes| && NoTwins(t.nodes[i].children)
    requires InRange(t.nodes[i].children, |t.nodes|) && AllChains(t, log)
    ensures Through(log, t.nodes[i].key, m)
         == Ending(log, t.nodes[i].key, m)
            + SumThrough(log, t.nodes, t.nodes[i].children, |t.nodes[i].children|, m)
  {
    hide SumThrough, Passes, EndsAt;
    match log
    case Empty => NothingThrough(t.nodes, t.nodes[i].children, |t.nodes[i].children|, m);
    case Add(before, e) =>
      LogFlow(t, before, i, m);
      EntryFlow(t, before, e, i, m);
  }

  lemma {:induction false} NothingThrough(nodes: seq<Node>, cs: seq<nat>, n: nat, m: Measure)
    requires n <= |cs| && InRange(cs, |nodes|)
    ensures SumThrough(Empty, nodes, cs, n, m) == 0.0
  {
    if n > 0 { NothingThrough(nodes, cs, n - 1, m); }
  }

  lemma {:induction false} RootSeesAll(t: Tree, log: Log)
    requires WellFormed(t) && AllChains(t, log)
    ensures Through(log, RootKey(t), Visits) == Size(log) as real
  {
    if log.Add? {
      RootSeesAll(t, log.before);
      assert Linked(t, log.entry.path, 0);
    }
  }

  /** Flow conservation. In every run from a fresh tree, each node's visits and
      rewards are those of the backpropagations that ended there plus those of its
      children, and the root's visits count all of them. */
  lemma FlowConservation(rootKey: string, config: Config, calls: seq<Call>)
    requires Size(LogOf(Search(Fresh(rootKey, config), None), calls)) <= VISITS_MAX
    ensures
      var log := LogOf(Search(Fresh(rootKey, config), None), calls);
      var t := Run(Search(Fresh(rootKey, config), None), calls).tree;
      && t.nodes[t.root].visits == Size(log)
      && forall i, m | 0 <= i < |t.nodes| :: NodeFlows(t.nodes, log, i, m)
  {
    FreshRunTallied(rootKey, config, calls);
    var s := Search(Fresh(rootKey, config), None);
    var log, t := LogOf(s, calls), Run(s, calls).tree;
    RootSeesAll(t, log);
    assert TalliedNode(t.nodes[t.root], log);
    forall i, m | 0 <= i < |t.nodes| ensures NodeFlows(t.nodes, log, i, m) {
      hide Run, LogOf, Fresh;
      assert GrownNode(t, i) && TalliedNode(t.nodes[i], log);
      TalliedNodeFlows(t, log, i, m);
    }
  }

  /** What flows into a node ends there or goes on to its children. */
  predicate NodeFlows(nodes: seq<Node>, log: Log, i: nat, m: Measure)
    requires i < |nodes|
  {
    && InRange(nodes[i].children, |nodes|)
    && Stat(nodes[i], m)
       == Ending(log, nodes[i].key, m) + SumOver(nodes, nodes[i].children, |nodes[i].children|, m)
  }

  lemma TalliedNodeFlows(t: Tree, log: Log, i: nat, m: Measure)
    requires WellFormed(t) && NodesOk(t, log) && AllChains(t, log) && i < |t.nodes|
    ensures NodeFlows(t.nodes, log, i, m)
  {
    assert GrownNode(t, i) && TalliedNode(t.nodes[i], log);
    ChildrenInRange(t, i);
    LogFlow(t, log, i, m);
    forall k | 0 <= k < |t.nodes[i].children| ensures TalliedNode(t.nodes[t.nodes[i].children[k]], log) {
      assert 0 <= t.nodes[i].children[k] < |t.nodes|;
    }
    SumOverIsSumThrough(log, t.nodes, t.nodes[i].children, |t.nodes[i].children|, m);
  }

  /* ---------- normalised rewards ---------- */

  /** A count, the sum and the best of that many rewards between 0 and 1. */
  predicate Normalised(count: real, sum: real, best: Option<real>) {
    && 0.0 <= sum && 0.0 <= count
    && (count == 0.0 <==> best == None) && (count == 0.0 ==> sum == 0.0)
    && (best.Some? ==> best.value <= 1.0 && sum <= count * best.value)
  }

  lemma NormalisedOneMore(count: real, sum: real, best: Option<real>, reward: real)
    requires Normalised(count, sum, best) && 0.0 <= reward <= 1.0
    ensures Normalised(count + 1.0, sum + reward, Better(best, reward))
  {
    var b := Better(best, reward).value;
    assert (count + 1.0) * b == count * b + b && reward <= b;
    if best.Some? { assert count * best.value <= count * b; }
  }

  predicate AllUnit(log: Log) {
    log.Add? ==> AllUnit(log.before) && 0.0 <= log.entry.reward <= 1.0
  }

  lemma {:induction false} BestBoundsMean(log: Log, key: string)
    requires AllUnit(log)
    ensures Normalised(Through(log, key, Visits), Through(log, key, Rewards), BestThrough(log, key))
  {
    if log.Add? {
      var before := log.before;
      BestBoundsMean(before, key);
      NormalisedOneMore(Through(before, key, Visits), Through(before, key, Rewards), BestThrough(before, key),
                        log.entry.reward);
      hide Normalised, Passes;
    }
  }

  lemma MeanFromTally(n: Node)
    requires Normalised(Stat(n, Visits), Stat(n, Rewards), n.best) && n.visits > 0
    ensures n.best.Some? && 0.0 <= Mean(n) <= n.best.value <= 1.0
  {
    var v := n.visits as real;
    assert Mean(n) * v == n.rewardSum;
    assert (Mean(n) - n.best.value) * v <= 0.0;
  }

  /** Under rewards between 0 and 1, each visited node has
      0 <= mean <= best <= 1. */
  lemma MeanAtMostBest(rootKey: string, config: Config, calls: seq<Call>, i: nat)
    requires Size(LogOf(Search(Fresh(rootKey, config), None), calls)) <= VISITS_MAX
    requires forall call | call in calls ::
               call.Report? && call.reward.Finite? ==> 0.0 <= call.reward.value <= 1.0
    requires i < |Run(Search(Fresh(rootKey, config), None), calls).tree.nodes|
    ensures
      var n := Run(Search(Fresh(rootKey, config), None), calls).tree.nodes[i];
      n.visits > 0 ==> n.best.Some? && 0.0 <= Mean(n) <= n.best.value <= 1.0
  {
    FreshRunTallied(rootKey, config, calls);
    var s := Search(Fresh(rootKey, config), None);
    var n := Run(s, calls).tree.nodes[i];
    assert TalliedNode(n, LogOf(s, calls));
    hide Run, RunInv, Fresh;
    LoggedRewards(s, calls);
    BestBoundsMean(LogOf(s, calls), n.key);
    if n.visits > 0 { MeanFromTally(n); }
  }

  lemma {:induction false} LoggedRewards(s: Search, calls: seq<Call>)
    requires SearchOk(s)
    requires forall call | call in calls ::
               call.Report? && call.reward.Finite? ==> 0.0 <= call.reward.value <= 1.0
    ensures AllUnit(LogOf(s, calls))
    decreases |calls|
  {
    if calls != [] {
      hide Do, SearchOk, Grown, PathSoFar, ReportPath;
      var front, call := calls[..|calls| - 1], calls[|calls| - 1];
      assert call in calls && forall c | c in front :: c in calls;
      LoggedRewards(s, front);
    }
  }
}
