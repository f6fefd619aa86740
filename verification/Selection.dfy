/** Greedy descent by upper confidence bound with progressive widening. */
module Selection {
  import opened Wrappers
  import opened SearchTree

  /* ---------- the order of keys ---------- */

  /** Lexicographic order, as strings compare. */
  predicate Less(a: string, b: string) {
    if a == [] then b != []
    else if b == [] then false
    else a[0] < b[0] || (a[0] == b[0] && Less(a[1..], b[1..]))
  }

  lemma {:induction false} LessTotal(a: string, b: string)
    ensures a == b || Less(a, b) || Less(b, a)
    ensures !(Less(a, b) && Less(b, a)) && !Less(a, a)
    decreases |a|
  {
    if a != [] {
      LessTotal(a[1..], a[1..]);
      if b != [] {
        LessTotal(a[1..], b[1..]);
        if a[0] == b[0] && a[1..] == b[1..] { assert a == [a[0]] + a[1..] == b; }
      }
    }
  }

  lemma {:induction false} LessTransitive(a: string, b: string, c: string)
    requires Less(a, b) && Less(b, c)
    ensures Less(a, c)
    decreases |a|
  {
    if a != [] && a[0] == b[0] == c[0] { LessTransitive(a[1..], b[1..], c[1..]); }
  }

  /* ---------- scores ---------- */

  datatype Score = NegInfinity | Real(value: real) | PosInfinity

  predicate Greater(a: Score, b: Score) {
    match (a, b)
    case (Real(x), Real(y)) => x > y
    case _ => (a.PosInfinity? && !b.PosInfinity?) || (b.NegInfinity? && !a.NegInfinity?)
  }

  function Max1(n: nat): nat {
    if n == 0 then 1 else n
  }

  function Mean(n: Node): real {
    if n.visits == 0 then 0.0 else n.rewardSum / n.visits as real
  }

  /** An unvisited child comes before any other. */
  function ScoreOf(config: Config, parent: Node, child: Node): (s: Score)
    ensures !s.NegInfinity?
  {
    if child.visits == 0 then PosInfinity
    else Real(Mean(child) + config.explore(Max1(parent.visits), child.visits))
  }

  ghost predicate InArena(t: Tree, s: seq<nat>) {
    forall c | c in s :: c < |t.nodes|
  }

  /** `c` is chosen before `d`: it scores higher, or as high with no larger key. */
  predicate Beats(t: Tree, p: nat, c: nat, d: nat)
    requires p < |t.nodes| && c < |t.nodes| && d < |t.nodes|
  {
    var x, y := ScoreOf(t.config, t.nodes[p], t.nodes[c]), ScoreOf(t.config, t.nodes[p], t.nodes[d]);
    Greater(x, y) || (x == y && !Less(t.nodes[d].key, t.nodes[c].key))
  }

  lemma BeatsTransitive(t: Tree, p: nat, a: nat, b: nat, c: nat)
    requires p < |t.nodes| && a < |t.nodes| && b < |t.nodes| && c < |t.nodes|
    requires Beats(t, p, a, b) && Beats(t, p, b, c)
    ensures Beats(t, p, a, c)
  {
    var x, y, z := t.nodes[a].key, t.nodes[b].key, t.nodes[c].key;
    LessTotal(x, y);
    LessTotal(y, z);
    LessTotal(x, z);
    if Less(x, y) && Less(y, z) { LessTransitive(x, y, z); }
  }

  ghost predicate BestAmong(t: Tree, p: nat, s: seq<nat>, c: nat)
    requires p < |t.nodes| && InArena(t, s)
  {
    c in s && forall d | d in s :: Beats(t, p, c, d)
  }

  function BestOf(t: Tree, p: nat, s: seq<nat>): (c: nat)
    requires p < |t.nodes| && InArena(t, s) && s != []
    ensures BestAmong(t, p, s, c)
    decreases |s|
  {
    var last := s[|s| - 1];
    assert last in s;
    LessTotal(t.nodes[last].key, t.nodes[last].key);
    if |s| == 1 then last
    else
      var front := s[..|s| - 1];
      assert forall d | d in front :: d in s;
      var b := BestOf(t, p, front);
      LessTotal(t.nodes[b].key, t.nodes[last].key);
      assert forall d | d in s :: d in front || d == last;
      if Beats(t, p, b, last) then b
      else
        assert forall d | d in front :: Beats(t, p, last, d) by {
          forall d | d in front ensures Beats(t, p, last, d) { BeatsTransitive(t, p, last, b, d); }
        }
        last
  }

  /** There is one best child, whatever order the children are listed in. */
  lemma BestIsUnique(t: Tree, p: nat, s: seq<nat>, s': seq<nat>, c: nat, d: nat)
    requires WellFormed(t) && p < |t.nodes| && InArena(t, s) && InArena(t, s')
    requires forall e :: e in s <==> e in s'
    requires BestAmong(t, p, s, c) && BestAmong(t, p, s', d)
    ensures c == d
  {
    assert Beats(t, p, c, d) && Beats(t, p, d, c);
    LessTotal(t.nodes[c].key, t.nodes[d].key);
  }

  /* ---------- the walk ---------- */

  /** Progressive widening: may this node be given another child? */
  predicate Expandable(config: Config, n: Node) {
    n.children == [] || |n.children| as real < config.limit(Max1(n.visits))
  }

  /** The best child, unless the node itself may be widened. */
  function NextOnWalk(t: Tree, cursor: nat): (next: Option<nat>)
    requires WellFormed(t) && cursor < |t.nodes|
    ensures next.None? <==> Expandable(t.config, t.nodes[cursor])
    ensures InArena(t, t.nodes[cursor].children)
    ensures next.Some? ==> next.value < |t.nodes| && BestAmong(t, cursor, t.nodes[cursor].children, next.value)
  {
    assert ChildrenNameIt(t.nodes, cursor);
    assert forall c | c in t.nodes[cursor].children :: IsChildOf(t.nodes, c, cursor);
    if Expandable(t.config, t.nodes[cursor]) then None
    else Some(BestOf(t, cursor, t.nodes[cursor].children))
  }

  /** The greedy walk down from `cursor`, of at most `budget` further nodes. */
  function Walk(t: Tree, cursor: nat, budget: nat): (w: seq<nat>)
    requires WellFormed(t) && cursor < |t.nodes|
    ensures w != [] && w[0] == cursor && InArena(t, w) && |w| <= budget + 1
    decreases budget
  {
    var next := NextOnWalk(t, cursor);
    if budget == 0 || next.None? then [cursor] else [cursor] + Walk(t, next.value, budget - 1)
  }

  ghost predicate GreedyStep(t: Tree, w: seq<nat>, j: nat)
    requires j + 1 < |w|
  {
    && w[j] < |t.nodes| && !Expandable(t.config, t.nodes[w[j]])
    && InArena(t, t.nodes[w[j]].children)
    && BestAmong(t, w[j], t.nodes[w[j]].children, w[j + 1])
  }

  /** A walk that goes to the best child each time and stops as soon as a node may
      be widened or the depth is used up. */
  ghost predicate IsGreedy(t: Tree, start: nat, w: seq<nat>, depth: nat) {
    && w != [] && w[0] == start && |w| <= depth
    && (forall j | 0 <= j < |w| - 1 :: GreedyStep(t, w, j))
    && w[|w| - 1] < |t.nodes|
    && (|w| == depth || Expandable(t.config, t.nodes[w[|w| - 1]]))
  }

  lemma {:induction false} WalkIsGreedy(t: Tree, start: nat, depth: nat)
    requires WellFormed(t) && start < |t.nodes| && depth >= 1
    ensures IsGreedy(t, start, Walk(t, start, depth - 1), depth)
    decreases depth
  {
    hide WellFormed, NextOnWalk, BestAmong;
    var next := NextOnWalk(t, start);
    if depth > 1 && next.Some? {
      WalkIsGreedy(t, next.value, depth - 1);
      var w := Walk(t, start, depth - 1);
      assert w[1..] == Walk(t, next.value, depth - 2);
      GreedyCons(t, start, w, depth, next.value);
    }
  }

  lemma {:induction false} GreedyIsWalk(t: Tree, start: nat, w: seq<nat>, depth: nat)
    requires WellFormed(t) && start < |t.nodes| && depth >= 1 && IsGreedy(t, start, w, depth)
    ensures w == Walk(t, start, depth - 1)
    decreases depth
  {
    hide WellFormed, NextOnWalk, BestAmong;
    assert |w| > 1 ==> GreedyStep(t, w, 0);
    var next := NextOnWalk(t, start);
    if depth > 1 && next.Some? {
      GreedyTail(t, start, w, depth, next.value);
      GreedyIsWalk(t, next.value, w[1..], depth - 1);
    }
  }

  /** `Walk` is the only greedy walk. */
  lemma WalkIsTheGreedyWalk(t: Tree, start: nat, w: seq<nat>, depth: nat)
    requires WellFormed(t) && start < |t.nodes| && depth >= 1
    ensures IsGreedy(t, start, w, depth) <==> w == Walk(t, start, depth - 1)
  {
    WalkIsGreedy(t, start, depth);
    if IsGreedy(t, start, w, depth) { GreedyIsWalk(t, start, w, depth); }
  }

  lemma GreedyTail(t: Tree, start: nat, w: seq<nat>, depth: nat, next: nat)
    requires WellFormed(t) && IsGreedy(t, start, w, depth) && depth >= 2
    requires start < |t.nodes| && !Expandable(t.config, t.nodes[start])
    requires InArena(t, t.nodes[start].children) && BestAmong(t, start, t.nodes[start].children, next)
    ensures |w| > 1 && w == [start] + w[1..] && IsGreedy(t, next, w[1..], depth - 1)
  {
    assert |w| > 1;
    assert GreedyStep(t, w, 0);
    BestIsUnique(t, start, t.nodes[start].children, t.nodes[start].children, next, w[1]);
    var v := w[1..];
    forall j | 0 <= j < |v| - 1 ensures GreedyStep(t, v, j) {
      assert GreedyStep(t, w, j + 1);
    }
  }

  lemma GreedyCons(t: Tree, start: nat, w: seq<nat>, depth: nat, next: nat)
    requires WellFormed(t) && |w| > 1 && w[0] == start && depth >= 2
    requires IsGreedy(t, next, w[1..], depth - 1)
    requires start < |t.nodes| && !Expandable(t.config, t.nodes[start])
    requires InArena(t, t.nodes[start].children) && BestAmong(t, start, t.nodes[start].children, next)
    ensures IsGreedy(t, start, w, depth)
  {
    forall j | 0 <= j < |w| - 1 ensures GreedyStep(t, w, j) {
      if j > 0 { assert GreedyStep(t, w[1..], j - 1); }
    }
  }

  function Keys(t: Tree, w: seq<nat>): (ks: seq<string>)
    requires InArena(t, w)
    ensures |ks| == |w|
  {
    seq(|w|, i requires 0 <= i < |w| => assert w[i] in w; t.nodes[w[i]].key)
  }

  /** The walk as the keys it collects on the way. */
  function KeysOnward(t: Tree, selected: seq<string>, cursor: nat, maxDepth: nat): seq<string>
    requires WellFormed(t) && cursor < |t.nodes| && 1 <= |selected| <= maxDepth
    decreases maxDepth - |selected|
  {
    var next := NextOnWalk(t, cursor);
    if |selected| == maxDepth || next.None? then selected
    else KeysOnward(t, selected + [t.nodes[next.value].key], next.value, maxDepth)
  }

  lemma {:induction false} KeysOnwardIsWalk(t: Tree, selected: seq<string>, cursor: nat, maxDepth: nat)
    requires WellFormed(t) && cursor < |t.nodes| && 1 <= |selected| <= maxDepth
    requires selected[|selected| - 1] == t.nodes[cursor].key
    ensures KeysOnward(t, selected, cursor, maxDepth)
         == selected[..|selected| - 1] + Keys(t, Walk(t, cursor, maxDepth - |selected|))
    decreases maxDepth - |selected|
  {
    hide WellFormed, NextOnWalk;
    var next, budget := NextOnWalk(t, cursor), maxDepth - |selected|;
    if budget > 0 && next.Some? {
      var more, rest := selected + [t.nodes[next.value].key], Walk(t, next.value, budget - 1);
      KeysOnwardIsWalk(t, more, next.value, maxDepth);
      assert more[..|selected|] == selected;
      assert Keys(t, [cursor] + rest) == [t.nodes[cursor].key] + Keys(t, rest);
      assert selected == selected[..|selected| - 1] + [t.nodes[cursor].key];
    } else {
      assert Keys(t, [cursor]) == [t.nodes[cursor].key];
    }
  }

  function SelectPath(t: Tree, maxDepth: nat): (r: Result<seq<string>, Error>)
    requires WellFormed(t)
  {
    if maxDepth == 0 then Err(DepthZero) else Ok(Keys(t, Walk(t, t.root, maxDepth - 1)))
  }

  lemma KeysOnwardIsSelected(t: Tree, maxDepth: nat)
    requires WellFormed(t) && maxDepth >= 1
    ensures SelectPath(t, maxDepth) == Ok(KeysOnward(t, [RootKey(t)], t.root, maxDepth))
  {
    KeysOnwardIsWalk(t, [RootKey(t)], t.root, maxDepth);
    var keys := Keys(t, Walk(t, t.root, maxDepth - 1));
    assert [RootKey(t)][..0] + keys == keys;
  }

  /** What is selected is a chain, no longer than asked for, with no node twice. */
  lemma SelectedIsChain(t: Tree, maxDepth: nat)
    requires WellFormed(t) && maxDepth >= 1
    ensures
      var path := SelectPath(t, maxDepth).value;
      && Chain(t, path) && |path| <= maxDepth
      && (forall i, j | 0 <= i < j < |path| :: path[i] != path[j])
  {
    var w := Walk(t, t.root, maxDepth - 1);
    var path := Keys(t, w);
    WalkIsTheGreedyWalk(t, t.root, w, maxDepth);
    forall j | 0 <= j < |path| ensures Linked(t, path, j) {
      assert w[j] in w;
      if j > 0 { assert w[j - 1] in w && GreedyStep(t, w, j - 1); }
    }
    forall i, j | 0 <= i < j < |path| ensures path[i] != path[j] { ChainDistinct(t, path, i, j); }
  }

  /* ---------- the choice in the nodes' own terms ---------- */

  /** `a` comes before `b` in a dictionary: it ends first, or is smaller where they part. */
  ghost predicate Precedes(a: string, b: string) {
    exists k: nat :: PartAt(a, b, k)
  }

  predicate PartAt(a: string, b: string, k: nat) {
    && k <= |a| && k <= |b| && a[..k] == b[..k]
    && (if k == |a| then k < |b| else k < |b| && a[k] < b[k])
  }

  lemma {:induction false} LessIffPrecedes(a: string, b: string)
    ensures Less(a, b) <==> Precedes(a, b)
    decreases |a|
  {
    if a == [] || b == [] || a[0] != b[0] {
      assert b != [] && (a == [] || a[0] < b[0]) ==> PartAt(a, b, 0);
      if Precedes(a, b) {
        var k: nat :| PartAt(a, b, k);
        assert k > 0 ==> a[..k][0] == b[..k][0];
      }
    } else {
      LessIffPrecedes(a[1..], b[1..]);
      if Precedes(a[1..], b[1..]) {
        var k: nat :| PartAt(a[1..], b[1..], k);
        assert a[..k + 1] == [a[0]] + a[1..][..k] && b[..k + 1] == [b[0]] + b[1..][..k];
        assert PartAt(a, b, k + 1);
      }
      if k: nat :| PartAt(a, b, k) {
        assert a[..k][1..] == a[1..][..k - 1] && b[..k][1..] == b[1..][..k - 1];
        assert PartAt(a[1..], b[1..], k - 1);
      }
    }
  }

  /** Mean reward and exploration bonus of a child that has been visited. */
  function UpperBound(config: Config, parent: Node, child: Node): real
    requires child.visits > 0
  {
    child.rewardSum / child.visits as real
    + config.explore(if parent.visits < 1 then 1 else parent.visits, child.visits)
  }

  predicate Unvisited(t: Tree, d: nat) {
    d < |t.nodes| && t.nodes[d].visits == 0
  }

  /** `c` is the unvisited child of `p` with the first key; or, if all are visited, the one
      with the highest upper bound, the first of them by key. */
  ghost predicate Preferred(t: Tree, p: nat, c: nat)
    requires p < |t.nodes|
  {
    var children := t.nodes[p].children;
    && c in children && c < |t.nodes|
    && if exists d :: d in children && Unvisited(t, d)
       then
         && Unvisited(t, c)
         && forall d | d in children && Unvisited(t, d) :: d == c || Precedes(t.nodes[c].key, t.nodes[d].key)
       else
         forall d | d in children && d < |t.nodes| && t.nodes[d].visits > 0 && t.nodes[c].visits > 0 ::
           var x, y := UpperBound(t.config, t.nodes[p], t.nodes[c]), UpperBound(t.config, t.nodes[p], t.nodes[d]);
           x > y || (x == y && (d == c || Precedes(t.nodes[c].key, t.nodes[d].key)))
  }

  lemma BestIsPreferred(t: Tree, p: nat, c: nat)
    requires WellFormed(t) && p < |t.nodes| && InArena(t, t.nodes[p].children)
    requires BestAmong(t, p, t.nodes[p].children, c)
    ensures Preferred(t, p, c)
  {
    forall d | d in t.nodes[p].children
      ensures Beats(t, p, c, d) && (d != c ==> t.nodes[d].key != t.nodes[c].key)
      ensures Less(t.nodes[c].key, t.nodes[d].key) <==> Precedes(t.nodes[c].key, t.nodes[d].key)
      ensures Less(t.nodes[c].key, t.nodes[d].key) || Less(t.nodes[d].key, t.nodes[c].key) || d == c
    {
      LessIffPrecedes(t.nodes[c].key, t.nodes[d].key);
      LessTotal(t.nodes[c].key, t.nodes[d].key);
      assert t.index[t.nodes[c].key] == c && t.index[t.nodes[d].key] == d;
    }
    hide Less, Precedes, WellFormed;
  }

  /** Where the walk stops, and where it goes on to. */
  lemma NextIsPreferred(t: Tree, cursor: nat)
    requires WellFormed(t) && cursor < |t.nodes|
    ensures
      var n := t.nodes[cursor];
      NextOnWalk(t, cursor).None? <==>
        n.children == [] || |n.children| as real < t.config.limit(if n.visits < 1 then 1 else n.visits)
    ensures NextOnWalk(t, cursor).Some? ==> Preferred(t, cursor, NextOnWalk(t, cursor).value)
  {
    var next := NextOnWalk(t, cursor);
    if next.Some? { BestIsPreferred(t, cursor, next.value); }
    hide Preferred, BestAmong;
  }

  /** Each step of the walk goes to the preferred child; in particular never past a child
      that has not been visited to one that has. */
  lemma WalkPrefers(t: Tree, depth: nat, j: nat)
    requires WellFormed(t) && depth >= 1 && j + 1 < |Walk(t, t.root, depth - 1)|
    ensures
      var w := Walk(t, t.root, depth - 1);
      && w[j] < |t.nodes| && Preferred(t, w[j], w[j + 1])
      && ((exists d :: d in t.nodes[w[j]].children && Unvisited(t, d)) ==> Unvisited(t, w[j + 1]))
  {
    var w := Walk(t, t.root, depth - 1);
    WalkIsTheGreedyWalk(t, t.root, w, depth);
    assert GreedyStep(t, w, j);
    hide BestAmong, WellFormed, Walk;
    BestIsPreferred(t, w[j], w[j + 1]);
  }
}
