/** The gitignore-aware search: an iterative descent with one shared rule list,
    against the recursive definition in which each directory has its own. */
module FindFiles {
  import opened Wrappers
  import opened Gitignore

  datatype Ignore = NoIgnoreFile | UnreadableIgnore | IgnoreLines(lines: seq<string>)

  datatype Kind = RegularFile | OtherKind | Folder(tree: Tree) | LockedFolder

  datatype Entry = Entry(name: string, kind: Kind)

  datatype Tree = Directory(ignore: Ignore, readable: bool, entries: seq<Entry>)

  datatype Options = Options(includeFiles: bool, includeDirectories: bool, respectGitignore: bool)

  datatype Match = Match(path: string, isDir: bool)

  datatype Error = BadIgnoreFile(path: string) | UnreadableDirectory(path: string) | CannotOpen(path: string)

  /** What a search is called with, and how globs compile. */
  datatype Query = Query(pattern: Pattern, options: Options, compile: string -> Option<Pattern>)

  predicate MatchesPathPattern(pattern: Pattern, path: string) {
    pattern.matches(if '/' in pattern.text then path else Basename(path))
  }

  predicate IsDir(entry: Entry) {
    entry.kind.Folder? || entry.kind.LockedFolder?
  }

  /** Entries that are passed over: git's own directory, and what the rules ignore. */
  predicate Skipped(q: Query, rules: seq<Rule>, base: string, entry: Entry) {
    q.options.respectGitignore &&
    ((entry.name == ".git" && IsDir(entry)) || Ignored(rules, Join(base, entry.name), IsDir(entry)))
  }

  /** The entry's own match, if it is one. */
  function OwnMatch(q: Query, base: string, entry: Entry): seq<Match> {
    var path := Join(base, entry.name);
    if !MatchesPathPattern(q.pattern, path) then []
    else if IsDir(entry) then (if q.options.includeDirectories then [Match(path, true)] else [])
    else if entry.kind.RegularFile? && q.options.includeFiles then [Match(path, false)]
    else []
  }

  /** A directory's rules: those it inherits and its own behind them. */
  function RulesAt(q: Query, tree: Tree, path: string, inherited: seq<Rule>): Result<seq<Rule>, Error> {
    if !q.options.respectGitignore then Ok(inherited)
    else
      match tree.ignore
      case NoIgnoreFile => Ok(inherited)
      case UnreadableIgnore => Err(BadIgnoreFile(path))
      case IgnoreLines(lines) =>
        match RulesOf(lines, |lines|, path, q.compile)
        case None => Err(BadIgnoreFile(path))
        case Some(added) => Ok(inherited + added)
  }

  type Finds = Result<seq<Match>, Error>

  /** First one search, then another; the first error ends both. */
  function Combine(a: Finds, b: Finds): Finds {
    if a.Err? then a else if b.Err? then b else Ok(a.value + b.value)
  }

  lemma CombineAssociates(a: Finds, b: Finds, c: Finds)
    ensures Combine(Combine(a, b), c) == Combine(a, Combine(b, c))
  {
    if a.Ok? && b.Ok? && c.Ok? { assert a.value + b.value + c.value == a.value + (b.value + c.value); }
  }

  lemma CombineUnit(a: Finds)
    ensures Combine(Ok([]), a) == a == Combine(a, Ok([]))
  {
    if a.Ok? { assert [] + a.value == a.value == a.value + []; }
  }

  /** What an entry gives by itself; a folder that cannot be opened is an error. */
  function OwnResult(q: Query, rules: seq<Rule>, base: string, entry: Entry): Finds {
    if Skipped(q, rules, base, entry) then Ok([])
    else if entry.kind.LockedFolder? then Err(CannotOpen(Join(base, entry.name)))
    else Ok(OwnMatch(q, base, entry))
  }

  /** The matches among the first `n` entries themselves. */
  function OwnMatches(q: Query, rules: seq<Rule>, base: string, entries: seq<Entry>, n: nat): Finds
    requires n <= |entries|
  {
    if n == 0 then Ok([])
    else Combine(OwnMatches(q, rules, base, entries, n - 1), OwnResult(q, rules, base, entries[n - 1]))
  }

  predicate Entered(q: Query, rules: seq<Rule>, base: string, entry: Entry) {
    entry.kind.Folder? && !Skipped(q, rules, base, entry)
  }

  /** Everything below a directory: its own matches, then its folders, last one first. */
  function FindIn(q: Query, tree: Tree, path: string, inherited: seq<Rule>): Finds
    decreases tree, |tree.entries| + 1
  {
    match RulesAt(q, tree, path, inherited)
    case Err(e) => Err(e)
    case Ok(rules) =>
      if !tree.readable then Err(UnreadableDirectory(path))
      else Combine(OwnMatches(q, rules, path, tree.entries, |tree.entries|),
                   FindBelow(q, tree, path, rules, |tree.entries|))
  }

  /** What is found in the folders among the first `n` entries. */
  function FindBelow(q: Query, tree: Tree, path: string, rules: seq<Rule>, n: nat): Finds
    requires n <= |tree.entries|
    decreases tree, n
  {
    if n == 0 then Ok([])
    else
      var entry := tree.entries[n - 1];
      Combine(if Entered(q, rules, path, entry)
              then FindIn(q, entry.kind.tree, Join(path, entry.name), rules) else Ok([]),
              FindBelow(q, tree, path, rules, n - 1))
  }

  /* ---------- the natural order ---------- */

  /** The same search in listing order, going into each folder as it is met. */
  function Natural(q: Query, tree: Tree, path: string, inherited: seq<Rule>): Finds
    decreases tree, |tree.entries| + 1
  {
    match RulesAt(q, tree, path, inherited)
    case Err(e) => Err(e)
    case Ok(rules) =>
      if !tree.readable then Err(UnreadableDirectory(path))
      else NaturalUpTo(q, tree, path, rules, |tree.entries|)
  }

  function NaturalUpTo(q: Query, tree: Tree, path: string, rules: seq<Rule>, n: nat): Finds
    requires n <= |tree.entries|
    decreases tree, n
  {
    if n == 0 then Ok([])
    else
      var entry := tree.entries[n - 1];
      Combine(Combine(NaturalUpTo(q, tree, path, rules, n - 1), OwnResult(q, rules, path, entry)),
              if Entered(q, rules, path, entry)
              then Natural(q, entry.kind.tree, Join(path, entry.name), rules) else Ok([]))
  }

  /** Both succeed or both fail, and they find the same, each as often. */
  ghost predicate SameFinds(a: Finds, b: Finds) {
    (a.Ok? <==> b.Ok?) && (a.Ok? ==> multiset(a.value) == multiset(b.value))
  }

  lemma Rearranged(own: Finds, here: Finds, folder: Finds, below: Finds, natural: Finds, naturalFolder: Finds)
    requires SameFinds(Combine(own, below), natural) && SameFinds(folder, naturalFolder)
    ensures SameFinds(Combine(Combine(own, here), Combine(folder, below)),
                      Combine(Combine(natural, here), naturalFolder))
  {
    if own.Ok? && here.Ok? && folder.Ok? && below.Ok? {
      assert multiset(own.value + here.value + (folder.value + below.value))
          == multiset(own.value) + multiset(here.value) + multiset(folder.value) + multiset(below.value);
      assert multiset(own.value + below.value) == multiset(own.value) + multiset(below.value);
      assert multiset(natural.value + here.value + naturalFolder.value)
          == multiset(natural.value) + multiset(here.value) + multiset(naturalFolder.value);
    }
  }

  /** The search finds the same as the natural one, though in another order. */
  lemma {:induction false} FindIsNatural(q: Query, tree: Tree, path: string, inherited: seq<Rule>)
    ensures SameFinds(FindIn(q, tree, path, inherited), Natural(q, tree, path, inherited))
    decreases tree, |tree.entries| + 1
  {
    var rules := RulesAt(q, tree, path, inherited);
    hide RulesAt, Combine, OwnMatches, FindBelow, NaturalUpTo;
    if rules.Ok? && tree.readable { BelowIsNatural(q, tree, path, rules.value, |tree.entries|); }
  }

  lemma {:induction false} BelowIsNatural(q: Query, tree: Tree, path: string, rules: seq<Rule>, n: nat)
    requires n <= |tree.entries|
    ensures SameFinds(Combine(OwnMatches(q, rules, path, tree.entries, n), FindBelow(q, tree, path, rules, n)),
                      NaturalUpTo(q, tree, path, rules, n))
    decreases tree, n
  {
    if n > 0 {
      hide Skipped, OwnResult, Natural, FindIn, Combine;
      var entry := tree.entries[n - 1];
      BelowIsNatural(q, tree, path, rules, n - 1);
      if Entered(q, rules, path, entry) { FindIsNatural(q, entry.kind.tree, Join(path, entry.name), rules); }
      Rearranged(OwnMatches(q, rules, path, tree.entries, n - 1), OwnResult(q, rules, path, entry),
                 if Entered(q, rules, path, entry)
                 then FindIn(q, entry.kind.tree, Join(path, entry.name), rules) else Ok([]),
                 FindBelow(q, tree, path, rules, n - 1), NaturalUpTo(q, tree, path, rules, n - 1),
                 if Entered(q, rules, path, entry)
                 then Natural(q, entry.kind.tree, Join(path, entry.name), rules) else Ok([]));
    }
  }

  /* ---------- what is found ---------- */

  /** A way down by entry numbers: each folder on it and the entry at its end are
      passed over by the rules of no directory they are met in, and the entry matches. */
  ghost predicate Leads(q: Query, tree: Tree, path: string, inherited: seq<Rule>, trail: seq<nat>, m: Match)
    decreases tree
  {
    var rules := RulesAt(q, tree, path, inherited);
    && rules.Ok? && trail != [] && trail[0] < |tree.entries|
    && var entry := tree.entries[trail[0]];
    && if |trail| == 1 then Gives(q, rules.value, path, entry, m)
       else Entered(q, rules.value, path, entry)
            && Leads(q, entry.kind.tree, Join(path, entry.name), rules.value, trail[1..], m)
  }

  predicate Gives(q: Query, rules: seq<Rule>, base: string, entry: Entry, m: Match) {
    !Skipped(q, rules, base, entry) && m in OwnMatch(q, base, entry)
  }

  predicate Has(f: Finds, m: Match) {
    f.Ok? && m in f.value
  }

  lemma CombineHas(a: Finds, b: Finds, m: Match)
    requires Combine(a, b).Ok?
    ensures a.Ok? && b.Ok?
    ensures Has(Combine(a, b), m) <==> Has(a, m) || Has(b, m)
  {
  }

  lemma OwnHas(q: Query, rules: seq<Rule>, base: string, entry: Entry, m: Match)
    requires OwnResult(q, rules, base, entry).Ok?
    ensures Has(OwnResult(q, rules, base, entry), m) <==> Gives(q, rules, base, entry, m)
  {
    hide Skipped, OwnMatch;
  }

  ghost predicate SomeGives(q: Query, rules: seq<Rule>, base: string, entries: seq<Entry>, n: nat, m: Match)
    requires n <= |entries|
  {
    exists k | 0 <= k < n :: Gives(q, rules, base, entries[k], m)
  }

  lemma SomeGivesOneMore(q: Query, rules: seq<Rule>, base: string, entries: seq<Entry>, n: nat, m: Match)
    requires 0 < n <= |entries|
    ensures SomeGives(q, rules, base, entries, n, m)
       <==> SomeGives(q, rules, base, entries, n - 1, m) || Gives(q, rules, base, entries[n - 1], m)
  {
    hide Gives;
  }

  lemma {:induction false} OwnMatchesHas(q: Query, rules: seq<Rule>, base: string, entries: seq<Entry>, n: nat,
                                         m: Match)
    requires n <= |entries| && OwnMatches(q, rules, base, entries, n).Ok?
    ensures Has(OwnMatches(q, rules, base, entries, n), m) <==>
              SomeGives(q, rules, base, entries, n, m)
  {
    if n > 0 {
      hide Combine, OwnResult, Has, Gives, SomeGives;
      SomeGivesOneMore(q, rules, base, entries, n, m);
      CombineHas(OwnMatches(q, rules, base, entries, n - 1), OwnResult(q, rules, base, entries[n - 1]), m);
      OwnHas(q, rules, base, entries[n - 1], m);
      OwnMatchesHas(q, rules, base, entries, n - 1, m);
    }
  }

  /** What one directory gives, folder by folder. */
  lemma FindInHas(q: Query, tree: Tree, path: string, inherited: seq<Rule>, m: Match)
    requires FindIn(q, tree, path, inherited).Ok?
    ensures RulesAt(q, tree, path, inherited).Ok?
    ensures
      var rules := RulesAt(q, tree, path, inherited).value;
      && FindBelow(q, tree, path, rules, |tree.entries|).Ok?
      && (Has(FindIn(q, tree, path, inherited), m) <==>
            SomeGives(q, rules, path, tree.entries, |tree.entries|, m)
            || Has(FindBelow(q, tree, path, rules, |tree.entries|), m))
  {
    var rules := RulesAt(q, tree, path, inherited).value;
    CombineHas(OwnMatches(q, rules, path, tree.entries, |tree.entries|),
               FindBelow(q, tree, path, rules, |tree.entries|), m);
    hide Combine, OwnMatches, FindBelow, RulesAt, Has, SomeGives;
    OwnMatchesHas(q, rules, path, tree.entries, |tree.entries|, m);
  }

  /** Where what is found below comes from: one more folder. */
  lemma FindBelowHas(q: Query, tree: Tree, path: string, rules: seq<Rule>, n: nat, m: Match)
    requires 0 < n <= |tree.entries| && FindBelow(q, tree, path, rules, n).Ok?
    ensures
      var entry := tree.entries[n - 1];
      var entered := Entered(q, rules, path, entry);
      && FindBelow(q, tree, path, rules, n - 1).Ok?
      && (entered ==> FindIn(q, entry.kind.tree, Join(path, entry.name), rules).Ok?)
      && (Has(FindBelow(q, tree, path, rules, n), m) <==>
            (entered && Has(FindIn(q, entry.kind.tree, Join(path, entry.name), rules), m))
            || Has(FindBelow(q, tree, path, rules, n - 1), m))
  {
    hide FindIn, Skipped;
    var entry := tree.entries[n - 1];
    CombineHas(if Entered(q, rules, path, entry)
               then FindIn(q, entry.kind.tree, Join(path, entry.name), rules) else Ok([]),
               FindBelow(q, tree, path, rules, n - 1), m);
  }

  function FolderFinds(q: Query, tree: Tree, path: string, rules: seq<Rule>, k: nat): Finds
    requires k < |tree.entries| && tree.entries[k].kind.Folder?
  {
    FindIn(q, tree.entries[k].kind.tree, Join(path, tree.entries[k].name), rules)
  }

  /** What is found below was found in one of the folders entered. */
  lemma {:induction false} BelowComesFrom(q: Query, tree: Tree, path: string, rules: seq<Rule>, n: nat, m: Match)
    returns (k: nat)
    requires n <= |tree.entries| && Has(FindBelow(q, tree, path, rules, n), m)
    ensures k < n && Entered(q, rules, path, tree.entries[k]) && Has(FolderFinds(q, tree, path, rules, k), m)
    decreases n
  {
    hide FindIn, Skipped;
    assert n > 0;
    FindBelowHas(q, tree, path, rules, n, m);
    hide FindBelow, Has;
    if Entered(q, rules, path, tree.entries[n - 1]) && Has(FolderFinds(q, tree, path, rules, n - 1), m) {
      k := n - 1;
    } else {
      k := BelowComesFrom(q, tree, path, rules, n - 1, m);
    }
  }

  lemma {:induction false} FolderIsBelow(q: Query, tree: Tree, path: string, rules: seq<Rule>, n: nat, k: nat, m: Match)
    requires k < n <= |tree.entries| && FindBelow(q, tree, path, rules, n).Ok?
    requires Entered(q, rules, path, tree.entries[k])
    ensures FolderFinds(q, tree, path, rules, k).Ok?
    ensures Has(FolderFinds(q, tree, path, rules, k), m) ==> Has(FindBelow(q, tree, path, rules, n), m)
    decreases n
  {
    FindBelowHas(q, tree, path, rules, n, m);
    hide FindIn, FindBelow, Has, Skipped;
    if k < n - 1 { FolderIsBelow(q, tree, path, rules, n - 1, k, m); }
  }

  /** Nothing is reported but what some way leads to: in particular nothing under an
      ignored directory. */
  lemma {:induction false} FoundIsReached(q: Query, tree: Tree, path: string, inherited: seq<Rule>, m: Match)
    returns (trail: seq<nat>)
    requires Has(FindIn(q, tree, path, inherited), m)
    ensures Leads(q, tree, path, inherited, trail, m)
    decreases tree
  {
    FindInHas(q, tree, path, inherited, m);
    hide FindIn, FindBelow, RulesAt, Gives, Skipped, Has;
    var rules := RulesAt(q, tree, path, inherited).value;
    if k :| 0 <= k < |tree.entries| && Gives(q, rules, path, tree.entries[k], m) {
      trail := [k];
    } else {
      var k := BelowComesFrom(q, tree, path, rules, |tree.entries|, m);
      var rest := FoundIsReached(q, tree.entries[k].kind.tree, Join(path, tree.entries[k].name), rules, m);
      trail := [k] + rest;
      assert trail[1..] == rest;
    }
  }

  /** And everything some way leads to is reported. */
  lemma {:induction false} ReachedIsFound(q: Query, tree: Tree, path: string, inherited: seq<Rule>, trail: seq<nat>,
                                          m: Match)
    requires FindIn(q, tree, path, inherited).Ok? && Leads(q, tree, path, inherited, trail, m)
    ensures Has(FindIn(q, tree, path, inherited), m)
    decreases tree
  {
    FindInHas(q, tree, path, inherited, m);
    hide FindIn, FindBelow, RulesAt, Gives, Skipped, Has;
    if |trail| > 1 {
      var rules, k := RulesAt(q, tree, path, inherited).value, trail[0];
      FolderIsBelow(q, tree, path, rules, |tree.entries|, k, m);
      ReachedIsFound(q, tree.entries[k].kind.tree, Join(path, tree.entries[k].name), rules, trail[1..], m);
    }
  }

  /* ---------- the iterative search ---------- */

  datatype Pending = Pending(tree: Tree, path: string, inheritedLen: nat)

  /** Each pending directory's rules: those of its ancestors. */
  ghost predicate StackOk(stack: seq<Pending>, ancestry: seq<seq<Rule>>, rules: seq<Rule>) {
    && |ancestry| == |stack|
    && (forall i | 0 <= i < |stack| :: stack[i].inheritedLen == |ancestry[i]| && ancestry[i] <= rules)
    && (forall i, j | 0 <= i < j < |stack| :: stack[i].inheritedLen <= stack[j].inheritedLen)
  }

  /** What the first `n` pending directories still give, the last one first. */
  ghost function FindStack(q: Query, stack: seq<Pending>, ancestry: seq<seq<Rule>>, n: nat): Finds
    requires n <= |stack| == |ancestry|
  {
    if n == 0 then Ok([])
    else Combine(FindIn(q, stack[n - 1].tree, stack[n - 1].path, ancestry[n - 1]), FindStack(q, stack, ancestry, n - 1))
  }

  function TreeSize(tree: Tree): nat
    decreases tree, |tree.entries| + 1
  {
    1 + AllEntriesSize(tree, |tree.entries|)
  }

  function AllEntriesSize(tree: Tree, n: nat): nat
    requires n <= |tree.entries|
    decreases tree, n
  {
    if n == 0 then 0
    else
      AllEntriesSize(tree, n - 1)
      + (if tree.entries[n - 1].kind.Folder? then TreeSize(tree.entries[n - 1].kind.tree) else 0)
  }

  /** The folders among the first `n` entries that are entered. */
  function EntriesSize(q: Query, rules: seq<Rule>, path: string, tree: Tree, n: nat): nat
    requires n <= |tree.entries|
  {
    if n == 0 then 0
    else EntriesSize(q, rules, path, tree, n - 1)
         + (if Entered(q, rules, path, tree.entries[n - 1]) then TreeSize(tree.entries[n - 1].kind.tree) else 0)
  }

  lemma {:induction false} EntriesFit(q: Query, rules: seq<Rule>, path: string, tree: Tree, n: nat)
    requires n <= |tree.entries|
    ensures EntriesSize(q, rules, path, tree, n) <= AllEntriesSize(tree, n)
    ensures EntriesSize(q, rules, path, tree, |tree.entries|) < TreeSize(tree) || n < |tree.entries|
  {
    if n > 0 { EntriesFit(q, rules, path, tree, n - 1); }
  }

  function StackSize(stack: seq<Pending>, n: nat): nat
    requires n <= |stack|
  {
    if n == 0 then 0 else StackSize(stack, n - 1) + TreeSize(stack[n - 1].tree)
  }

  lemma {:induction false} StackPrefix(q: Query, s: seq<Pending>, t: seq<Pending>, a: seq<seq<Rule>>,
                                       b: seq<seq<Rule>>, n: nat)
    requires n <= |s| == |a| && n <= |t| == |b|
    requires forall i | 0 <= i < n :: s[i] == t[i] && a[i] == b[i]
    ensures FindStack(q, s, a, n) == FindStack(q, t, b, n) && StackSize(s, n) == StackSize(t, n)
  {
    hide FindIn, Combine, TreeSize;
    if n > 0 { StackPrefix(q, s, t, a, b, n - 1); }
  }

  lemma Pushed(q: Query, stack: seq<Pending>, ancestry: seq<seq<Rule>>, top: Pending, inherited: seq<Rule>)
    requires |stack| == |ancestry|
    ensures FindStack(q, stack + [top], ancestry + [inherited], |stack| + 1)
         == Combine(FindIn(q, top.tree, top.path, inherited), FindStack(q, stack, ancestry, |stack|))
    ensures StackSize(stack + [top], |stack| + 1) == StackSize(stack, |stack|) + TreeSize(top.tree)
  {
    StackPrefix(q, stack, stack + [top], ancestry, ancestry + [inherited], |stack|);
    hide FindIn, Combine, TreeSize;
  }

  method LoadRules(q: Query, tree: Tree, path: string, rules: seq<Rule>) returns (r: Result<seq<Rule>, Error>)
    ensures r == RulesAt(q, tree, path, rules)
  {
    if !q.options.respectGitignore {
      return Ok(rules);
    }
    match tree.ignore {
      case NoIgnoreFile => r := Ok(rules);
      case UnreadableIgnore => r := Err(BadIgnoreFile(path));
      case IgnoreLines(lines) =>
        var parsed := ParseGitignoreRules(lines, path, q.compile, rules);
        r := if parsed.None? then Err(BadIgnoreFile(path)) else Ok(parsed.value);
    }
  }

  method EntryIsSkipped(q: Query, rules: seq<Rule>, base: string, entry: Entry) returns (skip: bool)
    ensures skip == Skipped(q, rules, base, entry)
  {
    if !q.options.respectGitignore {
      return false;
    }
    if entry.name == ".git" && IsDir(entry) {
      return true;
    }
    skip := PathIsIgnored(rules, Join(base, entry.name), IsDir(entry));
  }

  /** What is left to do below a directory once its listing has been gone through. */
  ghost predicate ScanOk(q: Query, rules: seq<Rule>, d: Pending, below: Finds, size: nat,
                         n: nat, found: seq<Match>, pushed: seq<Pending>, more: seq<seq<Rule>>)
    requires n <= |d.tree.entries|
  {
    && OwnMatches(q, rules, d.path, d.tree.entries, n) == Ok(found)
    && StackOk(pushed, more, rules)
    && FindStack(q, pushed, more, |pushed|) == Combine(FindBelow(q, d.tree, d.path, rules, n), below)
    && StackSize(pushed, |pushed|) == size + EntriesSize(q, rules, d.path, d.tree, n)
  }

  lemma ScanStarts(q: Query, rules: seq<Rule>, d: Pending, stack: seq<Pending>, ancestry: seq<seq<Rule>>)
    requires StackOk(stack, ancestry, rules)
    ensures ScanOk(q, rules, d, FindStack(q, stack, ancestry, |stack|), StackSize(stack, |stack|),
                   0, [], stack, ancestry)
  {
    hide FindStack, StackSize;
    CombineUnit(FindStack(q, stack, ancestry, |stack|));
  }

  /** An entry that is not entered is only recorded. */
  lemma EntryRecorded(q: Query, rules: seq<Rule>, d: Pending, below: Finds, size: nat,
                      n: nat, found: seq<Match>, pushed: seq<Pending>, more: seq<seq<Rule>>)
    requires n < |d.tree.entries| && ScanOk(q, rules, d, below, size, n, found, pushed, more)
    requires !Entered(q, rules, d.path, d.tree.entries[n]) && OwnResult(q, rules, d.path, d.tree.entries[n]).Ok?
    ensures ScanOk(q, rules, d, below, size, n + 1,
                   found + OwnResult(q, rules, d.path, d.tree.entries[n]).value, pushed, more)
  {
    hide FindIn, FindStack, StackSize, Entered, OwnResult, StackOk;
    CombineUnit(FindBelow(q, d.tree, d.path, rules, n));
  }

  /** One that is entered is pushed as well. */
  lemma EntryPushed(q: Query, rules: seq<Rule>, d: Pending, below: Finds, size: nat,
                    n: nat, found: seq<Match>, pushed: seq<Pending>, more: seq<seq<Rule>>)
    requires n < |d.tree.entries| && ScanOk(q, rules, d, below, size, n, found, pushed, more)
    requires Entered(q, rules, d.path, d.tree.entries[n]) && OwnResult(q, rules, d.path, d.tree.entries[n]).Ok?
    ensures
      var entry := d.tree.entries[n];
      ScanOk(q, rules, d, below, size, n + 1, found + OwnResult(q, rules, d.path, entry).value,
             pushed + [Pending(entry.kind.tree, Join(d.path, entry.name), |rules|)], more + [rules])
  {
    var entry := d.tree.entries[n];
    var top := Pending(entry.kind.tree, Join(d.path, entry.name), |rules|);
    var rest := FindBelow(q, d.tree, d.path, rules, n);
    StackGrows(pushed, more, rules, top);
    hide FindIn, FindStack, StackSize, OwnResult, StackOk, TreeSize, Skipped;
    Pushed(q, pushed, more, top, rules);
    CombineAssociates(FindIn(q, top.tree, top.path, rules), rest, below);
    hide Combine;
    assert FindBelow(q, d.tree, d.path, rules, n + 1) == Combine(FindIn(q, top.tree, top.path, rules), rest);
  }

  lemma StackGrows(stack: seq<Pending>, ancestry: seq<seq<Rule>>, rules: seq<Rule>, top: Pending)
    requires StackOk(stack, ancestry, rules) && top.inheritedLen == |rules|
    ensures StackOk(stack + [top], ancestry + [rules], rules)
  {
  }

  lemma {:induction false} OwnMatchesFail(q: Query, rules: seq<Rule>, base: string, entries: seq<Entry>, n: nat, m: nat)
    requires n <= m <= |entries| && OwnMatches(q, rules, base, entries, n).Err?
    ensures OwnMatches(q, rules, base, entries, m) == OwnMatches(q, rules, base, entries, n)
    decreases m - n
  {
    hide OwnResult;
    if n < m { OwnMatchesFail(q, rules, base, entries, n + 1, m); }
  }

  /** One entry of a listing: a match is recorded, a folder pushed. */
  method ScanEntry(q: Query, rules: seq<Rule>, d: Pending, i: nat, found: seq<Match>, pushed: seq<Pending>,
                   ghost more: seq<seq<Rule>>, ghost below: Finds, ghost size: nat)
    returns (r: Result<(seq<Match>, seq<Pending>), Error>, ghost more': seq<seq<Rule>>)
    requires i < |d.tree.entries| && ScanOk(q, rules, d, below, size, i, found, pushed, more)
    ensures r.Err? ==> OwnResult(q, rules, d.path, d.tree.entries[i]) == Err(r.error)
    ensures r.Ok? ==> ScanOk(q, rules, d, below, size, i + 1, r.value.0, r.value.1, more')
  {
    hide ScanOk, Skipped, OwnMatch, Join;
    more' := more;
    var entry := d.tree.entries[i];
    var skip := EntryIsSkipped(q, rules, d.path, entry);
    if skip {
      EntryRecorded(q, rules, d, below, size, i, found, pushed, more);
      assert found + [] == found;
      return Ok((found, pushed)), more';
    }
    var path := Join(d.path, entry.name);
    if entry.kind.LockedFolder? {
      return Err(CannotOpen(path)), more';
    }
    if entry.kind.Folder? {
      EntryPushed(q, rules, d, below, size, i, found, pushed, more);
      more' := more + [rules];
      r := Ok((found + OwnMatch(q, d.path, entry), pushed + [Pending(entry.kind.tree, path, |rules|)]));
    } else {
      EntryRecorded(q, rules, d, below, size, i, found, pushed, more);
      r := Ok((found + OwnMatch(q, d.path, entry), pushed));
    }
  }

  method ScanEntries(q: Query, rules: seq<Rule>, d: Pending, stack: seq<Pending>, ghost ancestry: seq<seq<Rule>>)
    returns (r: Result<(seq<Match>, seq<Pending>), Error>, ghost more: seq<seq<Rule>>)
    requires StackOk(stack, ancestry, rules)
    ensures r.Err? ==> OwnMatches(q, rules, d.path, d.tree.entries, |d.tree.entries|) == Err(r.error)
    ensures r.Ok? ==> ScanOk(q, rules, d, FindStack(q, stack, ancestry, |stack|), StackSize(stack, |stack|),
                             |d.tree.entries|, r.value.0, r.value.1, more)
  {
    var found, pushed := [], stack;
    more := ancestry;
    ghost var below, size := FindStack(q, stack, ancestry, |stack|), StackSize(stack, |stack|);
    ScanStarts(q, rules, d, stack, ancestry);
    hide ScanOk, OwnMatches, OwnResult;
    for i := 0 to |d.tree.entries|
      invariant ScanOk(q, rules, d, below, size, i, found, pushed, more)
    {
      ghost var was := more;
      var scanned;
      scanned, more := ScanEntry(q, rules, d, i, found, pushed, was, below, size);
      if scanned.Err? {
        LockedFolderFails(q, rules, d, below, size, i, found, pushed, was);
        return Err(scanned.error), more;
      }
      found, pushed := scanned.value.0, scanned.value.1;
    }
    r := Ok((found, pushed));
  }

  lemma LockedFolderFails(q: Query, rules: seq<Rule>, d: Pending, below: Finds, size: nat,
                          n: nat, found: seq<Match>, pushed: seq<Pending>, more: seq<seq<Rule>>)
    requires n < |d.tree.entries| && ScanOk(q, rules, d, below, size, n, found, pushed, more)
    requires OwnResult(q, rules, d.path, d.tree.entries[n]).Err?
    ensures OwnMatches(q, rules, d.path, d.tree.entries, |d.tree.entries|)
         == OwnResult(q, rules, d.path, d.tree.entries[n])
  {
    hide OwnResult, FindStack, StackSize, FindBelow, StackOk;
    OwnMatchesFail(q, rules, d.path, d.tree.entries, n + 1, |d.tree.entries|);
  }

  /** Taking the top directory off, its part of the result comes first. */
  lemma Popped(q: Query, stack: seq<Pending>, ancestry: seq<seq<Rule>>, rules: seq<Rule>)
    requires stack != [] && StackOk(stack, ancestry, rules)
    ensures
      var n, top, inherited := |stack| - 1, stack[|stack| - 1], ancestry[|stack| - 1];
      var rest, before := stack[..n], ancestry[..n];
      && top.inheritedLen <= |rules| && rules[..top.inheritedLen] == inherited
      && (forall more: seq<Rule> | inherited <= more :: StackOk(rest, before, more))
      && FindStack(q, stack, ancestry, |stack|)
         == Combine(FindIn(q, top.tree, top.path, inherited), FindStack(q, rest, before, n))
      && StackSize(stack, |stack|) == StackSize(rest, n) + TreeSize(top.tree)
  {
    var n := |stack| - 1;
    hide FindStack, StackSize, FindIn, Combine, TreeSize;
    assert stack == stack[..n] + [stack[n]] && ancestry == ancestry[..n] + [ancestry[n]];
    Pushed(q, stack[..n], ancestry[..n], stack[n], ancestry[n]);
    forall more: seq<Rule> | ancestry[n] <= more ensures StackOk(stack[..n], ancestry[..n], more) {
      forall i | 0 <= i < n ensures ancestry[i] <= more {
        assert ancestry[i] == rules[..|ancestry[i]|] && ancestry[n] == rules[..|ancestry[n]|];
      }
    }
  }

  lemma RulesExtend(q: Query, tree: Tree, path: string, inherited: seq<Rule>)
    requires RulesAt(q, tree, path, inherited).Ok?
    ensures inherited <= RulesAt(q, tree, path, inherited).value
  {
  }

  /** The whole result, from what is found and what the pending directories give. */
  ghost predicate Still(q: Query, result: Finds, matches: seq<Match>, stack: seq<Pending>, ancestry: seq<seq<Rule>>)
    requires |stack| == |ancestry|
  {
    Combine(Ok(matches), FindStack(q, stack, ancestry, |stack|)) == result
  }

  /** Going through the top directory fails as the whole does, or leaves the same to find. */
  lemma TopDone(q: Query, result: Finds, matches: seq<Match>, stack: seq<Pending>, ancestry: seq<seq<Rule>>,
                rules: seq<Rule>)
    requires stack != [] && StackOk(stack, ancestry, rules) && Still(q, result, matches, stack, ancestry)
    ensures
      var n, top, inherited := |stack| - 1, stack[|stack| - 1], ancestry[|stack| - 1];
      var loaded := RulesAt(q, top.tree, top.path, inherited);
      && (loaded.Err? ==> result == Err(loaded.error))
      && (loaded.Ok? && !top.tree.readable ==> result == Err(UnreadableDirectory(top.path)))
      && (loaded.Ok? && top.tree.readable ==>
            var own := OwnMatches(q, loaded.value, top.path, top.tree.entries, |top.tree.entries|);
            && (own.Err? ==> result == own)
            && (own.Ok? ==>
                  result == Combine(Ok(matches + own.value),
                                    Combine(FindBelow(q, top.tree, top.path, loaded.value, |top.tree.entries|),
                                            FindStack(q, stack[..n], ancestry[..n], n)))))
  {
    Popped(q, stack, ancestry, rules);
    var n, top, inherited := |stack| - 1, stack[|stack| - 1], ancestry[|stack| - 1];
    var loaded := RulesAt(q, top.tree, top.path, inherited);
    if loaded.Ok? && top.tree.readable {
      var own := OwnMatches(q, loaded.value, top.path, top.tree.entries, |top.tree.entries|);
      var below := FindBelow(q, top.tree, top.path, loaded.value, |top.tree.entries|);
      var rest := FindStack(q, stack[..n], ancestry[..n], n);
      assert FindIn(q, top.tree, top.path, inherited) == Combine(own, below);
      hide FindIn, FindStack, OwnMatches, FindBelow, RulesAt, StackOk;
      CombineAssociates(own, below, rest);
      CombineAssociates(Ok(matches), own, Combine(below, rest));
    } else {
      hide FindStack, OwnMatches, FindBelow, RulesAt, StackOk;
    }
  }

  /** The search with its one rule list, cut back to the length each directory
      inherits, gives exactly what the recursive definition gives. */
  method Find(q: Query, root: Tree) returns (r: Finds)
    ensures r == FindIn(q, root, "", [])
  {
    var rules: seq<Rule> := [];
    var stack := [Pending(root, "", 0)];
    ghost var ancestry: seq<seq<Rule>> := [[]];
    var matches: seq<Match> := [];
    ghost var result := FindIn(q, root, "", []);
    FindStarts(q, root);
    while stack != []
      invariant StackOk(stack, ancestry, rules)
      invariant Still(q, result, matches, stack, ancestry)
      decreases StackSize(stack, |stack|)
    {
      hide FindStack, FindIn, StackSize, OwnMatches, FindBelow, RulesAt;
      var directory, rest := stack[|stack| - 1], stack[..|stack| - 1];
      ghost var inherited, before := ancestry[|stack| - 1], ancestry[..|stack| - 1];
      Popped(q, stack, ancestry, rules);
      TopDone(q, result, matches, stack, ancestry, rules);
      rules := rules[..directory.inheritedLen];
      var loaded := LoadRules(q, directory.tree, directory.path, rules);
      if loaded.Err? {
        return Err(loaded.error);
      }
      if !directory.tree.readable {
        return Err(UnreadableDirectory(directory.path));
      }
      RulesExtend(q, directory.tree, directory.path, rules);
      rules := loaded.value;
      hide StackOk;
      var scanned;
      scanned, ancestry := ScanEntries(q, rules, directory, rest, before);
      if scanned.Err? {
        return Err(scanned.error);
      }
      EntriesFit(q, rules, directory.path, directory.tree, |directory.tree.entries|);
      matches := matches + scanned.value.0;
      stack := scanned.value.1;
    }
    CombineUnit(Ok(matches));
    r := Ok(matches);
  }

  lemma FindStarts(q: Query, root: Tree)
    ensures Still(q, FindIn(q, root, "", []), [], [Pending(root, "", 0)], [[]])
  {
    var stack, ancestry: seq<seq<Rule>> := [Pending(root, "", 0)], [[]];
    assert FindStack(q, stack, ancestry, 0) == Ok([]);
    hide FindIn;
    CombineUnit(FindIn(q, root, "", []));
  }
}
