/** Relative paths and ignore rules: which rule applies to which path. */
module Gitignore {
  import opened Wrappers

  /** A compiled glob. What it matches is left open. */
  datatype Pattern = Pattern(text: string, matches: string -> bool)

  datatype Rule = Rule(baseDir: string, pattern: Pattern, negated: bool, directoryOnly: bool,
                       anchored: bool, hasSlash: bool)

  /* ---------- paths ---------- */

  function Join(base: string, child: string): string {
    if base == "" then child else base + "/" + child
  }

  /** Just after the last slash before `end`, or 0. */
  function AfterSlash(path: string, end: nat): (k: nat)
    requires end <= |path|
    ensures k <= end
    ensures k > 0 ==> path[k - 1] == '/'
    ensures forall j | k <= j < end :: path[j] != '/'
  {
    if end == 0 then 0 else if path[end - 1] == '/' then end else AfterSlash(path, end - 1)
  }

  function Basename(path: string): (name: string)
    ensures '/' !in name && |name| <= |path| && name == path[|path| - |name|..]
  {
    path[AfterSlash(path, |path|)..]
  }

  /** Joining keeps the name of an entry, and stripping the base gives it back. */
  lemma JoinedPath(base: string, child: string)
    requires '/' !in child
    ensures Basename(Join(base, child)) == child
    ensures base != "" ==> base + "/" <= Join(base, child) && Join(base, child)[|base| + 1..] == child
  {
    var path := Join(base, child);
    var k := AfterSlash(path, |path|);
    if base == "" {
      assert path == child;
    } else {
      assert path[|base|] == '/';
      assert k >= |base| + 1;
      forall j | |base| < j < |path| ensures path[j] != '/' { assert path[j] == child[j - |base| - 1]; }
      assert path[|base| + 1..] == child;
    }
  }

  /** The path as seen from the rule's directory, if it lies in it. */
  function FromBase(baseDir: string, path: string): Option<string> {
    if baseDir == "" then Some(path)
    else if baseDir + "/" <= path then Some(path[|baseDir| + 1..]) else None
  }

  /* ---------- directory prefixes ---------- */

  /** Where the directory part of a path ends: all of it for a directory, up to the
      last slash for a file (0 if that is no directory at all). */
  function DirectoryEnd(path: string, isDir: bool): (end: nat)
    ensures end <= |path|
  {
    if isDir then |path| else SatSub(AfterSlash(path, |path|), 1)
  }

  /** The prefixes ending at a slash from `i` on, and the one that ends at `end`. */
  function PrefixesFrom(path: string, end: nat, i: nat): seq<string>
    requires i <= end <= |path|
    decreases end - i
  {
    if i == end then [path[..end]]
    else if path[i] == '/' then [path[..i]] + PrefixesFrom(path, end, i + 1)
    else PrefixesFrom(path, end, i + 1)
  }

  function DirectoryPrefixes(path: string, isDir: bool): seq<string> {
    var end := DirectoryEnd(path, isDir);
    if end == 0 then [] else PrefixesFrom(path, end, 0)
  }

  /** They are the directories on the way to the path, itself included if it is one. */
  lemma {:induction false} PrefixesAreDirectories(path: string, end: nat, i: nat, p: string)
    requires i <= end <= |path|
    ensures p in PrefixesFrom(path, end, i) <==>
              exists k: nat :: i <= k <= end && (k == end || path[k] == '/') && p == path[..k]
    decreases end - i
  {
    if i < end { PrefixesAreDirectories(path, end, i + 1, p); }
  }

  method ListDirectoryPrefixes(path: string, isDir: bool) returns (prefixes: seq<string>)
    ensures prefixes == DirectoryPrefixes(path, isDir)
  {
    var end := DirectoryEnd(path, isDir);
    if end == 0 {
      return [];
    }
    prefixes := [];
    var searchFrom := 0;
    while true
      invariant searchFrom <= end
      invariant prefixes + PrefixesFrom(path, end, searchFrom) == PrefixesFrom(path, end, 0)
      decreases end - searchFrom
    {
      var slash := FindSlash(path, end, searchFrom);
      if slash == end {
        break;
      }
      prefixes := prefixes + [path[..slash]];
      searchFrom := slash + 1;
    }
    prefixes := prefixes + [path[..end]];
  }

  method FindSlash(path: string, end: nat, start: nat) returns (slash: nat)
    requires start <= end <= |path|
    ensures start <= slash <= end && (slash < end ==> path[slash] == '/')
    ensures PrefixesFrom(path, end, start) == PrefixesFrom(path, end, slash)
  {
    slash := start;
    while slash < end && path[slash] != '/'
      invariant start <= slash <= end
      invariant PrefixesFrom(path, end, start) == PrefixesFrom(path, end, slash)
    {
      slash := slash + 1;
    }
  }

  /* ---------- rules ---------- */

  predicate DirectoryMatches(rule: Rule, directory: string) {
    rule.pattern.matches(if rule.anchored || rule.hasSlash then directory else Basename(directory))
  }

  /** Does the rule speak about this path? A rule for directories speaks about all
      that lies in them; one with a slash is matched against the path from its own
      directory, any other against the name alone. */
  predicate Applies(rule: Rule, path: string, isDir: bool) {
    var inside := FromBase(rule.baseDir, path);
    && inside.Some? && inside.value != ""
    && (if rule.directoryOnly
        then exists d | d in DirectoryPrefixes(inside.value, isDir) :: DirectoryMatches(rule, d)
        else rule.pattern.matches(if rule.anchored || rule.hasSlash then inside.value else Basename(path)))
  }

  /** The last of the first `n` rules that applies decides; with none, nothing is ignored. */
  predicate IgnoredBy(rules: seq<Rule>, n: nat, path: string, isDir: bool)
    requires n <= |rules|
  {
    n > 0 && if Applies(rules[n - 1], path, isDir) then !rules[n - 1].negated
             else IgnoredBy(rules, n - 1, path, isDir)
  }

  predicate Ignored(rules: seq<Rule>, path: string, isDir: bool) {
    IgnoredBy(rules, |rules|, path, isDir)
  }

  /** The rule at `i` has the last word on the path. */
  ghost predicate LastWord(rules: seq<Rule>, n: nat, i: nat, path: string, isDir: bool)
    requires n <= |rules|
  {
    i < n && Applies(rules[i], path, isDir) && forall j | i < j < n :: !Applies(rules[j], path, isDir)
  }

  lemma {:induction false} LastMatchWins(rules: seq<Rule>, n: nat, path: string, isDir: bool)
    requires n <= |rules|
    ensures IgnoredBy(rules, n, path, isDir) <==>
              exists i: nat :: LastWord(rules, n, i, path, isDir) && !rules[i].negated
  {
    hide Applies;
    if n > 0 {
      LastMatchWins(rules, n - 1, path, isDir);
      if Applies(rules[n - 1], path, isDir) {
        assert LastWord(rules, n, n - 1, path, isDir);
        forall i: nat | LastWord(rules, n, i, path, isDir) ensures i == n - 1 {
        }
      } else {
        forall i: nat ensures LastWord(rules, n, i, path, isDir) <==> LastWord(rules, n - 1, i, path, isDir) {
        }
      }
    }
  }

  /** Rules of a directory say nothing about paths outside it. */
  lemma RulesAreScoped(rule: Rule, path: string, isDir: bool)
    requires rule.baseDir != "" && !(rule.baseDir + "/" <= path)
    ensures !Applies(rule, path, isDir)
  {
  }

  method AnyDirectoryMatches(rule: Rule, directories: seq<string>) returns (found: bool)
    ensures found <==> exists d | d in directories :: DirectoryMatches(rule, d)
  {
    for i := 0 to |directories|
      invariant forall j | 0 <= j < i :: !DirectoryMatches(rule, directories[j])
    {
      if DirectoryMatches(rule, directories[i]) {
        return true;
      }
    }
    found := false;
  }

  method PathIsIgnored(rules: seq<Rule>, path: string, isDir: bool) returns (ignored: bool)
    ensures ignored == Ignored(rules, path, isDir)
  {
    var basename := Basename(path);
    ignored := false;
    for i := 0 to |rules|
      invariant ignored == IgnoredBy(rules, i, path, isDir)
    {
      var rule := rules[i];
      var pathFromBase := FromBase(rule.baseDir, path);
      if pathFromBase.None? || pathFromBase.value == "" {
        continue;
      }
      var matches;
      if rule.directoryOnly {
        var directories := ListDirectoryPrefixes(pathFromBase.value, isDir);
        matches := AnyDirectoryMatches(rule, directories);
      } else if rule.anchored || rule.hasSlash {
        matches := rule.pattern.matches(pathFromBase.value);
      } else {
        matches := rule.pattern.matches(basename);
      }
      if matches {
        ignored := !rule.negated;
      }
    }
  }

  /* ---------- reading rules ---------- */

  function TrimCr(line: string): string
    decreases |line|
  {
    if line != "" && line[|line| - 1] == '\r' then TrimCr(line[..|line| - 1]) else line
  }

  /** A line that holds a rule: its three marks and what is left of it. */
  datatype RuleLine = RuleLine(negated: bool, anchored: bool, directoryOnly: bool, body: string)

  function ReadLine(original: string): Option<RuleLine> {
    var line := TrimCr(original);
    if line == "" || line[0] == '#' then None
    else
      var negated := line[0] == '!';
      var unmarked := if negated then line[1..] else line;
      var anchored := unmarked != "" && unmarked[0] == '/';
      var unanchored := if anchored then unmarked[1..] else unmarked;
      var directoryOnly := unanchored != "" && unanchored[|unanchored| - 1] == '/';
      var body := if directoryOnly then unanchored[..|unanchored| - 1] else unanchored;
      if body == "" then None else Some(RuleLine(negated, anchored, directoryOnly, body))
  }

  function Slashes(text: string): (r: string)
    ensures |r| == |text|
  {
    seq(|text|, i requires 0 <= i < |text| => if text[i] == '\\' then '/' else text[i])
  }

  /** The rules of the first `n` lines; a pattern that does not compile is an error. */
  function RulesOf(lines: seq<string>, n: nat, baseDir: string, compile: string -> Option<Pattern>): Option<seq<Rule>>
    requires n <= |lines|
  {
    if n == 0 then Some([])
    else
      var before := RulesOf(lines, n - 1, baseDir, compile);
      if before.None? then None
      else
        match ReadLine(lines[n - 1])
        case None => before
        case Some(l) =>
          match compile(Slashes(l.body))
          case None => None
          case Some(pattern) =>
            Some(before.value + [Rule(baseDir, pattern, l.negated, l.directoryOnly, l.anchored, '/' in l.body)])
  }

  lemma {:induction false} RulesOfFails(lines: seq<string>, n: nat, m: nat, baseDir: string,
                                        compile: string -> Option<Pattern>)
    requires n <= m <= |lines| && RulesOf(lines, n, baseDir, compile).None?
    ensures RulesOf(lines, m, baseDir, compile).None?
    decreases m - n
  {
    if n < m { RulesOfFails(lines, n + 1, m, baseDir, compile); }
  }

  /** New rules go behind those already there. */
  method ParseGitignoreRules(lines: seq<string>, baseDir: string, compile: string -> Option<Pattern>, rules: seq<Rule>)
    returns (r: Option<seq<Rule>>)
    ensures match RulesOf(lines, |lines|, baseDir, compile)
            case None => r == None
            case Some(added) => r == Some(rules + added)
  {
    var all := rules;
    for i := 0 to |lines|
      invariant RulesOf(lines, i, baseDir, compile).Some?
      invariant all == rules + RulesOf(lines, i, baseDir, compile).value
    {
      var read := ReadLine(lines[i]);
      if read.None? {
        continue;
      }
      var pattern := compile(Slashes(read.value.body));
      if pattern.None? {
        RulesOfFails(lines, i + 1, |lines|, baseDir, compile);
        return None;
      }
      var l := read.value;
      all := all + [Rule(baseDir, pattern.value, l.negated, l.directoryOnly, l.anchored, '/' in l.body)];
    }
    r := Some(all);
  }
}
