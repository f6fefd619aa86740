/** What ignore files and searches mean, in terms of lines, names and slashes. */
module FindLaws {
  import opened Wrappers
  import opened Gitignore
  import opened FindFiles

  /* ---------- names ---------- */

  /** The name is what follows the last slash. */
  predicate IsLastPart(path: string, name: string) {
    && '/' !in name && |name| <= |path| && path[|path| - |name|..] == name
    && (|name| < |path| ==> path[|path| - |name| - 1] == '/')
  }

  lemma BasenameIff(path: string, name: string)
    ensures Basename(path) == name <==> IsLastPart(path, name)
  {
    var k := AfterSlash(path, |path|);
    if IsLastPart(path, name) {
      var i := |path| - |name|;
      assert forall j | 0 <= j < |name| :: path[i + j] == name[j];
    }
  }

  /* ---------- lines of an ignore file ---------- */

  function Returns(k: nat): string {
    seq(k, i => '\r')
  }

  function Front(mark: char, has: bool, rest: string): string {
    if has then [mark] + rest else rest
  }

  function Back(mark: char, has: bool, rest: string): string {
    if has then rest + [mark] else rest
  }

  /** The line of a rule, its marks where they belong. */
  function Marked(l: RuleLine): string {
    Front('!', l.negated, Front('/', l.anchored, Back('/', l.directoryOnly, l.body)))
  }

  /** No other reading of the text: it is no comment, and what carries no mark does not
      look as if it did. */
  predicate Readable(l: RuleLine) {
    && l.body != "" && Marked(l)[0] != '#' && Marked(l)[|Marked(l)| - 1] != '\r'
    && (!l.negated ==> Marked(l)[0] != '!')
    && (!l.anchored ==> l.body[0] != '/')
    && (!l.directoryOnly ==> l.body[|l.body| - 1] != '/')
  }

  lemma FrontIff(text: string, mark: char, has: bool, rest: string)
    requires text != "" && (!has ==> rest != "" ==> rest[0] != mark)
    ensures text == Front(mark, has, rest) <==>
              has == (text[0] == mark) && rest == (if text[0] == mark then text[1..] else text)
  {
    if has && text[0] == mark { assert text == [mark] + text[1..]; }
    if text == Front(mark, has, rest) && has { assert ([mark] + rest)[1..] == rest; }
  }

  lemma BackIff(text: string, mark: char, has: bool, rest: string)
    requires text != "" && (!has ==> rest != "" ==> rest[|rest| - 1] != mark)
    ensures text == Back(mark, has, rest) <==>
              has == (text[|text| - 1] == mark)
              && rest == (if text[|text| - 1] == mark then text[..|text| - 1] else text)
  {
    if has && text[|text| - 1] == mark { assert text == text[..|text| - 1] + [mark]; }
    if text == Back(mark, has, rest) && has { assert (rest + [mark])[..|rest|] == rest; }
  }

  lemma {:induction false} TrimmedIff(line: string, text: string)
    ensures TrimCr(line) == text <==>
              (text == "" || text[|text| - 1] != '\r') && |text| <= |line| && line == text + Returns(|line| - |text|)
    decreases |line|
  {
    if line != "" && line[|line| - 1] == '\r' {
      var front := line[..|line| - 1];
      TrimmedIff(front, text);
      if |text| <= |front| {
        assert Returns(|line| - |text|) == Returns(|front| - |text|) + ['\r'];
        assert line == front + ['\r'];
        if front == text + Returns(|front| - |text|) {
          assert line == text + Returns(|line| - |text|);
        }
        if line == text + Returns(|line| - |text|) {
          assert front == (text + Returns(|line| - |text|))[..|line| - 1] == text + Returns(|front| - |text|);
        }
      } else if |text| == |line| {
        assert Returns(0) == "" && text + "" == text;
        if line == text + Returns(0) { assert text[|text| - 1] == '\r'; }
      }
    } else {
      if |text| < |line| {
        var r := Returns(|line| - |text|);
        assert r[|r| - 1] == '\r';
        assert (text + r)[|text + r| - 1] == '\r';
      } else if |text| == |line| {
        assert Returns(0) == "" && text + "" == text;
      }
    }
  }

  /** The reading of a text that is no comment. */
  function Unmarked(text: string): RuleLine
    requires text != ""
  {
    var negated := text[0] == '!';
    var unmarked := if negated then text[1..] else text;
    var anchored := unmarked != "" && unmarked[0] == '/';
    var unanchored := if anchored then unmarked[1..] else unmarked;
    var directoryOnly := unanchored != "" && unanchored[|unanchored| - 1] == '/';
    RuleLine(negated, anchored, directoryOnly,
             if directoryOnly then unanchored[..|unanchored| - 1] else unanchored)
  }

  lemma ReadLineIsUnmarked(line: string)
    ensures ReadLine(line) ==
            var text := TrimCr(line);
            if text == "" || text[0] == '#' || Unmarked(text).body == "" then None else Some(Unmarked(text))
  {
    hide TrimCr;
  }

  lemma UnmarkedIff(text: string, l: RuleLine)
    requires text != "" && text[0] != '#' && text[|text| - 1] != '\r'
    ensures text == Marked(l) && Readable(l) <==> l == Unmarked(text) && l.body != ""
  {
    var back := Back('/', l.directoryOnly, l.body);
    var front := Front('/', l.anchored, back);
    if text == Marked(l) && Readable(l) {
      Peeled(text, l);
    }
    if l == Unmarked(text) && l.body != "" {
      var unmarked := if l.negated then text[1..] else text;
      var unanchored := if l.anchored then unmarked[1..] else unmarked;
      BackIff(unanchored, '/', l.directoryOnly, l.body);
      FrontIff(unmarked, '/', l.anchored, unanchored);
      FrontIff(text, '!', l.negated, unmarked);
      assert back[0] == l.body[0];
    }
  }

  lemma Peeled(text: string, l: RuleLine)
    requires text != "" && text == Marked(l) && Readable(l)
    ensures l == Unmarked(text)
  {
    var back := Back('/', l.directoryOnly, l.body);
    var front := Front('/', l.anchored, back);
    assert back != "" && back[0] == l.body[0] && front != "" && text == Front('!', l.negated, front);
    assert !l.negated ==> front[0] != '!';
    FrontIff(text, '!', l.negated, front);
    FrontIff(front, '/', l.anchored, back);
    BackIff(back, '/', l.directoryOnly, l.body);
    hide Front, Back, Marked, Readable;
  }

  /** A line holds a rule exactly if it is that rule's text, carriage returns aside. */
  lemma ReadLineIff(line: string, l: RuleLine)
    ensures ReadLine(line) == Some(l) <==>
              Readable(l) && |Marked(l)| <= |line| && line == Marked(l) + Returns(|line| - |Marked(l)|)
  {
    var text := TrimCr(line);
    ReadLineIsUnmarked(line);
    TrimmedIff(line, text);
    if Readable(l) { TrimmedIff(line, Marked(l)); }
    hide ReadLine, TrimCr, Returns;
    if text != "" && text[0] != '#' { UnmarkedIff(text, l); }
    hide Marked, Unmarked;
  }

  /* ---------- the rules of a file ---------- */

  /** The rule a line makes: its pattern with slashes for backslashes. */
  ghost predicate IsRuleOf(line: string, baseDir: string, compile: string -> Option<Pattern>, rule: Rule) {
    && ReadLine(line) == Some(RuleLine(rule.negated, rule.anchored, rule.directoryOnly, BodyOf(line)))
    && rule.baseDir == baseDir && (rule.hasSlash <==> '/' in BodyOf(line))
    && compile(WithSlashes(BodyOf(line))) == Some(rule.pattern)
  }

  function BodyOf(line: string): string {
    match ReadLine(line) case None => "" case Some(l) => l.body
  }

  function WithSlashes(text: string): string {
    if text == "" then "" else [if text[0] == '\\' then '/' else text[0]] + WithSlashes(text[1..])
  }

  lemma {:induction false} SlashesAre(text: string)
    ensures Slashes(text) == WithSlashes(text)
    decreases |text|
  {
    if text != "" {
      SlashesAre(text[1..]);
      assert Slashes(text) == [if text[0] == '\\' then '/' else text[0]] + Slashes(text[1..]);
    }
  }

  /** How many of the first `k` lines hold a rule. */
  function RuleLines(lines: seq<string>, k: nat): nat
    requires k <= |lines|
  {
    if k == 0 then 0 else RuleLines(lines, k - 1) + (if ReadLine(lines[k - 1]).Some? then 1 else 0)
  }

  /** Each line that holds a rule has its own, after those of the lines before it. */
  ghost predicate RulesInOrder(lines: seq<string>, n: nat, baseDir: string, compile: string -> Option<Pattern>,
                               rules: seq<Rule>)
    requires n <= |lines|
  {
    && |rules| == RuleLines(lines, n)
    && forall k | 0 <= k < n && ReadLine(lines[k]).Some? ::
         && RuleLines(lines, k) < |rules|
         && IsRuleOf(lines[k], baseDir, compile, rules[RuleLines(lines, k)])
  }

  lemma InOrderExtends(lines: seq<string>, n: nat, baseDir: string, compile: string -> Option<Pattern>,
                       before: seq<Rule>, rules: seq<Rule>)
    requires 0 < n <= |lines| && RulesInOrder(lines, n - 1, baseDir, compile, before)
    requires |rules| == |before| + (if ReadLine(lines[n - 1]).Some? then 1 else 0)
    requires forall i | 0 <= i < |before| :: rules[i] == before[i]
    requires ReadLine(lines[n - 1]).Some? ==> IsRuleOf(lines[n - 1], baseDir, compile, rules[|before|])
    ensures RulesInOrder(lines, n, baseDir, compile, rules)
  {
    hide IsRuleOf, ReadLine;
  }

  /** A file's rules are those of its lines, one each, in order. */
  lemma {:induction false} RulesComeFromLines(lines: seq<string>, n: nat, baseDir: string,
                                              compile: string -> Option<Pattern>)
    requires n <= |lines| && RulesOf(lines, n, baseDir, compile).Some?
    ensures RulesInOrder(lines, n, baseDir, compile, RulesOf(lines, n, baseDir, compile).value)
  {
    if n > 0 {
      OneLineMore(lines, n, baseDir, compile);
      RulesComeFromLines(lines, n - 1, baseDir, compile);
      var before, rules := RulesOf(lines, n - 1, baseDir, compile).value, RulesOf(lines, n, baseDir, compile).value;
      hide RulesOf, IsRuleOf, ReadLine, RulesInOrder;
      InOrderExtends(lines, n, baseDir, compile, before, rules);
    }
  }

  lemma OneLineMore(lines: seq<string>, n: nat, baseDir: string, compile: string -> Option<Pattern>)
    requires 0 < n <= |lines| && RulesOf(lines, n, baseDir, compile).Some?
    ensures RulesOf(lines, n - 1, baseDir, compile).Some?
    ensures
      var before, rules := RulesOf(lines, n - 1, baseDir, compile).value, RulesOf(lines, n, baseDir, compile).value;
      && |rules| == |before| + (if ReadLine(lines[n - 1]).Some? then 1 else 0)
      && (forall i | 0 <= i < |before| :: rules[i] == before[i])
      && (ReadLine(lines[n - 1]).Some? ==> IsRuleOf(lines[n - 1], baseDir, compile, rules[|before|]))
  {
    if ReadLine(lines[n - 1]).Some? { SlashesAre(ReadLine(lines[n - 1]).value.body); }
    hide ReadLine, Slashes, WithSlashes;
  }

  ghost predicate BadLine(line: string, compile: string -> Option<Pattern>) {
    ReadLine(line).Some? && compile(WithSlashes(BodyOf(line))).None?
  }

  lemma OneLineFails(lines: seq<string>, n: nat, baseDir: string, compile: string -> Option<Pattern>)
    requires 0 < n <= |lines|
    ensures RulesOf(lines, n, baseDir, compile).None?
       <==> RulesOf(lines, n - 1, baseDir, compile).None? || BadLine(lines[n - 1], compile)
  {
    if ReadLine(lines[n - 1]).Some? { SlashesAre(ReadLine(lines[n - 1]).value.body); }
    hide ReadLine, Slashes, WithSlashes;
  }

  /** And there are none exactly if the pattern of some line does not compile. */
  lemma {:induction false} RulesFailIff(lines: seq<string>, n: nat, baseDir: string,
                                        compile: string -> Option<Pattern>)
    requires n <= |lines|
    ensures RulesOf(lines, n, baseDir, compile).None? <==> exists k | 0 <= k < n :: BadLine(lines[k], compile)
  {
    hide BadLine, ReadLine, Slashes;
    if n > 0 {
      hide RulesOf;
      RulesFailIff(lines, n - 1, baseDir, compile);
      OneLineFails(lines, n, baseDir, compile);
    }
  }

  /* ---------- when a rule applies ---------- */

  /** `rel` is the path as seen from the directory of the rule. */
  predicate IsSeenFrom(baseDir: string, path: string, rel: string) {
    if baseDir == "" then path == rel else path == baseDir + "/" + rel
  }

  /** The first `k` characters are a directory on the way, or the path if it is one. */
  predicate IsDirectoryPart(rel: string, isDir: bool, k: nat) {
    && k <= |rel| && (if k == |rel| then isDir else rel[k] == '/')
    && (k > 0 || isDir || exists j :: 0 < j < |rel| && rel[j] == '/')
  }

  /** What a rule's pattern is held against: all of it if the rule has a slash or begins
      with one, and the last part otherwise. */
  predicate Fits(rule: Rule, part: string, last: string) {
    rule.pattern.matches(if rule.anchored || rule.hasSlash then part else last)
  }

  lemma DirectoryPartsListed(rel: string, isDir: bool, p: string)
    requires rel != ""
    ensures p in DirectoryPrefixes(rel, isDir) <==> exists k: nat :: IsDirectoryPart(rel, isDir, k) && p == rel[..k]
  {
    var end := DirectoryEnd(rel, isDir);
    var last := AfterSlash(rel, |rel|);
    PrefixesAreDirectories(rel, end, 0, p);
    if end > 0 {
      forall k: nat | k <= |rel|
        ensures k <= end && (k == end || rel[k] == '/') <==> IsDirectoryPart(rel, isDir, k)
      {
        if !isDir { assert last == end + 1 && rel[end] == '/'; }
      }
    } else {
      forall k: nat ensures !IsDirectoryPart(rel, isDir, k) {
      }
    }
  }

  /** A rule applies to a path in its directory: if it is one for directories, to all that
      is in a directory it fits and to that itself, and else to what it fits. */
  lemma AppliesIff(rule: Rule, path: string, isDir: bool, rel: string)
    requires IsSeenFrom(rule.baseDir, path, rel) && rel != ""
    ensures Applies(rule, path, isDir) <==>
              if rule.directoryOnly
              then exists k: nat :: IsDirectoryPart(rel, isDir, k) && Fits(rule, rel[..k], Basename(rel[..k]))
              else Fits(rule, rel, Basename(path))
  {
    if rule.baseDir != "" {
      assert path[|rule.baseDir| + 1..] == rel && rule.baseDir + "/" <= path;
    }
    assert FromBase(rule.baseDir, path) == Some(rel);
    if rule.directoryOnly {
      forall p
        ensures p in DirectoryPrefixes(rel, isDir)
           <==> exists k: nat :: IsDirectoryPart(rel, isDir, k) && p == rel[..k]
      {
        DirectoryPartsListed(rel, isDir, p);
      }
      hide DirectoryPrefixes, IsDirectoryPart, Basename, FromBase;
      if k: nat :| IsDirectoryPart(rel, isDir, k) && Fits(rule, rel[..k], Basename(rel[..k])) {
        assert DirectoryMatches(rule, rel[..k]);
      }
    }
  }

  /** And to no path outside, nor to the directory itself. */
  lemma AppliesInsideOnly(rule: Rule, path: string, isDir: bool)
    requires Applies(rule, path, isDir)
    ensures exists rel :: IsSeenFrom(rule.baseDir, path, rel) && rel != ""
  {
    var rel := FromBase(rule.baseDir, path).value;
    if rule.baseDir != "" { assert path == rule.baseDir + "/" + rel; }
    assert IsSeenFrom(rule.baseDir, path, rel);
  }

  /* ---------- the search ---------- */

  /** A directory's rules are those it inherits and behind them its own file's; there are
      none if that cannot be read or has a pattern that does not compile. */
  lemma RulesAtLaw(q: Query, tree: Tree, path: string, inherited: seq<Rule>)
    ensures
      var at := RulesAt(q, tree, path, inherited);
      if !q.options.respectGitignore || tree.ignore.NoIgnoreFile? then at == Ok(inherited)
      else if tree.ignore.UnreadableIgnore? then at == Err(BadIgnoreFile(path))
      else
        var lines := tree.ignore.lines;
        && (at.Ok? ==>
              && |inherited| <= |at.value| && at.value[..|inherited|] == inherited
              && RulesInOrder(lines, |lines|, path, q.compile, at.value[|inherited|..]))
        && (at.Err? ==> at == Err(BadIgnoreFile(path)))
        && (at.Err? <==> exists k | 0 <= k < |lines| :: BadLine(lines[k], q.compile))
  {
    if tree.ignore.IgnoreLines? {
      var lines := tree.ignore.lines;
      RulesFailIff(lines, |lines|, path, q.compile);
      hide BadLine;
      if RulesOf(lines, |lines|, path, q.compile).Some? {
        var own := RulesOf(lines, |lines|, path, q.compile).value;
        RulesComeFromLines(lines, |lines|, path, q.compile);
        hide RulesOf, RulesInOrder;
        assert (inherited + own)[|inherited|..] == own;
      }
    }
  }

  function Under(base: string, name: string): string {
    if base == "" then name else base + "/" + name
  }

  predicate IsFolder(entry: FindFiles.Entry) {
    entry.kind.Folder? || entry.kind.LockedFolder?
  }

  /** Git's own directory, and what the rules ignore. */
  predicate PassedOver(q: Query, rules: seq<Rule>, base: string, entry: FindFiles.Entry) {
    q.options.respectGitignore
    && ((entry.name == ".git" && IsFolder(entry)) || Ignored(rules, Under(base, entry.name), IsFolder(entry)))
  }

  /** What is reported of an entry: its path, and whether it is a folder; folders and files
      if they are asked for, and only what the pattern matches, by the whole path if the
      pattern has a slash and by the name if it has none. */
  predicate Reports(q: Query, base: string, entry: FindFiles.Entry, m: Match) {
    && m.path == Under(base, entry.name) && m.isDir == IsFolder(entry)
    && (if IsFolder(entry) then q.options.includeDirectories else entry.kind.RegularFile? && q.options.includeFiles)
    && q.pattern.matches(if '/' in q.pattern.text then m.path else entry.name)
  }

  /** Names do not hold slashes. */
  ghost predicate PlainNames(tree: Tree)
    decreases tree
  {
    forall i | 0 <= i < |tree.entries| ::
      && '/' !in tree.entries[i].name
      && (tree.entries[i].kind.Folder? ==> PlainNames(tree.entries[i].kind.tree))
  }

  /** A way down by entry numbers to what is reported, with nothing on it passed over. */
  ghost predicate Way(q: Query, tree: Tree, path: string, inherited: seq<Rule>, trail: seq<nat>, m: Match)
    decreases tree
  {
    var rules := RulesAt(q, tree, path, inherited);
    && rules.Ok? && trail != [] && trail[0] < |tree.entries|
    && var entry := tree.entries[trail[0]];
    && !PassedOver(q, rules.value, path, entry)
    && if |trail| == 1 then Reports(q, path, entry, m)
       else entry.kind.Folder? && Way(q, entry.kind.tree, Under(path, entry.name), rules.value, trail[1..], m)
  }

  lemma SkippedIsPassedOver(q: Query, rules: seq<Rule>, base: string, entry: FindFiles.Entry)
    ensures Skipped(q, rules, base, entry) <==> PassedOver(q, rules, base, entry)
    ensures Join(base, entry.name) == Under(base, entry.name)
  {
    hide Ignored;
  }

  lemma HeldAgainst(pattern: Pattern, path: string, name: string)
    requires Basename(path) == name
    ensures MatchesPathPattern(pattern, path) <==> pattern.matches(if '/' in pattern.text then path else name)
  {
    hide Basename;
  }

  lemma OwnMatchIff(q: Query, path: string, entry: FindFiles.Entry, base: string, m: Match)
    requires Join(base, entry.name) == path
    ensures m in OwnMatch(q, base, entry) <==>
              && m == Match(path, IsFolder(entry)) && MatchesPathPattern(q.pattern, path)
              && (if IsFolder(entry) then q.options.includeDirectories
                  else entry.kind.RegularFile? && q.options.includeFiles)
  {
    hide Join, MatchesPathPattern;
  }

  lemma ReportsIs(q: Query, base: string, entry: FindFiles.Entry, m: Match)
    ensures
      var path := Under(base, entry.name);
      Reports(q, base, entry, m) <==>
        && m == Match(path, IsFolder(entry))
        && q.pattern.matches(if '/' in q.pattern.text then path else entry.name)
        && (if IsFolder(entry) then q.options.includeDirectories
            else entry.kind.RegularFile? && q.options.includeFiles)
  {
    hide Under, IsFolder;
  }

  lemma MatchIffReports(q: Query, base: string, entry: FindFiles.Entry, m: Match)
    requires '/' !in entry.name
    ensures m in OwnMatch(q, base, entry) <==> Reports(q, base, entry, m)
  {
    hide *;
    var path := Under(base, entry.name);
    JoinedPath(base, entry.name);
    SkippedIsPassedOver(q, [], base, entry);
    HeldAgainst(q.pattern, path, entry.name);
    OwnMatchIff(q, path, entry, base, m);
    ReportsIs(q, base, entry, m);
  }

  lemma GivesIffReports(q: Query, rules: seq<Rule>, base: string, entry: FindFiles.Entry, m: Match)
    requires '/' !in entry.name
    ensures Gives(q, rules, base, entry, m) <==> !PassedOver(q, rules, base, entry) && Reports(q, base, entry, m)
    ensures Entered(q, rules, base, entry) <==> entry.kind.Folder? && !PassedOver(q, rules, base, entry)
    ensures Join(base, entry.name) == Under(base, entry.name)
  {
    SkippedIsPassedOver(q, rules, base, entry);
    MatchIffReports(q, base, entry, m);
    hide Skipped, PassedOver, OwnMatch, Reports, Join, Under;
  }

  lemma {:induction false} LeadsIffWay(q: Query, tree: Tree, path: string, inherited: seq<Rule>, trail: seq<nat>,
                                       m: Match)
    requires PlainNames(tree)
    ensures Leads(q, tree, path, inherited, trail, m) <==> Way(q, tree, path, inherited, trail, m)
    decreases tree
  {
    if trail != [] && trail[0] < |tree.entries| && RulesAt(q, tree, path, inherited).Ok? {
      var rules, entry := RulesAt(q, tree, path, inherited).value, tree.entries[trail[0]];
      GivesIffReports(q, rules, path, entry, m);
      hide RulesAt, Gives, PassedOver, Reports, Skipped, Join, Under;
      if |trail| > 1 && entry.kind.Folder? {
        LeadsIffWay(q, entry.kind.tree, Under(path, entry.name), rules, trail[1..], m);
      }
    }
  }

  /** A search that succeeds reports exactly what there is a way to. */
  lemma FoundIffWay(q: Query, root: Tree, m: Match)
    requires PlainNames(root) && FindIn(q, root, "", []).Ok?
    ensures m in FindIn(q, root, "", []).value <==> exists trail :: Way(q, root, "", [], trail, m)
  {
    hide FindIn, Way, Leads;
    if m in FindIn(q, root, "", []).value {
      var trail := FoundIsReached(q, root, "", [], m);
      LeadsIffWay(q, root, "", [], trail, m);
    }
    if trail :| Way(q, root, "", [], trail, m) {
      LeadsIffWay(q, root, "", [], trail, m);
      ReachedIsFound(q, root, "", [], trail, m);
    }
  }

  /* ---------- failures ---------- */

  /** Something on the way cannot be read: an ignore file, a directory or a folder in it. */
  ghost predicate Trouble(q: Query, tree: Tree, path: string, inherited: seq<Rule>)
    decreases tree
  {
    var rules := RulesAt(q, tree, path, inherited);
    || rules.Err? || !tree.readable
    || exists i | 0 <= i < |tree.entries| ::
         && !PassedOver(q, rules.value, path, tree.entries[i])
         && (tree.entries[i].kind.LockedFolder?
             || (tree.entries[i].kind.Folder?
                 && Trouble(q, tree.entries[i].kind.tree, Under(path, tree.entries[i].name), rules.value)))
  }

  lemma OwnResultFailIff(q: Query, rules: seq<Rule>, base: string, entry: FindFiles.Entry)
    ensures OwnResult(q, rules, base, entry).Err? <==> entry.kind.LockedFolder? && !PassedOver(q, rules, base, entry)
  {
    SkippedIsPassedOver(q, rules, base, entry);
    hide Skipped, PassedOver, OwnMatch, Join;
  }

  lemma {:induction false} OwnFailIff(q: Query, rules: seq<Rule>, base: string, entries: seq<FindFiles.Entry>, n: nat)
    requires n <= |entries|
    ensures OwnMatches(q, rules, base, entries, n).Err? <==>
              exists i | 0 <= i < n :: entries[i].kind.LockedFolder? && !PassedOver(q, rules, base, entries[i])
  {
    hide OwnResult, PassedOver;
    if n > 0 {
      OwnFailIff(q, rules, base, entries, n - 1);
      OwnResultFailIff(q, rules, base, entries[n - 1]);
    }
  }

  ghost predicate FolderTrouble(q: Query, tree: Tree, path: string, rules: seq<Rule>, i: nat)
    requires i < |tree.entries|
  {
    var entry := tree.entries[i];
    entry.kind.Folder? && !PassedOver(q, rules, path, entry)
    && Trouble(q, entry.kind.tree, Under(path, entry.name), rules)
  }

  lemma {:induction false} BelowFailIff(q: Query, tree: Tree, path: string, rules: seq<Rule>, n: nat)
    requires n <= |tree.entries|
    ensures FindBelow(q, tree, path, rules, n).Err? <==>
              exists i | 0 <= i < n :: FolderTrouble(q, tree, path, rules, i)
    decreases tree, n
  {
    if n > 0 {
      var entry := tree.entries[n - 1];
      BelowFailIff(q, tree, path, rules, n - 1);
      SkippedIsPassedOver(q, rules, path, entry);
      hide Skipped, PassedOver, FindIn, Trouble, Join, Under;
      if entry.kind.Folder? { FailIffTrouble(q, entry.kind.tree, Under(path, entry.name), rules); }
      assert FolderTrouble(q, tree, path, rules, n - 1) <==>
          Entered(q, rules, path, entry) && FindIn(q, entry.kind.tree, Join(path, entry.name), rules).Err?;
    }
  }

  /** The search fails exactly if there is such trouble: nothing is passed over in silence. */
  lemma {:induction false} FailIffTrouble(q: Query, tree: Tree, path: string, inherited: seq<Rule>)
    ensures FindIn(q, tree, path, inherited).Err? <==> Trouble(q, tree, path, inherited)
    decreases tree, |tree.entries| + 1
  {
    var at := RulesAt(q, tree, path, inherited);
    if at.Ok? && tree.readable {
      OwnFailIff(q, at.value, path, tree.entries, |tree.entries|);
      BelowFailIff(q, tree, path, at.value, |tree.entries|);
      hide RulesAt, OwnMatches, FindBelow, PassedOver;
      forall i | 0 <= i < |tree.entries|
        ensures FolderTrouble(q, tree, path, at.value, i) <==>
                  && !PassedOver(q, at.value, path, tree.entries[i]) && tree.entries[i].kind.Folder?
                  && Trouble(q, tree.entries[i].kind.tree, Under(path, tree.entries[i].name), at.value)
      {
      }
      hide FolderTrouble;
    }
  }
}
