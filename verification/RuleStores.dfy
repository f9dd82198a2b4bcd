/** Loading rule files and swapping them into the store (backend/rules/loader.py, backend/rules/store.py). */
module RuleStores {
  import opened Basics
  import opened Records
  import opened Rules

  // A directory entry; parsing a rule file yields a rule or fails
  datatype RuleFile = RuleFile(name: string, parsed: Option<RuleSpec>)

  datatype LoadError = NoDirectory | Unreadable(name: string) | DuplicateId(id: string, name: string)

  predicate EndsWith(s: string, suffix: string) {
    |s| >= |suffix| && s[|s| - |suffix|..] == suffix
  }

  // path.suffix in {".yaml", ".yml"}: a leading dot alone starts no suffix
  predicate HasRuleSuffix(name: string) {
    (EndsWith(name, ".yaml") && |name| > 5) || (EndsWith(name, ".yml") && |name| > 4)
  }

  predicate IsDraft(name: string) {
    name != "" && name[0] == '_'
  }

  predicate FileLe(a: RuleFile, b: RuleFile) {
    StringLe(a.name, b.name)
  }

  function RulePaths(dir: seq<RuleFile>): seq<RuleFile> {
    Sort(FileLe, Keep(dir))
  }

  function Keep(dir: seq<RuleFile>): (r: seq<RuleFile>)
    ensures forall f :: f in r <==> f in dir && HasRuleSuffix(f.name)
  {
    if dir == [] then []
    else (if HasRuleSuffix(dir[0].name) then [dir[0]] else []) + Keep(dir[1..])
  }

  function RuleIds(rules: seq<RuleSpec>): (ids: seq<string>)
    ensures |ids| == |rules| && forall i :: 0 <= i < |rules| ==> ids[i] == rules[i].id
  {
    Map((r: RuleSpec) => r.id, rules)
  }

  // The rules of the files in turn, up to the first file that is unreadable or repeats an id
  function Collect(paths: seq<RuleFile>): Result<seq<RuleSpec>, LoadError> {
    if paths == [] then Ok([])
    else
      match Collect(paths[..|paths| - 1])
      case Err(e) => Err(e)
      case Ok(rules) =>
        var file := paths[|paths| - 1];
        if IsDraft(file.name) then Ok(rules)
        else if file.parsed.None? then Err(Unreadable(file.name))
        else if file.parsed.value.id in RuleIds(rules) then Err(DuplicateId(file.parsed.value.id, file.name))
        else Ok(rules + [file.parsed.value])
  }

  // None: the rules directory does not exist
  function Load(dir: Option<seq<RuleFile>>): Result<seq<RuleSpec>, LoadError> {
    if dir.None? then Err(NoDirectory)
    else
      match Collect(RulePaths(dir.value))
      case Err(e) => Err(e)
      case Ok(rules) => Ok(Canonical(rules))
  }

  lemma {:induction false} CollectErrPersists(paths: seq<RuleFile>, i: nat)
    requires i <= |paths| && Collect(paths[..i]).Err?
    ensures Collect(paths) == Collect(paths[..i])
  {
    if i < |paths| {
      assert paths[..|paths| - 1][..i] == paths[..i];
      CollectErrPersists(paths[..|paths| - 1], i);
    } else {
      assert paths[..i] == paths;
    }
  }

  method LoadRulesFromDir(dir: Option<seq<RuleFile>>) returns (r: Result<seq<RuleSpec>, LoadError>)
    ensures r == Load(dir)
  {
    if dir.None? {
      return Err(NoDirectory);
    }
    var loaded := LoadFiles(RulePaths(dir.value));
    match loaded {
      case Err(e) => return Err(e);
      case Ok(rules) => return Ok(Canonical(rules));
    }
  }

  method LoadFiles(paths: seq<RuleFile>) returns (r: Result<seq<RuleSpec>, LoadError>)
    ensures r == Collect(paths)
  {
    var rules: seq<RuleSpec> := [];
    var seen: set<string> := {};
    for i := 0 to |paths|
      invariant Collect(paths[..i]) == Ok(rules) && seen == SeenIds(rules)
    {
      var path := paths[i];
      CollectStep(paths, i, rules);
      if IsDraft(path.name) {
        continue;
      }
      if path.parsed.None? {
        CollectErrPersists(paths, i + 1);
        return Err(Unreadable(path.name));
      }
      var rule := path.parsed.value;
      if rule.id in seen {
        CollectErrPersists(paths, i + 1);
        return Err(DuplicateId(rule.id, path.name));
      }
      assert RuleIds(rules + [rule]) == RuleIds(rules) + [rule.id];
      seen := seen + {rule.id};
      rules := rules + [rule];
    }
    assert paths[..|paths|] == paths;
    return Ok(rules);
  }

  function SeenIds(rules: seq<RuleSpec>): set<string> { set id | id in RuleIds(rules) }

  lemma CollectStep(paths: seq<RuleFile>, i: nat, rules: seq<RuleSpec>)
    requires i < |paths| && Collect(paths[..i]) == Ok(rules)
    ensures Collect(paths[..i + 1]) ==
              if IsDraft(paths[i].name) then Ok(rules)
              else if paths[i].parsed.None? then Err(Unreadable(paths[i].name))
              else if paths[i].parsed.value.id in RuleIds(rules) then Err(DuplicateId(paths[i].parsed.value.id, paths[i].name))
              else Ok(rules + [paths[i].parsed.value])
  {
    assert paths[..i + 1][..i] == paths[..i];
  }

  // ---- What a load promises ----

  // A file that must yield a rule
  predicate Live(file: RuleFile) {
    HasRuleSuffix(file.name) && !IsDraft(file.name)
  }

  // Every live file parses, and no two files of the list declare one id
  ghost predicate Loadable(files: seq<RuleFile>) {
    && (forall f :: f in files && Live(f) ==> f.parsed.Some?)
    && (forall i, j :: 0 <= i < j < |files| && Live(files[i]) && Live(files[j]) ==>
          files[i].parsed.value.id != files[j].parsed.value.id)
  }

  ghost predicate ExactlyTheRulesOf(rules: seq<RuleSpec>, files: seq<RuleFile>) {
    forall r :: r in rules <==> exists f :: f in files && Live(f) && f.parsed == Some(r)
  }

  lemma LoadableFront(front: seq<RuleFile>, file: RuleFile)
    ensures Loadable(front + [file]) ==> Loadable(front)
    ensures Loadable(front) && !Live(file) ==> Loadable(front + [file])
  {
    var paths := front + [file];
    assert forall i :: 0 <= i < |front| ==> paths[i] == front[i];
    assert forall f :: f in paths <==> f in front || f == file;
  }

  lemma LoadableLive(front: seq<RuleFile>, file: RuleFile)
    requires Live(file) && Loadable(front)
    ensures Loadable(front + [file]) <==>
              file.parsed.Some? && !DeclaredIn(front, file.parsed.value.id)
  {
    var paths := front + [file];
    assert forall i :: 0 <= i < |front| ==> paths[i] == front[i];
    assert forall f :: f in paths <==> f in front || f == file;
    if file.parsed.Some? && DeclaredIn(front, file.parsed.value.id) {
      var f :| f in front && Live(f) && f.parsed.value.id == file.parsed.value.id;
      var i :| 0 <= i < |front| && front[i] == f;
      assert paths[i] == f && paths[|front|] == file;
    }
  }

  // Some live file of the list declares the id
  ghost predicate DeclaredIn(files: seq<RuleFile>, id: string)
    requires forall f :: f in files && Live(f) ==> f.parsed.Some?
  {
    exists f :: f in files && Live(f) && f.parsed.value.id == id
  }

  lemma DeclaredIffSeen(rules: seq<RuleSpec>, files: seq<RuleFile>, id: string)
    requires Loadable(files) && ExactlyTheRulesOf(rules, files)
    ensures id in RuleIds(rules) <==> DeclaredIn(files, id)
  {
    if DeclaredIn(files, id) {
      var f :| f in files && Live(f) && f.parsed.value.id == id;
      assert f.parsed.value in rules;
      var k :| 0 <= k < |rules| && rules[k] == f.parsed.value;
      assert RuleIds(rules)[k] == id;
    }
    if k :| 0 <= k < |rules| && RuleIds(rules)[k] == id {
      assert rules[k] in rules;
    }
  }

  lemma {:induction false} CollectIff(paths: seq<RuleFile>)
    requires forall f :: f in paths ==> HasRuleSuffix(f.name)
    ensures Collect(paths).Ok? <==> Loadable(paths)
    ensures Collect(paths).Ok? ==> ExactlyTheRulesOf(Collect(paths).value, paths) && Distinct(RuleIds(Collect(paths).value))
  {
    if paths != [] {
      var n := |paths| - 1;
      var front, file := paths[..n], paths[n];
      assert paths == front + [file];
      CollectIff(front);
      LoadableFront(front, file);
      if Loadable(front) {
        CollectOne(front, file);
      }
    }
  }

  lemma CollectOne(front: seq<RuleFile>, file: RuleFile)
    requires HasRuleSuffix(file.name) && Loadable(front) && Collect(front).Ok?
    requires ExactlyTheRulesOf(Collect(front).value, front) && Distinct(RuleIds(Collect(front).value))
    ensures var paths := front + [file];
            && (Collect(paths).Ok? <==> Loadable(paths))
            && (Collect(paths).Ok? ==>
                  ExactlyTheRulesOf(Collect(paths).value, paths) && Distinct(RuleIds(Collect(paths).value)))
  {
    var paths, rules := front + [file], Collect(front).value;
    assert paths[..|front|] == front;
    LoadableFront(front, file);
    if Live(file) {
      LoadableLive(front, file);
      if file.parsed.Some? {
        var id := file.parsed.value.id;
        DeclaredIffSeen(rules, front, id);
        assert RuleIds(rules + [file.parsed.value]) == RuleIds(rules) + [id];
        DistinctAppend(RuleIds(rules), id);
      }
    }
  }

  /** Loading succeeds exactly when the directory exists, every live file parses and no id is declared
      twice, and then it yields exactly the rules of the live files, disabled ones included, in canonical
      order. */
  lemma LoadIff(dir: Option<seq<RuleFile>>)
    ensures Load(dir).Ok? <==> dir.Some? && Loadable(RulePaths(dir.value))
    ensures Load(dir).Ok? ==>
              && ExactlyTheRulesOf(Load(dir).value, dir.value)
              && UniqueIds(Load(dir).value)
              && Ordered(RuleLe, Load(dir).value)
  {
    if dir.Some? {
      var paths := RulePaths(dir.value);
      SameMembers(paths, Keep(dir.value));
      CollectIff(paths);
      if Load(dir).Ok? {
        LoadedOrder(Collect(paths).value);
        SameMembers(Collect(paths).value, Load(dir).value);
      }
    }
  }

  lemma LoadedOrder(rules: seq<RuleSpec>)
    requires Distinct(RuleIds(rules))
    ensures UniqueIds(Canonical(rules)) && Ordered(RuleLe, Canonical(rules))
  {
    RuleLeTotal();
    SortOrdered(RuleLe, rules);
    SameMembers(rules, Canonical(rules));
    DistinctIdsUnique(rules);
  }

  /** A file is live exactly when its name is a stem with the suffix .yaml or .yml and does not start with an
      underscore. */
  lemma LiveIff(file: RuleFile)
    ensures Live(file) <==> (Stemmed(file.name, ".yaml") || Stemmed(file.name, ".yml")) && file.name[0] != '_'
  {
    StemmedIff(file.name, ".yaml");
    StemmedIff(file.name, ".yml");
  }

  // The name is a non-empty stem with the suffix
  ghost predicate Stemmed(name: string, suffix: string) {
    exists stem: string :: stem != "" && name == stem + suffix
  }

  lemma StemmedIff(name: string, suffix: string)
    ensures EndsWith(name, suffix) && |name| > |suffix| <==> Stemmed(name, suffix)
  {
    if EndsWith(name, suffix) && |name| > |suffix| {
      assert name == name[..|name| - |suffix|] + suffix;
    }
  }

  /** The files are read in the order of their names; each rule file once, nothing else. */
  lemma RulePathsAre(dir: seq<RuleFile>)
    ensures multiset(RulePaths(dir)) == multiset(Keep(dir))
    ensures forall i, j :: 0 <= i < j < |RulePaths(dir)| ==> StringLe(RulePaths(dir)[i].name, RulePaths(dir)[j].name)
  {
    forall x, y ensures FileLe(x, y) || FileLe(y, x) { StringLeTotal(x.name, y.name); }
    forall x, y, z | FileLe(x, y) && FileLe(y, z) ensures FileLe(x, z) { StringLeTrans(x.name, y.name, z.name); }
    SortOrdered(FileLe, Keep(dir));
    assert forall i, j :: 0 <= i < j < |RulePaths(dir)| ==> FileLe(RulePaths(dir)[i], RulePaths(dir)[j]);
  }

  // File k is the first that stops a load, and the error says why
  ghost predicate StopsAt(paths: seq<RuleFile>, k: int, error: LoadError) {
    && 0 <= k < |paths| && Loadable(paths[..k]) && Live(paths[k])
    && (paths[k].parsed.None? ==> error == Unreadable(paths[k].name))
    && (paths[k].parsed.Some? ==>
          DeclaredIn(paths[..k], paths[k].parsed.value.id) && error == DuplicateId(paths[k].parsed.value.id, paths[k].name))
  }

  lemma {:induction false} CollectFails(paths: seq<RuleFile>) returns (k: int)
    requires (forall f :: f in paths ==> HasRuleSuffix(f.name)) && Collect(paths).Err?
    ensures StopsAt(paths, k, Collect(paths).error)
  {
    var n := |paths| - 1;
    var front := paths[..n];
    assert paths == front + [paths[n]];
    if Collect(front).Err? {
      k := CollectFails(front);
      assert front[..k] == paths[..k] && front[k] == paths[k];
    } else {
      k := n;
      CollectIff(front);
      if paths[n].parsed.Some? { DeclaredIffSeen(Collect(front).value, front, paths[n].parsed.value.id); }
    }
  }

  // A file of the directory is read once for each time it is listed, and only if it has the suffix of a rule file
  lemma {:induction false} KeepIs(dir: seq<RuleFile>, f: RuleFile)
    ensures multiset(Keep(dir))[f] == if HasRuleSuffix(f.name) then multiset(dir)[f] else 0
  {
    if dir != [] {
      assert dir == [dir[0]] + dir[1..];
      KeepIs(dir[1..], f);
    }
  }

  // Being loadable is a matter of which files there are, not of their order
  ghost predicate LoadableSet(files: multiset<RuleFile>) {
    && (forall f :: f in files && Live(f) ==> f.parsed.Some? && files[f] == 1)
    && (forall f, g :: f in files && g in files && Live(f) && Live(g) && f != g ==> f.parsed.value.id != g.parsed.value.id)
  }

  lemma TwiceListed<T>(xs: seq<T>, i: int, j: int)
    requires 0 <= i < j < |xs| && xs[i] == xs[j]
    ensures multiset(xs)[xs[i]] >= 2
  {
    assert xs == xs[..j] + xs[j..];
    assert xs[..j][i] == xs[i] && xs[j..][0] == xs[i];
    assert multiset(xs) == multiset(xs[..j]) + multiset(xs[j..]);
    assert xs[i] in xs[..j] && xs[i] in xs[j..];
  }

  lemma ListedTwice<T>(xs: seq<T>, x: T) returns (i: int, j: int)
    requires multiset(xs)[x] >= 2
    ensures 0 <= i < j < |xs| && xs[i] == xs[j] == x
  {
    assert x in multiset(xs) && x in xs;
    i :| 0 <= i < |xs| && xs[i] == x;
    RemoveAt(xs, i);
    var rest := xs[..i] + xs[i + 1..];
    assert multiset(rest)[x] >= 1;
    assert x in rest;
    var k :| 0 <= k < |rest| && rest[k] == x;
    j := if k < i then k else k + 1;
    if j < i { i, j := j, i; }
  }

  lemma LoadableIsSet(files: seq<RuleFile>)
    ensures Loadable(files) <==> LoadableSet(multiset(files))
  {
    var m := multiset(files);
    if Loadable(files) {
      forall f | f in m && Live(f) ensures m[f] == 1 {
        if m[f] >= 2 {
          var i, j := ListedTwice(files, f);
        }
      }
      forall f, g | f in m && g in m && Live(f) && Live(g) && f != g ensures f.parsed.value.id != g.parsed.value.id {
        assert f in files && g in files;
        var i :| 0 <= i < |files| && files[i] == f;
        var j :| 0 <= j < |files| && files[j] == g;
        assert i < j || j < i;
      }
    }
    if LoadableSet(m) {
      forall f | f in files ensures f in m {}
      forall i, j | 0 <= i < j < |files| && Live(files[i]) && Live(files[j]) ensures files[i].parsed.value.id != files[j].parsed.value.id {
        assert files[i] in m && files[j] in m;
        if files[i] == files[j] { TwiceListed(files, i, j); }
      }
    }
  }

  /** The directory itself decides: its files load exactly when each live one parses and no two live ones declare one
      id, whatever the order of the listing. */
  lemma LoadsIff(dir: seq<RuleFile>)
    ensures Load(Some(dir)).Ok? <==> Loadable(dir)
  {
    LoadIff(Some(dir));
    LoadableIsSet(dir);
    LoadableIsSet(RulePaths(dir));
    RulePathsAre(dir);
    forall f | Live(f) ensures multiset(Keep(dir))[f] == multiset(dir)[f] {
      KeepIs(dir, f);
    }
    SameLiveFiles(multiset(dir), multiset(RulePaths(dir)));
  }

  lemma SameLiveFiles(m: multiset<RuleFile>, p: multiset<RuleFile>)
    requires forall f :: Live(f) ==> p[f] == m[f]
    ensures LoadableSet(m) <==> LoadableSet(p)
  {
    forall f | Live(f) ensures f in p <==> f in m {
      assert p[f] == m[f];
    }
  }

  /** A load fails because the directory is missing, or at the first file, by name, that does not parse or repeats an id;
      the error names that file. */
  lemma LoadFails(dir: Option<seq<RuleFile>>) returns (k: int)
    requires Load(dir).Err?
    ensures dir.None? ==> Load(dir).error == NoDirectory
    ensures dir.Some? ==> StopsAt(RulePaths(dir.value), k, Load(dir).error)
  {
    k := 0;
    if dir.Some? {
      SameMembers(RulePaths(dir.value), Keep(dir.value));
      k := CollectFails(RulePaths(dir.value));
    }
  }

  lemma DistinctIdsUnique(rules: seq<RuleSpec>)
    requires Distinct(RuleIds(rules))
    ensures UniqueIds(rules)
  {
    forall a, b | a in rules && b in rules && a.id == b.id ensures a == b {
      var i :| 0 <= i < |rules| && rules[i] == a;
      var j :| 0 <= j < |rules| && rules[j] == b;
      assert RuleIds(rules)[i] == RuleIds(rules)[j];
    }
  }

  /** The engine sees a loaded list as it is: its canonical order is the order of the list. */
  lemma LoadedIsCanonical(dir: Option<seq<RuleFile>>)
    requires Load(dir).Ok?
    ensures Canonical(Load(dir).value) == Load(dir).value
  {
    LoadIff(dir);
    var rules := Load(dir).value;
    RuleLeTotal();
    SortOrdered(RuleLe, rules);
    UniqueIdsRankApart(rules);
    OrderedUnique(RuleLe, rules, Canonical(rules));
  }

  class RuleStore {
    const directory: string
    var rules: seq<RuleSpec>

    constructor (directory: string)
      ensures this.directory == directory && rules == []
    {
      this.directory := directory;
      rules := [];
    }

    /** All or nothing: the rules of the directory replace the old ones, or the old ones stay. */
    method Reload(dir: Option<seq<RuleFile>>) returns (r: Result<nat, LoadError>)
      modifies this`rules
      ensures match Load(dir)
              case Ok(loaded) => rules == loaded && r == Ok(|loaded|)
              case Err(e) => rules == old(rules) && r == Err(e)
    {
      var loaded := LoadRulesFromDir(dir);
      match loaded {
        case Err(e) => return Err(e);
        case Ok(newRules) =>
          rules := newRules;
          return Ok(|newRules|);
      }
    }

    method GetRules() returns (r: seq<RuleSpec>)
      ensures r == rules
    {
      r := rules;
    }
  }
}
