/** The level-by-level walk that selects graph sources. It enters only directories that
    scope, tags and the ignore rules above them admit, and loads no other rules; it
    selects what filtering the whole catalog under all of its rules would. */
module PrunedWalk {
  import opened Basics
  import opened SourceCatalog

  /** Ignore files by the directory they are in. */
  type Rules = map<Path, string>

  /** The request: scopes, tag and document filters, the ignore matcher, and the limits
      and texts of ignore files. */
  datatype Options = Options(
    scopes: seq<Path>,
    excludedDirectory: Path -> bool,
    excludedDocument: Path -> bool,
    wanted: Path -> bool,
    ignored: (Rules, Path, bool) -> bool,
    text: Path -> Option<string>,
    maxDocument: int,
    maxTotal: int)

  const GITIGNORE := ".gitignore"

  predicate InScope(o: Options, p: Path, directory: bool) {
    o.scopes == [] || exists s :: s in o.scopes && (s <= p || (directory && p <= s))
  }

  /** A directory that scope and tags admit. */
  predicate Open(o: Options, d: Path) {
    InScope(o, d, true) && !o.excludedDirectory(d)
  }

  /** A document that scope, tags and the selection admit. */
  predicate Fine(o: Options, p: Path) {
    InScope(o, p, false) && !o.excludedDocument(p) && o.wanted(p)
  }

  /** Whether a path is ignored depends only on the ignore files above it. */
  ghost predicate AncestorsOnly(o: Options) {
    forall a: Rules, b: Rules, p, dir ::
      (forall d :: d < p ==> (d in a <==> d in b) && (d in a ==> a[d] == b[d])) ==>
        o.ignored(a, p, dir) == o.ignored(b, p, dir)
  }

  // ---------- Filtering the catalog ----------

  predicate IsRule(f: SourceFile) {
    f.path != [] && f.path[|f.path| - 1] == GITIGNORE
  }

  ghost predicate HasRule(files: seq<SourceFile>, d: Path) {
    exists f :: f in files && IsRule(f) && Parent(f.path) == d
  }

  function TextOf(o: Options, d: Path): string {
    match o.text(d + [GITIGNORE])
    case Some(data) => data
    case None => ""
  }

  /** Every ignore file of the catalog. */
  ghost function AllRules(o: Options, files: seq<SourceFile>): (r: Rules)
    ensures forall d :: d in r <==> HasRule(files, d)
    ensures forall d :: d in r ==> r[d] == TextOf(o, d)
  {
    var dirs := set f | f in files && IsRule(f) :: Parent(f.path);
    assert forall d :: d in dirs <==> HasRule(files, d);
    map d | d in dirs :: TextOf(o, d)
  }

  /** Directories with no closed or ignored ancestor under given rules. */
  ghost predicate Entered(o: Options, rules: Rules, d: Path)
    decreases |d|
  {
    Open(o, d) && (d == [] || (Entered(o, rules, Parent(d)) && !o.ignored(rules, d, true)))
  }

  /** What the filter of the whole catalog keeps. */
  ghost predicate Admitted(o: Options, rules: Rules, f: SourceFile) {
    && f.path != [] && Fine(o, f.path)
    && Entered(o, rules, Parent(f.path)) && !o.ignored(rules, f.path, false)
  }

  lemma {:induction false} EnteredAbove(o: Options, rules: Rules, d: Path, a: Path)
    requires Entered(o, rules, d) && a <= d
    ensures Entered(o, rules, a)
    decreases |d|
  {
    if a != d {
      EnteredAbove(o, rules, Parent(d), a);
    }
  }

  // ---------- The selection over the catalog alone ----------

  /** A path that is a scope or below one; without scopes every path is. */
  ghost predicate Under(o: Options, p: Path) {
    o.scopes == [] || exists s, rest :: s in o.scopes && p == s + rest
  }

  /** A directory below a scope, or one with a scope below it. */
  ghost predicate Towards(o: Options, d: Path) {
    Under(o, d) || exists s, rest :: s in o.scopes && s == d + rest
  }

  /** No directory on the way to a path is excluded or ignored. */
  ghost predicate Passable(o: Options, rules: Rules, d: Path) {
    forall k :: 0 <= k <= |d| ==> !o.excludedDirectory(d[..k]) && (k > 0 ==> !o.ignored(rules, d[..k], true))
  }

  /** A document by itself: under a scope, wanted and not excluded. */
  ghost predicate Chosen(o: Options, p: Path) {
    Under(o, p) && o.wanted(p) && !o.excludedDocument(p)
  }

  /** What a selection over the whole catalog keeps. */
  ghost predicate Selects(o: Options, rules: Rules, f: SourceFile) {
    && f.path != [] && Chosen(o, f.path) && !o.ignored(rules, f.path, false)
    && Passable(o, rules, Parent(f.path))
  }

  /** An ignore file that is read: the way to it is open, and the catalog has a chosen
      document beside it or something in a directory beside it that leads to a scope and is
      not excluded. */
  ghost predicate Reads(o: Options, files: seq<SourceFile>, rules: Rules, d: Path) {
    && HasRule(files, d) && Towards(o, d) && Passable(o, rules, d)
    && exists f :: f in files && d < f.path && Beside(o, d, f.path)
  }

  ghost predicate Beside(o: Options, d: Path, p: Path)
    requires d < p
  {
    if |p| == |d| + 1 then Chosen(o, p)
    else Towards(o, p[..|d| + 1]) && !o.excludedDirectory(p[..|d| + 1])
  }

  lemma ScopeMeans(o: Options, p: Path)
    ensures InScope(o, p, false) <==> Under(o, p)
    ensures InScope(o, p, true) <==> Towards(o, p)
  {
    forall s | s in o.scopes && s <= p ensures Under(o, p) {
      assert p == s + p[|s|..];
    }
    forall s | s in o.scopes && p <= s ensures Towards(o, p) {
      assert s == p + s[|p|..];
    }
  }

  /** A directory on the way to a path that leads to a scope leads to one too. */
  lemma ScopeAbove(o: Options, d: Path)
    requires d != [] && InScope(o, d, true)
    ensures InScope(o, Parent(d), true)
  {
    if o.scopes != [] {
      var s :| s in o.scopes && (s <= d || d <= s);
      assert s <= Parent(d) || Parent(d) <= s by {
        if s <= d && s != d {
          assert s == d[..|s|] && Parent(d)[..|s|] == d[..|s|];
        }
      }
    }
  }

  lemma {:induction false} EnteredMeans(o: Options, rules: Rules, d: Path)
    ensures Entered(o, rules, d) <==> Towards(o, d) && Passable(o, rules, d)
    decreases |d|
  {
    hide InScope, Under, Towards;
    ScopeMeans(o, d);
    assert d[..|d|] == d;
    if d != [] {
      var p := Parent(d);
      EnteredMeans(o, rules, p);
      ScopeMeans(o, p);
      if InScope(o, d, true) {
        ScopeAbove(o, d);
      }
      forall k | 0 <= k <= |p| ensures p[..k] == d[..k] {}
      if Passable(o, rules, p) && !o.excludedDirectory(d) && !o.ignored(rules, d, true) {
        forall k | 0 <= k <= |d|
          ensures !o.excludedDirectory(d[..k]) && (k > 0 ==> !o.ignored(rules, d[..k], true))
        {
          if k <= |p| {
            assert d[..k] == p[..k];
          }
        }
      }
      if Passable(o, rules, d) {
        assert !o.excludedDirectory(d[..|d|]) && !o.ignored(rules, d[..|d|], true);
      }
    }
  }

  /** The way down never leaves out what a selection over the whole catalog keeps. */
  lemma AdmittedMeans(o: Options, rules: Rules, f: SourceFile)
    ensures Admitted(o, rules, f) <==> Selects(o, rules, f)
  {
    if f.path != [] {
      hide Entered, Passable, Under, Towards;
      var d := Parent(f.path);
      ScopeMeans(o, f.path);
      EnteredMeans(o, rules, d);
      if Under(o, f.path) {
        ScopeIncludes(o, f.path);
        ScopeAbove(o, f.path);
        ScopeMeans(o, d);
      }
    }
  }

  lemma ScopeIncludes(o: Options, p: Path)
    requires Under(o, p)
    ensures InScope(o, p, true)
  {
    ScopeMeans(o, p);
  }

  lemma MattersMeans(o: Options, tree: map<Path, Directory>, files: seq<SourceFile>, d: Path)
    requires Catalogued(tree, files)
    ensures Matters(o, tree, AllRules(o, files), d) <==> Reads(o, files, AllRules(o, files), d)
  {
    var all := AllRules(o, files);
    EnteredMeans(o, all, d);
    hide Entered, Passable, InScope, Under, Towards, AllRules;
    if HasRule(files, d) {
      var f :| f in files && IsRule(f) && Parent(f.path) == d;
      assert d < f.path;
      assert Needed(files, d);
      NextMeans(o, tree, files, d);
    }
  }

  lemma NextMeans(o: Options, tree: map<Path, Directory>, files: seq<SourceFile>, d: Path)
    requires Catalogued(tree, files) && d in tree
    ensures HasNext(o, tree, d) <==> exists f :: f in files && d < f.path && Beside(o, d, f.path)
  {
    hide Catalogued, Open, Fine, Beside;
    forall c | c in tree[d].directories && Open(o, c)
      ensures exists f :: f in files && d < f.path && Beside(o, d, f.path)
    {
      DirectoryBelow(o, tree, files, d, c);
    }
    forall f | f in tree[d].documents && Fine(o, f.path)
      ensures exists f :: f in files && d < f.path && Beside(o, d, f.path)
    {
      DocumentListed(tree, files, d, f);
      ScopeOfDocument(o, d, f.path);
    }
    forall f | f in files && d < f.path && Beside(o, d, f.path) ensures HasNext(o, tree, d) {
      FoundNext(o, tree, files, d, f);
    }
  }

  lemma DocumentListed(tree: map<Path, Directory>, files: seq<SourceFile>, d: Path, f: SourceFile)
    requires Catalogued(tree, files) && d in tree
    ensures f in tree[d].documents <==> f in files && f.path != [] && Parent(f.path) == d
  {
    assert f in tree[d].documents <==> multiset(tree[d].documents)[f] > 0;
  }

  lemma ScopeOfDocument(o: Options, d: Path, p: Path)
    requires p != [] && Parent(p) == d
    ensures d < p && (Fine(o, p) <==> Beside(o, d, p))
  {
    ScopeMeans(o, p);
  }

  lemma DirectoryBelow(o: Options, tree: map<Path, Directory>, files: seq<SourceFile>, d: Path, c: Path)
    requires Catalogued(tree, files) && d in tree && c in tree[d].directories && Open(o, c)
    ensures exists f :: f in files && d < f.path && Beside(o, d, f.path)
  {
    hide InScope, Under, Towards;
    assert c in tree && c != [] && Parent(c) == d by { TreeIsListed(tree, files); }
    assert Needed(files, c);
    var f :| f in files && c < f.path;
    ScopeMeans(o, c);
    assert f.path[..|d| + 1] == c;
    assert d < f.path;
  }

  lemma FoundNext(o: Options, tree: map<Path, Directory>, files: seq<SourceFile>, d: Path, f: SourceFile)
    requires Catalogued(tree, files) && d in tree && f in files && d < f.path && Beside(o, d, f.path)
    ensures HasNext(o, tree, d)
  {
    hide InScope, Under, Towards;
    if |f.path| == |d| + 1 {
      DocumentListed(tree, files, d, f);
      ScopeOfDocument(o, d, f.path);
    } else {
      var c := f.path[..|d| + 1];
      assert c < f.path && Parent(c) == d;
      assert Needed(files, c);
      ScopeMeans(o, c);
      TreeIsListed(tree, files);
      ListedChild(tree, c);
    }
  }

  // ---------- What has been loaded ----------

  /** Something below a directory is admitted by scope, tags and selection. */
  ghost predicate HasNext(o: Options, tree: map<Path, Directory>, d: Path)
    requires d in tree
  {
    || (exists c :: c in tree[d].directories && Open(o, c))
    || (exists f :: f in tree[d].documents && Fine(o, f.path))
  }

  /** Directories whose ignore file matters to something below them. */
  ghost predicate Matters(o: Options, tree: map<Path, Directory>, all: Rules, d: Path) {
    d in tree && d in all && Entered(o, all, d) && HasNext(o, tree, d)
  }

  /** The loaded rules are the rules of the catalog that matter above a level. */
  ghost predicate Loaded(o: Options, tree: map<Path, Directory>, all: Rules, rules: Rules, level: nat) {
    && (forall d :: d in rules <==> (|d| < level && Matters(o, tree, all, d)))
    && (forall d :: d in rules ==> d in all && rules[d] == all[d])
  }

  /** A path the walk asks about: its directory is entered and nothing but an ignore rule
      can still close it. */
  ghost predicate Candidate(o: Options, tree: map<Path, Directory>, all: Rules, p: Path) {
    && p != [] && Parent(p) in tree && Entered(o, all, Parent(p))
    && ((p in tree[Parent(p)].directories && Open(o, p))
        || (exists f :: f in tree[Parent(p)].documents && f.path == p && Fine(o, p)))
  }

  lemma CandidateMatters(o: Options, tree: map<Path, Directory>, files: seq<SourceFile>, all: Rules, p: Path, d: Path)
    requires Catalogued(tree, files) && Candidate(o, tree, all, p) && d < p
    ensures d in tree && Entered(o, all, d) && HasNext(o, tree, d)
  {
    hide Open, Fine, Catalogued, Listed, Filed, Entered, NoRepeat;
    assert d <= Parent(p);
    assert Listed(tree, {}) by { TreeIsListed(tree, files); }
    AncestorsListed(tree, {}, Parent(p));
    EnteredAbove(o, all, Parent(p), d);
    if d != Parent(p) {
      var next := p[..|d| + 1];
      assert next <= Parent(p) && Parent(next) == d;
      EnteredAbove(o, all, Parent(p), next);
      assert Open(o, next) by { EnteredOpen(o, all, next); }
      ListedChild(tree, next);
    }
  }

  lemma TreeIsListed(tree: map<Path, Directory>, files: seq<SourceFile>)
    requires Catalogued(tree, files)
    ensures Listed(tree, {})
  {}

  lemma EnteredOpen(o: Options, rules: Rules, d: Path)
    requires Entered(o, rules, d)
    ensures Open(o, d)
  {}

  lemma ListedChild(tree: map<Path, Directory>, c: Path)
    requires Listed(tree, {}) && c in tree && c != []
    ensures Parent(c) in tree && c in tree[Parent(c)].directories
  {}

  /** The loaded rules decide such a path as all the rules would. */
  lemma IgnoredSame(o: Options, tree: map<Path, Directory>, files: seq<SourceFile>, all: Rules, rules: Rules, p: Path,
                    directory: bool)
    requires Catalogued(tree, files) && AncestorsOnly(o)
    requires Loaded(o, tree, all, rules, |p|) && Candidate(o, tree, all, p)
    ensures o.ignored(rules, p, directory) == o.ignored(all, p, directory)
  {
    hide Catalogued, Candidate, HasNext, Entered;
    forall d | d < p ensures (d in rules <==> d in all) && (d in all ==> rules[d] == all[d]) {
      CandidateMatters(o, tree, files, all, p, d);
    }
  }

  // ---------- One directory ----------

  /** The last ignore file a directory lists. */
  function LastRule(documents: seq<SourceFile>): (r: Option<SourceFile>)
    ensures r.None? <==> forall f :: f in documents ==> !IsRule(f)
    ensures r.Some? ==> r.value in documents && IsRule(r.value)
  {
    if documents == [] then None
    else
      var last := documents[|documents| - 1];
      assert documents == documents[..|documents| - 1] + [last];
      if IsRule(last) then Some(last) else LastRule(documents[..|documents| - 1])
  }

  /** The length of the ignore files loaded so far. */
  function Bytes(o: Options, loaded: seq<Path>): int {
    if loaded == [] then 0 else Bytes(o, loaded[..|loaded| - 1]) + |TextOf(o, loaded[|loaded| - 1])|
  }

  /** An ignore file that cannot be loaded beside those already loaded. */
  predicate Refused(o: Options, rule: SourceFile, bytes: int)
    requires rule.path != []
  {
    || rule.size < 0 || rule.size > o.maxDocument || bytes + rule.size > o.maxTotal
    || o.text(Parent(rule.path) + [GITIGNORE]).None?
    || |TextOf(o, Parent(rule.path))| > o.maxDocument
    || bytes + |TextOf(o, Parent(rule.path))| > o.maxTotal
  }

  /** An ignore file that matters is refused after others that matter were loaded. */
  ghost predicate Overflows(o: Options, tree: map<Path, Directory>, files: seq<SourceFile>) {
    exists f, loaded :: f in files && IsRule(f) && Matters(o, tree, AllRules(o, files), Parent(f.path))
      && NoRepeat(loaded) && (forall d :: d in loaded ==> Matters(o, tree, AllRules(o, files), d))
      && Parent(f.path) !in loaded && Refused(o, f, Bytes(o, loaded))
  }

  /** Ignore files within the limits, each and together. */
  ghost predicate Fitting(o: Options, loaded: seq<Path>) {
    && (forall d :: d in loaded ==> |TextOf(o, d)| <= o.maxDocument)
    && (loaded == [] || Bytes(o, loaded) <= o.maxTotal)
  }

  /** The ignore files that matter are within the limits. */
  ghost predicate Affordable(o: Options, tree: map<Path, Directory>, all: Rules) {
    exists loaded :: NoRepeat(loaded) && (forall d :: d in loaded <==> Matters(o, tree, all, d)) && Fitting(o, loaded)
  }

  /** Ignore files can be read and are as long as the catalog says. */
  ghost predicate Measured(o: Options, files: seq<SourceFile>) {
    forall f :: f in files && IsRule(f) ==> o.text(f.path).Some? && |o.text(f.path).value| == f.size
  }

  lemma {:induction false} BytesAppend(o: Options, a: seq<Path>, b: seq<Path>)
    ensures Bytes(o, a + b) == Bytes(o, a) + Bytes(o, b)
  {
    hide TextOf;
    if b == [] {
      assert a + b == a;
    } else {
      assert (a + b)[..|a + b| - 1] == a + b[..|b| - 1];
      BytesAppend(o, a, b[..|b| - 1]);
    }
  }

  lemma BytesOne(o: Options, d: Path)
    ensures Bytes(o, [d]) == |TextOf(o, d)|
  {
    hide TextOf;
    assert [d][..0] == [];
  }

  /** Fewer ignore files are no longer together. */
  lemma {:induction false} BytesLess(o: Options, some: seq<Path>, all: seq<Path>)
    requires NoRepeat(some) && forall d :: d in some ==> d in all
    ensures Bytes(o, some) <= Bytes(o, all)
    decreases |some|
  {
    if some == [] {
      BytesPositive(o, all);
    } else {
      var front, last := some[..|some| - 1], some[|some| - 1];
      assert last in some;
      var x, y := TakeOut(some, all);
      BytesLess(o, front, x + y);
      hide Bytes, TextOf;
      assert some == front + [last];
      BytesAppend(o, front, [last]);
      BytesAppend(o, x + [last], y);
      BytesAppend(o, x, [last]);
      BytesAppend(o, x, y);
    }
  }

  lemma TakeOut(some: seq<Path>, all: seq<Path>) returns (x: seq<Path>, y: seq<Path>)
    requires some != [] && NoRepeat(some) && forall d :: d in some ==> d in all
    ensures all == x + [some[|some| - 1]] + y && NoRepeat(some[..|some| - 1])
    ensures forall d :: d in some[..|some| - 1] ==> d in x + y
  {
    var last := some[|some| - 1];
    assert last in some;
    var i :| 0 <= i < |all| && all[i] == last;
    x, y := all[..i], all[i + 1..];
    assert all == x + [last] + y;
    forall k | 0 <= k < |some| - 1 ensures some[k] in x + y {
      assert some[k] in some;
      var m :| 0 <= m < |all| && all[m] == some[k];
      assert (x + y)[if m < i then m else m - 1] == some[k];
    }
  }

  lemma {:induction false} BytesPositive(o: Options, loaded: seq<Path>)
    ensures Bytes(o, loaded) >= 0
  {
    if loaded != [] {
      BytesPositive(o, loaded[..|loaded| - 1]);
    }
  }

  /** Where the catalog measures its ignore files, only their total can be too much. */
  lemma AffordableFits(o: Options, tree: map<Path, Directory>, files: seq<SourceFile>)
    requires Measured(o, files) && Affordable(o, tree, AllRules(o, files))
    ensures !Overflows(o, tree, files)
  {
    hide Matters, AllRules, Bytes, Refused, Measured, Fitting;
    if Overflows(o, tree, files) {
      var all := AllRules(o, files);
      var whole :| NoRepeat(whole) && (forall d :: d in whole <==> Matters(o, tree, all, d)) && Fitting(o, whole);
      var f, some :| f in files && IsRule(f) && Matters(o, tree, all, Parent(f.path))
        && NoRepeat(some) && (forall d :: d in some ==> Matters(o, tree, all, d))
        && Parent(f.path) !in some && Refused(o, f, Bytes(o, some));
      FitsBeside(o, files, f, some, whole);
    }
  }

  lemma FitsBeside(o: Options, files: seq<SourceFile>, f: SourceFile, some: seq<Path>, whole: seq<Path>)
    requires Measured(o, files) && f in files && IsRule(f) && Fitting(o, whole)
    requires NoRepeat(some) && Parent(f.path) !in some && Parent(f.path) in whole
    requires forall d :: d in some ==> d in whole
    ensures !Refused(o, f, Bytes(o, some))
  {
    hide Bytes;
    var p := Parent(f.path);
    assert p + [GITIGNORE] == f.path;
    AppendNoRepeat(some, [p]);
    BytesLess(o, some + [p], whole);
    BytesAppend(o, some, [p]);
    BytesOne(o, p);
  }

  /** The ignore file of one entered directory, loaded when something below may need it. */
  method LoadRule(o: Options, name: Path, documents: seq<SourceFile>, needed: bool, rules: Rules, bytes: int)
    returns (ok: bool, after: Rules, total: int)
    requires forall f :: f in documents ==> f.path != [] && Parent(f.path) == name
    ensures ok <==> !needed || LastRule(documents).None? || !Refused(o, LastRule(documents).value, bytes)
    ensures ok ==> after == (if needed && LastRule(documents).Some? then rules[name := TextOf(o, name)] else rules)
    ensures ok ==> total == bytes + (if needed && LastRule(documents).Some? then |TextOf(o, name)| else 0)
  {
    var rule := LastRule(documents);
    assert rule.Some? ==> Parent(rule.value.path) == name;
    if rule.None? || !needed {
      return true, rules, bytes;
    }
    var size := rule.value.size;
    if size < 0 || size > o.maxDocument || bytes + size > o.maxTotal {
      return false, rules, bytes;
    }
    var text := o.text(name + [GITIGNORE]);
    if text.None? || |text.value| > o.maxDocument || bytes + |text.value| > o.maxTotal {
      return false, rules, bytes;
    }
    return true, rules[name := text.value], bytes + |text.value|;
  }

  // ---------- One level ----------

  /** The directories of a level whose parents were entered and which are open. */
  ghost predicate Frontier(o: Options, tree: map<Path, Directory>, all: Rules, frontier: seq<Path>, level: nat) {
    && NoRepeat(frontier)
    && forall d :: d in frontier
         <==> (d in tree && |d| == level && (d == [] || (Open(o, d) && Entered(o, all, Parent(d)))))
  }

  ghost predicate EnteredLevel(o: Options, tree: map<Path, Directory>, all: Rules, dirs: seq<Path>, level: nat) {
    NoRepeat(dirs) && forall d :: d in dirs <==> (d in tree && |d| == level && Entered(o, all, d))
  }

  /** The directories of a frontier that scope, tags and loaded rules admit. */
  function Admit(o: Options, rules: Rules, frontier: seq<Path>): seq<Path> {
    Filter(Filter(frontier, d => Open(o, d)), d => d == [] || !o.ignored(rules, d, true))
  }

  lemma AdmitEnters(o: Options, tree: map<Path, Directory>, files: seq<SourceFile>, rules: Rules, frontier: seq<Path>,
                    level: nat)
    requires Catalogued(tree, files) && AncestorsOnly(o)
    requires var all := AllRules(o, files);
      Loaded(o, tree, all, rules, level) && Frontier(o, tree, all, frontier, level)
    ensures EnteredLevel(o, tree, AllRules(o, files), Admit(o, rules, frontier), level)
  {
    var all := AllRules(o, files);
    var dirs := Admit(o, rules, frontier);
    FilterNoRepeat(frontier, d => Open(o, d));
    FilterNoRepeat(Filter(frontier, d => Open(o, d)), d => d == [] || !o.ignored(rules, d, true));
    hide AllRules, Catalogued, Loaded, AncestorsOnly, Open, NoRepeat, Entered;
    forall d ensures d in dirs <==> (d in tree && |d| == level && Entered(o, all, d)) {
      EnteredIs(o, all, d);
      if d in tree && |d| == level && d != [] && Open(o, d) && Entered(o, all, Parent(d)) {
        FrontierCandidate(o, tree, files, all, d);
        IgnoredSame(o, tree, files, all, rules, d, true);
      }
    }
  }

  lemma EnteredIs(o: Options, rules: Rules, d: Path)
    ensures Entered(o, rules, d)
        <==> (Open(o, d) && (d == [] || (Entered(o, rules, Parent(d)) && !o.ignored(rules, d, true))))
  {}

  lemma FrontierCandidate(o: Options, tree: map<Path, Directory>, files: seq<SourceFile>, all: Rules, d: Path)
    requires Catalogued(tree, files) && d in tree && d != [] && Open(o, d) && Entered(o, all, Parent(d))
    ensures Candidate(o, tree, all, d)
  {
    hide Open, Entered, NoRepeat, Filed;
    ListedChild(tree, d);
  }

  function OpenChildren(o: Options, d: Directory): seq<Path> {
    Filter(d.directories, (c: Path) => Open(o, c))
  }

  function FineDocuments(o: Options, d: Directory): seq<SourceFile> {
    Filter(d.documents, (f: SourceFile) => Fine(o, f.path))
  }

  ghost predicate Children(o: Options, tree: map<Path, Directory>, ds: seq<Path>, children: seq<Path>) {
    NoRepeat(children)
    && forall c :: c in children <==> (c in tree && c != [] && Open(o, c) && Parent(c) in ds)
  }

  ghost predicate Collected(o: Options, files: seq<SourceFile>, ds: seq<Path>, documents: seq<SourceFile>) {
    forall f :: multiset(documents)[f]
             == if f.path != [] && Parent(f.path) in ds && Fine(o, f.path) then multiset(files)[f] else 0
  }

  /** The rules while a level is visited: those above it, and those of its visited
      directories that matter. */
  ghost predicate Loading(o: Options, tree: map<Path, Directory>, all: Rules, rules: Rules, level: nat, ds: seq<Path>) {
    && (forall d :: d in rules <==> ((|d| < level || d in ds) && Matters(o, tree, all, d)))
    && (forall d :: d in rules ==> d in all && rules[d] == all[d])
  }

  /** The account of the loaded rules. */
  ghost predicate Ledger(o: Options, rules: Rules, loaded: seq<Path>, bytes: int) {
    NoRepeat(loaded) && (forall d :: d in loaded <==> d in rules) && bytes == Bytes(o, loaded) && Fitting(o, loaded)
  }

  lemma ChildrenNext(o: Options, tree: map<Path, Directory>, ds: seq<Path>, children: seq<Path>, name: Path)
    requires Listed(tree, {}) && name in tree && name !in ds && Children(o, tree, ds, children)
    ensures Children(o, tree, ds + [name], children + OpenChildren(o, tree[name]))
  {
    var more := OpenChildren(o, tree[name]);
    OpenChildrenAre(o, tree, name);
    hide Open, Listed, OpenChildren, NoRepeat;
    AppendNoRepeat(children, more);
    forall c ensures c in children + more <==> (c in tree && c != [] && Open(o, c) && Parent(c) in ds + [name]) {}
  }

  lemma OpenChildrenAre(o: Options, tree: map<Path, Directory>, name: Path)
    requires Listed(tree, {}) && name in tree
    ensures NoRepeat(OpenChildren(o, tree[name]))
    ensures forall c :: c in OpenChildren(o, tree[name]) <==> c in tree && c != [] && Parent(c) == name && Open(o, c)
  {
    hide Open;
    FilterNoRepeat(tree[name].directories, (c: Path) => Open(o, c));
  }

  lemma CollectedNext(o: Options, tree: map<Path, Directory>, files: seq<SourceFile>, ds: seq<Path>,
                      documents: seq<SourceFile>, name: Path)
    requires Filed(tree, files) && name in tree && name !in ds && Collected(o, files, ds, documents)
    ensures Collected(o, files, ds + [name], documents + FineDocuments(o, tree[name]))
  {
    var more := FineDocuments(o, tree[name]);
    assert multiset(documents + more) == multiset(documents) + multiset(more);
    hide Fine, Filed, FineDocuments;
    forall f
      ensures multiset(documents + more)[f]
           == if f.path != [] && Parent(f.path) in ds + [name] && Fine(o, f.path) then multiset(files)[f] else 0
    {
      FineCounts(o, tree, files, name, f);
    }
  }

  lemma FineCounts(o: Options, tree: map<Path, Directory>, files: seq<SourceFile>, name: Path, f: SourceFile)
    requires Filed(tree, files) && name in tree
    ensures multiset(FineDocuments(o, tree[name]))[f]
         == if f.path != [] && Parent(f.path) == name && Fine(o, f.path) then multiset(files)[f] else 0
  {
    hide Fine;
    FilterCounts(tree[name].documents, (x: SourceFile) => Fine(o, x.path), f);
  }

  /** A listed document is a file of the catalog. */
  lemma DocumentIsFile(tree: map<Path, Directory>, files: seq<SourceFile>, d: Path)
    requires Catalogued(tree, files) && d in tree
    ensures forall f :: f in tree[d].documents <==> (f in files && Parent(f.path) == d)
  {
    hide Listed, Needed;
    forall f ensures f in tree[d].documents <==> (f in files && Parent(f.path) == d) {
      assert f in tree[d].documents <==> multiset(tree[d].documents)[f] > 0;
      assert f in files <==> multiset(files)[f] > 0;
    }
  }

  lemma LoadingNext(o: Options, tree: map<Path, Directory>, files: seq<SourceFile>, rules: Rules, level: nat,
                    ds: seq<Path>, name: Path)
    requires Catalogued(tree, files) && name in tree && |name| == level && name !in ds
    requires Loading(o, tree, AllRules(o, files), rules, level, ds) && Entered(o, AllRules(o, files), name)
    ensures var needed := OpenChildren(o, tree[name]) != []
                       || FineDocuments(o, tree[name]) != [];
      var after := if needed && LastRule(tree[name].documents).Some? then rules[name := TextOf(o, name)] else rules;
      && Loading(o, tree, AllRules(o, files), after, level, ds + [name])
      && (needed <==> HasNext(o, tree, name)) && name !in rules
  {
    var all := AllRules(o, files);
    var needed := OpenChildren(o, tree[name]) != [] || FineDocuments(o, tree[name]) != [];
    var ruled := LastRule(tree[name].documents).Some?;
    RuleIsListed(o, tree, files, name);
    NeededIs(o, tree, name);
    MattersHas(o, tree, all, name);
    hide *;
    LoadingStep(o, tree, all, rules, level, ds, name, needed && ruled);
  }

  lemma LoadingStep(o: Options, tree: map<Path, Directory>, all: Rules, rules: Rules, level: nat, ds: seq<Path>,
                    name: Path, load: bool)
    requires Loading(o, tree, all, rules, level, ds) && |name| == level && name !in ds
    requires load ==> name in all && all[name] == TextOf(o, name)
    requires Matters(o, tree, all, name) <==> load
    ensures Loading(o, tree, all, if load then rules[name := TextOf(o, name)] else rules, level, ds + [name])
    ensures name !in rules
  {
    hide Matters, TextOf;
  }

  lemma MattersHas(o: Options, tree: map<Path, Directory>, all: Rules, d: Path)
    ensures Matters(o, tree, all, d)
        <==> (d in tree && d in all && Entered(o, all, d) && HasNext(o, tree, d))
  {}

  lemma RuleIsListed(o: Options, tree: map<Path, Directory>, files: seq<SourceFile>, name: Path)
    requires Catalogued(tree, files) && name in tree
    ensures name in AllRules(o, files) <==> LastRule(tree[name].documents).Some?
    ensures name in AllRules(o, files) ==> AllRules(o, files)[name] == TextOf(o, name)
  {
    DocumentIsFile(tree, files, name);
    hide Catalogued;
  }

  lemma NeededIs(o: Options, tree: map<Path, Directory>, name: Path)
    requires name in tree
    ensures (OpenChildren(o, tree[name]) != []
             || FineDocuments(o, tree[name]) != [])
        <==> HasNext(o, tree, name)
  {
    hide Open, Fine;
    var dirs := OpenChildren(o, tree[name]);
    var docs := FineDocuments(o, tree[name]);
    if dirs != [] { assert dirs[0] in dirs; }
    if docs != [] { assert docs[0] in docs; }
  }

  lemma LedgerNext(o: Options, rules: Rules, loaded: seq<Path>, bytes: int, name: Path)
    requires Ledger(o, rules, loaded, bytes) && name !in rules
    requires |TextOf(o, name)| <= o.maxDocument && bytes + |TextOf(o, name)| <= o.maxTotal
    ensures Ledger(o, rules[name := TextOf(o, name)], loaded + [name], bytes + |TextOf(o, name)|)
  {
    assert (loaded + [name])[..|loaded|] == loaded;
  }

  /** Visits the entered directories of one level. */
  method Visit(o: Options, source: SourceTree, dirs: seq<Path>, ghost level: nat, rules: Rules, bytes: int,
               ghost files: seq<SourceFile>, ghost loaded: seq<Path>)
    returns (ok: bool, after: Rules, total: int, children: seq<Path>, documents: seq<SourceFile>,
             ghost ledger: seq<Path>)
    requires Catalogued(source.directories, files)
    requires EnteredLevel(o, source.directories, AllRules(o, files), dirs, level)
    requires Loading(o, source.directories, AllRules(o, files), rules, level, []) && Ledger(o, rules, loaded, bytes)
    ensures !ok ==> Overflows(o, source.directories, files)
    ensures ok ==>
      && Loading(o, source.directories, AllRules(o, files), after, level, dirs) && Ledger(o, after, ledger, total)
      && Children(o, source.directories, dirs, children) && Collected(o, files, dirs, documents)
  {
    hide *;
    hide AllRules, Catalogued, Loading, Ledger, Children, Collected, Overflows, LastRule, OpenChildren, FineDocuments,
      Filter, EnteredLevel, Fine, Open;
    ghost var all := AllRules(o, files);
    ghost var tree := source.directories;
    after, total, children, documents, ledger := rules, bytes, [], [], loaded;
    NothingVisited(o, tree, files);
    TreeIsListed(tree, files);
    for i := 0 to |dirs|
      invariant Loading(o, tree, all, after, level, dirs[..i]) && Ledger(o, after, ledger, total)
      invariant Children(o, tree, dirs[..i], children) && Collected(o, files, dirs[..i], documents)
    {
      var name := dirs[i];
      EnteredFresh(o, tree, all, dirs, level, i);
      assert dirs[..i + 1] == dirs[..i] + [name];
      var entry := source.ReadDirectory(name);
      var nextDirs, nextDocs := OpenChildren(o, entry.value), FineDocuments(o, entry.value);
      LoadingNext(o, tree, files, after, level, dirs[..i], name);
      DocumentsOf(tree, files, name);
      ChildrenNext(o, tree, dirs[..i], children, name);
      CollectedNext(o, tree, files, dirs[..i], documents, name) by { TreeIsFiled(tree, files); }
      ghost var before, spent := after, total;
      var needed := nextDirs != [] || nextDocs != [];
      ok, after, total := LoadRule(o, name, entry.value.documents, needed, after, total);
      if !ok {
        RefusedOverflows(o, tree, files, before, level, dirs[..i], name, ledger, spent);
        return;
      }
      if needed && LastRule(entry.value.documents).Some? {
        LoadedFits(o, LastRule(entry.value.documents).value, spent);
        LedgerNext(o, before, ledger, spent, name);
        ledger := ledger + [name];
      }
      children, documents := children + nextDirs, documents + nextDocs;
    }
    assert dirs[..|dirs|] == dirs;
    ok := true;
  }

  lemma NothingVisited(o: Options, tree: map<Path, Directory>, files: seq<SourceFile>)
    ensures Children(o, tree, [], []) && Collected(o, files, [], [])
  {}

  lemma TreeIsFiled(tree: map<Path, Directory>, files: seq<SourceFile>)
    requires Catalogued(tree, files)
    ensures Filed(tree, files)
  {}

  lemma EnteredFresh(o: Options, tree: map<Path, Directory>, all: Rules, dirs: seq<Path>, level: nat, i: nat)
    requires EnteredLevel(o, tree, all, dirs, level) && i < |dirs|
    ensures dirs[i] in tree && |dirs[i]| == level && Entered(o, all, dirs[i]) && dirs[i] !in dirs[..i]
  {
    assert dirs[i] in dirs;
  }

  lemma DocumentsOf(tree: map<Path, Directory>, files: seq<SourceFile>, name: Path)
    requires Catalogued(tree, files) && name in tree
    ensures forall f :: f in tree[name].documents ==> f.path != [] && Parent(f.path) == name
  {
    DocumentIsFile(tree, files, name);
  }

  lemma LoadedFits(o: Options, rule: SourceFile, bytes: int)
    requires rule.path != [] && !Refused(o, rule, bytes)
    ensures var name := Parent(rule.path);
      |TextOf(o, name)| <= o.maxDocument && bytes + |TextOf(o, name)| <= o.maxTotal
  {}

  lemma RefusedOverflows(o: Options, tree: map<Path, Directory>, files: seq<SourceFile>, rules: Rules, level: nat,
                         ds: seq<Path>, name: Path, loaded: seq<Path>, bytes: int)
    requires Catalogued(tree, files) && name in tree && Entered(o, AllRules(o, files), name)
    requires Loading(o, tree, AllRules(o, files), rules, level, ds) && name !in rules
    requires Ledger(o, rules, loaded, bytes)
    requires HasNext(o, tree, name) && LastRule(tree[name].documents).Some?
    requires LastRule(tree[name].documents).value.path != []
    requires Refused(o, LastRule(tree[name].documents).value, bytes)
    ensures Overflows(o, tree, files)
  {
    var all := AllRules(o, files);
    var f := LastRule(tree[name].documents).value;
    DocumentIsFile(tree, files, name);
    RuleIsListed(o, tree, files, name);
    MattersHas(o, tree, all, name);
    hide Catalogued, Refused, Matters, HasNext, Entered, AllRules, LastRule;
  }

  // ---------- The walk ----------

  /** The files above a level that the filter of the catalog keeps, as often as listed. */
  ghost predicate Selected(o: Options, files: seq<SourceFile>, all: Rules, selected: seq<SourceFile>, level: nat) {
    forall f :: multiset(selected)[f] == if |f.path| <= level && Admitted(o, all, f) then multiset(files)[f] else 0
  }

  lemma LevelLoaded(o: Options, tree: map<Path, Directory>, all: Rules, rules: Rules, level: nat, dirs: seq<Path>)
    requires EnteredLevel(o, tree, all, dirs, level) && Loading(o, tree, all, rules, level, dirs)
    ensures Loaded(o, tree, all, rules, level + 1)
  {
    hide Open, HasNext, NoRepeat;
  }

  lemma NextFrontier(o: Options, tree: map<Path, Directory>, all: Rules, level: nat, dirs: seq<Path>,
                     children: seq<Path>)
    requires Listed(tree, {}) && EnteredLevel(o, tree, all, dirs, level) && Children(o, tree, dirs, children)
    ensures Frontier(o, tree, all, children, level + 1)
  {
    hide Open, Entered, NoRepeat;
  }

  lemma SelectLevel(o: Options, tree: map<Path, Directory>, files: seq<SourceFile>, rules: Rules, level: nat,
                    dirs: seq<Path>, documents: seq<SourceFile>, selected: seq<SourceFile>)
    requires Catalogued(tree, files) && AncestorsOnly(o)
    requires var all := AllRules(o, files);
      && EnteredLevel(o, tree, all, dirs, level) && Loaded(o, tree, all, rules, level + 1)
      && Collected(o, files, dirs, documents) && Selected(o, files, all, selected, level)
    ensures Selected(o, files, AllRules(o, files), selected + Kept(o, rules, documents), level + 1)
  {
    var all := AllRules(o, files);
    var more := Kept(o, rules, documents);
    hide AllRules, Catalogued, AncestorsOnly, Loaded, Filter, Fine, Kept, Entered;
    forall f
      ensures multiset(selected + more)[f]
           == if |f.path| <= level + 1 && Admitted(o, all, f) then multiset(files)[f] else 0
    {
      assert multiset(selected + more) == multiset(selected) + multiset(more);
      KeptCounts(o, rules, documents, f);
      if f in files && f.path != [] && Parent(f.path) in dirs && Fine(o, f.path) {
        DocumentCandidate(o, tree, files, all, f);
        IgnoredSame(o, tree, files, all, rules, f.path, false);
      }
      if |f.path| == level + 1 && f in files && Admitted(o, all, f) {
        ParentInTree(tree, files, f);
      }
      assert f in files <==> multiset(files)[f] > 0;
    }
  }

  /** The documents of a level that the rules loaded so far do not ignore. */
  function Kept(o: Options, rules: Rules, documents: seq<SourceFile>): seq<SourceFile> {
    Filter(documents, (f: SourceFile) => !o.ignored(rules, f.path, false))
  }

  lemma KeptCounts(o: Options, rules: Rules, documents: seq<SourceFile>, f: SourceFile)
    ensures multiset(Kept(o, rules, documents))[f]
         == if o.ignored(rules, f.path, false) then 0 else multiset(documents)[f]
  {
    FilterCounts(documents, (x: SourceFile) => !o.ignored(rules, x.path, false), f);
  }

  lemma ParentInTree(tree: map<Path, Directory>, files: seq<SourceFile>, f: SourceFile)
    requires Catalogued(tree, files) && f in files
    ensures f.path != [] && forall k :: 0 <= k < |f.path| ==> f.path[..k] in tree
  {
    forall k | 0 <= k < |f.path| ensures f.path[..k] in tree {
      assert f.path[..k] < f.path;
      assert Needed(files, f.path[..k]);
    }
  }

  lemma DocumentCandidate(o: Options, tree: map<Path, Directory>, files: seq<SourceFile>, all: Rules, f: SourceFile)
    requires Catalogued(tree, files) && f in files && f.path != [] && Fine(o, f.path)
    requires Parent(f.path) in tree && Entered(o, all, Parent(f.path))
    ensures Candidate(o, tree, all, f.path)
  {
    hide Fine, Entered, Open;
    DocumentIsFile(tree, files, Parent(f.path));
  }

  /** With an empty frontier nothing is left to select. */
  lemma AllSelected(o: Options, tree: map<Path, Directory>, files: seq<SourceFile>, all: Rules, level: nat,
                    selected: seq<SourceFile>, rules: Rules)
    requires Catalogued(tree, files) && level > 0 && Frontier(o, tree, all, [], level)
    requires Selected(o, files, all, selected, level) && Loaded(o, tree, all, rules, level)
    ensures forall f :: multiset(selected)[f] == if Admitted(o, all, f) then multiset(files)[f] else 0
    ensures forall d :: d in rules <==> Matters(o, tree, all, d)
    ensures forall d :: d in rules ==> d in all && rules[d] == all[d]
  {
    forall f ensures multiset(selected)[f] == if Admitted(o, all, f) then multiset(files)[f] else 0 {
      if |f.path| > level && Admitted(o, all, f) && f in files {
        ParentInTree(tree, files, f);
        NothingDeeper(o, tree, all, level, f.path[..level], Parent(f.path));
      }
    }
    forall d ensures d in rules <==> Matters(o, tree, all, d) {
      if Matters(o, tree, all, d) && |d| >= level {
        AncestorsListed(tree, {}, d);
        NothingDeeper(o, tree, all, level, d[..level], d);
      }
    }
  }

  lemma NothingDeeper(o: Options, tree: map<Path, Directory>, all: Rules, level: nat, a: Path, d: Path)
    requires level > 0 && Frontier(o, tree, all, [], level) && |a| == level && a <= d && a in tree
    ensures !Entered(o, all, d)
  {
    if Entered(o, all, d) {
      EnteredAbove(o, all, d, a);
    }
  }

  ghost function Longest(files: seq<SourceFile>): (n: nat)
    ensures forall f :: f in files ==> |f.path| <= n
  {
    if files == [] then 0
    else
      var front, last := files[..|files| - 1], files[|files| - 1];
      assert files == front + [last];
      if Longest(front) < |last.path| then |last.path| else Longest(front)
  }

  /** A level with a frontier is no deeper than the longest path. */
  lemma FrontierReaches(o: Options, tree: map<Path, Directory>, files: seq<SourceFile>, all: Rules,
                        frontier: seq<Path>, level: nat)
    requires Catalogued(tree, files) && Frontier(o, tree, all, frontier, level) && frontier != []
    ensures level <= Longest(files)
  {
    hide Entered, Open, NoRepeat, Listed, Filed;
    assert frontier[0] in frontier;
  }

  predicate ValidScope(s: Path) {
    forall segment :: segment in s ==> ValidSegment(segment)
  }

  lemma ScopesAreValid(o: Options)
    ensures forall s :: s in o.scopes ==> (Malformed(s) <==> !ValidScope(s))
  {
    hide Malformed, ValidSegment;
    forall s | s in o.scopes ensures Malformed(s) <==> !ValidScope(s) {
      SegmentsAreValid(s);
    }
  }

  /** `selectGraphMaterials`. */
  method Walk(o: Options, source: SourceTree, ghost files: seq<SourceFile>)
    returns (r: Option<(seq<SourceFile>, Rules)>)
    requires Catalogued(source.directories, files) && AncestorsOnly(o)
    ensures r.None? ==> (exists s :: s in o.scopes && Malformed(s)) || Overflows(o, source.directories, files)
    ensures r.Some? ==> forall s :: s in o.scopes ==> !Malformed(s)
    ensures r.Some? ==> Affordable(o, source.directories, AllRules(o, files))
    ensures Measured(o, files) && (forall s :: s in o.scopes ==> !Malformed(s)) ==>
      (r.Some? <==> Affordable(o, source.directories, AllRules(o, files)))
    ensures r.Some? ==> var all := AllRules(o, files);
      && (forall f :: multiset(r.value.0)[f] == if Selects(o, all, f) then multiset(files)[f] else 0)
      && (forall d :: d in r.value.1 <==> Reads(o, files, all, d))
      && (forall d :: d in r.value.1 ==> r.value.1[d] == TextOf(o, d))
  {
    ScopesAreValid(o);
    if exists s :: s in o.scopes && !ValidScope(s) {
      return None;
    }
    hide *;
    hide AllRules, Catalogued, AncestorsOnly, Loaded, Loading, Ledger, Frontier, EnteredLevel, Selected, Children,
      Collected, Overflows, Affordable, Measured, Admit, Kept, Admitted, Matters, Longest, Selects, Reads, TextOf,
      Malformed;
    ghost var all := AllRules(o, files);
    ghost var tree := source.directories;
    var rules: Rules := map[];
    var bytes, selected, frontier := 0, [], [[]];
    ghost var level: nat, loaded := 0, [];
    WalkStarts(o, tree, files, all);
    TreeIsListed(tree, files);
    while frontier != []
      invariant Frontier(o, tree, all, frontier, level) && (level == 0 ==> frontier != [])
      invariant Loaded(o, tree, all, rules, level) && Ledger(o, rules, loaded, bytes)
      invariant Selected(o, files, all, selected, level)
      decreases Longest(files) + 1 - level
    {
      FrontierReaches(o, tree, files, all, frontier, level);
      AdmitEnters(o, tree, files, rules, frontier, level);
      var dirs := Admit(o, rules, frontier);
      LevelLoading(o, tree, all, rules, level);
      var ok, children, documents;
      ok, rules, bytes, children, documents, loaded := Visit(o, source, dirs, level, rules, bytes, files, loaded);
      if !ok {
        if Measured(o, files) && Affordable(o, tree, all) {
          AffordableFits(o, tree, files);
        }
        return None;
      }
      LevelLoaded(o, tree, all, rules, level, dirs);
      SelectLevel(o, tree, files, rules, level, dirs, documents, selected);
      NextFrontier(o, tree, all, level, dirs, children);
      selected := selected + Kept(o, rules, documents);
      frontier := children;
      level := level + 1;
    }
    AllSelected(o, tree, files, all, level, selected, rules);
    SelectionMeans(o, tree, files, selected, rules);
    LedgerAffords(o, tree, all, rules, loaded, bytes);
    return Some((selected, rules));
  }

  lemma SelectionMeans(o: Options, tree: map<Path, Directory>, files: seq<SourceFile>, selected: seq<SourceFile>,
                       rules: Rules)
    requires Catalogued(tree, files)
    requires var all := AllRules(o, files);
      && (forall f :: multiset(selected)[f] == if Admitted(o, all, f) then multiset(files)[f] else 0)
      && (forall d :: d in rules <==> Matters(o, tree, all, d))
      && (forall d :: d in rules ==> d in all && rules[d] == all[d])
    ensures var all := AllRules(o, files);
      && (forall f :: multiset(selected)[f] == if Selects(o, all, f) then multiset(files)[f] else 0)
      && (forall d :: d in rules <==> Reads(o, files, all, d))
    ensures forall d :: d in rules ==> rules[d] == TextOf(o, d)
  {
    var all := AllRules(o, files);
    hide *;
    forall f ensures Admitted(o, all, f) <==> Selects(o, all, f) {
      AdmittedMeans(o, all, f);
    }
    forall d ensures Matters(o, tree, all, d) <==> Reads(o, files, all, d) {
      MattersMeans(o, tree, files, d);
    }
  }

  lemma LedgerAffords(o: Options, tree: map<Path, Directory>, all: Rules, rules: Rules, loaded: seq<Path>, bytes: int)
    requires Ledger(o, rules, loaded, bytes) && forall d :: d in rules <==> Matters(o, tree, all, d)
    ensures Affordable(o, tree, all)
  {
    hide Matters, Fitting;
  }

  lemma WalkStarts(o: Options, tree: map<Path, Directory>, files: seq<SourceFile>, all: Rules)
    requires Catalogued(tree, files)
    ensures Frontier(o, tree, all, [[]], 0) && Loaded(o, tree, all, map[], 0) && Ledger(o, map[], [], 0)
    ensures Selected(o, files, all, [], 0)
  {}

  lemma LevelLoading(o: Options, tree: map<Path, Directory>, all: Rules, rules: Rules, level: nat)
    requires Loaded(o, tree, all, rules, level)
    ensures Loading(o, tree, all, rules, level, [])
  {}
}
