/** Bounded exploration of source files: a worklist whose recorded depths only
    improve, a submission window that runs ahead of it, and a file budget, over any
    sequence of calls on one builder. */
module SourceWorkset {
  import opened Basics
  import Identifiers

  datatype Code = SourceScope | BoundaryUnavailable | ExpansionLimit | FileLimit

  datatype Diagnostic = Diagnostic(path: string, code: Code)

  datatype Item = Item(file: string, depth: nat)

  /** A file named while another is expanded: a dependency one step deeper, or a
      member of the same package at the same depth. */
  datatype Call = Call(file: string, samePackage: bool)

  /** One captured version and the limits of its exploration. `calls` are the files
      named while a file is expanded; `rejected` files make the consumer of facts fail. */
  datatype Options = Options(files: set<string>, gitlinks: set<string>, sourceFiles: Option<set<string>>,
                             ignored: string -> bool, language: string -> bool, maxDepth: nat, maxFiles: nat,
                             calls: string -> seq<Call>, rejected: string -> bool)

  datatype State = State(depths: map<string, nat>, dependencies: map<string, seq<string>>, visited: set<string>,
                         workset: set<string>, diagnostics: seq<Diagnostic>, parsed: seq<string>)

  // ---------- What an exploration must achieve ----------

  predicate OutOfScope(o: Options, file: string) {
    file in o.files && o.language(file) && o.sourceFiles.Some? && file !in o.sourceFiles.value
  }

  /** A captured file that may be expanded at this depth. */
  predicate Expandable(o: Options, file: string, depth: nat) {
    file in o.files && file !in o.gitlinks && !o.ignored(file) && depth <= o.maxDepth && !OutOfScope(o, file)
  }

  function Dependencies(s: State, file: string): seq<string> {
    if file in s.dependencies then s.dependencies[file] else []
  }

  /** Why a file recorded at a depth is not expanded has been reported: it lies outside the
      scope or the boundary, or too deep, or the budget was used up. */
  ghost predicate Reported(o: Options, s: State, file: string, depth: nat) {
    && (OutOfScope(o, file) ==> Diagnostic(file, SourceScope) in s.diagnostics)
    && (file in o.files && file !in o.gitlinks && !OutOfScope(o, file) ==>
          Diagnostic(file, if o.ignored(file) then BoundaryUnavailable
                           else if depth > o.maxDepth then ExpansionLimit else FileLimit) in s.diagnostics)
  }

  /** A visited file's dependencies are at most one step deeper; for an unvisited file that
      was captured it is reported why. */
  ghost predicate Settled(o: Options, s: State, file: string)
    requires file in s.depths
  {
    if file in s.visited then
      forall d :: d in Dependencies(s, file) ==> d in s.depths && s.depths[d] <= s.depths[file] + 1
    else Reported(o, s, file, s.depths[file])
  }

  /** A report is true: the file is recorded, and left out for the reason given; the budget
      is used up once it is named. */
  predicate True(o: Options, s: State, d: Diagnostic) {
    d.path in s.depths &&
    match d.code
    case SourceScope => OutOfScope(o, d.path)
    case BoundaryUnavailable => d.path in o.files && d.path !in o.gitlinks && o.ignored(d.path)
    case ExpansionLimit => d.path in o.files && d.path !in o.gitlinks && d.path !in s.visited
    case FileLimit => d.path in o.files && d.path !in o.gitlinks && d.path !in s.visited && |s.workset| == o.maxFiles
  }

  /** The file is named by the other one. */
  ghost predicate Names(o: Options, parent: string, file: string) {
    exists c :: c in o.calls(parent) && c.file == file
  }

  /** Every file that a visited file names is among its recorded dependencies. */
  ghost predicate Traced(o: Options, s: State) {
    forall f, c :: f in s.visited && f != "" && c in o.calls(f) ==> c.file in Dependencies(s, f)
  }

  ghost predicate AllSettled(o: Options, s: State) {
    (forall f :: f in s.depths ==> Settled(o, s, f)) && Traced(o, s)
  }

  /** What that means for a file named by a visited one: it is recorded at most one step
      deeper, and it is visited, reported, or not to be expanded at its depth. */
  lemma CallsAreFollowed(o: Options, s: State, f: string, c: Call)
    requires Sound(o, s) && AllSettled(o, s) && f in s.visited && f != "" && c in o.calls(f)
    ensures c.file in s.depths && s.depths[c.file] <= s.depths[f] + 1
    ensures c.file in s.visited || Diagnostic(c.file, FileLimit) in s.diagnostics
            || !Expandable(o, c.file, s.depths[c.file])
  {
    assert Settled(o, s, f) && c.file in Dependencies(s, f);
    assert Settled(o, s, c.file);
  }

  /** What every call keeps, whether it succeeds or not. */
  ghost predicate Sound(o: Options, s: State) {
    && s.workset == s.visited && |s.workset| <= o.maxFiles
    && (forall f :: f in s.visited ==> f in s.depths && Expandable(o, f, s.depths[f]))
    && (forall f :: f in s.dependencies ==> f in s.visited)
    && (forall f, d :: f in s.dependencies && d in s.dependencies[f] ==> d in s.depths && Names(o, f, d))
    && (forall d :: d in s.diagnostics ==> True(o, s, d))
    && (forall i, j :: 0 <= i < j < |s.parsed| ==> s.parsed[i] != s.parsed[j])
    && (forall f :: f in s.parsed <==> f in s.visited && o.language(f))
  }

  // ---------- Enqueueing ----------

  function Record(s: State, parent: string, file: string): State {
    if parent == "" then s else s.(dependencies := s.dependencies[parent := Dependencies(s, parent) + [file]])
  }

  /** The `enqueue` closure. */
  function Enqueue(o: Options, s: State, q: seq<Item>, parent: string, item: Item): (State, seq<Item>) {
    var s1 := Record(s, parent, item.file);
    if item.file in s1.depths && s1.depths[item.file] <= item.depth then (s1, q)
    else
      var s2 := s1.(depths := s1.depths[item.file := item.depth]);
      if OutOfScope(o, item.file) then
        (if item.file in s1.depths then s2
         else s2.(diagnostics := s2.diagnostics + [Diagnostic(item.file, SourceScope)]), q)
      else (s2, q + [item])
  }

  function EnqueueAll(o: Options, s: State, q: seq<Item>, parent: string, items: seq<Item>): (State, seq<Item>)
    decreases |items|
  {
    if items == [] then (s, q)
    else
      var (s1, q1) := EnqueueAll(o, s, q, parent, items[..|items| - 1]);
      Enqueue(o, s1, q1, parent, items[|items| - 1])
  }

  /** The queue: recorded depths are a lower bound for every entry, entries of one
      file get strictly shallower, and the last of them carries the recorded depth. */
  ghost predicate Queued(o: Options, s: State, q: seq<Item>) {
    && (forall k :: 0 <= k < |q| ==>
          q[k].file in s.depths && s.depths[q[k].file] <= q[k].depth <= o.maxDepth + 1 && !OutOfScope(o, q[k].file))
    && (forall k, m :: 0 <= k < m < |q| && q[k].file == q[m].file ==> q[m].depth < q[k].depth)
    && (forall k :: 0 <= k < |q| && s.depths[q[k].file] < q[k].depth ==> Awaits(s, q, k + 1, q[k].file))
  }

  /** The recorded depth of `file` still waits at or after position `i`. */
  ghost predicate Awaits(s: State, q: seq<Item>, i: nat, file: string) {
    file in s.depths && exists k :: i <= k < |q| && q[k] == Item(file, s.depths[file])
  }

  /** Everything recorded is settled or waits, apart from the file being expanded. */
  ghost predicate Explored(o: Options, s: State, q: seq<Item>, i: nat, busy: Option<string>) {
    forall f :: f in s.depths && busy != Some(f) ==> Settled(o, s, f) || Awaits(s, q, i, f)
  }

  /** Entries of visited files are shallow enough to be expanded again. */
  ghost predicate Shallow(o: Options, s: State, q: seq<Item>, i: nat) {
    forall k :: i <= k < |q| && q[k].file in s.visited ==> q[k].depth <= o.maxDepth
  }

  /** What one `enqueue` may change. */
  ghost predicate Extends(s: State, q: seq<Item>, s': State, q': seq<Item>, parent: string) {
    && q <= q'
    && s'.visited == s.visited && s'.workset == s.workset && s'.parsed == s.parsed
    && (forall f :: f in s.depths ==> f in s'.depths && s'.depths[f] <= s.depths[f])
    && (forall d :: d in s.diagnostics ==> d in s'.diagnostics)
    && (forall d :: d in s'.diagnostics ==> d in s.diagnostics || d.code == SourceScope)
    && (forall f :: f != parent ==> Dependencies(s', f) == Dependencies(s, f))
  }

  lemma EnqueueExtends(o: Options, s: State, q: seq<Item>, parent: string, item: Item)
    ensures var (s', q') := Enqueue(o, s, q, parent, item);
            && Extends(s, q, s', q', parent)
            && item.file in s'.depths && s'.depths[item.file] <= item.depth
            && (parent != "" ==> Dependencies(s', parent) == Dependencies(s, parent) + [item.file])
            && (parent == "" ==> s'.dependencies == s.dependencies)
  {
    hide OutOfScope;
  }

  lemma EnqueueSound(o: Options, s: State, q: seq<Item>, parent: string, item: Item)
    requires Sound(o, s) && (parent == "" || (parent in s.visited && Names(o, parent, item.file)))
    ensures Sound(o, Enqueue(o, s, q, parent, item).0)
  {
    hide OutOfScope, Names, True;
    EnqueueExtends(o, s, q, parent, item);
    EnqueueTrue(o, s, q, parent, item);
    var s' := Enqueue(o, s, q, parent, item).0;
    forall f, d | f in s'.dependencies && d in s'.dependencies[f] ensures d in s'.depths && Names(o, f, d) {
      if f == parent && parent != "" {
        assert d in Dependencies(s, parent) + [item.file];
        if d != item.file {
          assert d in Dependencies(s, parent);
        }
      } else {
        assert s'.dependencies[f] == Dependencies(s, f);
      }
    }
  }

  lemma EnqueueTrue(o: Options, s: State, q: seq<Item>, parent: string, item: Item)
    requires forall d :: d in s.diagnostics ==> True(o, s, d)
    ensures var s' := Enqueue(o, s, q, parent, item).0; forall d :: d in s'.diagnostics ==> True(o, s', d)
  {
    hide OutOfScope;
    var s' := Enqueue(o, s, q, parent, item).0;
    forall d | d in s'.diagnostics ensures True(o, s', d) {
      if d in s.diagnostics {
        assert True(o, s, d);
      }
    }
  }

  lemma EnqueueQueued(o: Options, s: State, q: seq<Item>, parent: string, item: Item)
    requires Queued(o, s, q) && item.depth <= o.maxDepth + 1
    ensures var (s', q') := Enqueue(o, s, q, parent, item); Queued(o, s', q')
  {
    hide OutOfScope;
    var (s', q') := Enqueue(o, s, q, parent, item);
    if q' != q {
      assert q'[|q|] == item;
      forall k | 0 <= k < |q'| && s'.depths[q'[k].file] < q'[k].depth ensures Awaits(s', q', k + 1, q'[k].file) {
        if q'[k].file == item.file {
          assert q'[|q|] == Item(item.file, s'.depths[item.file]);
        } else {
          assert Awaits(s, q, k + 1, q[k].file);
          var m :| k + 1 <= m < |q| && q[m] == Item(q[k].file, s.depths[q[k].file]);
          assert q'[m] == q[m];
        }
      }
    } else {
      forall k | 0 <= k < |q| && s'.depths[q[k].file] < q[k].depth ensures Awaits(s', q, k + 1, q[k].file) {
        assert Awaits(s, q, k + 1, q[k].file);
      }
    }
  }

  lemma EnqueueExplored(o: Options, s: State, q: seq<Item>, i: nat, parent: string, item: Item, busy: Option<string>)
    requires Sound(o, s) && Queued(o, s, q) && i <= |q| && Explored(o, s, q, i, busy)
    requires parent == "" || busy == Some(parent)
    ensures var (s', q') := Enqueue(o, s, q, parent, item); Explored(o, s', q', i, busy)
  {
    EnqueueExtends(o, s, q, parent, item);
    var (s', q') := Enqueue(o, s, q, parent, item);
    forall f | f in s'.depths && busy != Some(f) ensures Settled(o, s', f) || Awaits(s', q', i, f) {
      if f in s.depths && s'.depths[f] == s.depths[f] {
        if Awaits(s, q, i, f) {
          var k :| i <= k < |q| && q[k] == Item(f, s.depths[f]);
          assert q'[k] == q[k];
        } else {
          assert Settled(o, s, f) && Dependencies(s', f) == Dependencies(s, f);
        }
      } else {
        assert f == item.file;
        if OutOfScope(o, f) {
          assert f !in s.visited;
          if f in s.depths {
            assert Settled(o, s, f);
          } else {
            assert s'.diagnostics[|s.diagnostics|] == Diagnostic(f, SourceScope);
          }
        } else {
          assert q'[|q|] == Item(f, s'.depths[f]);
        }
      }
    }
  }

  lemma EnqueueShallow(o: Options, s: State, q: seq<Item>, i: nat, parent: string, item: Item)
    requires Sound(o, s) && Shallow(o, s, q, i)
    ensures var (s', q') := Enqueue(o, s, q, parent, item); Shallow(o, s', q', i)
  {
    hide OutOfScope;
  }

  /** The worklist between two `enqueue` calls; `clean` when the builder was settled
      before the call. */
  ghost predicate Working(o: Options, s: State, q: seq<Item>, i: nat, busy: Option<string>, clean: bool) {
    && i <= |q| && Sound(o, s) && Queued(o, s, q) && Shallow(o, s, q, i)
    && (clean ==> Explored(o, s, q, i, busy))
  }

  lemma EnqueueWorks(o: Options, s: State, q: seq<Item>, i: nat, parent: string, item: Item, busy: Option<string>,
                     clean: bool)
    requires Working(o, s, q, i, busy, clean) && item.depth <= o.maxDepth + 1
    requires parent == "" || (busy == Some(parent) && parent in s.visited && Names(o, parent, item.file))
    ensures var (s', q') := Enqueue(o, s, q, parent, item); Working(o, s', q', i, busy, clean)
  {
    hide Sound, Queued, Explored, Shallow, Enqueue;
    EnqueueExtends(o, s, q, parent, item);
    EnqueueSound(o, s, q, parent, item);
    EnqueueQueued(o, s, q, parent, item);
    if clean {
      EnqueueExplored(o, s, q, i, parent, item, busy);
    }
    EnqueueShallow(o, s, q, i, parent, item);
  }

  /** A whole list of `enqueue` calls. */
  lemma {:induction false} EnqueueAllWorks(o: Options, s: State, q: seq<Item>, i: nat, parent: string,
                                           items: seq<Item>, busy: Option<string>, clean: bool)
    requires Working(o, s, q, i, busy, clean) && forall x :: x in items ==> x.depth <= o.maxDepth + 1
    requires parent == "" || (busy == Some(parent) && parent in s.visited)
    requires parent != "" ==> forall x :: x in items ==> Names(o, parent, x.file)
    ensures var (s', q') := EnqueueAll(o, s, q, parent, items);
            && Working(o, s', q', i, busy, clean) && Extends(s, q, s', q', parent)
            && (forall x :: x in items ==> x.file in s'.depths && s'.depths[x.file] <= x.depth)
            && (parent == "" ==> s'.dependencies == s.dependencies)
            && (parent != "" ==> forall x :: x in items ==> x.file in Dependencies(s', parent))
            && (forall d :: d in Dependencies(s', parent) ==>
                  d in Dependencies(s, parent) || exists x :: x in items && x.file == d)
    decreases |items|
  {
    hide Working, Enqueue;
    if items != [] {
      var n := |items| - 1;
      var init, last := items[..n], items[n];
      assert items == init + [last];
      EnqueueAllWorks(o, s, q, i, parent, init, busy, clean);
      var (s1, q1) := EnqueueAll(o, s, q, parent, init);
      EnqueueWorks(o, s1, q1, i, parent, last, busy, clean);
      EnqueueExtends(o, s1, q1, parent, last);
      var (s2, q2) := Enqueue(o, s1, q1, parent, last);
      assert last in items;
      forall d | d in Dependencies(s2, parent) && d !in Dependencies(s, parent)
        ensures exists x :: x in items && x.file == d
      {
        if parent != "" && d == last.file {
        } else {
          assert d in Dependencies(s1, parent);
          var x :| x in init && x.file == d;
        }
      }
    }
  }

  // ---------- Consuming the queue ----------

  /** The file just popped is settled, or a shallower entry of it still waits. */
  lemma Popped(o: Options, s: State, q: seq<Item>, i: nat, clean: bool)
    requires Working(o, s, q, i, None, clean) && i < |q|
    ensures Working(o, s, q, i + 1, Some(q[i].file), clean)
    ensures s.depths[q[i].file] < q[i].depth ==> Awaits(s, q, i + 1, q[i].file)
  {
    hide Settled, Sound;
    forall f | f in s.depths && f != q[i].file && Awaits(s, q, i, f) ensures Awaits(s, q, i + 1, f) {
    }
  }

  /** Closing the expansion of a file once it is settled or waits again. */
  lemma Closed(o: Options, s: State, q: seq<Item>, i: nat, file: string, clean: bool)
    requires Working(o, s, q, i, Some(file), clean) && file in s.depths
    requires clean ==> Settled(o, s, file) || Awaits(s, q, i, file)
    ensures Working(o, s, q, i, None, clean)
  {
    hide Settled, Awaits, Sound, Queued, Shallow;
  }

  /** What stands against expanding an entry of a captured file. */
  function Obstacle(o: Options, item: Item): Code {
    if o.ignored(item.file) then BoundaryUnavailable
    else if item.depth > o.maxDepth then ExpansionLimit
    else FileLimit
  }

  /** An entry that cannot be expanded leaves its file settled. */
  lemma SkippedIsSettled(o: Options, s: State, q: seq<Item>, i: nat, clean: bool)
    requires Working(o, s, q, i, None, clean) && i < |q| && q[i].file !in s.visited
    requires q[i].file in o.gitlinks || q[i].file !in o.files
             || Diagnostic(q[i].file, Obstacle(o, q[i])) in s.diagnostics
    ensures Working(o, s, q, i + 1, None, clean)
  {
    Popped(o, s, q, i, clean);
    QueueFacts(o, s, q, i);
    if s.depths[q[i].file] == q[i].depth {
      assert Settled(o, s, q[i].file);
    }
    hide *;
    Closed(o, s, q, i + 1, q[i].file, clean);
  }

  lemma QueueFacts(o: Options, s: State, q: seq<Item>, i: nat)
    requires Queued(o, s, q) && i < |q|
    ensures q[i].file in s.depths && s.depths[q[i].file] <= q[i].depth <= o.maxDepth + 1
    ensures !OutOfScope(o, q[i].file)
  {
  }

  function Report(s: State, file: string, code: Code): State {
    s.(diagnostics := s.diagnostics + [Diagnostic(file, code)])
  }

  /** A true report unsettles nothing. */
  lemma ReportTells(o: Options, s: State, file: string, code: Code, d: Diagnostic)
    ensures True(o, Report(s, file, code), d) <==> True(o, s, d)
  {
    hide OutOfScope;
  }

  lemma ReportSettles(o: Options, s: State, file: string, code: Code, f: string)
    requires f in s.depths && Settled(o, s, f)
    ensures Settled(o, Report(s, file, code), f)
  {
    hide OutOfScope, Names;
    var s' := Report(s, file, code);
    assert Dependencies(s', f) == Dependencies(s, f);
    assert forall d :: d in s.diagnostics ==> d in s'.diagnostics;
  }

  lemma ReportWorks(o: Options, s: State, q: seq<Item>, i: nat, busy: Option<string>, file: string, code: Code,
                    clean: bool)
    requires Working(o, s, q, i, busy, clean) && True(o, s, Diagnostic(file, code))
    ensures Working(o, Report(s, file, code), q, i, busy, clean)
    ensures Diagnostic(file, code) in Report(s, file, code).diagnostics
  {
    hide OutOfScope, Names, Settled, True;
    var s' := Report(s, file, code);
    assert s'.diagnostics[|s.diagnostics|] == Diagnostic(file, code);
    forall d ensures True(o, s', d) <==> True(o, s, d) {
      ReportTells(o, s, file, code, d);
    }
    forall f | f in s.depths && Settled(o, s, f) ensures Settled(o, s', f) {
      ReportSettles(o, s, file, code, f);
    }
    forall f | f in s.depths && Awaits(s, q, i, f) ensures Awaits(s', q, i, f) {
    }
    forall k | 0 <= k < |q| && s'.depths[q[k].file] < q[k].depth ensures Awaits(s', q, k + 1, q[k].file) {
      assert Awaits(s, q, k + 1, q[k].file);
    }
  }

  predicate Limits(d: Diagnostic, file: string) {
    d.path == file && d.code in {ExpansionLimit, FileLimit}
  }

  function DropLimits(ds: seq<Diagnostic>, file: string): (r: seq<Diagnostic>)
    ensures forall d :: d in r <==> d in ds && !Limits(d, file)
  {
    if ds == [] then []
    else DropLimits(ds[..|ds| - 1], file) + if Limits(ds[|ds| - 1], file) then [] else [ds[|ds| - 1]]
  }

  /** The state once a file is admitted to the workset. */
  function Admit(o: Options, s: State, file: string): State {
    s.(visited := s.visited + {file}, workset := s.workset + {file},
       diagnostics := DropLimits(s.diagnostics, file),
       parsed := if o.language(file) then s.parsed + [file] else s.parsed)
  }

  predicate Eligible(o: Options, item: Item) {
    item.file in o.files && item.file !in o.gitlinks && !o.ignored(item.file) && item.depth <= o.maxDepth
  }

  lemma AdmitSound(o: Options, s: State, q: seq<Item>, i: nat)
    requires Sound(o, s) && Queued(o, s, q) && i < |q|
    requires Eligible(o, q[i]) && q[i].file !in s.visited && |s.workset| < o.maxFiles
    ensures Sound(o, Admit(o, s, q[i].file))
  {
    hide Awaits, DropLimits;
    var s' := Admit(o, s, q[i].file);
    forall a, b | 0 <= a < b < |s'.parsed| ensures s'.parsed[a] != s'.parsed[b] {
      if b == |s.parsed| {
        assert s.parsed[a] in s.parsed;
      }
    }
  }

  lemma AdmitQueued(o: Options, s: State, q: seq<Item>, file: string)
    requires Queued(o, s, q)
    ensures Queued(o, Admit(o, s, file), q)
  {
    hide DropLimits;
    var s' := Admit(o, s, file);
    forall k | 0 <= k < |q| && s'.depths[q[k].file] < q[k].depth ensures Awaits(s', q, k + 1, q[k].file) {
      assert Awaits(s, q, k + 1, q[k].file);
    }
  }

  lemma AdmitExplored(o: Options, s: State, q: seq<Item>, i: nat, file: string)
    requires Explored(o, s, q, i, Some(file))
    ensures Explored(o, Admit(o, s, file), q, i, Some(file))
  {
    hide DropLimits, Expandable;
    var s' := Admit(o, s, file);
    forall f | f in s.depths && f != file ensures Settled(o, s', f) || Awaits(s', q, i, f) {
      assert Dependencies(s', f) == Dependencies(s, f);
      assert !Limits(Diagnostic(f, FileLimit), file);
    }
  }

  lemma AdmitShallow(o: Options, s: State, q: seq<Item>, i: nat)
    requires Queued(o, s, q) && i < |q| && q[i].depth <= o.maxDepth && Shallow(o, s, q, i + 1)
    ensures Shallow(o, Admit(o, s, q[i].file), q, i + 1)
  {
    hide DropLimits, Awaits;
  }

  lemma AdmitWorks(o: Options, s: State, q: seq<Item>, i: nat, clean: bool)
    requires Working(o, s, q, i, None, clean) && i < |q|
    requires Eligible(o, q[i]) && q[i].file !in s.visited && |s.workset| < o.maxFiles
    ensures Working(o, Admit(o, s, q[i].file), q, i + 1, Some(q[i].file), clean)
    ensures Dependencies(s, q[i].file) == []
    ensures var s' := Admit(o, s, q[i].file); s'.dependencies == s.dependencies && s'.depths == s.depths
  {
    hide Sound, Eligible, Queued, Explored, Shallow;
    AdmitSound(o, s, q, i);
    Popped(o, s, q, i, clean);
    SoundFacts(o, s);
    EligibleFacts(o, q[i]);
    AdmitQueued(o, s, q, q[i].file);
    if clean {
      AdmitExplored(o, s, q, i + 1, q[i].file);
    }
    AdmitShallow(o, s, q, i);
  }

  lemma SoundFacts(o: Options, s: State)
    requires Sound(o, s)
    ensures forall f :: f in s.dependencies ==> f in s.visited
    ensures forall f :: f in s.visited ==> f in s.depths
    ensures forall f, d :: f in s.dependencies && d in s.dependencies[f] ==> d in s.depths
    ensures s.workset == s.visited
  {
  }

  lemma EligibleFacts(o: Options, item: Item)
    requires Eligible(o, item)
    ensures item.depth <= o.maxDepth && item.file in o.files
  {
  }

  /** The calls made while a file at `depth` is expanded. */
  function Deeper(calls: seq<Call>, depth: nat): seq<Item> {
    seq(|calls|, i requires 0 <= i < |calls| =>
      Item(calls[i].file, if calls[i].samePackage then depth else depth + 1))
  }

  lemma DeeperItems(calls: seq<Call>, depth: nat)
    ensures forall x :: x in Deeper(calls, depth) ==>
      depth <= x.depth <= depth + 1 && exists c :: c in calls && c.file == x.file
  {
    forall x | x in Deeper(calls, depth)
      ensures depth <= x.depth <= depth + 1 && exists c :: c in calls && c.file == x.file
    {
      var k :| 0 <= k < |calls| && Deeper(calls, depth)[k] == x;
      assert calls[k] in calls;
    }
  }

  /** A file keeps its recorded depth unless it is enqueued at a smaller one. */
  lemma {:induction false} EnqueueAllKeeps(o: Options, s: State, q: seq<Item>, parent: string, items: seq<Item>,
                                           file: string)
    requires file in s.depths && forall x :: x in items && x.file == file ==> s.depths[file] <= x.depth
    ensures var s' := EnqueueAll(o, s, q, parent, items).0; file in s'.depths && s'.depths[file] == s.depths[file]
    decreases |items|
  {
    hide OutOfScope;
    if items != [] {
      var n := |items| - 1;
      assert items == items[..n] + [items[n]];
      EnqueueAllKeeps(o, s, q, parent, items[..n], file);
      assert items[n] in items;
    }
  }

  /** Expanding a file, now or again: every dependency ends at most one step deeper. */
  lemma ExpandWorks(o: Options, s: State, q: seq<Item>, i: nat, parent: string, item: Item, items: seq<Item>,
                    clean: bool)
    requires Working(o, s, q, i, Some(item.file), clean) && item.file in s.visited
    requires item.depth <= o.maxDepth && forall x :: x in items ==> item.depth <= x.depth <= item.depth + 1
    requires item.file in s.depths && s.depths[item.file] <= item.depth
    requires s.depths[item.file] == item.depth || Awaits(s, q, i, item.file)
    requires parent == "" || parent == item.file
    requires parent != "" ==> forall x :: x in items ==> Names(o, parent, x.file)
    requires forall d :: d in Dependencies(s, item.file) ==> exists x :: x in items && x.file == d
    ensures var (s', q') := EnqueueAll(o, s, q, parent, items); Working(o, s', q', i, None, clean)
  {
    EnqueueAllWorks(o, s, q, i, parent, items, Some(item.file), clean);
    EnqueueAllKeeps(o, s, q, parent, items, item.file);
    var (s', q') := EnqueueAll(o, s, q, parent, items);
    hide Sound, Queued, Explored, Shallow, EnqueueAll;
    var file := item.file;
    if s'.depths[file] == item.depth {
      forall d | d in Dependencies(s', file) ensures d in s'.depths && s'.depths[d] <= s'.depths[file] + 1 {
        var x :| x in items && x.file == d;
      }
      assert Settled(o, s', file);
    } else {
      var k :| i <= k < |q| && q[k] == Item(file, s.depths[file]);
      assert q'[k] == q[k];
      assert Awaits(s', q', i, file);
    }
    Closed(o, s', q', i, file, clean);
  }

  // ---------- The submission window ----------

  /** Entries before `cut` that may be expanded are visited or submitted, every
      submitted file still has such an entry ahead, and the scan stopped at `cut`
      only because workset and submissions use the whole budget. */
  ghost predicate Window(o: Options, s: State, q: seq<Item>, i: nat, cut: nat, next: nat, submitted: set<string>,
                         tasks: set<string>)
  {
    && cut <= next <= |q| && submitted <= tasks && submitted !! s.visited
    && |s.workset| + |submitted| <= o.maxFiles
    && (forall k :: 0 <= k < cut && Eligible(o, q[k]) ==> q[k].file in s.visited || q[k].file in submitted)
    && (forall f :: f in submitted ==> Ahead(o, q, i, cut, f))
    && (cut == next || |s.workset| + |submitted| == o.maxFiles)
  }

  ghost predicate Ahead(o: Options, q: seq<Item>, i: nat, cut: nat, file: string) {
    exists k :: i <= k < cut && k < |q| && q[k].file == file && Eligible(o, q[k])
  }

  /** An unvisited file that may be expanded is submitted unless the budget is used up. */
  lemma WindowCovers(o: Options, s: State, q: seq<Item>, i: nat, cut: nat, submitted: set<string>, tasks: set<string>)
    requires Window(o, s, q, i, cut, |q|, submitted, tasks) && i < |q|
    requires Eligible(o, q[i]) && q[i].file !in s.visited && |s.workset| < o.maxFiles
    ensures q[i].file in submitted && q[i].file in tasks
  {
    hide Eligible;
    forall f | f in submitted ensures i < cut {
      assert Ahead(o, q, i, cut, f);
    }
    assert cut <= i ==> submitted == {};
  }

  lemma WindowAdmits(o: Options, s: State, q: seq<Item>, i: nat, cut: nat, next: nat, submitted: set<string>,
                     tasks: set<string>)
    requires Window(o, s, q, i, cut, next, submitted, tasks) && i < |q| && q[i].file in submitted
    requires s.workset == s.visited
    ensures Window(o, Admit(o, s, q[i].file), q, i + 1, cut, next, submitted - {q[i].file}, tasks)
  {
    hide Eligible, DropLimits;
  }

  lemma WindowSkips(o: Options, s: State, q: seq<Item>, i: nat, cut: nat, next: nat, submitted: set<string>,
                    tasks: set<string>)
    requires Window(o, s, q, i, cut, next, submitted, tasks) && i < |q|
    requires q[i].file in s.visited || !Eligible(o, q[i]) || |s.workset| >= o.maxFiles
    ensures Window(o, s, q, i + 1, cut, next, submitted, tasks)
  {
    hide Eligible;
    if |s.workset| >= o.maxFiles {
      assert submitted == {};
    }
  }

  lemma WindowExtends(o: Options, s: State, q: seq<Item>, i: nat, cut: nat, next: nat, submitted: set<string>,
                      tasks: set<string>, s': State, q': seq<Item>)
    requires Window(o, s, q, i, cut, next, submitted, tasks)
    requires s'.visited == s.visited && s'.workset == s.workset && q <= q'
    ensures Window(o, s', q', i, cut, next, submitted, tasks)
  {
    hide Eligible;
    forall f | f in submitted ensures Ahead(o, q', i, cut, f) {
      var k :| i <= k < cut && k < |q| && q[k].file == f && Eligible(o, q[k]);
      assert q'[k] == q[k];
    }
  }

  lemma OneMoreOrNone(xs: set<string>, x: string, added: set<string>)
    requires added <= {x}
    ensures |xs + added| <= |xs| + 1
  {
    if x in xs || added == {} {
      assert xs + added == xs;
    } else {
      assert added == {x} && |xs + {x}| == |xs| + 1;
    }
  }

  /** The scan of one more entry. */
  lemma WindowScans(o: Options, s: State, q: seq<Item>, i: nat, next: nat, k: nat, submitted: set<string>,
                    tasks: set<string>, added: set<string>)
    requires Window(o, s, q, i, k, next, submitted, tasks) && i <= k < |q| && |s.workset| + |submitted| < o.maxFiles
    requires added == if Eligible(o, q[k]) && q[k].file !in s.visited then {q[k].file} else {}
    requires next <= k + 1 <= |q|
    ensures Window(o, s, q, i, k + 1, k + 1, submitted + added, tasks + added)
  {
    hide Eligible;
    OneMoreOrNone(submitted, q[k].file, added);
    forall f | f in submitted + added ensures Ahead(o, q, i, k + 1, f) {
      if f in submitted {
        assert Ahead(o, q, i, k, f);
      }
    }
  }

  /** `submitQueued`: submit what was queued since the last scan, within the budget. */
  method SubmitQueued(o: Options, s: State, q: seq<Item>, next0: nat, submitted0: set<string>, tasks0: set<string>,
                      ghost i: nat, ghost cut0: nat)
    returns (next: nat, submitted: set<string>, tasks: set<string>, ghost cut: nat)
    requires Window(o, s, q, i, cut0, next0, submitted0, tasks0) && s.workset == s.visited && i <= next0
    ensures next == |q| && Window(o, s, q, i, cut, next, submitted, tasks)
  {
    hide *;
    WindowFacts(o, s, q, i, cut0, next0, submitted0, tasks0);
    submitted, tasks, next, cut := submitted0, tasks0, |q|, cut0;
    var k := next0;
    while k < |q| && |s.workset| + |submitted| < o.maxFiles
      invariant next0 <= k <= |q|
      invariant Window(o, s, q, i, cut, k, submitted, tasks)
      invariant cut == k || |s.workset| + |submitted| == o.maxFiles
    {
      var added := if Eligible(o, q[k]) && q[k].file !in s.visited then {q[k].file} else {};
      WindowScans(o, s, q, i, k, k, submitted, tasks, added);
      submitted, tasks := submitted + added, tasks + added;
      k := k + 1;
      cut := k;
      WindowFacts(o, s, q, i, cut, k, submitted, tasks);
    }
    WindowCloses(o, s, q, i, cut, k, submitted, tasks);
  }

  lemma WindowFacts(o: Options, s: State, q: seq<Item>, i: nat, cut: nat, next: nat, submitted: set<string>,
                    tasks: set<string>)
    requires Window(o, s, q, i, cut, next, submitted, tasks)
    ensures next <= |q| && |s.workset| + |submitted| <= o.maxFiles
    ensures cut == next || |s.workset| + |submitted| == o.maxFiles
  {
  }

  lemma WindowCloses(o: Options, s: State, q: seq<Item>, i: nat, cut: nat, k: nat, submitted: set<string>,
                     tasks: set<string>)
    requires Window(o, s, q, i, cut, k, submitted, tasks) && (k == |q| || |s.workset| + |submitted| >= o.maxFiles)
    ensures Window(o, s, q, i, cut, |q|, submitted, tasks)
  {
    hide Eligible;
  }

  // ---------- Termination ----------

  /** How far the recorded depths can still fall. */
  ghost function Slack(o: Options, s: State, universe: seq<string>): nat {
    if universe == [] then 0
    else (if universe[0] in s.depths then s.depths[universe[0]] else o.maxDepth + 2) + Slack(o, s, universe[1..])
  }

  lemma {:induction false} SlackFalls(o: Options, s: State, s': State, universe: seq<string>, file: string)
    requires forall f :: f in s.depths ==> f in s'.depths && s'.depths[f] <= s.depths[f]
    requires forall f :: f in s'.depths && f !in s.depths ==> s'.depths[f] < o.maxDepth + 2
    ensures Slack(o, s', universe) <= Slack(o, s, universe)
    ensures file in universe && file in s'.depths && (file in s.depths ==> s'.depths[file] < s.depths[file]) ==>
              Slack(o, s', universe) < Slack(o, s, universe)
  {
    if universe != [] {
      SlackFalls(o, s, s', universe[1..], file);
    }
  }

  lemma EnqueueSlack(o: Options, s: State, q: seq<Item>, parent: string, item: Item, universe: seq<string>)
    requires item.file in universe && item.depth <= o.maxDepth + 1
    requires forall f :: f in s.depths ==> f in universe
    ensures var (s', q') := Enqueue(o, s, q, parent, item);
            && Slack(o, s', universe) <= Slack(o, s, universe)
            && (q' != q ==> Slack(o, s', universe) < Slack(o, s, universe))
            && (forall f :: f in s'.depths ==> f in universe)
  {
    hide OutOfScope, Slack;
    SlackFalls(o, s, Enqueue(o, s, q, parent, item).0, universe, item.file);
  }

  lemma {:induction false} EnqueueAllSlack(o: Options, s: State, q: seq<Item>, parent: string, items: seq<Item>,
                                           universe: seq<string>)
    requires forall x :: x in items ==> x.file in universe && x.depth <= o.maxDepth + 1
    requires forall f :: f in s.depths ==> f in universe
    ensures var (s', q') := EnqueueAll(o, s, q, parent, items);
            && Slack(o, s', universe) <= Slack(o, s, universe)
            && (q' != q ==> Slack(o, s', universe) < Slack(o, s, universe))
            && (forall f :: f in s'.depths ==> f in universe)
    decreases |items|
  {
    hide Enqueue, Slack;
    if items != [] {
      var n := |items| - 1;
      assert items == items[..n] + [items[n]] && items[n] in items;
      EnqueueAllSlack(o, s, q, parent, items[..n], universe);
      var (s1, q1) := EnqueueAll(o, s, q, parent, items[..n]);
      EnqueueSlack(o, s1, q1, parent, items[n], universe);
    }
  }

  lemma {:induction false} Enumerate(names: set<string>) returns (list: seq<string>)
    ensures forall f :: f in names <==> f in list
    decreases |names|
  {
    list := [];
    if names != {} {
      var f :| f in names;
      list := Enumerate(names - {f});
      list := [f] + list;
    }
  }

  // ---------- One iteration ----------

  ghost predicate Running(o: Options, s: State, q: seq<Item>, i: nat, cut: nat, next: nat, submitted: set<string>,
                          tasks: set<string>, universe: seq<string>, clean: bool)
  {
    && Working(o, s, q, i, None, clean) && Window(o, s, q, i, cut, next, submitted, tasks) && i <= next
    && (forall f :: f in s.depths ==> f in universe)
    && (clean ==> Traced(o, s))
  }

  lemma TracedSame(o: Options, s: State, s': State)
    requires Traced(o, s) && s'.visited == s.visited && s'.dependencies == s.dependencies
    ensures Traced(o, s')
  {
  }

  /** Expanding a file records everything it names. */
  lemma TracedExpand(o: Options, s: State, file: string, s': State)
    requires Traced(o, s) && s'.visited == s.visited + {file}
    requires forall f :: f != file ==> Dependencies(s', f) == Dependencies(s, f)
    requires file != "" ==> forall c :: c in o.calls(file) ==> c.file in Dependencies(s', file)
    ensures Traced(o, s')
  {
  }

  /** The variant of the worklist falls: new entries cost slack, old ones are used up. */
  ghost predicate Falls(o: Options, s: State, q: seq<Item>, s': State, q': seq<Item>, universe: seq<string>) {
    Slack(o, s', universe) < Slack(o, s, universe) || (Slack(o, s', universe) == Slack(o, s, universe) && q' == q)
  }

  function Level(names: seq<string>, depth: nat): seq<Item> {
    seq(|names|, i requires 0 <= i < |names| => Item(names[i], depth))
  }

  lemma LevelItems(names: seq<string>, depth: nat)
    ensures forall x :: x in Level(names, depth) ==> x.depth == depth && x.file in names
    ensures forall f :: f in names ==> exists x :: x in Level(names, depth) && x.file == f
  {
    forall f | f in names ensures exists x :: x in Level(names, depth) && x.file == f {
      var i :| 0 <= i < |names| && names[i] == f;
      assert Level(names, depth)[i].file == f;
    }
  }

  lemma RunRoots(o: Options, s: State, roots: seq<string>, universe: seq<string>, clean: bool)
    requires Sound(o, s) && (clean ==> AllSettled(o, s))
    requires forall f :: f in roots || f in s.depths ==> f in universe
    ensures var (s', q) := EnqueueAll(o, s, [], "", Level(roots, 0));
            && Running(o, s', q, 0, 0, 0, {}, {}, universe, clean)
            && (forall f :: f in roots ==> f in s'.depths && s'.depths[f] == 0)
            && s'.visited == s.visited
  {
    LevelItems(roots, 0);
    assert Working(o, s, [], 0, None, clean) by { hide Settled, Sound, Traced; }
    assert clean ==> Traced(o, s);
    hide *;
    WorksetSize(o, s);
    WindowStarts(o, s);
    EnqueueAllWorks(o, s, [], 0, "", Level(roots, 0), None, clean);
    EnqueueAllSlack(o, s, [], "", Level(roots, 0), universe);
    var (s', q) := EnqueueAll(o, s, [], "", Level(roots, 0));
    ExtendsFacts(s, [], s', q, "");
    WindowExtends(o, s, [], 0, 0, 0, {}, {}, s', q);
    if clean {
      TracedSame(o, s, s');
    }
    RunningHolds(o, s', q, 0, 0, 0, {}, {}, universe, clean);
    forall f | f in roots ensures f in s'.depths && s'.depths[f] == 0 {
      var x :| x in Level(roots, 0) && x.file == f;
    }
  }

  lemma WorksetSize(o: Options, s: State)
    requires Sound(o, s)
    ensures |s.workset| <= o.maxFiles && s.workset == s.visited
  {
  }

  lemma WindowStarts(o: Options, s: State)
    requires |s.workset| <= o.maxFiles
    ensures Window(o, s, [], 0, 0, 0, {}, {})
  {
  }

  lemma ExtendsFacts(s: State, q: seq<Item>, s': State, q': seq<Item>, parent: string)
    requires Extends(s, q, s', q', parent)
    ensures s'.visited == s.visited && s'.workset == s.workset && q <= q'
  {
  }

  lemma RunningHolds(o: Options, s: State, q: seq<Item>, i: nat, cut: nat, next: nat, submitted: set<string>,
                     tasks: set<string>, universe: seq<string>, clean: bool)
    requires Working(o, s, q, i, None, clean) && Window(o, s, q, i, cut, next, submitted, tasks) && i <= next
    requires (forall f :: f in s.depths ==> f in universe) && (clean ==> Traced(o, s))
    ensures Running(o, s, q, i, cut, next, submitted, tasks, universe, clean)
  {
  }

  /** A visited file reached at a smaller depth passes the improvement on. */
  lemma RunRevisit(o: Options, s: State, q: seq<Item>, i: nat, cut: nat, submitted: set<string>, tasks: set<string>,
                   universe: seq<string>, clean: bool)
    requires Running(o, s, q, i, cut, |q|, submitted, tasks, universe, clean) && i < |q| && q[i].file in s.visited
    ensures var items := Level(Identifiers.Unique(Dependencies(s, q[i].file)), q[i].depth + 1);
            var (s', q') := EnqueueAll(o, s, q, "", items);
            Running(o, s', q', i + 1, cut, |q|, submitted, tasks, universe, clean) && Falls(o, s, q, s', q', universe)
  {
    hide Working, Window, EnqueueAll, Slack, Traced;
    var item := q[i];
    var items := Level(Identifiers.Unique(Dependencies(s, item.file)), item.depth + 1);
    LevelItems(Identifiers.Unique(Dependencies(s, item.file)), item.depth + 1);
    Popped(o, s, q, i, clean);
    RevisitFacts(o, s, q, i, clean);
    forall x | x in items ensures x.file in universe {
    }
    ExpandWorks(o, s, q, i + 1, "", item, items, clean);
    EnqueueAllWorks(o, s, q, i + 1, "", items, Some(item.file), clean);
    var (s', q') := EnqueueAll(o, s, q, "", items);
    EnqueueAllSlack(o, s, q, "", items, universe);
    WindowSkips(o, s, q, i, cut, |q|, submitted, tasks);
    WindowExtends(o, s, q, i + 1, cut, |q|, submitted, tasks, s', q');
    if clean {
      TracedSame(o, s, s');
    }
  }

  lemma RevisitFacts(o: Options, s: State, q: seq<Item>, i: nat, clean: bool)
    requires Working(o, s, q, i, None, clean) && i < |q| && q[i].file in s.visited
    ensures q[i].file in s.depths && s.depths[q[i].file] <= q[i].depth <= o.maxDepth
    ensures forall d :: d in Dependencies(s, q[i].file) ==> d in s.depths
  {
    hide Settled, Awaits;
  }

  lemma RunSkip(o: Options, s: State, q: seq<Item>, i: nat, cut: nat, submitted: set<string>, tasks: set<string>,
                universe: seq<string>, clean: bool)
    requires Running(o, s, q, i, cut, |q|, submitted, tasks, universe, clean) && i < |q| && q[i].file !in s.visited
    requires !Eligible(o, q[i]) || |s.workset| >= o.maxFiles
    requires q[i].file in o.gitlinks || q[i].file !in o.files
             || Diagnostic(q[i].file, Obstacle(o, q[i])) in s.diagnostics
    ensures Running(o, s, q, i + 1, cut, |q|, submitted, tasks, universe, clean)
  {
    WindowSkips(o, s, q, i, cut, |q|, submitted, tasks);
    assert Working(o, s, q, i + 1, None, clean) by {
      hide Working, Window;
      SkippedIsSettled(o, s, q, i, clean);
    }
    hide Working, Window, Eligible;
  }

  lemma RunReport(o: Options, s: State, q: seq<Item>, i: nat, cut: nat, next: nat, submitted: set<string>,
                  tasks: set<string>, universe: seq<string>, clean: bool, file: string, code: Code)
    requires Running(o, s, q, i, cut, next, submitted, tasks, universe, clean) && True(o, s, Diagnostic(file, code))
    ensures var s' := Report(s, file, code);
            && Running(o, s', q, i, cut, next, submitted, tasks, universe, clean)
            && Diagnostic(file, code) in s'.diagnostics
            && Slack(o, s', universe) == Slack(o, s, universe)
  {
    hide Working, Window, Slack;
    ReportWorks(o, s, q, i, None, file, code, clean);
    WindowExtends(o, s, q, i, cut, next, submitted, tasks, Report(s, file, code), q);
    SlackFalls(o, s, Report(s, file, code), universe, file);
    SlackFalls(o, Report(s, file, code), s, universe, file);
    if clean {
      TracedSame(o, s, Report(s, file, code));
    }
  }

  /** What stands against a captured file is true. */
  lemma ObstacleIsTrue(o: Options, s: State, q: seq<Item>, i: nat, clean: bool)
    requires Working(o, s, q, i, None, clean) && i < |q| && q[i].file !in s.visited
    requires q[i].file in o.files && q[i].file !in o.gitlinks
    requires !Eligible(o, q[i]) || |s.workset| >= o.maxFiles
    ensures True(o, s, Diagnostic(q[i].file, Obstacle(o, q[i])))
  {
    hide OutOfScope, Settled, Awaits, Names;
  }

  lemma WorkingFacts(o: Options, s: State, q: seq<Item>, i: nat, clean: bool)
    requires Working(o, s, q, i, None, clean) && i < |q|
    ensures q[i].file in s.depths && s.depths[q[i].file] <= q[i].depth <= o.maxDepth + 1 && Sound(o, s)
  {
    hide Settled, Awaits, Sound;
  }

  /** An admitted file was submitted, and expanding it keeps the run going. */
  lemma RunExpand(o: Options, s: State, q: seq<Item>, i: nat, cut: nat, submitted: set<string>, tasks: set<string>,
                  universe: seq<string>, clean: bool)
    requires Running(o, s, q, i, cut, |q|, submitted, tasks, universe, clean) && i < |q|
    requires Eligible(o, q[i]) && q[i].file !in s.visited && |s.workset| < o.maxFiles
    requires forall x :: x in o.calls(q[i].file) ==> x.file in universe
    ensures q[i].file in tasks
    ensures var file := q[i].file;
            var admitted := Admit(o, s, file);
            var (s', q') := EnqueueAll(o, admitted, q, file, Deeper(o.calls(file), q[i].depth));
            && Sound(o, admitted)
            && Running(o, s', q', i + 1, cut, |q|, submitted - {file}, tasks, universe, clean)
            && Falls(o, s, q, s', q', universe)
            && s'.visited == s.visited + {file}
  {
    hide Working, Window, EnqueueAll, Slack, Eligible, Sound, DropLimits, Traced, Deeper;
    var item := q[i];
    var file := item.file;
    var items := Deeper(o.calls(file), item.depth);
    WindowCovers(o, s, q, i, cut, submitted, tasks);
    WorkingFacts(o, s, q, i, clean);
    SoundFacts(o, s);
    EligibleFacts(o, item);
    WindowAdmits(o, s, q, i, cut, |q|, submitted, tasks);
    Popped(o, s, q, i, clean);
    AdmitWorks(o, s, q, i, clean);
    var admitted := Admit(o, s, file);
    AdmitAwaits(o, s, q, i + 1, file);
    WorkingSound(o, admitted, q, i + 1, Some(file), clean);
    assert Dependencies(admitted, file) == [];
    DeeperItems(o.calls(file), item.depth);
    ExpandWorks(o, admitted, q, i + 1, file, item, items, clean);
    EnqueueAllWorks(o, admitted, q, i + 1, file, items, Some(file), clean);
    var (s', q') := EnqueueAll(o, admitted, q, file, items);
    EnqueueAllSlack(o, admitted, q, file, items, universe);
    SlackSame(o, s, admitted, universe);
    WindowExtends(o, admitted, q, i + 1, cut, |q|, submitted - {file}, tasks, s', q');
    if clean {
      CallsRecorded(o.calls(file), item.depth, Dependencies(s', file), file);
      TracedExpand(o, s, file, s');
    }
  }

  lemma CallsRecorded(calls: seq<Call>, depth: nat, recorded: seq<string>, file: string)
    requires file != "" ==> forall x :: x in Deeper(calls, depth) ==> x.file in recorded
    ensures file != "" ==> forall c :: c in calls ==> c.file in recorded
  {
    forall c | c in calls ensures file != "" ==> c.file in recorded {
      var k :| 0 <= k < |calls| && calls[k] == c;
      assert Deeper(calls, depth)[k] in Deeper(calls, depth);
    }
  }

  lemma AdmitAwaits(o: Options, s: State, q: seq<Item>, i: nat, file: string)
    ensures Awaits(s, q, i, file) ==> Awaits(Admit(o, s, file), q, i, file)
  {
    hide DropLimits;
  }

  lemma WorkingSound(o: Options, s: State, q: seq<Item>, i: nat, busy: Option<string>, clean: bool)
    requires Working(o, s, q, i, busy, clean)
    ensures Sound(o, s)
  {
  }

  lemma SlackSame(o: Options, s: State, s': State, universe: seq<string>)
    requires s'.depths == s.depths
    ensures Slack(o, s', universe) == Slack(o, s, universe)
  {
    SlackFalls(o, s, s', universe, "");
    SlackFalls(o, s', s, universe, "");
  }

  /** A run that has consumed its queue has settled everything. */
  lemma RunEnds(o: Options, s: State, q: seq<Item>, cut: nat, next: nat, submitted: set<string>, tasks: set<string>,
                universe: seq<string>, clean: bool)
    requires Running(o, s, q, |q|, cut, next, submitted, tasks, universe, clean)
    ensures Sound(o, s) && (clean ==> AllSettled(o, s))
  {
    hide Settled, Sound;
  }

  /** Recorded depths only improve. */
  ghost predicate Lower(s: State, s': State) {
    forall f :: f in s.depths ==> f in s'.depths && s'.depths[f] <= s.depths[f]
  }

  lemma {:induction false} EnqueueAllLower(o: Options, s: State, q: seq<Item>, parent: string, items: seq<Item>)
    ensures var (s', q') := EnqueueAll(o, s, q, parent, items);
            && Lower(s, s') && s'.visited == s.visited && q <= q'
            && forall d :: d in s'.diagnostics ==> d in s.diagnostics || d.code == SourceScope
    decreases |items|
  {
    hide Enqueue;
    if items != [] {
      var n := |items| - 1;
      EnqueueAllLower(o, s, q, parent, items[..n]);
      var (s1, q1) := EnqueueAll(o, s, q, parent, items[..n]);
      EnqueueExtends(o, s1, q1, parent, items[n]);
    }
  }

  lemma LowerTransitive(s: State, t: State, u: State)
    requires Lower(s, t) && Lower(t, u)
    ensures Lower(s, u)
  {
  }

  /** Roots already recorded at depth 0 are not queued again. */
  lemma {:induction false} KnownRoots(o: Options, s: State, items: seq<Item>)
    requires forall x :: x in items ==> x.depth == 0 && x.file in s.depths && s.depths[x.file] == 0
    ensures EnqueueAll(o, s, [], "", items) == (s, [])
    decreases |items|
  {
    if items != [] {
      var n := |items| - 1;
      assert items == items[..n] + [items[n]] && items[n] in items;
      KnownRoots(o, s, items[..n]);
    }
  }

  /** Every file is recorded as a root. */
  ghost predicate Rooted(s: State, files: seq<string>) {
    forall f :: f in files ==> f in s.depths && s.depths[f] == 0
  }

  ghost predicate OnlyScopeReported(s: State, s': State) {
    forall d :: d in s'.diagnostics ==> d in s.diagnostics || d.code == SourceScope
  }

  /** The state once every root is registered and nothing is traversed. */
  function WithRoots(o: Options, s: State, files: seq<string>): State {
    EnqueueAll(o, s, [], "", Level(Identifiers.Unique(files), 0)).0
  }

  lemma WithRootsIs(o: Options, s: State, files: seq<string>)
    ensures WithRoots(o, s, files) == EnqueueAll(o, s, [], "", Level(Identifiers.Unique(files), 0)).0
  {
  }

  lemma ScopeReported(s: State, s': State)
    requires forall d :: d in s'.diagnostics ==> d in s.diagnostics || d.code == SourceScope
    ensures OnlyScopeReported(s, s')
  {
  }

  /** A set of names that no exploration of these files leaves. */
  lemma Universe(o: Options, s: State, files: seq<string>) returns (universe: seq<string>)
    ensures forall f :: f in Identifiers.Unique(files) || f in s.depths ==> f in universe
    ensures forall f, x :: f in o.files && x in o.calls(f) ==> x.file in universe
  {
    universe := Enumerate(
      (set f | f in files) + s.depths.Keys + (set f, c | f in o.files && c in o.calls(f) :: c.file));
  }

  lemma KnownFiles(o: Options, s: State, files: seq<string>)
    ensures Rooted(s, files) ==> EnqueueAll(o, s, [], "", Level(Identifiers.Unique(files), 0)) == (s, [])
  {
    if Rooted(s, files) {
      KnownLevel(o, s, files);
    }
  }

  lemma KnownLevel(o: Options, s: State, files: seq<string>)
    requires Rooted(s, files)
    ensures EnqueueAll(o, s, [], "", Level(Identifiers.Unique(files), 0)) == (s, [])
  {
    LevelItems(Identifiers.Unique(files), 0);
    KnownRoots(o, s, Level(Identifiers.Unique(files), 0));
  }

  lemma LowerRooted(s: State, s': State, files: seq<string>)
    requires Lower(s, s') && Rooted(s, files)
    ensures Rooted(s', files)
  {
  }

  lemma UniqueRooted(s: State, files: seq<string>)
    requires forall f :: f in Identifiers.Unique(files) ==> f in s.depths && s.depths[f] == 0
    ensures Rooted(s, files)
  {
  }

  lemma SameDepths(s: State, s': State)
    requires s'.depths == s.depths
    ensures Lower(s, s')
  {
  }

  lemma SkipFalls(o: Options, s: State, q: seq<Item>, s': State, universe: seq<string>)
    requires Slack(o, s', universe) <= Slack(o, s, universe)
    ensures Falls(o, s, q, s', q, universe)
  {
  }

  lemma FallsDecreases(o: Options, s: State, q: seq<Item>, s': State, q': seq<Item>, universe: seq<string>)
    requires Falls(o, s, q, s', q', universe)
    ensures Slack(o, s', universe) < Slack(o, s, universe)
            || (Slack(o, s', universe) == Slack(o, s, universe) && q' == q)
  {
  }

  lemma RunFacts(o: Options, s: State, q: seq<Item>, i: nat, cut: nat, next: nat, submitted: set<string>,
                 tasks: set<string>, universe: seq<string>, clean: bool)
    requires Running(o, s, q, i, cut, next, submitted, tasks, universe, clean)
    ensures Sound(o, s) && s.workset == s.visited && i <= next <= |q|
    ensures Working(o, s, q, i, None, clean) && Window(o, s, q, i, cut, next, submitted, tasks)
    ensures (forall f :: f in s.depths ==> f in universe) && (clean ==> Traced(o, s))
  {
    hide Settled;
  }

  // ---------- How far recorded files lie ----------

  /** The steps a call costs. */
  function Cost(c: Call): nat {
    if c.samePackage then 0 else 1
  }

  /** A chain of at most `n` calls of visited files, which costs at most `d` steps, leads from
      a root to the file. */
  ghost predicate Within(o: Options, roots: set<string>, visited: set<string>, file: string, d: int, n: nat)
    decreases n
  {
    d >= 0
    && (file in roots
        || (n > 0 && exists p, c :: p in visited && c in o.calls(p) && c.file == file
                                    && Within(o, roots, visited, p, d - Cost(c), n - 1)))
  }

  ghost predicate Near(o: Options, roots: set<string>, visited: set<string>, file: string, d: int) {
    exists n: nat :: Within(o, roots, visited, file, d, n)
  }

  /** No file is recorded but roots and what visited files name, and none at a smaller depth
      than some chain of calls to it costs. */
  ghost predicate Anchored(o: Options, roots: set<string>, s: State) {
    forall f :: f in s.depths ==> Near(o, roots, s.visited, f, s.depths[f])
  }

  lemma {:induction false} WithinMore(o: Options, roots: set<string>, visited: set<string>, file: string, d: int,
                                      n: nat, roots': set<string>, visited': set<string>, d': int)
    requires Within(o, roots, visited, file, d, n) && roots <= roots' && visited <= visited' && d <= d'
    ensures Within(o, roots', visited', file, d', n)
    decreases n
  {
    hide Within, Cost;
    WithinPositive(o, roots, visited, file, d, n);
    if file in roots {
      WithinRoot(o, roots', visited', file, d', n);
    } else {
      var p, c := WithinBefore(o, roots, visited, file, d, n);
      WithinMore(o, roots, visited, p, d - Cost(c), n - 1, roots', visited', d' - Cost(c));
      WithinNext(o, roots', visited', p, c, d', n);
    }
  }

  lemma WithinPositive(o: Options, roots: set<string>, visited: set<string>, file: string, d: int, n: nat)
    requires Within(o, roots, visited, file, d, n)
    ensures d >= 0
  {}

  lemma WithinRoot(o: Options, roots: set<string>, visited: set<string>, file: string, d: int, n: nat)
    requires file in roots && d >= 0
    ensures Within(o, roots, visited, file, d, n)
  {}

  lemma WithinBefore(o: Options, roots: set<string>, visited: set<string>, file: string, d: int, n: nat)
    returns (p: string, c: Call)
    requires Within(o, roots, visited, file, d, n) && file !in roots
    ensures n > 0 && p in visited && c in o.calls(p) && c.file == file
    ensures Within(o, roots, visited, p, d - Cost(c), n - 1)
  {
    p, c :| p in visited && c in o.calls(p) && c.file == file && Within(o, roots, visited, p, d - Cost(c), n - 1);
  }

  lemma WithinNext(o: Options, roots: set<string>, visited: set<string>, p: string, c: Call, d: int, n: nat)
    requires n > 0 && p in visited && c in o.calls(p) && Within(o, roots, visited, p, d - Cost(c), n - 1)
    ensures Within(o, roots, visited, c.file, d, n)
  {
    assert d - Cost(c) >= 0;
  }

  lemma NearMore(o: Options, roots: set<string>, visited: set<string>, file: string, d: int, roots': set<string>,
                 visited': set<string>, d': int)
    requires Near(o, roots, visited, file, d) && roots <= roots' && visited <= visited' && d <= d'
    ensures Near(o, roots', visited', file, d')
  {
    var n: nat :| Within(o, roots, visited, file, d, n);
    WithinMore(o, roots, visited, file, d, n, roots', visited', d');
  }

  lemma NearNext(o: Options, roots: set<string>, visited: set<string>, p: string, d: int, c: Call)
    requires Near(o, roots, visited, p, d) && p in visited && c in o.calls(p)
    ensures Near(o, roots, visited, c.file, d + Cost(c))
  {
    var n: nat :| Within(o, roots, visited, p, d, n);
    assert Within(o, roots, visited, p, d + Cost(c) - Cost(c), n);
    assert n + 1 - 1 == n;
    NotNegative(o, roots, visited, p, d, n);
    assert Within(o, roots, visited, c.file, d + Cost(c), n + 1);
  }

  lemma NotNegative(o: Options, roots: set<string>, visited: set<string>, file: string, d: int, n: nat)
    requires Within(o, roots, visited, file, d, n)
    ensures d >= 0
  {}

  /** Recorded files and waiting entries are no nearer than their depths say. */
  ghost predicate Grounded(o: Options, roots: set<string>, s: State, q: seq<Item>) {
    Anchored(o, roots, s) && forall x :: x in q ==> Near(o, roots, s.visited, x.file, x.depth)
  }

  lemma {:induction false} EnqueueAllGrounded(o: Options, roots: set<string>, s: State, q: seq<Item>, parent: string,
                                              items: seq<Item>)
    requires Grounded(o, roots, s, q)
    requires forall x :: x in items ==> Near(o, roots, s.visited, x.file, x.depth)
    ensures var (s', q') := EnqueueAll(o, s, q, parent, items); Grounded(o, roots, s', q') && s'.visited == s.visited
    decreases |items|
  {
    hide Near, OutOfScope;
    if items != [] {
      var n := |items| - 1;
      assert items == items[..n] + [items[n]] && items[n] in items;
      EnqueueAllGrounded(o, roots, s, q, parent, items[..n]);
    }
  }

  /** What the roots of a call stand for in `Grounded`: any that anchored the builder before
      it, and its own. */
  ghost predicate Rising(o: Options, s0: State, files: seq<string>, s: State, q: seq<Item>) {
    forall roots: set<string> :: Anchored(o, roots, s0) ==> Grounded(o, roots + (set f | f in files), s, q)
  }

  lemma RisingRoots(o: Options, s: State, files: seq<string>)
    ensures var (s', q') := EnqueueAll(o, s, [], "", Level(Identifiers.Unique(files), 0));
      Rising(o, s, files, s', q')
  {
    hide Near, EnqueueAll;
    var items := Level(Identifiers.Unique(files), 0);
    LevelItems(Identifiers.Unique(files), 0);
    forall roots: set<string> | Anchored(o, roots, s)
      ensures var (s', q') := EnqueueAll(o, s, [], "", items); Grounded(o, roots + (set f | f in files), s', q')
    {
      var more := roots + set f | f in files;
      forall f | f in s.depths ensures Near(o, more, s.visited, f, s.depths[f]) {
        NearMore(o, roots, s.visited, f, s.depths[f], more, s.visited, s.depths[f]);
      }
      forall x | x in items ensures Near(o, more, s.visited, x.file, x.depth) {
        NearRoot(o, more, s.visited, x.file);
      }
      EnqueueAllGrounded(o, more, s, [], "", items);
    }
  }

  lemma NearRoot(o: Options, roots: set<string>, visited: set<string>, file: string)
    requires file in roots
    ensures Near(o, roots, visited, file, 0)
  {
    assert Within(o, roots, visited, file, 0, 0);
  }

  lemma RisingRevisit(o: Options, s0: State, files: seq<string>, s: State, q: seq<Item>, i: nat)
    requires Rising(o, s0, files, s, q) && i < |q| && Sound(o, s) && q[i].file in s.visited
    ensures var items := Level(Identifiers.Unique(Dependencies(s, q[i].file)), q[i].depth + 1);
      var (s', q') := EnqueueAll(o, s, q, "", items); Rising(o, s0, files, s', q')
  {
    hide Near, EnqueueAll, Anchored;
    var names := Identifiers.Unique(Dependencies(s, q[i].file));
    var items := Level(names, q[i].depth + 1);
    LevelItems(names, q[i].depth + 1);
    forall roots: set<string> | Anchored(o, roots, s0)
      ensures var (s', q') := EnqueueAll(o, s, q, "", items); Grounded(o, roots + (set f | f in files), s', q')
    {
      var more := roots + set f | f in files;
      forall x | x in items ensures Near(o, more, s.visited, x.file, x.depth) {
        DependencyNear(o, more, s, q[i], x.file);
      }
      EnqueueAllGrounded(o, more, s, q, "", items);
    }
  }

  lemma DependencyNear(o: Options, roots: set<string>, s: State, item: Item, file: string)
    requires Sound(o, s) && item.file in s.visited && file in Dependencies(s, item.file)
    requires Near(o, roots, s.visited, item.file, item.depth)
    ensures Near(o, roots, s.visited, file, item.depth + 1)
  {
    hide Near, True;
    assert Names(o, item.file, file);
    var c :| c in o.calls(item.file) && c.file == file;
    NearNext(o, roots, s.visited, item.file, item.depth, c);
    NearMore(o, roots, s.visited, file, item.depth + Cost(c), roots, s.visited, item.depth + 1);
  }

  lemma RisingExpand(o: Options, s0: State, files: seq<string>, s: State, q: seq<Item>, i: nat)
    requires Rising(o, s0, files, s, q) && i < |q|
    ensures var admitted := Admit(o, s, q[i].file);
      var (s', q') := EnqueueAll(o, admitted, q, q[i].file, Deeper(o.calls(q[i].file), q[i].depth));
      Rising(o, s0, files, admitted, q) && Rising(o, s0, files, s', q')
  {
    hide Near, EnqueueAll, Deeper;
    var item := q[i];
    var a := Admit(o, s, item.file);
    var items := Deeper(o.calls(item.file), item.depth);
    forall roots: set<string> | Anchored(o, roots, s0)
      ensures Grounded(o, roots + (set f | f in files), a, q)
      ensures var (s', q') := EnqueueAll(o, a, q, item.file, items);
        Grounded(o, roots + (set f | f in files), s', q')
    {
      var more := roots + set f | f in files;
      forall f | f in s.depths ensures Near(o, more, a.visited, f, s.depths[f]) {
        NearMore(o, more, s.visited, f, s.depths[f], more, a.visited, s.depths[f]);
      }
      forall x | x in q ensures Near(o, more, a.visited, x.file, x.depth) {
        NearMore(o, more, s.visited, x.file, x.depth, more, a.visited, x.depth);
      }
      assert item in q;
      forall x | x in items ensures Near(o, more, a.visited, x.file, x.depth) {
        DeeperNear(o, more, a.visited, item, x);
      }
      EnqueueAllGrounded(o, more, a, q, item.file, items);
    }
  }

  lemma DeeperNear(o: Options, roots: set<string>, visited: set<string>, item: Item, x: Item)
    requires item.file in visited && Near(o, roots, visited, item.file, item.depth)
    requires x in Deeper(o.calls(item.file), item.depth)
    ensures Near(o, roots, visited, x.file, x.depth)
  {
    hide Near;
    var calls := o.calls(item.file);
    var k :| 0 <= k < |calls| && Deeper(calls, item.depth)[k] == x;
    NearNext(o, roots, visited, item.file, item.depth, calls[k]);
  }

  lemma RisingSame(o: Options, s0: State, files: seq<string>, s: State, q: seq<Item>, s': State)
    requires Rising(o, s0, files, s, q) && s'.depths == s.depths && s'.visited == s.visited
    ensures Rising(o, s0, files, s', q)
  {
    hide Near;
    forall roots: set<string> | Anchored(o, roots, s0) ensures Grounded(o, roots + (set f | f in files), s', q) {
      assert Grounded(o, roots + (set f | f in files), s, q);
    }
  }

  lemma RisingEnds(o: Options, s0: State, files: seq<string>, s: State, q: seq<Item>, roots: set<string>)
    requires Rising(o, s0, files, s, q)
    ensures Anchored(o, roots, s0) ==> Anchored(o, roots + (set f | f in files), s)
  {
    hide Near;
  }

  lemma OnlyLevel(o: Options, s: State, files: seq<string>)
    ensures forall x :: x in EnqueueAll(o, s, [], "", Level(Identifiers.Unique(files), 0)).1 ==> x.depth == 0
  {
    hide EnqueueAll;
    LevelItems(Identifiers.Unique(files), 0);
    QueuesItems(o, s, [], "", Level(Identifiers.Unique(files), 0));
  }

  lemma {:induction false} QueuesItems(o: Options, s: State, q: seq<Item>, parent: string, items: seq<Item>)
    ensures forall x :: x in EnqueueAll(o, s, q, parent, items).1 ==> x in q || x in items
    decreases |items|
  {
    hide OutOfScope;
    if items != [] {
      QueuesItems(o, s, q, parent, items[..|items| - 1]);
    }
  }

  lemma AllRise(o: Options, s0: State, files: seq<string>, s: State, q: seq<Item>)
    requires Rising(o, s0, files, s, q)
    ensures forall roots: set<string> :: Anchored(o, roots, s0) ==> Anchored(o, roots + (set f | f in files), s)
  {
    hide Rising, Anchored;
    forall roots: set<string> | Anchored(o, roots, s0) ensures Anchored(o, roots + (set f | f in files), s) {
      RisingEnds(o, s0, files, s, q, roots);
    }
  }

  /** The package of a root that was visited since `s0` is recorded at depth 0 as well. */
  ghost predicate PackageKept(o: Options, s0: State, s: State, files: seq<string>) {
    forall f, c :: f in files && f in s.visited && f !in s0.visited && c in o.calls(f) && c.samePackage ==>
      c.file in s.depths && s.depths[c.file] == 0
  }

  lemma PackageNone(o: Options, s0: State, s: State, files: seq<string>)
    requires s.visited == s0.visited
    ensures PackageKept(o, s0, s, files)
  {}

  lemma PackageStep(o: Options, s0: State, s: State, s': State, files: seq<string>, item: Item)
    requires PackageKept(o, s0, s, files) && Lower(s, s') && s'.visited <= s.visited + {item.file}
    requires item.file in files ==> item.depth == 0
    requires item.file !in s.visited && item.file in s'.visited ==>
               forall c :: c in o.calls(item.file) ==>
                 c.file in s'.depths && s'.depths[c.file] <= item.depth + if c.samePackage then 0 else 1
    ensures PackageKept(o, s0, s', files)
  {
  }

  /** While roots stay at depth 0, nothing that is queued later is a root. */
  lemma {:induction false} LaterNotRoots(o: Options, s: State, q: seq<Item>, parent: string, items: seq<Item>,
                                         files: seq<string>)
    requires Rooted(s, files)
    ensures var (s', q') := EnqueueAll(o, s, q, parent, items);
      Rooted(s', files) && q <= q' && forall k :: |q| <= k < |q'| ==> q'[k].file !in files
    decreases |items|
  {
    hide OutOfScope;
    if items != [] {
      LaterNotRoots(o, s, q, parent, items[..|items| - 1], files);
    }
  }

  /** Whatever is enqueued ends at its depth at most. */
  lemma DeeperReached(o: Options, s: State, q: seq<Item>, parent: string, calls: seq<Call>, depth: nat)
    ensures var s' := EnqueueAll(o, s, q, parent, Deeper(calls, depth)).0;
      forall c :: c in calls ==> c.file in s'.depths && s'.depths[c.file] <= depth + Cost(c)
  {
    hide EnqueueAll;
    EnqueueAllReaches(o, s, q, parent, Deeper(calls, depth));
    var s' := EnqueueAll(o, s, q, parent, Deeper(calls, depth)).0;
    forall c | c in calls ensures c.file in s'.depths && s'.depths[c.file] <= depth + Cost(c) {
      var k :| 0 <= k < |calls| && calls[k] == c;
      assert Deeper(calls, depth)[k] in Deeper(calls, depth);
    }
  }

  lemma {:induction false} EnqueueAllReaches(o: Options, s: State, q: seq<Item>, parent: string, items: seq<Item>)
    ensures var s' := EnqueueAll(o, s, q, parent, items).0;
      Lower(s, s') && forall x :: x in items ==> x.file in s'.depths && s'.depths[x.file] <= x.depth
    decreases |items|
  {
    hide Enqueue;
    if items != [] {
      var n := |items| - 1;
      assert items == items[..n] + [items[n]];
      EnqueueAllReaches(o, s, q, parent, items[..n]);
      var (s1, q1) := EnqueueAll(o, s, q, parent, items[..n]);
      EnqueueExtends(o, s1, q1, parent, items[n]);
    }
  }

  // ---------- The builder ----------

  /** How a call ends; `NotSubmitted` is the error the window must rule out. */
  datatype Outcome = Done | Cancelled | Rejected(file: string) | NotSubmitted(file: string)

  class Builder {
    const o: Options
    var depths: map<string, nat>
    var dependencies: map<string, seq<string>>
    var visited: set<string>
    var workset: set<string>
    var diagnostics: seq<Diagnostic>
    var parsed: seq<string>

    constructor (options: Options)
      ensures o == options && Sound(o, S()) && AllSettled(o, S())
      ensures S() == State(map[], map[], {}, {}, [], [])
    {
      o := options;
      depths, dependencies, visited, workset, diagnostics, parsed := map[], map[], {}, {}, [], [];
    }

    function S(): State
      reads this
    {
      State(depths, dependencies, visited, workset, diagnostics, parsed)
    }

    method EnqueueOne(q: seq<Item>, parent: string, item: Item) returns (q': seq<Item>)
      modifies this
      ensures (S(), q') == Enqueue(o, old(S()), q, parent, item)
    {
      q' := q;
      if parent != "" {
        dependencies := dependencies[parent := Dependencies(S(), parent) + [item.file]];
      }
      if item.file in depths && depths[item.file] <= item.depth {
        return;
      }
      var seen := item.file in depths;
      depths := depths[item.file := item.depth];
      if OutOfScope(o, item.file) {
        if !seen {
          diagnostics := diagnostics + [Diagnostic(item.file, SourceScope)];
        }
        return;
      }
      q' := q + [item];
    }

    method EnqueueEach(q: seq<Item>, parent: string, items: seq<Item>) returns (q': seq<Item>)
      modifies this
      ensures (S(), q') == EnqueueAll(o, old(S()), q, parent, items)
    {
      hide Enqueue;
      q' := q;
      ghost var s := S();
      for k := 0 to |items|
        invariant (S(), q') == EnqueueAll(o, s, q, parent, items[..k])
      {
        assert items[..k + 1][..k] == items[..k];
        q' := EnqueueOne(q', parent, items[k]);
      }
      assert items[..|items|] == items;
    }

    /** One popped entry: pass an improvement on, skip, report, or admit and expand. */
    method Consume(q: seq<Item>, i: nat, submitted: set<string>, tasks: set<string>, ghost cut: nat,
                   ghost universe: seq<string>, ghost clean: bool, ghost s0: State, ghost files: seq<string>)
      returns (stop: Outcome, q': seq<Item>, submitted': set<string>)
      requires Running(o, S(), q, i, cut, |q|, submitted, tasks, universe, clean) && i < |q|
      requires forall f, x :: f in o.files && x in o.calls(f) ==> x.file in universe
      requires Rising(o, s0, files, S(), q) && Rooted(S(), files)
      modifies this
      ensures Sound(o, S()) && (stop.Done? || stop.Rejected?)
      ensures Rising(o, s0, files, S(), q') && Rooted(S(), files)
      ensures q <= q' && forall k :: |q| <= k < |q'| ==> q'[k].file !in files
      ensures visited <= old(visited) + {q[i].file}
      ensures stop.Done? && q[i].file !in old(visited) && q[i].file in visited ==>
                forall c :: c in o.calls(q[i].file) ==>
                  c.file in depths && depths[c.file] <= q[i].depth + if c.samePackage then 0 else 1
      ensures stop.Done? ==>
                && Running(o, S(), q', i + 1, cut, |q|, submitted', tasks, universe, clean)
                && Falls(o, old(S()), q, S(), q', universe)
      ensures Lower(old(S()), S()) && old(visited) <= visited
      ensures stop.Rejected? ==> stop.file in visited - old(visited) && o.rejected(stop.file)
      ensures forall f :: f in visited - old(visited) && o.rejected(f) ==> stop == Rejected(f)
    {
      hide Running, Sound, Falls, EnqueueAll, Lower, DropLimits, Level, OutOfScope, Slack, Working, Window, Rising,
        True;
      SameDepths(S(), S());
      ghost var s := S();
      RunFacts(o, s, q, i, cut, |q|, submitted, tasks, universe, clean);
      stop, q', submitted' := Done, q, submitted;
      var item := q[i];
      var name := item.file;
      if name in visited {
        RunRevisit(o, s, q, i, cut, submitted, tasks, universe, clean);
        var items := Level(Identifiers.Unique(Dependencies(S(), name)), item.depth + 1);
        EnqueueAllLower(o, s, q, "", items);
        RisingRevisit(o, s0, files, s, q, i);
        LaterNotRoots(o, s, q, "", items, files);
        q' := EnqueueEach(q, "", items);
      } else if name in o.gitlinks {
        RunSkip(o, s, q, i, cut, submitted, tasks, universe, clean);
        SkipFalls(o, s, q, s, universe);
      } else if name !in o.files {
        RunSkip(o, s, q, i, cut, submitted, tasks, universe, clean);
        SkipFalls(o, s, q, s, universe);
      } else if o.ignored(name) {
        ObstacleIsTrue(o, s, q, i, clean);
        RunReport(o, s, q, i, cut, |q|, submitted, tasks, universe, clean, name, BoundaryUnavailable);
        diagnostics := diagnostics + [Diagnostic(name, BoundaryUnavailable)];
        RunSkip(o, S(), q, i, cut, submitted, tasks, universe, clean);
        SkipFalls(o, s, q, S(), universe);
        SameDepths(s, S());
        RisingSame(o, s0, files, s, q, S());
      } else if item.depth > o.maxDepth {
        ObstacleIsTrue(o, s, q, i, clean);
        RunReport(o, s, q, i, cut, |q|, submitted, tasks, universe, clean, name, ExpansionLimit);
        diagnostics := diagnostics + [Diagnostic(name, ExpansionLimit)];
        RunSkip(o, S(), q, i, cut, submitted, tasks, universe, clean);
        SkipFalls(o, s, q, S(), universe);
        SameDepths(s, S());
        RisingSame(o, s0, files, s, q, S());
      } else if |workset| >= o.maxFiles {
        ObstacleIsTrue(o, s, q, i, clean);
        RunReport(o, s, q, i, cut, |q|, submitted, tasks, universe, clean, name, FileLimit);
        diagnostics := diagnostics + [Diagnostic(name, FileLimit)];
        RunSkip(o, S(), q, i, cut, submitted, tasks, universe, clean);
        SkipFalls(o, s, q, S(), universe);
        SameDepths(s, S());
        RisingSame(o, s0, files, s, q, S());
      } else {
        stop, q', submitted' := Expand(q, i, submitted, tasks, cut, universe, clean, s0, files);
        return;
      }
      RunFacts(o, S(), q', i + 1, cut, |q|, submitted', tasks, universe, clean);
    }

    /** Admits the entry's file and enqueues what it names. */
    method Expand(q: seq<Item>, i: nat, submitted: set<string>, tasks: set<string>, ghost cut: nat,
                  ghost universe: seq<string>, ghost clean: bool, ghost s0: State, ghost files: seq<string>)
      returns (stop: Outcome, q': seq<Item>, submitted': set<string>)
      requires Running(o, S(), q, i, cut, |q|, submitted, tasks, universe, clean) && i < |q|
      requires Eligible(o, q[i]) && q[i].file !in visited && |workset| < o.maxFiles
      requires forall f, x :: f in o.files && x in o.calls(f) ==> x.file in universe
      requires Rising(o, s0, files, S(), q) && Rooted(S(), files)
      modifies this
      ensures Sound(o, S()) && stop == (if o.rejected(q[i].file) then Rejected(q[i].file) else Done)
      ensures Rising(o, s0, files, S(), q') && Rooted(S(), files)
      ensures q <= q' && forall k :: |q| <= k < |q'| ==> q'[k].file !in files
      ensures visited == old(visited) + {q[i].file} && Lower(old(S()), S())
      ensures stop.Done? ==>
                && Running(o, S(), q', i + 1, cut, |q|, submitted', tasks, universe, clean)
                && Falls(o, old(S()), q, S(), q', universe)
                && forall c :: c in o.calls(q[i].file) ==>
                     c.file in depths && depths[c.file] <= q[i].depth + if c.samePackage then 0 else 1
    {
      hide Running, Sound, Falls, EnqueueAll, Lower, DropLimits, Deeper, OutOfScope, Slack, Working, Window, Rising,
        True, Eligible;
      ghost var s := S();
      RunFacts(o, s, q, i, cut, |q|, submitted, tasks, universe, clean);
      stop, q', submitted' := Done, q, submitted;
      var item := q[i];
      var name := item.file;
      EligibleFacts(o, item);
      RunExpand(o, s, q, i, cut, submitted, tasks, universe, clean);
      RisingExpand(o, s0, files, s, q, i);
      diagnostics := DropLimits(diagnostics, name);
      visited := visited + {name};
      workset := workset + {name};
      if o.language(name) {
        parsed := parsed + [name];
      }
      assert S() == Admit(o, s, name);
      SameDepths(s, S());
      if name !in tasks {
        stop := NotSubmitted(name);
        return;
      }
      submitted' := submitted - {name};
      if o.rejected(name) {
        stop := Rejected(name);
        return;
      }
      EnqueueAllLower(o, S(), q, name, Deeper(o.calls(name), item.depth));
      LaterNotRoots(o, S(), q, name, Deeper(o.calls(name), item.depth), files);
      DeeperReached(o, S(), q, name, o.calls(name), item.depth);
      LowerTransitive(s, S(), EnqueueAll(o, S(), q, name, Deeper(o.calls(name), item.depth)).0);
      q' := EnqueueEach(q, name, Deeper(o.calls(name), item.depth));
      RunFacts(o, S(), q', i + 1, cut, |q|, submitted', tasks, universe, clean);
    }

    lemma Fields()
      ensures S().depths == depths && S().visited == visited && S().workset == workset
    {
    }

    /** Registers every root before anything is traversed. */
    method EnqueueRoots(files: seq<string>, ghost universe: seq<string>, ghost clean: bool) returns (q: seq<Item>)
      requires Sound(o, S()) && (clean ==> AllSettled(o, S()))
      requires forall f :: f in Identifiers.Unique(files) || f in depths ==> f in universe
      modifies this
      ensures Running(o, S(), q, 0, 0, 0, {}, {}, universe, clean)
      ensures Rooted(S(), files) && Lower(old(S()), S()) && visited == old(visited)
      ensures Rooted(old(S()), files) ==> q == [] && S() == old(S())
      ensures OnlyScopeReported(old(S()), S()) && S() == WithRoots(o, old(S()), files)
      ensures Rising(o, old(S()), files, S(), q) && forall x :: x in q ==> x.depth == 0
    {
      hide *;
      hide Level;
      ghost var s := S();
      Fields();
      var roots := Identifiers.Unique(files);
      RunRoots(o, s, roots, universe, clean);
      EnqueueAllLower(o, s, [], "", Level(roots, 0));
      KnownFiles(o, s, files);
      RisingRoots(o, s, files);
      OnlyLevel(o, s, files);
      q := EnqueueEach([], "", Level(roots, 0));
      UniqueRooted(S(), files);
      ScopeReported(s, S());
      WithRootsIs(o, s, files);
      Fields();
    }

    /** Explores `files` and their dependencies. The context may be cancelled before
        any iteration, or after the last. Whatever happened before: the budget holds,
        and no file is expanded without having been submitted. A call that succeeds
        on a settled builder leaves it settled. */
    method Add(files: seq<string>, cancelAfter: Option<nat>) returns (outcome: Outcome)
      requires Sound(o, S())
      modifies this
      ensures Sound(o, S())
      ensures !outcome.NotSubmitted?
      ensures outcome.Done? && AllSettled(o, old(S())) ==> AllSettled(o, S())
      ensures Rooted(S(), files) && Lower(old(S()), S()) && old(visited) <= visited
      ensures cancelAfter == Some(0) ==>
                outcome.Cancelled? && visited == old(visited) && OnlyScopeReported(old(S()), S())
                && S() == WithRoots(o, old(S()), files)
      ensures Rooted(old(S()), files) ==> S() == old(S()) && (cancelAfter == None ==> outcome.Done?)
      ensures outcome.Rejected? ==> outcome.file in visited - old(visited) && o.rejected(outcome.file)
      ensures forall f :: f in visited - old(visited) && o.rejected(f) ==> outcome == Rejected(f)
      ensures outcome.Cancelled? ==> cancelAfter.Some?
      ensures forall roots: set<string> :: Anchored(o, roots, old(S())) ==>
                Anchored(o, roots + (set f | f in files), S())
      ensures outcome.Done? ==>
                PackageKept(o, old(S()), S(), files)
    {
      hide *;
      ghost var s0 := S();
      Fields();
      assert s0.visited == visited;
      ghost var clean := AllSettled(o, s0);
      ghost var universe := Universe(o, s0, files);
      var q := EnqueueRoots(files, universe, clean);
      var next: nat, submitted, tasks := 0, {}, {};
      ghost var cut: nat := 0;
      var i := 0;
      RunFacts(o, S(), q, i, cut, next, submitted, tasks, universe, clean);
      Fields();
      assert S().visited == s0.visited;
      PackageNone(o, s0, S(), files);
      while i < |q|
        invariant i <= |q| && Running(o, S(), q, i, cut, next, submitted, tasks, universe, clean)
        invariant Lower(s0, S()) && Rooted(S(), files)
        invariant s0.visited <= visited && (i == 0 ==> visited == s0.visited && OnlyScopeReported(s0, S()))
        invariant i == 0 ==> S() == WithRoots(o, s0, files)
        invariant Rooted(s0, files) ==> q == [] && S() == s0
        invariant cancelAfter == Some(0) ==> i == 0
        invariant forall f :: f in visited - s0.visited ==> !o.rejected(f)
        invariant Rising(o, s0, files, S(), q)
        invariant forall k :: 0 <= k < |q| && q[k].file in files ==> q[k].depth == 0
        invariant PackageKept(o, s0, S(), files)
        decreases Slack(o, S(), universe), |q| - i
      {
        ghost var s, before := S(), q;
        Fields();
        RunFacts(o, s, q, i, cut, next, submitted, tasks, universe, clean);
        if cancelAfter == Some(i) {
          AllRise(o, s0, files, S(), q);
          return Cancelled;
        }
        next, submitted, tasks, cut := SubmitQueued(o, S(), q, next, submitted, tasks, i, cut);
        RunningHolds(o, s, q, i, cut, next, submitted, tasks, universe, clean);
        outcome, q, submitted := Consume(q, i, submitted, tasks, cut, universe, clean, s0, files);
        AllRise(o, s0, files, S(), q);
        LowerTransitive(s0, s, S());
        LowerRooted(s, S(), files);
        if !outcome.Done? {
          return;
        }
        Fields();
        PackageStep(o, s0, s, S(), files, before[i]);
        FallsDecreases(o, s, before, S(), q, universe);
        i := i + 1;
        RunFacts(o, S(), q, i, cut, next, submitted, tasks, universe, clean);
      }
      RunEnds(o, S(), q, cut, next, submitted, tasks, universe, clean);
      AllRise(o, s0, files, S(), q);
      outcome := if cancelAfter == Some(i) then Cancelled else Done;
    }
  }

  /** What a settled builder must already say of files that are registered at depth 0
      without being traversed: a visited file's dependencies are close enough, and for any
      other that was captured it is reported what stands against it there. */
  ghost predicate Resumable(o: Options, s: State, files: seq<string>) {
    forall f :: f in files ==> Resumes(o, s, files, f)
  }

  ghost predicate Resumes(o: Options, s: State, files: seq<string>, f: string) {
    (f in s.depths ==> s.depths[f] > 0) ==>
      if f in s.visited then
        forall d :: d in Dependencies(s, f) ==> d in files || (d in s.depths && s.depths[d] <= 1)
      else
        f in o.files && f !in o.gitlinks && !OutOfScope(o, f) ==>
          Diagnostic(f, Obstacle(o, Item(f, 0))) in s.diagnostics
  }

  /** Repeating a call, however the first one ended, succeeds at once and changes nothing:
      what is unsettled after a cancelled call stays so. */
  method Retry(b: Builder, files: seq<string>, cancelAfter: Option<nat>)
    returns (first: Outcome, second: Outcome, ghost between: State)
    requires Sound(b.o, b.S())
    modifies b
    ensures second == Done && Sound(b.o, b.S()) && b.S() == between && Lower(old(b.S()), between)
    ensures first == Done && AllSettled(b.o, old(b.S())) ==> AllSettled(b.o, between)
    ensures cancelAfter == Some(0) ==> first == Cancelled && between == WithRoots(b.o, old(b.S()), files)
  {
    hide *;
    first := b.Add(files, cancelAfter);
    between := b.S();
    second := b.Add(files, None);
  }

  /** Success alone is not enough: a call that is cancelled at once has registered its roots,
      and the same call again leaves the builder settled exactly when every file was at
      depth 0 before or needs nothing at that depth. */
  method RetryAfterCancel(b: Builder, files: seq<string>) returns (first: Outcome, second: Outcome)
    requires Sound(b.o, b.S()) && AllSettled(b.o, b.S())
    modifies b
    ensures first == Cancelled && second == Done && Sound(b.o, b.S())
    ensures AllSettled(b.o, b.S()) <==> Resumable(b.o, old(b.S()), files)
  {
    hide Sound, AllSettled, Resumable, WithRoots;
    ghost var s := b.S();
    ghost var between;
    first, second, between := Retry(b, files, Some(0));
    RegisteredIsSettled(b.o, s, files);
  }

  /** What registering roots changes. */
  ghost predicate Registered(o: Options, s: State, s': State, names: set<string>) {
    && s'.visited == s.visited && s'.dependencies == s.dependencies
    && s'.depths.Keys == s.depths.Keys + names
    && (forall f :: f in s'.depths ==> s'.depths[f] == if f in names then 0 else s.depths[f])
    && (forall d :: d in s'.diagnostics <==>
          d in s.diagnostics
          || (d.code == SourceScope && d.path in names && d.path !in s.depths && OutOfScope(o, d.path)))
  }

  lemma RegisterOne(o: Options, s: State, q: seq<Item>, item: Item)
    requires item.depth == 0
    ensures Registered(o, s, Enqueue(o, s, q, "", item).0, {item.file})
  {
    hide OutOfScope;
  }

  lemma RegisterTwice(o: Options, s: State, t: State, u: State, a: set<string>, b: set<string>)
    requires Registered(o, s, t, a) && Registered(o, t, u, b)
    ensures Registered(o, s, u, a + b)
  {
  }

  lemma {:induction false} RegisterAll(o: Options, s: State, q: seq<Item>, items: seq<Item>)
    requires forall x :: x in items ==> x.depth == 0
    ensures Registered(o, s, EnqueueAll(o, s, q, "", items).0, set x | x in items :: x.file)
    decreases |items|
  {
    if items == [] {
      assert (set x | x in items :: x.file) == {};
    } else {
      hide Registered, Enqueue;
      var init, last := items[..|items| - 1], items[|items| - 1];
      assert items == init + [last];
      RegisterAll(o, s, q, init);
      var (s1, q1) := EnqueueAll(o, s, q, "", init);
      RegisterOne(o, s1, q1, last);
      RegisterTwice(o, s, s1, Enqueue(o, s1, q1, "", last).0, set x | x in init :: x.file, {last.file});
      assert (set x | x in items :: x.file) == (set x | x in init :: x.file) + {last.file};
    }
  }

  lemma RegisteredIsSettled(o: Options, s: State, files: seq<string>)
    requires Sound(o, s) && AllSettled(o, s)
    ensures AllSettled(o, WithRoots(o, s, files)) <==> Resumable(o, s, files)
  {
    var items, s' := Level(Identifiers.Unique(files), 0), WithRoots(o, s, files);
    LevelItems(Identifiers.Unique(files), 0);
    RegisterAll(o, s, [], items);
    assert (set x | x in items :: x.file) == set f | f in files;
    assert Traced(o, s') by { TracedSame(o, s, s'); }
    forall f | f in s'.depths ensures Settled(o, s', f) <==> (f in files ==> Resumes(o, s, files, f)) {
      hide WithRoots, Level;
      RegisteredFile(o, s, s', files, f);
    }
    hide *;
    hide Settled, Resumes, Traced;
    assert forall f :: f in files ==> f in s'.depths;
  }

  lemma RegisteredFile(o: Options, s: State, s': State, files: seq<string>, f: string)
    requires Sound(o, s) && AllSettled(o, s) && f in s'.depths && Registered(o, s, s', set g | g in files)
    ensures Settled(o, s', f) <==> (f in files ==> Resumes(o, s, files, f))
  {
    hide Expandable, Traced, OutOfScope, Names, True;
    assert Dependencies(s', f) == Dependencies(s, f);
    if f in s.depths {
      assert Settled(o, s, f);
    }
    if OutOfScope(o, f) && f !in s.depths {
      assert Diagnostic(f, SourceScope) in s'.diagnostics;
    }
  }

  /** In particular a builder that has seen nothing loses a root to be expanded. */
  method CancelledRootIsLost(options: Options, file: string) returns (b: Builder, outcome: Outcome)
    requires Expandable(options, file, 0)
    ensures fresh(b) && outcome == Done && b.o == options && Sound(options, b.S())
    ensures !AllSettled(options, b.S())
  {
    b := new Builder(options);
    var first;
    assert file in [file];
    first, outcome := RetryAfterCancel(b, [file]);
  }

  /** A run of successful calls on one builder is always settled. */
  method AddAll(options: Options, batches: seq<seq<string>>) returns (b: Builder, ok: bool)
    ensures fresh(b) && b.o == options && Sound(options, b.S())
    ensures ok ==> AllSettled(options, b.S()) && forall k, f :: 0 <= k < |batches| && f in batches[k] ==> f in b.depths
    ensures ok <==> forall f :: f in b.visited ==> !options.rejected(f)
    ensures Anchored(options, set k, f | 0 <= k < |batches| && f in batches[k] :: f, b.S())
  {
    hide Sound, AllSettled, Lower, Anchored, PackageKept;
    b := new Builder(options);
    ok := true;
    ghost var roots: set<string> := {};
    NothingAnchored(options, b.S());
    for k := 0 to |batches|
      invariant fresh(b) && b.o == options && Sound(options, b.S()) && AllSettled(options, b.S())
      invariant forall m, f :: 0 <= m < k && f in batches[m] ==> f in b.depths
      invariant forall f :: f in b.visited ==> !options.rejected(f)
      invariant Anchored(options, roots, b.S())
      invariant roots == set m, f | 0 <= m < k && f in batches[m] :: f
    {
      ghost var s := b.S();
      var outcome := b.Add(batches[k], None);
      roots := roots + set f | f in batches[k];
      MoreAnchored(options, roots, set m, f | 0 <= m < |batches| && f in batches[m] :: f, b.S());
      KeepsRecorded(s, b.S());
      if !outcome.Done? {
        ok := false;
        return;
      }
    }
  }

  lemma NothingAnchored(o: Options, s: State)
    requires s.depths == map[]
    ensures Anchored(o, {}, s)
  {}

  lemma MoreAnchored(o: Options, roots: set<string>, roots': set<string>, s: State)
    requires Anchored(o, roots, s) && roots <= roots'
    ensures Anchored(o, roots', s)
  {
    hide Near;
    forall f | f in s.depths ensures Near(o, roots', s.visited, f, s.depths[f]) {
      NearMore(o, roots, s.visited, f, s.depths[f], roots', s.visited, s.depths[f]);
    }
  }

  lemma KeepsRecorded(s: State, s': State)
    requires Lower(s, s')
    ensures forall f :: f in s.depths ==> f in s'.depths
  {
  }
}
