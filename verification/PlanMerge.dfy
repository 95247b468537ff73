/** Merging the validation requests that several components make of one executor and
    check, and the order in which they may arrive. */
module PlanMerge {
  import opened Basics
  import opened Identifiers

  datatype Scope = Skipped | Focused | Full | Unavailable

  /** One check of one executor: who asked for it, on what, and the command it runs. */
  datatype Spec = Spec(check: string, requesters: seq<string>, scope: Scope, files: seq<string>,
                       command: seq<string>)

  function Variable(check: string): (int, string) {
    if check == "test" then (5, "TEST_FILES") else (4, "LINT_FILES")
  }

  /** The Make command of a check, with its file list when it is focused. */
  function Command(check: string, target: string, scope: Scope, files: seq<string>): (command: seq<string>)
    ensures scope.Focused? ==> |command| == 6
  {
    if scope.Skipped? || scope.Unavailable? then []
    else
      var command := ["make", "-f", "Makefile", target, "LINT_FILES=", "TEST_FILES="];
      if scope.Full? then command
      else command[Variable(check).0 := Variable(check).1 + "=" + Join(files, " ")]
  }

  /** What a request of one executor and check looks like; `target` is the executor's. */
  ghost predicate Request(r: Spec, check: string, target: string) {
    && r.check == check && r.requesters != [] && Increasing(r.requesters) && Increasing(r.files)
    && (!r.scope.Focused? ==> r.files == [])
    && r.command == Command(check, target, r.scope, r.files)
  }

  /** `appendValidationCheck` where the plan already holds the check. */
  function Merged(previous: Spec, spec: Spec): Spec
    requires previous.scope.Focused? ==> |previous.command| == 6
  {
    var sources := Union(previous.requesters, spec.requesters);
    var kept :=
      if previous.scope.Skipped? then spec
      else if spec.scope.Skipped? then previous
      else if previous.scope.Full? then previous
      else if spec.scope.Full? then spec
      else if previous.scope.Focused? && spec.scope.Focused? then
        var files := Union(previous.files, spec.files);
        var (at, variable) := Variable(previous.check);
        previous.(files := files, command := previous.command[at := variable + "=" + Join(files, " ")])
      else previous;
    kept.(requesters := sources)
  }

  // ---------- All requests together ----------

  /** Focused requests have the words of a command to put their files in. */
  predicate Ready(rs: seq<Spec>) {
    forall r :: r in rs && r.scope.Focused? ==> |r.command| == 6
  }

  /** Merging requests one after another. */
  function Fold(rs: seq<Spec>): Spec
    requires rs != [] && Ready(rs)
    ensures Fold(rs).scope.Focused? ==> |Fold(rs).command| == 6
  {
    if |rs| == 1 then rs[0] else
      assert forall r :: r in rs[..|rs| - 1] ==> r in rs;
      Merged(Fold(rs[..|rs| - 1]), rs[|rs| - 1])
  }

  function Requesters(rs: seq<Spec>): seq<string> {
    if rs == [] then [] else Requesters(rs[..|rs| - 1]) + rs[|rs| - 1].requesters
  }

  function Files(rs: seq<Spec>): seq<string> {
    if rs == [] then [] else Files(rs[..|rs| - 1]) + rs[|rs| - 1].files
  }

  /** The scope of the first request that is not skipped. */
  function FirstActive(rs: seq<Spec>): Scope {
    if rs == [] then Skipped
    else if FirstActive(rs[..|rs| - 1]).Skipped? then rs[|rs| - 1].scope
    else FirstActive(rs[..|rs| - 1])
  }

  predicate Asks(rs: seq<Spec>, scope: Scope) {
    exists r :: r in rs && r.scope == scope
  }

  /** A full request dominates; otherwise the first active one decides. */
  function TopScope(rs: seq<Spec>): Scope {
    if Asks(rs, Full) then Full else FirstActive(rs)
  }

  /** What the requests come to, whatever their number. */
  function Summary(rs: seq<Spec>, check: string, target: string): Spec {
    var files := if TopScope(rs).Focused? then Unique(Files(rs)) else [];
    Spec(check, Unique(Requesters(rs)), TopScope(rs), files, Command(check, target, TopScope(rs), files))
  }

  lemma {:induction false} FilesFrom(rs: seq<Spec>, x: string)
    ensures x in Files(rs) <==> exists r :: r in rs && x in r.files
    ensures x in Requesters(rs) <==> exists r :: r in rs && x in r.requesters
  {
    if rs != [] {
      var front, last := rs[..|rs| - 1], rs[|rs| - 1];
      FilesFrom(front, x);
      assert rs == front + [last];
      assert forall r :: r in rs <==> r in front || r == last;
    }
  }

  lemma UniqueUnion(a: seq<string>, b: seq<string>)
    ensures Union(Unique(a), b) == Unique(a + b)
  {
    IncreasingUnique(Union(Unique(a), b), Unique(a + b));
  }

  lemma UniqueSame(a: seq<string>)
    requires Increasing(a)
    ensures Unique(a) == a
  {
    IncreasingUnique(Unique(a), a);
  }

  lemma AsksLast(rs: seq<Spec>, scope: Scope)
    requires rs != []
    ensures Asks(rs, scope) <==> Asks(rs[..|rs| - 1], scope) || rs[|rs| - 1].scope == scope
  {
    assert rs == rs[..|rs| - 1] + [rs[|rs| - 1]];
  }

  lemma {:induction false} FirstActiveIs(rs: seq<Spec>)
    ensures FirstActive(rs).Skipped? <==> forall r :: r in rs ==> r.scope.Skipped?
    ensures !FirstActive(rs).Skipped? ==> Asks(rs, FirstActive(rs))
  {
    if rs != [] {
      FirstActiveIs(rs[..|rs| - 1]);
      assert rs == rs[..|rs| - 1] + [rs[|rs| - 1]];
    }
  }

  /** Unless a full request decides, requests without a file list carry no files. */
  lemma {:induction false} NoFiles(rs: seq<Spec>, check: string, target: string)
    requires forall r :: r in rs ==> Request(r, check, target)
    requires !Asks(rs, Focused)
    ensures Files(rs) == []
  {
    if rs != [] {
      var front, last := rs[..|rs| - 1], rs[|rs| - 1];
      assert rs == front + [last];
      assert last in rs;
      NoFiles(front, check, target);
    }
  }

  /** Merging one after another gives the summary. */
  lemma {:induction false} FoldIsSummary(rs: seq<Spec>, check: string, target: string)
    requires rs != [] && forall r :: r in rs ==> Request(r, check, target)
    ensures Ready(rs) && Fold(rs) == Summary(rs, check, target)
  {
    var front, last := rs[..|rs| - 1], rs[|rs| - 1];
    assert rs == front + [last];
    assert last in rs;
    if front == [] {
      OneIsSummary(rs, check, target);
    } else {
      FoldIsSummary(front, check, target);
      MergeIsSummary(rs, check, target);
    }
  }

  lemma OneIsSummary(rs: seq<Spec>, check: string, target: string)
    requires |rs| == 1 && Request(rs[0], check, target)
    ensures rs[0] == Summary(rs, check, target)
  {
    hide Increasing, Join;
    var none := rs[..|rs| - 1];
    assert none == [] && Requesters(none) == [] && Files(none) == [] && FirstActive(none) == Skipped;
    assert Requesters(rs) == Requesters(none) + rs[0].requesters == rs[0].requesters;
    assert Files(rs) == Files(none) + rs[0].files == rs[0].files;
    UniqueSame(rs[0].requesters);
    UniqueSame(rs[0].files);
    assert rs[0] in rs && rs == [rs[0]];
    assert FirstActive(rs) == rs[0].scope;
    AsksLast(rs, Full);
    assert !Asks(none, Full);
  }

  lemma MergeIsSummary(rs: seq<Spec>, check: string, target: string)
    requires |rs| > 1 && forall r :: r in rs ==> Request(r, check, target)
    ensures Merged(Summary(rs[..|rs| - 1], check, target), rs[|rs| - 1]) == Summary(rs, check, target)
  {
    hide Increasing, Unique, Union, Join;
    var front, last := rs[..|rs| - 1], rs[|rs| - 1];
    assert rs == front + [last] && last in rs;
    AsksLast(rs, Full);
    AsksLast(rs, Focused);
    FirstActiveIs(front);
    UniqueUnion(Requesters(front), last.requesters);
    UniqueUnion(Files(front), last.files);
    if !Asks(front, Focused) {
      NoFiles(front, check, target);
      UniqueSame(last.files);
      assert [] + last.files == last.files;
    }
    if !last.scope.Focused? {
      assert Files(front) + last.files == Files(front);
    }
  }

  // ---------- Order ----------

  /** Focused and unavailable requests together, with no full one to dominate them. */
  ghost predicate Mixed(rs: seq<Spec>) {
    Asks(rs, Focused) && Asks(rs, Unavailable) && !Asks(rs, Full)
  }

  ghost predicate SameRequests(a: seq<Spec>, b: seq<Spec>) {
    forall r :: r in a <==> r in b
  }

  /** The same requests come to the same check in any order and number. */
  lemma OrderDoesNotMatter(a: seq<Spec>, b: seq<Spec>, check: string, target: string)
    requires a != [] && b != [] && SameRequests(a, b) && !Mixed(a)
    requires forall r :: r in a ==> Request(r, check, target)
    ensures Ready(a) && Ready(b) && Fold(a) == Fold(b) == Summary(a, check, target)
  {
    FoldIsSummary(a, check, target);
    FoldIsSummary(b, check, target);
    forall scope ensures Asks(a, scope) == Asks(b, scope) {}
    FirstActiveIs(a);
    FirstActiveIs(b);
    forall x ensures x in Files(a) <==> x in Files(b) { FilesFrom(a, x); FilesFrom(b, x); }
    forall x ensures x in Requesters(a) <==> x in Requesters(b) { FilesFrom(a, x); FilesFrom(b, x); }
    IncreasingUnique(Unique(Files(a)), Unique(Files(b)));
    IncreasingUnique(Unique(Requesters(a)), Unique(Requesters(b)));
  }

  /** Where they are mixed, the order decides: the first active request wins. */
  lemma MixedOrderMatters(rs: seq<Spec>, check: string, target: string)
    requires Mixed(rs) && forall r :: r in rs ==> Request(r, check, target)
    ensures exists a, b ::
      && multiset(a) == multiset(rs) == multiset(b) && a != [] && b != []
      && Summary(a, check, target) != Summary(b, check, target)
  {
    var f :| 0 <= f < |rs| && rs[f].scope == Focused;
    var u :| 0 <= u < |rs| && rs[u].scope == Unavailable;
    var a := ToFront(rs, f);
    var b := ToFront(rs, u);
    assert Summary(a, check, target).scope == Focused && Summary(b, check, target).scope == Unavailable;
  }

  /** Moves one active request to the front, where it decides. */
  lemma ToFront(rs: seq<Spec>, i: nat) returns (a: seq<Spec>)
    requires i < |rs| && !rs[i].scope.Skipped? && !Asks(rs, Full)
    ensures multiset(a) == multiset(rs) && a != [] && TopScope(a) == rs[i].scope
  {
    var rest := rs[..i] + rs[i + 1..];
    a := [rs[i]] + rest;
    assert rs == rs[..i] + [rs[i]] + rs[i + 1..];
    FirstWins(rs[i], rest);
    assert forall r :: r in a ==> r in multiset(a) && r in rs;
  }

  lemma {:induction false} FirstWins(r: Spec, rs: seq<Spec>)
    requires !r.scope.Skipped?
    ensures FirstActive([r] + rs) == r.scope
    ensures Asks([r] + rs, Full) <==> r.scope == Full || Asks(rs, Full)
  {
    if rs == [] {
      assert [r] + rs == [r];
      assert [r][..0] == [];
    } else {
      FirstWins(r, rs[..|rs| - 1]);
      assert ([r] + rs)[..|rs|] == [r] + rs[..|rs| - 1];
    }
    assert forall x :: x in [r] + rs <==> x == r || x in rs;
  }

  /** What a summary says of the requests: who asked, how much, and on which files. */
  lemma SummaryMeans(rs: seq<Spec>, check: string, target: string, x: string)
    requires rs != [] && !Mixed(rs) && forall r :: r in rs ==> Request(r, check, target)
    ensures var s := Summary(rs, check, target);
      && (x in s.requesters <==> exists r :: r in rs && x in r.requesters)
      && (s.scope.Full? <==> Asks(rs, Full))
      && (s.scope.Skipped? <==> !Asks(rs, Full) && !Asks(rs, Focused) && !Asks(rs, Unavailable))
      && (s.scope.Focused? <==> Asks(rs, Focused) && !Asks(rs, Full))
      && (s.scope.Focused? ==> (x in s.files <==> exists r :: r in rs && x in r.files))
  {
    FilesFrom(rs, x);
    FirstActiveIs(rs);
    if !Asks(rs, Full) && !Asks(rs, Focused) && !Asks(rs, Unavailable) {
      forall r | r in rs ensures r.scope.Skipped? {
        assert !(r.scope == Full) && !(r.scope == Focused) && !(r.scope == Unavailable);
      }
    }
  }
}
