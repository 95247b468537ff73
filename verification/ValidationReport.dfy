/** Formatting, planning and executing a validation, and reading its report back: the
    reader's coverage and outcome rules accept whatever is published. */
module ValidationReport {
  import opened Basics
  import opened Identifiers
  import opened PlanMerge
  import opened ValidationPlan

  datatype Status = Passed | Failed | WasSkipped | WasUnavailable | Cancelled | Uncertain

  datatype Result = Result(spec: Spec, status: Status)

  datatype Results = Results(root: string, checks: seq<Result>)

  /** `preparation` holds the results of the formatting stage. */
  datatype Report = Report(components: seq<Results>, preparation: seq<Results>, consistent: bool, complete: bool,
                           passed: bool)

  predicate Finished(s: Status) {
    s == Passed || s == Failed || s == WasSkipped || s == WasUnavailable
  }

  predicate Succeeded(s: Status) {
    s == Passed || s == WasSkipped
  }

  // ---------- Reports as lists of items ----------

  datatype Item = Item(root: string, result: Result)

  function ItemsOf(group: Results): seq<Item> {
    seq(|group.checks|, i requires 0 <= i < |group.checks| => Item(group.root, group.checks[i]))
  }

  function Items(groups: seq<Results>): seq<Item> {
    if groups == [] then [] else Items(groups[..|groups| - 1]) + ItemsOf(groups[|groups| - 1])
  }

  lemma {:induction false} InItems(groups: seq<Results>, x: Item)
    ensures x in Items(groups) <==> exists g :: g in groups && g.root == x.root && x.result in g.checks
  {
    if groups != [] {
      var front, last := groups[..|groups| - 1], groups[|groups| - 1];
      InItems(front, x);
      assert groups == front + [last];
      if x in ItemsOf(last) {
        var i :| 0 <= i < |ItemsOf(last)| && ItemsOf(last)[i] == x;
        assert x.result == last.checks[i];
      }
      if last.root == x.root && x.result in last.checks {
        var i :| 0 <= i < |last.checks| && last.checks[i] == x.result;
        assert ItemsOf(last)[i] == x;
      }
    }
  }

  // ---------- What the reader accepts ----------

  ghost predicate Separate(items: seq<Item>) {
    forall i, j :: 0 <= i < j < |items| ==>
      items[i].root != items[j].root || items[i].result.spec.check != items[j].result.spec.check
  }

  /** Two items answer the same check for some component. */
  ghost predicate Overlap(a: Item, b: Item) {
    && a.result.spec.check == b.result.spec.check
    && exists x :: x in a.result.spec.requesters && x in b.result.spec.requesters
  }

  /** No two items answer the same check for the same component. */
  ghost predicate AnswersOnce(items: seq<Item>) {
    forall i, j :: 0 <= i < j < |items| ==> !Overlap(items[i], items[j])
  }

  ghost predicate Asked(items: seq<Item>, x: string, check: string) {
    exists item :: item in items && x in item.result.spec.requesters && item.result.spec.check == check
  }

  ghost predicate AnswersAll(items: seq<Item>, selected: set<string>) {
    forall item, x :: item in items && x in item.result.spec.requesters ==>
      forall check :: check in selected ==> Asked(items, x, check)
  }

  ghost predicate Shaped(items: seq<Item>, selected: set<string>) {
    && Separate(items) && AnswersOnce(items)
    && forall item :: item in items ==>
         && item.result.spec.check in selected
         && item.result.spec.requesters != [] && NoRepeat(item.result.spec.requesters)
  }

  /** What an executor reports that found its inputs changed and ran nothing. */
  predicate Stale(report: Report) {
    report.components == [] && !report.complete && !report.passed && !report.consistent
  }

  /** The report claims what the results of its checks say. */
  ghost predicate Consistent(report: Report) {
    var items := Items(report.components);
    && (report.complete <==> forall item :: item in items ==> Finished(item.result.status))
    && (report.passed <==> (report.consistent && forall item :: item in items ==> Succeeded(item.result.status)))
  }

  /** Formatting stopped before any check, or was all that was asked for. */
  ghost predicate PreparationOnly(report: Report, requested: set<string>) {
    && report.components == [] && "format" in requested
    && (requested <= {"format"} || !report.complete
        || exists item :: item in Items(report.preparation) && item.result.status == Failed)
  }

  /** The report claims no more than the results of its formatting say. */
  ghost predicate Warranted(report: Report) {
    var items := Items(report.preparation);
    && (report.complete ==> forall item :: item in items ==> Finished(item.result.status))
    && (report.passed ==> report.complete && forall item :: item in items ==> Succeeded(item.result.status))
  }

  ghost predicate Honest(report: Report, requested: set<string>) {
    Stale(report) || if PreparationOnly(report, requested) then Warranted(report) else Consistent(report)
  }

  /** Formatting results stand only in an answer to a request for them. */
  ghost predicate Preparation(groups: seq<Results>, requested: set<string>) {
    forall g :: g in groups ==>
      "format" in requested && g.checks != [] && forall r :: r in g.checks ==> r.spec.check == "format"
  }

  predicate Unsuccessful(s: Status) {
    s == Failed || s == Cancelled || s == Uncertain
  }

  /** Checks are evidence only behind formatting that did not go wrong. */
  ghost predicate FollowsFormatting(report: Report) {
    report.components != [] ==> forall item :: item in Items(report.preparation) ==> !Unsuccessful(item.result.status)
  }

  /** The reader's rules for the checks it asked for. */
  ghost predicate Acceptable(report: Report, requested: set<string>) {
    var selected := requested - {"format"};
    && selected <= {"lint", "test"}
    && (forall g :: g in report.components ==> g.checks != [])
    && Shaped(Items(report.components), selected)
    && AnswersAll(Items(report.components), selected)
    && Preparation(report.preparation, requested)
    && FollowsFormatting(report)
    && Honest(report, requested)
  }

  // ---------- Reading ----------

  /** What the reader has seen: executor and check pairs, and checks by requester. */
  datatype Seen = Seen(pairs: set<(string, string)>, coverage: map<string, set<string>>)

  ghost predicate Describes(seen: Seen, items: seq<Item>) {
    && (forall p :: p in seen.pairs <==> exists x :: x in items && p == (x.root, x.result.spec.check))
    && (forall x :: x in seen.coverage <==> exists item :: item in items && x in item.result.spec.requesters)
    && (forall x, check :: x in seen.coverage ==> (check in seen.coverage[x] <==> Asked(items, x, check)))
  }

  /** What an item must be beside those before it. */
  ghost predicate Fits(before: seq<Item>, item: Item, selected: set<string>) {
    var spec := item.result.spec;
    && spec.check in selected && spec.requesters != [] && NoRepeat(spec.requesters)
    && (forall b :: b in before ==> b.root != item.root || b.result.spec.check != spec.check)
    && (forall b :: b in before ==> !Overlap(b, item))
  }

  lemma ShapedNext(before: seq<Item>, item: Item, selected: set<string>)
    requires Shaped(before, selected)
    ensures Shaped(before + [item], selected) <==> Fits(before, item, selected)
  {
    hide Overlap, NoRepeat;
    var items := before + [item];
    if Shaped(items, selected) {
      forall b | b in before ensures b.root != item.root || b.result.spec.check != item.result.spec.check {
        var i :| 0 <= i < |before| && before[i] == b;
        assert items[i] == b && items[|before|] == item;
      }
      forall b | b in before ensures !Overlap(b, item) {
        var i :| 0 <= i < |before| && before[i] == b;
        assert items[i] == b && items[|before|] == item;
      }
      assert item in items;
    }
  }

  lemma FitsSeen(seen: Seen, before: seq<Item>, item: Item, selected: set<string>)
    requires Describes(seen, before)
    ensures var spec := item.result.spec; Fits(before, item, selected) <==>
      spec.check in selected && spec.requesters != [] && NoRepeat(spec.requesters)
      && (item.root, spec.check) !in seen.pairs
      && (forall x :: x in spec.requesters ==> Free(seen.coverage, x, spec.check))
  {
    var spec := item.result.spec;
    forall x | x in spec.requesters
      ensures Free(seen.coverage, x, spec.check) <==>
        forall b :: b in before && x in b.result.spec.requesters ==> b.result.spec.check != spec.check
    {
      assert x in seen.coverage ==> (spec.check in seen.coverage[x] <==> Asked(before, x, spec.check));
    }
  }

  /** The check is not yet answered for the component. */
  predicate Free(coverage: map<string, set<string>>, x: string, check: string) {
    x in coverage ==> check !in coverage[x]
  }

  function Covered(coverage: map<string, set<string>>, xs: seq<string>, check: string): map<string, set<string>> {
    map x | x in coverage.Keys + (set y | y in xs) ::
      (if x in coverage then coverage[x] else {}) + (if x in xs then {check} else {})
  }

  /** One check result: `ok` when it fits, with the enlarged record. */
  method Read(seen: Seen, item: Item, selected: set<string>, ghost before: seq<Item>)
    returns (ok: bool, after: Seen)
    requires Describes(seen, before) && Shaped(before, selected)
    ensures ok <==> Shaped(before + [item], selected)
    ensures ok ==> Describes(after, before + [item])
  {
    hide Describes, Shaped, Fits, NoRepeat;
    after := seen;
    ShapedNext(before, item, selected);
    FitsSeen(seen, before, item, selected);
    var spec := item.result.spec;
    if spec.check !in selected || (item.root, spec.check) in seen.pairs || spec.requesters == []
       || !NoRepeat(spec.requesters) {
      return false, seen;
    }
    var coverage;
    ok, coverage := Cover(seen.coverage, spec.requesters, spec.check);
    if ok {
      after := Seen(seen.pairs + {(item.root, spec.check)}, coverage);
      DescribesNext(seen, before, item);
    }
  }

  /** Enters a check for each of its requesters, unless one has it already. */
  method Cover(before: map<string, set<string>>, requesters: seq<string>, check: string)
    returns (ok: bool, coverage: map<string, set<string>>)
    requires NoRepeat(requesters)
    ensures ok <==> forall x :: x in requesters ==> Free(before, x, check)
    ensures ok ==> coverage == Covered(before, requesters, check)
  {
    hide Covered, Free, NoRepeat;
    coverage := before;
    CoveredNone(before, check);
    assert requesters[..0] == [];
    for i := 0 to |requesters|
      invariant coverage == Covered(before, requesters[..i], check)
      invariant forall k :: 0 <= k < i ==> Free(before, requesters[k], check)
    {
      var x := requesters[i];
      CoveredNext(before, requesters, i, check);
      if x in coverage && check in coverage[x] {
        return false, before;
      }
      coverage := coverage[x := (if x in coverage then coverage[x] else {}) + {check}];
    }
    assert requesters[..|requesters|] == requesters;
    ok := true;
  }

  lemma CoveredNext(coverage: map<string, set<string>>, xs: seq<string>, i: nat, check: string)
    requires i < |xs| && NoRepeat(xs)
    ensures var c := Covered(coverage, xs[..i], check);
      && (xs[i] in c && check in c[xs[i]] <==> !Free(coverage, xs[i], check))
      && Covered(coverage, xs[..i + 1], check)
         == c[xs[i] := (if xs[i] in c then c[xs[i]] else {}) + {check}]
  {
    var c, d := Covered(coverage, xs[..i], check), Covered(coverage, xs[..i + 1], check);
    assert xs[..i + 1] == xs[..i] + [xs[i]];
    assert xs[i] !in xs[..i];
    var e := c[xs[i] := (if xs[i] in c then c[xs[i]] else {}) + {check}];
    assert d.Keys == e.Keys;
    forall x | x in d ensures d[x] == e[x] {
      assert x in xs[..i + 1] <==> x in xs[..i] || x == xs[i];
    }
    assert d == e;
  }

  lemma CoveredNone(coverage: map<string, set<string>>, check: string)
    ensures Covered(coverage, [], check) == coverage
  {
    var c := Covered(coverage, [], check);
    assert c.Keys == coverage.Keys;
    assert forall x :: x in c ==> c[x] == coverage[x];
  }

  lemma DescribesNext(seen: Seen, before: seq<Item>, item: Item)
    requires Describes(seen, before)
    ensures var spec := item.result.spec;
      Describes(Seen(seen.pairs + {(item.root, spec.check)}, Covered(seen.coverage, spec.requesters, spec.check)),
                before + [item])
  {
    var spec := item.result.spec;
    var items := before + [item];
    var after := Seen(seen.pairs + {(item.root, spec.check)}, Covered(seen.coverage, spec.requesters, spec.check));
    assert forall b :: b in items <==> b in before || b == item;
    assert item in items;
    forall x, check
      ensures Asked(items, x, check) <==> Asked(before, x, check) || (x in spec.requesters && check == spec.check)
    {
    }
    forall x, check | x in after.coverage
      ensures check in after.coverage[x] <==> Asked(items, x, check)
    {
      assert x !in seen.coverage ==> !Asked(before, x, check);
    }
  }

  /** The checks of one group, in order. */
  method ReadGroup(seen: Seen, group: Results, selected: set<string>, ghost before: seq<Item>)
    returns (ok: bool, after: Seen)
    requires Describes(seen, before) && Shaped(before, selected)
    ensures ok <==> Shaped(before + ItemsOf(group), selected)
    ensures ok ==> Describes(after, before + ItemsOf(group))
  {
    hide Describes, Shaped;
    after := seen;
    var items := ItemsOf(group);
    assert before + items[..0] == before;
    for i := 0 to |group.checks|
      invariant Describes(after, before + items[..i]) && Shaped(before + items[..i], selected)
    {
      assert before + items[..i + 1] == before + items[..i] + [items[i]];
      ok, after := Read(after, items[i], selected, before + items[..i]);
      if !ok {
        assert before + items == before + items[..i + 1] + items[i + 1..];
        ShapedPrefix(before + items[..i + 1], items[i + 1..], selected);
        return;
      }
    }
    assert items[..|group.checks|] == items;
    ok := true;
  }

  lemma ShapedPrefix(items: seq<Item>, more: seq<Item>, selected: set<string>)
    ensures Shaped(items + more, selected) ==> Shaped(items, selected)
  {
    hide Overlap, NoRepeat;
    var all := items + more;
    assert forall i :: 0 <= i < |items| ==> all[i] == items[i];
    assert forall item :: item in items ==> item in all;
  }

  /** `_decode`, on reports of the right form. */
  method Decode(report: Report, requested: set<string>) returns (ok: bool)
    ensures ok <==> Acceptable(report, requested)
    ensures ok ==> Trustworthy(report, requested)
  {
    hide Describes, Shaped, Honest, AnswersAll, Preparation, FollowsFormatting, Items;
    var selected := requested - {"format"};
    if !(selected <= {"lint", "test"}) {
      return false;
    }
    var groups := report.components;
    var seen := Seen({}, map[]);
    NothingSeen(selected);
    NoItems(groups[..0]);
    for i := 0 to |groups|
      invariant forall g :: g in groups[..i] ==> g.checks != []
      invariant Describes(seen, Items(groups[..i])) && Shaped(Items(groups[..i]), selected)
    {
      if groups[i].checks == [] {
        return false;
      }
      MoreItems(groups, i);
      var fine;
      fine, seen := ReadGroup(seen, groups[i], selected, Items(groups[..i]));
      if !fine {
        ShapedGroups(groups, i + 1, selected);
        return false;
      }
    }
    assert groups[..|groups|] == groups;
    SeenAll(seen, Items(groups), selected);
    if exists x :: x in seen.coverage && seen.coverage[x] != selected {
      return false;
    }
    ok := Prepared(report.preparation, requested);
    if ok {
      ok := Outcome(report, requested);
    }
    if ok {
      AcceptedIsTrustworthy(report, requested);
    }
  }

  /** Some check of the groups ended so. */
  ghost predicate Has(groups: seq<Results>, status: Status) {
    exists g, r :: g in groups && r in g.checks && r.status == status
  }

  /** What a caller learns from an accepted report: checks stand only behind formatting that
      went well; where checks were run, it is complete exactly when none was cancelled or is
      uncertain, and passed exactly when nothing else failed or was unavailable either and
      the inputs stayed as they were; and a report of formatting alone claims no more. */
  ghost predicate Trustworthy(report: Report, requested: set<string>) {
    var checks, formatting := report.components, report.preparation;
    && (checks != [] ==>
          && !Has(formatting, Failed) && !Has(formatting, Cancelled) && !Has(formatting, Uncertain)
          && (report.complete <==> !Has(checks, Cancelled) && !Has(checks, Uncertain))
          && (report.passed <==> report.complete && report.consistent && !Has(checks, Failed)
                                 && !Has(checks, WasUnavailable)))
    && (checks == [] && requested == {"format"} ==>
          && (report.complete ==> !Has(formatting, Cancelled) && !Has(formatting, Uncertain))
          && (report.passed ==> report.complete && !Has(formatting, Failed) && !Has(formatting, WasUnavailable)))
  }

  lemma HasItem(groups: seq<Results>, status: Status)
    ensures Has(groups, status) <==> exists x :: x in Items(groups) && x.result.status == status
  {
    hide Items;
    if g, r :| g in groups && r in g.checks && r.status == status {
      InItems(groups, Item(g.root, r));
    }
    if x :| x in Items(groups) && x.result.status == status {
      InItems(groups, x);
    }
  }

  /** Finished and successful results, by what they are not. */
  lemma AllResults(groups: seq<Results>)
    ensures (forall x :: x in Items(groups) ==> Finished(x.result.status))
        <==> !Has(groups, Cancelled) && !Has(groups, Uncertain)
    ensures (forall x :: x in Items(groups) ==> Succeeded(x.result.status))
        <==> !Has(groups, Cancelled) && !Has(groups, Uncertain) && !Has(groups, Failed) && !Has(groups, WasUnavailable)
    ensures (forall x :: x in Items(groups) ==> !Unsuccessful(x.result.status))
        <==> !Has(groups, Cancelled) && !Has(groups, Uncertain) && !Has(groups, Failed)
  {
    hide Items, Has;
    HasItem(groups, Cancelled);
    HasItem(groups, Uncertain);
    HasItem(groups, Failed);
    HasItem(groups, WasUnavailable);
  }

  lemma AcceptedIsTrustworthy(report: Report, requested: set<string>)
    requires Acceptable(report, requested)
    ensures Trustworthy(report, requested)
  {
    AllResults(report.components);
    AllResults(report.preparation);
    hide Items, Shaped, AnswersAll, Preparation, Has;
  }

  lemma MoreItems(groups: seq<Results>, i: nat)
    requires i < |groups|
    ensures Items(groups[..i + 1]) == Items(groups[..i]) + ItemsOf(groups[i])
  {
    assert groups[..i + 1][..i] == groups[..i];
  }

  /** The shape of the formatting results. */
  method Prepared(groups: seq<Results>, requested: set<string>) returns (ok: bool)
    ensures ok <==> Preparation(groups, requested)
  {
    for i := 0 to |groups|
      invariant Preparation(groups[..i], requested)
    {
      assert groups[..i + 1] == groups[..i] + [groups[i]];
      var g := groups[i];
      assert g in groups;
      if "format" !in requested || g.checks == [] || exists r :: r in g.checks && r.spec.check != "format" {
        return false;
      }
    }
    assert groups[..|groups|] == groups;
    ok := true;
  }

  lemma NothingSeen(selected: set<string>)
    ensures Describes(Seen({}, map[]), []) && Shaped([], selected)
  {}

  lemma ShapedGroups(groups: seq<Results>, n: nat, selected: set<string>)
    requires n <= |groups|
    ensures Shaped(Items(groups), selected) ==> Shaped(Items(groups[..n]), selected)
  {
    hide Shaped;
    ItemsSplit(groups, n);
    var prefix := Items(groups[..n]);
    assert Items(groups) == prefix + Items(groups)[|prefix|..];
    ShapedPrefix(prefix, Items(groups)[|prefix|..], selected);
  }

  lemma {:induction false} ItemsSplit(groups: seq<Results>, n: nat)
    requires n <= |groups|
    ensures Items(groups[..n]) <= Items(groups)
    decreases |groups| - n
  {
    if n == |groups| {
      assert groups[..n] == groups;
    } else {
      ItemsSplit(groups, n + 1);
      assert groups[..n + 1][..n] == groups[..n];
    }
  }

  /** With nothing repeated, the record is complete when each requester has all checks. */
  lemma SeenAll(seen: Seen, items: seq<Item>, selected: set<string>)
    requires Describes(seen, items) && Shaped(items, selected)
    ensures (forall x :: x in seen.coverage ==> seen.coverage[x] == selected) <==> AnswersAll(items, selected)
  {
    forall x, check | x in seen.coverage ensures check in seen.coverage[x] <==> Asked(items, x, check) {}
    hide Describes, Asked;
    forall x | x in seen.coverage
      ensures seen.coverage[x] == selected <==> forall check :: check in selected ==> Asked(items, x, check)
    {
      AskedSelected(items, selected, x);
      if forall check :: check in selected ==> Asked(items, x, check) {
        assert forall check :: check in seen.coverage[x] <==> check in selected;
      }
    }
    SeenKeys(seen, items);
  }

  lemma AskedSelected(items: seq<Item>, selected: set<string>, x: string)
    requires Shaped(items, selected)
    ensures forall check :: Asked(items, x, check) ==> check in selected
  {}

  lemma SeenKeys(seen: Seen, items: seq<Item>)
    requires Describes(seen, items)
    ensures forall x :: x in seen.coverage <==> exists item :: item in items && x in item.result.spec.requesters
  {}

  /** The claims of a report about its results. */
  method Outcome(report: Report, requested: set<string>) returns (ok: bool)
    ensures ok <==> FollowsFormatting(report) && Honest(report, requested)
  {
    var items, prepared := Items(report.components), Items(report.preparation);
    if report.components != [] && exists item :: item in prepared && Unsuccessful(item.result.status) {
      return false;
    }
    if Stale(report) {
      return true;
    }
    var failed := exists item :: item in prepared && item.result.status == Failed;
    var only := report.components == [] && "format" in requested
                && (requested - {"format"} == {} || !report.complete || failed);
    assert requested - {"format"} == {} <==> requested <= {"format"};
    var outcomes := if only then prepared else items;
    var complete := forall item :: item in outcomes ==> Finished(item.result.status);
    var passed := forall item :: item in outcomes ==> Succeeded(item.result.status);
    if only {
      ok := !((report.complete && !complete) || (report.passed && (!passed || !report.complete)));
    } else {
      ok := report.complete == complete && report.passed == (passed && report.consistent);
    }
  }

  lemma NoItems(groups: seq<Results>)
    ensures groups == [] ==> Items(groups) == []
  {}

  // ---------- Executing ----------

  /** The status of a check that runs, whatever its command or an earlier run gave. */
  type Outcomes = (string, string) -> Status

  function StatusOf(root: string, spec: Spec, run: Outcomes): Status {
    if spec.scope.Skipped? then WasSkipped
    else if spec.scope.Unavailable? then WasUnavailable
    else run(root, spec.check)
  }

  function Executed(group: Group, run: Outcomes): Results {
    Results(group.root, seq(|group.checks|, i requires 0 <= i < |group.checks| =>
      Result(group.checks[i], StatusOf(group.root, group.checks[i], run))))
  }

  /** `ExecuteValidation`: no report for a formatting plan, an empty one when the inputs
      changed since planning, and otherwise one result for every planned check. */
  method Execute(groups: seq<Group>, stale: bool, run: Outcomes, consistent: bool) returns (r: Option<Report>)
    ensures r.None? <==> exists g, s :: g in groups && s in g.checks && s.check == "format"
    ensures r.Some? && stale ==> r.value == Report([], [], false, false, false)
    ensures r.Some? && !stale ==>
      Ran(groups, run, r.value.components) && r.value.preparation == [] && r.value.consistent == consistent
      && Consistent(r.value)
    ensures r.Some? && !stale ==> TellsResults(groups, run, r.value)
  {
    if exists g :: g in groups && exists s :: s in g.checks && s.check == "format" {
      return None;
    }
    if stale {
      return Some(Report([], [], false, false, false));
    }
    var components := seq(|groups|, i requires 0 <= i < |groups| => Executed(groups[i], run));
    var complete, passed := true, true;
    for i := 0 to |components|
      invariant complete <==> forall item :: item in Items(components[..i]) ==> Finished(item.result.status)
      invariant passed <==> forall item :: item in Items(components[..i]) ==> Succeeded(item.result.status)
    {
      assert components[..i + 1][..i] == components[..i];
      complete, passed := FoldGroup(components[i], complete, passed);
    }
    assert components[..|components|] == components;
    r := Some(Report(components, [], consistent, complete, passed && consistent));
    ReportTells(groups, run, r.value);
  }

  /** Every planned check has the result its scope or its run gives; the report is complete
      when none was cancelled or is uncertain, and passed when each passed or was skipped and
      the inputs stayed as they were. */
  ghost predicate TellsResults(groups: seq<Group>, run: Outcomes, report: Report) {
    && |report.components| == |groups|
    && (forall i :: 0 <= i < |groups| ==>
          && report.components[i].root == groups[i].root
          && |report.components[i].checks| == |groups[i].checks|
          && forall j :: 0 <= j < |groups[i].checks| ==>
               var spec, result := groups[i].checks[j], report.components[i].checks[j];
               && result.spec == spec
               && result.status == (match spec.scope
                                    case Skipped => WasSkipped
                                    case Unavailable => WasUnavailable
                                    case _ => run(groups[i].root, spec.check)))
    && (report.complete <==> forall g, r :: g in report.components && r in g.checks ==>
                               r.status != Cancelled && r.status != Uncertain)
    && (report.passed <==> report.consistent && forall g, r :: g in report.components && r in g.checks ==>
                                                  r.status in {Passed, WasSkipped})
  }

  lemma ReportTells(groups: seq<Group>, run: Outcomes, report: Report)
    requires Ran(groups, run, report.components) && Consistent(report)
    ensures TellsResults(groups, run, report)
  {
    hide Items, Ran;
    RanTells(groups, run, report.components);
    forall x ensures x in Items(report.components)
                 <==> exists g :: g in report.components && g.root == x.root && x.result in g.checks
    {
      InItems(report.components, x);
    }
    forall g, r | g in report.components && r in g.checks ensures Item(g.root, r) in Items(report.components) {
    }
  }

  lemma RanTells(groups: seq<Group>, run: Outcomes, components: seq<Results>)
    requires Ran(groups, run, components)
    ensures |components| == |groups|
    ensures forall i :: 0 <= i < |groups| ==>
      && components[i].root == groups[i].root && |components[i].checks| == |groups[i].checks|
      && forall j :: 0 <= j < |groups[i].checks| ==>
           var spec, result := groups[i].checks[j], components[i].checks[j];
           && result.spec == spec
           && result.status == (match spec.scope
                                case Skipped => WasSkipped
                                case Unavailable => WasUnavailable
                                case _ => run(groups[i].root, spec.check))
  {}

  method FoldGroup(group: Results, complete: bool, passed: bool) returns (c: bool, p: bool)
    ensures c <==> complete && forall item :: item in ItemsOf(group) ==> Finished(item.result.status)
    ensures p <==> passed && forall item :: item in ItemsOf(group) ==> Succeeded(item.result.status)
  {
    c, p := complete, passed;
    var items := ItemsOf(group);
    for j := 0 to |group.checks|
      invariant c <==> complete && forall item :: item in items[..j] ==> Finished(item.result.status)
      invariant p <==> passed && forall item :: item in items[..j] ==> Succeeded(item.result.status)
    {
      assert items[..j + 1] == items[..j] + [items[j]];
      if !Succeeded(group.checks[j].status) { p := false; }
      if !Finished(group.checks[j].status) { c := false; }
    }
    assert items[..|group.checks|] == items;
  }

  // ---------- The executor's reports are accepted ----------

  ghost predicate Ran(groups: seq<Group>, run: Outcomes, components: seq<Results>) {
    |components| == |groups| && forall i :: 0 <= i < |groups| ==> components[i] == Executed(groups[i], run)
  }

  lemma ExecutedChecks(group: Group, run: Outcomes)
    ensures forall r :: r in Executed(group, run).checks ==> r.spec in group.checks
    ensures forall s :: s in group.checks ==> exists r :: r in Executed(group, run).checks && r.spec == s
  {
    var checks := Executed(group, run).checks;
    forall s | s in group.checks ensures exists r :: r in checks && r.spec == s {
      var i :| 0 <= i < |group.checks| && group.checks[i] == s;
      assert checks[i] in checks && checks[i].spec == s;
    }
  }

  /** The items of a report are the specs of the plan. */
  lemma ItemsAre(groups: seq<Group>, run: Outcomes, components: seq<Results>)
    requires Distinct(groups) && Ran(groups, run, components)
    ensures forall item :: item in Items(components) ==>
      Find(groups, item.root, item.result.spec.check) == Some(item.result.spec)
    ensures forall root, check :: Find(groups, root, check).Some? ==>
      exists item :: item in Items(components) && item.root == root
                     && item.result.spec == Find(groups, root, check).value && item.result.spec.check == check
  {
    hide Find, Executed, Distinct;
    forall item | item in Items(components)
      ensures Find(groups, item.root, item.result.spec.check) == Some(item.result.spec)
    {
      InItems(components, item);
      var r :| r in components && r.root == item.root && item.result in r.checks;
      var i :| 0 <= i < |components| && components[i] == r;
      ExecutedChecks(groups[i], run);
      assert groups[i].root == item.root by { ExecutedRoot(groups[i], run); }
      FindIn(groups, item.root, item.result.spec.check, item.result.spec);
    }
    forall root, check | Find(groups, root, check).Some?
      ensures exists item :: item in Items(components) && item.root == root
                && item.result.spec == Find(groups, root, check).value && item.result.spec.check == check
    {
      var s := Find(groups, root, check).value;
      FindIn(groups, root, check, s);
      var g :| g in groups && g.root == root && s in g.checks && s.check == check;
      var i :| 0 <= i < |groups| && groups[i] == g;
      ExecutedChecks(g, run);
      ExecutedRoot(g, run);
      var r :| r in Executed(g, run).checks && r.spec == s;
      InItems(components, Item(root, r));
      assert components[i] in components;
      assert Item(root, r) in Items(components);
    }
  }

  lemma ExecutedRoot(group: Group, run: Outcomes)
    ensures Executed(group, run).root == group.root
  {}

  lemma {:induction false} ItemsSeparate(groups: seq<Group>, run: Outcomes, components: seq<Results>)
    requires Distinct(groups) && Ran(groups, run, components)
    ensures Separate(Items(components))
    decreases |groups|
  {
    if groups != [] {
      var n := |groups| - 1;
      var front, last := groups[..n], groups[n];
      assert last in groups && forall g :: g in front ==> g in groups;
      ItemsSeparate(front, run, components[..n]);
      forall item | item in Items(components[..n]) ensures item.root != last.root {
        InItems(components[..n], item);
      }
    }
  }

  lemma IncreasingNoRepeat(xs: seq<string>)
    requires Increasing(xs)
    ensures NoRepeat(xs)
  {
    forall i, j | 0 <= i < j < |xs| ensures xs[i] != xs[j] {
      LessTotal(xs[i], xs[i]);
    }
  }

  /** Every item of a report fits the reader's rules for single items. */
  lemma ItemIsFine(groups: seq<Group>, setup: Setup, item: Item)
    requires Planned(groups, setup)
    requires Find(groups, item.root, item.result.spec.check) == Some(item.result.spec)
    ensures var spec := item.result.spec;
      spec.check in setup.checks && spec.requesters != [] && NoRepeat(spec.requesters)
  {
    hide Find, Planned, Increasing, NoRepeat, Command, Decide;
    var spec := item.result.spec;
    PlanMeans(groups, setup, item.root, spec.check);
    var c :| AsksAt(setup, item.root, spec.check, c);
    assert c.root in spec.requesters;
    IncreasingNoRepeat(spec.requesters);
  }

  /** A requester's check is answered by one executor. */
  lemma RequesterDecides(groups: seq<Group>, setup: Setup, item: Item, x: string) returns (c: Component)
    requires Planned(groups, setup)
    requires Find(groups, item.root, item.result.spec.check) == Some(item.result.spec)
    requires x in item.result.spec.requesters
    ensures c in setup.components && c.root == x && item.result.spec.check in setup.checks
    ensures Decide(setup, c, item.result.spec.check).executor == item.root
  {
    hide Find, Planned, Increasing, Command, Decide;
    PlanMeans(groups, setup, item.root, item.result.spec.check);
    c :| AsksAt(setup, item.root, item.result.spec.check, c) && c.root == x;
  }

  /** The results of any planned execution fit the reader's coverage rules. */
  lemma ResultsAccepted(groups: seq<Group>, setup: Setup, run: Outcomes, components: seq<Results>)
    requires Planned(groups, setup) && DistinctRoots(setup.components) && Ran(groups, run, components)
    ensures var selected := set k | k in setup.checks;
      Shaped(Items(components), selected) && AnswersAll(Items(components), selected)
    ensures forall g :: g in components ==> g.checks != []
  {
    var selected := set k | k in setup.checks;
    var items := Items(components);
    hide Find, Decide, Executed, NoRepeat;
    CanonicalDistinct(groups);
    ItemsAre(groups, run, components);
    ItemsSeparate(groups, run, components);
    forall item | item in items
      ensures item.result.spec.check in selected && item.result.spec.requesters != []
              && NoRepeat(item.result.spec.requesters)
    {
      ItemIsFine(groups, setup, item);
    }
    forall i, j | 0 <= i < j < |items| ensures !Overlap(items[i], items[j]) {
      if Overlap(items[i], items[j]) {
        var x :| x in items[i].result.spec.requesters && x in items[j].result.spec.requesters;
        var c := RequesterDecides(groups, setup, items[i], x);
        var d := RequesterDecides(groups, setup, items[j], x);
      }
    }
    forall item, x, check | item in items && x in item.result.spec.requesters && check in selected
      ensures Asked(items, x, check)
    {
      var c := RequesterDecides(groups, setup, item, x);
      EachRequestOnce(groups, setup, c, check);
      var root := Decide(setup, c, check).executor;
      assert Find(groups, root, check).Some?;
    }
    forall g | g in components ensures g.checks != [] {
      var i :| 0 <= i < |groups| && components[i] == g;
      assert groups[i] in groups;
      ExecutedChecks(groups[i], run);
      assert groups[i].checks[0] in groups[i].checks;
    }
  }

  /** The reader accepts the report of any planned execution, for the planned checks. */
  lemma ReportAccepted(groups: seq<Group>, setup: Setup, run: Outcomes, report: Report)
    requires Planned(groups, setup) && DistinctRoots(setup.components)
    requires forall k :: k in setup.checks ==> k == "lint" || k == "test"
    requires Ran(groups, run, report.components) && report.preparation == [] && Consistent(report)
    ensures Acceptable(report, set k | k in setup.checks)
  {
    hide Shaped, AnswersAll, Planned;
    var requested := set k | k in setup.checks;
    ResultsAccepted(groups, setup, run, report.components);
    assert requested - {"format"} == requested;
    NoItems(report.preparation);
  }

  // ---------- Formatting first ----------

  /** A group's result in the formatting stage, which runs its only check. */
  function Formatted(group: Group, run: Outcomes): Results
    requires group.checks != []
  {
    Results(group.root, [Result(group.checks[0], StatusOf(group.root, group.checks[0], run))])
  }

  /** The results of a stage that goes on until a check does not finish. */
  ghost predicate Stopped(groups: seq<Group>, run: Outcomes, results: seq<Results>)
    requires forall g :: g in groups ==> g.checks != []
  {
    && |results| <= |groups|
    && (forall i :: 0 <= i < |results| ==> results[i] == Formatted(groups[i], run))
    && (forall i :: 0 <= i < |results| - 1 ==> Finished(results[i].checks[0].status))
    && (|results| < |groups| ==> results != [] && !Finished(results[|results| - 1].checks[0].status))
  }

  /** `formatValidation` behind its plan; `settled` when the contents could be captured
      again afterwards. */
  method Format(groups: seq<Group>, run: Outcomes, settled: bool) returns (r: Report)
    requires forall g :: g in groups ==> g.checks != []
    ensures r.components == [] && !r.consistent && Stopped(groups, run, r.preparation)
    ensures r.complete <==> settled && forall g :: g in r.preparation ==> Finished(g.checks[0].status)
    ensures r.passed <==> settled && forall g :: g in r.preparation ==> Succeeded(g.checks[0].status)
  {
    var results: seq<Results> := [];
    var complete, passed := true, true;
    for i := 0 to |groups|
      invariant |results| == i && forall j :: 0 <= j < i ==> results[j] == Formatted(groups[j], run)
      invariant complete && forall g :: g in results ==> Finished(g.checks[0].status)
      invariant passed <==> forall g :: g in results ==> Succeeded(g.checks[0].status)
    {
      var result := Formatted(groups[i], run);
      results := results + [result];
      assert result in results;
      if !Succeeded(result.checks[0].status) {
        passed := false;
      }
      if !Finished(result.checks[0].status) {
        complete := false;
        break;
      }
    }
    r := Report([], results, false, complete && settled, passed && settled);
  }

  lemma {:induction false} RemainingAll(checks: seq<string>)
    requires "format" !in checks
    ensures Remaining(checks) == checks
  {
    if checks != [] {
      RemainingAll(checks[..|checks| - 1]);
      assert checks == checks[..|checks| - 1] + [checks[|checks| - 1]];
    }
  }

  lemma RemainingMembers(checks: seq<string>)
    ensures forall k :: k in Remaining(checks) <==> k in checks && k != "format"
  {
  }

  lemma SameClaims(report: Report, prepared: seq<Results>)
    ensures Consistent(report.(preparation := prepared)) <==> Consistent(report)
  {
  }

  lemma NothingPrepared(requested: set<string>)
    ensures Preparation([], requested) && Items([]) == []
  {
  }

  /** A checkout as one stage finds it. */
  datatype Tree = Tree(layout: seq<Component>, contracts: map<string, Contract>, impact: bool, run: Outcomes)

  function Plans(tree: Tree, wanted: Option<seq<string>>, checks: seq<string>): Setup {
    Setup(tree.contracts, tree.impact, Chosen(tree.layout, wanted), Unique(checks))
  }

  /** The checks behind the formatting stage. */
  function Remaining(checks: seq<string>): seq<string> {
    Filter(checks, k => k != "format")
  }

  /** A plan to format holds nothing but one formatting check for each executor. */
  lemma FormatPlanned(groups: seq<Group>, setup: Setup, group: Group)
    requires Planned(groups, setup) && setup.checks == Unique(["format"]) && group in groups
    ensures group.checks != [] && group.checks[0].check == "format"
  {
    hide Decide, Requests, Unique;
    CanonicalDistinct(groups);
    var spec := group.checks[0];
    FindIn(groups, group.root, spec.check, spec);
    PlanMeans(groups, setup, group.root, spec.check);
  }

  /** A plan holds requested checks only. */
  lemma PlannedIsRequested(groups: seq<Group>, setup: Setup, group: Group, spec: Spec)
    requires Planned(groups, setup) && group in groups && spec in group.checks
    ensures spec.check in setup.checks
  {
    hide Decide, Requests, Means;
    CanonicalDistinct(groups);
    FindIn(groups, group.root, spec.check, spec);
    PlanMeans(groups, setup, group.root, spec.check);
  }

  predicate AnyFailed(groups: seq<Results>) {
    exists g, r :: g in groups && r in g.checks && r.status == Failed
  }

  /** Each formatting result is one item. */
  lemma PreparedItem(groups: seq<Group>, run: Outcomes, results: seq<Results>, g: Results)
    requires (forall h :: h in groups ==> h.checks != []) && Stopped(groups, run, results) && g in results
    ensures |g.checks| == 1 && Item(g.root, g.checks[0]) in Items(results)
  {
    hide StatusOf;
    var i :| 0 <= i < |results| && results[i] == g;
    InItems(results, Item(g.root, g.checks[0]));
  }

  lemma ItemPrepared(groups: seq<Group>, run: Outcomes, results: seq<Results>, x: Item) returns (g: Results)
    requires (forall h :: h in groups ==> h.checks != []) && Stopped(groups, run, results) && x in Items(results)
    ensures g in results && g.checks == [x.result]
  {
    hide Items, StatusOf;
    InItems(results, x);
    g :| g in results && g.root == x.root && x.result in g.checks;
    var i :| 0 <= i < |results| && results[i] == g;
  }

  /** What holds of the formatting results holds of their items. */
  lemma PreparedItems(groups: seq<Group>, run: Outcomes, results: seq<Results>)
    requires (forall g :: g in groups ==> g.checks != []) && Stopped(groups, run, results)
    ensures forall g :: g in results ==> g.checks != []
    ensures (forall g :: g in results ==> Finished(g.checks[0].status)) ==>
              forall x :: x in Items(results) ==> Finished(x.result.status)
    ensures (forall g :: g in results ==> Succeeded(g.checks[0].status)) ==>
              forall x :: x in Items(results) ==> Succeeded(x.result.status)
    ensures AnyFailed(results) <==> exists x :: x in Items(results) && x.result.status == Failed
  {
    hide Items, Stopped;
    forall g | g in results ensures g.checks != [] {
      PreparedItem(groups, run, results, g);
    }
    forall x | x in Items(results)
      ensures exists g :: g in results && g.checks == [x.result]
    {
      var g := ItemPrepared(groups, run, results, x);
    }
    if AnyFailed(results) {
      var g, r :| g in results && r in g.checks && r.status == Failed;
      PreparedItem(groups, run, results, g);
    }
  }

  /** A formatting stage may be reported alone when it stopped or was all there was. */
  lemma FormattedAccepted(groups: seq<Group>, setup: Setup, run: Outcomes, report: Report, requested: set<string>)
    requires Planned(groups, setup) && setup.checks == Unique(["format"]) && "format" in requested
    requires requested <= CHECKS
    requires (forall g :: g in groups ==> g.checks != []) && Stopped(groups, run, report.preparation)
    requires report.components == [] && !report.consistent && (report.passed ==> report.complete)
    requires report.complete ==> forall g :: g in report.preparation ==> Finished(g.checks[0].status)
    requires report.passed ==> forall g :: g in report.preparation ==> Succeeded(g.checks[0].status)
    requires report.complete ==> requested <= {"format"} || AnyFailed(report.preparation)
    ensures Acceptable(report, requested)
  {
    hide Planned, Shaped, AnswersAll, Stopped, Preparation, Items;
    PreparationHolds(groups, setup, run, report.preparation, requested);
    PreparedItems(groups, run, report.preparation);
    NoItems(report.components);
    NothingAnswered(requested - {"format"});
  }

  lemma PreparationHolds(groups: seq<Group>, setup: Setup, run: Outcomes, results: seq<Results>,
                         requested: set<string>)
    requires Planned(groups, setup) && setup.checks == Unique(["format"]) && "format" in requested
    requires (forall g :: g in groups ==> g.checks != []) && Stopped(groups, run, results)
    ensures Preparation(results, requested)
  {
    hide Planned;
    forall g | g in results ensures g.checks != [] && forall r :: r in g.checks ==> r.spec.check == "format" {
      var i :| 0 <= i < |results| && results[i] == g;
      FormatPlanned(groups, setup, groups[i]);
    }
  }

  /** Checks may be reported behind formatting that went well. */
  lemma CheckedAccepted(groups: seq<Group>, setup: Setup, run: Outcomes, report: Report, requested: set<string>)
    requires Planned(groups, setup) && DistinctRoots(setup.components)
    requires requested - {"format"} == (set k | k in setup.checks) && requested <= CHECKS
    requires Stale(report) || (Ran(groups, run, report.components) && Consistent(report))
    requires Preparation(report.preparation, requested) && ("format" in requested ==> setup.checks != [])
    requires forall x :: x in Items(report.preparation) ==> !Unsuccessful(x.result.status)
    ensures Acceptable(report, requested)
  {
    hide Planned, Shaped, AnswersAll, Preparation;
    if Stale(report) {
      NothingAnswered(requested - {"format"});
      NoItems(report.components);
    } else {
      ResultsAccepted(groups, setup, run, report.components);
      NoItems(report.components);
      if "format" in requested {
        assert setup.checks[0] in requested - {"format"};
      }
    }
  }

  lemma NothingAnswered(selected: set<string>)
    ensures Shaped([], selected) && AnswersAll([], selected)
  {
  }

  /** Every component a request names is there. */
  ghost predicate Found(layout: seq<Component>, wanted: Option<seq<string>>) {
    wanted.Some? ==> forall root :: root in wanted.value ==> exists c :: c in layout && c.root == root
  }

  /** A formatting stage is complete when the contents settled and no check was cancelled or
      is uncertain, and passed when none failed or was unavailable either. */
  ghost predicate ClaimsFormatting(report: Report, settled: bool) {
    var results := report.preparation;
    && report.components == [] && !report.consistent
    && (report.complete <==> settled && !Has(results, Cancelled) && !Has(results, Uncertain))
    && (report.passed <==> report.complete && !Has(results, Failed) && !Has(results, WasUnavailable))
  }

  lemma FormattingClaims(groups: seq<Group>, run: Outcomes, report: Report, settled: bool)
    requires (forall g :: g in groups ==> g.checks != []) && Stopped(groups, run, report.preparation)
    requires forall g :: g in report.preparation ==> g.checks != []
    requires report.components == [] && !report.consistent
    requires report.complete <==> settled && forall g :: g in report.preparation ==> Finished(g.checks[0].status)
    requires report.passed <==> settled && forall g :: g in report.preparation ==> Succeeded(g.checks[0].status)
    ensures ClaimsFormatting(report, settled)
    ensures AnyFailed(report.preparation) <==> Has(report.preparation, Failed)
  {
    hide Items, Stopped;
    forall g | g in report.preparation ensures |g.checks| == 1 {
      PreparedItem(groups, run, report.preparation, g);
    }
  }

  /** The formatting stage of a request. */
  method FormatFirst(tree: Tree, wanted: Option<seq<string>>, settled: bool, ghost requested: set<string>)
    returns (r: Option<Report>)
    requires "format" in requested && requested <= CHECKS
    ensures r.Some? <==> Found(tree.layout, wanted)
    ensures r.Some? ==> r.value.components == [] && FormattedBy(tree, wanted, r.value.preparation)
                        && Preparation(r.value.preparation, requested)
    ensures r.Some? && (r.value.complete ==> requested <= {"format"} || AnyFailed(r.value.preparation)) ==>
              Acceptable(r.value, requested)
    ensures r.Some? && r.value.complete && !AnyFailed(r.value.preparation) ==>
              forall x :: x in Items(r.value.preparation) ==> !Unsuccessful(x.result.status)
    ensures r.Some? ==> (AnyFailed(r.value.preparation) <==> Has(r.value.preparation, Failed))
    ensures r.Some? ==> ClaimsFormatting(r.value, settled)
  {
    hide Planned, Acceptable, Stopped, Preparation, Items, Unique;
    var plan := PlanValidation(tree.layout, tree.contracts, tree.impact, ["format"], wanted);
    if plan.None? {
      return None;
    }
    ghost var setup := Plans(tree, wanted, ["format"]);
    forall g | g in plan.value ensures g.checks != [] {
      FormatPlanned(plan.value, setup, g);
    }
    var formatted := Format(plan.value, tree.run, settled);
    PreparationHolds(plan.value, setup, tree.run, formatted.preparation, requested);
    PreparedItems(plan.value, tree.run, formatted.preparation);
    FormattingClaims(plan.value, tree.run, formatted, settled);
    if formatted.complete ==> requested <= {"format"} || AnyFailed(formatted.preparation) {
      FormattedAccepted(plan.value, setup, tree.run, formatted, requested);
    }
    r := Some(formatted);
  }

  /** The results are those of a planned formatting stage. */
  ghost predicate FormattedBy(tree: Tree, wanted: Option<seq<string>>, results: seq<Results>) {
    exists groups: seq<Group> ::
      Planned(groups, Plans(tree, wanted, ["format"])) && (forall g :: g in groups ==> g.checks != [])
      && Stopped(groups, tree.run, results)
  }

  /** The results are those of a planned execution. */
  ghost predicate CheckedBy(tree: Tree, wanted: Option<seq<string>>, checks: seq<string>, results: seq<Results>) {
    exists groups: seq<Group> :: Planned(groups, Plans(tree, wanted, checks)) && Ran(groups, tree.run, results)
  }

  /** The checks of a request, behind any formatting. */
  method CheckNext(tree: Tree, wanted: Option<seq<string>>, checks: seq<string>, prepared: seq<Results>, stale: bool,
                   consistent: bool, ghost requested: set<string>)
    returns (r: Option<Report>)
    requires DistinctRoots(Chosen(tree.layout, wanted)) && requested <= CHECKS
    requires requested - {"format"} == (set k | k in checks) && ("format" in requested ==> checks != [])
    requires Preparation(prepared, requested)
    requires forall x :: x in Items(prepared) ==> !Unsuccessful(x.result.status)
    ensures r.Some? <==> Found(tree.layout, wanted)
    ensures r.Some? ==> Acceptable(r.value, requested) && r.value.preparation == prepared
    ensures r.Some? ==>
      if stale then r.value == Report([], prepared, false, false, false)
      else CheckedBy(tree, wanted, checks, r.value.components) && r.value.consistent == consistent
           && Consistent(r.value)
  {
    hide Planned, Acceptable, Preparation, Items, Ran, Consistent, DistinctRoots, Executed, Unique;
    assert forall k :: k in checks ==> k in requested - {"format"};
    var plan := PlanValidation(tree.layout, tree.contracts, tree.impact, checks, wanted);
    if plan.None? {
      return None;
    }
    ghost var setup := Plans(tree, wanted, checks);
    forall g, s | g in plan.value && s in g.checks ensures s.check != "format" {
      PlannedIsRequested(plan.value, setup, g, s);
      assert s.check in setup.checks;
    }
    r := Execute(plan.value, stale, tree.run, consistent);
    if r.Some? {
      SameClaims(r.value, prepared);
      r := Some(r.value.(preparation := prepared));
      assert checks != [] ==> checks[0] in Unique(checks);
      CheckedAccepted(plan.value, Plans(tree, wanted, checks), tree.run, r.value, requested);
    }
  }

  /** A request nothing is done for: a check is not a supported one, or files would be
      formatted though the caller has already said what changed. */
  ghost predicate Refusable(checks: seq<string>, given: bool) {
    exists i :: 0 <= i < |checks|
      && (checks[i] !in ["format", "lint", "test"] || (given && checks[i] == "format"))
  }

  /** Checks follow formatting that went well, if there are any. */
  ghost predicate GoesOn(checks: seq<string>, settled: bool, prepared: seq<Results>) {
    "format" !in checks
    || (settled && (exists k :: k in checks && k != "format")
        && !Has(prepared, Failed) && !Has(prepared, Cancelled) && !Has(prepared, Uncertain))
  }

  lemma ClaimsComplete(report: Report, settled: bool)
    requires ClaimsFormatting(report, settled)
    ensures report.complete <==> settled && !Has(report.preparation, Cancelled) && !Has(report.preparation, Uncertain)
  {}

  /** `Validate`, for a given list of checks. Formatting changes the tree, so the checks
      are planned for the tree it left. `given` when the caller supplied an impact,
      `stale` when the inputs changed after planning. Whatever the two trees are and
      the commands return, the report is one its reader accepts. */
  method Validate(checks: seq<string>, given: bool, wanted: Option<seq<string>>, first: Tree, settled: bool,
                  second: Tree, stale: bool, consistent: bool)
    returns (r: Option<Report>)
    requires DistinctRoots(Chosen(second.layout, wanted))
    ensures r.None? ==> Refusable(checks, given) || ("format" in checks && !Found(first.layout, wanted))
                        || !Found(second.layout, wanted)
    ensures Refusable(checks, given) || !Found((if "format" in checks then first else second).layout, wanted) ==>
              r.None?
    ensures r.Some? ==> Acceptable(r.value, set k | k in checks)
    ensures r.Some? ==>
      if "format" in checks then FormattedBy(first, wanted, r.value.preparation) else r.value.preparation == []
    ensures r.Some? ==>
      if !GoesOn(checks, settled, r.value.preparation) then ClaimsFormatting(r.value, settled)
      else if stale then r.value == Report([], r.value.preparation, false, false, false)
      else CheckedBy(second, wanted, Remaining(checks), r.value.components) && r.value.consistent == consistent
           && Consistent(r.value)
  {
    hide Has, ClaimsFormatting, Consistent, FormattedBy, CheckedBy, Acceptable, Preparation, Items, DistinctRoots,
      Remaining;
    ghost var requested := set k | k in checks;
    assert Refusable(checks, given) <==> (exists k :: k in checks && k !in CHECKS) || (given && "format" in checks) by {
      forall i | 0 <= i < |checks| ensures checks[i] in checks {}
    }
    if (exists k :: k in checks && k !in CHECKS) || (given && "format" in checks) {
      return None;
    }
    var prepared: seq<Results> := [];
    var rest := checks;
    if "format" in checks {
      r := FormatFirst(first, wanted, settled, requested);
      if r.None? {
        return;
      }
      rest := Remaining(checks);
      RemainingMembers(checks);
      ClaimsComplete(r.value, settled);
      assert rest != [] ==> rest[0] in checks && rest[0] != "format";
      if !r.value.complete || AnyFailed(r.value.preparation) || rest == [] {
        assert rest == [] ==> requested <= {"format"};
        return;
      }
      prepared := r.value.preparation;
    } else {
      RemainingAll(checks);
      NothingPrepared(requested);
    }
    r := CheckNext(second, wanted, rest, prepared, stale, consistent, requested);
  }
}
