/** Planning validation: every selected component asks for every check, a missing target
    falls back to the root component, and requests of one executor and check merge. */
module ValidationPlan {
  import opened Basics
  import opened Identifiers
  import opened PlanMerge

  datatype Group = Group(root: string, checks: seq<Spec>)

  function FindCheck(specs: seq<Spec>, check: string): Option<Spec> {
    if specs == [] then None
    else if specs[0].check == check then Some(specs[0])
    else FindCheck(specs[1..], check)
  }

  /** The spec a plan holds for an executor and a check. */
  function Find(groups: seq<Group>, root: string, check: string): Option<Spec> {
    if groups == [] then None
    else if groups[0].root == root then FindCheck(groups[0].checks, check)
    else Find(groups[1..], root, check)
  }

  /** One group for an executor, and one spec for each of its checks. */
  ghost predicate Distinct(groups: seq<Group>) {
    && (forall i, j :: 0 <= i < j < |groups| ==> groups[i].root != groups[j].root)
    && (forall g :: g in groups ==> g.checks != [] && DistinctChecks(g.checks))
  }

  ghost predicate DistinctChecks(specs: seq<Spec>) {
    forall i, j :: 0 <= i < j < |specs| ==> specs[i].check != specs[j].check
  }

  ghost predicate AllReady(groups: seq<Group>) {
    forall g :: g in groups ==> Ready(g.checks)
  }

  // ---------- Adding one request ----------

  function AddCheck(specs: seq<Spec>, spec: Spec): seq<Spec>
    requires Ready(specs)
  {
    if specs == [] then [spec]
    else
      assert specs[0] in specs;
      if specs[0].check == spec.check then [Merged(specs[0], spec)] + specs[1..]
      else [specs[0]] + AddCheck(specs[1..], spec)
  }

  function Added(groups: seq<Group>, executor: string, spec: Spec): seq<Group>
    requires AllReady(groups)
  {
    if groups == [] then [Group(executor, [spec])]
    else
      assert groups[0] in groups;
      if groups[0].root == executor then [Group(executor, AddCheck(groups[0].checks, spec))] + groups[1..]
      else [groups[0]] + Added(groups[1..], executor, spec)
  }

  function MergedWith(previous: Option<Spec>, spec: Spec): Spec
    requires previous.Some? && previous.value.scope.Focused? ==> |previous.value.command| == 6
  {
    if previous.None? then spec else Merged(previous.value, spec)
  }

  lemma {:induction false} FindCheckReady(specs: seq<Spec>, check: string)
    requires Ready(specs)
    ensures var f := FindCheck(specs, check); f.Some? ==> f.value in specs && f.value.check == check
    ensures var f := FindCheck(specs, check); f.Some? && f.value.scope.Focused? ==> |f.value.command| == 6
    ensures FindCheck(specs, check).None? ==> forall s :: s in specs ==> s.check != check
  {
    if specs != [] {
      assert specs == [specs[0]] + specs[1..];
      FindCheckReady(specs[1..], check);
    }
  }

  lemma {:induction false} FindReady(groups: seq<Group>, root: string, check: string)
    requires AllReady(groups)
    ensures var f := Find(groups, root, check); f.Some? && f.value.scope.Focused? ==> |f.value.command| == 6
  {
    if groups != [] {
      assert groups[0] in groups;
      FindCheckReady(groups[0].checks, check);
      FindReady(groups[1..], root, check);
    }
  }

  lemma {:induction false} AddCheckFinds(specs: seq<Spec>, spec: Spec, check: string)
    requires Ready(specs) && Ready([spec]) && DistinctChecks(specs)
    ensures var f := FindCheck(specs, spec.check); f.Some? && f.value.scope.Focused? ==> |f.value.command| == 6
    ensures FindCheck(AddCheck(specs, spec), check)
         == if check == spec.check then Some(MergedWith(FindCheck(specs, check), spec)) else FindCheck(specs, check)
  {
    FindCheckReady(specs, spec.check);
    hide Merged, Ready;
    if specs != [] {
      assert specs == [specs[0]] + specs[1..] && specs[0] in specs;
      ReadyParts(specs);
      AddCheckFinds(specs[1..], spec, check);
      MergedReady(specs[0], spec);
    }
  }

  lemma ReadyParts(specs: seq<Spec>)
    requires Ready(specs) && specs != []
    ensures Ready(specs[1..]) && (specs[0].scope.Focused? ==> |specs[0].command| == 6)
  {
    assert specs[0] in specs;
  }

  /** Adding a request keeps the checks of a group apart. */
  lemma {:induction false} AddCheckKeeps(specs: seq<Spec>, spec: Spec)
    requires Ready(specs) && Ready([spec]) && DistinctChecks(specs)
    ensures Ready(AddCheck(specs, spec)) && DistinctChecks(AddCheck(specs, spec))
    ensures forall s :: s in AddCheck(specs, spec) ==>
      s.check == spec.check || (exists t :: t in specs && t.check == s.check)
  {
    if specs == [] {
      assert AddCheck(specs, spec) == [spec];
    } else {
      assert specs == [specs[0]] + specs[1..] && specs[0] in specs;
      AddCheckKeeps(specs[1..], spec);
      MergedReady(specs[0], spec);
      hide Merged;
    }
  }

  lemma MergedReady(previous: Spec, spec: Spec)
    requires previous.scope.Focused? ==> |previous.command| == 6
    requires Ready([spec])
    ensures Ready([Merged(previous, spec)])
    ensures Merged(previous, spec).check == previous.check || Merged(previous, spec).check == spec.check
  {
    assert spec in [spec];
  }

  lemma {:induction false} AddedFinds(groups: seq<Group>, executor: string, spec: Spec, root: string, check: string)
    requires AllReady(groups) && Ready([spec]) && Distinct(groups)
    ensures var f := Find(groups, executor, spec.check); f.Some? && f.value.scope.Focused? ==> |f.value.command| == 6
    ensures Find(Added(groups, executor, spec), root, check)
         == if root == executor && check == spec.check then Some(MergedWith(Find(groups, root, check), spec))
            else Find(groups, root, check)
  {
    hide Ready, DistinctChecks, MergedWith, AddCheck, FindCheck;
    FindReady(groups, executor, spec.check);
    OneIsDistinct(spec);
    AddCheckFinds([], spec, check);
    AddedNone(executor, spec, check);
    if groups != [] {
      assert groups == [groups[0]] + groups[1..] && groups[0] in groups;
      if groups[0].root == executor {
        AddCheckFinds(groups[0].checks, spec, check);
      } else {
        AddedFinds(groups[1..], executor, spec, root, check);
      }
    }
  }

  lemma AddedNone(executor: string, spec: Spec, check: string)
    ensures Added([], executor, spec) == [Group(executor, [spec])] && AddCheck([], spec) == [spec]
    ensures FindCheck([], check) == None
  {}

  /** Adding a request keeps the groups apart. */
  lemma {:induction false} AddedKeeps(groups: seq<Group>, executor: string, spec: Spec)
    requires AllReady(groups) && Ready([spec]) && Distinct(groups)
    ensures AllReady(Added(groups, executor, spec)) && Distinct(Added(groups, executor, spec))
    ensures forall g :: g in Added(groups, executor, spec) ==>
      g.root == executor || (exists h :: h in groups && h.root == g.root)
  {
    if groups == [] {
      AddedNone(executor, spec, "");
      OneIsDistinct(spec);
      AddCheckKeeps([], spec);
    } else {
      assert groups == [groups[0]] + groups[1..] && groups[0] in groups;
      if groups[0].root == executor {
        AddCheckKeeps(groups[0].checks, spec);
        AddedNotEmpty(groups[0].checks, spec);
        HeadKeeps(Group(executor, AddCheck(groups[0].checks, spec)), groups[1..]);
      } else {
        AddedKeeps(groups[1..], executor, spec);
        hide AddCheck, Ready, DistinctChecks;
        HeadKeeps(groups[0], Added(groups[1..], executor, spec));
      }
    }
  }

  lemma HeadKeeps(head: Group, rest: seq<Group>)
    requires Ready(head.checks) && AllReady(rest) && Distinct(rest)
    requires head.checks != [] && DistinctChecks(head.checks) && forall g :: g in rest ==> g.root != head.root
    ensures AllReady([head] + rest) && Distinct([head] + rest)
  {
    hide Ready, DistinctChecks;
  }

  lemma AddedNotEmpty(specs: seq<Spec>, spec: Spec)
    requires Ready(specs)
    ensures AddCheck(specs, spec) != []
  {}

  lemma OneIsDistinct(spec: Spec)
    ensures Ready([]) && DistinctChecks([])
  {}

  // ---------- The plan in place ----------

  class Plan {
    var components: seq<Group>

    ghost predicate Valid()
      reads this
    {
      Distinct(components) && AllReady(components)
    }

    constructor ()
      ensures Valid() && components == []
    {
      components := [];
    }

    /** `appendValidationCheck`. */
    method Append(executor: string, spec: Spec)
      requires Valid() && Ready([spec])
      modifies this
      ensures Valid() && components == Added(old(components), executor, spec)
    {
      AddedKeeps(components, executor, spec);
      hide Ready, Distinct, Find, AddCheck, Added;
      for i := 0 to |components|
        invariant components == old(components)
        invariant forall j :: 0 <= j < i ==> components[j].root != executor
      {
        if components[i].root == executor {
          AddedAt(components, executor, spec, i);
          var checks := AddTo(components[i].checks, spec);
          components := components[i := Group(executor, checks)];
          return;
        }
      }
      AddedAt(components, executor, spec, |components|);
      components := components + [Group(executor, [spec])];
    }
  }

  lemma {:induction false} AddedAt(groups: seq<Group>, executor: string, spec: Spec, i: nat)
    requires AllReady(groups) && i <= |groups| && forall j :: 0 <= j < i ==> groups[j].root != executor
    requires i < |groups| ==> groups[i].root == executor
    ensures i < |groups| ==> Ready(groups[i].checks)
    ensures i < |groups| ==>
      Added(groups, executor, spec) == groups[i := Group(executor, AddCheck(groups[i].checks, spec))]
    ensures i == |groups| ==> Added(groups, executor, spec) == groups + [Group(executor, [spec])]
  {
    hide Ready, AddCheck;
    if groups != [] {
      assert groups == [groups[0]] + groups[1..] && groups[0] in groups;
      if i > 0 {
        AddedAt(groups[1..], executor, spec, i - 1);
      }
    }
  }

  /** Merges a request into the checks of its group, or adds it behind them. */
  method AddTo(checks: seq<Spec>, spec: Spec) returns (r: seq<Spec>)
    requires Ready(checks)
    ensures r == AddCheck(checks, spec)
  {
    hide AddCheck, Merged;
    for j := 0 to |checks|
      invariant forall k :: 0 <= k < j ==> checks[k].check != spec.check
    {
      if checks[j].check == spec.check {
        CheckAddedAt(checks, spec, j);
        return checks[j := Merged(checks[j], spec)];
      }
    }
    CheckAddedAt(checks, spec, |checks|);
    r := checks + [spec];
  }

  lemma {:induction false} CheckAddedAt(checks: seq<Spec>, spec: Spec, j: nat)
    requires Ready(checks) && j <= |checks| && forall k :: 0 <= k < j ==> checks[k].check != spec.check
    requires j < |checks| ==> checks[j].check == spec.check
    ensures j < |checks| ==> AddCheck(checks, spec) == checks[j := Merged(checks[j], spec)]
    ensures j == |checks| ==> AddCheck(checks, spec) == checks + [spec]
  {
    hide Merged;
    if checks != [] {
      assert checks == [checks[0]] + checks[1..];
      if j > 0 {
        CheckAddedAt(checks[1..], spec, j - 1);
      }
    }
  }

  // ---------- What components ask for ----------

  /** What a Makefile offers: a target and a file list for some of the checks. */
  datatype Contract = Contract(broken: bool, targets: map<string, string>, variables: set<string>)

  /** A component as the plan sees it: whether the impact touches it, and for a check with
      selected files how an executor would name them, unless it cannot. */
  datatype Component = Component(root: string, relevant: bool, selected: set<string>,
                                 named: map<(string, string), seq<string>>)

  datatype Placed = Placed(executor: string, spec: Spec)

  /** What a plan is made from: the contracts of the layout by component root, whether an
      impact was given, the selected components and the checks. */
  datatype Setup = Setup(contracts: map<string, Contract>, impact: bool, components: seq<Component>,
                         checks: seq<string>)

  function Target(setup: Setup, root: string, check: string): string {
    if root in setup.contracts && check in setup.contracts[root].targets then
      setup.contracts[root].targets[check]
    else ""
  }

  /** Where a component's check runs: at home, else at the root unless it formats. */
  function Executor(setup: Setup, root: string, check: string): string {
    if Target(setup, root, check) == "" && check != "format" && root != "."
       && Target(setup, ".", check) != "" && root in setup.contracts && !setup.contracts[root].broken then "."
    else root
  }

  /** The request one component makes for one check. */
  function Decide(setup: Setup, c: Component, check: string): Placed {
    if setup.impact && !c.relevant then Placed(c.root, Spec(check, [c.root], Skipped, [], []))
    else
      var executor := Executor(setup, c.root, check);
      var target := Target(setup, executor, check);
      if target == "" then Placed(c.root, Spec(check, [c.root], Unavailable, [], []))
      else
        var key := (executor, check);
        if check in c.selected && key in c.named && executor in setup.contracts
           && Variable(check).1 in setup.contracts[executor].variables then
          var files := Unique(c.named[key]);
          Placed(executor, Spec(check, [c.root], Focused, files, Command(check, target, Focused, files)))
        else
          Placed(executor, Spec(check, [c.root], Full, [], Command(check, target, Full, [])))
  }

  /** What a request says, and that a missing target is reported where it is missing. */
  lemma DecideIs(setup: Setup, c: Component, check: string)
    ensures var p := Decide(setup, c, check);
      && Request(p.spec, check, Target(setup, p.executor, check)) && Ready([p.spec])
      && p.spec.requesters == [c.root] && (p.executor == c.root || p.executor == ".")
      && (p.spec.scope.Unavailable? ==> p.executor == c.root && Target(setup, c.root, check) == "")
      && (p.spec.scope.Focused? ==> Target(setup, p.executor, check) != "")
  {
    hide Join, Unique;
  }

  /** A component is passed over exactly when the impact does not touch it. Otherwise its
      own target runs if it has one; the root's runs only for a missing target of a check
      other than formatting and a Makefile that is not broken; and the check is unavailable
      exactly when neither runs. */
  lemma FallsBackOnlyToRoot(setup: Setup, c: Component, check: string)
    ensures var p := Decide(setup, c, check);
      var own, root := Target(setup, c.root, check), Target(setup, ".", check);
      var broken := c.root !in setup.contracts || setup.contracts[c.root].broken;
      && (p.spec.scope.Skipped? <==> setup.impact && !c.relevant)
      && (p.executor != c.root ==> p.executor == "." && own == "" && check != "format" && !broken)
      && (p.spec.scope.Unavailable? <==>
            !p.spec.scope.Skipped? && own == "" && (root == "" || check == "format" || broken))
      && (p.spec.scope.Focused? ==>
            (check in c.selected && (p.executor, check) in c.named
             && forall x :: x in p.spec.files <==> x in c.named[(p.executor, check)]))
  {
    hide Join;
  }

  // ---------- All requests together ----------

  function For(requests: seq<Placed>, executor: string, check: string): seq<Spec> {
    if requests == [] then []
    else
      var front := For(requests[..|requests| - 1], executor, check);
      var last := requests[|requests| - 1];
      if last.executor == executor && last.spec.check == check then front + [last.spec] else front
  }

  lemma {:induction false} ForMembers(requests: seq<Placed>, executor: string, check: string, r: Spec)
    ensures r in For(requests, executor, check) <==> Placed(executor, r) in requests && r.check == check
  {
    if requests != [] {
      var front, last := requests[..|requests| - 1], requests[|requests| - 1];
      assert requests == front + [last];
      ForMembers(front, executor, check, r);
    }
  }

  /** The plan holds, for each executor and check, what was asked of it folded in order. */
  ghost predicate Holds(groups: seq<Group>, requests: seq<Placed>) {
    && Distinct(groups) && AllReady(groups)
    && forall root, check :: var rs := For(requests, root, check);
         Ready(rs) && Find(groups, root, check) == if rs == [] then None else Some(Fold(rs))
  }

  lemma HoldsNext(groups: seq<Group>, requests: seq<Placed>, p: Placed)
    requires Holds(groups, requests) && Ready([p.spec])
    ensures Holds(Added(groups, p.executor, p.spec), requests + [p])
  {
    hide Find, Distinct, Added, Merged;
    AddedKeeps(groups, p.executor, p.spec);
    forall root, check
      ensures var rs := For(requests + [p], root, check);
        Ready(rs) && Find(Added(groups, p.executor, p.spec), root, check) == if rs == [] then None else Some(Fold(rs))
    {
      AddedFinds(groups, p.executor, p.spec, root, check);
      FoldNext(requests, p, root, check);
    }
  }

  lemma FoldNext(requests: seq<Placed>, p: Placed, root: string, check: string)
    requires Ready(For(requests, root, check)) && Ready([p.spec])
    ensures var rs, next := For(requests, root, check), For(requests + [p], root, check);
      Ready(next) && if root == p.executor && check == p.spec.check then
        next != [] && Fold(next) == MergedWith(if rs == [] then None else Some(Fold(rs)), p.spec)
      else next == rs
  {
    hide Merged;
    assert (requests + [p])[..|requests|] == requests;
    var rs := For(requests, root, check);
    if root == p.executor && check == p.spec.check {
      var next := rs + [p.spec];
      assert next[..|rs|] == rs;
      assert forall r :: r in next ==> r in rs || r in [p.spec];
    }
  }

  // ---------- Sorting ----------

  ghost predicate OrderedChecks(specs: seq<Spec>) {
    forall i, j :: 0 <= i < j < |specs| ==> Less(specs[i].check, specs[j].check)
  }

  ghost predicate OrderedGroups(groups: seq<Group>) {
    forall i, j :: 0 <= i < j < |groups| ==> Less(groups[i].root, groups[j].root)
  }

  /** The form in which a plan is published. */
  ghost predicate Canonical(groups: seq<Group>) {
    OrderedGroups(groups) && forall g :: g in groups ==> g.checks != [] && OrderedChecks(g.checks)
  }

  function InsertCheck(spec: Spec, specs: seq<Spec>): (r: seq<Spec>)
    ensures forall s :: s in r <==> s == spec || s in specs
  {
    if specs == [] || Less(spec.check, specs[0].check) then [spec] + specs
    else
      var rest := InsertCheck(spec, specs[1..]);
      assert forall s :: s in specs <==> s == specs[0] || s in specs[1..];
      [specs[0]] + rest
  }

  function SortChecks(specs: seq<Spec>): (r: seq<Spec>)
    ensures forall s :: s in r <==> s in specs
  {
    if specs == [] then []
    else
      assert forall s :: s in specs <==> s == specs[0] || s in specs[1..];
      InsertCheck(specs[0], SortChecks(specs[1..]))
  }

  function InsertGroup(group: Group, groups: seq<Group>): (r: seq<Group>)
    ensures forall g :: g in r <==> g == group || g in groups
  {
    if groups == [] || Less(group.root, groups[0].root) then [group] + groups
    else
      var rest := InsertGroup(group, groups[1..]);
      assert forall g :: g in groups <==> g == groups[0] || g in groups[1..];
      [groups[0]] + rest
  }

  function SortPlan(groups: seq<Group>): seq<Group> {
    if groups == [] then []
    else InsertGroup(Group(groups[0].root, SortChecks(groups[0].checks)), SortPlan(groups[1..]))
  }

  lemma {:induction false} InsertCheckOrders(spec: Spec, specs: seq<Spec>)
    requires OrderedChecks(specs) && forall s :: s in specs ==> s.check != spec.check
    ensures OrderedChecks(InsertCheck(spec, specs))
  {
    if specs != [] {
      LessTotal(spec.check, specs[0].check);
      var r := InsertCheck(spec, specs);
      if Less(spec.check, specs[0].check) {
        forall j | 0 < j < |specs| ensures Less(spec.check, specs[j].check) {
          LessTransitive(spec.check, specs[0].check, specs[j].check);
        }
      } else {
        InsertCheckOrders(spec, specs[1..]);
        forall j | 0 < j < |r| ensures Less(r[0].check, r[j].check) {
          assert r[j] in InsertCheck(spec, specs[1..]);
        }
      }
    }
  }

  lemma {:induction false} SortChecksOrders(specs: seq<Spec>)
    requires DistinctChecks(specs)
    ensures OrderedChecks(SortChecks(specs))
  {
    if specs != [] {
      SortChecksOrders(specs[1..]);
      InsertCheckOrders(specs[0], SortChecks(specs[1..]));
    }
  }

  lemma {:induction false} InsertGroupOrders(group: Group, groups: seq<Group>)
    requires OrderedGroups(groups) && forall g :: g in groups ==> g.root != group.root
    ensures OrderedGroups(InsertGroup(group, groups))
  {
    if groups != [] {
      LessTotal(group.root, groups[0].root);
      var r := InsertGroup(group, groups);
      if Less(group.root, groups[0].root) {
        forall j | 0 < j < |groups| ensures Less(group.root, groups[j].root) {
          LessTransitive(group.root, groups[0].root, groups[j].root);
        }
      } else {
        InsertGroupOrders(group, groups[1..]);
        forall j | 0 < j < |r| ensures Less(r[0].root, r[j].root) {
          assert r[j] in InsertGroup(group, groups[1..]);
        }
      }
    }
  }

  /** Sorting keeps the groups, each with the same checks. */
  lemma {:induction false} SortPlanMembers(groups: seq<Group>, g: Group)
    ensures g in SortPlan(groups) <==> exists h :: h in groups && g == Group(h.root, SortChecks(h.checks))
  {
    if groups != [] {
      SortPlanMembers(groups[1..], g);
      assert forall h :: h in groups <==> h == groups[0] || h in groups[1..];
    }
  }

  lemma {:induction false} SortPlanOrders(groups: seq<Group>)
    requires Distinct(groups)
    ensures Canonical(SortPlan(groups))
  {
    if groups != [] {
      hide SortChecks, OrderedChecks, DistinctChecks;
      SortPlanOrders(groups[1..]);
      var first := Group(groups[0].root, SortChecks(groups[0].checks));
      var rest := SortPlan(groups[1..]);
      forall g | g in rest ensures g.root != first.root {
        SortPlanMembers(groups[1..], g);
      }
      InsertGroupOrders(first, rest);
      assert groups[0] in groups;
      SortChecksOrders(groups[0].checks);
      assert groups[0].checks[0] in SortChecks(groups[0].checks);
    }
  }

  /** In a plan with distinct groups, what is found is what is held. */
  lemma {:induction false} FindCheckIn(specs: seq<Spec>, check: string, s: Spec)
    requires DistinctChecks(specs)
    ensures FindCheck(specs, check) == Some(s) <==> s in specs && s.check == check
  {
    if specs != [] {
      assert forall t :: t in specs <==> t == specs[0] || t in specs[1..];
      FindCheckIn(specs[1..], check, s);
    }
  }

  lemma {:induction false} FindIn(groups: seq<Group>, root: string, check: string, s: Spec)
    requires Distinct(groups)
    ensures Find(groups, root, check) == Some(s)
        <==> exists g :: g in groups && g.root == root && s in g.checks && s.check == check
  {
    hide FindCheck, DistinctChecks;
    if groups != [] {
      assert forall t :: t in groups <==> t == groups[0] || t in groups[1..];
      FindIn(groups[1..], root, check, s);
      FindCheckIn(groups[0].checks, check, s);
    }
  }

  lemma CanonicalDistinct(groups: seq<Group>)
    requires Canonical(groups)
    ensures Distinct(groups)
  {
    forall i, j | 0 <= i < j < |groups| ensures groups[i].root != groups[j].root {
      LessTotal(groups[i].root, groups[i].root);
    }
    forall g | g in groups ensures DistinctChecks(g.checks) {
      forall i, j | 0 <= i < j < |g.checks| ensures g.checks[i].check != g.checks[j].check {
        LessTotal(g.checks[i].check, g.checks[i].check);
      }
    }
  }

  lemma SortPlanFinds(groups: seq<Group>, root: string, check: string)
    requires Distinct(groups)
    ensures Canonical(SortPlan(groups)) && Find(SortPlan(groups), root, check) == Find(groups, root, check)
  {
    SortPlanOrders(groups);
    CanonicalDistinct(SortPlan(groups));
    var sorted := SortPlan(groups);
    forall s ensures Find(sorted, root, check) == Some(s) <==> Find(groups, root, check) == Some(s) {
      FindIn(groups, root, check, s);
      FindIn(sorted, root, check, s);
      forall g ensures g in sorted <==> exists h :: h in groups && g == Group(h.root, SortChecks(h.checks)) {
        SortPlanMembers(groups, g);
      }
      if h :| h in groups && h.root == root && s in h.checks {
        assert Group(h.root, SortChecks(h.checks)) in sorted;
      }
    }
    if Find(groups, root, check).Some? {
      assert Find(groups, root, check) == Some(Find(groups, root, check).value);
    }
    if Find(sorted, root, check).Some? {
      assert Find(sorted, root, check) == Some(Find(sorted, root, check).value);
    }
  }

  // ---------- The whole plan ----------

  /** The requests of one component, and of all, in the order they are made. */
  function RequestsOf(setup: Setup, c: Component, checks: seq<string>): seq<Placed> {
    if checks == [] then []
    else RequestsOf(setup, c, checks[..|checks| - 1]) + [Decide(setup, c, checks[|checks| - 1])]
  }

  function RequestsFrom(setup: Setup, cs: seq<Component>): seq<Placed> {
    if cs == [] then []
    else RequestsFrom(setup, cs[..|cs| - 1]) + RequestsOf(setup, cs[|cs| - 1], setup.checks)
  }

  function Requests(setup: Setup): seq<Placed> {
    RequestsFrom(setup, setup.components)
  }

  lemma {:induction false} RequestsOfMembers(setup: Setup, c: Component, checks: seq<string>, p: Placed)
    ensures p in RequestsOf(setup, c, checks) <==> exists check :: check in checks && p == Decide(setup, c, check)
  {
    hide Decide;
    if checks != [] {
      RequestsOfMembers(setup, c, checks[..|checks| - 1], p);
      assert checks == checks[..|checks| - 1] + [checks[|checks| - 1]];
    }
  }

  lemma {:induction false} RequestsMembers(setup: Setup, cs: seq<Component>, p: Placed)
    ensures p in RequestsFrom(setup, cs)
        <==> exists c, check :: c in cs && check in setup.checks && p == Decide(setup, c, check)
  {
    hide Decide;
    if cs != [] {
      RequestsMembers(setup, cs[..|cs| - 1], p);
      RequestsOfMembers(setup, cs[|cs| - 1], setup.checks, p);
      assert cs == cs[..|cs| - 1] + [cs[|cs| - 1]];
    }
  }

  /** The published plan of the components that were selected. */
  ghost predicate Planned(groups: seq<Group>, setup: Setup) {
    Canonical(groups) && Holds(groups, Requests(setup))
  }

  /** The requests of one executor and check. */
  lemma ForRequests(setup: Setup, root: string, check: string, r: Spec)
    ensures r in For(Requests(setup), root, check)
        <==> exists c :: c in setup.components && check in setup.checks && Decide(setup, c, check) == Placed(root, r)
  {
    ForMembers(Requests(setup), root, check, r);
    RequestsMembers(setup, setup.components, Placed(root, r));
    forall c, k ensures Decide(setup, c, k).spec.check == k {
      DecideIs(setup, c, k);
    }
  }

  /** Unavailable and focused requests never meet: a missing target is reported at home,
      where nothing else asks, or at the root, which then nothing falls back to. */
  lemma NeverMixed(setup: Setup, root: string, check: string)
    ensures var rs := For(Requests(setup), root, check);
      !Mixed(rs) && forall r :: r in rs ==> Request(r, check, Target(setup, root, check))
  {
    var rs := For(Requests(setup), root, check);
    hide Requests, For, Decide;
    forall r | r in rs ensures Request(r, check, Target(setup, root, check)) {
      ForRequests(setup, root, check, r);
      var c :| c in setup.components && Decide(setup, c, check) == Placed(root, r);
      DecideIs(setup, c, check);
    }
    if Mixed(rs) {
      var f :| f in rs && f.scope.Focused?;
      var u :| u in rs && u.scope.Unavailable?;
      ForRequests(setup, root, check, f);
      ForRequests(setup, root, check, u);
      var c :| c in setup.components && Decide(setup, c, check) == Placed(root, f);
      var d :| d in setup.components && Decide(setup, d, check) == Placed(root, u);
      DecideIs(setup, c, check);
      DecideIs(setup, d, check);
      assert false;
    }
  }

  /** Two canonical plans that hold the same specs are the same. */
  lemma {:induction false} CanonicalUnique(a: seq<Group>, b: seq<Group>)
    requires Canonical(a) && Canonical(b)
    requires forall root, check :: Find(a, root, check) == Find(b, root, check)
    ensures a == b
  {
    CanonicalDistinct(a);
    CanonicalDistinct(b);
    GroupsWithin(a, b);
    GroupsWithin(b, a);
    OrderedUnique(a, b);
  }

  lemma GroupsWithin(a: seq<Group>, b: seq<Group>)
    requires Canonical(a) && Canonical(b) && Distinct(a) && Distinct(b)
    requires forall root, check :: Find(a, root, check) == Find(b, root, check)
    ensures forall g :: g in a ==> g in b
  {
    forall g | g in a ensures g in b {
      var s := g.checks[0];
      FindIn(a, g.root, s.check, s);
      FindIn(b, g.root, s.check, s);
      var h :| h in b && h.root == g.root && s in h.checks;
      forall t ensures t in g.checks <==> t in h.checks {
        SameGroupChecks(a, b, g, h, t);
      }
      OrderedChecksUnique(g.checks, h.checks);
      assert g == h;
    }
  }

  lemma SameGroupChecks(a: seq<Group>, b: seq<Group>, g: Group, h: Group, t: Spec)
    requires Distinct(a) && Distinct(b) && g in a && h in b && g.root == h.root
    requires forall root, check :: Find(a, root, check) == Find(b, root, check)
    ensures t in g.checks <==> t in h.checks
  {
    hide Find;
    FindIn(a, g.root, t.check, t);
    FindIn(b, g.root, t.check, t);
  }

  lemma {:induction false} OrderedChecksUnique(a: seq<Spec>, b: seq<Spec>)
    requires OrderedChecks(a) && OrderedChecks(b) && forall s :: s in a <==> s in b
    ensures a == b
  {
    assert a != [] ==> a[0] in b;
    assert b != [] ==> b[0] in a;
    if a != [] && b != [] {
      LessTotal(a[0].check, b[0].check);
      assert a[0] == b[0];
      LessTotal(a[0].check, a[0].check);
      assert a == [a[0]] + a[1..] && b == [b[0]] + b[1..];
      forall s ensures s in a[1..] <==> s in b[1..] {
        assert s in a <==> s == a[0] || s in a[1..];
        assert s in b <==> s == b[0] || s in b[1..];
      }
      OrderedChecksUnique(a[1..], b[1..]);
    }
  }

  lemma {:induction false} OrderedUnique(a: seq<Group>, b: seq<Group>)
    requires OrderedGroups(a) && OrderedGroups(b)
    requires (forall g :: g in a ==> g in b) && (forall g :: g in b ==> g in a)
    ensures a == b
  {
    assert a != [] ==> a[0] in b;
    assert b != [] ==> b[0] in a;
    if a != [] && b != [] {
      LessTotal(a[0].root, b[0].root);
      assert a[0] == b[0];
      LessTotal(a[0].root, a[0].root);
      assert a == [a[0]] + a[1..] && b == [b[0]] + b[1..];
      forall g ensures g in a[1..] <==> g in b[1..] {
        assert g in a <==> g == a[0] || g in a[1..];
        assert g in b <==> g == b[0] || g in b[1..];
      }
      OrderedUnique(a[1..], b[1..]);
    }
  }

  /** The order of the components does not matter to the published plan. */
  lemma PlanIsOrderFree(a: seq<Group>, b: seq<Group>, setup: Setup, cs: seq<Component>)
    requires Planned(a, setup) && Planned(b, setup.(components := cs))
    requires forall c :: c in cs <==> c in setup.components
    ensures a == b
  {
    var other := setup.(components := cs);
    hide Requests, For, Canonical, Find, Decide, Mixed, Request;
    forall root, check ensures Find(a, root, check) == Find(b, root, check) {
      var f, g := For(Requests(setup), root, check), For(Requests(other), root, check);
      forall r ensures r in f <==> r in g {
        ForRequests(setup, root, check, r);
        ForRequests(other, root, check, r);
        DecideSame(setup, other, check);
      }
      assert f != [] ==> f[0] in g;
      assert g != [] ==> g[0] in f;
      if f != [] && g != [] {
        NeverMixed(setup, root, check);
        OrderDoesNotMatter(f, g, check, Target(setup, root, check));
      }
    }
    CanonicalUnique(a, b);
  }

  lemma DecideSame(a: Setup, b: Setup, check: string)
    requires b == a.(components := b.components)
    ensures forall c :: Decide(a, c, check) == Decide(b, c, check)
  {}

  /** A component asks this executor for the check, in a given scope. */
  ghost predicate AsksAt(setup: Setup, root: string, check: string, c: Component)
  {
    c in setup.components && check in setup.checks && Decide(setup, c, check).executor == root
  }

  ghost predicate AsksFor(setup: Setup, root: string, check: string, scope: Scope)
  {
    exists c :: AsksAt(setup, root, check, c)
                && Decide(setup, c, check).spec.scope == scope
  }

  /** What the spec of an executor and a check says, component by component. */
  ghost predicate Means(s: Spec, setup: Setup, root: string, check: string)
  {
    && s.check == check && Increasing(s.requesters) && Increasing(s.files) && (!s.scope.Focused? ==> s.files == [])
    && s.command == Command(check, Target(setup, root, check), s.scope, s.files)
    && (forall x :: x in s.requesters <==>
          exists c :: AsksAt(setup, root, check, c) && c.root == x)
    && (s.scope.Full? <==> AsksFor(setup, root, check, Full))
    && (s.scope.Focused? <==> AsksFor(setup, root, check, Focused)
                              && !AsksFor(setup, root, check, Full))
    && (s.scope.Skipped? <==> OnlySkips(setup, root, check))
    && (s.scope.Focused? ==> forall x :: x in s.files <==>
          exists c :: AsksAt(setup, root, check, c)
                      && x in Decide(setup, c, check).spec.files)
  }

  lemma PlanMeans(groups: seq<Group>, setup: Setup, root: string, check: string)
    requires Planned(groups, setup)
    ensures Find(groups, root, check).Some?
        <==> exists c :: AsksAt(setup, root, check, c)
    ensures Find(groups, root, check).Some? ==>
      Means(Find(groups, root, check).value, setup, root, check)
  {
    var rs := For(Requests(setup), root, check);
    hide Requests, For, Canonical, Find, Decide, Means, Summary, Mixed, Request, Command;
    ForAsks(setup, root, check);
    if rs != [] {
      assert rs[0] in rs;
      NeverMixed(setup, root, check);
      FoldIsSummary(rs, check, Target(setup, root, check));
      SummaryIsMeant(setup, root, check);
    }
  }

  /** The requests of an executor and check, seen from the components. */
  lemma ForAsks(setup: Setup, root: string, check: string)
    ensures var rs := For(Requests(setup), root, check);
      forall r :: r in rs <==> exists c :: AsksAt(setup, root, check, c)
                                           && Decide(setup, c, check).spec == r
    ensures forall c :: AsksAt(setup, root, check, c) ==>
      Decide(setup, c, check).spec in For(Requests(setup), root, check)
  {
    hide Requests, For, Decide;
    var rs := For(Requests(setup), root, check);
    forall r
      ensures r in rs <==> exists c :: AsksAt(setup, root, check, c)
                                       && Decide(setup, c, check).spec == r
    {
      ForRequests(setup, root, check, r);
    }
  }

  lemma SummaryIsMeant(setup: Setup, root: string, check: string)
    requires For(Requests(setup), root, check) != []
    ensures var rs := For(Requests(setup), root, check);
      Means(Summary(rs, check, Target(setup, root, check)), setup, root, check)
  {
    var target := Target(setup, root, check);
    var rs := For(Requests(setup), root, check);
    var s := Summary(rs, check, target);
    hide *;
    hide Requests, For, Decide, Mixed, Request, Command, Summary, Target, AsksFor, AsksAt, Increasing, Asks;
    NeverMixed(setup, root, check);
    SummaryShape(rs, check, target);
    ScopesAre(setup, root, check);
    forall x
      ensures x in s.requesters <==> exists c :: AsksAt(setup, root, check, c) && c.root == x
    {
      SummaryMeans(rs, check, target, x);
      RequestersAre(setup, root, check, x);
    }
    if s.scope.Focused? {
      forall x
        ensures x in s.files <==> exists c :: AsksAt(setup, root, check, c)
                                              && x in Decide(setup, c, check).spec.files
      {
        SummaryMeans(rs, check, target, x);
        FilesAre(setup, root, check, x);
      }
    }
    assert Means(s, setup, root, check) by {
      MeansOf(s, setup, root, check);
    }
  }

  lemma MeansOf(s: Spec, setup: Setup, root: string, check: string)
    requires s.check == check && Increasing(s.requesters)
    requires Increasing(s.files) && (!s.scope.Focused? ==> s.files == [])
    requires s.command == Command(check, Target(setup, root, check), s.scope, s.files)
    requires forall x :: x in s.requesters <==>
      exists c :: AsksAt(setup, root, check, c) && c.root == x
    requires s.scope.Full? <==> AsksFor(setup, root, check, Full)
    requires s.scope.Focused? <==> AsksFor(setup, root, check, Focused)
                                   && !AsksFor(setup, root, check, Full)
    requires s.scope.Skipped? <==> OnlySkips(setup, root, check)
    requires s.scope.Focused? ==> forall x :: x in s.files <==>
      exists c :: AsksAt(setup, root, check, c)
                  && x in Decide(setup, c, check).spec.files
    ensures Means(s, setup, root, check)
  {
    hide Command, Target, AsksFor, AsksAt, Increasing, Decide;
  }

  ghost predicate OnlySkips(setup: Setup, root: string, check: string)
  {
    forall scope :: AsksFor(setup, root, check, scope) ==> scope.Skipped?
  }

  lemma SummaryShape(rs: seq<Spec>, check: string, target: string)
    ensures var s := Summary(rs, check, target);
      && s.check == check && Increasing(s.requesters) && Increasing(s.files) && (!s.scope.Focused? ==> s.files == [])
      && s.command == Command(check, target, s.scope, s.files)
  {}

  lemma ScopesAre(setup: Setup, root: string, check: string)
    requires For(Requests(setup), root, check) != []
    ensures var rs := For(Requests(setup), root, check);
      var s := Summary(rs, check, Target(setup, root, check));
      && (s.scope.Full? <==> AsksFor(setup, root, check, Full))
      && (s.scope.Focused? <==> AsksFor(setup, root, check, Focused)
                                && !AsksFor(setup, root, check, Full))
      && (s.scope.Skipped? <==> OnlySkips(setup, root, check))
  {
    var rs := For(Requests(setup), root, check);
    hide Requests, For, Decide, Mixed, Request, Command, Summary, Target, AsksAt;
    ForAsks(setup, root, check);
    NeverMixed(setup, root, check);
    SummaryMeans(rs, check, Target(setup, root, check), "");
    forall scope ensures AsksFor(setup, root, check, scope) == Asks(rs, scope) {}
  }

  lemma FilesAre(setup: Setup, root: string, check: string, x: string)
    ensures var rs := For(Requests(setup), root, check);
      (exists r :: r in rs && x in r.files)
      <==> exists c :: AsksAt(setup, root, check, c)
                       && x in Decide(setup, c, check).spec.files
  {
    hide Requests, For, Decide;
    ForAsks(setup, root, check);
  }

  lemma RequestersAre(setup: Setup, root: string, check: string, x: string)
    ensures var rs := For(Requests(setup), root, check);
      (exists r :: r in rs && x in r.requesters)
      <==> exists c :: AsksAt(setup, root, check, c) && c.root == x
  {
    hide Requests, For, Decide;
    ForAsks(setup, root, check);
    forall c ensures Decide(setup, c, check).spec.requesters == [c.root] {
      DecideIs(setup, c, check);
    }
  }

  ghost predicate DistinctRoots(cs: seq<Component>) {
    forall c, d :: c in cs && d in cs && c.root == d.root ==> c == d
  }

  /** Each selected component and check is requested of exactly one executor. */
  lemma EachRequestOnce(groups: seq<Group>, setup: Setup, c: Component, check: string)
    requires Planned(groups, setup) && DistinctRoots(setup.components)
    requires c in setup.components && check in setup.checks
    ensures forall root ::
      (Find(groups, root, check).Some? && c.root in Find(groups, root, check).value.requesters)
      <==> root == Decide(setup, c, check).executor
  {
    hide Find, Decide, Planned;
    forall root
      ensures (Find(groups, root, check).Some? && c.root in Find(groups, root, check).value.requesters)
          <==> root == Decide(setup, c, check).executor
    {
      PlanMeans(groups, setup, root, check);
      if root == Decide(setup, c, check).executor {
        assert AsksAt(setup, root, check, c);
      }
    }
  }

  // ---------- Planning ----------

  const CHECKS: set<string> := {"lint", "test", "format"}

  /** The components a request names, or all of them. */
  function Chosen(layout: seq<Component>, wanted: Option<seq<string>>): seq<Component> {
    if layout == [] then []
    else
      var front, last := Chosen(layout[..|layout| - 1], wanted), layout[|layout| - 1];
      if wanted.None? || last.root in wanted.value then front + [last] else front
  }

  predicate Named(layout: seq<Component>, root: string) {
    exists c :: c in layout && c.root == root
  }

  lemma NamedNext(layout: seq<Component>, i: nat)
    requires i < |layout|
    ensures forall w :: Named(layout[..i + 1], w) <==> Named(layout[..i], w) || w == layout[i].root
  {
    assert layout[..i + 1] == layout[..i] + [layout[i]];
  }

  lemma EmptyHolds()
    ensures Holds([], [])
  {}

  lemma SortHolds(groups: seq<Group>, requests: seq<Placed>)
    requires Holds(groups, requests)
    ensures Canonical(SortPlan(groups)) && Holds(SortPlan(groups), requests)
  {
    hide Find, Fold, For, Canonical;
    SortPlanFinds(groups, "", "");
    CanonicalDistinct(SortPlan(groups));
    SortReady(groups);
    forall root, check ensures Find(SortPlan(groups), root, check) == Find(groups, root, check) {
      SortPlanFinds(groups, root, check);
    }
  }

  lemma SortReady(groups: seq<Group>)
    requires AllReady(groups)
    ensures AllReady(SortPlan(groups))
  {
    forall g | g in SortPlan(groups) ensures Ready(g.checks) {
      SortPlanMembers(groups, g);
      var h :| h in groups && g == Group(h.root, SortChecks(h.checks));
    }
  }

  /** Every check of one component. */
  method RequestAll(plan: Plan, setup: Setup, c: Component, ghost done: seq<Placed>)
    requires plan.Valid() && Holds(plan.components, done)
    modifies plan
    ensures plan.Valid() && Holds(plan.components, done + RequestsOf(setup, c, setup.checks))
  {
    hide Holds, Decide, Distinct, AllReady;
    assert done + [] == done;
    for j := 0 to |setup.checks|
      invariant plan.Valid()
      invariant Holds(plan.components, done + RequestsOf(setup, c, setup.checks[..j]))
    {
      var p := Decide(setup, c, setup.checks[j]);
      ghost var requests := done + RequestsOf(setup, c, setup.checks[..j]);
      DecideIs(setup, c, setup.checks[j]);
      HoldsNext(plan.components, requests, p);
      plan.Append(p.executor, p.spec);
      assert setup.checks[..j + 1][..j] == setup.checks[..j];
      assert requests + [p] == done + RequestsOf(setup, c, setup.checks[..j + 1]);
    }
    assert setup.checks[..|setup.checks|] == setup.checks;
  }

  /** Whether only known checks are asked for. */
  method Supported(checks: seq<string>) returns (ok: bool)
    ensures ok <==> forall k :: k in checks ==> k in CHECKS
  {
    for i := 0 to |checks|
      invariant forall j :: 0 <= j < i ==> checks[j] in CHECKS
    {
      if checks[i] !in CHECKS {
        return false;
      }
    }
    ok := true;
  }

  /** Whether every wanted root was found. */
  method AllFound(layout: seq<Component>, wanted: seq<string>, found: set<string>) returns (ok: bool)
    requires forall w :: w in found <==> w in wanted && Named(layout, w)
    ensures ok <==> forall w :: w in wanted ==> Named(layout, w)
  {
    for j := 0 to |wanted|
      invariant forall k :: 0 <= k < j ==> Named(layout, wanted[k])
    {
      if wanted[j] !in found {
        return false;
      }
    }
    ok := true;
  }

  /** The loop over the layout, which passes over components that are not wanted. */
  method Collect(layout: seq<Component>, setup: Setup, wanted: Option<seq<string>>)
    returns (groups: seq<Group>, found: set<string>)
    requires setup.components == Chosen(layout, wanted)
    ensures Holds(groups, Requests(setup))
    ensures forall w :: w in found <==> wanted.Some? && w in wanted.value && Named(layout, w)
  {
    hide Holds, Decide, Distinct, Named, AllReady;
    var plan := new Plan();
    found := {};
    EmptyHolds();
    forall w ensures !Named(layout[..0], w) { NamedNone(layout, w); }
    assert layout[..0] == [];
    for i := 0 to |layout|
      invariant plan.Valid() && fresh(plan)
      invariant Holds(plan.components, RequestsFrom(setup, Chosen(layout[..i], wanted)))
      invariant forall w :: w in found <==> wanted.Some? && w in wanted.value && Named(layout[..i], w)
    {
      var c := layout[i];
      NamedNext(layout, i);
      ChosenNext(setup, layout, wanted, i);
      if wanted.None? || c.root in wanted.value {
        if wanted.Some? {
          found := found + {c.root};
        }
        RequestAll(plan, setup, c, RequestsFrom(setup, Chosen(layout[..i], wanted)));
      }
    }
    assert layout[..|layout|] == layout;
    groups := plan.components;
  }

  lemma ChosenNext(setup: Setup, layout: seq<Component>, wanted: Option<seq<string>>, i: nat)
    requires i < |layout|
    ensures var front, c := Chosen(layout[..i], wanted), layout[i];
      RequestsFrom(setup, Chosen(layout[..i + 1], wanted))
      == if wanted.None? || c.root in wanted.value then
           RequestsFrom(setup, front) + RequestsOf(setup, c, setup.checks)
         else RequestsFrom(setup, front)
  {
    hide RequestsOf, Decide;
    var front, c := Chosen(layout[..i], wanted), layout[i];
    assert layout[..i + 1][..i] == layout[..i];
    assert (front + [c])[..|front|] == front;
  }

  lemma NamedNone(layout: seq<Component>, w: string)
    ensures !Named(layout[..0], w)
  {}

  /** `PlanValidation`: refuses unknown checks and components, and publishes the plan. */
  method PlanValidation(layout: seq<Component>, contracts: map<string, Contract>, impact: bool, raw: seq<string>,
                        wanted: Option<seq<string>>) returns (r: Option<seq<Group>>)
    ensures r.None? <==> ((exists k :: k in raw && k !in CHECKS)
                          || (wanted.Some? && exists w :: w in wanted.value && !Named(layout, w)))
    ensures r.Some? ==> Planned(r.value, Setup(contracts, impact, Chosen(layout, wanted), Unique(raw)))
  {
    var checks := Unique(raw);
    var supported := Supported(checks);
    if !supported {
      return None;
    }
    assert forall k :: k in raw ==> k in checks;
    var setup := Setup(contracts, impact, Chosen(layout, wanted), checks);
    var groups, found := Collect(layout, setup, wanted);
    if wanted.Some? {
      var all := AllFound(layout, wanted.value, found);
      if !all {
        return None;
      }
    }
    SortHolds(groups, Requests(setup));
    return Some(SortPlan(groups));
  }
}
