/** What a published validation plan says, read off the components and their Makefiles. */
module PlanMeaning {
  import opened Basics
  import opened Identifiers
  import opened PlanMerge
  import opened ValidationPlan

  /** The Makefile of the component at `root` declares a target for the check. */
  ghost predicate Offers(setup: Setup, root: string, check: string) {
    root in setup.contracts && check in setup.contracts[root].targets && setup.contracts[root].targets[check] != ""
  }

  /** The impact passes the component over. */
  ghost predicate Idle(setup: Setup, c: Component) {
    setup.impact && !c.relevant
  }

  /** The root runs a check that the component's own sound Makefile does not declare, but
      never formats for it. */
  ghost predicate Lends(setup: Setup, c: Component, check: string) {
    && !Idle(setup, c) && !Offers(setup, c.root, check) && Offers(setup, ".", check) && check != "format"
    && c.root != "." && c.root in setup.contracts && !setup.contracts[c.root].broken
  }

  /** Where the component's check is planned. */
  ghost function Place(setup: Setup, c: Component, check: string): string {
    if Lends(setup, c, check) then "." else c.root
  }

  /** Files are selected, can be named there, and the Makefile takes a list of them. */
  ghost predicate Narrows(setup: Setup, c: Component, check: string) {
    var root := Place(setup, c, check);
    && check in c.selected && (root, check) in c.named && root in setup.contracts
    && (if check == "test" then "TEST_FILES" else "LINT_FILES") in setup.contracts[root].variables
  }

  ghost function Wants(setup: Setup, c: Component, check: string): Scope {
    if Idle(setup, c) then Skipped
    else if !Offers(setup, Place(setup, c, check), check) then Unavailable
    else if Narrows(setup, c, check) then Focused
    else Full
  }

  /** The component asks for this check, and it is planned at this executor. */
  ghost predicate Asker(setup: Setup, root: string, check: string, c: Component) {
    c in setup.components && check in setup.checks && Place(setup, c, check) == root
  }

  ghost predicate SomeWant(setup: Setup, root: string, check: string, scope: Scope) {
    exists c :: Asker(setup, root, check, c) && Wants(setup, c, check) == scope
  }

  /** Who asks, how much is checked, on which files, and with which command. A full request
      makes the check full; otherwise focused ones unite their files. */
  ghost predicate Says(setup: Setup, root: string, s: Spec) {
    && (exists c :: Asker(setup, root, s.check, c))
    && Increasing(s.requesters)
    && (forall x :: x in s.requesters <==> exists c :: Asker(setup, root, s.check, c) && c.root == x)
    && s.scope == (if SomeWant(setup, root, s.check, Full) then Full
                   else if SomeWant(setup, root, s.check, Focused) then Focused
                   else if SomeWant(setup, root, s.check, Unavailable) then Unavailable
                   else Skipped)
    && Increasing(s.files) && (s.scope != Focused ==> s.files == [])
    && (s.scope == Focused ==> forall x :: x in s.files <==>
          exists c :: Asker(setup, root, s.check, c) && Wants(setup, c, s.check) == Focused
                      && x in c.named[(root, s.check)])
    && RunsAs(setup, root, s)
  }

  ghost predicate RunsAs(setup: Setup, root: string, s: Spec) {
    if s.scope == Skipped || s.scope == Unavailable then s.command == []
    else
      && Offers(setup, root, s.check)
      && s.command == ["make", "-f", "Makefile", setup.contracts[root].targets[s.check],
                       "LINT_FILES=" + (if s.scope == Focused && s.check != "test" then Join(s.files, " ") else ""),
                       "TEST_FILES=" + (if s.scope == Focused && s.check == "test" then Join(s.files, " ") else "")]
  }

  /** The request a component makes. */
  lemma DecidesSo(setup: Setup, c: Component, check: string)
    ensures var p := Decide(setup, c, check);
      && p.executor == Place(setup, c, check) && p.spec.scope == Wants(setup, c, check)
      && (p.spec.scope == Focused ==>
            ((p.executor, check) in c.named
             && forall x :: x in p.spec.files <==> x in c.named[(p.executor, check)]))
      && (p.spec.scope != Focused ==> p.spec.files == [])
  {
    hide Join, Unique;
  }

  lemma AskersAre(setup: Setup, root: string, check: string)
    ensures forall c :: Asker(setup, root, check, c) <==> AsksAt(setup, root, check, c)
    ensures forall scope :: SomeWant(setup, root, check, scope) <==> AsksFor(setup, root, check, scope)
  {
    hide Decide, Place, Wants;
    forall c ensures Decide(setup, c, check).executor == Place(setup, c, check)
                  && Decide(setup, c, check).spec.scope == Wants(setup, c, check)
    {
      DecidesSo(setup, c, check);
    }
  }

  /** Every spec of a plan says this, and every component's check is asked for in the spec of
      its place; executors and checks are sorted and none is listed twice. */
  lemma PlanSays(groups: seq<Group>, setup: Setup)
    requires Planned(groups, setup)
    ensures forall g, s :: g in groups && s in g.checks ==> Says(setup, g.root, s)
    ensures forall c, check :: c in setup.components && check in setup.checks ==>
      exists g, s :: g in groups && s in g.checks && g.root == Place(setup, c, check) && s.check == check
                     && c.root in s.requesters
    ensures forall i, j :: 0 <= i < j < |groups| ==> Less(groups[i].root, groups[j].root)
    ensures forall g, i, j :: g in groups && 0 <= i < j < |g.checks| ==> Less(g.checks[i].check, g.checks[j].check)
  {
    CanonicalDistinct(groups);
    hide Says, Place, Find, Requests, Decide, Holds;
    forall g, s | g in groups && s in g.checks ensures Says(setup, g.root, s) {
      FindIn(groups, g.root, s.check, s);
      FoundSays(groups, setup, g.root, s);
    }
    forall c, check | c in setup.components && check in setup.checks
      ensures exists g, s :: g in groups && s in g.checks && g.root == Place(setup, c, check) && s.check == check
                             && c.root in s.requesters
    {
      var g, s := EveryoneIsHeard(groups, setup, c, check);
    }
  }

  lemma EveryoneIsHeard(groups: seq<Group>, setup: Setup, c: Component, check: string) returns (g: Group, s: Spec)
    requires Planned(groups, setup) && c in setup.components && check in setup.checks
    ensures g in groups && s in g.checks && g.root == Place(setup, c, check) && s.check == check
    ensures c.root in s.requesters
  {
    CanonicalDistinct(groups);
    hide Place, Find, Requests, Decide, Holds;
    var root := Place(setup, c, check);
    AskersAre(setup, root, check);
    assert Asker(setup, root, check, c);
    PlanMeans(groups, setup, root, check);
    s := Find(groups, root, check).value;
    FindIn(groups, root, check, s);
    g :| g in groups && g.root == root && s in g.checks && s.check == check;
  }

  lemma FoundSays(groups: seq<Group>, setup: Setup, root: string, s: Spec)
    requires Planned(groups, setup) && Find(groups, root, s.check) == Some(s)
    ensures Says(setup, root, s)
  {
    hide Place, Wants, Find, Requests, Decide, Holds, Command, Target, Planned;
    PlanMeans(groups, setup, root, s.check);
    AskersAre(setup, root, s.check);
    ScopeIs(setup, root, s);
    FilesAre(setup, root, s);
    CommandIs(setup, root, s);
  }

  lemma ScopeIs(setup: Setup, root: string, s: Spec)
    requires Means(s, setup, root, s.check)
    ensures s.scope == (if SomeWant(setup, root, s.check, Full) then Full
                        else if SomeWant(setup, root, s.check, Focused) then Focused
                        else if SomeWant(setup, root, s.check, Unavailable) then Unavailable
                        else Skipped)
  {
    hide Decide, Command, Target, AsksAt, SomeWant;
    AskersAre(setup, root, s.check);
    if s.scope.Unavailable? {
      var scope :| AsksFor(setup, root, s.check, scope) && !scope.Skipped?;
      assert scope.Unavailable?;
    }
  }

  lemma FilesAre(setup: Setup, root: string, s: Spec)
    requires Means(s, setup, root, s.check)
    ensures s.scope == Focused ==> forall x :: x in s.files <==>
      exists c :: Asker(setup, root, s.check, c) && Wants(setup, c, s.check) == Focused
                  && x in c.named[(root, s.check)]
  {
    hide Decide, Command, Target;
    AskersAre(setup, root, s.check);
    forall c | Asker(setup, root, s.check, c)
      ensures forall x :: x in Decide(setup, c, s.check).spec.files <==>
                Wants(setup, c, s.check) == Focused && x in c.named[(root, s.check)]
    {
      DecidesSo(setup, c, s.check);
    }
  }

  lemma CommandIs(setup: Setup, root: string, s: Spec)
    requires Means(s, setup, root, s.check)
    ensures RunsAs(setup, root, s)
  {
    hide Decide, Target, Wants, Place, Command, Join;
    AskersAre(setup, root, s.check);
    if s.scope == Full || s.scope == Focused {
      var c :| Asker(setup, root, s.check, c) && Wants(setup, c, s.check) == s.scope;
      WantsTarget(setup, c, s.check);
    }
    CommandSays(s.check, Target(setup, root, s.check), s.scope, s.files);
    TargetIs(setup, root, s.check);
  }

  lemma WantsTarget(setup: Setup, c: Component, check: string)
    requires Wants(setup, c, check) == Full || Wants(setup, c, check) == Focused
    ensures Offers(setup, Place(setup, c, check), check)
  {}

  lemma TargetIs(setup: Setup, root: string, check: string)
    ensures Offers(setup, root, check) ==> Target(setup, root, check) == setup.contracts[root].targets[check]
  {}

  lemma CommandSays(check: string, target: string, scope: Scope, files: seq<string>)
    ensures Command(check, target, scope, files)
         == if scope == Skipped || scope == Unavailable then []
            else ["make", "-f", "Makefile", target,
                  "LINT_FILES=" + (if scope == Focused && check != "test" then Join(files, " ") else ""),
                  "TEST_FILES=" + (if scope == Focused && check == "test" then Join(files, " ") else "")]
  {
    hide Join;
    assert "LINT_FILES" + "=" == "LINT_FILES=" && "TEST_FILES" + "=" == "TEST_FILES=";
    assert "LINT_FILES=" + "" == "LINT_FILES=" && "TEST_FILES=" + "" == "TEST_FILES=";
  }

  /** The selected components are those a request names, or all. */
  lemma {:induction false} ChosenAre(layout: seq<Component>, wanted: Option<seq<string>>, c: Component)
    ensures c in Chosen(layout, wanted) <==> c in layout && (wanted.None? || c.root in wanted.value)
  {
    if layout != [] {
      ChosenAre(layout[..|layout| - 1], wanted, c);
      assert layout == layout[..|layout| - 1] + [layout[|layout| - 1]];
    }
  }
}
