/** What an analysis keeps of the roots it knows: none is lost, joins keep the longest
    certain prefix, and what is plainly known stays certain. */
module PythonRoots {
  import opened PythonPaths
  import opened PythonContext
  import Identifiers

  // ---------- Joins ----------

  ghost function Roots(s: State): set<string> {
    Identifiers.Members(s.prefix + s.possible)
  }

  /** A join keeps exactly the roots of its sides, and of the definite ones the longest
      prefix the sides share. */
  lemma JoinIsLeast(out: State, a: State, b: State, p: seq<string>)
    ensures Roots(Joined(out, a, b)) == Roots(a) + Roots(b)
    ensures p <= Joined(out, a, b).prefix <==> p <= a.prefix && p <= b.prefix
  {
    var n := Common(a.prefix, b.prefix);
    JoinKeepsRoots(out, a, b);
    if p <= a.prefix && p <= b.prefix {
      BeginsCommon(p, a.prefix, b.prefix);
    }
    if |p| <= n {
      assert a.prefix[..n][..|p|] == a.prefix[..|p|] && b.prefix[..n][..|p|] == b.prefix[..|p|];
    }
    if a.prefix == b.prefix {
      CommonIs(a.prefix, b.prefix, |a.prefix|);
    }
  }

  lemma JoinKeepsRoots(out: State, a: State, b: State)
    ensures Roots(Joined(out, a, b)) == Roots(a) + Roots(b)
  {
    hide JoinedValues, Common;
    var n := Common(a.prefix, b.prefix);
    var j := Joined(out, a, b);
    forall r ensures r in Roots(j) <==> r in Roots(a) || r in Roots(b) {
      RootsAre(j, r);
      RootsAre(a, r);
      RootsAre(b, r);
      InParts(a.prefix, n, r);
      InParts(b.prefix, n, r);
    }
  }

  lemma RootsAre(s: State, r: string)
    ensures r in Roots(s) <==> r in s.prefix || r in s.possible
  {}

  lemma InParts(xs: seq<string>, n: nat, x: string)
    requires n <= |xs|
    ensures x in xs <==> x in xs[..n] || x in xs[n..]
  {
    assert xs == xs[..n] + xs[n..];
  }

  lemma {:induction false} BeginsCommon(p: seq<string>, a: seq<string>, b: seq<string>)
    requires p <= a && p <= b
    ensures |p| <= Common(a, b)
  {
    if p != [] {
      assert p[0] == a[..|p|][0] == b[..|p|][0];
      assert p[1..] == a[..|p|][1..] == a[1..][..|p| - 1] && p[1..] == b[..|p|][1..] == b[1..][..|p| - 1];
      BeginsCommon(p[1..], a[1..], b[1..]);
    }
  }

  lemma RejoinKeepsRoots(s: State, a: State)
    ensures Roots(s) <= Roots(Rejoined(s, a))
  {
    hide Joined, Roots;
    JoinIsLeast(s, s, if a.mutated then a else a.(prefix := s.prefix, possible := s.possible), []);
  }

  lemma SimpleKeepsRoots(s: State, tree: Tree, place: Value, v: Value, x: string)
    ensures Roots(s) <= Roots(Inserted(s, tree, place, v)) && Roots(s) <= Roots(Appended(s, tree, v))
    ensures Roots(s) <= Roots(Invalidated(s.(mutated := true)))
    ensures Roots(Assigned(s, x, v)) == Roots(s)
  {
    if place.KnownNumber? && place.number <= |s.prefix| {
      assert s.prefix == s.prefix[..place.number] + s.prefix[place.number..];
    }
  }

  /** A root once known is never lost, on whatever program and budget. */
  lemma {:induction false} BlockKeepsRoots(block: seq<Stmt>, s: State, tree: Tree, budget: int)
    ensures Roots(s) <= Roots(Block(block, s, tree, budget).0)
    decreases block, 0, 0
  {
    hide Roots, One;
    if block != [] && budget > 0 {
      var m := One(block[0], s, tree, budget - 1);
      OneKeepsRoots(block[0], s, tree, budget - 1);
      BlockKeepsRoots(block[1..], m.0, tree, m.1);
    }
  }

  lemma {:induction false} OneKeepsRoots(st: Stmt, s: State, tree: Tree, budget: int)
    ensures Roots(s) <= Roots(One(st, s, tree, budget).0)
    decreases st, 1, 0
  {
    hide Roots, Inserted, Appended, Invalidated, Assigned, Joined, Rejoined, Branched, Eval, Block;
    match st
    case Insert(place, e) =>
      var (n, left) := Eval(place, s.values, budget - 1);
      SimpleKeepsRoots(s, tree, n, Eval(e, s.values, left).0, "");
    case Append(e) =>
      SimpleKeepsRoots(s, tree, Unknown, Eval(e, s.values, budget - 1).0, "");
    case Assign(x, e) =>
      SimpleKeepsRoots(s, tree, Unknown, Eval(e, s.values, budget).0, x);
    case Mutate =>
      SimpleKeepsRoots(s, tree, Unknown, Unknown, "");
    case If(e, body, orelse) =>
      var (v, left) := Eval(e, s.values, budget);
      if v.KnownFlag? {
        BlockKeepsRoots(if v.flag then body else orelse, s, tree, left);
      } else {
        var a := Block(body, s, tree, left);
        BlockKeepsRoots(body, s, tree, left);
        JoinIsLeast(s, a.0, Block(orelse, s, tree, a.1).0, []);
      }
    case For(x, e, body, orelse) =>
      var (v, left) := Eval(e, s.values, budget);
      if v.KnownList? && !Abrupt(body) {
        UnrolledKeepsRoots(st, v.items, s, tree, left);
      } else {
        var a := Block(body, Branched(Assigned(s, x, Unknown)), tree, left);
        RejoinKeepsRoots(s, Block(orelse, a.0, tree, a.1).0);
      }
    case Opaque(body) =>
      RejoinKeepsRoots(s, Block(body, Branched(s), tree, budget).0);
    case _ =>
  }

  lemma {:induction false} UnrolledKeepsRoots(st: Stmt, items: seq<Value>, s: State, tree: Tree, budget: int)
    requires st.For?
    ensures Roots(s) <= Roots(Unrolled(st, items, s, tree, budget).0)
    decreases st, 0, |items|
  {
    hide Roots, Assigned, Block;
    if items == [] {
      BlockKeepsRoots(st.orelse, s, tree, budget);
    } else {
      var t := Assigned(s, st.target, items[0]);
      var m := Block(st.body, t, tree, budget);
      SimpleKeepsRoots(s, tree, Unknown, items[0], st.target);
      BlockKeepsRoots(st.body, t, tree, budget);
      UnrolledKeepsRoots(st, items[1..], m.0, tree, m.1);
    }
  }

  // ---------- What becomes known ----------

  /** Somewhere in the block a captured root is appended, or inserted at a place that is
      written out, outside of branches and loops that a known value decides. */
  predicate Adds(block: seq<Stmt>, root: string) {
    block != [] && (AddsOne(block[0], root) || Adds(block[1..], root))
  }

  predicate AddsOne(st: Stmt, root: string) {
    match st
    case Insert(place, e) => place.NumberLit? && e == RootLit(root)
    case Append(e) => e == RootLit(root)
    case If(e, body, orelse) => e.Other? && (Adds(body, root) || Adds(orelse, root))
    case For(_, e, body, orelse) => e.Other? && (Adds(body, root) || Adds(orelse, root))
    case Opaque(body) => Adds(body, root)
    case _ => false
  }

  /** Such a root is known afterwards, in deferred code as well. */
  lemma {:induction false} AddedIsKnown(block: seq<Stmt>, root: string, s: State, tree: Tree, budget: int)
    requires Adds(block, root) && root in tree && Block(block, s, tree, budget).1 >= 0
    ensures var r := Block(block, s, tree, budget).0; root in Roots(r) && r.mutated
    decreases block, 0, 0
  {
    hide Roots, One, AddsOne;
    var m := One(block[0], s, tree, budget - 1);
    if AddsOne(block[0], root) {
      AddedIsKnownOne(block[0], root, s, tree, budget - 1);
      BlockKeepsRoots(block[1..], m.0, tree, m.1);
      BlockStaysMutated(block[1..], m.0, tree, m.1);
    } else {
      AddedIsKnown(block[1..], root, m.0, tree, m.1);
    }
  }

  lemma {:induction false} AddedIsKnownOne(st: Stmt, root: string, s: State, tree: Tree, budget: int)
    requires AddsOne(st, root) && root in tree && One(st, s, tree, budget).1 >= 0
    ensures var r := One(st, s, tree, budget).0; root in Roots(r) && r.mutated
    decreases st, 1, 0
  {
    hide Joined, Rejoined, Block, Adds;
    match st
    case Insert(place, e) =>
      assert Eval(place, s.values, budget - 1) == (KnownNumber(place.number), budget - 2);
      assert Eval(e, s.values, budget - 2) == (KnownRoot(root), budget - 3);
      InsertedIsKnown(s, tree, place.number, root);
    case Append(e) =>
      assert Eval(e, s.values, budget - 1) == (KnownRoot(root), budget - 2);
      InsertedIsKnown(s, tree, 0, root);
    case If(e, body, orelse) =>
      var a := Block(body, s, tree, budget - 1);
      var b := Block(orelse, s, tree, a.1);
      if Adds(body, root) {
        AddedIsKnown(body, root, s, tree, budget - 1);
      } else {
        AddedIsKnown(orelse, root, s, tree, a.1);
      }
      JoinKeepsRoots(s, a.0, b.0);
      JoinMutates(s, a.0, b.0);
    case For(x, e, body, orelse) =>
      var t := Branched(Assigned(s, x, Unknown));
      var a := Block(body, t, tree, budget - 1);
      var b := Block(orelse, a.0, tree, a.1);
      if Adds(body, root) {
        AddedIsKnown(body, root, t, tree, budget - 1);
        BlockKeepsRoots(orelse, a.0, tree, a.1);
        BlockStaysMutated(orelse, a.0, tree, a.1);
      } else {
        AddedIsKnown(orelse, root, a.0, tree, a.1);
      }
      RejoinKnows(s, b.0);
    case Opaque(body) =>
      AddedIsKnown(body, root, Branched(s), tree, budget);
      RejoinKnows(s, Block(body, Branched(s), tree, budget).0);
  }

  lemma InsertedIsKnown(s: State, tree: Tree, index: nat, root: string)
    requires root in tree
    ensures var r := Inserted(s, tree, KnownNumber(index), KnownRoot(root)); root in Roots(r) && r.mutated
    ensures var r := Appended(s, tree, KnownRoot(root)); root in Roots(r) && r.mutated
  {}

  lemma JoinMutates(out: State, a: State, b: State)
    ensures Joined(out, a, b).mutated == (a.mutated || b.mutated)
  {}

  /** What changed code knows is known behind it. */
  lemma RejoinKnows(s: State, a: State)
    requires a.mutated
    ensures Roots(a) <= Roots(Rejoined(s, a)) && Rejoined(s, a).mutated
  {
    hide Joined, Roots;
    JoinKeepsRoots(s, s, a);
    JoinMutates(s, s, a);
  }

  lemma {:induction false} BlockStaysMutated(block: seq<Stmt>, s: State, tree: Tree, budget: int)
    requires s.mutated
    ensures Block(block, s, tree, budget).0.mutated
    decreases block, 0, 0
  {
    hide One;
    if block != [] && budget > 0 {
      var m := One(block[0], s, tree, budget - 1);
      OneStaysMutated(block[0], s, tree, budget - 1);
      BlockStaysMutated(block[1..], m.0, tree, m.1);
    }
  }

  lemma {:induction false} OneStaysMutated(st: Stmt, s: State, tree: Tree, budget: int)
    requires s.mutated
    ensures One(st, s, tree, budget).0.mutated
    decreases st, 1, 0
  {
    hide JoinedValues, Common, Eval, Block;
    match st
    case If(e, body, orelse) =>
      var (v, left) := Eval(e, s.values, budget);
      BlockStaysMutated(if v.KnownFlag? && !v.flag then orelse else body, s, tree, left);
    case For(x, e, body, orelse) =>
      var (v, left) := Eval(e, s.values, budget);
      if v.KnownList? && !Abrupt(body) {
        UnrolledStaysMutated(st, v.items, s, tree, left);
      }
    case _ =>
  }

  lemma {:induction false} UnrolledStaysMutated(st: Stmt, items: seq<Value>, s: State, tree: Tree, budget: int)
    requires st.For? && s.mutated
    ensures Unrolled(st, items, s, tree, budget).0.mutated
    decreases st, 0, |items|
  {
    hide Block;
    if items == [] {
      BlockStaysMutated(st.orelse, s, tree, budget);
    } else {
      var m := Block(st.body, Assigned(s, st.target, items[0]), tree, budget);
      BlockStaysMutated(st.body, Assigned(s, st.target, items[0]), tree, budget);
      UnrolledStaysMutated(st, items[1..], m.0, tree, m.1);
    }
  }

  // ---------- What stays certain ----------

  /** The paths are as they were, unless a change was noted. */
  ghost predicate Unmoved(s: State, r: State) {
    !r.mutated ==> !s.mutated && r.prefix == s.prefix && r.possible == s.possible
  }

  lemma UnmovedJoin(s: State, a: State, b: State)
    requires Unmoved(s, a) && Unmoved(s, b)
    ensures Unmoved(s, Joined(s, a, b))
  {
    hide JoinedValues, Common;
  }

  lemma UnmovedRejoin(s: State, a: State)
    ensures Unmoved(s, Rejoined(s, a))
  {
    hide JoinedValues, Common;
  }

  lemma UnmovedSimple(s: State, tree: Tree, place: Value, v: Value, x: string)
    ensures Unmoved(s, Inserted(s, tree, place, v)) && Unmoved(s, Appended(s, tree, v))
    ensures Unmoved(s, Invalidated(s.(mutated := true))) && Unmoved(s, Assigned(s, x, v)) && Unmoved(s, s)
  {}

  /** A block in which no change of the path is noted leaves every root as certain as it
      was, through branches, loops and opaque code. */
  lemma {:induction false} BlockUnmoved(block: seq<Stmt>, s: State, tree: Tree, budget: int)
    ensures Unmoved(s, Block(block, s, tree, budget).0)
    decreases block, 0, 0
  {
    hide One;
    if block != [] && budget > 0 {
      var m := One(block[0], s, tree, budget - 1);
      OneUnmoved(block[0], s, tree, budget - 1);
      BlockUnmoved(block[1..], m.0, tree, m.1);
    }
  }

  lemma {:induction false} OneUnmoved(st: Stmt, s: State, tree: Tree, budget: int)
    ensures Unmoved(s, One(st, s, tree, budget).0)
    decreases st, 1, 0
  {
    hide Unmoved, Inserted, Appended, Invalidated, Assigned, Joined, Rejoined, Branched, Eval, Block;
    match st
    case Insert(place, e) =>
      var (n, left) := Eval(place, s.values, budget - 1);
      UnmovedSimple(s, tree, n, Eval(e, s.values, left).0, "");
    case Append(e) =>
      UnmovedSimple(s, tree, Unknown, Eval(e, s.values, budget - 1).0, "");
    case Assign(x, e) =>
      UnmovedSimple(s, tree, Unknown, Eval(e, s.values, budget).0, x);
    case If(e, body, orelse) =>
      var (v, left) := Eval(e, s.values, budget);
      if v.KnownFlag? {
        BlockUnmoved(if v.flag then body else orelse, s, tree, left);
      } else {
        var a := Block(body, s, tree, left);
        BlockUnmoved(body, s, tree, left);
        BlockUnmoved(orelse, s, tree, a.1);
        UnmovedJoin(s, a.0, Block(orelse, s, tree, a.1).0);
      }
    case For(x, e, body, orelse) =>
      var (v, left) := Eval(e, s.values, budget);
      if v.KnownList? && !Abrupt(body) {
        UnrolledUnmoved(st, v.items, s, tree, left);
      } else {
        var a := Block(body, Branched(Assigned(s, x, Unknown)), tree, left);
        UnmovedRejoin(s, Block(orelse, a.0, tree, a.1).0);
      }
    case Opaque(body) =>
      UnmovedRejoin(s, Block(body, Branched(s), tree, budget).0);
    case _ =>
      UnmovedSimple(s, tree, Unknown, Unknown, "");
  }

  lemma {:induction false} UnrolledUnmoved(st: Stmt, items: seq<Value>, s: State, tree: Tree, budget: int)
    requires st.For?
    ensures Unmoved(s, Unrolled(st, items, s, tree, budget).0)
    decreases st, 0, |items|
  {
    hide Block;
    if items == [] {
      BlockUnmoved(st.orelse, s, tree, budget);
    } else {
      var t := Assigned(s, st.target, items[0]);
      var m := Block(st.body, t, tree, budget);
      BlockUnmoved(st.body, t, tree, budget);
      UnrolledUnmoved(st, items[1..], m.0, tree, m.1);
    }
  }

  /** Insertions of captured roots at literal places. */
  function Insertions(ps: seq<(nat, string)>): seq<Stmt> {
    if ps == [] then [] else [Insert(NumberLit(ps[0].0), RootLit(ps[0].1))] + Insertions(ps[1..])
  }

  /** What Python makes of them on a path. */
  function InsertAll(ps: seq<(nat, string)>, path: seq<string>): seq<string> {
    if ps == [] then path else InsertAll(ps[1..], ListInsert(path, ps[0].0, ps[0].1))
  }

  /** Each place lies within the definite prefix that the insertions before it leave. */
  predicate WithinPrefix(ps: seq<(nat, string)>, n: nat) {
    ps == [] || (ps[0].0 <= n && WithinPrefix(ps[1..], n + 1))
  }

  /** Straight-line insertions are all certain, in the order Python gives them. */
  lemma {:induction false} InsertionsAreCertain(ps: seq<(nat, string)>, s: State, tree: Tree, budget: int)
    requires !s.deferred && WithinPrefix(ps, |s.prefix|) && budget >= 4 * |ps|
    requires forall p :: p in ps ==> p.1 in tree
    ensures Block(Insertions(ps), s, tree, budget).0.prefix == InsertAll(ps, s.prefix)
    decreases |ps|
  {
    if ps != [] {
      var p := ps[0];
      var st := Insert(NumberLit(p.0), RootLit(p.1));
      assert Insertions(ps)[0] == st && Insertions(ps)[1..] == Insertions(ps[1..]);
      var m := One(st, s, tree, budget - 1);
      assert Eval(NumberLit(p.0), s.values, budget - 2) == (KnownNumber(p.0), budget - 3);
      assert Eval(RootLit(p.1), s.values, budget - 3) == (KnownRoot(p.1), budget - 4);
      assert p in ps;
      assert m.0.prefix == ListInsert(s.prefix, p.0, p.1) && m.1 == budget - 4;
      assert forall q :: q in ps[1..] ==> q in ps;
      hide One;
      InsertionsAreCertain(ps[1..], m.0, tree, m.1);
    }
  }

  // ---------- Steps ----------

  /** The nodes of an expression that are looked at: a long list is not opened. */
  function Nodes(e: Expr): nat {
    if e.ListLit? && |e.items| <= 32 then 1 + NodesOf(e, |e.items|) else 1
  }

  function NodesOf(e: Expr, n: nat): nat
    requires e.ListLit? && n <= |e.items|
    decreases e, n
  {
    if n == 0 then 0 else NodesOf(e, n - 1) + Nodes(e.items[n - 1])
  }

  predicate Straight(st: Stmt) {
    !st.If? && !st.For? && !st.Opaque?
  }

  /** The nodes of a straight statement: itself, a call and what it is called with. */
  function Visited(st: Stmt): nat
    requires Straight(st)
  {
    match st
    case Insert(place, e) => 2 + Nodes(place) + Nodes(e)
    case Append(e) => 2 + Nodes(e)
    case Assign(_, e) => 1 + Nodes(e)
    case Touch(e) => 1 + Nodes(e)
    case _ => 2
  }

  function VisitedAll(block: seq<Stmt>): nat
    requires forall st :: st in block ==> Straight(st)
  {
    if block == [] then 0 else Visited(block[0]) + VisitedAll(block[1..])
  }

  lemma {:induction false} EvalSteps(e: Expr, values: map<string, Value>, budget: int)
    requires budget >= Nodes(e)
    ensures Eval(e, values, budget).1 == budget - Nodes(e)
    decreases e, 0
  {
    if e.ListLit? && |e.items| <= 32 {
      EvalAllSteps(e, |e.items|, values, budget - 1);
    }
  }

  lemma {:induction false} EvalAllSteps(e: Expr, n: nat, values: map<string, Value>, budget: int)
    requires e.ListLit? && n <= |e.items| && budget >= NodesOf(e, n)
    ensures EvalAll(e, n, values, budget).1 == budget - NodesOf(e, n)
    decreases e, 0, n
  {
    if n > 0 {
      EvalAllSteps(e, n - 1, values, budget);
      EvalSteps(e.items[n - 1], values, EvalAll(e, n - 1, values, budget).1);
    }
  }

  /** Straight code that the budget is enough for spends one step for each node. */
  lemma {:induction false} StraightSteps(block: seq<Stmt>, s: State, tree: Tree, budget: int)
    requires (forall st :: st in block ==> Straight(st)) && budget >= VisitedAll(block)
    ensures Block(block, s, tree, budget).1 == budget - VisitedAll(block)
    decreases |block|
  {
    if block != [] {
      var m := One(block[0], s, tree, budget - 1);
      StatementSteps(block[0], s, tree, budget - 1);
      hide One;
      assert forall st :: st in block[1..] ==> st in block;
      StraightSteps(block[1..], m.0, tree, m.1);
    }
  }

  lemma StatementSteps(st: Stmt, s: State, tree: Tree, budget: int)
    requires Straight(st) && budget >= Visited(st) - 1
    ensures One(st, s, tree, budget).1 == budget - (Visited(st) - 1)
  {
    hide Eval, Nodes;
    match st
    case Insert(place, e) =>
      EvalSteps(place, s.values, budget - 1);
      EvalSteps(e, s.values, budget - 1 - Nodes(place));
    case Append(e) => EvalSteps(e, s.values, budget - 1);
    case Assign(_, e) => EvalSteps(e, s.values, budget);
    case Touch(e) => EvalSteps(e, s.values, budget);
    case _ =>
  }

  /** Without steps left no statement changes the path any more. */
  lemma ExhaustedKeepsPath(st: Stmt, s: State, tree: Tree, budget: int)
    requires budget <= 0
    ensures var t := One(st, s, tree, budget).0;
      t.prefix == s.prefix && t.possible == s.possible && t.mutated == s.mutated
  {
  }
}
