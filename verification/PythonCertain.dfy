/** Programs in which every value is known: the analysis of such a program is its run. */
module PythonCertain {
  import opened Basics
  import opened PythonPaths
  import opened PythonContext

  type Env = map<string, Obj>

  datatype Outcome = Outcome(env: Env, path: seq<string>)

  /** The object of an expression of literals and variables that are set; a list longer than
      the analysis opens is none. */
  function Say(e: Expr, env: Env): Option<Obj>
    decreases e, 0
  {
    match e
    case FlagLit(b) => Some(Flag(b))
    case NumberLit(n) => Some(Number(n))
    case RootLit(r) => Some(Root(r))
    case Name(x) => if x in env then Some(env[x]) else None
    case Other => None
    case ListLit(es) =>
      if |es| > 32 then None
      else
        var os := SayAll(e, |es|, env);
        if os.None? then None else Some(List(os.value))
  }

  function SayAll(e: Expr, n: nat, env: Env): Option<seq<Obj>>
    requires e.ListLit? && n <= |e.items|
    decreases e, 0, n
  {
    if n == 0 then Some([])
    else
      var os := SayAll(e, n - 1, env);
      var o := Say(e.items[n - 1], env);
      if os.None? || o.None? then None else Some(os.value + [o.value])
  }

  /** Runs a block, unless something in it is not known, leaves the path uncertain, or
      inserts what is not captured. */
  function Do(block: seq<Stmt>, w: Outcome, tree: Tree): Option<Outcome>
    decreases block, 0, 0
  {
    if block == [] then Some(w)
    else
      var one := DoOne(block[0], w, tree);
      if one.None? then None else Do(block[1..], one.value, tree)
  }

  function DoOne(st: Stmt, w: Outcome, tree: Tree): Option<Outcome>
    decreases st, 1, 0
  {
    match st
    case Insert(place, e) =>
      var at, o := Say(place, w.env), Say(e, w.env);
      if at.Some? && at.value.Number? && at.value.number <= |w.path| && o.Some? && o.value.Root? && o.value.root in tree
      then Some(w.(path := ListInsert(w.path, at.value.number, o.value.root)))
      else None
    case Assign(x, e) =>
      var o := Say(e, w.env);
      if o.Some? then Some(w.(env := w.env[x := o.value])) else None
    case Touch(e) => if Say(e, w.env).Some? then Some(w) else None
    case If(e, body, orelse) =>
      var o := Say(e, w.env);
      if o.Some? && o.value.Flag? then Do(if o.value.flag then body else orelse, w, tree) else None
    case For(_, e, body, _) =>
      var o := Say(e, w.env);
      if o.Some? && o.value.List? && !Abrupt(body) then DoEach(st, o.value.items, w, tree) else None
    case _ => None
  }

  /** One round of the body for each item, then the `else`. */
  function DoEach(st: Stmt, items: seq<Obj>, w: Outcome, tree: Tree): Option<Outcome>
    requires st.For?
    decreases st, 0, |items|
  {
    if items == [] then Do(st.orelse, w, tree)
    else
      var one := Do(st.body, w.(env := w.env[st.target := items[0]]), tree);
      if one.None? then None else DoEach(st, items[1..], one.value, tree)
  }

  // ---------- The analysis knows as much ----------

  /** What is known of the variables is what they are. */
  ghost predicate Knows(values: map<string, Value>, env: Env) {
    forall x :: x in env ==> Is(Get(values, x), env[x])
  }

  ghost predicate Is(v: Value, o: Obj) {
    match o
    case Flag(b) => v == KnownFlag(b)
    case Number(n) => v == KnownNumber(n)
    case Root(r) => v == KnownRoot(r)
    case List(os) => v.KnownList? && AllAre(v.items, os)
    case Thing(_) => false
  }

  ghost predicate AllAre(vs: seq<Value>, os: seq<Obj>) {
    |vs| == |os| && forall i :: 0 <= i < |os| ==> Is(vs[i], os[i])
  }

  /** The state holds the path and the variables, outside of deferred code. */
  ghost predicate Follows(s: State, w: Outcome) {
    !s.deferred && s.prefix == w.path && Knows(s.values, w.env)
  }

  lemma {:induction false} EvalKnows(e: Expr, values: map<string, Value>, env: Env, budget: int)
    requires Knows(values, env) && Say(e, env).Some? && Eval(e, values, budget).1 >= 0
    ensures Is(Eval(e, values, budget).0, Say(e, env).value)
    decreases e, 0
  {
    if e.ListLit? {
      EvalAllKnows(e, |e.items|, values, env, budget - 1);
    }
  }

  lemma {:induction false} EvalAllKnows(e: Expr, n: nat, values: map<string, Value>, env: Env, budget: int)
    requires e.ListLit? && n <= |e.items| && Knows(values, env) && SayAll(e, n, env).Some?
    requires EvalAll(e, n, values, budget).1 >= 0
    ensures AllAre(EvalAll(e, n, values, budget).0, SayAll(e, n, env).value)
    decreases e, 0, n
  {
    hide Knows, Is;
    if n > 0 {
      EvalAllKnows(e, n - 1, values, env, budget);
      EvalKnows(e.items[n - 1], values, env, EvalAll(e, n - 1, values, budget).1);
    }
  }

  lemma AssignKnows(s: State, w: Outcome, x: string, v: Value, o: Obj)
    requires Follows(s, w) && Is(v, o)
    ensures Follows(Assigned(s, x, v), w.(env := w.env[x := o]))
  {}

  /** While steps last, the analysis of such a program ends in the state of its run: the
      definite prefix is the whole of the path, inserted in Python's order. */
  lemma {:induction false} CertainRunIsExact(block: seq<Stmt>, s: State, w: Outcome, tree: Tree, budget: int)
    requires Follows(s, w) && Do(block, w, tree).Some? && Block(block, s, tree, budget).1 >= 0
    ensures Follows(Block(block, s, tree, budget).0, Do(block, w, tree).value)
    decreases block, 0, 0
  {
    hide Follows, One, DoOne;
    if block != [] {
      var m := One(block[0], s, tree, budget - 1);
      OneIsExact(block[0], s, w, tree, budget - 1);
      CertainRunIsExact(block[1..], m.0, DoOne(block[0], w, tree).value, tree, m.1);
    }
  }

  lemma {:induction false} OneIsExact(st: Stmt, s: State, w: Outcome, tree: Tree, budget: int)
    requires Follows(s, w) && DoOne(st, w, tree).Some? && One(st, s, tree, budget).1 >= 0
    ensures Follows(One(st, s, tree, budget).0, DoOne(st, w, tree).value)
    decreases st, 1, 0
  {
    hide Block, Do, Eval, Say, Unrolled, DoEach;
    match st
    case Insert(place, e) =>
      var at := Eval(place, s.values, budget - 1);
      EvalKnows(place, s.values, w.env, budget - 1);
      EvalKnows(e, s.values, w.env, at.1);
    case Assign(x, e) =>
      EvalKnows(e, s.values, w.env, budget);
      AssignKnows(s, w, x, Eval(e, s.values, budget).0, Say(e, w.env).value);
    case Touch(_) =>
    case If(e, body, orelse) =>
      var left := Eval(e, s.values, budget).1;
      EvalKnows(e, s.values, w.env, budget);
      CertainRunIsExact(if Say(e, w.env).value.flag then body else orelse, s, w, tree, left);
    case For(_, e, body, _) =>
      var (v, left) := Eval(e, s.values, budget);
      EvalKnows(e, s.values, w.env, budget);
      EachIsExact(st, v.items, Say(e, w.env).value.items, s, w, tree, left);
  }

  lemma {:induction false} EachIsExact(st: Stmt, vs: seq<Value>, items: seq<Obj>, s: State, w: Outcome, tree: Tree,
                                       budget: int)
    requires st.For? && AllAre(vs, items) && Follows(s, w) && DoEach(st, items, w, tree).Some?
    requires Unrolled(st, vs, s, tree, budget).1 >= 0
    ensures Follows(Unrolled(st, vs, s, tree, budget).0, DoEach(st, items, w, tree).value)
    decreases st, 0, |items|
  {
    hide Block, Do, Follows, Is;
    if items == [] {
      CertainRunIsExact(st.orelse, s, w, tree, budget);
    } else {
      var t, u := Assigned(s, st.target, vs[0]), w.(env := w.env[st.target := items[0]]);
      AssignKnows(s, w, st.target, vs[0], items[0]);
      CertainRunIsExact(st.body, t, u, tree, budget);
      var m := Block(st.body, t, tree, budget);
      EachIsExact(st, vs[1..], items[1..], m.0, Do(st.body, u, tree).value, tree, m.1);
    }
  }

  // ---------- Such a run is one of Python's ----------

  ghost function In(w: Outcome, rest: seq<string>): World {
    World(w.env, w.path + rest)
  }

  lemma {:induction false} SaidIsYielded(e: Expr, env: Env)
    requires Say(e, env).Some?
    ensures Yields(e, env, Say(e, env).value)
    decreases e, 0
  {
    if e.ListLit? {
      AllSaid(e, |e.items|, env);
    }
  }

  lemma {:induction false} AllSaid(e: Expr, n: nat, env: Env)
    requires e.ListLit? && n <= |e.items| && SayAll(e, n, env).Some?
    ensures var os := SayAll(e, n, env).value;
      |os| == n && forall i :: 0 <= i < n ==> Yields(e.items[i], env, os[i])
    decreases e, 0, n
  {
    if n > 0 {
      AllSaid(e, n - 1, env);
      SaidIsYielded(e.items[n - 1], env);
    }
  }

  /** What is on the path before stays behind the known part. */
  lemma {:induction false} CertainRunHappens(block: seq<Stmt>, w: Outcome, tree: Tree, rest: seq<string>, loose: bool)
    returns (script: seq<Choice>)
    requires Do(block, w, tree).Some?
    ensures Play(block, In(w, rest), script, loose) == Some(End(In(Do(block, w, tree).value, rest), Normal))
    decreases block, 0, 0
  {
    hide In, DoOne, PlayOne;
    script := [];
    if block != [] {
      var c := OneHappens(block[0], w, tree, rest, loose);
      var more := CertainRunHappens(block[1..], DoOne(block[0], w, tree).value, tree, rest, loose);
      script := [c] + more;
      assert script[1..] == more;
    }
  }

  lemma {:induction false} OneHappens(st: Stmt, w: Outcome, tree: Tree, rest: seq<string>, loose: bool)
    returns (c: Choice)
    requires DoOne(st, w, tree).Some?
    ensures PlayOne(st, In(w, rest), c, loose) == Some(End(In(DoOne(st, w, tree).value, rest), Normal))
    decreases st, 1, 0
  {
    hide Play, Do, Say, Yields, DoEach, PlayLoop;
    match st
    case Insert(place, e) =>
      SaidIsYielded(place, w.env);
      SaidIsYielded(e, w.env);
      var at, o := Say(place, w.env).value, Say(e, w.env).value;
      InsertsBefore(w.path, rest, at.number, o.root);
      c := InsertAt(at, o, o.root, at.number);
    case Assign(_, e) =>
      SaidIsYielded(e, w.env);
      c := Choice.Value(Say(e, w.env).value);
    case Touch(e) =>
      SaidIsYielded(e, w.env);
      c := Choice.Value(Say(e, w.env).value);
    case If(e, body, orelse) =>
      SaidIsYielded(e, w.env);
      var o := Say(e, w.env).value;
      var sub := CertainRunHappens(if o.flag then body else orelse, w, tree, rest, false);
      c := Branch(o, o.flag, sub);
    case For(_, e, _, _) =>
      SaidIsYielded(e, w.env);
      var o := Say(e, w.env).value;
      var rounds, last := EachHappens(st, o.items, w, tree, rest);
      c := Loop(o, o.items, rounds, last);
  }

  lemma InsertsBefore(path: seq<string>, rest: seq<string>, n: nat, root: string)
    requires n <= |path|
    ensures ListInsert(path + rest, n, root) == ListInsert(path, n, root) + rest
  {
    assert (path + rest)[..n] == path[..n] && (path + rest)[n..] == path[n..] + rest;
  }

  lemma {:induction false} EachHappens(st: Stmt, items: seq<Obj>, w: Outcome, tree: Tree, rest: seq<string>)
    returns (rounds: seq<Round>, last: seq<Choice>)
    requires st.For? && DoEach(st, items, w, tree).Some?
    ensures PlayLoop(st, In(w, rest), items, rounds, last)
         == Some(End(In(DoEach(st, items, w, tree).value, rest), Normal))
    decreases st, 0, |items|
  {
    hide Play, Do;
    rounds := [];
    if items == [] {
      last := CertainRunHappens(st.orelse, w, tree, rest, false);
    } else {
      var u := w.(env := w.env[st.target := items[0]]);
      var script := CertainRunHappens(st.body, u, tree, rest, false);
      var more;
      more, last := EachHappens(st, items[1..], Do(st.body, u, tree).value, tree, rest);
      rounds := [Round(script, Next)] + more;
      assert rounds[1..] == more;
      assert In(w, rest).(env := w.env[st.target := items[0]]) == In(u, rest);
    }
  }
}
