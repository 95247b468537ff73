/** The abstract run of a module that keeps the part of `sys.path` that is certain: a
    definite prefix, and further roots that may be on the path. */
module PythonContext {
  import opened PythonPaths
  import Identifiers

  /** What is known of a variable. */
  datatype Value =
    | Unknown
    | KnownFlag(flag: bool)
    | KnownNumber(number: nat)
    | KnownRoot(root: string)
    | KnownList(items: seq<Value>)

  /** `deferred` marks code that may run any number of times, `mutated` a possible change
      of the path. */
  datatype State = State(values: map<string, Value>, prefix: seq<string>, possible: seq<string>,
                         deferred: bool, mutated: bool)

  function Get(values: map<string, Value>, x: string): Value {
    if x in values then values[x] else Unknown
  }

  function Invalidated(s: State): State {
    s.(prefix := [], possible := Identifiers.Unique(s.possible + s.prefix))
  }

  function Assigned(s: State, x: string, v: Value): State {
    s.(values := s.values[x := v])
  }

  // ---------- Expressions ----------

  /** The value of an expression, and the steps that are left; each node costs one. */
  function Eval(e: Expr, values: map<string, Value>, budget: int): (r: (Value, int))
    ensures r.1 < budget
    decreases e, 0
  {
    if budget <= 0 then (Unknown, budget - 1)
    else
      match e
      case FlagLit(b) => (KnownFlag(b), budget - 1)
      case NumberLit(n) => (KnownNumber(n), budget - 1)
      case RootLit(root) => (KnownRoot(root), budget - 1)
      case Name(x) => (Get(values, x), budget - 1)
      case Other => (Unknown, budget - 1)
      case ListLit(items) =>
        if |items| > 32 then (Unknown, budget - 1)
        else
          var (vs, left) := EvalAll(e, |items|, values, budget - 1);
          (KnownList(vs), left)
  }

  /** The values of the first `n` items of a list. */
  function EvalAll(e: Expr, n: nat, values: map<string, Value>, budget: int): (r: (seq<Value>, int))
    requires e.ListLit? && n <= |e.items|
    ensures r.1 <= budget && |r.0| == n
    decreases e, 0, n
  {
    if n == 0 then ([], budget)
    else
      var (vs, left) := EvalAll(e, n - 1, values, budget);
      var (v, rest) := Eval(e.items[n - 1], values, left);
      (vs + [v], rest)
  }

  // ---------- Joins ----------

  function Common(a: seq<string>, b: seq<string>): (n: nat)
    ensures n <= |a| && n <= |b| && a[..n] == b[..n]
    ensures n < |a| && n < |b| ==> a[n] != b[n]
  {
    if a == [] || b == [] || a[0] != b[0] then 0
    else
      var n := Common(a[1..], b[1..]);
      assert a[..n + 1] == [a[0]] + a[1..][..n] && b[..n + 1] == [b[0]] + b[1..][..n];
      1 + n
  }

  function JoinedValues(out: map<string, Value>, left: map<string, Value>, right: map<string, Value>)
    : map<string, Value>
  {
    map x | x in out.Keys + left.Keys + right.Keys ::
      if x in left.Keys + right.Keys then
        if Get(left, x) == Get(right, x) then Get(left, x) else Unknown
      else out[x]
  }

  function Joined(out: State, left: State, right: State): State {
    var values := JoinedValues(out.values, left.values, right.values);
    var n := Common(left.prefix, right.prefix);
    var same := left.prefix == right.prefix && left.possible == right.possible;
    State(values,
          if same then left.prefix else left.prefix[..n],
          if same then left.possible
          else Identifiers.Unique(left.possible + right.possible + left.prefix[n..] + right.prefix[n..]),
          out.deferred, left.mutated || right.mutated)
  }

  // ---------- Statements ----------

  /** The roots of directories that are part of the captured tree. */
  type Tree = set<string>

  function Inserted(s: State, tree: Tree, place: Value, v: Value): State {
    var s := s.(mutated := true);
    if !place.KnownNumber? || !v.KnownRoot? || v.root !in tree then Invalidated(s)
    else if place.number <= |s.prefix| && !s.deferred then
      s.(prefix := s.prefix[..place.number] + [v.root] + s.prefix[place.number..])
    else
      var s := Invalidated(s);
      s.(possible := Identifiers.Unique(s.possible + [v.root]))
  }

  function Appended(s: State, tree: Tree, v: Value): State {
    var s := s.(mutated := true);
    if !v.KnownRoot? || v.root !in tree then Invalidated(s)
    else s.(possible := Identifiers.Unique(s.possible + [v.root]))
  }

  /** The state in which a body that may run any number of times is analysed. */
  function Branched(s: State): State {
    Invalidated(s.(mutated := false, deferred := true))
  }

  /** Rejoins such a body: without a possible change the path is as before it. */
  function Rejoined(s: State, branch: State): State {
    Joined(s, s, if branch.mutated then branch else branch.(prefix := s.prefix, possible := s.possible))
  }

  function Block(block: seq<Stmt>, s: State, tree: Tree, budget: int): (r: (State, int))
    ensures r.1 <= budget
    decreases block, 0, 0
  {
    if block == [] then (s, budget)
    else if budget <= 0 then (s, budget - 1)
    else
      var (s1, left) := One(block[0], s, tree, budget - 1);
      Block(block[1..], s1, tree, left)
  }

  function One(st: Stmt, s: State, tree: Tree, budget: int): (r: (State, int))
    ensures r.1 <= budget
    decreases st, 1, 0
  {
    match st
    case Insert(place, e) =>
      if budget <= 0 then (s, budget - 1)
      else
        var (n, left) := Eval(place, s.values, budget - 1);
        var (v, left) := Eval(e, s.values, left);
        (Inserted(s, tree, n, v), left)
    case Append(e) =>
      if budget <= 0 then (s, budget - 1)
      else
        var (v, left) := Eval(e, s.values, budget - 1);
        (Appended(s, tree, v), left)
    case Mutate =>
      (if budget <= 0 then s else Invalidated(s.(mutated := true)), budget - 1)
    case Assign(x, e) =>
      var (v, left) := Eval(e, s.values, budget);
      (Assigned(s, x, v), left)
    case Touch(e) => (s, Eval(e, s.values, budget).1)
    case Jump => (s, budget - 1)
    case Leave => (s, budget - 1)
    case If(e, body, orelse) =>
      var (v, left) := Eval(e, s.values, budget);
      if v.KnownFlag? then
        Block(if v.flag then body else orelse, s, tree, left)
      else
        var (a, left) := Block(body, s, tree, left);
        var (b, left) := Block(orelse, s, tree, left);
        (Joined(s, a, b), left)
    case For(x, e, body, orelse) =>
      var (v, left) := Eval(e, s.values, budget);
      if v.KnownList? && !Abrupt(body) then
        Unrolled(st, v.items, s, tree, left)
      else
        var (a, left) := Block(body, Branched(Assigned(s, x, Unknown)), tree, left);
        var (a, left) := Block(orelse, a, tree, left);
        (Rejoined(s, a), left)
    case Opaque(body) =>
      var (a, left) := Block(body, Branched(s), tree, budget);
      (Rejoined(s, a), left)
  }

  /** A loop over known items, one body after another. */
  function Unrolled(st: Stmt, items: seq<Value>, s: State, tree: Tree, budget: int): (r: (State, int))
    requires st.For?
    ensures r.1 <= budget
    decreases st, 0, |items|
  {
    if items == [] then Block(st.orelse, s, tree, budget)
    else
      var (s1, left) := Block(st.body, Assigned(s, st.target, items[0]), tree, budget);
      Unrolled(st, items[1..], s1, tree, left)
  }

  // ---------- In place ----------

  /** The state as the analysis updates it. */
  class Context {
    var values: map<string, Value>
    var prefix: seq<string>
    var possible: seq<string>
    var deferred: bool
    var mutated: bool

    constructor (s: State)
      ensures View() == s
    {
      values, prefix, possible := s.values, s.prefix, s.possible;
      deferred, mutated := s.deferred, s.mutated;
    }

    ghost function View(): State
      reads this
    {
      State(values, prefix, possible, deferred, mutated)
    }

    method Clone() returns (copy: Context)
      ensures fresh(copy) && copy.View() == View()
    {
      copy := new Context(EMPTY);
      copy.values, copy.prefix, copy.possible := values, prefix, possible;
      copy.deferred, copy.mutated := deferred, mutated;
    }

    method InvalidatePaths()
      modifies this
      ensures View() == Invalidated(old(View()))
    {
      possible := Identifiers.Unique(possible + prefix);
      prefix := [];
    }

    method AssignTo(x: string, v: Value)
      modifies this
      ensures View() == Assigned(old(View()), x, v)
    {
      values := values[x := v];
    }

    /** An unknown change of the path. */
    method Mutated()
      modifies this
      ensures View() == Invalidated(old(View()).(mutated := true))
    {
      mutated := true;
      InvalidatePaths();
    }

    /** Makes a copy the state of code that may run any number of times. */
    method Defer()
      modifies this
      ensures View() == Branched(old(View()))
    {
      mutated, deferred := false, true;
      InvalidatePaths();
    }

    method AddPossible(root: string)
      modifies this
      ensures View() == old(View()).(possible := Identifiers.Unique(old(possible) + [root]))
    {
      possible := Identifiers.Unique(possible + [root]);
    }

    /** `sys.path.insert`. */
    method InsertRoot(tree: Tree, place: Value, v: Value)
      modifies this
      ensures View() == Inserted(old(View()), tree, place, v)
    {
      mutated := true;
      if !place.KnownNumber? || !v.KnownRoot? || v.root !in tree {
        InvalidatePaths();
      } else if place.number <= |prefix| && !deferred {
        prefix := prefix[..place.number] + [v.root] + prefix[place.number..];
      } else {
        InvalidatePaths();
        AddPossible(v.root);
      }
    }

    /** `sys.path.append`. */
    method AppendRoot(tree: Tree, v: Value)
      modifies this
      ensures View() == Appended(old(View()), tree, v)
    {
      mutated := true;
      if !v.KnownRoot? || v.root !in tree {
        InvalidatePaths();
      } else {
        AddPossible(v.root);
      }
    }

    /** `merge`, where the receiver may be one of the two sides. */
    method Merge(left: Context, right: Context)
      modifies this
      ensures View() == Joined(old(View()), old(left.View()), old(right.View()))
    {
      var a, b := left.prefix, right.prefix;
      var common := Shared(a, b);
      hide *;
      var same := a == b && left.possible == right.possible;
      var merged := JoinedValues(values, left.values, right.values);
      var roots := if same then left.possible
                   else Identifiers.Unique(left.possible + right.possible + a[common..] + b[common..]);
      mutated := left.mutated || right.mutated;
      values, prefix, possible := merged, if same then a else a[..common], roots;
    }
  }

  /** How far two paths agree. */
  method Shared(a: seq<string>, b: seq<string>) returns (common: nat)
    ensures common == Common(a, b)
  {
    common := 0;
    while common < |a| && common < |b| && a[common] == b[common]
      invariant common <= |a| && common <= |b| && a[..common] == b[..common]
    {
      common := common + 1;
    }
    CommonIs(a, b, common);
  }

  const EMPTY := State(map[], [], [], false, false)

  lemma {:induction false} CommonIs(a: seq<string>, b: seq<string>, n: nat)
    requires n <= |a| && n <= |b| && a[..n] == b[..n]
    requires n < |a| && n < |b| ==> a[n] != b[n]
    ensures Common(a, b) == n
  {
    if n > 0 {
      assert a[0] == a[..n][0] == b[..n][0] == b[0];
      assert a[1..][..n - 1] == a[..n][1..] == b[..n][1..] == b[1..][..n - 1];
      CommonIs(a[1..], b[1..], n - 1);
    }
  }

  /** The analysis of one module, with the steps it has left. */
  class Analysis {
    var remaining: int
    var exhausted: bool
    const tree: Tree

    ghost predicate Valid()
      reads this
    {
      exhausted <==> remaining < 0
    }

    constructor (tree: Tree)
      ensures Valid() && this.tree == tree && remaining == 20000
    {
      this.tree := tree;
      remaining, exhausted := 20000, false;
    }

    /** One step; running out is reported once. */
    method Step() returns (ok: bool)
      modifies this
      requires Valid()
      ensures Valid() && remaining == old(remaining) - 1 && ok == (remaining >= 0)
    {
      remaining := remaining - 1;
      ok := remaining >= 0;
      if !ok {
        exhausted := true;
      }
    }

    method Evaluate(e: Expr, s: Context) returns (v: Value)
      requires Valid()
      modifies this
      ensures (v, remaining) == Eval(e, s.values, old(remaining))
      ensures Valid()
      decreases e, 0
    {
      var ok := Step();
      if !ok {
        return Unknown;
      }
      match e
      case FlagLit(b) => v := KnownFlag(b);
      case NumberLit(n) => v := KnownNumber(n);
      case RootLit(root) => v := KnownRoot(root);
      case Name(x) => v := Get(s.values, x);
      case Other => v := Unknown;
      case ListLit(items) =>
        if |items| > 32 {
          return Unknown;
        }
        var vs := [];
        for i := 0 to |items|
          invariant (vs, remaining) == EvalAll(e, i, s.values, old(remaining) - 1)
          invariant Valid()
        {
          var v := Evaluate(items[i], s);
          vs := vs + [v];
        }
        v := KnownList(vs);
    }

    method Statements(block: seq<Stmt>, s: Context)
      requires Valid()
      modifies this, s
      ensures (s.View(), remaining) == Block(block, old(s.View()), tree, old(remaining))
      ensures Valid()
      decreases block, 0, 0
    {
      for i := 0 to |block|
        invariant Block(block, old(s.View()), tree, old(remaining))
               == Block(block[i..], s.View(), tree, remaining)
        invariant Valid()
      {
        assert block[i..][1..] == block[i + 1..];
        var ok := Step();
        if !ok {
          return;
        }
        Statement(block[i], s);
      }
    }

    method Statement(st: Stmt, s: Context)
      requires Valid()
      modifies this, s
      ensures (s.View(), remaining) == One(st, old(s.View()), tree, old(remaining))
      ensures Valid()
      decreases st, 1, 0
    {
      hide Inserted, Appended, Assigned, Invalidated, Eval, Block, Unrolled, Rejoined, Branched, Joined;
      match st
      case If(e, body, orelse) => Conditional(st, s);
      case For(x, e, body, orelse) => Loop(st, s);
      case Opaque(body) =>
        var branch := s.Clone();
        branch.Defer();
        Statements(body, branch);
        Rejoin(s, branch);
      case Mutate =>
        var ok := Step();
        if ok {
          s.Mutated();
        }
      case Touch(e) =>
        var v := Evaluate(e, s);
      case Assign(x, e) =>
        var v := Evaluate(e, s);
        s.AssignTo(x, v);
      case _ =>
        Call(st, s);
    }

    /** A statement that calls `insert` or `append`, or leaves the block. */
    method Call(st: Stmt, s: Context)
      requires Valid() && (st.Insert? || st.Append? || st.Jump? || st.Leave?)
      modifies this, s
      ensures (s.View(), remaining) == One(st, old(s.View()), tree, old(remaining))
      ensures Valid()
      decreases st, 0, 0
    {
      hide Inserted, Appended, Eval;
      var ok := Step();
      if ok && st.Insert? {
        var n := Evaluate(st.place, s);
        var v := Evaluate(st.root, s);
        s.InsertRoot(tree, n, v);
      } else if ok && st.Append? {
        var v := Evaluate(st.root, s);
        s.AppendRoot(tree, v);
      }
    }

    method Conditional(st: Stmt, s: Context)
      requires Valid() && st.If?
      modifies this, s
      ensures (s.View(), remaining) == One(st, old(s.View()), tree, old(remaining))
      ensures Valid()
      decreases st, 0, 0
    {
      hide Eval, Block, Joined;
      var v := Evaluate(st.condition, s);
      if v.KnownFlag? {
        Statements(if v.flag then st.body else st.orelse, s);
      } else {
        var left := s.Clone();
        var right := s.Clone();
        Statements(st.body, left);
        Statements(st.orelse, right);
        s.Merge(left, right);
      }
    }

    method Loop(st: Stmt, s: Context)
      requires Valid() && st.For?
      modifies this, s
      ensures (s.View(), remaining) == One(st, old(s.View()), tree, old(remaining))
      ensures Valid()
      decreases st, 0, 1
    {
      hide Eval, Block, Rejoined, Branched, Unrolled, Assigned;
      var v := Evaluate(st.sequence, s);
      if v.KnownList? && !Abrupt(st.body) {
        Unroll(st, v.items, s);
      } else {
        var branch := s.Clone();
        branch.AssignTo(st.target, Unknown);
        branch.Defer();
        Statements(st.body, branch);
        Statements(st.orelse, branch);
        Rejoin(s, branch);
      }
    }

    method Unroll(st: Stmt, items: seq<Value>, s: Context)
      requires Valid() && st.For?
      modifies this, s
      ensures (s.View(), remaining) == Unrolled(st, items, old(s.View()), tree, old(remaining))
      ensures Valid()
      decreases st, 0, 0
    {
      for i := 0 to |items|
        invariant Unrolled(st, items, old(s.View()), tree, old(remaining))
               == Unrolled(st, items[i..], s.View(), tree, remaining)
        invariant Valid()
      {
        assert items[i..][1..] == items[i + 1..];
        s.AssignTo(st.target, items[i]);
        Statements(st.body, s);
      }
      Statements(st.orelse, s);
    }

    method Rejoin(s: Context, branch: Context)
      requires s != branch
      modifies s, branch
      ensures s.View() == Rejoined(old(s.View()), old(branch.View()))
    {
      if !branch.mutated {
        branch.prefix, branch.possible := s.prefix, s.possible;
      }
      var same := s.Clone();
      s.Merge(same, branch);
    }
  }
}
