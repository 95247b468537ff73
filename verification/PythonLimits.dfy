/** Where the definite `sys.path` prefix fails, as classes of programs: a value in doubt
    that decides where a root stands, which branch changes the path, or which roots a loop
    inserts, misleads the analysis for any variable and any two values that differ there. */
module PythonLimits {
  import opened Basics
  import opened PythonPaths
  import opened PythonContext
  import opened PythonSoundness

  /** Some completed run has a path that the definite prefix does not begin. */
  ghost predicate Misleads(program: seq<Stmt>, tree: Tree) {
    var r := Block(program, START, tree, 20000);
    r.1 >= 0 && exists w, script :: Escapes(r.0.prefix, Play(program, w, script, false))
  }

  ghost predicate Escapes(prefix: seq<string>, e: Option<End>) {
    e.Some? && e.value.how == Normal && !(prefix <= e.value.world.path)
  }

  // ---------- Steps of an analysis and of a run ----------

  lemma Blocks2(a: Stmt, b: Stmt, s: State, tree: Tree, budget: int, m: State, k: int, r: State, n: int)
    requires budget > 0 && One(a, s, tree, budget - 1) == (m, k)
    requires k > 0 && One(b, m, tree, k - 1) == (r, n)
    ensures Block([a, b], s, tree, budget) == (r, n)
  {
    hide One;
    assert [a, b][1..] == [b] && [b][1..] == [];
    assert Block([b], m, tree, k) == Block([], r, tree, n);
  }

  lemma Blocks3(a: Stmt, b: Stmt, c: Stmt, s: State, tree: Tree, budget: int, l: State, j: int, m: State, k: int,
                r: State, n: int)
    requires budget > 0 && One(a, s, tree, budget - 1) == (l, j)
    requires j > 0 && One(b, l, tree, j - 1) == (m, k)
    requires k > 0 && One(c, m, tree, k - 1) == (r, n)
    ensures Block([a, b, c], s, tree, budget) == (r, n)
  {
    hide One;
    assert [a, b, c][1..] == [b, c];
    Blocks2(b, c, l, tree, j, m, k, r, n);
  }

  lemma Played1(a: Stmt, w: World, c: Choice, loose: bool, w1: World)
    requires PlayOne(a, w, c, loose) == Some(End(w1, Normal))
    ensures Play([a], w, [c], loose) == Some(End(w1, Normal))
  {
    hide PlayOne;
    assert [a][1..] == [] && [c][1..] == [];
  }

  lemma Played2(a: Stmt, b: Stmt, w: World, c: Choice, d: Choice, loose: bool, w1: World, e: End)
    requires PlayOne(a, w, c, loose) == Some(End(w1, Normal)) && PlayOne(b, w1, d, loose) == Some(e)
    ensures Play([a, b], w, [c, d], loose) == Some(e)
  {
    hide PlayOne;
    assert [a, b][1..] == [b] && [c, d][1..] == [d] && [b][1..] == [] && [d][1..] == [];
    assert Play([b], w1, [d], loose) == Some(e);
  }

  lemma Played3(a: Stmt, b: Stmt, f: Stmt, w: World, c: Choice, d: Choice, g: Choice, w1: World, w2: World, w3: World)
    requires PlayOne(a, w, c, false) == Some(End(w1, Normal)) && PlayOne(b, w1, d, false) == Some(End(w2, Normal))
    requires PlayOne(f, w2, g, false) == Some(End(w3, Normal))
    ensures Play([a, b, f], w, [c, d, g], false) == Some(End(w3, Normal))
  {
    hide PlayOne;
    assert [a, b, f][1..] == [b, f] && [c, d, g][1..] == [d, g];
    Played2(b, f, w1, d, g, false, w2, End(w3, Normal));
  }

  /** One round of opaque code, however it ends. */
  lemma RepeatedOnce(body: seq<Stmt>, w: World, script: seq<Choice>, e: End)
    requires Play(body, w, script, true) == Some(e)
    ensures PlayOne(Opaque(body), w, Repeat([Round(script, Next)], Normal), false) == Some(End(e.world, Normal))
  {
    hide Play;
    var rounds := [Round(script, Next)];
    assert rounds[1..] == [];
    assert PlayRepeat(Opaque(body), e.world, rounds[1..], Normal) == Some(End(e.world, Normal));
  }

  // ---------- Setting what is known before ----------

  /** A flag, a number or a search-path string that is written out. */
  predicate Scalar(e: Expr) {
    e.FlagLit? || e.NumberLit? || e.RootLit?
  }

  /** Such an expression, or a list of one search-path string. */
  predicate Constant(e: Expr) {
    Scalar(e) || (e.ListLit? && |e.items| == 1 && e.items[0].RootLit?)
  }

  function ObjOf(e: Expr): Obj
    requires Constant(e)
  {
    if e.FlagLit? then Flag(e.flag)
    else if e.NumberLit? then Number(e.number)
    else if e.RootLit? then Root(e.root)
    else List([Root(e.items[0].root)])
  }

  function ValueOf(e: Expr): Value
    requires Constant(e)
  {
    if e.FlagLit? then KnownFlag(e.flag)
    else if e.NumberLit? then KnownNumber(e.number)
    else if e.RootLit? then KnownRoot(e.root)
    else KnownList([KnownRoot(e.items[0].root)])
  }

  function Cost(e: Expr): nat {
    if e.ListLit? then 2 else 1
  }

  lemma ConstantEval(e: Expr, values: map<string, Value>, budget: int)
    requires Constant(e) && budget > 1
    ensures Eval(e, values, budget) == (ValueOf(e), budget - Cost(e))
  {
    if e.ListLit? {
      assert EvalAll(e, 0, values, budget - 1) == ([], budget - 1);
      assert Eval(e.items[0], values, budget - 1) == (KnownRoot(e.items[0].root), budget - 2);
      assert [] + [KnownRoot(e.items[0].root)] == [KnownRoot(e.items[0].root)];
    }
  }

  lemma ConstantYields(e: Expr, env: map<string, Obj>)
    requires Constant(e)
    ensures Yields(e, env, ObjOf(e))
  {}

  /** Which branch a constant takes. */
  predicate Truth(e: Expr)
    requires Scalar(e)
  {
    match e
    case FlagLit(b) => b
    case NumberLit(n) => n != 0
    case RootLit(_) => true
  }

  /** Two values between which a use of the first can tell: as a condition, as a root, as
      the first place of the path, or as a list of roots. */
  predicate Differ(e: Expr, f: Expr) {
    Constant(e) && Constant(f) &&
    match e
    case FlagLit(b) => Scalar(f) && Truth(f) != b
    case RootLit(_) => Scalar(f) && f != e
    case NumberLit(n) => n == 0 && (f == FlagLit(true) || (f.NumberLit? && f.number > 0))
    case _ => f.ListLit? && f != e
  }

  /** Code whose effect on the path shows whether a variable has its first value. */
  function Use(x: string, e: Expr, p: string): Stmt
    requires Constant(e)
  {
    var insert := [Insert(NumberLit(0), RootLit(p))];
    match e
    case FlagLit(b) => if b then If(Name(x), insert, []) else If(Name(x), [], insert)
    case RootLit(_) => Insert(NumberLit(0), Name(x))
    case NumberLit(_) => Insert(Name(x), RootLit(p))
    case _ => For(ITEM, Name(x), [Insert(NumberLit(0), Name(ITEM))], [])
  }

  /** The variable of a loop over roots. */
  const ITEM := "root"

  /** The root that the use inserts. */
  function Used(e: Expr, p: string): string
    requires Constant(e)
  {
    if e.RootLit? then e.root else if e.ListLit? then e.items[0].root else p
  }

  /** Deferred code sets a known variable to another value and back, and it is used. */
  function Resetting(x: string, e: Expr, f: Expr, p: string): seq<Stmt>
    requires Constant(e)
  {
    [Assign(x, e), Opaque([Assign(x, f), Assign(x, e)]), Use(x, e, p)]
  }

  lemma ResettingAnalysis(x: string, e: Expr, f: Expr, p: string, tree: Tree)
    requires Differ(e, f) && Used(e, p) in tree
    ensures var r := Block(Resetting(x, e, f, p), START, tree, 20000); r.1 >= 0 && r.0.prefix == [Used(e, p)]
  {
    var s1 := Assigned(START, x, ValueOf(e));
    var j := 19999 - Cost(e);
    ConstantEval(e, START.values, 19999);
    assert One(Assign(x, e), START, tree, 19999) == (s1, j);
    var b := Branched(s1);
    var b1 := Assigned(b, x, ValueOf(f));
    var b2 := Assigned(b1, x, ValueOf(e));
    var k := j - 2 - Cost(f);
    ConstantEval(f, b.values, j - 2);
    ConstantEval(e, b1.values, k - 1);
    var l := k - 1 - Cost(e);
    Blocks2(Assign(x, f), Assign(x, e), b, tree, j - 1, b1, k, b2, l);
    var s2 := Rejoined(s1, b2);
    assert One(Opaque([Assign(x, f), Assign(x, e)]), s1, tree, j - 1) == (s2, l);
    assert s2.prefix == [] && !s2.deferred && Get(s2.values, x) == ValueOf(e) by {
      JoinedGets(s1, s1, b2.(prefix := s1.prefix, possible := s1.possible), x);
    }
    UseAnalysis(x, e, p, s2, tree, l - 1);
    var r := One(Use(x, e, p), s2, tree, l - 1);
    hide *;
    Blocks3(Assign(x, e), Opaque([Assign(x, f), Assign(x, e)]), Use(x, e, p), START, tree, 20000, s1, j, s2, l,
            r.0, r.1);
    ResettingIs(x, e, f, p);
  }

  lemma ResettingIs(x: string, e: Expr, f: Expr, p: string)
    requires Constant(e)
    ensures Resetting(x, e, f, p) == [Assign(x, e), Opaque([Assign(x, f), Assign(x, e)]), Use(x, e, p)]
  {}

  lemma UseAnalysis(x: string, e: Expr, p: string, s: State, tree: Tree, budget: int)
    requires Constant(e) && Used(e, p) in tree && budget >= 100 && (e.NumberLit? ==> e.number == 0)
    requires s.prefix == [] && !s.deferred && Get(s.values, x) == ValueOf(e)
    ensures var r := One(Use(x, e, p), s, tree, budget); r.1 >= 0 && r.0.prefix == [Used(e, p)]
  {
    match e
    case FlagLit(b) =>
      InsertOne(p, s, tree, budget - 2);
      BlockOne(Insert(NumberLit(0), RootLit(p)), s, tree, budget - 1);
      assert Eval(Name(x), s.values, budget) == (KnownFlag(b), budget - 1);
    case RootLit(r) =>
      InsertKnown(NumberLit(0), Name(x), r, s, tree, budget);
    case NumberLit(n) =>
      InsertKnown(Name(x), RootLit(p), p, s, tree, budget);
    case ListLit(items) =>
      LoopAnalysis(x, items[0].root, s, tree, budget);
    case _ =>
      assert false;
  }

  lemma LoopAnalysis(x: string, root: string, s: State, tree: Tree, budget: int)
    requires root in tree && budget >= 100
    requires s.prefix == [] && !s.deferred && Get(s.values, x) == KnownList([KnownRoot(root)])
    ensures var r := One(For(ITEM, Name(x), [Insert(NumberLit(0), Name(ITEM))], []), s, tree, budget);
      r.1 >= 0 && r.0.prefix == [root]
  {
    var item := KnownRoot(root);
    var t := Assigned(s, ITEM, item);
    var insert := Insert(NumberLit(0), Name(ITEM));
    assert Eval(Name(x), s.values, budget) == (KnownList([item]), budget - 1);
    InsertKnown(insert.place, insert.root, root, t, tree, budget - 2);
    BlockOne(insert, t, tree, budget - 1);
    var m := Block([insert], t, tree, budget - 1);
    assert m.0.prefix == [root] && m.1 == budget - 5;
    var st := For(ITEM, Name(x), [insert], []);
    assert [item][1..] == [] && [insert][1..] == [] && !Abrupt(st.body);
    assert Unrolled(st, [item], s, tree, budget - 1) == Unrolled(st, [], m.0, tree, m.1);
    assert Unrolled(st, [], m.0, tree, m.1) == m;
  }

  /** An insertion in front whose parts are known. */
  lemma InsertKnown(place: Expr, e: Expr, root: string, s: State, tree: Tree, budget: int)
    requires root in tree && !s.deferred && budget >= 3 && s.prefix == []
    requires place == NumberLit(0) || (place.Name? && Get(s.values, place.name) == KnownNumber(0))
    requires e == RootLit(root) || (e.Name? && Get(s.values, e.name) == KnownRoot(root))
    ensures One(Insert(place, e), s, tree, budget) == (s.(mutated := true, prefix := [root]), budget - 3)
  {
    assert Eval(place, s.values, budget - 1) == (KnownNumber(0), budget - 2);
    assert Eval(e, s.values, budget - 2) == (KnownRoot(root), budget - 3);
    assert [] + [root] + s.prefix[0..] == [root];
  }

  /** The run whose only round ends between the two assignments. */
  lemma ResettingRun(x: string, e: Expr, f: Expr, p: string) returns (script: seq<Choice>, path: seq<string>)
    requires Differ(e, f)
    ensures exists env ::
              Play(Resetting(x, e, f, p), World(map[], [Used(e, p) + "/"]), script, false)
              == Some(End(World(env, path), Normal))
    ensures path != [] && path[0] != Used(e, p)
  {
    var w0 := World(map[], [Used(e, p) + "/"]);
    var w1 := w0.(env := map[x := ObjOf(e)]);
    var w2 := w0.(env := w1.env[x := ObjOf(f)]);
    assert w0.env[x := ObjOf(e)] == w1.env;
    ConstantYields(e, w0.env);
    ConstantYields(f, w1.env);
    assert PlayOne(Assign(x, e), w0, Value(ObjOf(e)), false) == Some(End(w1, Normal));
    assert PlayOne(Assign(x, f), w1, Value(ObjOf(f)), true) == Some(End(w2, Normal));
    Played2(Assign(x, f), Assign(x, e), w1, Value(ObjOf(f)), Raise, true, w2, End(w2, Thrown));
    RepeatedOnce([Assign(x, f), Assign(x, e)], w1, [Value(ObjOf(f)), Raise], End(w2, Thrown));
    var again := Repeat([Round([Value(ObjOf(f)), Raise], Next)], Normal);
    var last, w3 := UseRun(x, e, f, p, w2);
    script, path := [Value(ObjOf(e)), again, last], w3.path;
    hide *;
    Played3(Assign(x, e), Opaque([Assign(x, f), Assign(x, e)]), Use(x, e, p), w0, Value(ObjOf(e)), again, last, w1, w2,
            w3);
    ResettingIs(x, e, f, p);
    assert w3 == World(w3.env, path);
  }

  lemma UseRun(x: string, e: Expr, f: Expr, p: string, w: World) returns (c: Choice, end: World)
    requires Differ(e, f) && w.path == [Used(e, p) + "/"] && x in w.env && w.env[x] == ObjOf(f)
    ensures PlayOne(Use(x, e, p), w, c, false) == Some(End(end, Normal))
    ensures end.path != [] && end.path[0] != Used(e, p)
  {
    var first := Used(e, p) + "/";
    assert |first| != |Used(e, p)|;
    match e
    case FlagLit(b) =>
      c, end := Branch(ObjOf(f), !b, []), w;
      assert Play([], w, [], false) == Some(End(w, Normal));
    case RootLit(r) =>
      var text := if f.RootLit? then f.root else first;
      c, end := InsertAt(Number(0), ObjOf(f), text, 0), w.(path := [text, first]);
      assert ListInsert(w.path, 0, text) == [text, first];
    case NumberLit(n) =>
      var at := if f.NumberLit? then f.number else 1;
      c, end := InsertAt(ObjOf(f), Root(p), p, at), w.(path := [first, p]);
      assert ListInsert(w.path, at, p) == [first, p];
    case ListLit(_) =>
      c, end := LoopRun(x, f.items[0].root, w);
    case _ =>
      assert false;
  }

  lemma LoopRun(x: string, root: string, w: World) returns (c: Choice, end: World)
    requires x in w.env && w.env[x] == List([Root(root)])
    ensures PlayOne(For(ITEM, Name(x), [Insert(NumberLit(0), Name(ITEM))], []), w, c, false) == Some(End(end, Normal))
    ensures end.path != [] && end.path[0] == root
  {
    var st := For(ITEM, Name(x), [Insert(NumberLit(0), Name(ITEM))], []);
    var w1 := w.(env := w.env[ITEM := Root(root)]);
    var insert := InsertAt(Number(0), Root(root), root, 0);
    end := w1.(path := [root] + w.path);
    assert ListInsert(w.path, 0, root) == [root] + w.path;
    Played1(st.body[0], w1, insert, false, end);
    var items, rounds := [Root(root)], [Round([insert], Next)];
    assert items[1..] == [] && rounds[1..] == [];
    assert Play(st.orelse, end, [], false) == Some(End(end, Normal));
    assert PlayLoop(st, end, items[1..], rounds[1..], []) == Some(End(end, Normal));
    c := Loop(w.env[x], items, rounds, []);
  }

  /** For every variable and any two values between which its use can tell, deferred code that
      sets the variable away from the value known before it, and back, misleads the
      analysis. */
  lemma ResettingMisleads(x: string, e: Expr, f: Expr, p: string, tree: Tree)
    requires Differ(e, f) && Used(e, p) in tree
    ensures Misleads(Resetting(x, e, f, p), tree)
  {
    hide Play, Block, Resetting, Used;
    ResettingAnalysis(x, e, f, p, tree);
    var script, path := ResettingRun(x, e, f, p);
    var prefix := Block(Resetting(x, e, f, p), START, tree, 20000).0.prefix;
    assert !(prefix <= path);
    assert Escapes(prefix, Play(Resetting(x, e, f, p), World(map[], [Used(e, p) + "/"]), script, false));
  }

  // ---------- Deciding by what may not have been set ----------

  /** A branch that inserts a directory in front when a flag is not as given. */
  function Unless(x: string, flag: bool, q: string): Stmt {
    var insert := [Insert(NumberLit(0), RootLit(q))];
    if flag then If(Name(x), [], insert) else If(Name(x), insert, [])
  }

  lemma UnlessAnalysis(x: string, flag: bool, q: string, s: State, tree: Tree, budget: int)
    requires Get(s.values, x) == KnownFlag(flag) && budget > 0
    ensures One(Unless(x, flag, q), s, tree, budget) == (s, budget - 1)
  {
    assert Eval(Name(x), s.values, budget) == (KnownFlag(flag), budget - 1);
  }

  /** Opaque code sets a flag that nothing was known of, and branches on it. */
  function Deciding(x: string, flag: bool, p: string, q: string): seq<Stmt> {
    [Insert(NumberLit(0), RootLit(p)), Opaque([Assign(x, FlagLit(flag)), Unless(x, flag, q)])]
  }

  /** When an exception passes over the assignment, the branch the analysis left out is
      taken. */
  lemma DecidingMisleads(x: string, flag: bool, p: string, q: string, tree: Tree)
    requires p in tree && p != q
    ensures Misleads(Deciding(x, flag, p, q), tree)
  {
    hide Play, Block, Deciding;
    DecidingAnalysis(x, flag, p, q, tree);
    var script := DecidingRun(x, flag, p, q);
    MisleadsBy(Deciding(x, flag, p, q), tree, World(map[x := Flag(!flag)], []), script, p, q);
  }

  lemma DecidingAnalysis(x: string, flag: bool, p: string, q: string, tree: Tree)
    requires p in tree
    ensures var r := Block(Deciding(x, flag, p, q), START, tree, 20000); r.1 >= 0 && r.0.prefix == [p]
  {
    hide Block, Rejoined, Unless;
    var body := [Assign(x, FlagLit(flag)), Unless(x, flag, q)];
    var s1 := Changed(p);
    InsertOne(p, START, tree, 19999);
    var b := Branched(s1);
    var b1 := Assigned(b, x, KnownFlag(flag));
    ConstantEval(FlagLit(flag), b.values, 19994);
    UnlessAnalysis(x, flag, q, b1, tree, 19992);
    Blocks2(body[0], body[1], b, tree, 19995, b1, 19993, b1, 19991);
    var s2 := Rejoined(s1, b1);
    RejoinPrefix(s1, b1);
    Blocks2(Insert(NumberLit(0), RootLit(p)), Opaque(body), START, tree, 20000, s1, 19996, s2, 19991);
  }

  /** The state once a directory is certain. */
  function Changed(p: string): State {
    START.(mutated := true, prefix := [p])
  }

  lemma DecidingRun(x: string, flag: bool, p: string, q: string) returns (script: seq<Choice>)
    ensures exists env ::
      Play(Deciding(x, flag, p, q), World(map[x := Flag(!flag)], []), script, false)
      == Some(End(World(env, [q, p]), Normal))
  {
    hide Play, Unless;
    var body := [Assign(x, FlagLit(flag)), Unless(x, flag, q)];
    var w := World(map[x := Flag(!flag)], []);
    var w1, w2 := w.(path := [p]), w.(path := [q, p]);
    InsertRun(p, w);
    var c := UnlessOther(x, flag, q, w1, Flag(!flag));
    assert [q] + [p] == [q, p];
    Played2(body[0], body[1], w1, Skip, c, true, w1, End(w2, Normal));
    RepeatedOnce(body, w1, [Skip, c], End(w2, Normal));
    var again := Repeat([Round([Skip, c], Next)], Normal);
    script := [InsertAt(Number(0), Root(p), p, 0), again];
    Played2(Insert(NumberLit(0), RootLit(p)), Opaque(body), w, script[0], again, false, w1, End(w2, Normal));
  }

  lemma InsertRun(p: string, w: World)
    requires w.path == []
    ensures PlayOne(Insert(NumberLit(0), RootLit(p)), w, InsertAt(Number(0), Root(p), p, 0), false)
         == Some(End(w.(path := [p]), Normal))
  {
    assert ListInsert([], 0, p) == [p];
  }

  lemma InsertOne(p: string, s: State, tree: Tree, budget: int)
    requires p in tree && !s.deferred && budget >= 3 && s.prefix == []
    ensures One(Insert(NumberLit(0), RootLit(p)), s, tree, budget) == (s.(mutated := true, prefix := [p]), budget - 3)
  {
    InsertKnown(NumberLit(0), RootLit(p), p, s, tree, budget);
  }

  lemma MisleadsBy(program: seq<Stmt>, tree: Tree, w: World, script: seq<Choice>, p: string, q: string)
    requires p != q
    requires var r := Block(program, START, tree, 20000); r.1 >= 0 && r.0.prefix == [p]
    requires exists env :: Play(program, w, script, false) == Some(End(World(env, [q, p]), Normal))
    ensures Misleads(program, tree)
  {
    hide Play, Block;
    assert [q, p][..1] == [q] && [p][0] != [q][0];
    assert Escapes([p], Play(program, w, script, false));
  }

  /** The body of a loop sets a flag that its `else` branches on. */
  function Ending(t: string, x: string, flag: bool, p: string, q: string): seq<Stmt> {
    [Insert(NumberLit(0), RootLit(p)), For(t, Other, [Assign(x, FlagLit(flag))], [Unless(x, flag, q)])]
  }

  /** When the loop has no round, the branch the analysis left out is taken. */
  lemma EndingMisleads(t: string, x: string, flag: bool, p: string, q: string, tree: Tree)
    requires p in tree && p != q
    ensures Misleads(Ending(t, x, flag, p, q), tree)
  {
    hide Play, Block, Ending;
    EndingAnalysis(t, x, flag, p, q, tree);
    var script := EndingRun(t, x, flag, p, q);
    MisleadsBy(Ending(t, x, flag, p, q), tree, World(map[x := Flag(!flag)], []), script, p, q);
  }

  lemma EndingAnalysis(t: string, x: string, flag: bool, p: string, q: string, tree: Tree)
    requires p in tree
    ensures var r := Block(Ending(t, x, flag, p, q), START, tree, 20000); r.1 >= 0 && r.0.prefix == [p]
  {
    hide Block, Rejoined, Unless, Unrolled;
    var body, orelse := [Assign(x, FlagLit(flag))], [Unless(x, flag, q)];
    var loop := For(t, Other, body, orelse);
    var s1 := Changed(p);
    InsertOne(p, START, tree, 19999);
    var b := Branched(Assigned(s1, t, Unknown));
    var b1 := Assigned(b, x, KnownFlag(flag));
    assert Eval(Other, s1.values, 19995) == (Unknown, 19994);
    ConstantEval(FlagLit(flag), b.values, 19993);
    UnlessAnalysis(x, flag, q, b1, tree, 19991);
    BlockOne(body[0], b, tree, 19994);
    BlockOne(orelse[0], b1, tree, 19992);
    var s2 := Rejoined(s1, b1);
    RejoinPrefix(s1, b1);
    Blocks2(Insert(NumberLit(0), RootLit(p)), loop, START, tree, 20000, s1, 19996, s2, 19990);
  }

  lemma BlockOne(st: Stmt, s: State, tree: Tree, budget: int)
    requires budget > 0
    ensures Block([st], s, tree, budget) == One(st, s, tree, budget - 1)
  {
    assert [st][1..] == [];
  }

  lemma EndingRun(t: string, x: string, flag: bool, p: string, q: string) returns (script: seq<Choice>)
    ensures exists env ::
      Play(Ending(t, x, flag, p, q), World(map[x := Flag(!flag)], []), script, false)
      == Some(End(World(env, [q, p]), Normal))
  {
    hide Play, Unless;
    var body, orelse := [Assign(x, FlagLit(flag))], [Unless(x, flag, q)];
    var loop := For(t, Other, body, orelse);
    var w := World(map[x := Flag(!flag)], []);
    var w1, w2 := w.(path := [p]), w.(path := [q, p]);
    InsertRun(p, w);
    var c := UnlessOther(x, flag, q, w1, Flag(!flag));
    assert [q] + [p] == [q, p];
    Played1(orelse[0], w1, c, false, w2);
    var none := Loop(Thing(0), [], [], [c]);
    assert PlayOne(loop, w1, none, false) == Some(End(w2, Normal));
    script := [InsertAt(Number(0), Root(p), p, 0), none];
    Played2(Insert(NumberLit(0), RootLit(p)), loop, w, script[0], none, false, w1, End(w2, Normal));
  }

  // ---------- A later round ----------

  /** Deferred code branches on a flag known before it, and then sets it to another value. */
  function Testing(x: string, flag: bool, f: Expr, p: string, q: string): seq<Stmt> {
    [Assign(x, FlagLit(flag)), Insert(NumberLit(0), RootLit(p)), Opaque([Unless(x, flag, q), Assign(x, f)])]
  }

  /** The second round takes the branch that the one analysis left out. */
  lemma TestingMisleads(x: string, flag: bool, f: Expr, p: string, q: string, tree: Tree)
    requires Scalar(f) && Truth(f) != flag && p in tree && p != q
    ensures Misleads(Testing(x, flag, f, p, q), tree)
  {
    hide Play, Block, Testing;
    TestingAnalysis(x, flag, f, p, q, tree);
    var script := TestingRun(x, flag, f, p, q);
    MisleadsBy(Testing(x, flag, f, p, q), tree, World(map[], []), script, p, q);
  }

  lemma TestingAnalysis(x: string, flag: bool, f: Expr, p: string, q: string, tree: Tree)
    requires Scalar(f) && p in tree
    ensures var r := Block(Testing(x, flag, f, p, q), START, tree, 20000); r.1 >= 0 && r.0.prefix == [p]
  {
    hide Block, One, Unless;
    var body := [Unless(x, flag, q), Assign(x, f)];
    var s1 := Assigned(START, x, KnownFlag(flag));
    var s2 := s1.(mutated := true, prefix := [p]);
    AssignOne(x, FlagLit(flag), START, tree, 19999);
    InsertOne(p, s1, tree, 19997);
    var s3 := TestingBody(x, flag, f, q, s2, tree);
    Blocks3(Assign(x, FlagLit(flag)), Insert(NumberLit(0), RootLit(p)), Opaque(body), START, tree, 20000, s1, 19998, s2,
            19994, s3, 19989);
  }

  lemma AssignOne(x: string, e: Expr, s: State, tree: Tree, budget: int)
    requires Scalar(e) && budget > 1
    ensures One(Assign(x, e), s, tree, budget) == (Assigned(s, x, ValueOf(e)), budget - 1)
  {
    ConstantEval(e, s.values, budget);
  }

  lemma TestingBody(x: string, flag: bool, f: Expr, q: string, s: State, tree: Tree) returns (r: State)
    requires Scalar(f) && Get(s.values, x) == KnownFlag(flag)
    ensures One(Opaque([Unless(x, flag, q), Assign(x, f)]), s, tree, 19993) == (r, 19989) && r.prefix == s.prefix
  {
    hide Block, Rejoined, Unless;
    var body := [Unless(x, flag, q), Assign(x, f)];
    var b := Branched(s);
    var b1 := Assigned(b, x, ValueOf(f));
    UnlessAnalysis(x, flag, q, b, tree, 19992);
    AssignOne(x, f, b, tree, 19990);
    Blocks2(body[0], body[1], b, tree, 19993, b, 19991, b1, 19989);
    r := Rejoined(s, b1);
    RejoinPrefix(s, b1);
  }

  lemma TestingRun(x: string, flag: bool, f: Expr, p: string, q: string) returns (script: seq<Choice>)
    requires Scalar(f) && Truth(f) != flag
    ensures exists env ::
      Play(Testing(x, flag, f, p, q), World(map[], []), script, false) == Some(End(World(env, [q, p]), Normal))
  {
    hide Play, Unless;
    var body := [Unless(x, flag, q), Assign(x, f)];
    var w0, w1 := World(map[], []), World(map[x := Flag(flag)], []);
    var w2 := w1.(path := [p]);
    var w3 := w2.(env := w2.env[x := ObjOf(f)]);
    var w4 := w3.(path := [q, p]);
    assert w0.env[x := Flag(flag)] == w1.env;
    InsertRun(p, w1);
    UnlessPassed(x, flag, q, w2);
    Played2(body[0], body[1], w2, Branch(Flag(flag), flag, []), Value(ObjOf(f)), true, w2, End(w3, Normal));
    var c := UnlessOther(x, flag, q, w3, ObjOf(f));
    assert [q] + [p] == [q, p];
    Played2(body[0], body[1], w3, c, Raise, true, w4, End(w4, Thrown));
    var one, two := Round([Branch(Flag(flag), flag, []), Value(ObjOf(f))], Next), Round([c, Raise], Next);
    RepeatedTwice(body, w2, one, two, w3, w4);
    script := [Value(Flag(flag)), InsertAt(Number(0), Root(p), p, 0), Repeat([one, two], Normal)];
    Played3(Assign(x, FlagLit(flag)), Insert(NumberLit(0), RootLit(p)), Opaque(body), w0, script[0], script[1],
            script[2], w1, w2, w4);
  }

  lemma UnlessPassed(x: string, flag: bool, q: string, w: World)
    requires x in w.env && w.env[x] == Flag(flag)
    ensures forall loose ::
              PlayOne(Unless(x, flag, q), w, Branch(Flag(flag), flag, []), loose) == Some(End(w, Normal))
  {
    assert Play([], w, [], false) == Some(End(w, Normal));
  }

  lemma UnlessOther(x: string, flag: bool, q: string, w: World, o: Obj) returns (c: Choice)
    requires x in w.env && w.env[x] == o && Takes(o, !flag)
    ensures forall loose :: PlayOne(Unless(x, flag, q), w, c, loose) == Some(End(w.(path := [q] + w.path), Normal))
  {
    var st := Insert(NumberLit(0), RootLit(q));
    c := Branch(o, !flag, [InsertAt(Number(0), Root(q), q, 0)]);
    assert ListInsert(w.path, 0, q) == [q] + w.path;
    Played1(st, w, InsertAt(Number(0), Root(q), q, 0), false, w.(path := [q] + w.path));
  }

  lemma RepeatedTwice(body: seq<Stmt>, w: World, one: Round, two: Round, w1: World, w2: World)
    requires Play(body, w, one.script, true) == Some(End(w1, Normal))
    requires Play(body, w1, two.script, true) == Some(End(w2, Thrown))
    ensures PlayOne(Opaque(body), w, Repeat([one, two], Normal), false) == Some(End(w2, Normal))
  {
    hide Play;
    var st, rounds := Opaque(body), [one, two];
    assert rounds[1..] == [two] && rounds[1..][1..] == [];
    assert PlayRepeat(st, w2, [], Normal) == Some(End(w2, Normal));
    assert PlayRepeat(st, w1, rounds[1..], Normal) == Some(End(w2, Normal));
  }

  // ---------- What does not mislead ----------

  /** A flag that opaque code may raise, a branch on it, and an insertion. */
  function Fallback(x: string, p: string, q: string): seq<Stmt> {
    [Assign(x, FlagLit(false)), Opaque([Assign(x, FlagLit(true))]), Unless(x, false, q),
     Insert(NumberLit(0), RootLit(p))]
  }

  /** The flag is in doubt, but nothing is decided by it: the analysis does not know it. */
  lemma FallbackIsUndoubted(x: string, p: string, q: string, tree: Tree)
    requires p in tree
    ensures Undoubted(Fallback(x, p, q), tree, 20000)
    ensures Block(Fallback(x, p, q), START, tree, 20000).0.prefix == [p]
  {
    hide Block, Guard, Rejoined, PythonSoundness.After, Decides, Unless;
    var lowered, raised := Assign(x, FlagLit(false)), [Assign(x, FlagLit(true))];
    var rest := [Unless(x, false, q), Insert(NumberLit(0), RootLit(p))];
    var s1 := Assigned(START, x, KnownFlag(false));
    ConstantEval(FlagLit(false), START.values, 19999);
    RaisedIsUnknown(x, s1, tree);
    var s2 := One(Opaque(raised), s1, tree, 19997);
    var doubt := PythonSoundness.After(Opaque(raised), {x}, {}, false);
    RestIsGuarded(x, p, q, s2.0, tree, s2.1, {x}, doubt);
    GuardLast(raised[0], Branched(s1), tree, 19997, {x}, Doubted({x}, {}, Assigns(raised)), true);
    GuardNext(Opaque(raised), rest, s1, tree, 19998, {x}, {});
    AssignClears(x, FlagLit(false));
    GuardNext(lowered, [Opaque(raised)] + rest, START, tree, 20000, {}, {});
    RestInserts(x, p, q, s2.0, tree, s2.1);
    BlockNext(Opaque(raised), rest, s1, tree, 19998);
    BlockNext(lowered, [Opaque(raised)] + rest, START, tree, 20000);
    assert Fallback(x, p, q) == [lowered] + ([Opaque(raised)] + rest);
  }

  lemma AssignClears(x: string, e: Expr)
    requires Scalar(e)
    ensures PythonSoundness.After(Assign(x, e), {}, {}, false) == {} && LearnsOne(Assign(x, e), {}) == {x}
  {}

  lemma RaisedIsUnknown(x: string, s: State, tree: Tree)
    requires Get(s.values, x) == KnownFlag(false)
    ensures var r := One(Opaque([Assign(x, FlagLit(true))]), s, tree, 19997);
      r.1 == 19995 && Get(r.0.values, x).Unknown? && r.0.prefix == s.prefix && r.0.deferred == s.deferred
  {
    var st := Assign(x, FlagLit(true));
    var b := Assigned(Branched(s), x, KnownFlag(true));
    ConstantEval(FlagLit(true), Branched(s).values, 19996);
    BlockOne(st, Branched(s), tree, 19997);
    JoinedGets(s, s, b.(prefix := s.prefix, possible := s.possible), x);
    UnmovedRejoins(s, b);
  }

  lemma RestInserts(x: string, p: string, q: string, s: State, tree: Tree, budget: int)
    requires Get(s.values, x).Unknown? && budget > 10 && s.prefix == [] && !s.deferred && p in tree
    ensures Block([Unless(x, false, q), Insert(NumberLit(0), RootLit(p))], s, tree, budget).0.prefix == [p]
  {
    var test, last := Unless(x, false, q), Insert(NumberLit(0), RootLit(p));
    var m, left := InsertedOrNot(x, q, s, tree, budget - 1);
    InsertOne(p, m, tree, left - 1);
    hide *;
    BlockNext(test, [last], s, tree, budget);
    BlockOne(last, m, tree, left);
    assert [test] + [last] == [test, last];
  }

  /** Both branches are possible, and nothing is certain after them. */
  lemma InsertedOrNot(x: string, q: string, s: State, tree: Tree, budget: int) returns (m: State, left: int)
    requires Get(s.values, x).Unknown? && budget >= 10 && s.prefix == [] && !s.deferred
    ensures One(Unless(x, false, q), s, tree, budget) == (m, left)
    ensures left == budget - 5 && m.prefix == [] && !m.deferred
  {
    var insert := Insert(NumberLit(0), RootLit(q));
    BlockOne(insert, s, tree, budget - 1);
    assert Eval(Name(x), s.values, budget) == (Unknown, budget - 1);
    assert Eval(NumberLit(0), s.values, budget - 3) == (KnownNumber(0), budget - 4);
    assert Eval(RootLit(q), s.values, budget - 4) == (KnownRoot(q), budget - 5);
    var r := One(Unless(x, false, q), s, tree, budget);
    m, left := r.0, r.1;
  }

  lemma BlockNext(st: Stmt, rest: seq<Stmt>, s: State, tree: Tree, budget: int)
    requires budget > 0
    ensures var m := One(st, s, tree, budget - 1); Block([st] + rest, s, tree, budget) == Block(rest, m.0, tree, m.1)
  {
    hide One;
    assert ([st] + rest)[1..] == rest;
  }

  lemma RestIsGuarded(x: string, p: string, q: string, s: State, tree: Tree, budget: int, known: set<string>,
                      doubt: set<string>)
    requires Get(s.values, x).Unknown? && budget > 10
    ensures Guard([Unless(x, false, q), Insert(NumberLit(0), RootLit(p))], s, tree, budget, known, doubt, false)
  {
    hide Block, Guard, PythonSoundness.After;
    var test, last, first := Unless(x, false, q), Insert(NumberLit(0), RootLit(p)), Insert(NumberLit(0), RootLit(q));
    var next := One(test, s, tree, budget - 1);
    GuardLast(first, s, tree, budget - 2, known, doubt, false);
    GuardNone(s, tree, Block([first], s, tree, budget - 2).1, known, doubt, false);
    assert Eval(Name(x), s.values, budget - 1) == (Unknown, budget - 2);
    GuardLast(last, next.0, tree, next.1, LearnsOne(test, known), PythonSoundness.After(test, known, doubt, false),
              false);
    GuardNext(test, [last], s, tree, budget, known, doubt);
    assert [test] + [last] == [test, last];
  }

  lemma GuardNone(s: State, tree: Tree, budget: int, known: set<string>, doubt: set<string>, loose: bool)
    ensures Guard([], s, tree, budget, known, doubt, loose)
  {}

  lemma GuardNext(st: Stmt, rest: seq<Stmt>, s: State, tree: Tree, budget: int, known: set<string>, doubt: set<string>)
    requires GuardOne(st, s, tree, budget - 1, known, doubt)
    requires var (m, left) := One(st, s, tree, budget - 1);
      Guard(rest, m, tree, left, LearnsOne(st, known), PythonSoundness.After(st, known, doubt, false), false)
    ensures Guard([st] + rest, s, tree, budget, known, doubt, false)
  {
    hide GuardOne, One, LearnsOne, PythonSoundness.After;
    assert ([st] + rest)[1..] == rest;
  }

  /** A single statement whose guard asks nothing. */
  lemma GuardLast(st: Stmt, s: State, tree: Tree, budget: int, known: set<string>, doubt: set<string>, loose: bool)
    requires st.Assign? || (st.Insert? && st.place.NumberLit? && st.root.RootLit?)
    ensures Guard([st], s, tree, budget, known, doubt, loose)
  {
    hide Decides, One, LearnsOne, PythonSoundness.After;
    if budget > 0 {
      assert GuardOne(st, s, tree, budget - 1, known, doubt) by { AsksNothing(st, s, tree, budget - 1, known, doubt); }
      hide GuardOne;
      var m := One(st, s, tree, budget - 1);
      assert [st][1..] == [];
      GuardNone(m.0, tree, m.1, LearnsOne(st, known), PythonSoundness.After(st, known, doubt, loose), loose);
    }
  }

  lemma AsksNothing(st: Stmt, s: State, tree: Tree, budget: int, known: set<string>, doubt: set<string>)
    requires st.Assign? || (st.Insert? && st.place.NumberLit? && st.root.RootLit?)
    ensures GuardOne(st, s, tree, budget, known, doubt)
  {
    assert st.Insert? ==> Names(st.place) + Names(st.root) == {};
  }
}
