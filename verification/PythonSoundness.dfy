/** Soundness of the definite `sys.path` prefix: it begins the path of every run the
    module may have, while the step budget lasts. Deferred code is analysed once, and any
    of its statements may be passed over, so the values of the variables it sets are in
    doubt; no value in doubt may decide a definite insertion, or a branch or loop that
    matters to the path. */
module PythonSoundness {
  import opened Basics
  import opened PythonPaths
  import opened PythonContext

  // ---------- What code sets and copies ----------

  /** The variables an expression reads. */
  ghost function Names(e: Expr): set<string> {
    match e
    case Name(x) => {x}
    case ListLit(items) => set i, x | 0 <= i < |items| && x in Names(items[i]) :: x
    case _ => {}
  }

  /** The variables a block may set. */
  ghost function Assigns(block: seq<Stmt>): set<string> {
    if block == [] then {} else AssignsOne(block[0]) + Assigns(block[1..])
  }

  ghost function AssignsOne(st: Stmt): set<string> {
    match st
    case Assign(x, _) => {x}
    case If(_, body, orelse) => Assigns(body) + Assigns(orelse)
    case For(x, _, body, orelse) => {x} + Assigns(body) + Assigns(orelse)
    case Opaque(body) => Assigns(body)
    case _ => {}
  }

  /** A block without a statement that may change the path. */
  ghost predicate Inert(block: seq<Stmt>) {
    block == [] || (InertOne(block[0]) && Inert(block[1..]))
  }

  ghost predicate InertOne(st: Stmt) {
    match st
    case Insert(_, _) | Append(_) | Mutate => false
    case If(_, body, orelse) => Inert(body) && Inert(orelse)
    case For(_, _, body, orelse) => Inert(body) && Inert(orelse)
    case Opaque(body) => Inert(body)
    case _ => true
  }

  /** An expression whose value is never known. */
  ghost predicate Vague(e: Expr, known: set<string>) {
    e.Other? || (e.Name? && e.name !in known)
  }

  /** A loop over a list that is written out, which the analysis always unrolls. */
  ghost predicate Listed(st: Stmt) {
    st.For? && st.sequence.ListLit? && |st.sequence.items| <= 32 && !Abrupt(st.body)
  }

  /** The variables that may be known after a block: deferred code adds none. */
  ghost function Learns(block: seq<Stmt>, known: set<string>): set<string>
    decreases block, 0
  {
    if block == [] then known else Learns(block[1..], LearnsOne(block[0], known))
  }

  ghost function LearnsOne(st: Stmt, known: set<string>): set<string>
    decreases st, 1
  {
    match st
    case Assign(x, e) => if Vague(e, known) then known - {x} else known + {x}
    case If(_, body, orelse) => Learns(body, known) + Learns(orelse, known)
    case For(_, e, body, _) => if Abrupt(body) || Vague(e, known) then known else known + AssignsOne(st)
    case _ => known
  }

  // ---------- Doubt ----------

  /** Deferred code puts the variables in doubt that it sets and that may be known before;
      what it adds is not known behind it. */
  ghost function Doubted(known: set<string>, doubt: set<string>, targets: set<string>): set<string> {
    doubt + known * targets
  }

  /** The variables in doubt after a statement, given those that may be known before it:
      those set in deferred code, by a passed over statement or where doubt decides, and
      copies of them; an assignment that happens removes doubt. */
  ghost function After(st: Stmt, known: set<string>, doubt: set<string>, loose: bool): set<string>
    decreases st, 1
  {
    if loose then doubt + AssignsOne(st)
    else
      match st
      case Assign(x, e) => if Names(e) !! doubt then doubt - {x} else doubt + {x}
      case If(e, body, orelse) =>
        if Vague(e, known) || Names(e) !! doubt then
          Final(body, known, doubt, false) + Final(orelse, known, doubt, false)
        else doubt + AssignsOne(st)
      case For(_, e, body, orelse) =>
        (if Listed(st) then {} else Doubted(known, doubt, Assigns(body) + Assigns(orelse)))
        + (if Abrupt(body) || Vague(e, known) then {}
           else if Names(e) !! doubt then Spread(st, known, doubt)
           else doubt + AssignsOne(st))
      case Opaque(body) => Doubted(known, doubt, Assigns(body))
      case _ => doubt
  }

  ghost function Final(block: seq<Stmt>, known: set<string>, doubt: set<string>, loose: bool): set<string>
    decreases block, 0
  {
    if block == [] then doubt
    else Final(block[1..], LearnsOne(block[0], known), After(block[0], known, doubt, loose), loose)
  }

  /** Further rounds of an unrolled loop do not spread doubt. */
  ghost predicate Closed(st: Stmt, known: set<string>, doubt: set<string>)
    requires st.For?
    decreases st, 0, 0
  {
    Final(st.body, known, doubt - {st.target}, false) <= doubt && Final(st.orelse, known, doubt, false) <= doubt
  }

  /** The doubt in which an unrolled loop leaves its variables. */
  ghost function Spread(st: Stmt, known: set<string>, doubt: set<string>): set<string>
    requires st.For?
    decreases st, 0, 1
  {
    if Closed(st, known + AssignsOne(st), doubt) then doubt else doubt + AssignsOne(st)
  }

  lemma {:induction false} FinalBound(block: seq<Stmt>, known: set<string>, doubt: set<string>, loose: bool)
    ensures Final(block, known, doubt, loose) <= doubt + Assigns(block)
    decreases block, 0
  {
    hide After, LearnsOne;
    if block != [] {
      AfterBound(block[0], known, doubt, loose);
      FinalBound(block[1..], LearnsOne(block[0], known), After(block[0], known, doubt, loose), loose);
    }
  }

  lemma {:induction false} AfterBound(st: Stmt, known: set<string>, doubt: set<string>, loose: bool)
    ensures After(st, known, doubt, loose) <= doubt + AssignsOne(st)
    decreases st, 1
  {
    hide Closed;
    if st.If? {
      FinalBound(st.body, known, doubt, false);
      FinalBound(st.orelse, known, doubt, false);
    }
  }

  lemma SpreadCloses(st: Stmt, known: set<string>, doubt: set<string>)
    requires st.For?
    ensures doubt <= Spread(st, known, doubt) && Closed(st, known + AssignsOne(st), Spread(st, known, doubt))
  {
    var all := known + AssignsOne(st);
    var more := doubt + AssignsOne(st);
    FinalBound(st.body, all, more - {st.target}, false);
    FinalBound(st.orelse, all, more, false);
  }

  /** Known values that are not in doubt. */
  ghost function Certain(values: map<string, Value>, doubt: set<string>): set<string> {
    set x | x in values && !values[x].Unknown? && x !in doubt
  }

  // ---------- The guard ----------

  /** The values given decide where in the definite prefix a root stands. */
  ghost predicate Decides(s: State, tree: Tree, place: Value, v: Value) {
    !s.deferred && place.KnownNumber? && v.KnownRoot? && v.root in tree && place.number <= |s.prefix|
  }

  /** What a statement does with the path does not matter: it leaves it alone, or leaves
      nothing of it definite. */
  ghost predicate Harmless(st: Stmt, r: State) {
    InertOne(st) || (r.mutated && r.prefix == [])
  }

  /** Along the analysis of a block, nothing in doubt decides where a root stands, or a
      branch or loop that is not harmless. */
  ghost predicate Guard(block: seq<Stmt>, s: State, tree: Tree, budget: int, known: set<string>, doubt: set<string>,
                        loose: bool)
    decreases block, 0, 0
  {
    block == [] || budget <= 0
    || (GuardOne(block[0], s, tree, budget - 1, known, doubt)
        && (var (m, left) := One(block[0], s, tree, budget - 1);
            Guard(block[1..], m, tree, left, LearnsOne(block[0], known), After(block[0], known, doubt, loose), loose)))
  }

  ghost predicate GuardOne(st: Stmt, s: State, tree: Tree, budget: int, known: set<string>, doubt: set<string>)
    decreases st, 1, 0
  {
    match st
    case Insert(place, e) =>
      var (n, left) := Eval(place, s.values, budget - 1);
      Decides(s, tree, n, Eval(e, s.values, left).0) ==> Names(place) + Names(e) !! doubt
    case If(e, body, orelse) =>
      var (v, left) := Eval(e, s.values, budget);
      if v.KnownFlag? then
        if Names(e) !! doubt then Guard(if v.flag then body else orelse, s, tree, left, known, doubt, false)
        else Harmless(st, One(st, s, tree, budget).0)
      else
        Guard(body, s, tree, left, known, doubt, false)
        && Guard(orelse, s, tree, Block(body, s, tree, left).1, known, doubt, false)
    case For(x, e, body, orelse) =>
      var (v, left) := Eval(e, s.values, budget);
      if v.KnownList? && !Abrupt(body) then
        if Names(e) !! doubt then
          GuardUnrolled(st, v.items, s, tree, left, known + AssignsOne(st), Spread(st, known, doubt))
        else Harmless(st, One(st, s, tree, budget).0)
      else
        GuardLoop(st, Branched(Assigned(s, x, Unknown)), tree, left, known,
                  Doubted(known, doubt, Assigns(body) + Assigns(orelse)))
    case Opaque(body) => Guard(body, Branched(s), tree, budget, known, Doubted(known, doubt, Assigns(body)), true)
    case _ => true
  }

  /** A loop over unknown items: its `else` may follow any number of rounds. */
  ghost predicate GuardLoop(st: Stmt, s: State, tree: Tree, budget: int, known: set<string>, doubt: set<string>)
    requires st.For?
    decreases st, 0, 0
  {
    var (a, left) := Block(st.body, s, tree, budget);
    Guard(st.body, s, tree, budget, known, doubt, false)
    && Guard(st.orelse, a, tree, left, known + Assigns(st.body), doubt + Assigns(st.body), false)
  }

  ghost predicate GuardUnrolled(st: Stmt, items: seq<Value>, s: State, tree: Tree, budget: int, known: set<string>,
                                doubt: set<string>)
    requires st.For?
    decreases st, 0, |items|
  {
    if items == [] then Guard(st.orelse, s, tree, budget, known, doubt, false)
    else
      var t := Assigned(s, st.target, items[0]);
      var (m, left) := Block(st.body, t, tree, budget);
      Guard(st.body, t, tree, budget, known, doubt - {st.target}, false)
      && GuardUnrolled(st, items[1..], m, tree, left, known, doubt)
  }

  // ---------- What every block keeps ----------

  /** A block never leaves a deferred region or forgets a change, makes no root certain in
      deferred code, and says the same of variables it does not set. */
  ghost predicate Kept(s: State, r: State, targets: set<string>) {
    && r.deferred == s.deferred && s.values.Keys <= r.values.Keys
    && (s.mutated ==> r.mutated)
    && (s.deferred && s.prefix == [] ==> r.prefix == [])
    && (forall x :: x !in targets ==> Get(r.values, x) == Get(s.values, x))
  }

  lemma KeptTransitive(s: State, m: State, r: State, a: set<string>, b: set<string>)
    requires Kept(s, m, a) && Kept(m, r, b)
    ensures Kept(s, r, a + b)
  {}

  lemma KeptMore(s: State, r: State, a: set<string>, b: set<string>)
    requires Kept(s, r, a) && a <= b
    ensures Kept(s, r, b)
  {}

  lemma JoinedGets(out: State, left: State, right: State, x: string)
    requires x !in left.values && x !in right.values ==> x !in out.values
    ensures Get(Joined(out, left, right).values, x)
         == if Get(left.values, x) == Get(right.values, x) then Get(left.values, x) else Unknown
  {
    hide Common;
  }

  lemma KeptJoin(s: State, a: State, b: State, targets: set<string>)
    requires Kept(s, a, targets) && Kept(s, b, targets)
    ensures Kept(s, Joined(s, a, b), targets)
  {
    forall x | x !in targets ensures Get(Joined(s, a, b).values, x) == Get(s.values, x) {
      JoinedGets(s, a, b, x);
    }
  }

  lemma KeptRejoin(s: State, t: State, a: State, x: string, targets: set<string>)
    requires t == s || (t == Assigned(s, x, Unknown) && x in targets)
    requires Kept(Branched(t), a, targets)
    ensures Kept(s, Rejoined(s, a), targets)
  {
    var b := if a.mutated then a else a.(prefix := s.prefix, possible := s.possible);
    forall y | y !in targets ensures Get(Rejoined(s, a).values, y) == Get(s.values, y) {
      JoinedGets(s, s, b, y);
    }
  }

  lemma KeptSimple(s: State, tree: Tree, place: Value, v: Value, x: string)
    ensures Kept(s, s, {}) && Kept(s, Assigned(s, x, v), {x})
    ensures Kept(s, Inserted(s, tree, place, v), {}) && Kept(s, Appended(s, tree, v), {})
    ensures Kept(s, Invalidated(s.(mutated := true)), {})
  {}

  lemma {:induction false} BlockKeeps(block: seq<Stmt>, s: State, tree: Tree, budget: int)
    ensures Kept(s, Block(block, s, tree, budget).0, Assigns(block))
    decreases block, 0, 0
  {
    hide Kept;
    KeptSimple(s, tree, Unknown, Unknown, "");
    if block == [] || budget <= 0 {
      KeptMore(s, s, {}, Assigns(block));
    } else {
      var m := One(block[0], s, tree, budget - 1);
      OneKeeps(block[0], s, tree, budget - 1);
      BlockKeeps(block[1..], m.0, tree, m.1);
      KeptTransitive(s, m.0, Block(block[1..], m.0, tree, m.1).0, AssignsOne(block[0]), Assigns(block[1..]));
    }
  }

  lemma {:induction false} OneKeeps(st: Stmt, s: State, tree: Tree, budget: int)
    ensures Kept(s, One(st, s, tree, budget).0, AssignsOne(st))
    decreases st, 1, 0
  {
    hide Kept, Inserted, Appended, Invalidated, Assigned, Joined, Rejoined, Branched, Eval, Block, Assigns;
    match st
    case Insert(place, e) =>
      var (n, left) := Eval(place, s.values, budget - 1);
      KeptSimple(s, tree, n, Eval(e, s.values, left).0, "");
    case Append(e) =>
      KeptSimple(s, tree, Unknown, Eval(e, s.values, budget - 1).0, "");
    case Assign(x, e) =>
      KeptSimple(s, tree, Unknown, Eval(e, s.values, budget).0, x);
    case If(e, body, orelse) =>
      var (v, left) := Eval(e, s.values, budget);
      var all := AssignsOne(st);
      if v.KnownFlag? {
        var branch := if v.flag then body else orelse;
        BlockKeeps(branch, s, tree, left);
        KeptMore(s, Block(branch, s, tree, left).0, Assigns(branch), all);
      } else {
        var a := Block(body, s, tree, left);
        BlockKeeps(body, s, tree, left);
        BlockKeeps(orelse, s, tree, a.1);
        KeptMore(s, a.0, Assigns(body), all);
        KeptMore(s, Block(orelse, s, tree, a.1).0, Assigns(orelse), all);
        KeptJoin(s, a.0, Block(orelse, s, tree, a.1).0, all);
      }
    case For(x, e, body, orelse) =>
      var (v, left) := Eval(e, s.values, budget);
      if v.KnownList? && !Abrupt(body) {
        UnrolledKeeps(st, v.items, s, tree, left);
      } else {
        var t := Assigned(s, x, Unknown);
        LoopKeeps(st, Branched(t), tree, left);
        var a := Block(body, Branched(t), tree, left);
        KeptRejoin(s, t, Block(orelse, a.0, tree, a.1).0, x, AssignsOne(st));
      }
    case Opaque(body) =>
      BlockKeeps(body, Branched(s), tree, budget);
      KeptRejoin(s, s, Block(body, Branched(s), tree, budget).0, "", Assigns(body));
    case _ =>
      KeptSimple(s, tree, Unknown, Unknown, "");
  }

  lemma {:induction false} LoopKeeps(st: Stmt, s: State, tree: Tree, budget: int)
    requires st.For?
    ensures var a := Block(st.body, s, tree, budget);
      Kept(s, a.0, Assigns(st.body)) && Kept(s, Block(st.orelse, a.0, tree, a.1).0, AssignsOne(st))
    decreases st, 0, 0
  {
    hide Kept, Block, Assigns;
    var a := Block(st.body, s, tree, budget);
    var b := Block(st.orelse, a.0, tree, a.1);
    BlockKeeps(st.body, s, tree, budget);
    BlockKeeps(st.orelse, a.0, tree, a.1);
    KeptTransitive(s, a.0, b.0, Assigns(st.body), Assigns(st.orelse));
    KeptMore(s, b.0, Assigns(st.body) + Assigns(st.orelse), AssignsOne(st));
  }

  lemma {:induction false} UnrolledKeeps(st: Stmt, items: seq<Value>, s: State, tree: Tree, budget: int)
    requires st.For?
    ensures Kept(s, Unrolled(st, items, s, tree, budget).0, AssignsOne(st))
    decreases st, 0, |items|
  {
    hide Kept, Assigned, Block, Assigns;
    var all := AssignsOne(st);
    if items == [] {
      BlockKeeps(st.orelse, s, tree, budget);
      KeptMore(s, Block(st.orelse, s, tree, budget).0, Assigns(st.orelse), all);
    } else {
      var t := Assigned(s, st.target, items[0]);
      var m := Block(st.body, t, tree, budget);
      KeptSimple(s, tree, Unknown, items[0], st.target);
      BlockKeeps(st.body, t, tree, budget);
      UnrolledKeeps(st, items[1..], m.0, tree, m.1);
      KeptTransitive(s, t, m.0, {st.target}, Assigns(st.body));
      KeptTransitive(s, m.0, Unrolled(st, items[1..], m.0, tree, m.1).0, {st.target} + Assigns(st.body), all);
      assert {st.target} + Assigns(st.body) + all == all;
    }
  }

  lemma {:induction false} InertKeeps(block: seq<Stmt>, s: State, tree: Tree, budget: int)
    requires Inert(block)
    ensures var r := Block(block, s, tree, budget).0; r.prefix == s.prefix && r.mutated == s.mutated
    decreases block, 0, 0
  {
    hide One, InertOne;
    if block != [] && budget > 0 {
      var m := One(block[0], s, tree, budget - 1);
      InertKeepsOne(block[0], s, tree, budget - 1);
      InertKeeps(block[1..], m.0, tree, m.1);
    }
  }

  lemma {:induction false} InertKeepsOne(st: Stmt, s: State, tree: Tree, budget: int)
    requires InertOne(st)
    ensures var r := One(st, s, tree, budget).0; r.prefix == s.prefix && r.mutated == s.mutated
    decreases st, 1, 0
  {
    hide Joined, Rejoined, Eval, Block, Inert;
    match st
    case If(e, body, orelse) =>
      var (v, left) := Eval(e, s.values, budget);
      if v.KnownFlag? {
        InertKeeps(if v.flag then body else orelse, s, tree, left);
      } else {
        var a := Block(body, s, tree, left);
        InertKeeps(body, s, tree, left);
        InertKeeps(orelse, s, tree, a.1);
        SamePrefix(s, a.0, Block(orelse, s, tree, a.1).0);
      }
    case For(x, e, body, orelse) =>
      var (v, left) := Eval(e, s.values, budget);
      if v.KnownList? && !Abrupt(body) {
        InertKeepsUnrolled(st, v.items, s, tree, left);
      } else {
        var t := Branched(Assigned(s, x, Unknown));
        var a := Block(body, t, tree, left);
        InertKeeps(body, t, tree, left);
        InertKeeps(orelse, a.0, tree, a.1);
        UnmovedRejoins(s, Block(orelse, a.0, tree, a.1).0);
      }
    case Opaque(body) =>
      InertKeeps(body, Branched(s), tree, budget);
      UnmovedRejoins(s, Block(body, Branched(s), tree, budget).0);
    case _ =>
  }

  lemma {:induction false} InertKeepsUnrolled(st: Stmt, items: seq<Value>, s: State, tree: Tree, budget: int)
    requires st.For? && InertOne(st)
    ensures var r := Unrolled(st, items, s, tree, budget).0; r.prefix == s.prefix && r.mutated == s.mutated
    decreases st, 0, |items|
  {
    hide Block, Inert;
    if items == [] {
      InertKeeps(st.orelse, s, tree, budget);
    } else {
      var t := Assigned(s, st.target, items[0]);
      var m := Block(st.body, t, tree, budget);
      InertKeeps(st.body, t, tree, budget);
      InertKeepsUnrolled(st, items[1..], m.0, tree, m.1);
    }
  }

  lemma SamePrefix(out: State, a: State, b: State)
    requires a.prefix == b.prefix
    ensures Joined(out, a, b).prefix == a.prefix && Joined(out, a, b).mutated == (a.mutated || b.mutated)
  {
    hide JoinedValues, Common;
    CommonIs(a.prefix, b.prefix, |a.prefix|);
  }

  lemma UnmovedRejoins(s: State, a: State)
    requires !a.mutated
    ensures Rejoined(s, a).prefix == s.prefix && Rejoined(s, a).mutated == s.mutated
  {
    SamePrefix(s, s, a.(prefix := s.prefix, possible := s.possible));
  }

  // ---------- What a run touches ----------

  ghost predicate Untouched(targets: set<string>, before: map<string, Obj>, after: map<string, Obj>) {
    forall x :: x !in targets ==> (x in after <==> x in before) && (x in before ==> after[x] == before[x])
  }

  lemma {:induction false} BlockTouches(block: seq<Stmt>, w: World, script: seq<Choice>, loose: bool)
    ensures var e := Play(block, w, script, loose); e.Some? ==> Untouched(Assigns(block), w.env, e.value.world.env)
    ensures var e := Play(block, w, script, loose); Inert(block) && e.Some? ==> e.value.world.path == w.path
    decreases block, 0, 0
  {
    hide PlayOne, AssignsOne, InertOne;
    if block != [] && script != [] {
      OneTouches(block[0], w, script[0], loose);
      var first := PlayOne(block[0], w, script[0], loose);
      if first.Some? && first.value.how == Normal {
        BlockTouches(block[1..], first.value.world, script[1..], loose);
      }
    }
  }

  lemma {:induction false} OneTouches(st: Stmt, w: World, c: Choice, loose: bool)
    ensures var e := PlayOne(st, w, c, loose); e.Some? ==> Untouched(AssignsOne(st), w.env, e.value.world.env)
    ensures var e := PlayOne(st, w, c, loose); InertOne(st) && e.Some? ==> e.value.world.path == w.path
    decreases st, 1, 0
  {
    hide Play, Yields, PlayLoop, PlayRepeat, Assigns;
    match c
    case Branch(o, taken, sub) =>
      if st.If? {
        BlockTouches(if taken then st.body else st.orelse, w, sub, false);
      }
    case Loop(o, items, rounds, last) =>
      if st.For? {
        LoopTouches(st, w, items, rounds, last);
      }
    case Repeat(rounds, how) =>
      if st.Opaque? {
        RepeatTouches(st, w, rounds, how);
      }
    case _ =>
  }

  lemma {:induction false} LoopTouches(st: Stmt, w: World, items: seq<Obj>, rounds: seq<Round>, last: seq<Choice>)
    requires st.For?
    ensures var e := PlayLoop(st, w, items, rounds, last);
      e.Some? ==> Untouched(AssignsOne(st), w.env, e.value.world.env)
    ensures var e := PlayLoop(st, w, items, rounds, last); InertOne(st) && e.Some? ==> e.value.world.path == w.path
    decreases st, 0, |items|
  {
    hide Play, Assigns;
    if items == [] {
      BlockTouches(st.orelse, w, last, false);
    } else if rounds != [] {
      var w1 := w.(env := w.env[st.target := items[0]]);
      BlockTouches(st.body, w1, rounds[0].script, false);
      var one := Play(st.body, w1, rounds[0].script, false);
      if one.Some? {
        LoopTouches(st, one.value.world, items[1..], rounds[1..], last);
      }
    }
  }

  lemma {:induction false} RepeatTouches(st: Stmt, w: World, rounds: seq<Round>, how: How)
    requires st.Opaque?
    ensures var e := PlayRepeat(st, w, rounds, how);
      e.Some? ==> Untouched(Assigns(st.body), w.env, e.value.world.env)
    ensures var e := PlayRepeat(st, w, rounds, how); Inert(st.body) && e.Some? ==> e.value.world.path == w.path
    decreases st, 0, |rounds|
  {
    hide Play, Assigns;
    if rounds != [] {
      BlockTouches(st.body, w, rounds[0].script, true);
      var one := Play(st.body, w, rounds[0].script, true);
      if one.Some? {
        RepeatTouches(st, one.value.world, rounds[1..], how);
      }
    }
  }

  /** Without `break` and its like, no run ends by one. */
  lemma {:induction false} NoJump(block: seq<Stmt>, w: World, script: seq<Choice>, loose: bool)
    requires !Abrupt(block)
    ensures var e := Play(block, w, script, loose); e.Some? ==> !e.value.how.Jumped?
    decreases block, 0, 0
  {
    if block != [] && script != [] {
      NoJumpOne(block[0], w, script[0], loose);
      var first := PlayOne(block[0], w, script[0], loose);
      if first.Some? && first.value.how == Normal {
        NoJump(block[1..], first.value.world, script[1..], loose);
      }
    }
  }

  lemma {:induction false} NoJumpOne(st: Stmt, w: World, c: Choice, loose: bool)
    requires !AbruptOne(st)
    ensures var e := PlayOne(st, w, c, loose); e.Some? ==> !e.value.how.Jumped?
    decreases st, 1, 0
  {
    hide Play, Yields, PlayLoop, PlayRepeat;
    match c
    case Branch(o, taken, sub) =>
      if st.If? {
        NoJump(if taken then st.body else st.orelse, w, sub, false);
      }
    case Loop(o, items, rounds, last) =>
      if st.For? {
        NoJumpLoop(st, w, items, rounds, last);
      }
    case Repeat(rounds, how) =>
      if st.Opaque? && !how.Jumped? {
        NoJumpRepeat(st, w, rounds, how);
      }
    case _ =>
  }

  lemma {:induction false} NoJumpLoop(st: Stmt, w: World, items: seq<Obj>, rounds: seq<Round>, last: seq<Choice>)
    requires st.For? && !Abrupt(st.body) && !Abrupt(st.orelse)
    ensures var e := PlayLoop(st, w, items, rounds, last); e.Some? ==> !e.value.how.Jumped?
    decreases st, 0, |items|
  {
    hide Play;
    if items == [] {
      NoJump(st.orelse, w, last, false);
    } else if rounds != [] {
      var one := Play(st.body, w.(env := w.env[st.target := items[0]]), rounds[0].script, false);
      if one.Some? {
        NoJumpLoop(st, one.value.world, items[1..], rounds[1..], last);
      }
    }
  }

  lemma {:induction false} NoJumpRepeat(st: Stmt, w: World, rounds: seq<Round>, how: How)
    requires st.Opaque? && !how.Jumped?
    ensures var e := PlayRepeat(st, w, rounds, how); e.Some? ==> !e.value.how.Jumped?
    decreases st, 0, |rounds|
  {
    hide Play;
    if rounds != [] {
      var one := Play(st.body, w, rounds[0].script, true);
      if one.Some? {
        NoJumpRepeat(st, one.value.world, rounds[1..], how);
      }
    }
  }

  // ---------- What a state says of a run ----------

  ghost predicate Covers(v: Value, o: Obj) {
    match v
    case Unknown => true
    case KnownFlag(b) => o == Flag(b)
    case KnownNumber(n) => o == Number(n)
    case KnownRoot(r) => o == Root(r)
    case KnownList(vs) => o.List? && |o.items| == |vs| && forall i :: 0 <= i < |vs| ==> Covers(vs[i], o.items[i])
  }

  /** What is known and not in doubt is so. */
  ghost predicate Describes(values: map<string, Value>, doubt: set<string>, env: map<string, Obj>) {
    forall x :: x in Certain(values, doubt) ==> x in env && Covers(values[x], env[x])
  }

  /** ... and the definite part of the path begins the real one. */
  ghost predicate Fits(s: State, doubt: set<string>, w: World) {
    Describes(s.values, doubt, w.env) && s.prefix <= w.path
  }

  lemma {:induction false} EvalCovers(e: Expr, values: map<string, Value>, doubt: set<string>, env: map<string, Obj>,
                                      o: Obj, budget: int)
    requires Describes(values, doubt, env) && Names(e) !! doubt && Yields(e, env, o)
    ensures Covers(Eval(e, values, budget).0, o)
    decreases e, 0
  {
    if e.Name? {
      assert e.name in Names(e);
    }
    if e.ListLit? && budget > 0 && |e.items| <= 32 {
      EvalAllCovers(e, |e.items|, values, doubt, env, o, budget - 1);
    }
  }

  lemma {:induction false} EvalAllCovers(e: Expr, n: nat, values: map<string, Value>, doubt: set<string>,
                                         env: map<string, Obj>, o: Obj, budget: int)
    requires e.ListLit? && n <= |e.items| && Describes(values, doubt, env) && Names(e) !! doubt && Yields(e, env, o)
    ensures |EvalAll(e, n, values, budget).0| == n <= |o.items|
    ensures forall i :: 0 <= i < n ==> Covers(EvalAll(e, n, values, budget).0[i], o.items[i])
    decreases e, 0, n
  {
    if n > 0 {
      EvalAllCovers(e, n - 1, values, doubt, env, o, budget);
      assert Names(e.items[n - 1]) <= Names(e);
      EvalCovers(e.items[n - 1], values, doubt, env, o.items[n - 1], EvalAll(e, n - 1, values, budget).1);
    }
  }

  lemma DescribesMore(values: map<string, Value>, a: set<string>, b: set<string>, env: map<string, Obj>)
    requires Describes(values, a, env) && a <= b
    ensures Describes(values, b, env)
  {
    hide Covers;
  }

  /** Setting variables that are not certain leaves the description true. */
  lemma DescribesUntouched(values: map<string, Value>, doubt: set<string>, targets: set<string>,
                           before: map<string, Obj>, after: map<string, Obj>)
    requires Describes(values, doubt, before) && Untouched(targets, before, after)
    requires Certain(values, doubt) !! targets
    ensures Describes(values, doubt, after)
  {
    hide Covers;
  }

  /** What code would have said of the variables it sets is put in doubt. */
  lemma DescribesSkipped(s: State, r: State, doubt: set<string>, targets: set<string>, env: map<string, Obj>)
    requires Kept(s, r, targets) && Describes(s.values, doubt, env)
    ensures Describes(r.values, doubt + targets, env)
  {
    hide Covers;
    forall x | x in Certain(r.values, doubt + targets) ensures x in env && Covers(r.values[x], env[x]) {
      assert Get(r.values, x) == Get(s.values, x);
      assert x in Certain(s.values, doubt);
    }
  }

  /** The join describes whatever either side describes. */
  lemma JoinFits(out: State, a: State, b: State, doubt: set<string>, w: World)
    requires out.values.Keys <= a.values.Keys + b.values.Keys
    requires Fits(a, doubt, w) || Fits(b, doubt, w)
    ensures Fits(Joined(out, a, b), doubt, w)
  {
    hide Covers;
    var j := Joined(out, a, b);
    forall x | x in Certain(j.values, doubt) ensures x in w.env && Covers(j.values[x], w.env[x]) {
      JoinedGets(out, a, b, x);
      assert Get(j.values, x) == Get(a.values, x) == Get(b.values, x);
      assert x in Certain(a.values, doubt) && x in Certain(b.values, doubt);
    }
  }

  /** An insertion within the definite prefix is made at the same place of the path. */
  lemma InsertFits(s: State, tree: Tree, doubt: set<string>, place: Value, v: Value, w: World, at: Obj, o: Obj,
                   text: string, index: int)
    requires Fits(s, doubt, w) && Indexes(at, index) && TextOf(o, text)
    requires Decides(s, tree, place, v) ==> Covers(place, at) && Covers(v, o)
    ensures Fits(Inserted(s, tree, place, v), doubt, w.(path := ListInsert(w.path, index, text)))
  {
    hide Describes;
    if Decides(s, tree, place, v) {
      var p := s.prefix[..index] + [text] + s.prefix[index..];
      var q := w.path[..index] + [text] + w.path[index..];
      assert ListInsert(w.path, index, text) == q;
      assert s.prefix == w.path[..|s.prefix|];
      assert p == q[..|p|];
    }
  }

  lemma AppendFits(s: State, tree: Tree, doubt: set<string>, v: Value, w: World, text: string)
    requires Fits(s, doubt, w)
    ensures Fits(Appended(s, tree, v), doubt, w.(path := w.path + [text]))
  {
    hide Describes;
    assert w.path[..|s.prefix|] == (w.path + [text])[..|s.prefix|];
  }

  /** An assignment makes its variable certain, unless it copies doubt. */
  lemma AssignFits(s: State, doubt: set<string>, x: string, v: Value, w: World, o: Obj)
    requires Fits(s, doubt, w)
    ensures Fits(Assigned(s, x, v), doubt + {x}, w.(env := w.env[x := o]))
    ensures Covers(v, o) ==> Fits(Assigned(s, x, v), doubt - {x}, w.(env := w.env[x := o]))
  {
    hide Covers;
    var t, env := Assigned(s, x, v), w.env[x := o];
    forall y | y in Certain(t.values, doubt - {x}) && y != x ensures y in env && Covers(t.values[y], env[y]) {
      assert y in Certain(s.values, doubt);
    }
  }

  // ---------- Runs ----------

  /** What the guarded induction assumes of a state: statements are passed over in deferred
      code only, no root is certain there, and only the variables given are known. */
  ghost predicate Proper(s: State, known: set<string>, loose: bool) {
    (!s.deferred ==> !loose) && (s.deferred ==> s.prefix == []) && Within(s.values, known)
  }

  /** Only these variables are known. */
  ghost predicate Within(values: map<string, Value>, known: set<string>) {
    forall x :: !Get(values, x).Unknown? ==> x in known
  }

  /** What a run did: the path is as it was unless the analysis noted a change, and a
      normal end is described by the analysis. */
  ghost predicate Runs(r: State, doubt: set<string>, w: World, e: Option<End>) {
    e.Some? ==>
      && (!r.mutated ==> e.value.world.path == w.path)
      && (e.value.how == Normal ==> Fits(r, doubt, e.value.world))
  }

  lemma RunsMore(r: State, a: set<string>, b: set<string>, w: World, e: Option<End>)
    requires Runs(r, a, w, e) && a <= b
    ensures Runs(r, b, w, e)
  {
    hide Describes;
    if e.Some? && e.value.how == Normal {
      DescribesMore(r.values, a, b, e.value.world.env);
    }
  }

  lemma {:induction false} BlockRuns(block: seq<Stmt>, s: State, tree: Tree, budget: int, known: set<string>,
                                     doubt: set<string>, w: World, script: seq<Choice>, loose: bool)
    requires Proper(s, known, loose) && Fits(s, doubt, w) && Guard(block, s, tree, budget, known, doubt, loose)
    requires Block(block, s, tree, budget).1 >= 0
    ensures Runs(Block(block, s, tree, budget).0, Final(block, known, doubt, loose), w, Play(block, w, script, loose))
    decreases block, 0, 0
  {
    hide Fits, One, PlayOne, GuardOne, After, AssignsOne, LearnsOne, Within;
    if block != [] && script != [] {
      var m := One(block[0], s, tree, budget - 1);
      OneKeeps(block[0], s, tree, budget - 1);
      BlockKeeps(block[1..], m.0, tree, m.1);
      OneLearns(block[0], s, tree, budget - 1, known);
      OneRuns(block[0], s, tree, budget - 1, known, doubt, w, script[0], loose);
      var first := PlayOne(block[0], w, script[0], loose);
      if first.Some? && first.value.how == Normal {
        BlockRuns(block[1..], m.0, tree, m.1, LearnsOne(block[0], known), After(block[0], known, doubt, loose),
                  first.value.world, script[1..], loose);
      }
    }
  }

  /** A statement, which may be passed over where a block is loose. */
  lemma {:induction false} OneRuns(st: Stmt, s: State, tree: Tree, budget: int, known: set<string>,
                                   doubt: set<string>, w: World, c: Choice, loose: bool)
    requires Proper(s, known, loose) && Fits(s, doubt, w) && GuardOne(st, s, tree, budget, known, doubt)
    requires One(st, s, tree, budget).1 >= 0
    ensures Runs(One(st, s, tree, budget).0, After(st, known, doubt, loose), w, PlayOne(st, w, c, loose))
    decreases st, 2, 0
  {
    hide Within;
    var r := One(st, s, tree, budget).0;
    if c.Skip? {
      hide One, After;
      if loose {
        OneKeeps(st, s, tree, budget);
        DescribesSkipped(s, r, doubt, AssignsOne(st), w.env);
        AfterLoose(st, known, doubt);
      }
    } else {
      hide One, After, PlayOne, GuardOne, Fits;
      StrictRuns(st, s, tree, budget, known, doubt, w, c);
      AfterLoose(st, known, doubt);
      AfterBound(st, known, doubt, false);
      PlayedStrictly(st, w, c, loose);
      RunsMore(r, After(st, known, doubt, false), After(st, known, doubt, loose), w, PlayOne(st, w, c, loose));
    }
  }

  lemma AfterLoose(st: Stmt, known: set<string>, doubt: set<string>)
    ensures After(st, known, doubt, true) == doubt + AssignsOne(st)
  {}

  lemma PlayedStrictly(st: Stmt, w: World, c: Choice, loose: bool)
    requires !c.Skip?
    ensures PlayOne(st, w, c, loose) == PlayOne(st, w, c, false)
  {}

  lemma {:induction false} StrictRuns(st: Stmt, s: State, tree: Tree, budget: int, known: set<string>,
                                      doubt: set<string>, w: World, c: Choice)
    requires Proper(s, known, false) && Fits(s, doubt, w) && GuardOne(st, s, tree, budget, known, doubt)
    requires One(st, s, tree, budget).1 >= 0 && !c.Skip?
    ensures Runs(One(st, s, tree, budget).0, After(st, known, doubt, false), w, PlayOne(st, w, c, false))
    decreases st, 1, 0
  {
    hide Fits, Play, PlayLoop, PlayRepeat, Block, Unrolled, Yields, Eval, Inserted, Appended, Assigned, After, One,
      GuardOne, Rejoined, Joined, Branched, Guard, GuardUnrolled, GuardLoop, Runs, Proper, Takes;
    match c
    case Raise =>
      assert Runs(One(st, s, tree, budget).0, After(st, known, doubt, false), w, Some(End(w, Thrown))) by {
        ThrownRuns(w);
      }
    case Branch(o, taken, sub) =>
      if st.If? && Yields(st.condition, w.env, o) && Takes(o, taken) {
        IfRuns(st, s, tree, budget, known, doubt, w, o, taken, sub);
      } else {
        NoRun(One(st, s, tree, budget).0, After(st, known, doubt, false), w);
      }
    case Loop(o, items, rounds, last) =>
      if st.For? && Yields(st.sequence, w.env, o) && (o.List? ==> items == o.items) {
        ForRuns(st, s, tree, budget, known, doubt, w, o, items, rounds, last);
      } else {
        NoRun(One(st, s, tree, budget).0, After(st, known, doubt, false), w);
      }
    case Repeat(rounds, how) =>
      if st.Opaque? && (how.Jumped? ==> Abrupt(st.body)) {
        OpaqueRuns(st, s, tree, budget, known, doubt, w, rounds, how);
      } else {
        NoRun(One(st, s, tree, budget).0, After(st, known, doubt, false), w);
      }
    case _ =>
      SimpleRuns(st, s, tree, budget, known, doubt, w, c);
  }

  lemma NoRun(r: State, doubt: set<string>, w: World)
    ensures Runs(r, doubt, w, None)
  {}

  lemma ThrownRuns(w: World)
    ensures forall r, doubt :: Runs(r, doubt, w, Some(End(w, Thrown)))
  {}

  /** A statement without a body. */
  lemma SimpleRuns(st: Stmt, s: State, tree: Tree, budget: int, known: set<string>, doubt: set<string>, w: World,
                   c: Choice)
    requires Fits(s, doubt, w) && GuardOne(st, s, tree, budget, known, doubt)
    requires One(st, s, tree, budget).1 >= 0
    requires c.Value? || c.InsertAt? || c.AppendAt? || c.NewPath?
    ensures Runs(One(st, s, tree, budget).0, After(st, known, doubt, false), w, PlayOne(st, w, c, false))
  {
    hide Yields, Eval, Inserted, Appended, Assigned, Describes, ListInsert, Block, Unrolled, Names, AssignsOne,
      Indexes, Guard, GuardLoop, GuardUnrolled;
    if c.InsertAt? && st.Insert? && PlayOne(st, w, c, false).Some? {
      InsertRuns(st, s, tree, budget, known, doubt, w, c);
    } else if c.AppendAt? && st.Append? && Yields(st.root, w.env, c.obj) {
      var v := Eval(st.root, s.values, budget - 1).0;
      SimpleMutates(s, tree, Unknown, v);
      AppendFits(s, tree, doubt, v, w, c.text);
    } else if st.Assign? && c.Value? && Yields(st.value, w.env, c.obj) {
      var v := Eval(st.value, s.values, budget).0;
      AssignFits(s, doubt, st.target, v, w, c.obj);
      if Names(st.value) !! doubt {
        EvalCovers(st.value, s.values, doubt, w.env, c.obj, budget);
      }
      AssignMutates(s, st.target, v);
    }
  }

  lemma InsertRuns(st: Stmt, s: State, tree: Tree, budget: int, known: set<string>, doubt: set<string>, w: World,
                   c: Choice)
    requires st.Insert? && c.InsertAt? && Fits(s, doubt, w) && GuardOne(st, s, tree, budget, known, doubt)
    requires One(st, s, tree, budget).1 >= 0
    ensures Runs(One(st, s, tree, budget).0, doubt, w, PlayOne(st, w, c, false))
  {
    hide Yields, Eval, Inserted, Describes, ListInsert, Names, Indexes, Guard, Decides;
    var (n, left) := Eval(st.place, s.values, budget - 1);
    var v := Eval(st.root, s.values, left).0;
    SimpleMutates(s, tree, n, v);
    if PlayOne(st, w, c, false).Some? {
      if Decides(s, tree, n, v) {
        EvalCovers(st.place, s.values, doubt, w.env, c.place, budget - 1);
        EvalCovers(st.root, s.values, doubt, w.env, c.obj, left);
      }
      InsertFits(s, tree, doubt, n, v, w, c.place, c.obj, c.text, c.index);
    }
  }

  /** A harmless statement may be decided by anything. */
  lemma HarmlessRuns(st: Stmt, s: State, tree: Tree, budget: int, doubt: set<string>, w: World, c: Choice)
    requires Fits(s, doubt, w) && Harmless(st, One(st, s, tree, budget).0)
    ensures Runs(One(st, s, tree, budget).0, doubt + AssignsOne(st), w, PlayOne(st, w, c, false))
  {
    hide One, PlayOne, Assigns, AssignsOne, Covers, Inert;
    var r, e := One(st, s, tree, budget).0, PlayOne(st, w, c, false);
    OneKeeps(st, s, tree, budget);
    OneTouches(st, w, c, false);
    if InertOne(st) {
      InertKeepsOne(st, s, tree, budget);
    }
    if e.Some? {
      DescribesSkipped(s, r, doubt, AssignsOne(st), w.env);
      DescribesUntouched(r.values, doubt + AssignsOne(st), AssignsOne(st), w.env, e.value.world.env);
    }
  }

  lemma SimpleMutates(s: State, tree: Tree, place: Value, v: Value)
    ensures Inserted(s, tree, place, v).mutated && Appended(s, tree, v).mutated
  {}

  lemma AssignMutates(s: State, x: string, v: Value)
    ensures Assigned(s, x, v).mutated == s.mutated
  {}

  lemma {:induction false} IfRuns(st: Stmt, s: State, tree: Tree, budget: int, known: set<string>, doubt: set<string>,
                                  w: World, o: Obj, taken: bool, sub: seq<Choice>)
    requires Proper(s, known, false) && Fits(s, doubt, w) && GuardOne(st, s, tree, budget, known, doubt) && st.If?
    requires Yields(st.condition, w.env, o) && Takes(o, taken) && One(st, s, tree, budget).1 >= 0
    ensures Runs(One(st, s, tree, budget).0, After(st, known, doubt, false), w,
                 Play(if taken then st.body else st.orelse, w, sub, false))
    decreases st, 0, 0
  {
    hide Describes, Play, Block, Yields, Eval, Common, Runs, Final, Guard, JoinedValues, Names, Within;
    var (v, left) := Eval(st.condition, s.values, budget);
    var branch := if taken then st.body else st.orelse;
    var e := Play(branch, w, sub, false);
    var doubted := Final(branch, known, doubt, false);
    if Vague(st.condition, known) {
      VagueIsUnknown(st.condition, s.values, known, budget);
    }
    AfterBranch(st, known, doubt, taken);
    if v.KnownFlag? && !(Names(st.condition) !! doubt) {
      HarmlessRuns(st, s, tree, budget, doubt, w, Branch(o, taken, sub));
    } else if v.KnownFlag? {
      EvalCovers(st.condition, s.values, doubt, w.env, o, budget);
      BlockRuns(branch, s, tree, left, known, doubt, w, sub, false);
      RunsMore(Block(branch, s, tree, left).0, doubted, After(st, known, doubt, false), w, e);
    } else {
      var a := Block(st.body, s, tree, left);
      var b := Block(st.orelse, s, tree, a.1);
      BlockKeeps(st.body, s, tree, left);
      BlockKeeps(st.orelse, s, tree, a.1);
      var r := if taken then a else b;
      BlockRuns(branch, s, tree, if taken then left else a.1, known, doubt, w, sub, false);
      RunsMore(r.0, doubted, After(st, known, doubt, false), w, e);
      JoinRuns(s, a.0, b.0, taken, After(st, known, doubt, false), w, e);
    }
  }

  lemma AfterBranch(st: Stmt, known: set<string>, doubt: set<string>, taken: bool)
    requires st.If?
    ensures Final(if taken then st.body else st.orelse, known, doubt, false) <= After(st, known, doubt, false)
    ensures !Vague(st.condition, known) && !(Names(st.condition) !! doubt) ==>
              After(st, known, doubt, false) == doubt + AssignsOne(st)
  {
    FinalBound(st.body, known, doubt, false);
    FinalBound(st.orelse, known, doubt, false);
  }

  lemma JoinRuns(s: State, a: State, b: State, first: bool, doubt: set<string>, w: World, e: Option<End>)
    requires s.values.Keys <= a.values.Keys && Runs(if first then a else b, doubt, w, e)
    ensures Runs(Joined(s, a, b), doubt, w, e)
  {
    hide Describes, JoinedValues, Common;
    if e.Some? && e.value.how == Normal {
      JoinFits(s, a, b, doubt, e.value.world);
    }
  }

  // ---------- Regions that may run any number of times ----------

  /** What holds between the rounds of deferred code, and after it however it ends. */
  ghost predicate Steady(values: map<string, Value>, doubt: set<string>, mutated: bool, w: World, e: Option<End>) {
    e.Some? ==> Describes(values, doubt, e.value.world.env) && (!mutated ==> e.value.world.path == w.path)
  }

  lemma WithinCertain(values: map<string, Value>, known: set<string>, doubt: set<string>)
    requires Within(values, known)
    ensures Certain(values, doubt) <= known - doubt
  {
    forall x | x in Certain(values, doubt) ensures x in known {
      assert !Get(values, x).Unknown?;
    }
  }

  /** What deferred code sets is not certain in it. */
  lemma DoubtedApart(values: map<string, Value>, known: set<string>, doubt: set<string>, targets: set<string>)
    requires Within(values, known)
    ensures Certain(values, Doubted(known, doubt, targets)) !! targets && doubt <= Doubted(known, doubt, targets)
  {
    WithinCertain(values, known, Doubted(known, doubt, targets));
  }

  lemma {:induction false} OpaqueRuns(st: Stmt, s: State, tree: Tree, budget: int, known: set<string>,
                                      doubt: set<string>, w: World, rounds: seq<Round>, how: How)
    requires Proper(s, known, false) && Fits(s, doubt, w) && GuardOne(st, s, tree, budget, known, doubt) && st.Opaque?
    requires One(st, s, tree, budget).1 >= 0
    ensures Runs(One(st, s, tree, budget).0, After(st, known, doubt, false), w, PlayRepeat(st, w, rounds, how))
    decreases st, 0, |rounds| + 1
  {
    hide Describes, PlayRepeat, Block, Guard, Rejoined, Assigns, Certain, Within, Doubted;
    var a := Block(st.body, Branched(s), tree, budget);
    var more := Doubted(known, doubt, Assigns(st.body));
    BlockKeeps(st.body, Branched(s), tree, budget);
    DoubtedApart(s.values, known, doubt, Assigns(st.body));
    DescribesMore(s.values, doubt, more, w.env);
    RepeatRuns(st, Branched(s), tree, budget, known, doubt, w, rounds, how);
    RejoinMutated(s, a.0);
    RejoinRuns(s, s.values, a.0, more, Assigns(st.body), w, PlayRepeat(st, w, rounds, how));
  }

  /** Any number of rounds of a deferred body, each of which may end early. */
  lemma {:induction false} RepeatRuns(st: Stmt, s: State, tree: Tree, budget: int, known: set<string>,
                                      doubt: set<string>, w: World, rounds: seq<Round>, how: How)
    requires st.Opaque? && s.deferred && s.prefix == [] && Within(s.values, known)
    requires var more := Doubted(known, doubt, Assigns(st.body));
      Describes(s.values, more, w.env) && Guard(st.body, s, tree, budget, known, more, true)
    requires Block(st.body, s, tree, budget).1 >= 0
    ensures Steady(s.values, Doubted(known, doubt, Assigns(st.body)), Block(st.body, s, tree, budget).0.mutated, w,
                   PlayRepeat(st, w, rounds, how))
    decreases st, 0, |rounds|
  {
    hide Describes, Block, Play, Guard, Assigns, Certain, Untouched, Within, Doubted;
    var more := Doubted(known, doubt, Assigns(st.body));
    if rounds != [] {
      BlockRuns(st.body, s, tree, budget, known, more, w, rounds[0].script, true);
      BlockTouches(st.body, w, rounds[0].script, true);
      var one := Play(st.body, w, rounds[0].script, true);
      if one.Some? {
        DoubtedApart(s.values, known, doubt, Assigns(st.body));
        DescribesUntouched(s.values, more, Assigns(st.body), w.env, one.value.world.env);
        RepeatRuns(st, s, tree, budget, known, doubt, one.value.world, rounds[1..], how);
      }
    }
  }

  /** After deferred code, what was certain before it still is. */
  lemma RejoinRuns(s: State, values: map<string, Value>, a: State, doubt: set<string>, targets: set<string>, w: World,
                   e: Option<End>)
    requires s.prefix <= w.path && Steady(values, doubt, a.mutated, w, e) && a.prefix == []
    requires Certain(s.values, doubt) !! targets && s.values.Keys <= a.values.Keys
    requires forall x :: x !in targets ==> Get(a.values, x) == Get(values, x)
    requires !Rejoined(s, a).mutated ==> !a.mutated
    ensures Runs(Rejoined(s, a), doubt, w, e)
  {
    hide Covers, Common;
    if e.Some? && e.value.how == Normal {
      var j, env := Rejoined(s, a), e.value.world.env;
      var b := if a.mutated then a else a.(prefix := s.prefix, possible := s.possible);
      forall x | x in Certain(j.values, doubt) ensures x in env && Covers(j.values[x], env[x]) {
        JoinedGets(s, s, b, x);
        assert x in Certain(s.values, doubt);
        assert Get(a.values, x) == Get(values, x);
        assert x in Certain(values, doubt);
      }
      RejoinPrefix(s, a);
    }
  }

  lemma RejoinPrefix(s: State, a: State)
    requires a.prefix == []
    ensures Rejoined(s, a).prefix == (if a.mutated then [] else s.prefix)
  {
    hide JoinedValues;
  }

  lemma RejoinMutated(s: State, a: State)
    ensures Rejoined(s, a).mutated == (s.mutated || a.mutated)
  {}

  lemma {:induction false} ForRuns(st: Stmt, s: State, tree: Tree, budget: int, known: set<string>,
                                   doubt: set<string>, w: World, o: Obj, items: seq<Obj>, rounds: seq<Round>,
                                   last: seq<Choice>)
    requires Proper(s, known, false) && Fits(s, doubt, w) && GuardOne(st, s, tree, budget, known, doubt) && st.For?
    requires Yields(st.sequence, w.env, o) && (o.List? ==> items == o.items) && One(st, s, tree, budget).1 >= 0
    ensures Runs(One(st, s, tree, budget).0, After(st, known, doubt, false), w, PlayLoop(st, w, items, rounds, last))
    decreases st, 0, 2 * |items| + 2
  {
    hide Describes, PlayLoop, Block, Yields, Unrolled, Eval, Guard, GuardUnrolled, GuardLoop, Rejoined, Assigns,
      Certain, Runs, After, Names, AssignsOne, Within, Doubted, Spread, Closed;
    var (v, left) := Eval(st.sequence, s.values, budget);
    var e := PlayLoop(st, w, items, rounds, last);
    if v.KnownList? && !Abrupt(st.body) && !(Names(st.sequence) !! doubt) {
      AfterUnrolled(st, s.values, known, doubt, budget);
      HarmlessRuns(st, s, tree, budget, doubt, w, Loop(o, items, rounds, last));
      RunsMore(One(st, s, tree, budget).0, doubt + AssignsOne(st), After(st, known, doubt, false), w, e);
    } else if v.KnownList? && !Abrupt(st.body) {
      var all, spread := known + AssignsOne(st), Spread(st, known, doubt);
      AfterUnrolled(st, s.values, known, doubt, budget);
      SpreadCloses(st, known, doubt);
      EvalCovers(st.sequence, s.values, doubt, w.env, o, budget);
      DescribesMore(s.values, doubt, spread, w.env);
      WithinMore(s.values, known, all);
      UnrolledRuns(st, v.items, s, tree, left, all, spread, w, items, rounds, last);
      RunsMore(One(st, s, tree, budget).0, spread, After(st, known, doubt, false), w, e);
    } else {
      var targets := Assigns(st.body) + Assigns(st.orelse);
      var more := Doubted(known, doubt, targets);
      var t := Assigned(s, st.target, Unknown);
      var a := Block(st.body, Branched(t), tree, left);
      var b := Block(st.orelse, a.0, tree, a.1);
      LoopKeeps(st, Branched(t), tree, left);
      BlockKeeps(st.orelse, a.0, tree, a.1);
      KeptTransitive(Branched(t), a.0, b.0, Assigns(st.body), Assigns(st.orelse));
      DoubtedApart(s.values, known, doubt, targets);
      DescribesMore(s.values, doubt, more, w.env);
      ForgetTarget(s, st.target, known, more, w.env);
      LoopRuns(st, Branched(t), tree, left, known, doubt, w, items, rounds, last);
      RejoinMutated(s, b.0);
      RejoinRuns(s, t.values, b.0, more, targets, w, e);
      AfterLoop(st, s.values, known, doubt, budget);
      RunsMore(Rejoined(s, b.0), more, After(st, known, doubt, false), w, e);
    }
  }

  lemma AfterUnrolled(st: Stmt, values: map<string, Value>, known: set<string>, doubt: set<string>, budget: int)
    requires st.For? && Within(values, known) && Eval(st.sequence, values, budget).0.KnownList? && !Abrupt(st.body)
    ensures (if Names(st.sequence) !! doubt then Spread(st, known, doubt) else doubt + AssignsOne(st))
         <= After(st, known, doubt, false)
  {
    hide Within, Spread, Doubted;
    if Vague(st.sequence, known) {
      VagueIsUnknown(st.sequence, values, known, budget);
    }
  }

  lemma AfterLoop(st: Stmt, values: map<string, Value>, known: set<string>, doubt: set<string>, budget: int)
    requires st.For? && Eval(st.sequence, values, budget).1 >= 0
    requires !Eval(st.sequence, values, budget).0.KnownList? || Abrupt(st.body)
    ensures Doubted(known, doubt, Assigns(st.body) + Assigns(st.orelse)) <= After(st, known, doubt, false)
  {
    hide Spread, Doubted;
    if Listed(st) {
      ListedIsKnown(st.sequence, values, budget);
    }
  }

  lemma ForgetTarget(s: State, x: string, known: set<string>, doubt: set<string>, env: map<string, Obj>)
    requires Describes(s.values, doubt, env) && Within(s.values, known)
    ensures var t := Assigned(s, x, Unknown);
      Describes(t.values, doubt, env) && Within(t.values, known) && x !in Certain(t.values, doubt)
    ensures s.values.Keys <= Assigned(s, x, Unknown).values.Keys
  {
    hide Covers;
    var t := Assigned(s, x, Unknown);
    forall y | y in Certain(t.values, doubt) ensures y in Certain(s.values, doubt) && t.values[y] == s.values[y] {}
    assert forall y :: !Get(t.values, y).Unknown? ==> !Get(s.values, y).Unknown?;
  }

  /** Any number of rounds of a loop body, and its `else`. */
  lemma {:induction false} LoopRuns(st: Stmt, s: State, tree: Tree, budget: int, known: set<string>,
                                    doubt: set<string>, w: World, items: seq<Obj>, rounds: seq<Round>,
                                    last: seq<Choice>)
    requires st.For? && s.deferred && s.prefix == [] && Within(s.values, known)
    requires var more := Doubted(known, doubt, Assigns(st.body) + Assigns(st.orelse));
      Describes(s.values, more, w.env) && GuardLoop(st, s, tree, budget, known, more)
      && st.target !in Certain(s.values, more)
    requires var a := Block(st.body, s, tree, budget); Block(st.orelse, a.0, tree, a.1).1 >= 0
    ensures var a := Block(st.body, s, tree, budget);
      Steady(s.values, Doubted(known, doubt, Assigns(st.body) + Assigns(st.orelse)),
             Block(st.orelse, a.0, tree, a.1).0.mutated, w, PlayLoop(st, w, items, rounds, last))
    decreases st, 0, |items|
  {
    hide Describes, Block, Play, Guard, Assigns, Certain, Untouched, Final, Within, Doubted;
    var a := Block(st.body, s, tree, budget);
    var more := Doubted(known, doubt, Assigns(st.body) + Assigns(st.orelse));
    BlockKeeps(st.body, s, tree, budget);
    BlockKeeps(st.orelse, a.0, tree, a.1);
    DoubtedApart(s.values, known, doubt, Assigns(st.body) + Assigns(st.orelse));
    if items == [] {
      DescribesSkipped(s, a.0, more, Assigns(st.body), w.env);
      WithinKept(s, a.0, known, Assigns(st.body));
      BlockRuns(st.orelse, a.0, tree, a.1, known + Assigns(st.body), more + Assigns(st.body), w, last, false);
      BlockTouches(st.orelse, w, last, false);
      var e := Play(st.orelse, w, last, false);
      if e.Some? {
        DescribesUntouched(s.values, more, Assigns(st.orelse), w.env, e.value.world.env);
      }
    } else if rounds != [] {
      var w1 := w.(env := w.env[st.target := items[0]]);
      BoundTarget(s.values, more, st.target, w.env, items[0]);
      BlockRuns(st.body, s, tree, budget, known, more, w1, rounds[0].script, false);
      BlockTouches(st.body, w1, rounds[0].script, false);
      var one := Play(st.body, w1, rounds[0].script, false);
      if one.Some? {
        DescribesUntouched(s.values, more, Assigns(st.body), w1.env, one.value.world.env);
        LoopRuns(st, s, tree, budget, known, doubt, one.value.world, items[1..], rounds[1..], last);
      }
    }
  }

  lemma BoundTarget(values: map<string, Value>, doubt: set<string>, x: string, env: map<string, Obj>, o: Obj)
    requires Describes(values, doubt, env) && x !in Certain(values, doubt)
    ensures Describes(values, doubt, env[x := o])
  {
    hide Covers, Certain;
  }

  lemma {:induction false} UnrolledRuns(st: Stmt, vs: seq<Value>, s: State, tree: Tree, budget: int,
                                        known: set<string>, doubt: set<string>, w: World, items: seq<Obj>,
                                        rounds: seq<Round>, last: seq<Choice>)
    requires st.For? && Proper(s, known, false) && Fits(s, doubt, w) && !Abrupt(st.body) && Closed(st, known, doubt)
    requires AssignsOne(st) <= known
    requires |items| == |vs| && forall i :: 0 <= i < |vs| ==> Covers(vs[i], items[i])
    requires GuardUnrolled(st, vs, s, tree, budget, known, doubt) && Unrolled(st, vs, s, tree, budget).1 >= 0
    ensures Runs(Unrolled(st, vs, s, tree, budget).0, doubt, w, PlayLoop(st, w, items, rounds, last))
    decreases st, 0, 2 * |items|
  {
    hide Fits, Block, Play, Covers, Assigned, Guard, Final, Abrupt, Runs, Within, Assigns;
    if items == [] {
      BlockRuns(st.orelse, s, tree, budget, known, doubt, w, last, false);
      RunsMore(Block(st.orelse, s, tree, budget).0, Final(st.orelse, known, doubt, false), doubt, w,
               Play(st.orelse, w, last, false));
      if rounds != [] {
        NoRun(Unrolled(st, vs, s, tree, budget).0, doubt, w);
      }
    } else if rounds == [] {
      NoRun(Unrolled(st, vs, s, tree, budget).0, doubt, w);
    } else {
      var t := Assigned(s, st.target, vs[0]);
      var m := Block(st.body, t, tree, budget);
      var w1 := w.(env := w.env[st.target := items[0]]);
      var one := Play(st.body, w1, rounds[0].script, false);
      UnrolledKeeps(st, vs[1..], m.0, tree, m.1);
      AssignFits(s, doubt, st.target, vs[0], w, items[0]);
      AssignProper(s, known, st.target, vs[0]);
      BlockRuns(st.body, t, tree, budget, known, doubt - {st.target}, w1, rounds[0].script, false);
      BlockKeeps(st.body, t, tree, budget);
      RunsMore(m.0, Final(st.body, known, doubt - {st.target}, false), doubt, w1, one);
      NoJump(st.body, w1, rounds[0].script, false);
      RoundRuns(st, vs, s, t, m, tree, budget, known, doubt, w, w1, items, rounds, last);
    }
  }

  lemma AssignProper(s: State, known: set<string>, x: string, v: Value)
    requires Proper(s, known, false) && x in known
    ensures Proper(Assigned(s, x, v), known, false) && Assigned(s, x, v).mutated == s.mutated
  {
    var t := Assigned(s, x, v);
    assert forall y :: !Get(t.values, y).Unknown? ==> y == x || !Get(s.values, y).Unknown?;
  }

  /** The round after the first one, and what both come to. */
  lemma {:induction false} RoundRuns(st: Stmt, vs: seq<Value>, s: State, t: State, m: (State, int), tree: Tree,
                                     budget: int, known: set<string>, doubt: set<string>, w: World, w1: World,
                                     items: seq<Obj>, rounds: seq<Round>, last: seq<Choice>)
    requires st.For? && Proper(t, known, false) && !Abrupt(st.body) && Closed(st, known, doubt)
    requires AssignsOne(st) <= known
    requires |items| == |vs| > 0 && rounds != [] && forall i :: 0 <= i < |vs| ==> Covers(vs[i], items[i])
    requires GuardUnrolled(st, vs, s, tree, budget, known, doubt) && Unrolled(st, vs, s, tree, budget).1 >= 0
    requires t == Assigned(s, st.target, vs[0]) && m == Block(st.body, t, tree, budget)
    requires w1 == w.(env := w.env[st.target := items[0]])
    requires var one := Play(st.body, w1, rounds[0].script, false);
      Runs(m.0, doubt, w1, one) && (one.Some? ==> !one.value.how.Jumped?)
    requires Kept(t, m.0, Assigns(st.body))
    ensures Runs(Unrolled(st, vs, s, tree, budget).0, doubt, w, PlayLoop(st, w, items, rounds, last))
    decreases st, 0, 2 * |items| - 1
  {
    hide Fits, Block, Play, Covers, Guard, Closed, Abrupt, Assigns, Within;
    var one := Play(st.body, w1, rounds[0].script, false);
    UnrolledKeeps(st, vs[1..], m.0, tree, m.1);
    if one.Some? && one.value.how == Normal {
      WithinKept(t, m.0, known, Assigns(st.body));
      assert known + Assigns(st.body) == known;
      UnrolledRuns(st, vs[1..], m.0, tree, m.1, known, doubt, one.value.world, items[1..], rounds[1..], last);
    }
  }

  // ---------- What an analysis learns ----------

  lemma WithinKept(s: State, r: State, known: set<string>, targets: set<string>)
    requires Within(s.values, known) && Kept(s, r, targets)
    ensures Within(r.values, known + targets)
  {}

  lemma VagueIsUnknown(e: Expr, values: map<string, Value>, known: set<string>, budget: int)
    requires Vague(e, known) && Within(values, known)
    ensures Eval(e, values, budget).0.Unknown?
  {}

  lemma {:induction false} BlockLearns(block: seq<Stmt>, s: State, tree: Tree, budget: int, known: set<string>)
    requires Within(s.values, known)
    ensures Within(Block(block, s, tree, budget).0.values, Learns(block, known)) || Block(block, s, tree, budget).1 < 0
    decreases block, 0, 0
  {
    hide Within, One, LearnsOne;
    if block != [] && budget > 0 {
      var m := One(block[0], s, tree, budget - 1);
      OneLearns(block[0], s, tree, budget - 1, known);
      if m.1 >= 0 {
        BlockLearns(block[1..], m.0, tree, m.1, LearnsOne(block[0], known));
      }
    }
  }

  lemma {:induction false} OneLearns(st: Stmt, s: State, tree: Tree, budget: int, known: set<string>)
    requires Within(s.values, known)
    ensures Within(One(st, s, tree, budget).0.values, LearnsOne(st, known)) || One(st, s, tree, budget).1 < 0
    decreases st, 1, 0
  {
    hide Within, Eval, Block, Unrolled, Rejoined, Joined, Branched, Inserted, Appended, Assigns, Learns, Vague;
    match st
    case Assign(x, e) =>
      AssignLearns(s, x, e, budget, known);
    case Insert(place, e) =>
      var (n, left) := Eval(place, s.values, budget - 1);
      SimpleValues(s, tree, n, Eval(e, s.values, left).0);
    case Append(e) =>
      SimpleValues(s, tree, Unknown, Eval(e, s.values, budget - 1).0);
    case If(e, body, orelse) =>
      var (v, left) := Eval(e, s.values, budget);
      if v.KnownFlag? {
        var branch := if v.flag then body else orelse;
        BlockLearns(branch, s, tree, left, known);
        if Block(branch, s, tree, left).1 >= 0 {
          WithinMore(Block(branch, s, tree, left).0.values, Learns(branch, known), LearnsOne(st, known));
        }
      } else {
        var a := Block(body, s, tree, left);
        var b := Block(orelse, s, tree, a.1);
        BlockLearns(body, s, tree, left, known);
        BlockKeeps(body, s, tree, left);
        if b.1 >= 0 {
          JoinWithin(s, a.0, b.0, Learns(body, known), LearnsOne(st, known));
        }
      }
    case For(x, e, body, orelse) =>
      var (v, left) := Eval(e, s.values, budget);
      if v.KnownList? && !Abrupt(body) {
        if Vague(e, known) {
          VagueIsUnknown(e, s.values, known, budget);
        }
        UnrolledKeeps(st, v.items, s, tree, left);
        WithinKept(s, One(st, s, tree, budget).0, known, AssignsOne(st));
      } else {
        var a := Block(body, Branched(Assigned(s, x, Unknown)), tree, left);
        RejoinWithin(s, Block(orelse, a.0, tree, a.1).0, known);
        WithinMore(One(st, s, tree, budget).0.values, known, LearnsOne(st, known));
      }
    case Opaque(body) =>
      RejoinWithin(s, Block(body, Branched(s), tree, budget).0, known);
    case _ =>
  }

  lemma SimpleValues(s: State, tree: Tree, place: Value, v: Value)
    ensures Inserted(s, tree, place, v).values == s.values && Appended(s, tree, v).values == s.values
  {}

  lemma AssignLearns(s: State, x: string, e: Expr, budget: int, known: set<string>)
    requires Within(s.values, known)
    ensures Within(Assigned(s, x, Eval(e, s.values, budget).0).values, LearnsOne(Assign(x, e), known))
  {
    hide Eval;
    var t := Assigned(s, x, Eval(e, s.values, budget).0);
    if Vague(e, known) {
      VagueIsUnknown(e, s.values, known, budget);
    }
    forall y | !Get(t.values, y).Unknown? ensures y in LearnsOne(Assign(x, e), known) {
      assert y != x ==> Get(t.values, y) == Get(s.values, y);
    }
  }

  lemma JoinWithin(s: State, a: State, b: State, known: set<string>, more: set<string>)
    requires Within(a.values, known) && known <= more && s.values.Keys <= a.values.Keys
    ensures Within(Joined(s, a, b).values, more)
  {
    forall x | !Get(Joined(s, a, b).values, x).Unknown? ensures x in more {
      JoinedGets(s, a, b, x);
      assert !Get(a.values, x).Unknown?;
    }
  }

  lemma RejoinWithin(s: State, a: State, known: set<string>)
    requires Within(s.values, known)
    ensures Within(Rejoined(s, a).values, known)
  {
    hide Within;
    JoinWithin(s, s, if a.mutated then a else a.(prefix := s.prefix, possible := s.possible), known, known);
  }

  lemma WithinMore(values: map<string, Value>, a: set<string>, b: set<string>)
    requires Within(values, a) && a <= b
    ensures Within(values, b)
  {}

  lemma ListedIsKnown(e: Expr, values: map<string, Value>, budget: int)
    requires e.ListLit? && |e.items| <= 32 && Eval(e, values, budget).1 >= 0
    ensures Eval(e, values, budget).0.KnownList?
  {}

  // ---------- The theorem ----------

  /** Nothing is known of the path before a module starts. */
  const START := State(map["__file__" := Unknown], [], [], false, false)

  /** Nothing in doubt decides anything in the analysis of a module. */
  ghost predicate Undoubted(program: seq<Stmt>, tree: Tree, budget: int) {
    Guard(program, START, tree, budget, {}, {}, false)
  }

  /** The definite prefix of such a module begins the path of every run that completes. */
  lemma PrefixIsDefinite(program: seq<Stmt>, tree: Tree, budget: int, w: World, script: seq<Choice>)
    requires Undoubted(program, tree, budget) && Block(program, START, tree, budget).1 >= 0
    ensures var e := Play(program, w, script, false);
      e.Some? && e.value.how == Normal ==> Block(program, START, tree, budget).0.prefix <= e.value.world.path
  {
    hide Play, Block, Guard;
    assert Fits(START, {}, w) && Within(START.values, {});
    BlockRuns(program, START, tree, budget, {}, {}, w, script, false);
  }

  // ---------- The condition on the program text ----------

  /** Read off the text of a block, given the variables that may be known before it: nothing
      in doubt decides an insertion outside deferred code, or a branch or loop in which
      the path may change. */
  ghost predicate Calm(block: seq<Stmt>, known: set<string>, doubt: set<string>, loose: bool, deferred: bool)
    decreases block, 0
  {
    block == []
    || (CalmOne(block[0], known, doubt, deferred)
        && Calm(block[1..], LearnsOne(block[0], known), After(block[0], known, doubt, loose), loose, deferred))
  }

  ghost predicate CalmOne(st: Stmt, known: set<string>, doubt: set<string>, deferred: bool)
    decreases st, 1
  {
    match st
    case Insert(place, e) =>
      deferred || Vague(place, known) || Vague(e, known) || Names(place) + Names(e) !! doubt
    case If(e, body, orelse) =>
      && (Vague(e, known) || Names(e) !! doubt || InertOne(st))
      && Calm(body, known, doubt, false, deferred) && Calm(orelse, known, doubt, false, deferred)
    case For(x, e, body, orelse) =>
      && (Listed(st) || CalmLoop(st, known, Doubted(known, doubt, Assigns(body) + Assigns(orelse))))
      && (Abrupt(body) || Vague(e, known)
          || (if Names(e) !! doubt then CalmUnrolled(st, known + AssignsOne(st), Spread(st, known, doubt), deferred)
              else InertOne(st)))
    case Opaque(body) => Calm(body, known, Doubted(known, doubt, Assigns(body)), true, true)
    case _ => true
  }

  ghost predicate CalmLoop(st: Stmt, known: set<string>, doubt: set<string>)
    requires st.For?
    decreases st, 0
  {
    Calm(st.body, known, doubt, false, true)
    && Calm(st.orelse, known + Assigns(st.body), doubt + Assigns(st.body), false, true)
  }

  ghost predicate CalmUnrolled(st: Stmt, known: set<string>, doubt: set<string>, deferred: bool)
    requires st.For?
    decreases st, 0
  {
    Calm(st.body, known, doubt - {st.target}, false, deferred) && Calm(st.orelse, known, doubt, false, deferred)
  }

  lemma {:induction false} CalmGuards(block: seq<Stmt>, s: State, tree: Tree, budget: int, known: set<string>,
                                      doubt: set<string>, loose: bool)
    requires Calm(block, known, doubt, loose, s.deferred) && Within(s.values, known)
    requires Block(block, s, tree, budget).1 >= 0
    ensures Guard(block, s, tree, budget, known, doubt, loose)
    decreases block, 0, 0
  {
    hide Within, CalmOne, GuardOne, One, LearnsOne, After, Kept;
    if block != [] && budget > 0 {
      var m := One(block[0], s, tree, budget - 1);
      CalmGuardsOne(block[0], s, tree, budget - 1, known, doubt);
      OneLearns(block[0], s, tree, budget - 1, known);
      OneKeeps(block[0], s, tree, budget - 1);
      KeptDeferred(s, m.0, AssignsOne(block[0]));
      CalmGuards(block[1..], m.0, tree, m.1, LearnsOne(block[0], known), After(block[0], known, doubt, loose), loose);
    }
  }

  lemma KeptDeferred(s: State, r: State, targets: set<string>)
    requires Kept(s, r, targets)
    ensures r.deferred == s.deferred
  {}

  lemma {:induction false} CalmGuardsOne(st: Stmt, s: State, tree: Tree, budget: int, known: set<string>,
                                         doubt: set<string>)
    requires CalmOne(st, known, doubt, s.deferred) && Within(s.values, known) && One(st, s, tree, budget).1 >= 0
    ensures GuardOne(st, s, tree, budget, known, doubt)
    decreases st, 1, 0
  {
    hide Within, Eval, Block, Guard, Calm, CalmLoop, CalmUnrolled, Unrolled, GuardUnrolled, GuardLoop, Rejoined, Joined,
         Assigns, AssignsOne, Names, Vague, Spread, Doubted;
    match st
    case Insert(place, e) =>
      var (n, left) := Eval(place, s.values, budget - 1);
      if Vague(place, known) {
        VagueIsUnknown(place, s.values, known, budget - 1);
      }
      if Vague(e, known) {
        VagueIsUnknown(e, s.values, known, left);
      }
    case If(e, body, orelse) =>
      var (v, left) := Eval(e, s.values, budget);
      if Vague(e, known) {
        VagueIsUnknown(e, s.values, known, budget);
      }
      if v.KnownFlag? {
        CalmGuards(if v.flag then body else orelse, s, tree, left, known, doubt, false);
      } else {
        CalmGuards(body, s, tree, left, known, doubt, false);
        CalmGuards(orelse, s, tree, Block(body, s, tree, left).1, known, doubt, false);
      }
    case For(x, e, body, orelse) =>
      var (v, left) := Eval(e, s.values, budget);
      if v.KnownList? && !Abrupt(body) {
        if Vague(e, known) {
          VagueIsUnknown(e, s.values, known, budget);
        }
        WithinMore(s.values, known, known + AssignsOne(st));
        if Names(e) !! doubt {
          CalmGuardsUnrolled(st, v.items, s, tree, left, known + AssignsOne(st), Spread(st, known, doubt));
        }
      } else {
        if Listed(st) {
          ListedIsKnown(e, s.values, budget);
        }
        CalmGuardsLoop(st, s, tree, left, known, Doubted(known, doubt, Assigns(body) + Assigns(orelse)));
      }
    case Opaque(body) =>
      CalmGuards(body, Branched(s), tree, budget, known, Doubted(known, doubt, Assigns(body)), true);
    case _ =>
  }

  lemma {:induction false} CalmGuardsLoop(st: Stmt, s: State, tree: Tree, budget: int, known: set<string>,
                                          doubt: set<string>)
    requires st.For? && Within(s.values, known) && CalmLoop(st, known, doubt)
    requires var t := Branched(Assigned(s, st.target, Unknown));
      var a := Block(st.body, t, tree, budget); Block(st.orelse, a.0, tree, a.1).1 >= 0
    ensures GuardLoop(st, Branched(Assigned(s, st.target, Unknown)), tree, budget, known, doubt)
    decreases st, 0, 0
  {
    hide Block, Guard, Calm, Assigns, Kept;
    var t := Branched(Assigned(s, st.target, Unknown));
    var a := Block(st.body, t, tree, budget);
    assert forall x :: !Get(t.values, x).Unknown? ==> !Get(s.values, x).Unknown?;
    CalmGuards(st.body, t, tree, budget, known, doubt, false);
    BlockKeeps(st.body, t, tree, budget);
    KeptDeferred(t, a.0, Assigns(st.body));
    WithinKept(t, a.0, known, Assigns(st.body));
    CalmGuards(st.orelse, a.0, tree, a.1, known + Assigns(st.body), doubt + Assigns(st.body), false);
  }

  lemma {:induction false} CalmGuardsUnrolled(st: Stmt, items: seq<Value>, s: State, tree: Tree, budget: int,
                                              all: set<string>, doubt: set<string>)
    requires st.For? && Within(s.values, all) && AssignsOne(st) <= all && CalmUnrolled(st, all, doubt, s.deferred)
    requires Unrolled(st, items, s, tree, budget).1 >= 0
    ensures GuardUnrolled(st, items, s, tree, budget, all, doubt)
    decreases st, 0, |items|
  {
    hide Block, Guard, Calm, Assigns, Kept;
    if items == [] {
      CalmGuards(st.orelse, s, tree, budget, all, doubt, false);
    } else {
      var t := Assigned(s, st.target, items[0]);
      var m := Block(st.body, t, tree, budget);
      assert forall x :: !Get(t.values, x).Unknown? ==> x == st.target || !Get(s.values, x).Unknown?;
      CalmGuards(st.body, t, tree, budget, all, doubt - {st.target}, false);
      BlockKeeps(st.body, t, tree, budget);
      KeptDeferred(t, m.0, Assigns(st.body));
      WithinKept(t, m.0, all, Assigns(st.body));
      assert all + Assigns(st.body) == all;
      CalmGuardsUnrolled(st, items[1..], m.0, tree, m.1, all, doubt);
    }
  }

  /** The same theorem from the program text alone. */
  lemma CalmPrefixIsDefinite(program: seq<Stmt>, tree: Tree, budget: int, w: World, script: seq<Choice>)
    requires Calm(program, {}, {}, false, false) && Block(program, START, tree, budget).1 >= 0
    ensures var e := Play(program, w, script, false);
      e.Some? && e.value.how == Normal ==> Block(program, START, tree, budget).0.prefix <= e.value.world.path
  {
    hide Play, Block, Calm, Guard;
    assert Within(START.values, {});
    CalmGuards(program, START, tree, budget, {}, {}, false);
    PrefixIsDefinite(program, tree, budget, w, script);
  }
}
