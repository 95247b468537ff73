/** The meaning of a module's statements for `sys.path`: which runs a program may have.
    Every choice the analysis cannot see is part of a script; playing a script decides
    whether it is a possible run and where it ends. */
module PythonPaths {
  import opened Basics

  /** Expressions as far as their value can matter: a flag, a number, a search-path string
      that names a repository directory, a list, a variable, and anything else. */
  datatype Expr =
    | FlagLit(flag: bool)
    | NumberLit(number: nat)
    | RootLit(root: string)
    | ListLit(items: seq<Expr>)
    | Name(name: string)
    | Other

  datatype Stmt =
    | Insert(place: Expr, root: Expr)
    | Append(root: Expr)
    | Mutate
    | Assign(target: string, value: Expr)
    | If(condition: Expr, body: seq<Stmt>, orelse: seq<Stmt>)
    | For(target: string, sequence: Expr, body: seq<Stmt>, orelse: seq<Stmt>)
    | Opaque(body: seq<Stmt>)
    | Jump
    | Leave
    | Touch(value: Expr)

  /** A Python object. */
  datatype Obj = Flag(flag: bool) | Number(number: nat) | Root(root: string) | List(items: seq<Obj>) | Thing(id: nat)

  datatype World = World(env: map<string, Obj>, path: seq<string>)

  /** How a run of a block ends: normally, by `break` or `continue`, or by an exception
      or a `return`. */
  datatype How = Normal | Jumped | Thrown

  datatype End = End(world: World, how: How)

  /** What happens at one statement. Any statement may raise before it has an effect; a
      statement of an opaque block may be passed over. */
  datatype Choice =
    | Raise
    | Skip
    | Value(obj: Obj)
    | InsertAt(place: Obj, obj: Obj, text: string, index: int)
    | AppendAt(obj: Obj, text: string)
    | NewPath(path: seq<string>)
    | Branch(obj: Obj, taken: bool, sub: seq<Choice>)
    | Loop(obj: Obj, items: seq<Obj>, rounds: seq<Round>, last: seq<Choice>)
    | Repeat(rounds: seq<Round>, how: How)

  /** One pass over a body, and what an early end of it does to the loop. */
  datatype Round = Round(script: seq<Choice>, after: After)

  datatype After = Next | Break | Propagate

  /** The objects an expression may yield. */
  ghost predicate Yields(e: Expr, env: map<string, Obj>, o: Obj) {
    match e
    case FlagLit(b) => o == Flag(b)
    case NumberLit(n) => o == Number(n)
    case RootLit(r) => o == Root(r)
    case ListLit(es) => o.List? && |o.items| == |es| && forall i :: 0 <= i < |es| ==> Yields(es[i], env, o.items[i])
    case Name(x) => x in env && o == env[x]
    case Other => true
  }

  /** Python's `list.insert`: a negative index counts from the end, and any index is
      clamped to the list. */
  function ListInsert(path: seq<string>, index: int, text: string): seq<string> {
    var at := if index < 0 then index + |path| else index;
    var at := if at < 0 then 0 else if at > |path| then |path| else at;
    path[..at] + [text] + path[at..]
  }

  /** The text an object contributes to the search path. */
  predicate TextOf(o: Obj, text: string) {
    o.Root? ==> text == o.root
  }

  /** How an object serves as an index; a flag counts as a number. */
  predicate Indexes(o: Obj, index: int) {
    match o
    case Flag(b) => index == if b then 1 else 0
    case Number(n) => index == n
    case Root(_) | List(_) => false
    case Thing(_) => true
  }

  /** Which branch an object takes. */
  predicate Takes(o: Obj, taken: bool) {
    match o
    case Flag(b) => taken == b
    case Number(n) => taken == (n != 0)
    case Root(_) => taken
    case List(items) => taken == (items != [])
    case Thing(_) => true
  }

  /** `pythonAbrupt`: whether a block holds a statement that leaves it early. */
  predicate Abrupt(block: seq<Stmt>)
  {
    block != [] && (AbruptOne(block[0]) || Abrupt(block[1..]))
  }

  predicate AbruptOne(st: Stmt)
  {
    match st
    case Jump => true
    case Leave => true
    case If(_, body, orelse) => Abrupt(body) || Abrupt(orelse)
    case For(_, _, body, orelse) => Abrupt(body) || Abrupt(orelse)
    case Opaque(body) => Abrupt(body)
    case _ => false
  }

  /** How many statements of a block leave it early, wherever they are nested. */
  function Exits(block: seq<Stmt>): nat {
    if block == [] then 0
    else
      (match block[0]
       case Jump => 1
       case Leave => 1
       case If(_, body, orelse) => Exits(body) + Exits(orelse)
       case For(_, _, body, orelse) => Exits(body) + Exits(orelse)
       case Opaque(body) => Exits(body)
       case _ => 0)
      + Exits(block[1..])
  }

  lemma {:induction false} AbruptMeans(block: seq<Stmt>)
    ensures Abrupt(block) <==> Exits(block) > 0
  {
    if block != [] {
      match block[0] {
        case If(_, body, orelse) =>
          AbruptMeans(body);
          AbruptMeans(orelse);
        case For(_, _, body, orelse) =>
          AbruptMeans(body);
          AbruptMeans(orelse);
        case Opaque(body) =>
          AbruptMeans(body);
        case _ =>
      }
      AbruptMeans(block[1..]);
    }
  }

  /** Plays a script against a block; `None` when it is not a possible run. */
  ghost function Play(block: seq<Stmt>, w: World, script: seq<Choice>, loose: bool): Option<End>
    decreases block, 0, 0
  {
    if block == [] then
      if script == [] then Some(End(w, Normal)) else None
    else if script == [] then None
    else
      var first := PlayOne(block[0], w, script[0], loose);
      if first.None? then None
      else if first.value.how != Normal then
        if script[1..] == [] then first else None
      else Play(block[1..], first.value.world, script[1..], loose)
  }

  ghost function PlayOne(st: Stmt, w: World, c: Choice, loose: bool): Option<End>
    decreases st, 1, 0
  {
    match c
    case Raise => Some(End(w, Thrown))
    case Skip => if loose then Some(End(w, Normal)) else None
    case Value(o) =>
      (match st
       case Assign(x, e) => if Yields(e, w.env, o) then Some(End(w.(env := w.env[x := o]), Normal)) else None
       case Touch(e) => if Yields(e, w.env, o) then Some(End(w, Normal)) else None
       case Jump => Some(End(w, Jumped))
       case Leave => Some(End(w, Thrown))
       case _ => None)
    case InsertAt(at, o, text, index) =>
      if st.Insert? && Yields(st.place, w.env, at) && Indexes(at, index) && Yields(st.root, w.env, o) && TextOf(o, text)
      then Some(End(w.(path := ListInsert(w.path, index, text)), Normal))
      else None
    case AppendAt(o, text) =>
      if st.Append? && Yields(st.root, w.env, o) && TextOf(o, text) then
        Some(End(w.(path := w.path + [text]), Normal))
      else None
    case NewPath(p) => if st.Mutate? then Some(End(w.(path := p), Normal)) else None
    case Branch(o, taken, sub) =>
      if st.If? && Yields(st.condition, w.env, o) && Takes(o, taken) then
        Play(if taken then st.body else st.orelse, w, sub, false)
      else None
    case Loop(o, items, rounds, last) =>
      if st.For? && Yields(st.sequence, w.env, o) && (o.List? ==> items == o.items) then
        PlayLoop(st, w, items, rounds, last)
      else None
    case Repeat(rounds, how) =>
      if st.Opaque? && (how.Jumped? ==> Abrupt(st.body)) then PlayRepeat(st, w, rounds, how) else None
  }

  /** The rounds of a `for` statement, then its `else` unless a round broke out. */
  ghost function PlayLoop(st: Stmt, w: World, items: seq<Obj>, rounds: seq<Round>, last: seq<Choice>): Option<End>
    requires st.For?
    decreases st, 0, |items|
  {
    if items == [] then
      if rounds == [] then Play(st.orelse, w, last, false) else None
    else if rounds == [] then None
    else
      var w1 := w.(env := w.env[st.target := items[0]]);
      var one := Play(st.body, w1, rounds[0].script, false);
      if one.None? then None
      else if one.value.how == Normal || (one.value.how == Jumped && rounds[0].after.Next?) then
        PlayLoop(st, one.value.world, items[1..], rounds[1..], last)
      else if one.value.how == Jumped && rounds[0].after.Break? then
        Some(End(one.value.world, Normal))
      else if rounds[0].after.Propagate? && one.value.how == Thrown then one
      else None
  }

  /** Any number of passes over an opaque body, each of which may end early, followed
      by whatever ends the block. */
  ghost function PlayRepeat(st: Stmt, w: World, rounds: seq<Round>, how: How): Option<End>
    requires st.Opaque?
    decreases st, 0, |rounds|
  {
    if rounds == [] then Some(End(w, how))
    else
      var one := Play(st.body, w, rounds[0].script, true);
      if one.None? then None else PlayRepeat(st, one.value.world, rounds[1..], how)
  }
}
