/** Reading the working files with a pool of workers that claim a shared byte budget
    before they read. Whatever the interleaving, the outcome is that of reading the
    files one after another. */
module WorkingCapture {
  import opened SnapshotDigest

  /** What the tree holds under one name; a file's bytes may turn out unreadable. */
  datatype Observation =
    | Missing
    | Broken
    | Link(target: string)
    | Odd(issue: string)
    | Large(summary: string)
    | Regular(size: nat, readable: bool, data: string)

  datatype Entry = Entry(name: string, seen: Observation)

  /** What a worker reports for one file. */
  datatype Result = Nothing | Failed | OverBudget | LinkTo(target: string) | IssueOf(issue: string)
                  | LargeFile(summary: string) | Data(bytes: string)

  datatype Outcome = Captured(snapshot: Snapshot) | Refused

  const EMPTY := Snapshot(map[], map[], map[], map[], [])

  /** The sizes the catalog reports are the lengths that are read. */
  predicate Unchanging(tree: seq<Entry>) {
    forall i :: 0 <= i < |tree| && tree[i].seen.Regular? && tree[i].seen.readable ==>
      |tree[i].seen.data| == tree[i].seen.size
  }

  // ---------- One after another ----------

  /** The result of an unhurried look at one file. */
  function Look(e: Entry): Result {
    match e.seen
    case Missing => Nothing
    case Broken => Failed
    case Link(target) => LinkTo(target)
    case Odd(issue) => IssueOf(issue)
    case Large(summary) => LargeFile(summary)
    case Regular(_, readable, data) => if readable then Data(data) else Failed
  }

  function Add(s: Snapshot, name: string, r: Result): Snapshot {
    match r
    case LinkTo(target) => s.(links := s.links[name := target])
    case LargeFile(summary) => s.(large := s.large[name := summary])
    case IssueOf(issue) => s.(issues := s.issues + [issue])
    case Data(bytes) => s.(files := s.files[name := bytes])
    case _ => s
  }

  /** Reading the files in order: stop at the first error, and before the file that
      would exceed the limit. */
  function Serial(tree: seq<Entry>, limit: nat, total: nat, s: Snapshot): Outcome
    decreases |tree|
  {
    if tree == [] then Captured(s)
    else
      var e := tree[0];
      var size := if e.seen.Regular? then e.seen.size else 0;
      if e.seen.Regular? && total + size > limit then Refused
      else if Look(e) == Failed then Refused
      else Serial(tree[1..], limit, total + size, Add(s, e.name, Look(e)))
  }

  // ---------- The workers ----------

  datatype Phase = Waiting | Started | Claimed | Done(result: Result)

  datatype Pool = Pool(phases: seq<Phase>, budget: nat)

  datatype Step = Start(file: nat) | Claim(file: nat) | Finish(file: nat)

  predicate Enabled(tree: seq<Entry>, p: Pool, step: Step) {
    step.file < |tree| && step.file < |p.phases| &&
    match step
    case Start(i) => p.phases[i].Waiting?
    case Claim(i) => p.phases[i].Started? && tree[i].seen.Regular?
    case Finish(i) => p.phases[i].Claimed? || (p.phases[i].Started? && !tree[i].seen.Regular?)
  }

  /** A worker's step; claiming adds to the shared budget and looks at the new sum. */
  function Apply(tree: seq<Entry>, limit: nat, p: Pool, step: Step): Pool
    requires Enabled(tree, p, step)
  {
    match step
    case Start(i) => p.(phases := p.phases[i := Started])
    case Claim(i) =>
      var budget := p.budget + tree[i].seen.size;
      Pool(p.phases[i := if budget > limit then Done(OverBudget) else Claimed], budget)
    case Finish(i) => p.(phases := p.phases[i := Done(Look(tree[i]))])
  }

  ghost predicate Runs(tree: seq<Entry>, limit: nat, p: Pool, steps: seq<Step>, q: Pool)
    decreases |steps|
  {
    if steps == [] then p == q
    else Enabled(tree, p, steps[0]) && Runs(tree, limit, Apply(tree, limit, p, steps[0]), steps[1..], q)
  }

  function Idle(n: nat): Pool {
    Pool(seq(n, _ => Waiting), 0)
  }

  predicate Finished(p: Pool) {
    forall i :: 0 <= i < |p.phases| ==> p.phases[i].Done?
  }

  // ---------- The merge ----------

  /** The merge loop in name order. An over-budget mark returns whatever the check of
      the final budget returns, which would be success if the budget were not exceeded. */
  function Merge(tree: seq<Entry>, phases: seq<Phase>, limit: nat, budget: nat, total: nat, s: Snapshot): Outcome
    requires |phases| == |tree| && forall i :: 0 <= i < |phases| ==> phases[i].Done?
    decreases |tree|
  {
    if tree == [] then Captured(s)
    else
      match phases[0].result
      case Failed => Refused
      case OverBudget => if budget > limit then Refused else Captured(s)
      case Data(bytes) =>
        if total + |bytes| > limit then Refused
        else Merge(tree[1..], phases[1..], limit, budget, total + |bytes|, Add(s, tree[0].name, phases[0].result))
      case _ => Merge(tree[1..], phases[1..], limit, budget, total, Add(s, tree[0].name, phases[0].result))
  }

  method MergeResults(tree: seq<Entry>, p: Pool, limit: nat) returns (outcome: Outcome)
    requires |p.phases| == |tree| && Finished(p)
    ensures outcome == Merge(tree, p.phases, limit, p.budget, 0, EMPTY)
  {
    var s, total: nat := EMPTY, 0;
    for i := 0 to |tree|
      invariant Merge(tree, p.phases, limit, p.budget, 0, EMPTY)
             == Merge(tree[i..], p.phases[i..], limit, p.budget, total, s)
    {
      var r := p.phases[i].result;
      assert tree[i..][1..] == tree[i + 1..] && p.phases[i..][1..] == p.phases[i + 1..];
      match r {
        case Failed => return Refused;
        case OverBudget => return if p.budget > limit then Refused else Captured(s);
        case Data(bytes) =>
          total := total + |bytes|;
          if total > limit {
            return Refused;
          }
        case _ =>
      }
      s := Add(s, tree[i].name, r);
    }
    outcome := Captured(s);
  }

  // ---------- Schedule independence ----------

  function Size(e: Entry): nat {
    if e.seen.Regular? then e.seen.size else 0
  }

  /** The bytes claimed so far. */
  ghost function ClaimedBytes(tree: seq<Entry>, phases: seq<Phase>): nat
    requires |phases| == |tree|
  {
    if tree == [] then 0
    else ClaimedBytes(tree[1..], phases[1..]) + if phases[0].Claimed? || phases[0].Done? then Size(tree[0]) else 0
  }

  ghost function TotalBytes(tree: seq<Entry>): nat {
    if tree == [] then 0 else TotalBytes(tree[1..]) + Size(tree[0])
  }

  lemma {:induction false} ClaimOne(tree: seq<Entry>, phases: seq<Phase>, i: nat, phase: Phase)
    requires |phases| == |tree| && i < |tree|
    ensures ClaimedBytes(tree, phases[i := phase])
              + (if phases[i].Claimed? || phases[i].Done? then Size(tree[i]) else 0)
         == ClaimedBytes(tree, phases) + (if phase.Claimed? || phase.Done? then Size(tree[i]) else 0)
  {
    if i > 0 {
      ClaimOne(tree[1..], phases[1..], i - 1, phase);
      assert phases[i := phase][1..] == phases[1..][i - 1 := phase];
    } else {
      assert phases[0 := phase][1..] == phases[1..];
    }
  }

  /** What every interleaving keeps: the budget is the sum of the claims, a mark means
      it is exceeded, and any other result is what an unhurried look would give. */
  ghost predicate Inv(tree: seq<Entry>, limit: nat, p: Pool) {
    && |p.phases| == |tree| && p.budget == ClaimedBytes(tree, p.phases)
    && forall i :: 0 <= i < |tree| ==>
         && (p.phases[i].Done? ==>
               (p.phases[i].result == OverBudget && tree[i].seen.Regular? && p.budget > limit)
               || p.phases[i].result == Look(tree[i]))
         && (p.phases[i].Claimed? ==> tree[i].seen.Regular?)
  }

  lemma StepKeepsInv(tree: seq<Entry>, limit: nat, p: Pool, step: Step)
    requires Inv(tree, limit, p) && Enabled(tree, p, step)
    ensures Inv(tree, limit, Apply(tree, limit, p, step))
  {
    hide ClaimedBytes;
    var q := Apply(tree, limit, p, step);
    ClaimOne(tree, p.phases, step.file, q.phases[step.file]);
  }

  lemma {:induction false} RunKeepsInv(tree: seq<Entry>, limit: nat, p: Pool, steps: seq<Step>, q: Pool)
    requires Inv(tree, limit, p) && Runs(tree, limit, p, steps, q)
    ensures Inv(tree, limit, q)
    decreases |steps|
  {
    hide Inv;
    if steps != [] {
      StepKeepsInv(tree, limit, p, steps[0]);
      RunKeepsInv(tree, limit, Apply(tree, limit, p, steps[0]), steps[1..], q);
    }
  }

  lemma {:induction false} NothingClaimed(tree: seq<Entry>)
    ensures ClaimedBytes(tree, Idle(|tree|).phases) == 0
  {
    if tree != [] {
      NothingClaimed(tree[1..]);
      assert Idle(|tree|).phases[1..] == Idle(|tree| - 1).phases;
    }
  }

  lemma {:induction false} AllClaimed(tree: seq<Entry>, phases: seq<Phase>)
    requires |phases| == |tree| && forall i :: 0 <= i < |phases| ==> phases[i].Done?
    ensures ClaimedBytes(tree, phases) == TotalBytes(tree)
  {
    if tree != [] {
      AllClaimed(tree[1..], phases[1..]);
    }
  }

  /** Each result is a mark under an exceeded budget, or what a look would give. */
  ghost predicate Honest(tree: seq<Entry>, phases: seq<Phase>, limit: nat, budget: nat) {
    |phases| == |tree| && forall i :: 0 <= i < |phases| ==>
      phases[i].Done? && ((phases[i].result == OverBudget && tree[i].seen.Regular? && budget > limit)
                          || phases[i].result == Look(tree[i]))
  }

  /** The merge agrees with the serial read from any point on. */
  lemma {:induction false} MergeIsSerial(tree: seq<Entry>, phases: seq<Phase>, limit: nat, budget: nat, total: nat,
                                         s: Snapshot)
    requires Unchanging(tree) && Honest(tree, phases, limit, budget)
    requires total <= limit && budget == TotalBytes(tree) + total
    ensures Merge(tree, phases, limit, budget, total, s) == Serial(tree, limit, total, s)
    decreases |tree|
  {
    if tree != [] {
      var e, r := tree[0], phases[0].result;
      assert Honest(tree[1..], phases[1..], limit, budget);
      assert Unchanging(tree[1..]);
      if r == OverBudget {
        SerialRefuses(tree, limit, total, s);
      } else if r == Failed {
      } else if e.seen.Regular? {
        if total + e.seen.size <= limit {
          MergeIsSerial(tree[1..], phases[1..], limit, budget, total + e.seen.size, Add(s, e.name, r));
        }
      } else {
        MergeIsSerial(tree[1..], phases[1..], limit, budget, total, Add(s, e.name, r));
      }
    }
  }

  /** More bytes than the limit cannot be read serially either. */
  lemma {:induction false} SerialRefuses(tree: seq<Entry>, limit: nat, total: nat, s: Snapshot)
    requires total <= limit < total + TotalBytes(tree)
    ensures Serial(tree, limit, total, s) == Refused
    decreases |tree|
  {
    if tree != [] && total + Size(tree[0]) <= limit && Look(tree[0]) != Failed {
      SerialRefuses(tree[1..], limit, total + Size(tree[0]), Add(s, tree[0].name, Look(tree[0])));
    }
  }

  /** Every complete interleaving has the outcome of the serial read: the same
      snapshot when that succeeds, and a refusal when it does not. */
  lemma ScheduleIndependent(tree: seq<Entry>, limit: nat, steps: seq<Step>, q: Pool)
    requires Unchanging(tree) && Runs(tree, limit, Idle(|tree|), steps, q) && Finished(q)
    ensures |q.phases| == |tree|
    ensures Merge(tree, q.phases, limit, q.budget, 0, EMPTY) == Serial(tree, limit, 0, EMPTY)
  {
    hide Merge, Serial, Runs, Look, ClaimedBytes, TotalBytes, Unchanging;
    NothingClaimed(tree);
    RunKeepsInv(tree, limit, Idle(|tree|), steps, q);
    AllClaimed(tree, q.phases);
    MergeIsSerial(tree, q.phases, limit, q.budget, 0, EMPTY);
  }

  /** A file left unread never yields a snapshot, whether or not the tree kept still. */
  lemma MarkIsRefused(tree: seq<Entry>, limit: nat, steps: seq<Step>, q: Pool, i: nat)
    requires Runs(tree, limit, Idle(|tree|), steps, q) && Finished(q)
    requires i < |q.phases| && q.phases[i].result == OverBudget
    ensures |q.phases| == |tree| && Merge(tree, q.phases, limit, q.budget, 0, EMPTY) == Refused
  {
    hide Merge, Runs, ClaimedBytes;
    NothingClaimed(tree);
    RunKeepsInv(tree, limit, Idle(|tree|), steps, q);
    MarkStops(tree, q.phases, limit, q.budget, 0, EMPTY, i);
  }

  lemma {:induction false} MarkStops(tree: seq<Entry>, phases: seq<Phase>, limit: nat, budget: nat, total: nat,
                                     s: Snapshot, i: nat)
    requires |phases| == |tree| && forall k :: 0 <= k < |phases| ==> phases[k].Done?
    requires i < |phases| && phases[i].result == OverBudget && budget > limit
    ensures Merge(tree, phases, limit, budget, total, s) == Refused
    decreases |tree|
  {
    if i > 0 && phases[0].result != Failed && phases[0].result != OverBudget {
      var r := phases[0].result;
      var more := if r.Data? then |r.bytes| else 0;
      if total + more <= limit || !r.Data? {
        MarkStops(tree[1..], phases[1..], limit, budget, total + more, Add(s, tree[0].name, r), i - 1);
      }
    }
  }

  // ---------- The pool never gets stuck ----------

  /** The steps a file still takes at most. */
  function Left(phase: Phase): nat {
    match phase
    case Waiting => 3
    case Started => 2
    case Claimed => 1
    case Done(_) => 0
  }

  function AllLeft(phases: seq<Phase>): nat {
    if phases == [] then 0 else Left(phases[0]) + AllLeft(phases[1..])
  }

  lemma {:induction false} LeftUpdate(phases: seq<Phase>, i: nat, phase: Phase)
    requires i < |phases|
    ensures AllLeft(phases[i := phase]) == AllLeft(phases) - Left(phases[i]) + Left(phase)
  {
    if i == 0 {
      assert phases[0 := phase][1..] == phases[1..];
    } else {
      LeftUpdate(phases[1..], i - 1, phase);
      assert phases[i := phase][1..] == phases[1..][i - 1 := phase];
    }
  }

  /** Until every file is done some worker can go on, and each step leads towards the end. */
  lemma NeverStuck(tree: seq<Entry>, limit: nat, p: Pool) returns (step: Step)
    requires |p.phases| == |tree| && !Finished(p)
    ensures Enabled(tree, p, step)
    ensures |Apply(tree, limit, p, step).phases| == |tree|
    ensures AllLeft(Apply(tree, limit, p, step).phases) < AllLeft(p.phases)
  {
    var i :| 0 <= i < |p.phases| && !p.phases[i].Done?;
    step := if p.phases[i].Waiting? then Start(i)
            else if p.phases[i].Started? && tree[i].seen.Regular? then Claim(i)
            else Finish(i);
    hide Look;
    var next := Apply(tree, limit, p, step);
    LeftUpdate(p.phases, i, next.phases[i]);
  }

  /** So every pool can be brought to an end. */
  lemma {:induction false} CanFinish(tree: seq<Entry>, limit: nat, p: Pool) returns (steps: seq<Step>, q: Pool)
    requires |p.phases| == |tree|
    ensures Runs(tree, limit, p, steps, q) && Finished(q)
    decreases AllLeft(p.phases)
  {
    if Finished(p) {
      steps, q := [], p;
    } else {
      hide AllLeft, Look, Finished;
      var step := NeverStuck(tree, limit, p);
      var rest;
      rest, q := CanFinish(tree, limit, Apply(tree, limit, p, step));
      steps := [step] + rest;
      assert steps[1..] == rest;
    }
  }

  // ---------- What a serial read captures ----------

  ghost predicate DistinctNames(tree: seq<Entry>) {
    forall i, j :: 0 <= i < j < |tree| ==> tree[i].name != tree[j].name
  }

  ghost predicate AllReadable(tree: seq<Entry>) {
    forall e :: e in tree ==> e.seen != Broken && (e.seen.Regular? ==> e.seen.readable)
  }

  /** A serial read succeeds exactly when all can be read within the limit. */
  lemma {:induction false} SerialSucceeds(tree: seq<Entry>, limit: nat, total: nat, s: Snapshot)
    requires total <= limit
    ensures Serial(tree, limit, total, s).Captured? <==> AllReadable(tree) && total + TotalBytes(tree) <= limit
    decreases |tree|
  {
    if tree != [] {
      var e := tree[0];
      ReadableParts(tree);
      hide AllReadable, Add;
      if total + Size(e) <= limit && Look(e) != Failed {
        SerialSucceeds(tree[1..], limit, total + Size(e), Add(s, e.name, Look(e)));
      }
    }
  }

  lemma ReadableParts(tree: seq<Entry>)
    requires tree != []
    ensures AllReadable(tree) <==> Look(tree[0]) != Failed && AllReadable(tree[1..])
  {
    assert forall e :: e in tree <==> e == tree[0] || e in tree[1..];
  }

  datatype Kind = FileKind | LinkKind | LargeKind

  /** The part of a snapshot that holds one kind of entry. */
  function Part(s: Snapshot, kind: Kind): map<string, string> {
    match kind
    case FileKind => s.files
    case LinkKind => s.links
    case LargeKind => s.large
  }

  /** What an entry is to be recorded as. */
  predicate Recorded(e: Entry, kind: Kind, text: string) {
    match e.seen
    case Regular(_, _, data) => kind == FileKind && text == data
    case Link(target) => kind == LinkKind && text == target
    case Large(summary) => kind == LargeKind && text == summary
    case _ => false
  }

  /** What is reported of entries that are neither files nor links. */
  function Issues(tree: seq<Entry>): seq<string> {
    if tree == [] then []
    else (if tree[0].seen.Odd? then [tree[0].seen.issue] else []) + Issues(tree[1..])
  }

  /** A captured snapshot records every entry in its kind, reports every odd one in
      its turn, and holds nothing else. */
  lemma CapturedIsTree(tree: seq<Entry>, limit: nat, s: Snapshot, kind: Kind, name: string, text: string)
    requires DistinctNames(tree) && Serial(tree, limit, 0, EMPTY) == Captured(s)
    ensures name in Part(s, kind) && Part(s, kind)[name] == text
        <==> exists e :: e in tree && e.name == name && Recorded(e, kind, text)
    ensures s.modules == map[] && s.issues == Issues(tree)
  {
    SerialAdds(tree, limit, 0, EMPTY, s, kind, name, text);
  }

  ghost predicate Named(tree: seq<Entry>, name: string) {
    exists e :: e in tree && e.name == name
  }

  lemma {:induction false} SerialAdds(tree: seq<Entry>, limit: nat, total: nat, s: Snapshot, t: Snapshot, kind: Kind,
                                      name: string, text: string)
    requires DistinctNames(tree) && Serial(tree, limit, total, s) == Captured(t)
    requires Named(tree, name) ==> name !in Part(s, kind)
    ensures (name in Part(t, kind) && Part(t, kind)[name] == text)
        <==> ((name in Part(s, kind) && Part(s, kind)[name] == text)
              || exists e :: e in tree && e.name == name && Recorded(e, kind, text))
    ensures t.modules == s.modules && t.issues == s.issues + Issues(tree)
    decreases |tree|
  {
    if tree != [] {
      var e, rest := tree[0], tree[1..];
      assert forall x :: x in tree <==> x == e || x in rest;
      NamedOnce(tree);
      AddRecords(s, e, kind, name, text);
      hide Add, Look, Part, Recorded;
      SerialAdds(rest, limit, total + Size(e), Add(s, e.name, Look(e)), t, kind, name, text);
    }
  }

  lemma NamedOnce(tree: seq<Entry>)
    requires DistinctNames(tree) && tree != []
    ensures DistinctNames(tree[1..]) && !Named(tree[1..], tree[0].name)
  {
    var rest := tree[1..];
    forall i | 0 <= i < |rest| ensures rest[i].name != tree[0].name {
      assert rest[i] == tree[i + 1];
    }
  }

  lemma AddRecords(s: Snapshot, e: Entry, kind: Kind, name: string, text: string)
    requires e.name == name ==> name !in Part(s, kind)
    requires Look(e) != Failed
    ensures var a := Add(s, e.name, Look(e));
      && (e.name != name ==> (name in Part(a, kind) <==> name in Part(s, kind)))
      && ((name in Part(a, kind) && Part(a, kind)[name] == text)
          <==> ((name in Part(s, kind) && Part(s, kind)[name] == text) || (e.name == name && Recorded(e, kind, text))))
      && a.modules == s.modules
      && a.issues == s.issues + if e.seen.Odd? then [e.seen.issue] else []
  {}
}
