/** Crash-tolerant deletion of dependency environments. A release records the
    identity of a directory in a journal before it deletes anything and retires the
    entry afterwards; preparation first retires completed entries. Every action takes
    the repository lease, a crash can happen between any two of them, and others may
    replace directories while the lease is free. */
module ReleaseJournal {

  type Path = string

  /** Device and inode of a directory; numbers may be reused after a deletion. */
  type Identity = nat

  /** An environment directory; `damaged` once a release has deleted part of it. */
  datatype Dir = Dir(id: Identity, damaged: bool, entries: nat)

  type Journal = map<Path, Identity>

  /** Who holds the lease, and how far it has come. */
  datatype Lease =
    | Free
    | ReleaseOpened(target: Path)
    | ReleaseChecked(target: Path, memory: Journal)
    | ReleaseRecorded(target: Path, memory: Journal)
    | ReleaseEmptied(target: Path, memory: Journal)
    | PrepareOpened(target: Path)
    | PrepareAdmitted(target: Path)

  /** `identityChanged` remembers that the error of that name was reported, and
      `interfered` that someone else replaced or removed a directory. */
  datatype State = State(dirs: map<Path, Dir>, journal: Journal, lease: Lease, identityChanged: bool, interfered: bool)

  datatype Step =
    | BeginRelease(path: Path)
    | CheckRelease(recover: bool)
    | Record
    | DeleteEntry
    | DeleteDirectory
    | Retire
    | BeginPrepare(path: Path)
    | CheckPrepare
    | Install(id: Identity, entries: nat)
    | Crash
    | OutsideRemove(path: Path)
    | OutsideReplace(path: Path, id: Identity, entries: nat)

  // ---------- The journal ----------

  /** Some entry names a directory that is no longer the one recorded. */
  predicate Mismatch(journal: Journal, dirs: map<Path, Dir>) {
    exists p :: p in journal && p in dirs && dirs[p].id != journal[p]
  }

  /** The entries whose directory still exists. */
  function Pending(journal: Journal, dirs: map<Path, Dir>): Journal {
    map p | p in journal && p in dirs :: journal[p]
  }

  // ---------- Steps ----------

  predicate Enabled(s: State, step: Step) {
    match step
    case BeginRelease(_) | BeginPrepare(_) => s.lease.Free?
    case CheckRelease(_) => s.lease.ReleaseOpened?
    case Record => s.lease.ReleaseChecked?
    case DeleteEntry => s.lease.ReleaseRecorded? && s.lease.target in s.dirs && s.dirs[s.lease.target].entries > 0
    case DeleteDirectory =>
      s.lease.ReleaseRecorded? && (s.lease.target in s.dirs ==> s.dirs[s.lease.target].entries == 0)
    case Retire => s.lease.ReleaseEmptied?
    case CheckPrepare => s.lease.PrepareOpened?
    case Install(_, _) => s.lease.PrepareAdmitted?
    case Crash => true
    case OutsideRemove(_) | OutsideReplace(_, _, _) => s.lease.Free?
  }

  function Apply(s: State, step: Step): State
    requires Enabled(s, step)
  {
    match step
    case BeginRelease(p) => s.(lease := ReleaseOpened(p))
    case CheckRelease(recover) =>
      if Mismatch(s.journal, s.dirs) then s.(lease := Free, identityChanged := true)
      else
        var pending := Pending(s.journal, s.dirs);
        var read := if recover then s.(journal := pending) else s;
        if s.lease.target !in s.dirs then read.(lease := Free)
        else read.(lease := ReleaseChecked(s.lease.target, pending))
    case Record =>
      if s.lease.target !in s.dirs then s.(lease := Free)
      else
        var memory := s.lease.memory[s.lease.target := s.dirs[s.lease.target].id];
        s.(journal := memory, lease := ReleaseRecorded(s.lease.target, memory))
    case DeleteEntry =>
      var d := s.dirs[s.lease.target];
      s.(dirs := s.dirs[s.lease.target := Dir(d.id, true, d.entries - 1)])
    case DeleteDirectory =>
      s.(dirs := s.dirs - {s.lease.target}, lease := ReleaseEmptied(s.lease.target, s.lease.memory))
    case Retire => s.(journal := s.lease.memory - {s.lease.target}, lease := Free)
    case BeginPrepare(p) => s.(lease := PrepareOpened(p))
    case CheckPrepare =>
      if Mismatch(s.journal, s.dirs) then s.(lease := Free, identityChanged := true)
      else
        var pending := Pending(s.journal, s.dirs);
        s.(journal := pending, lease := if s.lease.target in pending then Free else PrepareAdmitted(s.lease.target))
    case Install(id, entries) => s.(dirs := s.dirs[s.lease.target := Dir(id, false, entries)], lease := Free)
    case Crash => s.(lease := Free)
    case OutsideRemove(p) => s.(dirs := s.dirs - {p}, interfered := true)
    case OutsideReplace(p, id, entries) => s.(dirs := s.dirs[p := Dir(id, false, entries)], interfered := true)
  }

  predicate Initial(s: State) {
    && s.journal == map[] && s.lease.Free? && !s.identityChanged && !s.interfered
    && forall p :: p in s.dirs ==> !s.dirs[p].damaged
  }

  /** The state after a run, when every step of it was possible. */
  ghost predicate Runs(s: State, steps: seq<Step>, t: State)
    decreases |steps|
  {
    if steps == [] then s == t
    else Enabled(s, steps[0]) && Runs(Apply(s, steps[0]), steps[1..], t)
  }

  // ---------- Safety ----------

  /** A partly deleted environment has a journal entry with its own identity. */
  ghost predicate Owned(s: State) {
    forall p :: p in s.dirs && s.dirs[p].damaged ==> p in s.journal && s.journal[p] == s.dirs[p].id
  }

  /** Every entry whose directory exists names that directory. */
  ghost predicate Agrees(journal: Journal, dirs: map<Path, Dir>) {
    forall p :: p in journal && p in dirs ==> dirs[p].id == journal[p]
  }

  /** What the holder of the lease may rely on. */
  ghost predicate Held(s: State) {
    match s.lease
    case Free | ReleaseOpened(_) | PrepareOpened(_) => true
    case ReleaseChecked(p, memory) =>
      p in s.dirs && Agrees(s.journal, s.dirs) && memory == Pending(s.journal, s.dirs)
    case ReleaseRecorded(p, memory) =>
      memory == s.journal && p in s.journal && Agrees(s.journal, s.dirs)
    case ReleaseEmptied(p, memory) =>
      memory == s.journal && p in s.journal && p !in s.dirs && Agrees(s.journal, s.dirs)
    case PrepareAdmitted(p) => p !in s.journal && Agrees(s.journal, s.dirs)
  }

  /** Without interference the journal is never contradicted. */
  ghost predicate Undisturbed(s: State) {
    !s.interfered ==> Agrees(s.journal, s.dirs) && !s.identityChanged
  }

  ghost predicate Inv(s: State) {
    Owned(s) && Held(s) && Undisturbed(s)
  }

  lemma InitialInv(s: State)
    requires Initial(s)
    ensures Inv(s)
  {
  }

  lemma StepKeepsOwned(s: State, step: Step)
    requires Inv(s) && Enabled(s, step)
    ensures Owned(Apply(s, step))
  {
  }

  lemma StepKeepsHeld(s: State, step: Step)
    requires Inv(s) && Enabled(s, step)
    ensures Held(Apply(s, step))
  {
  }

  lemma StepKeepsUndisturbed(s: State, step: Step)
    requires Inv(s) && Enabled(s, step)
    ensures Undisturbed(Apply(s, step))
  {
  }

  lemma {:induction false} RunKeepsInv(s: State, steps: seq<Step>, t: State)
    requires Inv(s) && Runs(s, steps, t)
    ensures Inv(t)
    decreases |steps|
  {
    if steps != [] {
      StepKeepsOwned(s, steps[0]);
      StepKeepsHeld(s, steps[0]);
      StepKeepsUndisturbed(s, steps[0]);
      RunKeepsInv(Apply(s, steps[0]), steps[1..], t);
    }
  }

  /** Over every run: a partly deleted environment is journaled under its own identity. */
  lemma PartialDeletionIsJournaled(s: State, steps: seq<Step>, t: State, p: Path)
    requires Initial(s) && Runs(s, steps, t) && p in t.dirs && t.dirs[p].damaged
    ensures p in t.journal && t.journal[p] == t.dirs[p].id
  {
    InitialInv(s);
    RunKeepsInv(s, steps, t);
  }

  /** Over every run: no step deletes inside a directory other than the one recorded. */
  lemma DeletionIsOwned(s: State, steps: seq<Step>, t: State, step: Step)
    requires Initial(s) && Runs(s, steps, t) && Enabled(t, step) && (step.DeleteEntry? || step.DeleteDirectory?)
    ensures var p := t.lease.target;
            p in t.journal && (p in t.dirs ==> t.dirs[p].id == t.journal[p])
            && forall q :: q in t.dirs && q != p ==> q in Apply(t, step).dirs && Apply(t, step).dirs[q] == t.dirs[q]
  {
    InitialInv(s);
    RunKeepsInv(s, steps, t);
  }

  /** Over every run: preparation never installs into a partly deleted environment. */
  lemma PreparationAvoidsPartial(s: State, steps: seq<Step>, t: State)
    requires Initial(s) && Runs(s, steps, t) && t.lease.PrepareAdmitted?
    ensures t.lease.target in t.dirs ==> !t.dirs[t.lease.target].damaged
  {
    InitialInv(s);
    RunKeepsInv(s, steps, t);
  }

  predicate Outside(step: Step) {
    step.OutsideRemove? || step.OutsideReplace?
  }

  lemma {:induction false} NoOutsideNoInterference(s: State, steps: seq<Step>, t: State)
    requires Runs(s, steps, t) && !s.interfered && forall x :: x in steps ==> !Outside(x)
    ensures !t.interfered
    decreases |steps|
  {
    if steps != [] {
      assert steps[0] in steps;
      NoOutsideNoInterference(Apply(s, steps[0]), steps[1..], t);
    }
  }

  /** Over every run of releases, crashes, recoveries and preparations alone, the
      identity-changed error is never reported. */
  lemma NoFalseAlarm(s: State, steps: seq<Step>, t: State)
    requires Initial(s) && Runs(s, steps, t) && forall x :: x in steps ==> !Outside(x)
    ensures !t.identityChanged
  {
    InitialInv(s);
    RunKeepsInv(s, steps, t);
    NoOutsideNoInterference(s, steps, t);
  }

  // ---------- What the steps report and record ----------

  /** Some entry's directory is there with another identity. */
  ghost predicate Replaced(s: State) {
    exists p :: p in s.journal && p in s.dirs && s.journal[p] != s.dirs[p].id
  }

  /** Reading the journal reports a changed identity exactly when an entry's directory is
      another one by now; then nothing else changes, and nothing is deleted or installed. */
  lemma ChecksReport(s: State, step: Step)
    requires Enabled(s, step) && (step.CheckRelease? || step.CheckPrepare?)
    ensures Apply(s, step).identityChanged <==> s.identityChanged || Replaced(s)
    ensures Replaced(s) ==> Apply(s, step) == s.(lease := Free, identityChanged := true)
    ensures Apply(s, step).dirs == s.dirs
  {}

  /** Where it does not, recovery and preparation keep exactly the entries whose directory
      still exists. A release goes on if its directory does; preparation if the journal has
      no entry left for it. */
  lemma ChecksKeep(s: State, step: Step)
    requires Enabled(s, step) && (step.CheckRelease? || step.CheckPrepare?) && !Replaced(s)
    ensures var t := Apply(s, step);
      && (step == CheckRelease(false) ==> t.journal == s.journal)
      && (step != CheckRelease(false) ==>
            forall p :: (p in t.journal <==> p in s.journal && p in s.dirs)
                        && (p in t.journal ==> t.journal[p] == s.journal[p]))
      && (step.CheckRelease? ==> (t.lease.ReleaseChecked? <==> s.lease.target in s.dirs))
      && (step.CheckPrepare? ==>
            (t.lease == PrepareAdmitted(s.lease.target)
             <==> !(s.lease.target in s.journal && s.lease.target in s.dirs)))
  {
    assert !Mismatch(s.journal, s.dirs);
  }

  /** The states of a run. */
  ghost function At(s: State, steps: seq<Step>, i: nat): State
    requires i <= |steps|
    decreases i
  {
    if i == 0 || !Enabled(s, steps[0]) then s else At(Apply(s, steps[0]), steps[1..], i - 1)
  }

  /** The step puts another directory in place of `p`. */
  ghost predicate Renews(s: State, step: Step, p: Path) {
    (step.Install? && s.lease.PrepareAdmitted? && s.lease.target == p) || (step.OutsideReplace? && step.path == p)
  }

  /** Something was deleted in `p` at step `i`, and no other directory has taken its place. */
  ghost predicate DeletedSince(s: State, steps: seq<Step>, p: Path, i: nat) {
    && i < |steps| && steps[i].DeleteEntry? && At(s, steps, i).lease.ReleaseRecorded?
    && At(s, steps, i).lease.target == p
    && forall j :: i < j < |steps| ==> !Renews(At(s, steps, j), steps[j], p)
  }

  /** An environment is damaged exactly when a release has deleted in it since it was put
      there. */
  lemma DamageIsDeletion(s: State, steps: seq<Step>, t: State, p: Path)
    requires Initial(s) && Runs(s, steps, t) && p in t.dirs
    ensures t.dirs[p].damaged <==> exists i: nat :: DeletedSince(s, steps, p, i)
  {
    DamageFrom(s, steps, t, p);
    assert p in s.dirs ==> !s.dirs[p].damaged;
  }

  ghost predicate Damaged(s: State, p: Path) {
    p in s.dirs && s.dirs[p].damaged
  }

  ghost predicate NeverRenewed(s: State, steps: seq<Step>, p: Path) {
    forall j :: 0 <= j < |steps| ==> !Renews(At(s, steps, j), steps[j], p)
  }

  lemma {:induction false} DamageFrom(s: State, steps: seq<Step>, t: State, p: Path)
    requires Runs(s, steps, t) && p in t.dirs
    ensures Damaged(t, p) <==>
      (exists i: nat :: DeletedSince(s, steps, p, i)) || (Damaged(s, p) && NeverRenewed(s, steps, p))
    decreases |steps|
  {
    if steps != [] {
      var u, rest := Apply(s, steps[0]), steps[1..];
      DamageFrom(u, rest, t, p);
      assert forall j :: 0 < j < |steps| ==> steps[j] == rest[j - 1] && At(s, steps, j) == At(u, rest, j - 1);
      assert At(s, steps, 0) == s;
      DamageStep(s, steps[0], p);
      if p !in u.dirs && NeverRenewed(u, rest, p) {
        StaysGone(u, rest, t, p);
      }
      hide At, Runs, Renews, DeletedSince;
      if i: nat :| DeletedSince(s, steps, p, i) {
        if i > 0 {
          SinceShift(s, steps, u, rest, p, i - 1);
        } else {
          SinceFirst(s, steps, u, rest, p);
        }
      }
      if i: nat :| DeletedSince(u, rest, p, i) {
        SinceShift(s, steps, u, rest, p, i);
        assert DeletedSince(s, steps, p, i + 1);
      }
      assert NeverRenewed(s, steps, p) <==> !Renews(s, steps[0], p) && NeverRenewed(u, rest, p) by {
        RenewedShift(s, steps, u, rest, p);
      }
      if Damaged(u, p) && NeverRenewed(u, rest, p) && !(Damaged(s, p) && !Renews(s, steps[0], p)) {
        SinceFirst(s, steps, u, rest, p);
        assert DeletedSince(s, steps, p, 0);
      }
    }
  }

  lemma {:induction false} StaysGone(s: State, steps: seq<Step>, t: State, p: Path)
    requires Runs(s, steps, t) && p !in s.dirs && NeverRenewed(s, steps, p)
    ensures p !in t.dirs
    decreases |steps|
  {
    if steps != [] {
      var u, rest := Apply(s, steps[0]), steps[1..];
      assert forall j :: 0 < j < |steps| ==> steps[j] == rest[j - 1] && At(s, steps, j) == At(u, rest, j - 1);
      assert At(s, steps, 0) == s;
      RenewedShift(s, steps, u, rest, p);
      assert p !in u.dirs;
      StaysGone(u, rest, t, p);
    }
  }

  lemma RenewedShift(s: State, steps: seq<Step>, u: State, rest: seq<Step>, p: Path)
    requires |steps| == |rest| + 1 && At(s, steps, 0) == s
    requires forall j :: 0 < j < |steps| ==> steps[j] == rest[j - 1] && At(s, steps, j) == At(u, rest, j - 1)
    ensures NeverRenewed(s, steps, p) <==> !Renews(s, steps[0], p) && NeverRenewed(u, rest, p)
  {
    hide At, Renews;
    if NeverRenewed(s, steps, p) {
      forall j | 0 <= j < |rest| ensures !Renews(At(u, rest, j), rest[j], p) {
        assert !Renews(At(s, steps, j + 1), steps[j + 1], p);
      }
      assert !Renews(At(s, steps, 0), steps[0], p);
    }
  }

  lemma SinceFirst(s: State, steps: seq<Step>, u: State, rest: seq<Step>, p: Path)
    requires |steps| == |rest| + 1 && At(s, steps, 0) == s && Enabled(s, steps[0])
    requires forall j :: 0 < j < |steps| ==> steps[j] == rest[j - 1] && At(s, steps, j) == At(u, rest, j - 1)
    ensures DeletedSince(s, steps, p, 0) <==>
      steps[0].DeleteEntry? && s.lease.target == p && NeverRenewed(u, rest, p)
  {
    hide At, Renews;
    if DeletedSince(s, steps, p, 0) {
      forall j | 0 <= j < |rest| ensures !Renews(At(u, rest, j), rest[j], p) {
        assert !Renews(At(s, steps, j + 1), steps[j + 1], p);
      }
    }
  }

  lemma SinceShift(s: State, steps: seq<Step>, u: State, rest: seq<Step>, p: Path, i: nat)
    requires |steps| == |rest| + 1
    requires forall j :: 0 < j < |steps| ==> steps[j] == rest[j - 1] && At(s, steps, j) == At(u, rest, j - 1)
    ensures DeletedSince(s, steps, p, i + 1) <==> DeletedSince(u, rest, p, i)
  {
    hide At, Renews;
    if DeletedSince(s, steps, p, i + 1) {
      forall j | i < j < |rest| ensures !Renews(At(u, rest, j), rest[j], p) {
        assert !Renews(At(s, steps, j + 1), steps[j + 1], p);
      }
    }
  }

  lemma DamageStep(s: State, step: Step, p: Path)
    requires Enabled(s, step)
    ensures Damaged(Apply(s, step), p) ==>
      (step.DeleteEntry? && s.lease.target == p) || (Damaged(s, p) && !Renews(s, step, p))
    ensures step.DeleteEntry? && s.lease.target == p ==> Damaged(Apply(s, step), p)
    ensures p in Apply(s, step).dirs && Damaged(s, p) && !Renews(s, step, p) ==> Damaged(Apply(s, step), p)
  {}

  // ---------- Recovery ----------

  /** The steps of one undisturbed release of a directory with `n` entries left. */
  function FullRelease(p: Path, n: nat): seq<Step> {
    [BeginRelease(p), CheckRelease(true), Record] + Deletions(n) + [DeleteDirectory, Retire]
  }

  function Deletions(n: nat): seq<Step> {
    if n == 0 then [] else [DeleteEntry] + Deletions(n - 1)
  }

  lemma {:induction false} RunsAppend(s: State, a: seq<Step>, t: State, b: seq<Step>, u: State)
    requires Runs(s, a, t) && Runs(t, b, u)
    ensures Runs(s, a + b, u)
    decreases |a|
  {
    if a == [] {
      assert a + b == b;
    } else {
      RunsAppend(Apply(s, a[0]), a[1..], t, b, u);
      assert (a + b)[1..] == a[1..] + b;
    }
  }

  lemma {:induction false} DeletionsRun(s: State, p: Path) returns (t: State)
    requires s.lease.ReleaseRecorded? && s.lease.target == p && p in s.dirs
    ensures Runs(s, Deletions(s.dirs[p].entries), t)
    ensures p in t.dirs && t.dirs[p].entries == 0 && t.lease == s.lease && t.journal == s.journal
    ensures t.identityChanged == s.identityChanged && t.interfered == s.interfered
    ensures t.dirs - {p} == s.dirs - {p}
    decreases s.dirs[p].entries
  {
    if s.dirs[p].entries == 0 {
      t := s;
    } else {
      var next := Apply(s, DeleteEntry);
      t := DeletionsRun(next, p);
      assert Deletions(s.dirs[p].entries)[1..] == Deletions(next.dirs[p].entries);
    }
  }

  /** The steps of a release up to the deletion of the directory. */
  function Deleting(p: Path, n: nat): seq<Step> {
    [BeginRelease(p), CheckRelease(true), Record] + Deletions(n) + [DeleteDirectory]
  }

  lemma ReleaseDeletes(s: State, p: Path) returns (t: State)
    requires Inv(s) && s.lease.Free? && p in s.dirs && Agrees(s.journal, s.dirs)
    ensures Runs(s, Deleting(p, s.dirs[p].entries), t)
    ensures var journal := Pending(s.journal, s.dirs)[p := s.dirs[p].id];
            t == s.(dirs := s.dirs - {p}, journal := journal, lease := ReleaseEmptied(p, journal))
  {
    var n := s.dirs[p].entries;
    var s1 := Apply(s, BeginRelease(p));
    assert !Mismatch(s1.journal, s1.dirs);
    var s2 := Apply(s1, CheckRelease(true));
    var s3 := Apply(s2, Record);
    var s4 := DeletionsRun(s3, p);
    t := Apply(s4, DeleteDirectory);
    Three(s, BeginRelease(p), s1, CheckRelease(true), s2, Record, s3);
    One(s4, DeleteDirectory);
    RunsAppend(s, [BeginRelease(p), CheckRelease(true), Record], s3, Deletions(n), s4);
    RunsAppend(s, [BeginRelease(p), CheckRelease(true), Record] + Deletions(n), s4, [DeleteDirectory], t);
  }

  /** Whatever crashed before, releasing an environment again from a state whose
      journal is not contradicted deletes it, retires its entry and touches no other. */
  lemma ReleaseResumes(s: State, p: Path) returns (t: State)
    requires Inv(s) && s.lease.Free? && p in s.dirs && Agrees(s.journal, s.dirs)
    ensures Runs(s, FullRelease(p, s.dirs[p].entries), t)
    ensures t.lease.Free? && t.dirs == s.dirs - {p}
    ensures t.journal == Pending(s.journal, s.dirs) - {p}
    ensures t.identityChanged == s.identityChanged
  {
    var n := s.dirs[p].entries;
    var s1 := ReleaseDeletes(s, p);
    t := Apply(s1, Retire);
    One(s1, Retire);
    RunsAppend(s, Deleting(p, n), s1, [Retire], t);
    assert Deleting(p, n) + [Retire] == FullRelease(p, n);
  }

  /** Why preparation retires completed entries first. A crash right after the
      deletion of any environment lets a preparation begin with its entry still there:
      installing under another identity at once would contradict the journal, so that
      every later release and preparation reported a changed identity. The check takes
      the entry away, and then installing contradicts nothing. */
  lemma UnretiredEntryContradicts(s: State, p: Path, installed: Identity, entries: nat) returns (t: State)
    requires Inv(s) && s.lease.Free? && p in s.dirs && Agrees(s.journal, s.dirs)
    ensures Runs(s, Deleting(p, s.dirs[p].entries) + [Crash, BeginPrepare(p)], t) && t.lease == PrepareOpened(p)
    ensures Mismatch(t.journal, t.dirs[p := Dir(installed, false, entries)]) <==> installed != s.dirs[p].id
    ensures var u := Apply(t, CheckPrepare);
      && u.lease == PrepareAdmitted(p)
      && !Mismatch(u.journal, Apply(u, Install(installed, entries)).dirs)
  {
    t := CrashUnretired(s, p);
    hide Runs, Inv;
    assert t.journal[p] == s.dirs[p].id && p in t.dirs[p := Dir(installed, false, entries)];
    assert !Mismatch(t.journal, t.dirs);
  }

  lemma CrashUnretired(s: State, p: Path) returns (t: State)
    requires Inv(s) && s.lease.Free? && p in s.dirs && Agrees(s.journal, s.dirs)
    ensures Runs(s, Deleting(p, s.dirs[p].entries) + [Crash, BeginPrepare(p)], t)
    ensures t == s.(dirs := s.dirs - {p}, journal := Pending(s.journal, s.dirs)[p := s.dirs[p].id],
                    lease := PrepareOpened(p))
  {
    var n := s.dirs[p].entries;
    var s1 := ReleaseDeletes(s, p);
    var s2 := Apply(s1, Crash);
    t := Apply(s2, BeginPrepare(p));
    Two(s1, Crash, s2, BeginPrepare(p), t);
    RunsAppend(s, Deleting(p, n), s1, [Crash, BeginPrepare(p)], t);
  }

  lemma One(s: State, a: Step)
    requires Enabled(s, a)
    ensures Runs(s, [a], Apply(s, a))
  {
    assert [a][1..] == [];
    assert Runs(Apply(s, a), [], Apply(s, a));
  }

  lemma Two(s: State, a: Step, s1: State, b: Step, s2: State)
    requires Enabled(s, a) && Apply(s, a) == s1 && Enabled(s1, b) && Apply(s1, b) == s2
    ensures Runs(s, [a, b], s2)
  {
    assert [a, b][1..] == [b] && [b][1..] == [];
    assert Runs(s1, [b], s2);
  }

  lemma Three(s: State, a: Step, s1: State, b: Step, s2: State, c: Step, s3: State)
    requires Enabled(s, a) && Apply(s, a) == s1 && Enabled(s1, b) && Apply(s1, b) == s2
    requires Enabled(s2, c) && Apply(s2, c) == s3
    ensures Runs(s, [a, b, c], s3)
  {
    Two(s1, b, s2, c, s3);
    assert [a, b, c][1..] == [b, c];
  }
}
