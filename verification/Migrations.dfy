/** The migration runner of server/internal/store/store.go: one run from start to finish, and
    any number of runs interleaved, crashing anywhere, with or without the advisory lock. */
module Migrations {
  import opened Sequences
  import opened Tables
  import opened Order

  // ---------------------------------------------------------------- the directory

  datatype Entry = Entry(name: string, isDir: bool)

  predicate IsMigration(e: Entry) {
    !e.isDir && 4 <= |e.name| && e.name[|e.name| - 4..] == ".sql"
  }

  function Names(entries: seq<Entry>): seq<string> {
    if entries == [] then []
    else (if IsMigration(entries[0]) then [entries[0].name] else []) + Names(entries[1..])
  }

  /** The *.sql files, sorted by name. */
  function Files(entries: seq<Entry>): seq<string> {
    Sort(StringLe, Names(entries))
  }

  /** A directory lists a name once. */
  ghost predicate Listing(entries: seq<Entry>) {
    forall i, j :: 0 <= i < j < |entries| ==> entries[i].name != entries[j].name
  }

  lemma {:induction false} NamesFrom(entries: seq<Entry>, name: string) returns (k: nat)
    requires name in Names(entries)
    ensures k < |entries| && entries[k] == Entry(name, false) && IsMigration(entries[k])
  {
    if IsMigration(entries[0]) && entries[0].name == name {
      k := 0;
    } else {
      k := NamesFrom(entries[1..], name);
      k := k + 1;
    }
  }

  lemma {:induction false} NamesAre(entries: seq<Entry>, name: string)
    ensures name in Names(entries) <==>
      Entry(name, false) in entries && 4 <= |name| && name[|name| - 4..] == ".sql"
  {
    if entries != [] {
      NamesAre(entries[1..], name);
      assert Entry(name, false) in entries <==> Entry(name, false) == entries[0] || Entry(name, false) in entries[1..];
    }
  }

  lemma {:induction false} NamesNoDup(entries: seq<Entry>)
    requires Listing(entries)
    ensures NoDup(Names(entries))
  {
    if entries != [] {
      assert forall i :: 0 <= i < |entries[1..]| ==> entries[1..][i] == entries[i + 1];
      NamesNoDup(entries[1..]);
      if entries[0].name in Names(entries[1..]) {
        var k := NamesFrom(entries[1..], entries[0].name);
        assert false;
      }
    }
  }

  lemma FilesNoDup(entries: seq<Entry>)
    requires Listing(entries)
    ensures NoDup(Files(entries))
  {
    NamesNoDup(entries);
    SamePermutationNoDup(Names(entries), Files(entries));
  }

  lemma SameFirst(a: seq<string>, b: seq<string>)
    requires SortedBy(StringLe, a) && SortedBy(StringLe, b) && multiset(a) == multiset(b) && a != [] && b != []
    ensures a[0] == b[0] && multiset(a[1..]) == multiset(b[1..])
  {
    SameElements(a, b);
    assert a[0] in b && b[0] in a;
    StringLeTotal(a[0], a[0]);
    StringLeTotal(b[0], b[0]);
    assert StringLe(a[0], b[0]) && StringLe(b[0], a[0]);
    StringLeAntisymmetric(a[0], b[0]);
    assert a == [a[0]] + a[1..] && b == [b[0]] + b[1..];
    assert multiset(a[1..]) == multiset(a) - multiset{a[0]} && multiset(b[1..]) == multiset(b) - multiset{b[0]};
  }

  lemma {:induction false} SortedPermutationsAreEqual(a: seq<string>, b: seq<string>)
    requires SortedBy(StringLe, a) && SortedBy(StringLe, b) && multiset(a) == multiset(b)
    ensures a == b
  {
    SameElements(a, b);
    if a != [] {
      SameFirst(a, b);
      SortedPermutationsAreEqual(a[1..], b[1..]);
      assert a == [a[0]] + a[1..] && b == [b[0]] + b[1..];
    }
  }

  lemma {:induction false} NameCounts(entries: seq<Entry>, name: string)
    requires IsMigration(Entry(name, false))
    ensures multiset(Names(entries))[name] == multiset(entries)[Entry(name, false)]
  {
    if entries != [] {
      NameCounts(entries[1..], name);
      var rest := Names(entries[1..]);
      var here := if IsMigration(entries[0]) then [entries[0].name] else [];
      assert entries == [entries[0]] + entries[1..];
      ConcatCounts([entries[0]], entries[1..], Entry(name, false));
      ConcatCounts(here, rest, name);
    }
  }

  /** The order in which the directory is read does not matter. */
  lemma ReadOrderIsIrrelevant(a: seq<Entry>, b: seq<Entry>)
    requires multiset(a) == multiset(b)
    ensures Files(a) == Files(b)
  {
    forall name
      ensures multiset(Names(a))[name] == multiset(Names(b))[name]
    {
      if name in Names(a) {
        var k := NamesFrom(a, name);
      }
      if name in Names(b) {
        var k := NamesFrom(b, name);
      }
      if IsMigration(Entry(name, false)) {
        NameCounts(a, name);
        NameCounts(b, name);
      } else {
        assert name !in multiset(Names(a)) && name !in multiset(Names(b));
      }
    }
    StringOrder();
    SortSorts(StringLe, Names(a));
    SortSorts(StringLe, Names(b));
    SortedPermutationsAreEqual(Files(a), Files(b));
  }

  /** Main result: the files a run looks at are those of the directory whose names end in ".sql",
      each once, in lexicographic order. */
  lemma FilesAreTheMigrations(entries: seq<Entry>)
    requires Listing(entries)
    ensures forall name :: name in Files(entries) <==>
      Entry(name, false) in entries && 4 <= |name| && name[|name| - 4..] == ".sql"
    ensures forall i, j :: 0 <= i < j < |Files(entries)| ==> LexBefore(Files(entries)[i], Files(entries)[j])
  {
    var files := Files(entries);
    SameElements(files, Names(entries));
    forall name
      ensures name in files <==> Entry(name, false) in entries && 4 <= |name| && name[|name| - 4..] == ".sql"
    {
      NamesAre(entries, name);
    }
    FilesNoDup(entries);
    StringOrder();
    SortSorts(StringLe, Names(entries));
    forall i, j | 0 <= i < j < |files|
      ensures LexBefore(files[i], files[j])
    {
      assert StringLe(files[i], files[j]) && files[i] != files[j];
      StringLeIsLexicographic(files[i], files[j]);
    }
  }

  // ---------------------------------------------------------------- one run

  /** The files of `files` not yet recorded, in order. */
  function Pending(files: seq<string>, applied: set<string>): seq<string> {
    if files == [] then []
    else (if files[0] in applied then [] else [files[0]]) + Pending(files[1..], applied)
  }

  /** `log` and `applied` after the first `i` files, from what they were before the run. */
  ghost predicate Caught(log0: seq<string>, applied0: set<string>, log: seq<string>, applied: set<string>, files: seq<string>, i: nat) {
    && i <= |files|
    && log == log0 + Pending(files[..i], applied0)
    && forall f :: f in applied <==> f in applied0 || f in files[..i]
  }

  lemma CaughtOneMore(log0: seq<string>, applied0: set<string>, log: seq<string>, applied: set<string>, files: seq<string>, i: nat)
    requires Caught(log0, applied0, log, applied, files, i) && i < |files| && NoDup(files)
    ensures if files[i] in applied then Caught(log0, applied0, log, applied, files, i + 1)
            else Caught(log0, applied0, log + [files[i]], applied + {files[i]}, files, i + 1)
  {
    PendingSnoc(files, i, applied0);
    assert forall f :: f in files[..i + 1] <==> f in files[..i] || f == files[i] by {
      assert files[..i + 1] == files[..i] + [files[i]];
    }
    assert files[i] !in files[..i];
  }

  class Database {
    /** Files whose SQL is committed, in commit order, and the rows of schema_migrations. */
    var log: seq<string>
    var applied: set<string>

    constructor ()
      ensures log == [] && applied == {}
    {
      log, applied := [], {};
    }

    /** One transaction: the file's SQL and its version row, both or neither. */
    method ApplyMigration(name: string, runs: bool, commits: bool) returns (ok: bool)
      modifies this
      ensures ok <==> runs && commits && name !in old(applied)
      ensures log == if ok then old(log) + [name] else old(log)
      ensures applied == if ok then old(applied) + {name} else old(applied)
    {
      if !runs || name in applied || !commits {
        return false;
      }
      log, applied := log + [name], applied + {name};
      ok := true;
    }

    /** `cut` is the index of the file at which the run fails or is cut short, if any. */
    method RunMigrations(entries: seq<Entry>, cut: Option<nat>) returns (ok: bool)
      requires Listing(entries)
      modifies this
      ensures ok <==> !(cut.Some? && cut.value < |Files(entries)|)
      ensures var n := if ok then |Files(entries)| else cut.value;
        && log == old(log) + Pending(Files(entries)[..n], old(applied))
        && forall f :: f in applied <==> f in old(applied) || f in Files(entries)[..n]
    {
      FilesNoDup(entries);
      ok := ApplyPending(Files(entries), cut);
    }

    method ApplyPending(files: seq<string>, cut: Option<nat>) returns (ok: bool)
      requires NoDup(files)
      modifies this
      ensures ok <==> !(cut.Some? && cut.value < |files|)
      ensures Caught(old(log), old(applied), log, applied, files, if ok then |files| else cut.value)
    {
      assert files[..0] == [];
      for i := 0 to |files|
        invariant cut.Some? ==> i <= cut.value
        invariant Caught(old(log), old(applied), log, applied, files, i)
      {
        if cut == Some(i) {
          return false;
        }
        CaughtOneMore(old(log), old(applied), log, applied, files, i);
        if files[i] !in applied {
          var done := ApplyMigration(files[i], true, true);
        }
      }
      ok := true;
    }
  }

  lemma {:induction false} PendingConcat(a: seq<string>, b: seq<string>, applied: set<string>)
    ensures Pending(a + b, applied) == Pending(a, applied) + Pending(b, applied)
  {
    if a == [] {
      assert a + b == b;
    } else {
      assert (a + b)[1..] == a[1..] + b;
      PendingConcat(a[1..], b, applied);
    }
  }

  lemma PendingSnoc(files: seq<string>, i: nat, applied: set<string>)
    requires i < |files|
    ensures Pending(files[..i + 1], applied) ==
            Pending(files[..i], applied) + if files[i] in applied then [] else [files[i]]
  {
    assert files[..i + 1] == files[..i] + [files[i]];
    PendingConcat(files[..i], [files[i]], applied);
    assert [files[i]][1..] == [];
  }

  // ---------------------------------------------------------------- many runs at once

  datatype Phase =
    | Queued
    | Locked
    | At(i: nat)
    | Unapplied(i: nat)
    | Executed(i: nat)
    | Recorded(i: nat)
    | Releasing(ok: bool)
    | Done(ok: bool)
    | Crashed

  datatype Runner = Runner(files: seq<string>, phase: Phase)

  /** locking: whether runs take the advisory lock at all. */
  datatype State = State(
    log: seq<string>,
    applied: set<string>,
    holder: Option<nat>,
    runners: map<nat, Runner>,
    locking: bool)

  datatype Action =
    | Start(r: nat)
    | Lock(r: nat)
    | ReadDir(r: nat, entries: seq<Entry>)
    | Check(r: nat)
    | RunSql(r: nat)
    | Record(r: nat)
    | Commit(r: nat)
    | Fail(r: nat)
    | Unlock(r: nat)
    | Crash(r: nat)

  predicate Working(p: Phase) {
    p.Locked? || p.At? || p.Unapplied? || p.Executed? || p.Recorded? || p.Releasing?
  }

  /** An uncommitted insert of the same version by another transaction blocks this one. */
  ghost predicate Blocked(s: State, version: string, r: nat) {
    exists q :: q in s.runners && q != r && s.runners[q].phase.Recorded?
                && s.runners[q].phase.i < |s.runners[q].files|
                && s.runners[q].files[s.runners[q].phase.i] == version
  }

  ghost predicate Enabled(s: State, a: Action) {
    if a.Start? then a.r !in s.runners
    else
      && a.r in s.runners
      && var p, n := s.runners[a.r].phase, |s.runners[a.r].files|;
         match a
         case Lock(_) => p.Queued? && (s.locking ==> s.holder.None?)
         case ReadDir(_, entries) => p.Locked? && Listing(entries)
         case Check(_) => p.At? && p.i <= n
         case RunSql(_) => p.Unapplied?
         case Record(_) => p.Executed? && p.i < n && !Blocked(s, s.runners[a.r].files[p.i], a.r)
         case Commit(_) => p.Recorded? && p.i < n
         case Fail(_) => Working(p) && !p.Releasing?
         case Unlock(_) => p.Releasing?
         case Crash(_) => p.Queued? || Working(p)
         case Start(_) => false
  }

  function Freed(s: State, r: nat): Option<nat> {
    if s.holder == Some(r) then None else s.holder
  }

  function MovedTo(s: State, r: nat, p: Phase): State
    requires r in s.runners
  {
    s.(runners := s.runners[r := s.runners[r].(phase := p)])
  }

  /** Failing and crashing roll the open transaction back; a crash ends the session, which
      frees the lock. Inserting a version that is already there is a duplicate-key error. */
  ghost function Step(s: State, a: Action): State
    requires Enabled(s, a)
  {
    match a
    case Start(r) => s.(runners := s.runners[r := Runner([], Queued)])
    case Lock(r) => MovedTo(s, r, Locked).(holder := if s.locking then Some(r) else s.holder)
    case ReadDir(r, entries) => s.(runners := s.runners[r := Runner(Files(entries), At(0))])
    case Check(r) =>
      var i, files := s.runners[r].phase.i, s.runners[r].files;
      MovedTo(s, r, if i == |files| then Releasing(true) else if files[i] in s.applied then At(i + 1) else Unapplied(i))
    case RunSql(r) => MovedTo(s, r, Executed(s.runners[r].phase.i))
    case Record(r) =>
      var i, files := s.runners[r].phase.i, s.runners[r].files;
      MovedTo(s, r, if files[i] in s.applied then Releasing(false) else Recorded(i))
    case Commit(r) =>
      var i, files := s.runners[r].phase.i, s.runners[r].files;
      MovedTo(s, r, At(i + 1)).(log := s.log + [files[i]], applied := s.applied + {files[i]})
    case Fail(r) => MovedTo(s, r, Releasing(false))
    case Unlock(r) => MovedTo(s, r, Done(s.runners[r].phase.ok)).(holder := Freed(s, r))
    case Crash(r) => MovedTo(s, r, Crashed).(holder := Freed(s, r))
  }

  ghost predicate Runs(s: State, actions: seq<Action>)
    decreases |actions|
  {
    actions == [] || (Enabled(s, actions[0]) && Runs(Step(s, actions[0]), actions[1..]))
  }

  ghost function After(s: State, actions: seq<Action>): State
    requires Runs(s, actions)
    decreases |actions|
  {
    if actions == [] then s else After(Step(s, actions[0]), actions[1..])
  }

  ghost predicate Initial(s: State) {
    s.log == [] && s.applied == {} && s.holder == None && s.runners == map[]
  }

  // ---------------------------------------------------------------- exactly once, with or without the lock

  /** The file a runner is at. */
  ghost predicate Pointing(u: Runner) {
    match u.phase
    case At(i) => i <= |u.files|
    case Unapplied(i) => i < |u.files|
    case Executed(i) => i < |u.files|
    case Recorded(i) => i < |u.files|
    case _ => true
  }

  function Version(u: Runner): string {
    if (u.phase.Unapplied? || u.phase.Executed? || u.phase.Recorded?) && u.phase.i < |u.files| then u.files[u.phase.i] else ""
  }

  ghost predicate LogOk(s: State) {
    NoDup(s.log) && forall f :: f in s.log <==> f in s.applied
  }

  ghost predicate PointersOk(s: State) {
    forall r :: r in s.runners ==> Pointing(s.runners[r])
  }

  /** What is recorded in an open transaction is not committed. */
  ghost predicate RecordsOk(s: State) {
    forall r :: r in s.runners && s.runners[r].phase.Recorded? ==> Version(s.runners[r]) !in s.applied
  }

  /** No two open transactions have inserted the same version. */
  ghost predicate Exclusive(s: State) {
    forall q, r :: q in s.runners && r in s.runners && q != r && s.runners[q].phase.Recorded? ==>
      s.runners[r].phase.Recorded? ==> Version(s.runners[q]) != Version(s.runners[r])
  }

  ghost predicate OnceInv(s: State) {
    LogOk(s) && PointersOk(s) && RecordsOk(s) && Exclusive(s)
  }

  lemma StepKeepsLog(s: State, a: Action)
    requires OnceInv(s) && Enabled(s, a)
    ensures LogOk(Step(s, a))
  {
    if a.Commit? {
      assert Version(s.runners[a.r]) !in s.applied;
    }
  }

  lemma StepKeepsPointers(s: State, a: Action)
    requires PointersOk(s) && Enabled(s, a)
    ensures PointersOk(Step(s, a))
  {
  }

  lemma StepKeepsRecords(s: State, a: Action)
    requires OnceInv(s) && Enabled(s, a)
    ensures RecordsOk(Step(s, a))
  {
    var s' := Step(s, a);
    forall r | r in s'.runners && s'.runners[r].phase.Recorded?
      ensures Version(s'.runners[r]) !in s'.applied
    {
      if r != a.r {
        assert s'.runners[r] == s.runners[r] && Version(s.runners[r]) !in s.applied;
        assert a.Commit? ==> Version(s.runners[a.r]) != Version(s.runners[r]);
      }
    }
  }

  lemma StepKeepsExclusive(s: State, a: Action)
    requires OnceInv(s) && Enabled(s, a)
    ensures Exclusive(Step(s, a))
  {
  }

  lemma OnceStep(s: State, a: Action)
    requires OnceInv(s) && Enabled(s, a)
    ensures OnceInv(Step(s, a))
  {
    StepKeepsLog(s, a);
    StepKeepsPointers(s, a);
    StepKeepsRecords(s, a);
    StepKeepsExclusive(s, a);
  }

  lemma {:induction false} OnceRun(s: State, actions: seq<Action>)
    requires OnceInv(s) && Runs(s, actions)
    ensures OnceInv(After(s, actions))
    decreases |actions|
  {
    if actions != [] {
      OnceStep(s, actions[0]);
      OnceRun(Step(s, actions[0]), actions[1..]);
    }
  }

  /** Main result: with or without the lock, whatever directories the runners read, the files
      whose SQL is committed are those in schema_migrations, each committed once. */
  lemma CommittedExactlyOnce(s: State, actions: seq<Action>)
    requires Initial(s) && Runs(s, actions)
    ensures NoDup(After(s, actions).log)
    ensures forall f :: f in After(s, actions).log <==> f in After(s, actions).applied
  {
    OnceRun(s, actions);
  }

  // ---------------------------------------------------------------- in order, with or without the lock

  /** Every runner that has read the directory has found the files `files`. */
  ghost predicate ReadsOnly(files: seq<string>, actions: seq<Action>) {
    forall i :: 0 <= i < |actions| && actions[i].ReadDir? ==> Files(actions[i].entries) == files
  }

  ghost predicate HasRead(p: Phase) {
    p.At? || p.Unapplied? || p.Executed? || p.Recorded?
  }

  function Position(p: Phase): nat
    requires HasRead(p)
  {
    p.i
  }

  /** A runner has seen every file before its own applied, and all of them once it is done. */
  ghost predicate SeenOk(s: State, u: Runner, files: seq<string>) {
    && (HasRead(u.phase) ==>
          (u.files == files && Position(u.phase) <= |files| && forall k :: 0 <= k < Position(u.phase) ==> files[k] in s.applied))
    && (u.phase == Releasing(true) || u.phase == Done(true) ==>
          forall k :: 0 <= k < |files| ==> files[k] in s.applied)
  }

  ghost predicate OrderInv(s: State, files: seq<string>) {
    && NoDup(files) && s.log <= files
    && forall r :: r in s.runners ==> SeenOk(s, s.runners[r], files)
  }

  lemma BeyondTheLog(s: State, files: seq<string>, k: nat)
    requires LogOk(s) && NoDup(files) && s.log <= files && |s.log| <= k < |files|
    ensures files[k] !in s.applied
  {
    forall i | 0 <= i < |s.log|
      ensures s.log[i] != files[k]
    {
      assert s.log[i] == files[i];
    }
  }

  lemma InTheLog(s: State, files: seq<string>, k: nat)
    requires LogOk(s) && s.log <= files && k < |s.log|
    ensures files[k] in s.applied
  {
    assert s.log[k] in s.log;
  }

  /** The log is a prefix that has everything before `i` and not `i` itself: it ends there. */
  lemma LogEndsAt(s: State, files: seq<string>, i: nat)
    requires LogOk(s) && NoDup(files) && s.log <= files && i <= |files| && (i < |files| ==> files[i] !in s.applied)
    requires forall k :: 0 <= k < i ==> files[k] in s.applied
    ensures s.log == files[..i]
  {
    if |s.log| < i {
      BeyondTheLog(s, files, |s.log|);
    } else if i < |s.log| {
      InTheLog(s, files, i);
    }
  }

  lemma CommitKeepsOrder(s: State, a: Action, files: seq<string>)
    requires OnceInv(s) && OrderInv(s, files) && Enabled(s, a) && a.Commit?
    ensures Step(s, a).log <= files
  {
    var u := s.runners[a.r];
    assert SeenOk(s, u, files) && Version(u) !in s.applied;
    LogEndsAt(s, files, u.phase.i);
  }

  /** More committed files hide none that were seen. */
  lemma SeenStays(s: State, s': State, u: Runner, files: seq<string>)
    requires SeenOk(s, u, files) && s.applied <= s'.applied
    ensures SeenOk(s', u, files)
  {
  }

  lemma OwnStepSees(s: State, a: Action, files: seq<string>)
    requires Enabled(s, a) && a.r in Step(s, a).runners
    requires a.r in s.runners ==> SeenOk(s, s.runners[a.r], files)
    requires a.ReadDir? ==> Files(a.entries) == files
    ensures SeenOk(Step(s, a), Step(s, a).runners[a.r], files)
  {
  }

  lemma OrderStep(s: State, a: Action, files: seq<string>)
    requires OnceInv(s) && OrderInv(s, files) && Enabled(s, a)
    requires a.ReadDir? ==> Files(a.entries) == files
    ensures OrderInv(Step(s, a), files)
  {
    var s' := Step(s, a);
    if a.Commit? {
      CommitKeepsOrder(s, a, files);
    }
    forall r | r in s'.runners
      ensures SeenOk(s', s'.runners[r], files)
    {
      if r == a.r {
        OwnStepSees(s, a, files);
      } else {
        SeenStays(s, s', s.runners[r], files);
      }
    }
  }

  lemma {:induction false} OrderRun(s: State, actions: seq<Action>, files: seq<string>)
    requires OnceInv(s) && OrderInv(s, files) && Runs(s, actions) && ReadsOnly(files, actions)
    ensures OnceInv(After(s, actions)) && OrderInv(After(s, actions), files)
    decreases |actions|
  {
    if actions != [] {
      OnceStep(s, actions[0]);
      OrderStep(s, actions[0], files);
      assert forall i :: 0 <= i < |actions[1..]| ==> actions[1..][i] == actions[i + 1];
      OrderRun(Step(s, actions[0]), actions[1..], files);
    }
  }

  /** Main result: for a fixed directory the committed log is always a prefix of the sorted
      files, and all of them once any run has returned nil, however many runs were cut short
      before it. The lock plays no part. */
  lemma CommittedInOrder(s: State, actions: seq<Action>, entries: seq<Entry>)
    requires Initial(s) && Runs(s, actions) && Listing(entries) && ReadsOnly(Files(entries), actions)
    ensures var t := After(s, actions);
      && t.log <= Files(entries)
      && forall r :: r in t.runners && t.runners[r].phase == Done(true) ==> t.log == Files(entries)
  {
    FilesNoDup(entries);
    OrderRun(s, actions, Files(entries));
    var t := After(s, actions);
    forall r | r in t.runners && t.runners[r].phase == Done(true)
      ensures t.log == Files(entries)
    {
      assert SeenOk(t, t.runners[r], Files(entries));
      LogEndsAt(t, Files(entries), |Files(entries)|);
    }
  }

  /** Main result: once a run has returned nil, no further run changes anything, and the
      result is the log of one clean run on an empty database. */
  lemma FurtherRunsChangeNothing(s: State, actions: seq<Action>, more: seq<Action>, entries: seq<Entry>, r: nat)
    requires Initial(s) && Runs(s, actions) && Listing(entries) && ReadsOnly(Files(entries), actions)
    requires r in After(s, actions).runners && After(s, actions).runners[r].phase == Done(true)
    requires Runs(After(s, actions), more) && ReadsOnly(Files(entries), more)
    ensures After(After(s, actions), more).log == After(s, actions).log == Pending(Files(entries), {})
  {
    CommittedInOrder(s, actions, entries);
    FilesNoDup(entries);
    OrderRun(s, actions, Files(entries));
    GrowOnly(After(s, actions), more);
    OrderRun(After(s, actions), more, Files(entries));
    NothingApplied(Files(entries));
  }

  lemma {:induction false} NothingApplied(files: seq<string>)
    ensures Pending(files, {}) == files
  {
    if files != [] {
      NothingApplied(files[1..]);
    }
  }

  lemma {:induction false} GrowOnly(s: State, actions: seq<Action>)
    requires Runs(s, actions)
    ensures s.log <= After(s, actions).log
    decreases |actions|
  {
    if actions != [] {
      GrowOnly(Step(s, actions[0]), actions[1..]);
    }
  }

  // ---------------------------------------------------------------- what the lock buys

  /** A runner that is working holds the lock, nobody else does, and what it found unapplied still is. */
  ghost predicate LockInv(s: State) {
    && s.locking
    && (s.holder.Some? ==> s.holder.value in s.runners && Working(s.runners[s.holder.value].phase))
    && (forall r :: r in s.runners && Working(s.runners[r].phase) ==> s.holder == Some(r))
    && (forall r :: r in s.runners && (s.runners[r].phase.Unapplied? || s.runners[r].phase.Executed?) ==>
          Version(s.runners[r]) !in s.applied)
  }

  lemma LockStep(s: State, a: Action)
    requires OnceInv(s) && LockInv(s) && Enabled(s, a)
    ensures LockInv(Step(s, a))
  {
    var s' := Step(s, a);
    forall r | r in s'.runners
      ensures Working(s'.runners[r].phase) ==> s'.holder == Some(r)
      ensures s'.runners[r].phase.Unapplied? || s'.runners[r].phase.Executed? ==> Version(s'.runners[r]) !in s'.applied
    {
      if r in s.runners && r != a.r {
        assert s'.runners[r] == s.runners[r];
        assert a.r in s.runners && Working(s.runners[a.r].phase) ==> s.holder == Some(a.r);
      }
    }
  }

  lemma {:induction false} LockRun(s: State, actions: seq<Action>)
    requires OnceInv(s) && LockInv(s) && Runs(s, actions)
    ensures OnceInv(After(s, actions)) && LockInv(After(s, actions))
    decreases |actions|
  {
    if actions != [] {
      OnceStep(s, actions[0]);
      LockStep(s, actions[0]);
      LockRun(Step(s, actions[0]), actions[1..]);
    }
  }

  /** Main result: the lock is free whenever no run is at work: neither an error nor a crash keeps it. */
  lemma LockIsReleased(s: State, actions: seq<Action>)
    requires Initial(s) && s.locking && Runs(s, actions)
    ensures var t := After(s, actions);
      t.holder.None? <==> forall r :: r in t.runners ==> !Working(t.runners[r].phase)
  {
    LockRun(s, actions);
  }

  /** Main result: under the lock no two runners work at once, nobody waits for another
      transaction, and no insert into schema_migrations ever meets a duplicate. */
  lemma LockPreventsDuplicates(s: State, actions: seq<Action>, r: nat)
    requires Initial(s) && s.locking && Runs(s, actions) && r in After(s, actions).runners
    requires Working(After(s, actions).runners[r].phase)
    ensures var t := After(s, actions);
      && (forall q :: q in t.runners && q != r ==> !Working(t.runners[q].phase))
      && (t.runners[r].phase.Executed? ==> Version(t.runners[r]) !in t.applied && !Blocked(t, Version(t.runners[r]), r))
  {
    LockRun(s, actions);
  }

  // ---------------------------------------------------------------- a run that nothing disturbs

  lemma OneThen(s: State, a: Action, rest: seq<Action>)
    requires Enabled(s, a) && Runs(Step(s, a), rest)
    ensures Runs(s, [a] + rest) && After(s, [a] + rest) == After(Step(s, a), rest)
  {
    assert ([a] + rest)[1..] == rest;
  }

  /** Runner `r` is about to look at file `i` and no other runner has an open transaction. */
  ghost predicate Alone(s: State, r: nat, i: nat) {
    && r in s.runners && s.runners[r].phase == At(i) && i <= |s.runners[r].files|
    && NoDup(s.runners[r].files)
    && forall q :: q in s.runners && q != r ==> !s.runners[q].phase.Recorded?
  }

  /** The checks, statements and commits for one file. */
  ghost function FileSteps(s: State, r: nat, i: nat): seq<Action>
    requires Alone(s, r, i) && i < |s.runners[r].files|
  {
    [Check(r)] + if s.runners[r].files[i] in s.applied then [] else [RunSql(r)] + ([Record(r)] + ([Commit(r)] + []))
  }

  /** The state with file `i` done. */
  ghost function FileDone(s: State, r: nat, i: nat): State
    requires Alone(s, r, i) && i < |s.runners[r].files|
  {
    var f := s.runners[r].files[i];
    if f in s.applied then MovedTo(s, r, At(i + 1))
    else MovedTo(s, r, At(i + 1)).(log := s.log + [f], applied := s.applied + {f})
  }

  lemma SkippedFile(s: State, r: nat, i: nat)
    requires Alone(s, r, i) && i < |s.runners[r].files| && s.runners[r].files[i] in s.applied
    ensures Runs(s, [Check(r)] + []) && After(s, [Check(r)] + []) == FileDone(s, r, i)
  {
    OneThen(s, Check(r), []);
  }

  lemma AppliedFile(s: State, r: nat, i: nat)
    requires Alone(s, r, i) && i < |s.runners[r].files| && s.runners[r].files[i] !in s.applied
    ensures Enabled(s, Check(r)) && Step(s, Check(r)) == MovedTo(s, r, Unapplied(i))
    ensures Enabled(MovedTo(s, r, Unapplied(i)), RunSql(r))
    ensures Step(MovedTo(s, r, Unapplied(i)), RunSql(r)) == MovedTo(s, r, Executed(i))
  {
  }

  lemma RecordedFile(s: State, r: nat, i: nat)
    requires Alone(s, r, i) && i < |s.runners[r].files| && s.runners[r].files[i] !in s.applied
    ensures Enabled(MovedTo(s, r, Executed(i)), Record(r))
    ensures Step(MovedTo(s, r, Executed(i)), Record(r)) == MovedTo(s, r, Recorded(i))
    ensures Enabled(MovedTo(s, r, Recorded(i)), Commit(r))
    ensures Step(MovedTo(s, r, Recorded(i)), Commit(r)) == FileDone(s, r, i)
  {
    assert !Blocked(MovedTo(s, r, Executed(i)), s.runners[r].files[i], r);
  }

  lemma OneFile(s: State, r: nat, i: nat)
    requires Alone(s, r, i) && i < |s.runners[r].files|
    ensures Runs(s, FileSteps(s, r, i)) && After(s, FileSteps(s, r, i)) == FileDone(s, r, i)
  {
    if s.runners[r].files[i] in s.applied {
      SkippedFile(s, r, i);
    } else {
      AppliedFile(s, r, i);
      RecordedFile(s, r, i);
      var s1, s2, s3 := MovedTo(s, r, Unapplied(i)), MovedTo(s, r, Executed(i)), MovedTo(s, r, Recorded(i));
      OneThen(s3, Commit(r), []);
      OneThen(s2, Record(r), [Commit(r)] + []);
      OneThen(s1, RunSql(r), [Record(r)] + ([Commit(r)] + []));
      OneThen(s, Check(r), [RunSql(r)] + ([Record(r)] + ([Commit(r)] + [])));
    }
  }

  lemma {:induction false} RunsInSequence(s: State, a: seq<Action>, b: seq<Action>)
    requires Runs(s, a) && Runs(After(s, a), b)
    ensures Runs(s, a + b) && After(s, a + b) == After(After(s, a), b)
    decreases |a|
  {
    if a == [] {
      assert a + b == b;
    } else {
      RunsInSequence(Step(s, a[0]), a[1..], b);
      OneThen(s, a[0], a[1..] + b);
      assert a + b == [a[0]] + (a[1..] + b);
    }
  }

  lemma {:induction false} PendingIgnores(files: seq<string>, applied: set<string>, f: string)
    requires f !in files
    ensures Pending(files, applied + {f}) == Pending(files, applied)
  {
    if files != [] {
      assert files[0] in files && forall g :: g in files[1..] ==> g in files;
      PendingIgnores(files[1..], applied, f);
    }
  }

  lemma PendingFrom(files: seq<string>, i: nat, applied: set<string>)
    requires i < |files| && NoDup(files)
    ensures Pending(files[i..], applied) ==
      if files[i] in applied then Pending(files[i + 1..], applied)
      else [files[i]] + Pending(files[i + 1..], applied + {files[i]})
  {
    assert files[i..][1..] == files[i + 1..];
    assert files[i] !in files[i + 1..];
    PendingIgnores(files[i + 1..], applied, files[i]);
  }

  lemma NextFile(s: State, r: nat, i: nat)
    requires Alone(s, r, i) && i < |s.runners[r].files|
    ensures var t, files := FileDone(s, r, i), s.runners[r].files;
      && Alone(t, r, i + 1) && t.runners[r].files == files
      && t.log + Pending(files[i + 1..], t.applied) == s.log + Pending(files[i..], s.applied)
  {
    PendingFrom(s.runners[r].files, i, s.applied);
  }

  /** Runner `r` is past the last file and all that was pending from `i` on is committed. */
  ghost predicate Through(s: State, t: State, r: nat, i: nat)
    requires Alone(s, r, i)
  {
    && r in t.runners && t.runners[r] == s.runners[r].(phase := At(|s.runners[r].files|))
    && t.holder == s.holder
    && t.log == s.log + Pending(s.runners[r].files[i..], s.applied)
  }

  lemma {:induction false} RemainingFiles(s: State, r: nat, i: nat) returns (actions: seq<Action>)
    requires Alone(s, r, i)
    ensures Runs(s, actions) && Through(s, After(s, actions), r, i)
    decreases |s.runners[r].files| - i
  {
    var files := s.runners[r].files;
    if i == |files| {
      actions := [];
      assert Pending(files[i..], s.applied) == [];
    } else {
      OneFile(s, r, i);
      NextFile(s, r, i);
      var rest := RemainingFiles(FileDone(s, r, i), r, i + 1);
      actions := FileSteps(s, r, i) + rest;
      RunsInSequence(s, FileSteps(s, r, i), rest);
    }
  }

  /** Main result: left alone, a run goes through: it commits what was pending, as RunMigrations
      does, and returns nil. */
  lemma UndisturbedRunCompletes(s: State, r: nat, entries: seq<Entry>) returns (actions: seq<Action>)
    requires Listing(entries) && r !in s.runners && s.holder.None?
    requires forall q :: q in s.runners ==> !s.runners[q].phase.Recorded?
    ensures Runs(s, actions)
    ensures var t := After(s, actions);
      && r in t.runners && t.runners[r].phase == Done(true)
      && t.log == s.log + Pending(Files(entries), s.applied)
      && t.holder.None?
  {
    FilesNoDup(entries);
    var s1 := Step(s, Start(r));
    var s2 := Step(s1, Lock(r));
    var s3 := Step(s2, ReadDir(r, entries));
    var middle := RemainingFiles(s3, r, 0);
    assert Files(entries)[0..] == Files(entries);
    var t := After(s3, middle);
    var t1 := Step(t, Check(r));
    OneThen(t1, Unlock(r), []);
    OneThen(t, Check(r), [Unlock(r)] + []);
    var end := [Check(r)] + ([Unlock(r)] + []);
    RunsInSequence(s3, middle, end);
    OneThen(s2, ReadDir(r, entries), middle + end);
    OneThen(s1, Lock(r), [ReadDir(r, entries)] + (middle + end));
    OneThen(s, Start(r), [Lock(r)] + ([ReadDir(r, entries)] + (middle + end)));
    actions := [Start(r)] + ([Lock(r)] + ([ReadDir(r, entries)] + (middle + end)));
  }
}
