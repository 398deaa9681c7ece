/** The migration runner: every file in order, each once, whoever else is running.

    A migration and its row in schema_migrations are committed together, and the row's primary key
    makes the second of two concurrent commits of one file fail. Runners may stop at any point.
 */
module Migrations {
  import opened Rooms

  type Name = string

  /** Committed state: the names recorded, and the migrations applied, in their order. */
  datatype Database = Database(versions: set<Name>, applied: seq<Name>)

  predicate Distinct(names: seq<Name>) {
    forall i, j | 0 <= i < j < |names| :: names[i] != names[j]
  }

  function SetOf(names: seq<Name>): set<Name> {
    set i | 0 <= i < |names| :: names[i]
  }

  /** The database stands at exactly the first k migrations, each applied once and in order. */
  predicate At(db: Database, names: seq<Name>, k: nat) {
    k <= |names| && db.versions == SetOf(names[..k]) && db.applied == names[..k]
  }

  /** COMMIT of a migration and its record; `None` is the primary-key violation, rolled back. */
  function Commit(db: Database, name: Name): Option<Database> {
    if name in db.versions then None else Some(Database(db.versions + {name}, db.applied + [name]))
  }

  lemma SetOfNext(names: seq<Name>, k: nat)
    requires k < |names|
    ensures SetOf(names[..k + 1]) == SetOf(names[..k]) + {names[k]}
  {
    forall n | n in SetOf(names[..k]) ensures n in SetOf(names[..k + 1]) {
      var i :| 0 <= i < k && names[..k][i] == n;
      assert names[..k + 1][i] == n;
    }
    assert names[..k + 1][k] == names[k];
  }

  lemma CommitNext(db: Database, names: seq<Name>, k: nat, name: Name)
    requires Distinct(names) && At(db, names, k) && k < |names| && name == names[k]
    ensures Commit(db, name).Some? && At(Commit(db, name).value, names, k + 1)
  {
    assert names[..k + 1] == names[..k] + [name];
    InPrefix(names, k, k);
    SetOfNext(names, k);
  }

  lemma InPrefix(names: seq<Name>, k: nat, i: nat)
    requires Distinct(names) && k <= |names| && i < |names|
    ensures names[i] in SetOf(names[..k]) <==> i < k
  {
    if i < k { assert names[..k][i] == names[i]; }
  }

  // ---------- one runner, undisturbed ----------

  /** The files not recorded yet, in their order. */
  function Missing(names: seq<Name>, versions: set<Name>): seq<Name> {
    if names == [] then []
    else Missing(names[..|names| - 1], versions) + if names[|names| - 1] in versions then [] else [names[|names| - 1]]
  }

  ghost predicate Precedes(names: seq<Name>, a: Name, b: Name) {
    exists i, j :: 0 <= i < j < |names| && names[i] == a && names[j] == b
  }

  /** Each once, in the order of the list. */
  ghost predicate Follow(some: seq<Name>, names: seq<Name>) {
    forall a, b | 0 <= a < b < |some| :: some[a] != some[b] && Precedes(names, some[a], some[b])
  }

  lemma PrecedesInMore(names: seq<Name>, a: Name, b: Name)
    requires names != [] && Precedes(names[..|names| - 1], a, b)
    ensures Precedes(names, a, b)
  {
    var less := names[..|names| - 1];
    var i, j :| 0 <= i < j < |less| && less[i] == a && less[j] == b;
    assert names[i] == a && names[j] == b;
  }

  /** The missing files are exactly those of the list that are not recorded, each once, in the list's order. */
  lemma {:induction false} MissingExactly(names: seq<Name>, versions: set<Name>)
    requires Distinct(names)
    ensures forall n :: n in Missing(names, versions) <==> n in names && n !in versions
    ensures Follow(Missing(names, versions), names)
  {
    if names != [] {
      var last := |names| - 1;
      var less, missing := Missing(names[..last], versions), Missing(names, versions);
      MissingExactly(names[..last], versions);
      assert names == names[..last] + [names[last]];
      forall a, b | 0 <= a < b < |missing|
        ensures missing[a] != missing[b] && Precedes(names, missing[a], missing[b])
      {
        if b < |less| {
          assert missing[a] == less[a] && missing[b] == less[b] && less[a] != less[b];
          PrecedesInMore(names, less[a], less[b]);
        } else {
          assert less[a] in names[..last];
          var i :| 0 <= i < last && names[..last][i] == less[a];
          assert names[i] == missing[a] && names[last] == missing[b];
        }
      }
    }
  }

  /** What a run that got through the first n files has made of the database. */
  predicate CaughtUp(before: Database, db: Database, names: seq<Name>, n: nat)
    requires n <= |names|
  {
    db == Database(before.versions + SetOf(names[..n]), before.applied + Missing(names[..n], before.versions))
  }

  lemma OneMore(before: Database, db: Database, names: seq<Name>, n: nat)
    requires Distinct(names) && n < |names| && CaughtUp(before, db, names, n)
    ensures names[n] in db.versions <==> names[n] in before.versions
    ensures names[n] in db.versions ==> CaughtUp(before, db, names, n + 1)
    ensures names[n] !in db.versions ==> CaughtUp(before, Commit(db, names[n]).value, names, n + 1)
  {
    InPrefix(names, n, n);
    SetOfNext(names, n);
    assert names[..n + 1][..n] == names[..n];
  }

  /** What was recorded stays; what is new was applied once, after what had been applied before, and in the
      order of the list. */
  ghost predicate Appended(before: Database, db: Database, names: seq<Name>) {
    && before.applied <= db.applied && before.versions <= db.versions
    && var added := db.applied[|before.applied|..];
       && (forall n :: n in added <==> n in db.versions && n !in before.versions)
       && Follow(added, names)
  }

  lemma PrecedesInAll(names: seq<Name>, n: nat, a: Name, b: Name)
    requires n <= |names| && Precedes(names[..n], a, b)
    ensures Precedes(names, a, b)
  {
    var i, j :| 0 <= i < j < n && names[..n][i] == a && names[..n][j] == b;
    assert names[i] == a && names[j] == b;
  }

  lemma CaughtUpAppends(before: Database, db: Database, names: seq<Name>, n: nat)
    requires Distinct(names) && n <= |names| && CaughtUp(before, db, names, n)
    ensures Appended(before, db, names)
  {
    MissingExactly(names[..n], before.versions);
    var added := db.applied[|before.applied|..];
    assert added == Missing(names[..n], before.versions);
    forall a, b | 0 <= a < b < |added|
      ensures added[a] != added[b] && Precedes(names, added[a], added[b])
    {
      PrecedesInAll(names, n, added[a], added[b]);
    }
  }

  class Store {
    var db: Database

    constructor ()
      ensures db == Database({}, [])
    {
      db := Database({}, []);
    }

    /** Migrate, from whatever is recorded: the missing files are applied in order and recorded. It
        stops before the first missing file that fails, and nothing is ever undone. */
    method Migrate(names: seq<Name>, fails: set<Name>) returns (ok: bool)
      requires Distinct(names)
      modifies this
      ensures ok ==> CaughtUp(old(db), db, names, |names|) && db.versions == old(db).versions + set n | n in names
      ensures Appended(old(db), db, names)
      ensures ok <==> forall n | n in names && n !in old(db).versions :: n !in fails
      ensures !ok ==> exists j | 0 <= j < |names| ::
                  && CaughtUp(old(db), db, names, j) && names[j] !in old(db).versions && names[j] in fails
                  && forall i | 0 <= i < j :: names[i] in old(db).versions || names[i] !in fails
    {
      for n := 0 to |names|
        invariant CaughtUp(old(db), db, names, n)
        invariant forall i | 0 <= i < n :: names[i] in old(db).versions || names[i] !in fails
      {
        var name := names[n];
        OneMore(old(db), db, names, n);
        if name in db.versions {
          continue;
        }
        if name in fails {
          CaughtUpAppends(old(db), db, names, n);
          return false;
        }
        db := Database(db.versions + {name}, db.applied + [name]);
      }
      CaughtUpAppends(old(db), db, names, |names|);
      assert names[..|names|] == names;
      return true;
    }
  }

  /** A database that stands at a prefix of the list is at the whole list once it has caught up. */
  lemma CatchingUpCompletesPrefix(before: Database, db: Database, names: seq<Name>, k: nat)
    requires Distinct(names) && At(before, names, k) && CaughtUp(before, db, names, |names|)
    ensures At(db, names, |names|)
  {
    MissingFrom(names, k, |names|, before.versions);
    assert names[..|names|] == names;
    forall n | n in SetOf(names[..k]) ensures n in SetOf(names) {
      var i :| 0 <= i < k && names[..k][i] == n;
      assert names[i] == n;
    }
    assert names[..k] + names[k..] == names;
  }

  lemma {:induction false} MissingFrom(names: seq<Name>, k: nat, n: nat, versions: set<Name>)
    requires Distinct(names) && k <= |names| && n <= |names| && versions == SetOf(names[..k])
    ensures Missing(names[..n], versions) == if n <= k then [] else names[k..n]
  {
    if n > 0 {
      MissingFrom(names, k, n - 1, versions);
      InPrefix(names, k, n - 1);
      assert names[..n][..n - 1] == names[..n - 1];
    }
  }

  // ---------- any number of runners ----------

  type RunnerId = nat

  /** A runner is about to check its next file, or has found it unrecorded and runs it. */
  datatype Runner = Checking(next: nat) | Applying(next: nat)

  datatype State = State(db: Database, runners: map<RunnerId, Runner>)

  /** A runner that fails or crashes simply makes no more steps; a transaction that does not commit
      leaves nothing behind. */
  datatype Step = Launch(r: RunnerId) | Check(r: RunnerId) | Apply(r: RunnerId)

  predicate Enabled(names: seq<Name>, s: State, step: Step) {
    match step
    case Launch(r) => r !in s.runners
    case Check(r) => r in s.runners && s.runners[r].Checking? && s.runners[r].next < |names|
    case Apply(r) =>
      r in s.runners && s.runners[r].Applying? && s.runners[r].next < |names|
      && Commit(s.db, names[s.runners[r].next]).Some?
  }

  function Next(names: seq<Name>, s: State, step: Step): State
    requires Enabled(names, s, step)
  {
    match step
    case Launch(r) => s.(runners := s.runners[r := Checking(0)])
    case Check(r) =>
      var n := s.runners[r].next;
      s.(runners := s.runners[r := if names[n] in s.db.versions then Checking(n + 1) else Applying(n)])
    case Apply(r) =>
      var n := s.runners[r].next;
      State(Commit(s.db, names[n]).value, s.runners[r := Checking(n + 1)])
  }

  /** Runs from any database, with no runner launched yet. */
  ghost predicate ValidRun(names: seq<Name>, db: Database, run: seq<Step>)
    decreases |run|, 0
  {
    run == [] || (ValidRun(names, db, run[..|run| - 1]) && Enabled(names, After(names, db, run[..|run| - 1]), run[|run| - 1]))
  }

  ghost function After(names: seq<Name>, db: Database, run: seq<Step>): State
    requires ValidRun(names, db, run)
    decreases |run|, 1
  {
    if run == [] then State(db, map[]) else Next(names, After(names, db, run[..|run| - 1]), run[|run| - 1])
  }

  /** The database stands at some prefix, and no runner is beyond it. */
  ghost predicate Inv(names: seq<Name>, s: State, k: nat) {
    At(s.db, names, k) && forall r | r in s.runners :: s.runners[r].next <= k
  }

  lemma StepInv(names: seq<Name>, s: State, step: Step, k: nat) returns (k': nat)
    requires Distinct(names) && Inv(names, s, k) && Enabled(names, s, step)
    ensures Inv(names, Next(names, s, step), k') && k <= k'
  {
    k' := k;
    match step {
      case Launch(_) =>
      case Check(r) => InPrefix(names, k, s.runners[r].next);
      case Apply(r) =>
        InPrefix(names, k, s.runners[r].next);
        CommitNext(s.db, names, k, names[k]);
        k' := k + 1;
    }
  }

  /** Exactly once and in order, from a database that stands at the first k0 files of the list: whatever
      runners do and wherever they stop, the recorded versions are a prefix of the list, at least as long,
      and the schema is that prefix applied once in order. A runner that has come to the end leaves the
      whole list behind it. */
  lemma {:induction false} MigrationsRunOnceInOrder(names: seq<Name>, db: Database, k0: nat, run: seq<Step>) returns (k: nat)
    requires Distinct(names) && At(db, names, k0) && ValidRun(names, db, run)
    ensures k0 <= k && Inv(names, After(names, db, run), k)
    ensures (exists r | r in After(names, db, run).runners :: After(names, db, run).runners[r].next == |names|) ==> k == |names|
  {
    if run == [] {
      k := k0;
    } else {
      k := MigrationsRunOnceInOrder(names, db, k0, run[..|run| - 1]);
      k := StepInv(names, After(names, db, run[..|run| - 1]), run[|run| - 1], k);
    }
  }
}
