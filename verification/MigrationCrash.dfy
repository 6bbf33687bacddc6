/** Crash convergence: however often start-up dies between two statements of the
    migrations, the first start-up that gets through leaves the database an undisturbed
    one would have left. */
module MigrationCrash {
  import opened Wrappers
  import opened Migration

  function RowSet(configs: seq<ConfigRow>, k: Kind): set<JoinRow> {
    set row | row in ListedRows(configs, k)
  }

  /** The rows the join table stands for: those already there, plus those the old column,
      while it exists, still lists. */
  function Meaning(db: Db, k: Kind): set<JoinRow> {
    (if db.Of(k).table.Some? then db.Of(k).table.value else {}) +
    (if db.Of(k).column then RowSet(db.configs, k) else {})
  }

  predicate Achieved(db: Db, goal: Goal) {
    match goal
    case Earlier => true
    case HasTable(k) => db.Of(k).table.Some?
    case Copied(k) =>
      db.Of(k).table.Some? && (db.Of(k).column ==> RowSet(db.configs, k) <= db.Of(k).table.value)
    case ColumnGone(k) => !db.Of(k).column
  }

  /** Everything gated at or below `v` has been done. */
  predicate DoneUpTo(db: Db, v: nat) {
    forall i :: 0 <= i < |PROGRAM| && PROGRAM[i].gate <= v ==> Achieved(db, PROGRAM[i].goal)
  }

  /** The recorded version never claims too much. Databases older than these migrations
      satisfy it, see OldDatabasesAreHonest. */
  predicate Honest(db: Db) {
    DoneUpTo(db, db.SchemaVersion())
  }

  lemma OldDatabasesAreHonest(db: Db)
    requires db.SchemaVersion() < 2024062701
    ensures Honest(db)
  {
  }

  /** A statement that neither loses a listed row nor makes the version overclaim. */
  predicate Sound(db: Db, stmt: Stmt) {
    match stmt
    case CreateTable(_) => true
    case Insert(k, row) => db.Of(k).table.Some? && db.Of(k).column && row in RowSet(db.configs, k)
    case DropColumn(k) => Achieved(db, Copied(k))
    case DeleteVersion => true
    case WriteVersion(v) => DoneUpTo(db, v)
  }

  predicate AllSound(db: Db, stmts: seq<Stmt>)
    decreases |stmts|
  {
    stmts == [] || (Sound(db, stmts[0]) && AllSound(Apply(db, stmts[0]), stmts[1..]))
  }

  lemma SoundStep(db: Db, stmt: Stmt)
    requires Sound(db, stmt)
    ensures forall k :: Meaning(Apply(db, stmt), k) == Meaning(db, k)
    ensures Apply(db, stmt).configs == db.configs
    ensures forall goal :: Achieved(db, goal) ==> Achieved(Apply(db, stmt), goal)
    ensures Honest(db) ==> Honest(Apply(db, stmt))
  {
    var t := Apply(db, stmt);
    forall k
      ensures Meaning(t, k) == Meaning(db, k)
    {
      match stmt {
        case DropColumn(d) => assert d != k ==> t.Of(k) == db.Of(k);
        case CreateTable(c) => assert c != k ==> t.Of(k) == db.Of(k);
        case Insert(n, _) => assert n != k ==> t.Of(k) == db.Of(k);
        case _ => assert t.Of(k) == db.Of(k);
      }
    }
  }

  /** Soundness carries over every prefix, which is where crashes stop. */
  lemma {:induction false} SoundPrefix(db: Db, stmts: seq<Stmt>, n: nat)
    requires AllSound(db, stmts) && n <= |stmts|
    ensures forall k :: Meaning(Run(db, stmts[..n]), k) == Meaning(db, k)
    ensures Run(db, stmts[..n]).configs == db.configs
    ensures forall goal :: Achieved(db, goal) ==> Achieved(Run(db, stmts[..n]), goal)
    ensures Honest(db) ==> Honest(Run(db, stmts[..n]))
    decreases |stmts|
  {
    if n > 0 {
      SoundStep(db, stmts[0]);
      SoundPrefix(Apply(db, stmts[0]), stmts[1..], n - 1);
      assert stmts[..n][1..] == stmts[1..][..n - 1];
    }
  }

  lemma SoundWhole(db: Db, stmts: seq<Stmt>)
    requires AllSound(db, stmts)
    ensures forall k :: Meaning(Run(db, stmts), k) == Meaning(db, k)
    ensures Run(db, stmts).configs == db.configs
    ensures forall goal :: Achieved(db, goal) ==> Achieved(Run(db, stmts), goal)
  {
    SoundPrefix(db, stmts, |stmts|);
    assert stmts[..|stmts|] == stmts;
  }

  lemma {:induction false} SoundConcat(db: Db, first: seq<Stmt>, second: seq<Stmt>)
    requires AllSound(db, first) && AllSound(Run(db, first), second)
    ensures AllSound(db, first + second)
    decreases |first|
  {
    if first == [] {
      assert first + second == second;
    } else {
      SoundConcat(Apply(db, first[0]), first[1..], second);
      assert (first + second)[1..] == first[1..] + second;
    }
  }

  lemma {:induction false} InsertsSound(db: Db, k: Kind, rows: seq<JoinRow>)
    requires db.Of(k).table.Some? && db.Of(k).column
    requires forall row :: row in rows ==> row in RowSet(db.configs, k)
    ensures AllSound(db, Inserts(k, rows))
    ensures Run(db, Inserts(k, rows)).Of(k).table.Some?
    ensures forall row :: row in rows || row in db.Of(k).table.value ==>
              row in Run(db, Inserts(k, rows)).Of(k).table.value
    decreases |rows|
  {
    if rows != [] {
      var t := Apply(db, Insert(k, rows[0]));
      InsertsSound(t, k, rows[1..]);
      assert Inserts(k, rows)[1..] == Inserts(k, rows[1..]);
    }
  }

  lemma BodySound(db: Db, i: nat)
    requires i < |PROGRAM|
    requires forall j :: 0 <= j < i ==> Achieved(db, PROGRAM[j].goal)
    ensures AllSound(db, Body(db, PROGRAM[i].goal))
    ensures Achieved(Run(db, Body(db, PROGRAM[i].goal)), PROGRAM[i].goal)
  {
    match PROGRAM[i].goal {
      case Copied(k) =>
        assert PROGRAM[i - 1].goal == HasTable(k);
        if db.Of(k).column {
          InsertsSound(db, k, ListedRows(db.configs, k));
          SoundWhole(db, Inserts(k, ListedRows(db.configs, k)));
        }
      case ColumnGone(k) =>
        assert PROGRAM[i - 1].goal == Copied(k);
      case _ =>
    }
  }

  lemma RunTwo(db: Db, a: Stmt, b: Stmt)
    ensures Run(db, [a, b]) == Apply(Apply(db, a), b)
  {
    assert [a, b][1..] == [b];
    assert Run(Apply(db, a), [b]) == Run(Apply(Apply(db, a), b), [b][1..]);
  }

  /** No migration records a version that covers a later one; 2024063003 records less than
      it could, which only makes a later start-up repeat work. */
  lemma GatesInOrder(i: nat, j: nat)
    requires i < |PROGRAM| && j < |PROGRAM| && PROGRAM[j].gate <= PROGRAM[i].writes
    ensures j <= i
  {
  }

  lemma StepSound(db: Db, startVersion: nat, i: nat)
    requires i < |PROGRAM| && DoneUpTo(db, startVersion)
    requires forall j :: 0 <= j < i ==> Achieved(db, PROGRAM[j].goal)
    ensures AllSound(db, StepPlan(db, startVersion, PROGRAM[i]))
    ensures Achieved(Run(db, StepPlan(db, startVersion, PROGRAM[i])), PROGRAM[i].goal)
  {
    if startVersion < PROGRAM[i].gate {
      var body := Body(db, PROGRAM[i].goal);
      BodySound(db, i);
      SoundWhole(db, body);
      var t := Run(db, body);
      var cleared := Apply(t, DeleteVersion);
      assert forall goal :: Achieved(cleared, goal) == Achieved(t, goal);
      forall j | 0 <= j < |PROGRAM| && PROGRAM[j].gate <= PROGRAM[i].writes
        ensures Achieved(cleared, PROGRAM[j].goal)
      {
        GatesInOrder(i, j);
      }
      var record := [DeleteVersion, WriteVersion(PROGRAM[i].writes)];
      assert record[1..] == [WriteVersion(PROGRAM[i].writes)];
      assert AllSound(cleared, record[1..]);
      SoundConcat(db, body, record);
      RunConcat(db, body, record);
      RunTwo(t, DeleteVersion, WriteVersion(PROGRAM[i].writes));
    }
  }

  lemma {:induction false} PlanSound(db: Db, startVersion: nat, i: nat)
    requires i <= |PROGRAM| && DoneUpTo(db, startVersion)
    requires forall j :: 0 <= j < i ==> Achieved(db, PROGRAM[j].goal)
    ensures AllSound(db, Plan(db, startVersion, PROGRAM[i..]))
    ensures forall j :: 0 <= j < |PROGRAM| ==>
              Achieved(Run(db, Plan(db, startVersion, PROGRAM[i..])), PROGRAM[j].goal)
    decreases |PROGRAM| - i
  {
    if i < |PROGRAM| {
      var stmts := StepPlan(db, startVersion, PROGRAM[i]);
      StepSound(db, startVersion, i);
      SoundWhole(db, stmts);
      var t := Run(db, stmts);
      PlanSound(t, startVersion, i + 1);
      var rest := Plan(t, startVersion, PROGRAM[i + 1..]);
      assert PROGRAM[i..][1..] == PROGRAM[i + 1..];
      SoundConcat(db, stmts, rest);
      RunConcat(db, stmts, rest);
    }
  }

  /** What an honest database migrates to: every listed row in its table, no old column. */
  predicate SettledFrom(db: Db, end: Db) {
    && end.configs == db.configs
    && forall k :: end.Of(k) == Side(false, Some(Meaning(db, k)))
  }

  lemma FullPlanSound(db: Db)
    requires Honest(db)
    ensures AllSound(db, FullPlan(db))
    ensures forall j :: 0 <= j < |PROGRAM| ==> Achieved(Migrate(db), PROGRAM[j].goal)
  {
    PlanSound(db, db.SchemaVersion(), 0);
    assert PROGRAM[0..] == PROGRAM;
  }

  lemma GoalsCoverBothSides(k: Kind)
    ensures exists j :: 0 <= j < |PROGRAM| && PROGRAM[j].goal == HasTable(k)
    ensures exists j :: 0 <= j < |PROGRAM| && PROGRAM[j].goal == ColumnGone(k)
  {
    assert PROGRAM[if k == Iso then 3 else 6].goal == HasTable(k);
    assert PROGRAM[if k == Iso then 5 else 8].goal == ColumnGone(k);
  }

  lemma MigrateSettles(db: Db)
    requires Honest(db)
    ensures SettledFrom(db, Migrate(db))
  {
    FullPlanSound(db);
    SoundWhole(db, FullPlan(db));
    forall k
      ensures Migrate(db).Of(k) == Side(false, Some(Meaning(db, k)))
    {
      SideSettles(Migrate(db), k);
    }
  }

  /** With every goal reached, a side is its meaning. */
  lemma SideSettles(end: Db, k: Kind)
    requires forall j :: 0 <= j < |PROGRAM| ==> Achieved(end, PROGRAM[j].goal)
    ensures end.Of(k) == Side(false, Some(Meaning(end, k)))
  {
    GoalsCoverBothSides(k);
    assert Achieved(end, HasTable(k)) && Achieved(end, ColumnGone(k));
    assert end.Of(k).table.value == Meaning(end, k);
  }

  lemma {:induction false} CrashesKeepMeaning(db: Db, cuts: seq<nat>)
    requires Honest(db)
    ensures Honest(Crashing(db, cuts)) && Crashing(db, cuts).configs == db.configs
    ensures forall k :: Meaning(Crashing(db, cuts), k) == Meaning(db, k)
    decreases |cuts|
  {
    if cuts != [] {
      CrashKeepsMeaning(db, cuts[0]);
      CrashesKeepMeaning(AfterCrash(db, cuts[0]), cuts[1..]);
    }
  }

  lemma CrashKeepsMeaning(db: Db, cut: nat)
    requires Honest(db)
    ensures Honest(AfterCrash(db, cut)) && AfterCrash(db, cut).configs == db.configs
    ensures forall k :: Meaning(AfterCrash(db, cut), k) == Meaning(db, k)
  {
    var plan := FullPlan(db);
    FullPlanSound(db);
    SoundPrefix(db, plan, if cut <= |plan| then cut else |plan|);
    assert plan[..|plan|] == plan;
  }

  /** The gate of the last migration; everything any migration records is below it. */
  const LAST: nat := 2024063003

  predicate WritesBelowLast(stmts: seq<Stmt>) {
    forall i :: 0 <= i < |stmts| && stmts[i].WriteVersion? ==> stmts[i].v < LAST
  }

  lemma {:induction false} VersionStaysBelowLast(db: Db, stmts: seq<Stmt>)
    requires db.SchemaVersion() < LAST && WritesBelowLast(stmts)
    ensures Run(db, stmts).SchemaVersion() < LAST
    decreases |stmts|
  {
    if stmts != [] {
      VersionStaysBelowLast(Apply(db, stmts[0]), stmts[1..]);
    }
  }

  lemma StepWritesBelowLast(db: Db, startVersion: nat, i: nat)
    requires i < |PROGRAM|
    ensures WritesBelowLast(StepPlan(db, startVersion, PROGRAM[i]))
  {
    assert PROGRAM[i].writes < LAST;
  }

  lemma {:induction false} PlanWritesBelowLast(db: Db, startVersion: nat, i: nat)
    requires i <= |PROGRAM|
    ensures WritesBelowLast(Plan(db, startVersion, PROGRAM[i..]))
    decreases |PROGRAM| - i
  {
    if i < |PROGRAM| {
      var stmts := StepPlan(db, startVersion, PROGRAM[i]);
      StepWritesBelowLast(db, startVersion, i);
      PlanWritesBelowLast(Run(db, stmts), startVersion, i + 1);
      assert PROGRAM[i..][1..] == PROGRAM[i + 1..];
    }
  }

  /** A start-up that runs the last migration ends with the version that one records. */
  lemma {:induction false} PlanRecords(db: Db, startVersion: nat, i: nat)
    requires i < |PROGRAM| && startVersion < LAST
    ensures Run(db, Plan(db, startVersion, PROGRAM[i..])).version == Some(2024062703)
    decreases |PROGRAM| - i
  {
    var stmts := StepPlan(db, startVersion, PROGRAM[i]);
    var t := Run(db, stmts);
    assert PROGRAM[i..][1..] == PROGRAM[i + 1..];
    RunConcat(db, stmts, Plan(t, startVersion, PROGRAM[i + 1..]));
    if i + 1 < |PROGRAM| {
      PlanRecords(t, startVersion, i + 1);
    } else {
      var body := Body(db, PROGRAM[i].goal);
      RunConcat(db, body, [DeleteVersion, WriteVersion(PROGRAM[i].writes)]);
      RunTwo(Run(db, body), DeleteVersion, WriteVersion(PROGRAM[i].writes));
      assert Run(t, []) == t;
    }
  }

  /** At or past the last gate nothing is left to do. */
  lemma {:induction false} NothingPlanned(db: Db, startVersion: nat, i: nat)
    requires i <= |PROGRAM| && startVersion >= LAST
    ensures Plan(db, startVersion, PROGRAM[i..]) == []
    decreases |PROGRAM| - i
  {
    if i < |PROGRAM| {
      assert PROGRAM[i].gate <= LAST;
      assert PROGRAM[i..][1..] == PROGRAM[i + 1..];
      NothingPlanned(Run(db, []), startVersion, i + 1);
    }
  }

  lemma {:induction false} CrashesBelowLast(db: Db, cuts: seq<nat>)
    ensures db.SchemaVersion() < LAST ==> Crashing(db, cuts).SchemaVersion() < LAST
    ensures db.SchemaVersion() >= LAST ==> Crashing(db, cuts) == db
    decreases |cuts|
  {
    if cuts != [] {
      var plan, cut := FullPlan(db), cuts[0];
      assert PROGRAM[0..] == PROGRAM;
      PlanWritesBelowLast(db, db.SchemaVersion(), 0);
      var done := if cut <= |plan| then plan[..cut] else plan;
      if db.SchemaVersion() < LAST {
        VersionStaysBelowLast(db, done);
      } else {
        NothingPlanned(db, db.SchemaVersion(), 0);
        assert done == [];
      }
      CrashesBelowLast(AfterCrash(db, cut), cuts[1..]);
    }
  }

  lemma VersionsConverge(db: Db, cuts: seq<nat>)
    ensures Migrate(Crashing(db, cuts)).version == Migrate(db).version
  {
    CrashesBelowLast(db, cuts);
    assert PROGRAM[0..] == PROGRAM;
    if db.SchemaVersion() < LAST {
      PlanRecords(db, db.SchemaVersion(), 0);
      PlanRecords(Crashing(db, cuts), Crashing(db, cuts).SchemaVersion(), 0);
    }
  }

  /** Any number of crashed start-ups, then one that completes, gives the database of one
      undisturbed start-up. */
  lemma CrashesConverge(db: Db, cuts: seq<nat>)
    requires Honest(db)
    ensures Migrate(Crashing(db, cuts)) == Migrate(db)
  {
    CrashesKeepMeaning(db, cuts);
    MigrateSettles(db);
    MigrateSettles(Crashing(db, cuts));
    VersionsConverge(db, cuts);
    assert forall k :: Migrate(Crashing(db, cuts)).Of(k) == Migrate(db).Of(k);
    assert Migrate(db).Of(Iso) == Migrate(db).iso && Migrate(db).Of(Disk) == Migrate(db).disk;
    assert Migrate(Crashing(db, cuts)).Of(Iso) == Migrate(Crashing(db, cuts)).iso;
    assert Migrate(Crashing(db, cuts)).Of(Disk) == Migrate(Crashing(db, cuts)).disk;
  }
}
