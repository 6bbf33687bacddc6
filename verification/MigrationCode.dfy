/** The migrations as db/migrate.go runs them: checks against the schema, loops over rows
    and pieces, one SQL statement at a time. `log` records the statements, so that "between
    any two statements" in MigrationCrash means between any two of these. */
module MigrationCode {
  import opened Wrappers
  import opened CommaList
  import opened Migration

  class Database {
    var version: Option<nat>
    var configs: seq<ConfigRow>
    var iso: Side
    var disk: Side
    ghost var log: seq<Stmt>

    constructor (db: Db)
      ensures State() == db && log == []
    {
      version, configs, iso, disk := db.version, db.configs, db.iso, db.disk;
      log := [];
    }

    function State(): Db
      reads this
    {
      Db(version, configs, iso, disk)
    }

    /** `this` got from `before` by the statements logged since `logged`. */
    ghost predicate Since(before: Db, logged: seq<Stmt>, stmts: seq<Stmt>)
      reads this
    {
      State() == Run(before, stmts) && log == logged + stmts
    }

    method Execute(stmt: Stmt)
      modifies this
      ensures State() == Apply(old(State()), stmt) && log == old(log) + [stmt]
    {
      match stmt {
        case CreateTable(Iso) => if iso.table.None? { iso := iso.(table := Some({})); }
        case CreateTable(Disk) => if disk.table.None? { disk := disk.(table := Some({})); }
        case Insert(Iso, row) => if iso.table.Some? { iso := iso.(table := Some(iso.table.value + {row})); }
        case Insert(Disk, row) => if disk.table.Some? { disk := disk.(table := Some(disk.table.value + {row})); }
        case DropColumn(Iso) => iso := iso.(column := false);
        case DropColumn(Disk) => disk := disk.(column := false);
        case DeleteVersion => version := None;
        case WriteVersion(v) => version := Some(v);
      }
      log := log + [stmt];
    }

    method SetSchemaVersion(v: nat)
      modifies this
      ensures Since(old(State()), old(log), [DeleteVersion, WriteVersion(v)])
    {
      ghost var before := State();
      Execute(DeleteVersion);
      Execute(WriteVersion(v));
      assert [DeleteVersion, WriteVersion(v)] == [DeleteVersion] + [WriteVersion(v)];
      RunConcat(before, [DeleteVersion], [WriteVersion(v)]);
    }

    method SelectLists(k: Kind) returns (result: seq<ConfigRow>)
      ensures ListedRows(result, k) == ListedRows(configs, k)
      ensures forall row :: row in result ==> Selected(row, k)
    {
      result := [];
      for i := 0 to |configs|
        invariant ListedRows(result, k) == ListedRows(configs[..i], k)
        invariant forall row :: row in result ==> Selected(row, k)
      {
        assert configs[..i + 1] == configs[..i] + [configs[i]];
        ListedAppend(configs[..i], configs[i], k);
        ListedAppend(result, configs[i], k);
        if !configs[i].deleted && Text(configs[i], k) != "" {
          result := result + [configs[i]];
        }
      }
      assert configs[..|configs|] == configs;
    }

    method InsertAll(k: Kind, rows: seq<JoinRow>)
      modifies this
      ensures Since(old(State()), old(log), Inserts(k, rows))
    {
      ghost var before := State();
      ghost var done: seq<Stmt> := [];
      for i := 0 to |rows|
        invariant |done| == i && forall j :: 0 <= j < i ==> done[j] == Insert(k, rows[j])
        invariant State() == Run(before, done) && log == old(log) + done
      {
        Execute(Insert(k, rows[i]));
        RunSnoc(before, done, Insert(k, rows[i]));
        done := done + [Insert(k, rows[i])];
      }
      assert done == Inserts(k, rows);
    }

    method CopyOne(k: Kind, row: ConfigRow, ghost before: Db, ghost logged: seq<Stmt>, ghost done: seq<Stmt>)
      requires Selected(row, k) && Since(before, logged, done)
      modifies this
      ensures Since(before, logged, done + Inserts(k, ConfigRows(row, k)))
    {
      var newRows := BuildRows(row.vmId, Split(Text(row, k)));
      ghost var midLog := log;
      InsertAll(k, newRows);
      Glue(before, logged, done, midLog, Inserts(k, newRows), State(), log);
    }

    method CopyLists(k: Kind)
      modifies this
      ensures Since(old(State()), old(log), Inserts(k, ListedRows(old(configs), k)))
    {
      ghost var before, logged := State(), log;
      var result := SelectLists(k);
      for i := 0 to |result|
        invariant Since(before, logged, Inserts(k, ListedRows(result[..i], k)))
      {
        assert result[i] in result;
        CopyOne(k, result[i], before, logged, Inserts(k, ListedRows(result[..i], k)));
        CopiedMore(k, result, i);
      }
      assert result[..|result|] == result;
    }

    /** One migration: gate, schema check, statements, new version. */
    method MigrateOne(startVersion: nat, step: Step)
      modifies this
      ensures Since(old(State()), old(log), StepPlan(old(State()), startVersion, step))
    {
      if startVersion < step.gate {
        ghost var before := State();
        match step.goal {
          case Earlier =>
          case HasTable(k) =>
            if State().Of(k).table.None? {
              Execute(CreateTable(k));
            }
          case Copied(k) =>
            if State().Of(k).column {
              CopyLists(k);
            }
          case ColumnGone(k) =>
            if State().Of(k).column {
              Execute(DropColumn(k));
            }
        }
        assert Since(before, old(log), Body(before, step.goal));
        SetSchemaVersion(step.writes);
        RunConcat(before, Body(before, step.goal), [DeleteVersion, WriteVersion(step.writes)]);
      }
    }

    method RunSteps(startVersion: nat, program: seq<Step>)
      modifies this
      ensures Since(old(State()), old(log), Plan(old(State()), startVersion, program))
      decreases |program|
    {
      if program != [] {
        ghost var before := State();
        MigrateOne(startVersion, program[0]);
        ghost var stmts := StepPlan(before, startVersion, program[0]);
        ghost var mid, midLog := State(), log;
        RunSteps(startVersion, program[1..]);
        Glue(before, old(log), stmts, midLog, Plan(mid, startVersion, program[1..]), State(), log);
      }
    }

    /** The version is read once, then the steps run in order. */
    method CustomMigrate()
      modifies this
      ensures log == old(log) + FullPlan(old(State()))
      ensures State() == Migrate(old(State()))
    {
      var startVersion := State().SchemaVersion();
      RunSteps(startVersion, PROGRAM);
    }
  }

  /** The loop over one list's pieces: `position` advances for empty pieces too. */
  method BuildRows(vmId: string, pieces: seq<string>) returns (newRows: seq<JoinRow>)
    ensures newRows == PieceRows(vmId, pieces, 0)
  {
    newRows := [];
    var position := 0;
    for i := 0 to |pieces|
      invariant position == i
      invariant newRows + PieceRows(vmId, pieces[i..], i) == PieceRows(vmId, pieces, 0)
    {
      ghost var later := PieceRows(vmId, pieces[i + 1..], i + 1);
      assert pieces[i..][1..] == pieces[i + 1..];
      assert newRows + ([JoinRow(vmId, pieces[i], i)] + later) == (newRows + [JoinRow(vmId, pieces[i], i)]) + later;
      if pieces[i] != "" {
        newRows := newRows + [JoinRow(vmId, pieces[i], position)];
      }
      position := position + 1;
    }
  }

  lemma Glue(before: Db, logged: seq<Stmt>, done: seq<Stmt>, midLog: seq<Stmt>, more: seq<Stmt>,
             end: Db, endLog: seq<Stmt>)
    requires midLog == logged + done && endLog == midLog + more
    requires end == Run(Run(before, done), more)
    ensures endLog == logged + (done + more) && end == Run(before, done + more)
  {
    RunConcat(before, done, more);
  }

  lemma CopiedMore(k: Kind, result: seq<ConfigRow>, i: nat)
    requires i < |result|
    ensures Inserts(k, ListedRows(result[..i + 1], k)) ==
            Inserts(k, ListedRows(result[..i], k)) + Inserts(k, ConfigRows(result[i], k))
  {
    assert result[..i + 1] == result[..i] + [result[i]];
    ListedAppend(result[..i], result[i], k);
  }

  lemma RunSnoc(db: Db, stmts: seq<Stmt>, last: Stmt)
    ensures Run(db, stmts + [last]) == Apply(Run(db, stmts), last)
  {
    RunConcat(db, stmts, [last]);
    assert Run(Run(db, stmts), [last]) == Run(Apply(Run(db, stmts), last), [last][1..]);
  }

  lemma {:induction false} ListedAppend(configs: seq<ConfigRow>, last: ConfigRow, k: Kind)
    ensures ListedRows(configs + [last], k) == ListedRows(configs, k) + ConfigRows(last, k)
  {
    if configs == [] {
      assert (configs + [last])[1..] == [];
    } else {
      ListedAppend(configs[1..], last, k);
      assert (configs + [last])[1..] == configs[1..] + [last];
      var first, middle := ConfigRows(configs[0], k), ListedRows(configs[1..], k);
      assert first + (middle + ConfigRows(last, k)) == (first + middle) + ConfigRows(last, k);
    }
  }
}
