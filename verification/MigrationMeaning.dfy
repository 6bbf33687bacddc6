/** The lists keep their meaning: what vm/db.go reads back from the migrated join tables is
    what the comma-separated columns listed. */
module MigrationMeaning {
  import opened Wrappers
  import opened CommaList
  import opened Migration
  import opened MigrationCrash
  import opened Sifting

  datatype Error = VmIdEmpty | QueryFailed

  function Lower(id: string): string {
    if id == "" then ""
    else [if 'A' <= id[0] <= 'Z' then (id[0] as int + 32) as char else id[0]] + Lower(id[1..])
  }

  lemma {:induction false} LowerIs(id: string)
    ensures |Lower(id)| == |id|
    ensures forall i :: 0 <= i < |id| ==>
              Lower(id)[i] == if 'A' <= id[i] <= 'Z' then (id[i] as int - 'A' as int + 'a' as int) as char else id[i]
  {
    if id != "" {
      LowerIs(id[1..]);
    }
  }

  /** SQL LIKE folds ASCII case; ids hold no wildcard. */
  predicate LikeId(stored: string, pattern: string) {
    Lower(stored) == Lower(pattern)
  }

  /** Any answer to "rows of this VM ordered by position"; ties may come in any order. */
  ghost predicate Answers(rows: seq<JoinRow>, table: set<JoinRow>, vmId: string) {
    && (forall r :: r in rows <==> r in table && LikeId(r.vmId, vmId))
    && (forall i, j :: 0 <= i < j < |rows| ==> rows[i] != rows[j] && rows[i].position <= rows[j].position)
  }

  /** The ids of the rows whose object still exists, in order. */
  function Kept(rows: seq<JoinRow>, existing: set<string>): seq<string> {
    if rows == [] then []
    else (if rows[0].itemId in existing then [rows[0].itemId] else []) + Kept(rows[1..], existing)
  }

  lemma {:induction false} KeptAppend(rows: seq<JoinRow>, last: JoinRow, existing: set<string>)
    ensures Kept(rows + [last], existing) ==
            Kept(rows, existing) + if last.itemId in existing then [last.itemId] else []
  {
    if rows != [] {
      assert (rows + [last])[1..] == rows[1..] + [last];
      KeptAppend(rows[1..], last, existing);
    } else {
      assert (rows + [last])[1..] == [];
    }
  }

  /** The rows that could be scanned. */
  function Scanned(rows: seq<JoinRow>, lost: set<JoinRow>): (r: seq<JoinRow>)
    ensures lost == {} ==> r == rows
  {
    if rows == [] then []
    else
      var n := |rows| - 1;
      Scanned(rows[..n], lost) + if rows[n] in lost then [] else [rows[n]]
  }

  function ItemIds(rows: seq<JoinRow>): (ids: seq<string>)
    ensures |ids| == |rows| && forall i :: 0 <= i < |ids| ==> ids[i] == rows[i].itemId
  {
    seq(|rows|, i requires 0 <= i < |rows| => rows[i].itemId)
  }

  /** `ids` are the items of exactly the rows that can be scanned and whose object exists, in
      row order. */
  ghost predicate IsReading(rows: seq<JoinRow>, lost: set<JoinRow>, existing: set<string>, ids: seq<string>) {
    exists picked :: Sifted(rows, picked, (r: JoinRow) => r !in lost && r.itemId in existing) && ids == ItemIds(picked)
  }

  lemma {:induction false} KeptIsReading(rows: seq<JoinRow>, lost: set<JoinRow>, existing: set<string>)
    ensures IsReading(rows, lost, existing, Kept(Scanned(rows, lost), existing))
  {
    var picked := Picked(rows, lost, existing);
    assert Kept(Scanned(rows, lost), existing) == ItemIds(picked);
  }

  lemma {:induction false} Picked(rows: seq<JoinRow>, lost: set<JoinRow>, existing: set<string>)
    returns (picked: seq<JoinRow>)
    ensures Sifted(rows, picked, (r: JoinRow) => r !in lost && r.itemId in existing)
    ensures Kept(Scanned(rows, lost), existing) == ItemIds(picked)
  {
    var passes := (r: JoinRow) => r !in lost && r.itemId in existing;
    if rows == [] {
      picked := [];
      SiftedEmpty(passes);
    } else {
      var n := |rows| - 1;
      var front := Picked(rows[..n], lost, existing);
      SiftedSnoc(rows[..n], front, passes, rows[n]);
      assert rows == rows[..n] + [rows[n]];
      picked := front + if passes(rows[n]) then [rows[n]] else [];
      var scanned := Scanned(rows[..n], lost);
      if rows[n] in lost {
        assert Scanned(rows, lost) == scanned + [] == scanned;
        assert picked == front;
      } else {
        assert Scanned(rows, lost) == scanned + [rows[n]];
        KeptAppend(scanned, rows[n], existing);
      }
    }
  }

  /** getIsosForVM and getDisksForVM: `rows` is the database's answer, if there is one, and
      `lost` are the rows that cannot be scanned. Rows that cannot be scanned or looked up
      are skipped. */
  method GetListForVm(vmId: string, rows: Option<seq<JoinRow>>, lost: set<JoinRow>, existing: set<string>)
    returns (r: Result<seq<string>, Error>)
    ensures vmId == "" ==> r == Err(VmIdEmpty)
    ensures vmId != "" && rows.None? ==> r == Err(QueryFailed)
    ensures vmId != "" && rows.Some? ==> r == Ok(Kept(Scanned(rows.value, lost), existing))
    ensures vmId != "" && rows.Some? ==> r.Ok? && IsReading(rows.value, lost, existing, r.value)
  {
    if vmId == "" {
      return Err(VmIdEmpty);
    }
    if rows.None? {
      return Err(QueryFailed);
    }
    var answer, ids := rows.value, [];
    for i := 0 to |answer|
      invariant ids == Kept(Scanned(answer[..i], lost), existing)
    {
      assert answer[..i + 1][..i] == answer[..i];
      ghost var before := Scanned(answer[..i], lost);
      if answer[i] in lost {
        assert Scanned(answer[..i + 1], lost) == before + [] == before;
        continue;
      }
      assert Scanned(answer[..i + 1], lost) == before + [answer[i]];
      KeptAppend(Scanned(answer[..i], lost), answer[i], existing);
      if answer[i].itemId in existing {
        ids := ids + [answer[i].itemId];
      }
    }
    assert answer[..|answer|] == answer;
    KeptIsReading(answer, lost, existing);
    return Ok(ids);
  }

  /** The non-empty pieces that name existing objects, in order and with repetitions. */
  function Named(pieces: seq<string>, existing: set<string>): seq<string> {
    if pieces == [] then []
    else (if pieces[0] != "" && pieces[0] in existing then [pieces[0]] else []) + Named(pieces[1..], existing)
  }

  lemma {:induction false} NamedSnoc(pieces: seq<string>, last: string, existing: set<string>)
    ensures Named(pieces + [last], existing) ==
            Named(pieces, existing) + if last != "" && last in existing then [last] else []
  {
    if pieces != [] {
      assert (pieces + [last])[1..] == pieces[1..] + [last];
      NamedSnoc(pieces[1..], last, existing);
    } else {
      assert (pieces + [last])[1..] == [];
    }
  }

  /** All of them, as often as they are listed. */
  lemma {:induction false} NamedExactly(pieces: seq<string>, existing: set<string>)
    ensures Sifted(pieces, Named(pieces, existing), (p: string) => p != "" && p in existing)
  {
    var passes := (p: string) => p != "" && p in existing;
    if pieces == [] {
      SiftedEmpty(passes);
    } else {
      var n := |pieces| - 1;
      NamedExactly(pieces[..n], existing);
      SiftedSnoc(pieces[..n], Named(pieces[..n], existing), passes, pieces[n]);
      NamedSnoc(pieces[..n], pieces[n], existing);
      assert pieces == pieces[..n] + [pieces[n]];
    }
  }

  predicate Increasing(rows: seq<JoinRow>) {
    forall i, j :: 0 <= i < j < |rows| ==> rows[i].position < rows[j].position
  }

  lemma {:induction false} PieceRowsExactly(vmId: string, pieces: seq<string>, from: nat)
    ensures forall r :: r in PieceRows(vmId, pieces, from) <==>
              && r.vmId == vmId && from <= r.position < from + |pieces|
              && pieces[r.position - from] == r.itemId && r.itemId != ""
    ensures Increasing(PieceRows(vmId, pieces, from))
  {
    if pieces != [] {
      PieceRowsExactly(vmId, pieces[1..], from + 1);
      var rest := PieceRows(vmId, pieces[1..], from + 1);
      assert forall i :: 0 <= i < |rest| ==> rest[i] in rest;
    }
  }

  lemma {:induction false} KeptOfPieceRows(vmId: string, pieces: seq<string>, from: nat, existing: set<string>)
    ensures Kept(PieceRows(vmId, pieces, from), existing) == Named(pieces, existing)
  {
    if pieces != [] {
      KeptOfPieceRows(vmId, pieces[1..], from + 1, existing);
      var rest := PieceRows(vmId, pieces[1..], from + 1);
      if pieces[0] != "" {
        assert PieceRows(vmId, pieces, from) == [JoinRow(vmId, pieces[0], from)] + rest;
        assert PieceRows(vmId, pieces, from)[1..] == rest;
      } else {
        assert PieceRows(vmId, pieces, from) == rest;
      }
    }
  }

  lemma {:induction false} ListedRowsExactly(configs: seq<ConfigRow>, k: Kind, r: JoinRow)
    ensures r in ListedRows(configs, k) <==> exists i :: 0 <= i < |configs| && r in ConfigRows(configs[i], k)
  {
    if configs != [] {
      ListedRowsExactly(configs[1..], k, r);
      assert forall i :: 0 <= i < |configs| - 1 ==> configs[1..][i] == configs[i + 1];
      if r in ListedRows(configs[1..], k) {
        var i :| 0 <= i < |configs[1..]| && r in ConfigRows(configs[1..][i], k);
        assert r in ConfigRows(configs[i + 1], k);
      }
      if j :| 0 <= j < |configs| && r in ConfigRows(configs[j], k) && j > 0 {
        assert r in ConfigRows(configs[1..][j - 1], k);
      }
    }
  }

  /** A strictly ordered sequence is determined by its elements. */
  lemma {:induction false} SameElementsSameOrder(a: seq<JoinRow>, b: seq<JoinRow>)
    requires Increasing(a) && Increasing(b)
    requires forall r :: r in a <==> r in b
    ensures a == b
  {
    if a == [] {
      assert forall i :: 0 <= i < |b| ==> b[i] in b;
    } else {
      assert a[0] in a && a[0] in b;
      assert b[0] in b && b[0] in a;
      assert a[0] == b[0];
      forall r
        ensures r in a[1..] <==> r in b[1..]
      {
        assert r in a[1..] <==> r in a && r != a[0];
        assert r in b[1..] <==> r in b && r != b[0];
      }
      SameElementsSameOrder(a[1..], b[1..]);
      assert a == [a[0]] + a[1..] && b == [b[0]] + b[1..];
    }
  }

  /** One live configuration per VM, as far as LIKE can tell. */
  predicate OneConfigPerVm(configs: seq<ConfigRow>) {
    forall i, j | 0 <= i < |configs| && 0 <= j < |configs| && i != j && !configs[i].deleted && !configs[j].deleted ::
      !LikeId(configs[i].vmId, configs[j].vmId)
  }

  lemma RowsOfOneVm(configs: seq<ConfigRow>, k: Kind, c: nat, r: JoinRow)
    requires OneConfigPerVm(configs) && c < |configs| && !configs[c].deleted
    ensures r in ListedRows(configs, k) && LikeId(r.vmId, configs[c].vmId) <==>
            r in PieceRows(configs[c].vmId, Split(Text(configs[c], k)), 0)
  {
    ListedRowsExactly(configs, k, r);
    PieceRowsExactly(configs[c].vmId, Split(Text(configs[c], k)), 0);
    forall i | 0 <= i < |configs|
      ensures r in ConfigRows(configs[i], k) ==> r.vmId == configs[i].vmId && !configs[i].deleted
    {
      PieceRowsExactly(configs[i].vmId, Split(Text(configs[i], k)), 0);
    }
    if r in PieceRows(configs[c].vmId, Split(Text(configs[c], k)), 0) {
      assert r in ConfigRows(configs[c], k);
    }
  }

  /** Reading a VM's migrated list gives what the old column listed, for either kind. */
  lemma ListKept(db: Db, k: Kind, c: nat, rows: seq<JoinRow>, existing: set<string>)
    requires Honest(db) && db.Of(k).column && db.Of(k).table in {None, Some({})}
    requires OneConfigPerVm(db.configs) && c < |db.configs| && !db.configs[c].deleted
    requires Migrate(db).Of(k).table.Some? ==>
               Answers(rows, Migrate(db).Of(k).table.value, db.configs[c].vmId)
    ensures Migrate(db).Of(k).table.Some?
    ensures Kept(rows, existing) == Named(Split(Text(db.configs[c], k)), existing)
    ensures Sifted(Split(Text(db.configs[c], k)), Kept(rows, existing), (p: string) => p != "" && p in existing)
  {
    MigrateSettles(db);
    assert Meaning(db, k) == RowSet(db.configs, k);
    AnswerIsPieces(db.configs, k, c, rows);
    KeptOfPieceRows(db.configs[c].vmId, Split(Text(db.configs[c], k)), 0, existing);
    NamedExactly(Split(Text(db.configs[c], k)), existing);
  }

  /** What the reader gets from vm_isos is exactly the pieces of the old `is_os` column that
      are not empty and name existing objects, in order and as often as they were listed. */
  lemma MigrationKeepsIsos(db: Db, c: nat, rows: seq<JoinRow>, existing: set<string>)
    requires Honest(db) && db.iso.column && db.iso.table in {None, Some({})}
    requires OneConfigPerVm(db.configs) && c < |db.configs| && !db.configs[c].deleted
    requires Migrate(db).iso.table.Some? ==> Answers(rows, Migrate(db).iso.table.value, db.configs[c].vmId)
    ensures Migrate(db).iso.table.Some? && !Migrate(db).iso.column
    ensures Kept(rows, existing) == Named(Split(db.configs[c].isos), existing)
    ensures Sifted(Split(db.configs[c].isos), Kept(rows, existing), (p: string) => p != "" && p in existing)
  {
    assert db.Of(Iso) == db.iso && Migrate(db).Of(Iso) == Migrate(db).iso;
    ListKept(db, Iso, c, rows, existing);
    MigrateSettles(db);
  }

  /** And what it gets from vm_disks is those of the old `disks` column. */
  lemma MigrationKeepsDisks(db: Db, c: nat, rows: seq<JoinRow>, existing: set<string>)
    requires Honest(db) && db.disk.column && db.disk.table in {None, Some({})}
    requires OneConfigPerVm(db.configs) && c < |db.configs| && !db.configs[c].deleted
    requires Migrate(db).disk.table.Some? ==> Answers(rows, Migrate(db).disk.table.value, db.configs[c].vmId)
    ensures Migrate(db).disk.table.Some? && !Migrate(db).disk.column
    ensures Kept(rows, existing) == Named(Split(db.configs[c].disks), existing)
    ensures Sifted(Split(db.configs[c].disks), Kept(rows, existing), (p: string) => p != "" && p in existing)
  {
    assert db.Of(Disk) == db.disk && Migrate(db).Of(Disk) == Migrate(db).disk;
    ListKept(db, Disk, c, rows, existing);
    MigrateSettles(db);
  }

  /** Asked for one VM's rows among all those listed, the database gives that VM's pieces, in
      their order. */
  lemma AnswerIsPieces(configs: seq<ConfigRow>, k: Kind, c: nat, rows: seq<JoinRow>)
    requires OneConfigPerVm(configs) && c < |configs| && !configs[c].deleted
    requires Answers(rows, RowSet(configs, k), configs[c].vmId)
    ensures rows == PieceRows(configs[c].vmId, Split(Text(configs[c], k)), 0)
  {
    var expected := PieceRows(configs[c].vmId, Split(Text(configs[c], k)), 0);
    PieceRowsExactly(configs[c].vmId, Split(Text(configs[c], k)), 0);
    forall r
      ensures r in rows <==> r in expected
    {
      RowsOfOneVm(configs, k, c, r);
    }
    forall i, j | 0 <= i < j < |rows|
      ensures rows[i].position < rows[j].position
    {
      assert rows[i] in expected && rows[j] in expected;
    }
    SameElementsSameOrder(rows, expected);
  }

  /** The same after any number of start-ups that died half-way. */
  lemma CrashedMigrationKeepsIsos(db: Db, cuts: seq<nat>, c: nat, rows: seq<JoinRow>, existing: set<string>)
    requires Honest(db) && db.iso.column && db.iso.table in {None, Some({})}
    requires OneConfigPerVm(db.configs) && c < |db.configs| && !db.configs[c].deleted
    requires var end := Migrate(Crashing(db, cuts));
             end.iso.table.Some? ==> Answers(rows, end.iso.table.value, db.configs[c].vmId)
    ensures Migrate(Crashing(db, cuts)).iso.table.Some? && !Migrate(Crashing(db, cuts)).iso.column
    ensures Kept(rows, existing) == Named(Split(db.configs[c].isos), existing)
    ensures Sifted(Split(db.configs[c].isos), Kept(rows, existing), (p: string) => p != "" && p in existing)
  {
    CrashesConverge(db, cuts);
    MigrationKeepsIsos(db, c, rows, existing);
  }

  lemma CrashedMigrationKeepsDisks(db: Db, cuts: seq<nat>, c: nat, rows: seq<JoinRow>, existing: set<string>)
    requires Honest(db) && db.disk.column && db.disk.table in {None, Some({})}
    requires OneConfigPerVm(db.configs) && c < |db.configs| && !db.configs[c].deleted
    requires var end := Migrate(Crashing(db, cuts));
             end.disk.table.Some? ==> Answers(rows, end.disk.table.value, db.configs[c].vmId)
    ensures Migrate(Crashing(db, cuts)).disk.table.Some? && !Migrate(Crashing(db, cuts)).disk.column
    ensures Kept(rows, existing) == Named(Split(db.configs[c].disks), existing)
    ensures Sifted(Split(db.configs[c].disks), Kept(rows, existing), (p: string) => p != "" && p in existing)
  {
    CrashesConverge(db, cuts);
    MigrationKeepsDisks(db, c, rows, existing);
  }

  /** Row `r` is one of a live configuration's list. */
  predicate IsPieceOf(config: ConfigRow, list: string, r: JoinRow) {
    && !config.deleted && r.vmId == config.vmId && r.itemId != ""
    && r.position < |Split(list)| && Split(list)[r.position] == r.itemId
  }

  /** The rows of both tables afterwards: those that were there, and a row for each piece of
      each live configuration's list that is not empty, at the position of the piece. */
  lemma MigratedTables(db: Db, r: JoinRow)
    requires Honest(db)
    ensures Migrate(db).iso.table.Some? && Migrate(db).disk.table.Some?
    ensures !Migrate(db).iso.column && !Migrate(db).disk.column && Migrate(db).configs == db.configs
    ensures r in Migrate(db).iso.table.value <==>
            || (db.iso.table.Some? && r in db.iso.table.value)
            || (db.iso.column && exists c :: c in db.configs && IsPieceOf(c, c.isos, r))
    ensures r in Migrate(db).disk.table.value <==>
            || (db.disk.table.Some? && r in db.disk.table.value)
            || (db.disk.column && exists c :: c in db.configs && IsPieceOf(c, c.disks, r))
  {
    MigrateSettles(db);
    assert db.Of(Iso) == db.iso && db.Of(Disk) == db.disk;
    assert Migrate(db).Of(Iso) == Migrate(db).iso && Migrate(db).Of(Disk) == Migrate(db).disk;
    ListedExactly(db.configs, r);
  }

  /** The rows CopyLists inserts. */
  lemma ListedExactly(configs: seq<ConfigRow>, r: JoinRow)
    ensures r in ListedRows(configs, Iso) <==> exists c :: c in configs && IsPieceOf(c, c.isos, r)
    ensures r in ListedRows(configs, Disk) <==> exists c :: c in configs && IsPieceOf(c, c.disks, r)
  {
    ListedRowsExactly(configs, Iso, r);
    ListedRowsExactly(configs, Disk, r);
    forall i | 0 <= i < |configs|
      ensures r in ConfigRows(configs[i], Iso) <==> IsPieceOf(configs[i], configs[i].isos, r)
      ensures r in ConfigRows(configs[i], Disk) <==> IsPieceOf(configs[i], configs[i].disks, r)
    {
      PieceRowsExactly(configs[i].vmId, Split(configs[i].isos), 0);
      PieceRowsExactly(configs[i].vmId, Split(configs[i].disks), 0);
    }
  }

  /** The version that is on record afterwards. */
  lemma RecordedVersion(db: Db)
    ensures if db.SchemaVersion() < 2024063003 then Migrate(db).version == Some(2024062703)
            else FullPlan(db) == [] && Migrate(db) == db
  {
    assert PROGRAM[0..] == PROGRAM;
    if db.SchemaVersion() < LAST {
      PlanRecords(db, db.SchemaVersion(), 0);
    } else {
      NothingPlanned(db, db.SchemaVersion(), 0);
    }
  }

  /** The versions a start-up writes: those of the migrations that are newer than the recorded
      one, and 2024062703 for the last. */
  lemma WrittenVersions(db: Db, v: nat)
    ensures WriteVersion(v) in FullPlan(db) <==>
            || (v > db.SchemaVersion() &&
                v in {2024022401, 2024022402, 2024022403, 2024062701, 2024062702, 2024062703, 2024063001, 2024063002})
            || (v == 2024062703 && db.SchemaVersion() < 2024063003)
  {
    assert PROGRAM[0..] == PROGRAM;
    PlanWrites(db, db.SchemaVersion(), 0, v);
    WritersOf(db.SchemaVersion(), v);
  }

  /** The last migration writes less than its own number; all others write theirs. */
  lemma StepWrites(i: nat)
    requires i < |PROGRAM|
    ensures i < 8 ==> PROGRAM[i].gate == PROGRAM[i].writes
    ensures i < 8 ==>
              PROGRAM[i].writes in
              {2024022401, 2024022402, 2024022403, 2024062701, 2024062702, 2024062703, 2024063001, 2024063002}
    ensures i == 8 ==> PROGRAM[i].gate == 2024063003 && PROGRAM[i].writes == 2024062703
  {
  }

  lemma WritersOf(startVersion: nat, v: nat)
    ensures (exists j :: 0 <= j < |PROGRAM| && startVersion < PROGRAM[j].gate && PROGRAM[j].writes == v) <==>
            || (v > startVersion &&
                v in {2024022401, 2024022402, 2024022403, 2024062701, 2024062702, 2024062703, 2024063001, 2024063002})
            || (v == 2024062703 && startVersion < 2024063003)
  {
    forall j | 0 <= j < |PROGRAM|
      ensures j < 8 ==> PROGRAM[j].gate == PROGRAM[j].writes
    {
      StepWrites(j);
    }
    if j :| 0 <= j < |PROGRAM| && startVersion < PROGRAM[j].gate && PROGRAM[j].writes == v {
      StepWrites(j);
    }
    if v == 2024062703 && startVersion < 2024063003 {
      StepWrites(8);
    } else if v in {2024022401, 2024022402, 2024022403, 2024062701, 2024062702, 2024062703, 2024063001, 2024063002} {
      assert PROGRAM[StepNumbered(v)].writes == v;
    }
  }

  function StepNumbered(v: nat): (i: nat)
    requires v in {2024022401, 2024022402, 2024022403, 2024062701, 2024062702, 2024062703, 2024063001, 2024063002}
    ensures i < 8 && PROGRAM[i].writes == v
  {
    if v < 2024022404 then v - 2024022401 else if v < 2024062704 then v - 2024062698 else v - 2024062995
  }

  lemma {:induction false} PlanWrites(db: Db, startVersion: nat, i: nat, v: nat)
    requires i <= |PROGRAM|
    ensures WriteVersion(v) in Plan(db, startVersion, PROGRAM[i..]) <==>
            exists j :: i <= j < |PROGRAM| && startVersion < PROGRAM[j].gate && PROGRAM[j].writes == v
    decreases |PROGRAM| - i
  {
    if i < |PROGRAM| {
      var stmts := StepPlan(db, startVersion, PROGRAM[i]);
      assert PROGRAM[i..][1..] == PROGRAM[i + 1..] && PROGRAM[i..][0] == PROGRAM[i];
      PlanWrites(Run(db, stmts), startVersion, i + 1, v);
      BodyWritesNone(db, PROGRAM[i].goal, v);
      assert WriteVersion(v) in stmts <==> startVersion < PROGRAM[i].gate && PROGRAM[i].writes == v;
    }
  }

  lemma BodyWritesNone(db: Db, goal: Goal, v: nat)
    ensures WriteVersion(v) !in Body(db, goal)
  {
  }
}
