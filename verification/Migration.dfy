/** The list-to-table schema migrations (db/migrate.go, 2024062701 to 2024063003) as
    sequences of SQL statements. Every statement is atomic, nothing around them is, and a
    crash may fall between any two. */
module Migration {
  import opened Wrappers
  import opened CommaList

  datatype Kind = Iso | Disk

  /** A row of `configs`: `isos` is the old `is_os` column, `disks` the old `disks` column. */
  datatype ConfigRow = ConfigRow(vmId: string, deleted: bool, isos: string, disks: string)

  datatype JoinRow = JoinRow(vmId: string, itemId: string, position: nat)

  /** The old column and the new join table (`vm_isos` or `vm_disks`) of one kind. */
  datatype Side = Side(column: bool, table: Option<set<JoinRow>>)

  datatype Db = Db(version: Option<nat>, configs: seq<ConfigRow>, iso: Side, disk: Side) {
    function Of(k: Kind): Side {
      if k == Iso then iso else disk
    }

    function With(k: Kind, side: Side): (r: Db)
      ensures r.version == version && r.configs == configs
      ensures r.Of(k) == side
      ensures forall other :: other != k ==> r.Of(other) == Of(other)
    {
      if k == Iso then this.(iso := side) else this.(disk := side)
    }

    /** `getSchemaVersion`: no row reads as zero. */
    function SchemaVersion(): nat {
      if version.Some? then version.value else 0
    }
  }

  datatype Stmt =
    | CreateTable(kind: Kind)
    | Insert(kind: Kind, row: JoinRow)
    | DropColumn(kind: Kind)
    | DeleteVersion
    | WriteVersion(v: nat)

  /** One statement. A repeated INSERT hits the primary key and its error is dropped. */
  function Apply(db: Db, stmt: Stmt): Db {
    match stmt
    case CreateTable(k) =>
      if db.Of(k).table.Some? then db else db.With(k, db.Of(k).(table := Some({})))
    case Insert(k, row) =>
      if db.Of(k).table.None? then db
      else db.With(k, db.Of(k).(table := Some(db.Of(k).table.value + {row})))
    case DropColumn(k) => db.With(k, db.Of(k).(column := false))
    case DeleteVersion => db.(version := None)
    case WriteVersion(v) => db.(version := Some(v))
  }

  function Run(db: Db, stmts: seq<Stmt>): Db
    decreases |stmts|
  {
    if stmts == [] then db else Run(Apply(db, stmts[0]), stmts[1..])
  }

  lemma {:induction false} RunConcat(db: Db, first: seq<Stmt>, second: seq<Stmt>)
    ensures Run(db, first + second) == Run(Run(db, first), second)
    decreases |first|
  {
    if first == [] {
      assert first + second == second;
    } else {
      assert (first + second)[1..] == first[1..] + second;
      RunConcat(Apply(db, first[0]), first[1..], second);
    }
  }

  function Text(row: ConfigRow, k: Kind): string {
    if k == Iso then row.isos else row.disks
  }

  predicate Selected(row: ConfigRow, k: Kind) {
    !row.deleted && Text(row, k) != ""
  }

  /** The join rows of one list: positions count every piece, empty pieces get no row. */
  function PieceRows(vmId: string, pieces: seq<string>, position: nat): seq<JoinRow> {
    if pieces == [] then []
    else (if pieces[0] != "" then [JoinRow(vmId, pieces[0], position)] else []) +
         PieceRows(vmId, pieces[1..], position + 1)
  }

  function ConfigRows(row: ConfigRow, k: Kind): seq<JoinRow> {
    if Selected(row, k) then PieceRows(row.vmId, Split(Text(row, k)), 0) else []
  }

  function ListedRows(configs: seq<ConfigRow>, k: Kind): seq<JoinRow> {
    if configs == [] then [] else ConfigRows(configs[0], k) + ListedRows(configs[1..], k)
  }

  function Inserts(k: Kind, rows: seq<JoinRow>): (stmts: seq<Stmt>)
    ensures |stmts| == |rows|
    ensures forall i :: 0 <= i < |rows| ==> stmts[i] == Insert(k, rows[i])
  {
    if rows == [] then [] else [Insert(k, rows[0])] + Inserts(k, rows[1..])
  }

  datatype Goal =
    | Earlier
    | HasTable(kind: Kind)
    | Copied(kind: Kind)
    | ColumnGone(kind: Kind)

  /** A migration runs when the version read at start-up is below `gate`, and ends by
      recording `writes`. */
  datatype Step = Step(gate: nat, writes: nat, goal: Goal)

  /** The first three are complete on any database this model starts from and only record
      their version; the last one records a number below its own. */
  const PROGRAM: seq<Step> := [
    Step(2024022401, 2024022401, Earlier),
    Step(2024022402, 2024022402, Earlier),
    Step(2024022403, 2024022403, Earlier),
    Step(2024062701, 2024062701, HasTable(Iso)),
    Step(2024062702, 2024062702, Copied(Iso)),
    Step(2024062703, 2024062703, ColumnGone(Iso)),
    Step(2024063001, 2024063001, HasTable(Disk)),
    Step(2024063002, 2024063002, Copied(Disk)),
    Step(2024063003, 2024062703, ColumnGone(Disk))
  ]

  function Body(db: Db, goal: Goal): seq<Stmt> {
    match goal
    case Earlier => []
    case HasTable(k) => if db.Of(k).table.None? then [CreateTable(k)] else []
    case Copied(k) => if db.Of(k).column then Inserts(k, ListedRows(db.configs, k)) else []
    case ColumnGone(k) => if db.Of(k).column then [DropColumn(k)] else []
  }

  function StepPlan(db: Db, startVersion: nat, step: Step): seq<Stmt> {
    if startVersion < step.gate then Body(db, step.goal) + [DeleteVersion, WriteVersion(step.writes)] else []
  }

  /** The statements `CustomMigrate` issues; the version is read once, before all of them. */
  function Plan(db: Db, startVersion: nat, program: seq<Step>): seq<Stmt>
    decreases |program|
  {
    if program == [] then []
    else
      var stmts := StepPlan(db, startVersion, program[0]);
      stmts + Plan(Run(db, stmts), startVersion, program[1..])
  }

  function FullPlan(db: Db): seq<Stmt> {
    Plan(db, db.SchemaVersion(), PROGRAM)
  }

  function Migrate(db: Db): Db {
    Run(db, FullPlan(db))
  }

  /** A start-up that dies after `cut` statements. */
  function AfterCrash(db: Db, cut: nat): Db {
    var plan := FullPlan(db);
    Run(db, if cut <= |plan| then plan[..cut] else plan)
  }

  /** Start-ups that each die somewhere. */
  function Crashing(db: Db, cuts: seq<nat>): Db
    decreases |cuts|
  {
    if cuts == [] then db else Crashing(AfterCrash(db, cuts[0]), cuts[1..])
  }
}
