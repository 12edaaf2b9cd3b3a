/**
 The legacy migration: a tenant-scoped upsert of every configured table inside one transaction
 (operational_cycle_go/cmd/legacysync/main.go:234-353, 482-611, 850-879, 1265-1325).

 A database table is a map from merge key to row; INSERT .. ON CONFLICT is a map update; a
 transaction is a working copy that is kept or thrown away.
 */
module LegacyMigration {
  import opened Common
  import Rebind

  datatype Sql = Null | Int(n: int) | Text(s: string)

  type Columns = map<string, Sql>

  type Table = map<seq<Sql>, Columns>

  datatype Config = Config(
    target: string,
    source: string,
    keys: seq<string>,
    columnMap: map<string, string>,
    derived: map<string, Columns -> Sql>,
    skipCols: set<string>,
    preserve: bool)

  datatype SourceTable = SourceTable(columns: set<string>, rows: seq<Columns>)

  /** `defaults` is what the database puts into columns an insert leaves out. */
  datatype TargetTable = TargetTable(columns: seq<string>, pk: seq<string>, defaults: Columns, rows: Table)

  type Database = map<string, TargetTable>

  datatype Context = Context(company: int, adminUser: int, users: set<int>, menus: set<string>)

  // ---------------------------------------------------------------- one row

  function Get(row: Columns, col: string): Sql {
    if col in row then row[col] else Null
  }

  function Mapped(cfg: Config, col: string): string {
    if col in cfg.columnMap then cfg.columnMap[col] else col
  }

  /** The value a source row gives to a target column. */
  function CellValue(cfg: Config, company: int, row: Columns, col: string): Sql {
    if col == "company_id" then Int(company)
    else if col in cfg.derived then cfg.derived[col](row)
    else Get(row, Mapped(cfg, col))
  }

  predicate IsTarget(cfg: Config, source: set<string>, col: string) {
    col !in cfg.skipCols
    && (col == "company_id" || (Mapped(cfg, col) in source && Mapped(cfg, col) != "") || col in cfg.derived)
  }

  function TargetColumns(cfg: Config, source: set<string>, columns: seq<string>): seq<string> {
    if columns == [] then []
    else (if IsTarget(cfg, source, columns[0]) then [columns[0]] else []) + TargetColumns(cfg, source, columns[1..])
  }

  /** What syncTable works out before its row loop. */
  datatype Plan = Plan(
    ctx: Context, cfg: Config, keys: seq<string>, cols: seq<string>, scoped: bool, defaults: Columns)

  function PlanFor(ctx: Context, cfg: Config, src: SourceTable, dst: TargetTable): Plan {
    Plan(ctx, cfg, if cfg.keys == [] then dst.pk else cfg.keys,
         TargetColumns(cfg, src.columns, dst.columns), "company_id" in dst.columns, dst.defaults)
  }

  function KeyOf(p: Plan, row: Columns): seq<Sql> {
    seq(|p.keys|, i requires 0 <= i < |p.keys| => CellValue(p.cfg, p.ctx.company, row, p.keys[i]))
  }

  function Inserted(p: Plan, row: Columns): Columns {
    map c | c in p.cols :: CellValue(p.cfg, p.ctx.company, row, c)
  }

  /** The columns a conflict overwrites: Rebind.UpdateColumns, which leaves out keys and the company. */
  function Updated(p: Plan, row: Columns): Columns {
    map c | c in Rebind.UpdateColumns(p.cols, p.keys) :: CellValue(p.cfg, p.ctx.company, row, c)
  }

  function Trimmed(s: string): string {
    if s != "" && s[0] in {' ', '\t', '\n', '\r'} then Trimmed(s[1..])
    else if s != "" && s[|s| - 1] in {' ', '\t', '\n', '\r'} then Trimmed(s[..|s| - 1])
    else s
  }

  function RowText(row: Columns, col: string): string {
    match Get(row, col)
    case Null => ""
    case Text(s) => Trimmed(s)
    case Int(n) => if n < 0 then "-" + Rebind.Digits(-n) else Rebind.Digits(n)
  }

  function ParseDigits(s: string, acc: nat): Option<nat> {
    if s == "" then Some(acc)
    else if '0' <= s[0] <= '9' then ParseDigits(s[1..], 10 * acc + (s[0] as int - '0' as int))
    else None
  }

  function RowInt(row: Columns, col: string): Option<int> {
    match Get(row, col)
    case Null => None
    case Int(n) => Some(n)
    case Text(t) =>
      var s := Trimmed(t);
      var signed := s != "" && s[0] in {'-', '+'};
      var digits := if signed then s[1..] else s;
      if digits == "" then None
      else
        var value := ParseDigits(digits, 0);
        if value.None? then None
        else
          var n: int := value.value;
          Some(if signed && s[0] == '-' then -n else n)
  }

  function Lower(s: string): string {
    seq(|s|, i requires 0 <= i < |s| => if 'A' <= s[i] <= 'Z' then (s[i] as int + 32) as char else s[i])
  }

  /** Why a row is left out; empty when it is not. */
  function SkipReason(ctx: Context, cfg: Config, row: Columns): string {
    if cfg.target == "users" && Lower(RowText(row, "username")) == "admin" then "protected target admin"
    else if cfg.target != "user_menu_access" then ""
    else
      var user, menu := RowInt(row, "user_id"), RowText(row, "menu_key");
      if user.None? then "invalid user_id"
      else if user.value == ctx.adminUser then "protected target admin access"
      else if user.value !in ctx.users then "missing target user"
      else if menu == "" then "empty menu_key"
      else if menu !in ctx.menus then "menu not present in new version"
      else ""
  }

  predicate Skipped(p: Plan, row: Columns) {
    SkipReason(p.ctx, p.cfg, row) != ""
  }

  /** ensureCompanySafeConflict: the row that holds this key must belong to the selected company. */
  predicate SafeConflict(p: Plan, t: Table, key: seq<Sql>) {
    p.scoped ==> (key in t ==> Get(t[key], "company_id") == Int(p.ctx.company))
  }

  /**
   One iteration of the row loop; `rejected` is the database refusing the statement. Merge keys are taken
   as columns that cannot be null, so in a table without companies the statement itself fails on a null key.
   */
  function StepRow(p: Plan, t: Table, row: Columns, rejected: bool): Result<Table> {
    var key := KeyOf(p, row);
    if Skipped(p, row) then Ok(t)
    else if Null in key then Err(if p.scoped then "merge key is NULL" else "statement failed")
    else if !SafeConflict(p, t, key) then Err("merge key belongs to another company")
    else if rejected then Err("statement failed")
    else if key in t then Ok(t[key := t[key] + Updated(p, row)])
    else Ok(t[key := p.defaults + Inserted(p, row)])
  }

  // ---------------------------------------------------------------- one table

  function SyncRows(p: Plan, t: Table, rows: seq<Columns>, rejected: set<nat>): Result<Table> {
    if rows == [] then Ok(t)
    else
      var n := |rows| - 1;
      var before := SyncRows(p, t, rows[..n], rejected);
      if before.Err? then before else StepRow(p, before.value, rows[n], n in rejected)
  }

  function SyncTable(ctx: Context, cfg: Config, src: SourceTable, dst: TargetTable, rejected: set<nat>): Result<Table> {
    var p := PlanFor(ctx, cfg, src, dst);
    if p.keys == [] then Err("table has no merge key")
    else if cfg.preserve || src.rows == [] || p.cols == [] then Ok(dst.rows)
    else SyncRows(p, dst.rows, src.rows, rejected)
  }

  function CountSkipped(p: Plan, rows: seq<Columns>): nat {
    if rows == [] then 0
    else CountSkipped(p, rows[..|rows| - 1]) + if Skipped(p, rows[|rows| - 1]) then 1 else 0
  }

  /** The row loop with its counters of upserted and skipped rows. */
  method UpsertRows(p: Plan, start: Table, rows: seq<Columns>, rejected: set<nat>)
    returns (res: Result<Table>, upserted: nat, skipped: nat)
    ensures res == SyncRows(p, start, rows, rejected)
    ensures res.Ok? ==> skipped == CountSkipped(p, rows) && upserted + skipped == |rows|
  {
    var t := start;
    upserted, skipped := 0, 0;
    for i := 0 to |rows|
      invariant SyncRows(p, start, rows[..i], rejected) == Ok(t)
      invariant upserted + skipped == i && skipped == CountSkipped(p, rows[..i])
    {
      assert rows[..i + 1][..i] == rows[..i];
      if SkipReason(p.ctx, p.cfg, rows[i]) != "" {
        skipped := skipped + 1;
      } else {
        res := StepRow(p, t, rows[i], i in rejected);
        if res.Err? {
          ErrorSticks(p, start, rows, rejected, i + 1);
          return;
        }
        t := res.value;
        upserted := upserted + 1;
      }
    }
    assert rows[..|rows|] == rows;
    res := Ok(t);
  }

  /** syncTable with its report: every processed row is either upserted or skipped. */
  method SyncTableReport(ctx: Context, cfg: Config, src: SourceTable, dst: TargetTable, rejected: set<nat>)
    returns (res: Result<Table>, processed: nat, upserted: nat, skipped: nat)
    ensures res == SyncTable(ctx, cfg, src, dst, rejected)
    ensures res.Ok? ==> processed == |src.rows| && upserted <= processed
    ensures res.Ok? && PlanFor(ctx, cfg, src, dst).cols != [] ==> processed == upserted + skipped
    ensures res.Ok? && upserted > 0 ==> !cfg.preserve && skipped == CountSkipped(PlanFor(ctx, cfg, src, dst), src.rows)
  {
    var p := PlanFor(ctx, cfg, src, dst);
    processed, upserted, skipped := 0, 0, 0;
    if p.keys == [] {
      res := Err("table has no merge key");
      return;
    }
    processed := |src.rows|;
    if cfg.preserve {
      skipped := |src.rows|;
      res := Ok(dst.rows);
      return;
    }
    if src.rows == [] || p.cols == [] {
      res := Ok(dst.rows);
      return;
    }
    res, upserted, skipped := UpsertRows(p, dst.rows, src.rows, rejected);
  }

  lemma {:induction false} ErrorSticks(p: Plan, t: Table, rows: seq<Columns>, rejected: set<nat>, i: nat)
    requires i <= |rows| && SyncRows(p, t, rows[..i], rejected).Err?
    ensures SyncRows(p, t, rows, rejected) == SyncRows(p, t, rows[..i], rejected)
  {
    if i == |rows| {
      assert rows[..i] == rows;
    } else {
      var n := |rows| - 1;
      assert rows[..n][..i] == rows[..i];
      ErrorSticks(p, t, rows[..n], rejected, i);
    }
  }

  // ---------------------------------------------------------------- what a synced table holds

  /** The last row that is not skipped and has the given key. */
  function LastFor(p: Plan, rows: seq<Columns>, key: seq<Sql>): Option<Columns> {
    if rows == [] then None
    else
      var n := |rows| - 1;
      if !Skipped(p, rows[n]) && KeyOf(p, rows[n]) == key then Some(rows[n]) else LastFor(p, rows[..n], key)
  }

  function FirstFor(p: Plan, rows: seq<Columns>, key: seq<Sql>): Option<Columns> {
    if rows == [] then None
    else
      var n := |rows| - 1;
      var earlier := FirstFor(p, rows[..n], key);
      if earlier.Some? then earlier
      else if !Skipped(p, rows[n]) && KeyOf(p, rows[n]) == key then Some(rows[n])
      else None
  }

  lemma {:induction false} FirstIffLast(p: Plan, rows: seq<Columns>, key: seq<Sql>)
    ensures FirstFor(p, rows, key).Some? <==> LastFor(p, rows, key).Some?
  {
    if rows != [] {
      FirstIffLast(p, rows[..|rows| - 1], key);
    }
  }

  /** The row as it stood when the first source row for its key arrived. */
  function BaseRow(p: Plan, t: Table, rows: seq<Columns>, key: seq<Sql>): Columns {
    if key in t then t[key]
    else
      var first := FirstFor(p, rows, key);
      if first.Some? then p.defaults + Inserted(p, first.value) else map[]
  }

  lemma UpdateOverwrites(p: Plan, base: Columns, before: Columns, after: Columns)
    ensures base + Updated(p, before) + Updated(p, after) == base + Updated(p, after)
    ensures p.defaults + Inserted(p, after) + Updated(p, after) == p.defaults + Inserted(p, after)
  {
    forall c | c in Updated(p, after) ensures c in Inserted(p, after) {
      Rebind.UpdateColumnsAreColumns(p.cols, p.keys, c);
    }
  }

  /** In table u the key holds its base row under the last source row for it, or what t held. */
  predicate HoldsLast(p: Plan, t: Table, rows: seq<Columns>, u: Table, key: seq<Sql>) {
    var last := LastFor(p, rows, key);
    if last.Some? then key in u && u[key] == BaseRow(p, t, rows, key) + Updated(p, last.value)
    else (key in u <==> key in t) && (key in t ==> u[key] == t[key])
  }

  lemma OneMoreRow(p: Plan, t: Table, rows: seq<Columns>, u: Table, rejected: bool, key: seq<Sql>)
    requires rows != [] && HoldsLast(p, t, rows[..|rows| - 1], u, key)
    requires StepRow(p, u, rows[|rows| - 1], rejected).Ok?
    ensures HoldsLast(p, t, rows, StepRow(p, u, rows[|rows| - 1], rejected).value, key)
  {
    var n := |rows| - 1;
    var before := LastFor(p, rows[..n], key);
    FirstIffLast(p, rows[..n], key);
    UpdateOverwrites(p, BaseRow(p, t, rows[..n], key), if before.Some? then before.value else rows[n], rows[n]);
  }

  /** Key by key, the outcome of a table sync: the base row under the last source row for that key. */
  lemma {:induction false} SyncedRow(p: Plan, t: Table, rows: seq<Columns>, rejected: set<nat>, key: seq<Sql>)
    requires SyncRows(p, t, rows, rejected).Ok?
    ensures HoldsLast(p, t, rows, SyncRows(p, t, rows, rejected).value, key)
  {
    if rows != [] {
      var n := |rows| - 1;
      SyncedRow(p, t, rows[..n], rejected, key);
      OneMoreRow(p, t, rows, SyncRows(p, t, rows[..n], rejected).value, n in rejected, key);
    }
  }

  lemma UpdateKeepsCompany(p: Plan, row: Columns)
    ensures "company_id" !in Updated(p, row)
  {
    Rebind.UpdateColumnsAreColumns(p.cols, p.keys, "company_id");
  }

  /** The configuration inserts the company and every merge key. */
  predicate SoundPlan(p: Plan) {
    p.scoped ==> "company_id" in p.cols
  }

  predicate Foreign(p: Plan, row: Columns) {
    Get(row, "company_id") != Int(p.ctx.company)
  }

  /** In a company-scoped table the rows of all other companies are exactly what they were. */
  lemma {:induction false} ForeignRowsUntouched(p: Plan, t: Table, rows: seq<Columns>, rejected: set<nat>,
      key: seq<Sql>)
    requires SyncRows(p, t, rows, rejected).Ok? && p.scoped && SoundPlan(p)
    ensures var u := SyncRows(p, t, rows, rejected).value;
            && (key in t && Foreign(p, t[key]) ==> key in u && u[key] == t[key])
            && (key in u && Foreign(p, u[key]) ==> key in t && u[key] == t[key])
  {
    if rows != [] {
      var n := |rows| - 1;
      ForeignRowsUntouched(p, t, rows[..n], rejected, key);
      UpdateKeepsCompany(p, rows[n]);
      assert (p.defaults + Inserted(p, rows[n]))["company_id"] == Int(p.ctx.company);
    }
  }

  /** Every source row that is not skipped has its key in the table afterwards, with its company. */
  lemma {:induction false} SourceKeysArrive(p: Plan, t: Table, rows: seq<Columns>, rejected: set<nat>, i: nat)
    requires SyncRows(p, t, rows, rejected).Ok? && SoundPlan(p)
    requires i < |rows| && !Skipped(p, rows[i])
    ensures var u, key := SyncRows(p, t, rows, rejected).value, KeyOf(p, rows[i]);
            key in u && Null !in key && (p.scoped ==> !Foreign(p, u[key]))
  {
    var n := |rows| - 1;
    if i < n {
      SourceKeysArrive(p, t, rows[..n], rejected, i);
      assert rows[..n][i] == rows[i];
    }
    UpdateKeepsCompany(p, rows[n]);
  }

  /** Once done, any part of the sync can be done again without failing and without changing its outcome. */
  lemma {:induction false} RerunPrefix(p: Plan, t: Table, rows: seq<Columns>, rejected: set<nat>, m: nat)
    requires SyncRows(p, t, rows, rejected).Ok? && SoundPlan(p) && m <= |rows|
    ensures SyncRows(p, SyncRows(p, t, rows, rejected).value, rows[..m], {}).Ok?
  {
    var u := SyncRows(p, t, rows, rejected).value;
    if m > 0 {
      assert rows[..m][..m - 1] == rows[..m - 1];
      RerunPrefix(p, t, rows, rejected, m - 1);
      if !Skipped(p, rows[m - 1]) {
        var key := KeyOf(p, rows[m - 1]);
        SourceKeysArrive(p, t, rows, rejected, m - 1);
        SyncedRow(p, u, rows[..m - 1], {}, key);
        var last := LastFor(p, rows[..m - 1], key);
        if last.Some? {
          UpdateKeepsCompany(p, last.value);
        }
      }
    }
  }

  /** Running a table sync again, with nothing rejected, gives the same table. */
  lemma SyncIdempotent(p: Plan, t: Table, rows: seq<Columns>, rejected: set<nat>)
    requires SyncRows(p, t, rows, rejected).Ok? && SoundPlan(p)
    ensures SyncRows(p, SyncRows(p, t, rows, rejected).value, rows, {}) == SyncRows(p, t, rows, rejected)
  {
    var u := SyncRows(p, t, rows, rejected).value;
    RerunPrefix(p, t, rows, rejected, |rows|);
    assert rows[..|rows|] == rows;
    var again := SyncRows(p, u, rows, {}).value;
    forall key ensures (key in again <==> key in u) && (key in u ==> again[key] == u[key]) {
      SyncedRow(p, t, rows, rejected, key);
      SyncedRow(p, u, rows, {}, key);
      var last := LastFor(p, rows, key);
      if last.Some? {
        UpdateOverwrites(p, BaseRow(p, t, rows, key), last.value, last.value);
      }
    }
    assert again == u;
  }

  // ---------------------------------------------------------------- the whole run

  /** Statements the database refuses, by table and row. */
  type Rejections = map<string, set<nat>>

  function RejectedIn(rejections: Rejections, table: string): set<nat> {
    if table in rejections then rejections[table] else {}
  }

  predicate Applies(db: Database, source: map<string, SourceTable>, cfg: Config) {
    cfg.source in source && cfg.target in db
  }

  function SyncConfig(db: Database, source: map<string, SourceTable>, ctx: Context, cfg: Config, rejections: Rejections)
    : Result<Database>
  {
    if !Applies(db, source, cfg) then Ok(db)
    else
      var dst := db[cfg.target];
      var res := SyncTable(ctx, cfg, source[cfg.source], dst, RejectedIn(rejections, cfg.target));
      if res.Err? then Err(res.error) else Ok(db[cfg.target := dst.(rows := res.value)])
  }

  function SyncAll(db: Database, source: map<string, SourceTable>, ctx: Context, configs: seq<Config>,
      rejections: Rejections)
    : Result<Database>
  {
    if configs == [] then Ok(db)
    else
      var next := SyncConfig(db, source, ctx, configs[0], rejections);
      if next.Err? then next else SyncAll(next.value, source, ctx, configs[1..], rejections)
  }

  predicate HasProtectedTables(db: Database) {
    && "users" in db && "menu_items" in db && db["menu_items"].columns != []
    && "id_user" in db["users"].columns && "username" in db["users"].columns && "password_hash" in db["users"].columns
  }

  /** What the admin and menu fingerprints are taken of; equal fingerprints are taken as equal content. */
  function ProtectedContent(db: Database, company: int): Option<(Table, Table)> {
    if !HasProtectedTables(db) then None
    else
      var users := db["users"];
      var own := if "company_id" in users.columns
                 then map k | k in users.rows && Get(users.rows[k], "company_id") == Int(company) :: users.rows[k]
                 else users.rows;
      if own == map[] then None else Some((own, db["menu_items"].rows))
  }

  /** The transaction up to the decision to commit. */
  function Migrated(db: Database, source: map<string, SourceTable>, ctx: Context, configs: seq<Config>,
      rejections: Rejections)
    : Result<Database>
  {
    var before := ProtectedContent(db, ctx.company);
    if before.None? then Err("protect target admin")
    else
      var synced := SyncAll(db, source, ctx, configs, rejections);
      if synced.Err? then synced
      else if ProtectedContent(synced.value, ctx.company) != before then Err("protected content changed")
      else synced
  }

  class Target {
    var tables: Database

    constructor (db: Database)
      ensures tables == db
    {
      tables := db;
    }

    /** The transaction shell: anything but a successful real run leaves every table as it was. */
    method Run(source: map<string, SourceTable>, ctx: Context, configs: seq<Config>, rejections: Rejections,
               dryRun: bool, commitFails: bool)
      returns (committed: bool)
      modifies this
      ensures committed <==> Migrated(old(tables), source, ctx, configs, rejections).Ok? && !dryRun && !commitFails
      ensures tables == if committed then Migrated(old(tables), source, ctx, configs, rejections).value else old(tables)
    {
      var tx := tables;
      var before := ProtectedContent(tx, ctx.company);
      if before.None? {
        return false;
      }
      for i := 0 to |configs|
        invariant tables == old(tables)
        invariant SyncAll(old(tables), source, ctx, configs, rejections)
               == SyncAll(tx, source, ctx, configs[i..], rejections)
      {
        var cfg := configs[i];
        assert configs[i..][0] == cfg && configs[i..][1..] == configs[i + 1..];
        if Applies(tx, source, cfg) {
          var res, _, _, _ := SyncTableReport(ctx, cfg, source[cfg.source], tx[cfg.target],
                                              RejectedIn(rejections, cfg.target));
          if res.Err? {
            return false;
          }
          tx := tx[cfg.target := tx[cfg.target].(rows := res.value)];
        }
      }
      if ProtectedContent(tx, ctx.company) != before || dryRun || commitFails {
        return false;
      }
      tables := tx;
      return true;
    }
  }

  // ---------------------------------------------------------------- guarantees of a committed run

  /** Each target has one configuration, and it inserts the company where the table has one. */
  ghost predicate SoundConfigs(configs: seq<Config>) {
    && (forall i | 0 <= i < |configs| :: "company_id" !in configs[i].skipCols)
    && (forall i, j | 0 <= i < j < |configs| :: configs[i].target != configs[j].target)
  }

  lemma {:induction false} CompanyIsTarget(cfg: Config, source: set<string>, columns: seq<string>)
    requires "company_id" !in cfg.skipCols && "company_id" in columns
    ensures "company_id" in TargetColumns(cfg, source, columns)
  {
    if columns[0] != "company_id" {
      CompanyIsTarget(cfg, source, columns[1..]);
    }
  }

  lemma PlansAreSound(ctx: Context, cfg: Config, src: SourceTable, dst: TargetTable)
    requires "company_id" !in cfg.skipCols
    ensures SoundPlan(PlanFor(ctx, cfg, src, dst))
  {
    if "company_id" in dst.columns {
      CompanyIsTarget(cfg, src.columns, dst.columns);
    }
  }

  lemma {:induction false} OthersUntouched(
      db: Database, source: map<string, SourceTable>, ctx: Context, configs: seq<Config>, rejections: Rejections,
      name: string)
    requires SyncAll(db, source, ctx, configs, rejections).Ok?
    requires forall i | 0 <= i < |configs| :: configs[i].target == name ==> configs[i].preserve
    ensures var out := SyncAll(db, source, ctx, configs, rejections).value;
            out.Keys == db.Keys && (name in db ==> out[name] == db[name])
  {
    if configs != [] {
      var next := SyncConfig(db, source, ctx, configs[0], rejections).value;
      forall i | 0 <= i < |configs[1..]| ensures configs[1..][i].target == name ==> configs[1..][i].preserve {
        assert configs[1..][i] == configs[i + 1];
      }
      OthersUntouched(next, source, ctx, configs[1..], rejections, name);
    }
  }

  /** The table of configuration i ends as that configuration alone leaves it. */
  lemma {:induction false} OwnOutcome(
      db: Database, source: map<string, SourceTable>, ctx: Context, configs: seq<Config>, rejections: Rejections,
      i: nat)
    requires SyncAll(db, source, ctx, configs, rejections).Ok? && SoundConfigs(configs)
    requires i < |configs| && Applies(db, source, configs[i])
    ensures var out, cfg := SyncAll(db, source, ctx, configs, rejections).value, configs[i];
            var res := SyncTable(ctx, cfg, source[cfg.source], db[cfg.target], RejectedIn(rejections, cfg.target));
            cfg.target in out && res.Ok? && out[cfg.target] == db[cfg.target].(rows := res.value)
  {
    var cfg := configs[i];
    var rest := configs[1..];
    var next := SyncConfig(db, source, ctx, configs[0], rejections).value;
    assert forall j | 0 <= j < |rest| :: rest[j] == configs[j + 1];
    if i == 0 {
      OthersUntouched(next, source, ctx, rest, rejections, cfg.target);
    } else {
      assert next[cfg.target] == db[cfg.target];
      assert SoundConfigs(rest);
      OwnOutcome(next, source, ctx, rest, rejections, i - 1);
    }
  }

  /** Every configuration of users and of the menu is preserved, as the source lists them. */
  ghost predicate AdminsAndMenuPreserved(configs: seq<Config>) {
    forall i | 0 <= i < |configs| && configs[i].target in {"users", "menu_items"} :: configs[i].preserve
  }

  /**
   While the configurations of users and menu are preserved, the fingerprints cannot change: the comparison at
   the end of a run never refuses it, and a run whose target has admins and a menu ends as its tables do.
   */
  lemma PreservedConfigsKeepFingerprints(
      db: Database, source: map<string, SourceTable>, ctx: Context, configs: seq<Config>, rejections: Rejections)
    requires AdminsAndMenuPreserved(configs) && ProtectedContent(db, ctx.company).Some?
    ensures Migrated(db, source, ctx, configs, rejections) == SyncAll(db, source, ctx, configs, rejections)
    ensures SyncAll(db, source, ctx, configs, rejections).Ok? ==>
              ProtectedContent(SyncAll(db, source, ctx, configs, rejections).value, ctx.company)
              == ProtectedContent(db, ctx.company)
  {
    if SyncAll(db, source, ctx, configs, rejections).Ok? {
      OthersUntouched(db, source, ctx, configs, rejections, "users");
      OthersUntouched(db, source, ctx, configs, rejections, "menu_items");
    }
  }

  /** A committed run keeps every table no unprotected configuration targets, and the fingerprinted content. */
  lemma CommittedRunKeepsProtected(
      db: Database, source: map<string, SourceTable>, ctx: Context, configs: seq<Config>, rejections: Rejections,
      name: string)
    requires Migrated(db, source, ctx, configs, rejections).Ok?
    ensures var out := Migrated(db, source, ctx, configs, rejections).value;
            && out.Keys == db.Keys
            && ProtectedContent(out, ctx.company) == ProtectedContent(db, ctx.company)
            && (name in db && (forall i | 0 <= i < |configs| :: configs[i].target == name ==> configs[i].preserve)
                ==> out[name] == db[name])
  {
    KeysKept(db, source, ctx, configs, rejections);
    if forall i | 0 <= i < |configs| :: configs[i].target == name ==> configs[i].preserve {
      OthersUntouched(db, source, ctx, configs, rejections, name);
    }
  }

  lemma {:induction false} KeysKept(
      db: Database, source: map<string, SourceTable>, ctx: Context, configs: seq<Config>, rejections: Rejections)
    requires SyncAll(db, source, ctx, configs, rejections).Ok?
    ensures SyncAll(db, source, ctx, configs, rejections).value.Keys == db.Keys
  {
    if configs != [] {
      KeysKept(SyncConfig(db, source, ctx, configs[0], rejections).value, source, ctx, configs[1..], rejections);
    }
  }

  /** A committed run leaves every other company's row of every company-scoped table exactly as it was. */
  lemma CommittedRunKeepsOtherCompanies(
      db: Database, source: map<string, SourceTable>, ctx: Context, configs: seq<Config>, rejections: Rejections,
      name: string, key: seq<Sql>)
    requires Migrated(db, source, ctx, configs, rejections).Ok? && SoundConfigs(configs)
    requires name in db && "company_id" in db[name].columns
    ensures var out := Migrated(db, source, ctx, configs, rejections).value;
            name in out
            && (key in db[name].rows && Get(db[name].rows[key], "company_id") != Int(ctx.company)
                ==> key in out[name].rows && out[name].rows[key] == db[name].rows[key])
            && (key in out[name].rows && Get(out[name].rows[key], "company_id") != Int(ctx.company)
                ==> key in db[name].rows && out[name].rows[key] == db[name].rows[key])
  {
    KeysKept(db, source, ctx, configs, rejections);
    if i: nat :| i < |configs| && configs[i].target == name && !configs[i].preserve && configs[i].source in source {
      var cfg := configs[i];
      var src, dst := source[cfg.source], db[name];
      OwnOutcome(db, source, ctx, configs, rejections, i);
      PlansAreSound(ctx, cfg, src, dst);
      var p := PlanFor(ctx, cfg, src, dst);
      if src.rows != [] && p.cols != [] {
        ForeignRowsUntouched(p, dst.rows, src.rows, RejectedIn(rejections, name), key);
      }
    } else {
      Unsynced(db, source, ctx, configs, rejections, name);
    }
  }

  lemma {:induction false} Unsynced(
      db: Database, source: map<string, SourceTable>, ctx: Context, configs: seq<Config>, rejections: Rejections,
      name: string)
    requires SyncAll(db, source, ctx, configs, rejections).Ok?
    requires forall i | 0 <= i < |configs| && configs[i].target == name ::
               configs[i].preserve || configs[i].source !in source
    ensures var out := SyncAll(db, source, ctx, configs, rejections).value;
            name in db ==> name in out && out[name] == db[name]
  {
    if configs != [] {
      assert forall i | 0 <= i < |configs[1..]| :: configs[1..][i] == configs[i + 1];
      Unsynced(SyncConfig(db, source, ctx, configs[0], rejections).value, source, ctx, configs[1..], rejections, name);
    }
  }

  /** A committed run leaves the key of every source row it did not skip in its target table. */
  lemma CommittedRunDeliversSourceKeys(
      db: Database, source: map<string, SourceTable>, ctx: Context, configs: seq<Config>, rejections: Rejections,
      i: nat, r: nat)
    requires Migrated(db, source, ctx, configs, rejections).Ok? && SoundConfigs(configs)
    requires i < |configs| && Applies(db, source, configs[i]) && !configs[i].preserve
    requires r < |source[configs[i].source].rows|
    requires var p := PlanFor(ctx, configs[i], source[configs[i].source], db[configs[i].target]);
             p.cols != [] && !Skipped(p, source[configs[i].source].rows[r])
    ensures var out, cfg := Migrated(db, source, ctx, configs, rejections).value, configs[i];
            var p := PlanFor(ctx, cfg, source[cfg.source], db[cfg.target]);
            cfg.target in out && KeyOf(p, source[cfg.source].rows[r]) in out[cfg.target].rows
  {
    var cfg := configs[i];
    OwnOutcome(db, source, ctx, configs, rejections, i);
    PlansAreSound(ctx, cfg, source[cfg.source], db[cfg.target]);
    var p := PlanFor(ctx, cfg, source[cfg.source], db[cfg.target]);
    SourceKeysArrive(p, db[cfg.target].rows, source[cfg.source].rows, RejectedIn(rejections, cfg.target), r);
  }

  // ---------------------------------------------------------------- the data that arrive

  /** Row r is the last one with its key that is not skipped. */
  predicate LastOfItsKey(p: Plan, rows: seq<Columns>, r: nat)
    requires r < |rows|
  {
    !Skipped(p, rows[r]) && forall i | r < i < |rows| :: Skipped(p, rows[i]) || KeyOf(p, rows[i]) != KeyOf(p, rows[r])
  }

  lemma {:induction false} LastForIs(p: Plan, rows: seq<Columns>, r: nat)
    requires r < |rows| && LastOfItsKey(p, rows, r)
    ensures LastFor(p, rows, KeyOf(p, rows[r])) == Some(rows[r])
  {
    var n := |rows| - 1;
    if r < n {
      assert forall i | r <= i < n :: rows[..n][i] == rows[i];
      LastForIs(p, rows[..n], r);
    }
  }

  lemma {:induction false} FirstForHasKey(p: Plan, rows: seq<Columns>, key: seq<Sql>)
    ensures FirstFor(p, rows, key).Some? ==> KeyOf(p, FirstFor(p, rows, key).value) == key
  {
    if rows != [] {
      FirstForHasKey(p, rows[..|rows| - 1], key);
    }
  }

  lemma {:induction false} TargetColumnsMean(cfg: Config, source: set<string>, columns: seq<string>, c: string)
    ensures c in TargetColumns(cfg, source, columns) <==> c in columns && IsTarget(cfg, source, c)
  {
    if columns != [] {
      TargetColumnsMean(cfg, source, columns[1..], c);
    }
  }

  /** The source column a target column is fed from. */
  function FedFrom(cfg: Config, c: string): string {
    if c in cfg.columnMap then cfg.columnMap[c] else c
  }

  /** The columns a table's synchronisation fills: the company, the derived ones, and those the source has. */
  predicate IsFilled(cfg: Config, src: SourceTable, dst: TargetTable, c: string) {
    && c in dst.columns && c !in cfg.skipCols
    && (c == "company_id" || c in cfg.derived || (FedFrom(cfg, c) in src.columns && FedFrom(cfg, c) != ""))
  }

  /** Where the value of one column comes from. */
  predicate ComesFrom(cfg: Config, company: int, row: Columns, c: string, v: Sql) {
    && (c == "company_id" ==> v == Int(company))
    && (c != "company_id" && c in cfg.derived ==> v == cfg.derived[c](row))
    && (c != "company_id" && c !in cfg.derived ==> v == if FedFrom(cfg, c) in row then row[FedFrom(cfg, c)] else Null)
  }

  /** The key a source row arrives under: the merge keys of the configuration, or else the primary key. */
  lemma ArrivesUnder(ctx: Context, cfg: Config, src: SourceTable, dst: TargetTable, row: Columns)
    ensures var keys, key := if cfg.keys != [] then cfg.keys else dst.pk, KeyOf(PlanFor(ctx, cfg, src, dst), row);
            |key| == |keys| && forall k | 0 <= k < |keys| :: ComesFrom(cfg, ctx.company, row, keys[k], key[k])
  {
  }

  /** What column c of the final row under `key` holds, given the last source row for the key and the row before. */
  predicate Delivers(ctx: Context, cfg: Config, src: SourceTable, dst: TargetTable, key: seq<Sql>, row: Columns,
                     after: Columns, c: string) {
    var keys := if cfg.keys != [] then cfg.keys else dst.pk;
    var fixed := c == "company_id" || c in keys;
    && (IsFilled(cfg, src, dst, c) && !fixed ==> ComesFrom(cfg, ctx.company, row, c, Get(after, c)))
    && (key in dst.rows && (fixed || !IsFilled(cfg, src, dst, c)) ==> Get(after, c) == Get(dst.rows[key], c))
    && (key !in dst.rows && !IsFilled(cfg, src, dst, c) ==> Get(after, c) == Get(dst.defaults, c))
    && (key !in dst.rows && IsFilled(cfg, src, dst, c) && c == "company_id" ==> Get(after, c) == Int(ctx.company))
    && (key !in dst.rows && IsFilled(cfg, src, dst, c) ==>
          forall k | 0 <= k < |keys| && k < |key| && keys[k] == c :: Get(after, c) == key[k])
  }

  lemma SyncDelivers(
      ctx: Context, cfg: Config, src: SourceTable, dst: TargetTable, rejected: set<nat>, r: nat, c: string)
    requires r < |src.rows| && LastOfItsKey(PlanFor(ctx, cfg, src, dst), src.rows, r)
    requires SyncRows(PlanFor(ctx, cfg, src, dst), dst.rows, src.rows, rejected).Ok?
    ensures var p := PlanFor(ctx, cfg, src, dst);
            var u, key := SyncRows(p, dst.rows, src.rows, rejected).value, KeyOf(p, src.rows[r]);
            key in u && Delivers(ctx, cfg, src, dst, key, src.rows[r], u[key], c)
  {
    var p := PlanFor(ctx, cfg, src, dst);
    var key := KeyOf(p, src.rows[r]);
    LastForIs(p, src.rows, r);
    SyncedRow(p, dst.rows, src.rows, rejected, key);
    FirstIffLast(p, src.rows, key);
    FirstForHasKey(p, src.rows, key);
    TargetColumnsMean(cfg, src.columns, dst.columns, c);
    Rebind.UpdateColumnsAreColumns(p.cols, p.keys, c);
    var first := FirstFor(p, src.rows, key).value;
    FilledRow(ctx, cfg, src, dst, BaseRow(p, dst.rows, src.rows, key), first, src.rows[r], c);
  }

  lemma KeyCell(p: Plan, first: Columns, last: Columns, k: nat)
    requires k < |p.keys| && KeyOf(p, first) == KeyOf(p, last)
    ensures KeyOf(p, last)[k] == CellValue(p.cfg, p.ctx.company, first, p.keys[k])
  {
    assert KeyOf(p, first)[k] == CellValue(p.cfg, p.ctx.company, first, p.keys[k]);
  }

  lemma FilledOver(p: Plan, base: Columns, last: Columns, c: string)
    requires c in Rebind.UpdateColumns(p.cols, p.keys) <==> c in p.cols && c !in p.keys && c != "company_id"
    ensures Get(base + Updated(p, last), c)
         == if c in p.cols && c !in p.keys && c != "company_id" then CellValue(p.cfg, p.ctx.company, last, c)
            else Get(base, c)
  {
  }

  lemma FilledRow(ctx: Context, cfg: Config, src: SourceTable, dst: TargetTable, base: Columns, first: Columns,
                  last: Columns, c: string)
    requires var p := PlanFor(ctx, cfg, src, dst);
             && (c in p.cols <==> IsFilled(cfg, src, dst, c))
             && (c in Rebind.UpdateColumns(p.cols, p.keys) <==> c in p.cols && c !in p.keys && c != "company_id")
             && KeyOf(p, first) == KeyOf(p, last)
             && base == (if KeyOf(p, last) in dst.rows then dst.rows[KeyOf(p, last)]
                         else dst.defaults + Inserted(p, first))
    ensures var p := PlanFor(ctx, cfg, src, dst);
            Delivers(ctx, cfg, src, dst, KeyOf(p, last), last, base + Updated(p, last), c)
  {
    var p := PlanFor(ctx, cfg, src, dst);
    var key, after := KeyOf(p, last), base + Updated(p, last);
    FilledOver(p, base, last, c);
    if key !in dst.rows {
      forall k: nat | k < |p.keys| && p.keys[k] == c && c in p.cols ensures key[k] == Get(after, c) {
        KeyCell(p, first, last, k);
      }
    }
  }

  /**
   After a committed run the last source row of each key is in its table under the key it arrives under: every
   filled column other than key and company holds that row's value in the column it is fed from, or what its
   derivation gives; a row that was there before keeps its key, its company and the columns that are not filled,
   and a new one has the key, the company and the defaults there.
   */
  lemma CommittedRunDeliversSourceData(
      db: Database, source: map<string, SourceTable>, ctx: Context, configs: seq<Config>, rejections: Rejections,
      i: nat, r: nat, c: string)
    requires Migrated(db, source, ctx, configs, rejections).Ok? && SoundConfigs(configs)
    requires i < |configs| && Applies(db, source, configs[i]) && !configs[i].preserve
    requires r < |source[configs[i].source].rows|
    requires var p := PlanFor(ctx, configs[i], source[configs[i].source], db[configs[i].target]);
             p.cols != [] && LastOfItsKey(p, source[configs[i].source].rows, r)
    ensures var out, cfg := Migrated(db, source, ctx, configs, rejections).value, configs[i];
            var src, dst := source[cfg.source], db[cfg.target];
            var key := KeyOf(PlanFor(ctx, cfg, src, dst), src.rows[r]);
            && cfg.target in out && key in out[cfg.target].rows
            && Delivers(ctx, cfg, src, dst, key, src.rows[r], out[cfg.target].rows[key], c)
  {
    var cfg := configs[i];
    OwnOutcome(db, source, ctx, configs, rejections, i);
    SyncDelivers(ctx, cfg, source[cfg.source], db[cfg.target], RejectedIn(rejections, cfg.target), r, c);
  }

  lemma TableRerun(ctx: Context, cfg: Config, src: SourceTable, dst: TargetTable, rejected: set<nat>)
    requires SyncTable(ctx, cfg, src, dst, rejected).Ok? && "company_id" !in cfg.skipCols
    ensures var once := SyncTable(ctx, cfg, src, dst, rejected);
            SyncTable(ctx, cfg, src, dst.(rows := once.value), {}) == once
  {
    var p := PlanFor(ctx, cfg, src, dst);
    PlansAreSound(ctx, cfg, src, dst);
    if !cfg.preserve && src.rows != [] && p.cols != [] {
      SyncIdempotent(p, dst.rows, src.rows, rejected);
    }
  }

  /** Syncing again over a database in which every configured table is already at its own outcome. */
  lemma {:induction false} RerunFrom(
      db: Database, done: Database, source: map<string, SourceTable>, ctx: Context, configs: seq<Config>,
      rejections: Rejections)
    requires SoundConfigs(configs) && done.Keys == db.Keys
    requires forall i | 0 <= i < |configs| && Applies(db, source, configs[i]) ::
               var cfg := configs[i];
               var res := SyncTable(ctx, cfg, source[cfg.source], db[cfg.target], RejectedIn(rejections, cfg.target));
               res.Ok? && done[cfg.target] == db[cfg.target].(rows := res.value)
    ensures SyncAll(done, source, ctx, configs, map[]) == Ok(done)
  {
    if configs != [] {
      var cfg, rest := configs[0], configs[1..];
      assert forall j | 0 <= j < |rest| :: rest[j] == configs[j + 1];
      if Applies(db, source, cfg) {
        TableRerun(ctx, cfg, source[cfg.source], db[cfg.target], RejectedIn(rejections, cfg.target));
        assert done[cfg.target := done[cfg.target]] == done;
      }
      RerunFrom(db, done, source, ctx, rest, rejections);
    }
  }

  /** Running the migration again, with nothing rejected, succeeds and changes nothing. */
  lemma RunIsIdempotent(
      db: Database, source: map<string, SourceTable>, ctx: Context, configs: seq<Config>, rejections: Rejections)
    requires Migrated(db, source, ctx, configs, rejections).Ok? && SoundConfigs(configs)
    ensures var out := Migrated(db, source, ctx, configs, rejections).value;
            Migrated(out, source, ctx, configs, map[]) == Ok(out)
  {
    var out := Migrated(db, source, ctx, configs, rejections).value;
    KeysKept(db, source, ctx, configs, rejections);
    forall i | 0 <= i < |configs| && Applies(db, source, configs[i])
      ensures var cfg := configs[i];
              var res := SyncTable(ctx, cfg, source[cfg.source], db[cfg.target], RejectedIn(rejections, cfg.target));
              res.Ok? && out[cfg.target] == db[cfg.target].(rows := res.value)
    {
      OwnOutcome(db, source, ctx, configs, rejections, i);
    }
    RerunFrom(db, out, source, ctx, configs, rejections);
  }

  // ---------------------------------------------------------------- sequence repair

  /** The value the sequence is set to; the next generated id is one more. */
  function RefreshedSequence(lastValue: int, ids: seq<int>): (next: int)
    ensures next >= 1 && next >= lastValue && forall i | 0 <= i < |ids| :: ids[i] <= next
    ensures next == 1 || next == lastValue || next in ids
  {
    if ids == [] then (if lastValue < 1 then 1 else lastValue)
    else
      var rest := RefreshedSequence(lastValue, ids[1..]);
      if ids[0] > rest then ids[0] else rest
  }
}
