/**
 Which rows the legacy migration leaves out, when it goes through, and what it never touches, in terms of the data
 (operational_cycle_go/cmd/legacysync/main.go:234-353, 1246-1308).
 */
module LegacyOutcomes {
  import opened Common
  import opened LegacyMigration
  import Rebind

  // ---------------------------------------------------------------- texts and numbers in source rows

  predicate BlankChar(c: char) { c == ' ' || c == '\t' || c == '\n' || c == '\r' }

  predicate AllBlank(s: string) { forall i | 0 <= i < |s| :: BlankChar(s[i]) }

  /** The core of a text: what lies between the blanks around it. */
  ghost predicate CoreOf(s: string, core: string) {
    && (core != "" ==> !BlankChar(core[0]) && !BlankChar(core[|core| - 1]))
    && exists pre: string, post: string :: AllBlank(pre) && AllBlank(post) && s == pre + core + post
  }

  lemma BlankInFront(s: string, core: string)
    requires s != "" && BlankChar(s[0]) && CoreOf(s[1..], core)
    ensures CoreOf(s, core)
  {
    var pre: string, post: string :| AllBlank(pre) && AllBlank(post) && s[1..] == pre + core + post;
    assert AllBlank([s[0]] + pre) && s == [s[0]] + pre + core + post;
  }

  lemma BlankBehind(s: string, core: string)
    requires s != "" && BlankChar(s[|s| - 1]) && CoreOf(s[..|s| - 1], core)
    ensures CoreOf(s, core)
  {
    var n := |s| - 1;
    var pre: string, post: string :| AllBlank(pre) && AllBlank(post) && s[..n] == pre + core + post;
    assert AllBlank(post + [s[n]]) && s == pre + core + (post + [s[n]]);
  }

  lemma {:induction false} TrimmedIsCore(s: string)
    ensures CoreOf(s, Trimmed(s))
  {
    if s != "" && BlankChar(s[0]) {
      TrimmedIsCore(s[1..]);
      BlankInFront(s, Trimmed(s));
    } else if s != "" && BlankChar(s[|s| - 1]) {
      TrimmedIsCore(s[..|s| - 1]);
      BlankBehind(s, Trimmed(s));
    } else {
      assert AllBlank("") && s == "" + s + "";
    }
  }

  lemma {:induction false} OneCore(s: string, core: string, pre: string, post: string)
    requires AllBlank(pre) && AllBlank(post) && s == pre + core + post
    requires core != "" ==> !BlankChar(core[0]) && !BlankChar(core[|core| - 1])
    ensures Trimmed(s) == core
    decreases |s|
  {
    if pre != "" {
      assert s[0] == pre[0] && s[1..] == pre[1..] + core + post;
      OneCore(s[1..], core, pre[1..], post);
    } else if post != "" && core == "" {
      assert s[0] == post[0] && s[1..] == "" + core + post[1..];
      OneCore(s[1..], core, "", post[1..]);
    } else if post != "" {
      var n := |s| - 1;
      assert s[0] == core[0] && s[n] == post[|post| - 1] && s[..n] == pre + core + post[..|post| - 1];
      OneCore(s[..n], core, pre, post[..|post| - 1]);
    } else {
      assert s == core;
    }
  }

  /** The text a value is read as. */
  ghost predicate ReadsAsText(v: Sql, s: string) {
    match v
    case Null => s == ""
    case Text(t) => CoreOf(t, s)
    case Int(n) => if n < 0 then s != "" && s[0] == '-' && Rebind.IsDecimal(s[1..], -n) else Rebind.IsDecimal(s, n)
  }

  lemma TextIsRead(row: Columns, col: string, s: string)
    ensures ReadsAsText(Get(row, col), s) <==> s == RowText(row, col)
  {
    match Get(row, col)
    case Null =>
    case Text(t) =>
      TrimmedIsCore(t);
      if CoreOf(t, s) {
        var pre: string, post: string :| AllBlank(pre) && AllBlank(post) && t == pre + s + post;
        OneCore(t, s, pre, post);
      }
    case Int(n) =>
      var m: nat := if n < 0 then -n else n;
      Rebind.DigitsReadBack(m);
      var digits := if n < 0 && s != "" then s[1..] else s;
      if Rebind.IsDecimal(digits, m) {
        Rebind.OneDecimalText(digits, m);
      }
      if n < 0 {
        assert ("-" + Rebind.Digits(m))[1..] == Rebind.Digits(m);
        assert s != "" ==> s == [s[0]] + s[1..];
      }
  }

  predicate AllDigits(s: string) { forall i | 0 <= i < |s| :: '0' <= s[i] <= '9' }

  lemma {:induction false} DigitsAreRead(s: string, acc: nat)
    ensures ParseDigits(s, acc).Some? <==> AllDigits(s)
    ensures AllDigits(s) ==> Rebind.ReadOn(s, acc) == ParseDigits(s, acc).value
  {
    if s != "" {
      if '0' <= s[0] <= '9' {
        DigitsAreRead(s[1..], 10 * acc + (s[0] as int - '0' as int));
        assert AllDigits(s) <==> AllDigits(s[1..]) by {
          if AllDigits(s[1..]) { forall i | 0 < i < |s| ensures '0' <= s[i] <= '9' { assert s[i] == s[1..][i - 1]; } }
        }
      }
    }
  }

  /** Digits with at most one sign in front. */
  predicate IsSigned(core: string, n: int) {
    var signed := core != "" && (core[0] == '+' || core[0] == '-');
    var digits := if signed then core[1..] else core;
    && digits != "" && AllDigits(digits)
    && n == if signed && core[0] == '-' then -Rebind.ReadOn(digits, 0) else Rebind.ReadOn(digits, 0)
  }

  /** A text that is a number, with blanks around it allowed. */
  ghost predicate IsNumber(t: string, n: int) {
    exists core: string :: CoreOf(t, core) && IsSigned(core, n)
  }

  ghost predicate ReadsAsNumber(v: Sql, n: int) {
    match v
    case Null => false
    case Int(m) => n == m
    case Text(t) => IsNumber(t, n)
  }

  lemma NumberIsRead(row: Columns, col: string, n: int)
    ensures ReadsAsNumber(Get(row, col), n) <==> RowInt(row, col) == Some(n)
  {
    if Get(row, col).Text? {
      TextNumber(row, col, Get(row, col).s, n);
    }
  }

  lemma TextNumber(row: Columns, col: string, t: string, n: int)
    requires Get(row, col) == Text(t)
    ensures IsNumber(t, n) <==> RowInt(row, col) == Some(n)
  {
    TrimmedIsCore(t);
    forall core: string ensures CoreOf(t, core) <==> core == Trimmed(t) { TextIsRead(row, col, core); }
    var core := Trimmed(t);
    var signed := core != "" && (core[0] == '+' || core[0] == '-');
    DigitsAreRead(if signed then core[1..] else core, 0);
  }

  // ---------------------------------------------------------------- rows left out

  predicate SameLetter(a: char, b: char) {
    a == b || ('A' <= a <= 'Z' && b as int == a as int + 32)
  }

  predicate SpellsAdmin(s: string) {
    |s| == 5 && forall i | 0 <= i < 5 :: SameLetter(s[i], "admin"[i])
  }

  /** A menu right that may be taken over: of a user of the company other than the admin, for a menu there is. */
  ghost predicate IsUsableRight(ctx: Context, row: Columns) {
    && (exists n: int :: ReadsAsNumber(Get(row, "user_id"), n) && n != ctx.adminUser && n in ctx.users)
    && (exists s: string :: ReadsAsText(Get(row, "menu_key"), s) && s != "" && s in ctx.menus)
  }

  /** A source row is left out exactly when it is the user admin or a menu right that may not be taken over. */
  lemma SkippedIff(p: Plan, row: Columns)
    ensures Skipped(p, row) <==>
              || (p.cfg.target == "users" &&
                  exists s: string :: ReadsAsText(Get(row, "username"), s) && SpellsAdmin(s))
              || (p.cfg.target == "user_menu_access" && !IsUsableRight(p.ctx, row))
  {
    forall s: string ensures ReadsAsText(Get(row, "username"), s) <==> s == RowText(row, "username") {
      TextIsRead(row, "username", s);
    }
    AdminIsSpelled(RowText(row, "username"));
    UsableRightIs(p.ctx, row);
  }

  /** The reason reported for a menu right is the first thing wrong with it: its user, then its menu. */
  lemma ReasonIsFirstFault(ctx: Context, cfg: Config, row: Columns, n: int, menu: string)
    requires cfg.target == "user_menu_access" && ReadsAsText(Get(row, "menu_key"), menu)
    ensures var reason := SkipReason(ctx, cfg, row);
            && (reason == "invalid user_id" ==> !ReadsAsNumber(Get(row, "user_id"), n))
            && (ReadsAsNumber(Get(row, "user_id"), n) ==>
                  reason == if n == ctx.adminUser then "protected target admin access"
                            else if n !in ctx.users then "missing target user"
                            else if menu == "" then "empty menu_key"
                            else if menu !in ctx.menus then "menu not present in new version"
                            else "")
  {
    NumberIsRead(row, "user_id", n);
    TextIsRead(row, "menu_key", menu);
  }

  /** Where the rows that are left out stand. */
  function SkippedAt(p: Plan, rows: seq<Columns>): set<int> {
    set i | 0 <= i < |rows| && Skipped(p, rows[i])
  }

  lemma OneMoreSkipped(p: Plan, rows: seq<Columns>)
    requires rows != []
    ensures var n := |rows| - 1;
            && n !in SkippedAt(p, rows[..n])
            && SkippedAt(p, rows) == SkippedAt(p, rows[..n]) + if Skipped(p, rows[n]) then {n} else {}
  {
    var n := |rows| - 1;
    forall i ensures i in SkippedAt(p, rows) <==> i in SkippedAt(p, rows[..n]) || (i == n && Skipped(p, rows[n])) {
      assert 0 <= i < n ==> rows[..n][i] == rows[i];
    }
  }

  /** The report counts each row that is left out once. */
  lemma {:induction false} SkippedAreCounted(p: Plan, rows: seq<Columns>)
    ensures CountSkipped(p, rows) == |SkippedAt(p, rows)|
  {
    if rows != [] {
      SkippedAreCounted(p, rows[..|rows| - 1]);
      OneMoreSkipped(p, rows);
    }
  }

  lemma UsableRightIs(ctx: Context, row: Columns)
    ensures IsUsableRight(ctx, row) <==>
              var user, menu := RowInt(row, "user_id"), RowText(row, "menu_key");
              user.Some? && user.value != ctx.adminUser && user.value in ctx.users && menu != "" && menu in ctx.menus
  {
    forall n: int ensures ReadsAsNumber(Get(row, "user_id"), n) <==> RowInt(row, "user_id") == Some(n) {
      NumberIsRead(row, "user_id", n);
    }
    forall s: string ensures ReadsAsText(Get(row, "menu_key"), s) <==> s == RowText(row, "menu_key") {
      TextIsRead(row, "menu_key", s);
    }
  }

  lemma AdminIsSpelled(s: string)
    ensures Lower(s) == "admin" <==> SpellsAdmin(s)
  {
    var low := Lower(s);
    if low == "admin" {
      forall i | 0 <= i < 5 ensures SameLetter(s[i], "admin"[i]) { assert low[i] == "admin"[i]; }
    }
    if SpellsAdmin(s) {
      forall i | 0 <= i < 5 ensures low[i] == "admin"[i] { assert SameLetter(s[i], "admin"[i]); }
    }
  }

  // ---------------------------------------------------------------- when a run goes through

  /** The table may take a row under the key: no part is null, the database agrees, no other company holds it. */
  predicate Admits(p: Plan, t: Table, key: seq<Sql>, rejected: bool) {
    && !rejected && (forall i | 0 <= i < |key| :: key[i] != Null)
    && (p.scoped && key in t ==> Get(t[key], "company_id") == Int(p.ctx.company))
  }

  /** The table admits every source row that is not left out, as the table is before the first of them. */
  predicate AdmitsAll(p: Plan, t: Table, rows: seq<Columns>, rejected: set<nat>) {
    forall i | 0 <= i < |rows| :: Skipped(p, rows[i]) || Admits(p, t, KeyOf(p, rows[i]), i in rejected)
  }

  /** A table is synchronised exactly when it admits all its rows; rows written on the way change nothing about that. */
  lemma {:induction false} SyncGoesThroughIff(p: Plan, t: Table, rows: seq<Columns>, rejected: set<nat>)
    requires SoundPlan(p)
    ensures SyncRows(p, t, rows, rejected).Ok? <==> AdmitsAll(p, t, rows, rejected)
  {
    if rows != [] {
      var n := |rows| - 1;
      SyncGoesThroughIff(p, t, rows[..n], rejected);
      AdmitsOneMore(p, t, rows, rejected);
      if SyncRows(p, t, rows[..n], rejected).Ok? {
        LastRowIsAdmitted(p, t, rows, rejected);
      }
    }
  }

  lemma AdmitsOneMore(p: Plan, t: Table, rows: seq<Columns>, rejected: set<nat>)
    requires rows != []
    ensures var n := |rows| - 1;
            AdmitsAll(p, t, rows, rejected) <==>
              AdmitsAll(p, t, rows[..n], rejected)
              && (Skipped(p, rows[n]) || Admits(p, t, KeyOf(p, rows[n]), n in rejected))
  {
    assert forall i | 0 <= i < |rows| - 1 :: rows[..|rows| - 1][i] == rows[i];
  }

  lemma LastRowIsAdmitted(p: Plan, t: Table, rows: seq<Columns>, rejected: set<nat>)
    requires SoundPlan(p) && rows != [] && SyncRows(p, t, rows[..|rows| - 1], rejected).Ok?
    ensures var n := |rows| - 1;
            SyncRows(p, t, rows, rejected).Ok?
            <==> Skipped(p, rows[n]) || Admits(p, t, KeyOf(p, rows[n]), n in rejected)
  {
    var key := KeyOf(p, rows[|rows| - 1]);
    if p.scoped {
      ForeignRowsUntouched(p, t, rows[..|rows| - 1], rejected, key);
    }
    assert Null in key <==> exists i | 0 <= i < |key| :: key[i] == Null;
  }

  /** What one configuration needs of its tables. */
  predicate TableGoesThrough(ctx: Context, cfg: Config, src: SourceTable, dst: TargetTable, rejected: set<nat>) {
    var p := PlanFor(ctx, cfg, src, dst);
    && (cfg.keys != [] || dst.pk != [])
    && (cfg.preserve || p.cols == [] || AdmitsAll(p, dst.rows, src.rows, rejected))
  }

  lemma SyncTableGoesThrough(ctx: Context, cfg: Config, src: SourceTable, dst: TargetTable, rejected: set<nat>)
    requires "company_id" !in cfg.skipCols
    ensures SyncTable(ctx, cfg, src, dst, rejected).Ok? <==> TableGoesThrough(ctx, cfg, src, dst, rejected)
  {
    PlansAreSound(ctx, cfg, src, dst);
    SyncGoesThroughIff(PlanFor(ctx, cfg, src, dst), dst.rows, src.rows, rejected);
  }

  /** Configuration i meets its tables in a state in which it goes through, should both be there. */
  predicate GoesThrough(db: Database, source: map<string, SourceTable>, ctx: Context, cfg: Config,
                        rejections: Rejections) {
    Applies(db, source, cfg) ==>
      TableGoesThrough(ctx, cfg, source[cfg.source], db[cfg.target], RejectedIn(rejections, cfg.target))
  }

  lemma OthersSeeTheSame(db: Database, source: map<string, SourceTable>, ctx: Context, cfg: Config,
                         rejections: Rejections, other: Config)
    requires SyncConfig(db, source, ctx, cfg, rejections).Ok? && other.target != cfg.target
    ensures var next := SyncConfig(db, source, ctx, cfg, rejections).value;
            GoesThrough(next, source, ctx, other, rejections) <==> GoesThrough(db, source, ctx, other, rejections)
  {
  }

  lemma {:induction false} SyncAllGoesThroughIff(
      db: Database, source: map<string, SourceTable>, ctx: Context, configs: seq<Config>, rejections: Rejections)
    requires SoundConfigs(configs)
    ensures SyncAll(db, source, ctx, configs, rejections).Ok?
       <==> forall i | 0 <= i < |configs| :: GoesThrough(db, source, ctx, configs[i], rejections)
  {
    if configs != [] {
      var cfg, rest := configs[0], configs[1..];
      if Applies(db, source, cfg) {
        SyncTableGoesThrough(ctx, cfg, source[cfg.source], db[cfg.target], RejectedIn(rejections, cfg.target));
      }
      assert forall i | 0 <= i < |rest| :: rest[i] == configs[i + 1];
      if GoesThrough(db, source, ctx, cfg, rejections) {
        var next := SyncConfig(db, source, ctx, cfg, rejections).value;
        SyncAllGoesThroughIff(next, source, ctx, rest, rejections);
        forall i | 0 <= i < |rest|
          ensures GoesThrough(next, source, ctx, rest[i], rejections) <==>
                  GoesThrough(db, source, ctx, configs[i + 1], rejections)
        {
          OthersSeeTheSame(db, source, ctx, cfg, rejections, configs[i + 1]);
        }
        RestGoesThrough(db, next, source, ctx, configs, rejections);
      }
    }
  }

  lemma RestGoesThrough(db: Database, next: Database, source: map<string, SourceTable>, ctx: Context,
                        configs: seq<Config>, rejections: Rejections)
    requires configs != [] && GoesThrough(db, source, ctx, configs[0], rejections)
    requires forall i | 0 <= i < |configs| - 1 ::
               GoesThrough(next, source, ctx, configs[1..][i], rejections) <==>
               GoesThrough(db, source, ctx, configs[i + 1], rejections)
    ensures (forall i | 0 <= i < |configs[1..]| :: GoesThrough(next, source, ctx, configs[1..][i], rejections))
       <==> forall i | 0 <= i < |configs| :: GoesThrough(db, source, ctx, configs[i], rejections)
  {
    if forall i | 0 <= i < |configs[1..]| :: GoesThrough(next, source, ctx, configs[1..][i], rejections) {
      forall i | 0 < i < |configs| ensures GoesThrough(db, source, ctx, configs[i], rejections) {
        assert GoesThrough(next, source, ctx, configs[1..][i - 1], rejections);
      }
    }
  }

  /** A row of the users table that belongs to the company, or any where users have no company. */
  predicate IsOwnUser(db: Database, company: int, key: seq<Sql>) {
    && "users" in db && key in db["users"].rows
    && ("company_id" in db["users"].columns ==> Get(db["users"].rows[key], "company_id") == Int(company))
  }

  /**
   With users and menu preserved, a run goes through exactly when the target has the tables of users and menu, with
   their columns and a user of the company, and every table that is synchronised has a merge key and admits all its
   rows as it stands before the run.
   */
  lemma RunGoesThroughIff(
      db: Database, source: map<string, SourceTable>, ctx: Context, configs: seq<Config>, rejections: Rejections)
    requires SoundConfigs(configs) && AdminsAndMenuPreserved(configs)
    ensures Migrated(db, source, ctx, configs, rejections).Ok?
       <==> && HasProtectedTables(db) && (exists key: seq<Sql> :: IsOwnUser(db, ctx.company, key))
            && forall i | 0 <= i < |configs| :: GoesThrough(db, source, ctx, configs[i], rejections)
  {
    ProtectedIsThere(db, ctx.company);
    SyncAllGoesThroughIff(db, source, ctx, configs, rejections);
    if ProtectedContent(db, ctx.company).Some? {
      PreservedConfigsKeepFingerprints(db, source, ctx, configs, rejections);
    }
  }

  lemma ProtectedIsThere(db: Database, company: int)
    ensures ProtectedContent(db, company).Some?
       <==> HasProtectedTables(db) && exists key: seq<Sql> :: IsOwnUser(db, company, key)
  {
    if ProtectedContent(db, company).Some? {
      var own := ProtectedContent(db, company).value.0;
      var key :| key in own;
      assert IsOwnUser(db, company, key);
    } else if HasProtectedTables(db) {
      var users := db["users"];
      if "company_id" in users.columns {
        var own := map k | k in users.rows && Get(users.rows[k], "company_id") == Int(company) :: users.rows[k];
        forall key ensures !IsOwnUser(db, company, key) { assert key !in own; }
      }
    }
  }

  // ---------------------------------------------------------------- what no run touches

  /** Whatever the configurations, a committed run leaves the company's users and the whole menu as they were. */
  lemma CommittedRunKeepsUsersAndMenu(
      db: Database, source: map<string, SourceTable>, ctx: Context, configs: seq<Config>, rejections: Rejections,
      key: seq<Sql>)
    requires Migrated(db, source, ctx, configs, rejections).Ok?
    ensures var out := Migrated(db, source, ctx, configs, rejections).value;
            && "users" in db && "menu_items" in db && "users" in out && "menu_items" in out
            && out["menu_items"].rows == db["menu_items"].rows
            && (IsOwnUser(out, ctx.company, key) <==> IsOwnUser(db, ctx.company, key))
            && (IsOwnUser(db, ctx.company, key) ==> out["users"].rows[key] == db["users"].rows[key])
  {
    KeysKept(db, source, ctx, configs, rejections);
    ColumnsKept(db, source, ctx, configs, rejections, "users");
    var out := Migrated(db, source, ctx, configs, rejections).value;
    OwnUsersAre(db, ctx.company, key);
    OwnUsersAre(out, ctx.company, key);
  }

  lemma OwnUsersAre(db: Database, company: int, key: seq<Sql>)
    requires ProtectedContent(db, company).Some?
    ensures var own := ProtectedContent(db, company).value.0;
            && (key in own <==> IsOwnUser(db, company, key))
            && (key in own ==> own[key] == db["users"].rows[key])
  {
  }

  lemma {:induction false} ColumnsKept(
      db: Database, source: map<string, SourceTable>, ctx: Context, configs: seq<Config>, rejections: Rejections,
      name: string)
    requires SyncAll(db, source, ctx, configs, rejections).Ok? && name in db
    ensures var out := SyncAll(db, source, ctx, configs, rejections).value;
            name in out && out[name].columns == db[name].columns
  {
    if configs != [] {
      var next := SyncConfig(db, source, ctx, configs[0], rejections).value;
      ColumnsKept(next, source, ctx, configs[1..], rejections, name);
    }
  }
}
