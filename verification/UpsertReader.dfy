/**
 What an upsert statement says: a reader of its text, written apart from the builder, gets back every name it was built
 from (operational_cycle_go/cmd/legacysync/main.go:613-645).
 */
module UpsertReader {
  import opened Common
  import opened Rebind

  /** INSERT INTO table (columns) VALUES (values) ON CONFLICT (keys) DO UPDATE SET target = EXCLUDED.source, ... */
  datatype Statement = Statement(
    table: string,
    columns: seq<string>,
    values: seq<string>,
    keys: seq<string>,
    updates: seq<(string, string)>)

  // ---------------------------------------------------------------- reading

  /** What was read and what follows it. */
  datatype Read<T> = Fails | Got(value: T, rest: string) {
    predicate IsFailure() { Fails? }

    function PropagateFailure<U>(): Read<U>
      requires Fails?
    {
      Read<U>.Fails
    }

    function Extract(): (T, string)
      requires Got?
    {
      (value, rest)
    }
  }

  function ReadFixed(s: string, fixed: string): Read<string> {
    if fixed <= s then Got(fixed, s[|fixed|..]) else Fails
  }

  /** A name up to its closing quote; a doubled quote stands for one. */
  function ReadQuoted(s: string): Read<string> {
    if s == "" then Fails
    else if s[0] != '"' then
      var more :- ReadQuoted(s[1..]);
      Got([s[0]] + more.0, more.1)
    else if |s| > 1 && s[1] == '"' then
      var more :- ReadQuoted(s[2..]);
      Got("\"" + more.0, more.1)
    else Got("", s[1..])
  }

  function ReadName(s: string): Read<string> {
    var open :- ReadFixed(s, "\"");
    ReadQuoted(open.1)
  }

  /** Anything up to a comma or a closing parenthesis. */
  function ReadToken(s: string): Read<string> {
    if s == "" || s[0] == ',' || s[0] == ')' then Got("", s)
    else
      var more :- ReadToken(s[1..]);
      Got([s[0]] + more.0, more.1)
  }

  function ReadUpdate(s: string): Read<(string, string)> {
    var target :- ReadName(s);
    var sign :- ReadFixed(target.1, " = EXCLUDED.");
    var source :- ReadName(sign.1);
    Got((target.0, source.0), source.1)
  }

  /** Items with a comma and a blank between them. */
  function ReadList<T>(read: string -> Read<T>, s: string): Read<seq<T>>
    decreases |s|
  {
    var first :- read(s);
    if ", " <= first.1 && |first.1| <= |s| then
      var more :- ReadList(read, first.1[2..]);
      Got([first.0] + more.0, more.1)
    else Got([first.0], first.1)
  }

  /** Table and columns. */
  function ReadHead(sql: string): Read<(string, seq<string>)> {
    var insert :- ReadFixed(sql, "INSERT INTO ");
    var table :- ReadName(insert.1);
    var open :- ReadFixed(table.1, " (");
    var columns :- ReadList(ReadName, open.1);
    var given :- ReadFixed(columns.1, ") VALUES (");
    Got((table.0, columns.0), given.1)
  }

  /** What is done about an existing row. */
  function ReadAction(s: string): Read<seq<(string, string)>> {
    if s == ") DO NOTHING" then Got([], "")
    else
      var doing :- ReadFixed(s, ") DO UPDATE SET ");
      ReadList(ReadUpdate, doing.1)
  }

  /** Keys and action. */
  function ReadTail(s: string): Read<(seq<string>, seq<(string, string)>)> {
    var conflict :- ReadFixed(s, ") ON CONFLICT (");
    var keys :- ReadList(ReadName, conflict.1);
    var updates :- ReadAction(keys.1);
    Got((keys.0, updates.0), updates.1)
  }

  function ReadUpsert(sql: string): Read<Statement> {
    var head :- ReadHead(sql);
    var values :- ReadList(ReadToken, head.1);
    var tail :- ReadTail(values.1);
    Got(Statement(head.0.0, head.0.1, values.0, tail.0.0, tail.0.1), tail.1)
  }

  // ---------------------------------------------------------------- reading what was built

  lemma FixedIsRead(fixed: string, rest: string)
    ensures ReadFixed(fixed + rest, fixed) == Got(fixed, rest)
  {
  }

  lemma {:induction false} QuotedIsRead(name: string, rest: string)
    requires rest != "" ==> rest[0] != '"'
    ensures ReadQuoted(Escaped(name) + "\"" + rest) == Got(name, rest)
  {
    var s := Escaped(name) + "\"" + rest;
    if name == "" {
      assert s[1..] == rest;
    } else {
      var more := Escaped(name[1..]) + "\"" + rest;
      QuotedIsRead(name[1..], rest);
      assert s[if name[0] == '"' then 2 else 1..] == more;
      assert [name[0]] + name[1..] == name;
    }
  }

  lemma NameIsRead(name: string, rest: string)
    requires rest != "" ==> rest[0] != '"'
    ensures ReadName(QuoteIdent(name) + rest) == Got(name, rest)
  {
    assert QuoteIdent(name) + rest == "\"" + (Escaped(name) + "\"" + rest);
    FixedIsRead("\"", Escaped(name) + "\"" + rest);
    QuotedIsRead(name, rest);
  }

  /** A value as it stands in the list: it holds nothing that ends a value. */
  predicate IsToken(s: string) { forall i | 0 <= i < |s| :: s[i] != ',' && s[i] != ')' }

  /** The end of the text, or something that ends an item. */
  predicate EndsItem(rest: string) { rest != "" ==> rest[0] == ',' || rest[0] == ')' }

  lemma {:induction false} TokenIsRead(s: string, rest: string)
    requires IsToken(s) && EndsItem(rest)
    ensures ReadToken(s + rest) == Got(s, rest)
  {
    if s == "" {
      assert s + rest == rest;
    } else {
      assert (s + rest)[1..] == s[1..] + rest;
      TokenIsRead(s[1..], rest);
      assert [s[0]] + s[1..] == s;
    }
  }

  lemma UpdateIsRead(c: string, rest: string)
    requires EndsItem(rest)
    ensures ReadUpdate(QuoteIdent(c) + " = EXCLUDED." + QuoteIdent(c) + rest) == Got((c, c), rest)
  {
    var after := " = EXCLUDED." + (QuoteIdent(c) + rest);
    assert QuoteIdent(c) + " = EXCLUDED." + QuoteIdent(c) + rest == QuoteIdent(c) + after;
    NameIsRead(c, after);
    FixedIsRead(" = EXCLUDED.", QuoteIdent(c) + rest);
    NameIsRead(c, rest);
  }

  /** The reader gets the item back from its text, whatever ends it. */
  ghost predicate Reads<T>(read: string -> Read<T>, text: string, item: T) {
    forall rest: string | EndsItem(rest) :: read(text + rest) == Got(item, rest)
  }

  lemma {:induction false} ListIsRead<T>(read: string -> Read<T>, texts: seq<string>, items: seq<T>, rest: string)
    requires |texts| == |items| > 0 && forall i | 0 <= i < |texts| :: Reads(read, texts[i], items[i])
    requires EndsItem(rest) && !(", " <= rest)
    ensures ReadList(read, Join(texts, ", ") + rest) == Got(items, rest)
  {
    assert Reads(read, texts[0], items[0]);
    if |texts| == 1 {
      assert items == [items[0]];
    } else {
      var more := Join(texts[1..], ", ") + rest;
      assert Join(texts, ", ") + rest == texts[0] + (", " + more);
      ListIsRead(read, texts[1..], items[1..], rest);
      assert (", " + more)[2..] == more;
      assert items == [items[0]] + items[1..];
    }
  }

  lemma NamesAreRead(names: seq<string>, rest: string)
    requires names != [] && EndsItem(rest) && !(", " <= rest)
    ensures ReadList(ReadName, QuoteColumns(names) + rest) == Got(names, rest)
  {
    var texts := seq(|names|, i requires 0 <= i < |names| => QuoteIdent(names[i]));
    forall i | 0 <= i < |names| ensures Reads(ReadName, texts[i], names[i]) {
      forall rest: string | EndsItem(rest) ensures ReadName(texts[i] + rest) == Got(names[i], rest) {
        NameIsRead(names[i], rest);
      }
    }
    ListIsRead(ReadName, texts, names, rest);
  }

  lemma TokensAreRead(values: seq<string>, rest: string)
    requires values != [] && (forall i | 0 <= i < |values| :: IsToken(values[i])) && EndsItem(rest) && !(", " <= rest)
    ensures ReadList(ReadToken, Join(values, ", ") + rest) == Got(values, rest)
  {
    forall i | 0 <= i < |values| ensures Reads(ReadToken, values[i], values[i]) {
      forall rest: string | EndsItem(rest) ensures ReadToken(values[i] + rest) == Got(values[i], rest) {
        TokenIsRead(values[i], rest);
      }
    }
    ListIsRead(ReadToken, values, values, rest);
  }

  /** Each column with itself. */
  function OntoThemselves(cols: seq<string>): seq<(string, string)> {
    seq(|cols|, i requires 0 <= i < |cols| => (cols[i], cols[i]))
  }

  lemma UpdatesAreRead(cols: seq<string>)
    requires cols != []
    ensures ReadList(ReadUpdate, Join(Assignments(cols), ", ")) == Got(OntoThemselves(cols), "")
  {
    var texts := Assignments(cols);
    forall i | 0 <= i < |cols| ensures Reads(ReadUpdate, texts[i], OntoThemselves(cols)[i]) {
      forall rest: string | EndsItem(rest) ensures ReadUpdate(texts[i] + rest) == Got((cols[i], cols[i]), rest) {
        UpdateIsRead(cols[i], rest);
      }
    }
    ListIsRead(ReadUpdate, texts, OntoThemselves(cols), "");
    assert Join(texts, ", ") + "" == Join(texts, ", ");
  }

  // ---------------------------------------------------------------- the whole statement

  function ActionText(update: seq<string>): string {
    if update == [] then ") DO NOTHING" else ") DO UPDATE SET " + Join(Assignments(update), ", ")
  }

  lemma ActionIsRead(update: seq<string>)
    ensures ReadAction(ActionText(update)) == Got(OntoThemselves(update), "")
    ensures ActionText(update)[0] == ')'
  {
    if update == [] {
      assert OntoThemselves(update) == [];
    } else {
      var sets := Join(Assignments(update), ", ");
      assert ActionText(update)[5] == 'U';
      FixedIsRead(") DO UPDATE SET ", sets);
      UpdatesAreRead(update);
    }
  }

  /** The statement from the closing parenthesis of the values on. */
  lemma TailIsRead(cols: seq<string>, keys: seq<string>)
    requires keys != []
    ensures var update := UpdateColumns(cols, keys);
            ReadTail(UpsertTail(cols, keys)) == Got((keys, OntoThemselves(update)), "")
    ensures EndsItem(UpsertTail(cols, keys))
  {
    var after := ActionText(UpdateColumns(cols, keys));
    ActionIsRead(UpdateColumns(cols, keys));
    NamesAreRead(keys, after);
    TailText(cols, keys);
    FixedIsRead(") ON CONFLICT (", QuoteColumns(keys) + after);
  }

  lemma TailText(cols: seq<string>, keys: seq<string>)
    ensures UpsertTail(cols, keys)
         == ") ON CONFLICT (" + (QuoteColumns(keys) + ActionText(UpdateColumns(cols, keys)))
  {
    TextSplits(QuoteColumns(keys), ActionText(UpdateColumns(cols, keys)));
    if UpdateColumns(cols, keys) != [] {
      Reassociate(" ON CONFLICT (" + QuoteColumns(keys), ") DO UPDATE SET ",
                  Join(Assignments(UpdateColumns(cols, keys)), ", "));
    }
  }

  lemma TextSplits(names: string, action: string)
    ensures ")" + (" ON CONFLICT (" + names + action) == ") ON CONFLICT (" + (names + action)
  {
  }

  /** The statement up to the values. */
  lemma HeadIsRead(table: string, cols: seq<string>, rest: string)
    requires cols != []
    ensures ReadHead(UpsertHead(table, cols) + rest) == Got((table, cols), rest)
  {
    var given := ") VALUES (" + rest;
    var open := " (" + (QuoteColumns(cols) + given);
    NameIsRead(table, open);
    NamesAreRead(cols, given);
    HeadText(QuoteIdent(table), QuoteColumns(cols), rest);
    FixedIsRead("INSERT INTO ", QuoteIdent(table) + open);
    FixedIsRead(" (", QuoteColumns(cols) + given);
    FixedIsRead(") VALUES (", rest);
  }

  lemma HeadText(table: string, cols: string, rest: string)
    ensures "INSERT INTO " + table + " (" + cols + ") VALUES (" + rest
         == "INSERT INTO " + (table + (" (" + (cols + (") VALUES (" + rest))))
  {
  }

  lemma UpsertIsRead(table: string, cols: seq<string>, values: seq<string>, keys: seq<string>)
    requires cols != [] && keys != [] && values != [] && forall i | 0 <= i < |values| :: IsToken(values[i])
    ensures ReadUpsert(UpsertHead(table, cols) + Join(values, ", ") + UpsertTail(cols, keys))
         == Got(Statement(table, cols, values, keys, OntoThemselves(UpdateColumns(cols, keys))), "")
  {
    var tail := UpsertTail(cols, keys);
    TailIsRead(cols, keys);
    TokensAreRead(values, tail);
    HeadIsRead(table, cols, Join(values, ", ") + tail);
    Reassociate(UpsertHead(table, cols), Join(values, ", "), tail);
  }

  /** The columns of an existing row that are overwritten, each by the value brought for itself. */
  ghost predicate OverwritesRest(updates: seq<(string, string)>, cols: seq<string>, keys: seq<string>) {
    && (forall i | 0 <= i < |updates| :: updates[i].0 == updates[i].1)
    && (forall c: string :: (c, c) in updates <==> c in cols && c !in keys && c != "company_id")
  }

  lemma UpdatesOverwriteRest(cols: seq<string>, keys: seq<string>)
    ensures OverwritesRest(OntoThemselves(UpdateColumns(cols, keys)), cols, keys)
  {
    var update := UpdateColumns(cols, keys);
    var updates := OntoThemselves(update);
    forall c: string ensures (c, c) in updates <==> c in cols && c !in keys && c != "company_id" {
      UpdateColumnsAreColumns(cols, keys, c);
      if c in update {
        var i :| 0 <= i < |update| && update[i] == c;
        assert updates[i] == (c, c);
      }
    }
  }

  lemma PlaceholdersAreTokens(n: nat, first: nat)
    ensures forall i | 0 <= i < n :: IsToken(Placeholders(n, first)[i])
  {
    forall i | 0 <= i < n ensures IsToken(Placeholders(n, first)[i]) {
      var digits := Digits(first + i);
      assert forall k | 0 < k <= |digits| :: ("$" + digits)[k] == digits[k - 1];
    }
  }

  /**
   The statement is read back as it was meant, whatever quotes the names hold: the table, the columns with one value
   each, the keys that conflict, and the other columns but the company overwritten by their own values. In postgres,
   after both rewritings and with names free of quotes and question marks, the values are $1, $2 and so on.
   */
  lemma UpsertReadsBack(dialect: string, table: string, cols: seq<string>, keys: seq<string>)
    ensures BuildUpsertSQL(dialect, table, cols, keys).Ok? <==> cols != [] && keys != []
    ensures var built := BuildUpsertSQL(dialect, table, cols, keys);
            built.Ok? && (dialect == "postgres" ==> PlainName(table) && AllPlain(cols) && AllPlain(keys)) ==>
              exists values: seq<string>, updates: seq<(string, string)> ::
                && ReadUpsert(Rebound(dialect, built.value)) == Got(Statement(table, cols, values, keys, updates), "")
                && |values| == |cols| && OverwritesRest(updates, cols, keys)
                && (if dialect == "postgres" then AreNumbered(values, 1) else forall v | v in values :: v == "?")
  {
    if cols != [] && keys != [] {
      var n := |cols|;
      var values := if dialect == "postgres" then Placeholders(n, 1) else seq(n, i => "?");
      PlaceholdersAreTokens(n, 1);
      PlaceholdersAreNumbered(n, 1);
      UpsertIsRead(table, cols, values, keys);
      UpdatesOverwriteRest(cols, keys);
      if dialect == "postgres" && PlainName(table) && AllPlain(cols) && AllPlain(keys) {
        ExecutedText(table, cols, keys);
      }
    }
  }

  predicate AllPlain(names: seq<string>) { forall i | 0 <= i < |names| :: PlainName(names[i]) }

  lemma ExecutedText(table: string, cols: seq<string>, keys: seq<string>)
    requires cols != [] && keys != [] && PlainName(table) && AllPlain(cols) && AllPlain(keys)
    ensures var built := BuildUpsertSQL("postgres", table, cols, keys);
            && built.Ok?
            && Rebound("postgres", built.value)
               == UpsertHead(table, cols) + Join(Placeholders(|cols|, 1), ", ") + UpsertTail(cols, keys)
  {
    UpsertValuesLineUp(table, cols, keys);
    forall holes: seq<string> | |holes| == |cols| && AreNumbered(holes, 1) ensures holes == Placeholders(|cols|, 1) {
      OneNumbering(holes);
    }
  }

  lemma OneNumbering(holes: seq<string>)
    requires AreNumbered(holes, 1)
    ensures holes == Placeholders(|holes|, 1)
  {
    forall k | 0 <= k < |holes| ensures holes[k] == Placeholders(|holes|, 1)[k] {
      assert IsPlaceholder(holes[k], 1 + k);
      OneDecimalText(holes[k][1..], 1 + k);
      assert holes[k] == "$" + holes[k][1..];
    }
  }
}
