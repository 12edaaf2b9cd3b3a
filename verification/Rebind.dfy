/**
 The placeholder rewriter and the upsert text it is applied to twice
 (operational_cycle_go/cmd/legacysync/main.go:613-645, 1358-1386).
 */
module Rebind {
  import opened Common

  /** Decimal digits, as strconv.Itoa writes them. */
  function Digits(n: nat): (s: string)
    ensures s != [] && forall i | 0 <= i < |s| :: '0' <= s[i] <= '9'
  {
    if n < 10 then [('0' as int + n) as char] else Digits(n / 10) + [('0' as int + n % 10) as char]
  }

  /** A text read as a number in base ten, from the left; a character counts by its distance from '0'. */
  function ReadOn(s: string, acc: int): int {
    if s == "" then acc else ReadOn(s[1..], 10 * acc + (s[0] as int - '0' as int))
  }

  /** The usual decimal text of a number: digits only, and no zero in front. */
  predicate IsDecimal(s: string, n: nat) {
    && s != "" && (forall i | 0 <= i < |s| :: '0' <= s[i] <= '9') && ReadOn(s, 0) == n
    && (s[0] == '0' ==> s == "0")
  }

  lemma {:induction false} ReadOneMore(s: string, c: char, acc: int)
    ensures ReadOn(s + [c], acc) == 10 * ReadOn(s, acc) + (c as int - '0' as int)
  {
    if s == "" {
      assert s + [c] == [c];
    } else {
      assert (s + [c])[1..] == s[1..] + [c];
      ReadOneMore(s[1..], c, 10 * acc + (s[0] as int - '0' as int));
    }
  }

  /** The digits of a number are its decimal text. */
  lemma {:induction false} DigitsReadBack(n: nat)
    ensures IsDecimal(Digits(n), n)
    ensures n > 0 ==> Digits(n)[0] != '0'
  {
    if n >= 10 {
      DigitsReadBack(n / 10);
      ReadOneMore(Digits(n / 10), ('0' as int + n % 10) as char, 0);
    } else {
      assert Digits(n)[1..] == "";
    }
  }

  lemma {:induction false} ReadAtLeast(s: string, acc: int)
    requires acc >= 0 && forall i | 0 <= i < |s| :: '0' <= s[i] <= '9'
    ensures ReadOn(s, acc) >= acc
  {
    if s != "" {
      ReadAtLeast(s[1..], 10 * acc + (s[0] as int - '0' as int));
    }
  }

  /** And a number has only one decimal text. */
  lemma {:induction false} OneDecimalText(s: string, n: nat)
    requires IsDecimal(s, n)
    ensures s == Digits(n)
    decreases |s|
  {
    var k := |s| - 1;
    assert s == s[..k] + [s[k]];
    ReadOneMore(s[..k], s[k], 0);
    if k == 0 {
      assert s[..k] == "";
    } else {
      var front := s[..k];
      assert front[0] == s[0] != '0';
      ReadAtLeast(front[1..], front[0] as int - '0' as int);
      OneDecimalText(front, ReadOn(front, 0));
    }
  }

  /** The quote flag after one character. */
  function Flip(ch: char, inSingle: bool): bool { if ch == '\'' then !inSingle else inSingle }

  /** Whether a character is a placeholder outside quoted text. */
  predicate IsMark(ch: char, inSingle: bool) { ch == '?' && !inSingle }

  function Emit(ch: char, inSingle: bool, idx: nat): string {
    if IsMark(ch, inSingle) then "$" + Digits(idx) else [ch]
  }

  function Counted(ch: char, inSingle: bool): nat { if IsMark(ch, inSingle) then 1 else 0 }

  /** Whether the scan is inside a quoted text after reading q. */
  function Quoted(q: string, inSingle: bool): bool {
    if q == [] then inSingle else Quoted(q[1..], Flip(q[0], inSingle))
  }

  /** How many placeholders q holds outside quoted text. */
  function Marks(q: string, inSingle: bool): nat {
    if q == [] then 0 else Counted(q[0], inSingle) + Marks(q[1..], Flip(q[0], inSingle))
  }

  function Number(q: string, inSingle: bool, idx: nat): string {
    if q == [] then []
    else Emit(q[0], inSingle, idx) + Number(q[1..], Flip(q[0], inSingle), idx + Counted(q[0], inSingle))
  }

  function Rebound(dialect: string, q: string): string {
    if dialect != "postgres" then q else Number(q, false, 1)
  }

  /** The byte loop with its quote flag, counter and string builder. */
  method RebindLoop(dialect: string, q: string) returns (r: string)
    ensures r == Rebound(dialect, q)
  {
    if dialect != "postgres" {
      return q;
    }
    r := [];
    var inSingle, idx := false, 1;
    for i := 0 to |q|
      invariant idx >= 1
      invariant Number(q, false, 1) == r + Number(q[i..], inSingle, idx)
    {
      var ch := q[i];
      assert q[i..][0] == ch && q[i..][1..] == q[i + 1..];
      ghost var rest := Number(q[i + 1..], Flip(ch, inSingle), idx + Counted(ch, inSingle));
      assert r + (Emit(ch, inSingle, idx) + rest) == (r + Emit(ch, inSingle, idx)) + rest;
      if ch == '\'' {
        inSingle := !inSingle;
        r := r + [ch];
        continue;
      }
      if ch == '?' && !inSingle {
        r := r + ("$" + Digits(idx));
        idx := idx + 1;
        continue;
      }
      r := r + [ch];
    }
  }

  // ---------------------------------------------------------------- what the rewriting means

  lemma Reassociate<T>(a: seq<T>, b: seq<T>, c: seq<T>)
    ensures a + (b + c) == (a + b) + c
  {
  }

  lemma NumberStep(ch: char, q: string, inSingle: bool, idx: nat)
    ensures Number([ch] + q, inSingle, idx)
         == Emit(ch, inSingle, idx) + Number(q, Flip(ch, inSingle), idx + Counted(ch, inSingle))
  {
    assert ([ch] + q)[1..] == q;
  }

  lemma {:induction false} NumberConcat(a: string, b: string, inSingle: bool, idx: nat)
    ensures Number(a + b, inSingle, idx)
         == Number(a, inSingle, idx) + Number(b, Quoted(a, inSingle), idx + Marks(a, inSingle))
  {
    if a == [] {
      assert a + b == b;
    } else {
      var ch, rest := a[0], a[1..];
      var quoted, next := Flip(ch, inSingle), idx + Counted(ch, inSingle);
      calc {
        Number(a + b, inSingle, idx);
        { assert a + b == [ch] + (rest + b); NumberStep(ch, rest + b, inSingle, idx); }
        Emit(ch, inSingle, idx) + Number(rest + b, quoted, next);
        { NumberConcat(rest, b, quoted, next); }
        Emit(ch, inSingle, idx)
          + (Number(rest, quoted, next) + Number(b, Quoted(rest, quoted), next + Marks(rest, quoted)));
        { Reassociate(Emit(ch, inSingle, idx), Number(rest, quoted, next),
                      Number(b, Quoted(rest, quoted), next + Marks(rest, quoted))); }
        Number(a, inSingle, idx) + Number(b, Quoted(a, inSingle), idx + Marks(a, inSingle));
      }
    }
  }

  lemma {:induction false} MarksConcat(a: string, b: string, inSingle: bool)
    ensures Marks(a + b, inSingle) == Marks(a, inSingle) + Marks(b, Quoted(a, inSingle))
    ensures Quoted(a + b, inSingle) == Quoted(b, Quoted(a, inSingle))
  {
    if a == [] {
      assert a + b == b;
    } else {
      assert (a + b)[1..] == a[1..] + b && (a + b)[0] == a[0];
      MarksConcat(a[1..], b, Flip(a[0], inSingle));
    }
  }

  /** The text cut at its unquoted placeholders. */
  function Pieces(q: string, inSingle: bool): (p: seq<string>)
    ensures |p| == Marks(q, inSingle) + 1
  {
    if q == [] then [""]
    else
      var rest := Pieces(q[1..], Flip(q[0], inSingle));
      if IsMark(q[0], inSingle) then [""] + rest else [[q[0]] + rest[0]] + rest[1..]
  }

  /** The pieces with the given texts between them. */
  function Woven(pieces: seq<string>, between: seq<string>): string
    requires |pieces| == |between| + 1
  {
    if between == [] then pieces[0] else pieces[0] + between[0] + Woven(pieces[1..], between[1..])
  }

  /** $ and the decimal text of the number. */
  predicate IsPlaceholder(s: string, n: nat) {
    s != "" && s[0] == '$' && IsDecimal(s[1..], n)
  }

  /** The texts $first, $first+1, ... in order. */
  predicate AreNumbered(holes: seq<string>, first: nat) {
    forall k | 0 <= k < |holes| :: IsPlaceholder(holes[k], first + k)
  }

  function Placeholders(n: nat, first: nat): (holes: seq<string>)
    ensures |holes| == n
  {
    seq(n, i requires 0 <= i < n => "$" + Digits(first + i))
  }

  lemma PlaceholdersAreNumbered(n: nat, first: nat)
    ensures AreNumbered(Placeholders(n, first), first)
  {
    forall k | 0 <= k < n ensures IsPlaceholder(Placeholders(n, first)[k], first + k) {
      DigitsReadBack(first + k);
      assert ("$" + Digits(first + k))[1..] == Digits(first + k);
    }
  }

  /** The pieces put back together around plain placeholders. */
  function Plain(p: seq<string>): string
    requires p != []
  {
    if |p| == 1 then p[0] else p[0] + "?" + Plain(p[1..])
  }

  /** The pieces put back together around $idx, $idx+1, ... */
  function Dollars(p: seq<string>, idx: nat): string
    requires p != []
  {
    if |p| == 1 then p[0] else p[0] + ("$" + Digits(idx)) + Dollars(p[1..], idx + 1)
  }

  lemma {:induction false} PlainIsWoven(p: seq<string>)
    requires p != []
    ensures Plain(p) == Woven(p, seq(|p| - 1, i => "?"))
  {
    if |p| > 1 {
      PlainIsWoven(p[1..]);
      assert seq(|p| - 1, i => "?")[1..] == seq(|p[1..]| - 1, i => "?");
    }
  }

  lemma {:induction false} DollarsAreWoven(p: seq<string>, idx: nat)
    requires p != []
    ensures Dollars(p, idx) == Woven(p, Placeholders(|p| - 1, idx))
  {
    if |p| > 1 {
      DollarsAreWoven(p[1..], idx + 1);
      assert Placeholders(|p| - 1, idx)[1..] == Placeholders(|p[1..]| - 1, idx + 1);
    }
  }

  function QuotesIn(s: string): nat {
    if s == "" then 0 else (if s[0] == '\'' then 1 else 0) + QuotesIn(s[1..])
  }

  /** A question mark with an even number of quotes before it, or an odd one where the text starts inside quotes. */
  predicate IsHole(q: string, inSingle: bool, i: nat)
    requires i < |q|
  {
    q[i] == '?' && QuotesIn(q[..i]) % 2 == if inSingle then 1 else 0
  }

  /** Where piece k ends, when single characters stand between the pieces. */
  function EndOf(pieces: seq<string>, k: nat): nat
    requires k < |pieces|
  {
    if k == 0 then |pieces[0]| else |pieces[0]| + 1 + EndOf(pieces[1..], k - 1)
  }

  /** One of the single characters between the pieces stands at i. */
  predicate CutsAt(pieces: seq<string>, i: nat) {
    exists k: nat | k < |pieces| - 1 :: EndOf(pieces, k) == i
  }

  /** The text is cut at its unquoted question marks and nowhere else. */
  lemma {:induction false} CutAtHoles(q: string, inSingle: bool, i: nat)
    requires i < |q|
    ensures IsHole(q, inSingle, i) <==> CutsAt(Pieces(q, inSingle), i)
  {
    var ch, quoted := q[0], Flip(q[0], inSingle);
    var pieces, rest := Pieces(q, inSingle), Pieces(q[1..], quoted);
    if IsMark(ch, inSingle) {
      assert pieces[1..] == rest;
    } else {
      assert pieces[1..] == rest[1..];
    }
    if i == 0 {
      assert q[..0] == "";
      FirstEnd(pieces, rest, IsMark(ch, inSingle));
    } else {
      CutAtHoles(q[1..], quoted, i - 1);
      assert q[..i][0] == ch && q[..i][1..] == q[1..][..i - 1];
      EndsShift(pieces, rest, IsMark(ch, inSingle), i);
    }
  }

  /** The pieces after a character has been put in front: an empty first piece for a mark, else a longer first piece. */
  predicate PutInFront(pieces: seq<string>, rest: seq<string>, mark: bool) {
    && rest != [] && pieces != []
    && if mark then pieces[0] == "" && pieces[1..] == rest
       else |pieces[0]| == |rest[0]| + 1 && pieces[1..] == rest[1..]
  }

  lemma EndMoves(pieces: seq<string>, rest: seq<string>, mark: bool, k: nat)
    requires PutInFront(pieces, rest, mark) && k < |rest|
    ensures EndOf(pieces, if mark then k + 1 else k) == EndOf(rest, k) + 1
  {
  }

  lemma FirstEnd(pieces: seq<string>, rest: seq<string>, mark: bool)
    requires PutInFront(pieces, rest, mark)
    ensures CutsAt(pieces, 0) <==> mark
  {
    if mark { assert EndOf(pieces, 0) == 0; }
  }

  /** Putting a character in front moves every later cut by one. */
  lemma EndsShift(pieces: seq<string>, rest: seq<string>, mark: bool, i: nat)
    requires PutInFront(pieces, rest, mark) && i > 0
    ensures CutsAt(pieces, i) <==> CutsAt(rest, i - 1)
  {
    if CutsAt(pieces, i) {
      var k: nat :| k < |pieces| - 1 && EndOf(pieces, k) == i;
      var k' := if mark then k - 1 else k;
      EndMoves(pieces, rest, mark, k');
      assert EndOf(rest, k') == i - 1;
    }
    if CutsAt(rest, i - 1) {
      var k: nat :| k < |rest| - 1 && EndOf(rest, k) == i - 1;
      EndMoves(pieces, rest, mark, k);
    }
  }

  /** The pieces are the text cut at exactly its holes. */
  ghost predicate CutExactly(q: string, pieces: seq<string>) {
    && pieces != [] && q == Woven(pieces, seq(|pieces| - 1, i => "?"))
    && forall i: nat | i < |q| :: IsHole(q, false, i) <==> CutsAt(pieces, i)
  }

  /** The text is the pieces with $1, $2 and so on in decimal between them, in order. */
  ghost predicate NumberedBetween(r: string, pieces: seq<string>) {
    exists holes: seq<string> | |holes| + 1 == |pieces| && AreNumbered(holes, 1) :: r == Woven(pieces, holes)
  }

  lemma PiecesAreExact(q: string)
    ensures CutExactly(q, Pieces(q, false))
  {
    PiecesRebound(q, false, 1);
    PlainIsWoven(Pieces(q, false));
    forall i: nat | i < |q| ensures IsHole(q, false, i) <==> CutsAt(Pieces(q, false), i) {
      CutAtHoles(q, false, i);
    }
  }

  lemma NumberedInOrder(q: string)
    ensures NumberedBetween(Number(q, false, 1), Pieces(q, false))
  {
    PiecesRebound(q, false, 1);
    DollarsAreWoven(Pieces(q, false), 1);
    PlaceholdersAreNumbered(Marks(q, false), 1);
  }

  /**
   In any other dialect the text stays as it is. For postgres the rewriting cuts it at its question marks
   outside quotes, keeps the pieces, and puts $1, $2 and so on in decimal between them in order.
   */
  lemma RebindNumbersInOrder(dialect: string, q: string)
    ensures if dialect != "postgres" then Rebound(dialect, q) == q
            else exists pieces: seq<string> | CutExactly(q, pieces) :: NumberedBetween(Rebound(dialect, q), pieces)
  {
    PiecesAreExact(q);
    NumberedInOrder(q);
  }

  /** The numbered placeholders are determined by their numbers. */
  lemma NumberedOnce(holes: seq<string>, first: nat)
    requires AreNumbered(holes, first)
    ensures holes == Placeholders(|holes|, first)
  {
    forall k | 0 <= k < |holes| ensures holes[k] == "$" + Digits(first + k) {
      OneDecimalText(holes[k][1..], first + k);
      assert holes[k] == [holes[k][0]] + holes[k][1..];
    }
  }

  lemma {:induction false} PiecesRebound(q: string, inSingle: bool, idx: nat)
    ensures Plain(Pieces(q, inSingle)) == q
    ensures Number(q, inSingle, idx) == Dollars(Pieces(q, inSingle), idx)
  {
    if q != [] {
      var ch, rest := q[0], Pieces(q[1..], Flip(q[0], inSingle));
      PiecesRebound(q[1..], Flip(ch, inSingle), idx + Counted(ch, inSingle));
      if IsMark(ch, inSingle) {
        EmptyFirst(rest, idx);
      } else {
        PrefixFirst(ch, rest, idx);
      }
    }
  }

  lemma EmptyFirst(p: seq<string>, idx: nat)
    requires p != []
    ensures Plain([""] + p) == ['?'] + Plain(p)
    ensures Dollars([""] + p, idx) == ("$" + Digits(idx)) + Dollars(p, idx + 1)
  {
    var longer, number := [""] + p, "$" + Digits(idx);
    assert longer[1..] == p;
    Reassociate("", "?", Plain(p));
    Reassociate("", number, Dollars(p, idx + 1));
    EmptyConcat(number + Dollars(p, idx + 1));
    EmptyConcat("?" + Plain(p));
  }

  lemma EmptyConcat(s: string)
    ensures "" + s == s
  {
  }

  /** A character put before the first piece comes out before the whole text. */
  lemma PrefixFirst(ch: char, p: seq<string>, idx: nat)
    requires p != []
    ensures Plain([[ch] + p[0]] + p[1..]) == [ch] + Plain(p)
    ensures Dollars([[ch] + p[0]] + p[1..], idx) == [ch] + Dollars(p, idx)
  {
    var longer := [[ch] + p[0]] + p[1..];
    assert longer[1..] == p[1..];
    if |p| > 1 {
      assert ([ch] + p[0]) + "?" + Plain(p[1..]) == [ch] + (p[0] + "?" + Plain(p[1..]));
      var number, tail := "$" + Digits(idx), Dollars(p[1..], idx + 1);
      assert ([ch] + p[0]) + number + tail == [ch] + (p[0] + number + tail);
    }
  }

  lemma {:induction false} PlainText(s: string, inSingle: bool)
    requires forall i | 0 <= i < |s| :: s[i] != '\'' && s[i] != '?'
    ensures Marks(s, inSingle) == 0 && Quoted(s, inSingle) == inSingle
  {
    if s != [] {
      PlainText(s[1..], inSingle);
    }
  }

  lemma {:induction false} NothingToNumber(q: string, inSingle: bool, idx: nat)
    ensures Marks(q, inSingle) == 0 ==> Number(q, inSingle, idx) == q
    ensures Marks(q, inSingle) > 0 ==> |Number(q, inSingle, idx)| > |q|
    ensures |Number(q, inSingle, idx)| >= |q|
  {
    if q != [] {
      NothingToNumber(q[1..], Flip(q[0], inSingle), idx + Counted(q[0], inSingle));
    }
  }

  lemma {:induction false} NoMarksLeft(q: string, inSingle: bool, idx: nat)
    ensures Marks(Number(q, inSingle, idx), inSingle) == 0
  {
    if q != [] {
      var out, rest := Emit(q[0], inSingle, idx), Number(q[1..], Flip(q[0], inSingle), idx + Counted(q[0], inSingle));
      NoMarksLeft(q[1..], Flip(q[0], inSingle), idx + Counted(q[0], inSingle));
      MarksConcat(out, rest, inSingle);
      EmitHasNoMarks(q[0], inSingle, idx);
    }
  }

  lemma EmitHasNoMarks(ch: char, inSingle: bool, idx: nat)
    ensures Marks(Emit(ch, inSingle, idx), inSingle) == 0
    ensures Quoted(Emit(ch, inSingle, idx), inSingle) == Flip(ch, inSingle)
  {
    var out := Emit(ch, inSingle, idx);
    if IsMark(ch, inSingle) {
      PlainText(out, inSingle);
    } else {
      assert out[1..] == "";
    }
  }

  /** Rewriting twice is rewriting once, for every text. */
  lemma RebindTwiceIsOnce(dialect: string, q: string)
    ensures Rebound(dialect, Rebound(dialect, q)) == Rebound(dialect, q)
  {
    NoMarksLeft(q, false, 1);
    NothingToNumber(Number(q, false, 1), false, 1);
  }

  // ---------------------------------------------------------------- the upsert statement

  function Escaped(name: string): string {
    if name == [] then [] else (if name[0] == '"' then "\"\"" else [name[0]]) + Escaped(name[1..])
  }

  function QuoteIdent(name: string): string {
    "\"" + Escaped(name) + "\""
  }

  function Join(parts: seq<string>, separator: string): string {
    if parts == [] then ""
    else if |parts| == 1 then parts[0]
    else parts[0] + separator + Join(parts[1..], separator)
  }

  function QuoteColumns(names: seq<string>): string {
    Join(seq(|names|, i requires 0 <= i < |names| => QuoteIdent(names[i])), ", ")
  }

  /** The columns an existing row has overwritten: neither a merge key nor the company. */
  function UpdateColumns(cols: seq<string>, keys: seq<string>): seq<string> {
    if cols == [] then []
    else (if cols[0] !in keys && cols[0] != "company_id" then [cols[0]] else []) + UpdateColumns(cols[1..], keys)
  }

  function Assignments(cols: seq<string>): seq<string> {
    seq(|cols|, i requires 0 <= i < |cols| => QuoteIdent(cols[i]) + " = EXCLUDED." + QuoteIdent(cols[i]))
  }

  function UpsertHead(table: string, cols: seq<string>): string {
    "INSERT INTO " + QuoteIdent(table) + " (" + QuoteColumns(cols) + ") VALUES ("
  }

  function UpsertTail(cols: seq<string>, keys: seq<string>): string {
    var update := UpdateColumns(cols, keys);
    ")" + if update == [] then " ON CONFLICT (" + QuoteColumns(keys) + ") DO NOTHING"
          else " ON CONFLICT (" + QuoteColumns(keys) + ") DO UPDATE SET " + Join(Assignments(update), ", ")
  }

  /** n plain placeholders. */
  function Holes(n: nat): string {
    Join(seq(n, i => "?"), ", ")
  }

  /** The placeholders $first .. $(first+n-1). */
  function NumberedHoles(n: nat, first: nat): string { Join(Placeholders(n, first), ", ") }

  function UpsertText(table: string, cols: seq<string>, keys: seq<string>): string {
    UpsertHead(table, cols) + Holes(|cols|) + UpsertTail(cols, keys)
  }

  function BuildUpsertSQL(dialect: string, table: string, cols: seq<string>, keys: seq<string>): Result<string> {
    if cols == [] then Err("no columns to insert")
    else if keys == [] then Err("no conflict keys")
    else Ok(Rebound(dialect, UpsertText(table, cols, keys)))
  }

  lemma {:induction false} HolesNumbered(n: nat, first: nat)
    ensures Number(Holes(n), false, first) == NumberedHoles(n, first)
    ensures Marks(Holes(n), false) == n && !Quoted(Holes(n), false)
  {
    var plain, numbered := seq(n, i => "?"), seq(n, i requires 0 <= i < n => "$" + Digits(first + i));
    if n > 0 {
      OneHole(first);
      assert plain[0] == "?" && numbered[0] == "$" + Digits(first);
      if n > 1 {
        assert plain[1..] == seq(n - 1, i => "?");
        assert numbered[1..] == seq(n - 1, i requires 0 <= i < n - 1 => "$" + Digits(first + 1 + i));
        HolesNumbered(n - 1, first + 1);
        NumberConcat("?" + ", ", Holes(n - 1), false, first);
        MarksConcat("?" + ", ", Holes(n - 1), false);
      }
    }
  }

  lemma OneHole(first: nat)
    ensures Marks("?", false) == 1 && Marks("?" + ", ", false) == 1 && !Quoted("?" + ", ", false) && !Quoted("?", false)
    ensures Number("?", false, first) == "$" + Digits(first)
    ensures Number("?" + ", ", false, first) == "$" + Digits(first) + ", "
  {
    assert "?"[1..] == "";
    NumberConcat("?", ", ", false, first);
    MarksConcat("?", ", ", false);
    PlainText(", ", false);
    NothingToNumber(", ", false, first + 1);
  }

  /** The text with value k's placeholder numbered k and nothing else touched. */
  ghost predicate ValuesLineUp(head: string, n: nat, tail: string) {
    Number(head + Holes(n) + tail, false, 1) == head + NumberedHoles(n, 1) + tail
  }

  /** No question mark of the text stands outside quotes. */
  predicate NoHoles(q: string) {
    forall i: nat | i < |q| :: !IsHole(q, false, i)
  }

  lemma {:induction false} QuotedMeans(q: string, inSingle: bool)
    ensures Quoted(q, inSingle) <==> (QuotesIn(q) + if inSingle then 1 else 0) % 2 == 1
  {
    if q != "" {
      QuotedMeans(q[1..], Flip(q[0], inSingle));
    }
  }

  lemma NoMarksMeans(q: string)
    ensures Marks(q, false) == 0 <==> NoHoles(q)
  {
    forall i: nat | i < |q| ensures IsHole(q, false, i) <==> CutsAt(Pieces(q, false), i) {
      CutAtHoles(q, false, i);
    }
    if Marks(q, false) > 0 {
      FirstMarkCuts(q, false);
    }
  }

  lemma {:induction false} FirstMarkCuts(q: string, inSingle: bool)
    requires Marks(q, inSingle) > 0
    ensures CutsAt(Pieces(q, inSingle), FirstMark(q, inSingle))
  {
    if IsMark(q[0], inSingle) {
      assert EndOf(Pieces(q, inSingle), 0) == 0;
    } else {
      var rest := Pieces(q[1..], Flip(q[0], inSingle));
      FirstMarkCuts(q[1..], Flip(q[0], inSingle));
      EndsShift(Pieces(q, inSingle), rest, false, FirstMark(q, inSingle));
    }
  }

  /**
   Value k sits at placeholder k exactly when the text around the value list holds no unquoted
   placeholder and the list itself does not start inside a quoted text.
   */
  lemma ValuesLineUpIff(head: string, n: nat, tail: string)
    requires n > 0
    ensures ValuesLineUp(head, n, tail) <==> NoHoles(head) && QuotesIn(head) % 2 == 0 && NoHoles(tail)
  {
    NoMarksMeans(head);
    NoMarksMeans(tail);
    QuotedMeans(head, false);
    if Marks(head, false) > 0 {
      HeadMarkSpoils(head, n, tail);
    } else if Quoted(head, false) {
      QuotedListSpoils(head, n, tail);
    } else {
      CleanHead(head, n, tail);
    }
  }

  lemma CleanHeadNumbered(head: string, n: nat, tail: string)
    requires Marks(head, false) == 0 && !Quoted(head, false)
    ensures Number(head + Holes(n) + tail, false, 1) == (head + NumberedHoles(n, 1)) + Number(tail, false, n + 1)
  {
    NumberConcat(head, Holes(n), false, 1);
    MarksConcat(head, Holes(n), false);
    NumberConcat(head + Holes(n), tail, false, 1);
    NothingToNumber(head, false, 1);
    HolesNumbered(n, 1);
  }

  lemma CleanHead(head: string, n: nat, tail: string)
    requires Marks(head, false) == 0 && !Quoted(head, false)
    ensures ValuesLineUp(head, n, tail) <==> Marks(tail, false) == 0
  {
    var front, numbered := head + NumberedHoles(n, 1), Number(tail, false, n + 1);
    CleanHeadNumbered(head, n, tail);
    NothingToNumber(tail, false, n + 1);
    if Marks(tail, false) > 0 {
      assert |front + numbered| > |front + tail|;
    }
  }

  lemma QuotedListSpoils(head: string, n: nat, tail: string)
    requires n > 0 && Marks(head, false) == 0 && Quoted(head, false)
    ensures !ValuesLineUp(head, n, tail)
  {
    var rest := Holes(n) + tail;
    assert head + Holes(n) + tail == head + rest;
    NumberConcat(head, rest, false, 1);
    NothingToNumber(head, false, 1);
    FirstCharacters(n);
    assert rest[0] == '?';
    assert Number(rest, true, 1)[0] == '?';
    assert (head + Number(rest, true, 1))[|head|] == '?';
    assert (head + NumberedHoles(n, 1) + tail)[|head|] == '$';
  }

  lemma HeadMarkSpoils(head: string, n: nat, tail: string)
    requires Marks(head, false) > 0
    ensures !ValuesLineUp(head, n, tail)
  {
    var i := FirstMark(head, false);
    MarkBecomesDollar(head, Holes(n) + tail, false, 1);
    assert head + Holes(n) + tail == head + (Holes(n) + tail);
    assert (head + NumberedHoles(n, 1) + tail)[i] == '?';
  }

  lemma FirstCharacters(n: nat)
    requires n > 0
    ensures |Holes(n)| > 0 && Holes(n)[0] == '?'
    ensures |NumberedHoles(n, 1)| > 0 && NumberedHoles(n, 1)[0] == '$'
  {
    var plain, numbered := seq(n, i => "?"), seq(n, i requires 0 <= i < n => "$" + Digits(1 + i));
    assert plain[0] == "?" && numbered[0] == "$" + Digits(1);
  }

  function FirstMark(q: string, inSingle: bool): (i: nat)
    requires Marks(q, inSingle) > 0
    ensures i < |q| && q[i] == '?'
  {
    if IsMark(q[0], inSingle) then 0 else 1 + FirstMark(q[1..], Flip(q[0], inSingle))
  }

  lemma {:induction false} MarkBecomesDollar(q: string, rest: string, inSingle: bool, idx: nat)
    requires Marks(q, inSingle) > 0
    ensures FirstMark(q, inSingle) < |Number(q + rest, inSingle, idx)|
    ensures Number(q + rest, inSingle, idx)[FirstMark(q, inSingle)] == '$'
  {
    assert (q + rest)[1..] == q[1..] + rest && (q + rest)[0] == q[0];
    if !IsMark(q[0], inSingle) {
      MarkBecomesDollar(q[1..], rest, Flip(q[0], inSingle), idx);
    }
  }

  // ---------------------------------------------------------------- plain names are enough

  predicate PlainName(s: string) {
    forall i | 0 <= i < |s| :: s[i] != '\'' && s[i] != '?'
  }

  lemma {:induction false} EscapedPlain(s: string)
    requires PlainName(s)
    ensures PlainName(QuoteIdent(s)) && PlainName(Escaped(s))
  {
    if s != [] {
      EscapedPlain(s[1..]);
    }
  }

  lemma {:induction false} JoinPlain(parts: seq<string>, separator: string)
    requires PlainName(separator) && forall i | 0 <= i < |parts| :: PlainName(parts[i])
    ensures PlainName(Join(parts, separator))
  {
    if |parts| > 1 {
      JoinPlain(parts[1..], separator);
    }
  }

  lemma ColumnsPlain(names: seq<string>)
    requires forall i | 0 <= i < |names| :: PlainName(names[i])
    ensures PlainName(QuoteColumns(names)) && PlainName(Join(Assignments(names), ", "))
  {
    forall i | 0 <= i < |names| ensures PlainName(QuoteIdent(names[i])) { EscapedPlain(names[i]); }
    JoinPlain(seq(|names|, i requires 0 <= i < |names| => QuoteIdent(names[i])), ", ");
    JoinPlain(Assignments(names), ", ");
  }

  lemma {:induction false} UpdateColumnsAreColumns(cols: seq<string>, keys: seq<string>, c: string)
    ensures c in UpdateColumns(cols, keys) <==> c in cols && c !in keys && c != "company_id"
  {
    if cols != [] {
      UpdateColumnsAreColumns(cols[1..], keys, c);
    }
  }

  /**
   With table, column and key names free of quotes and placeholders, the statement that reaches the
   database after both rewritings has value k at placeholder k.
   */
  lemma UpsertValuesLineUp(table: string, cols: seq<string>, keys: seq<string>)
    requires cols != [] && keys != [] && PlainName(table)
    requires forall i | 0 <= i < |cols| :: PlainName(cols[i])
    requires forall i | 0 <= i < |keys| :: PlainName(keys[i])
    ensures var built := BuildUpsertSQL("postgres", table, cols, keys);
            built.Ok? && exists holes: seq<string> | |holes| == |cols| && AreNumbered(holes, 1) ::
              Rebound("postgres", built.value) == UpsertHead(table, cols) + Join(holes, ", ") + UpsertTail(cols, keys)
  {
    PlaceholdersAreNumbered(|cols|, 1);
    var head, tail := UpsertHead(table, cols), UpsertTail(cols, keys);
    HeadPlain(table, cols);
    TailPlain(cols, keys);
    PlainText(head, false);
    PlainText(tail, false);
    CleanHead(head, |cols|, tail);
    RebindTwiceIsOnce("postgres", UpsertText(table, cols, keys));
  }

  lemma HeadPlain(table: string, cols: seq<string>)
    requires PlainName(table) && forall i | 0 <= i < |cols| :: PlainName(cols[i])
    ensures PlainName(UpsertHead(table, cols))
  {
    EscapedPlain(table);
    ColumnsPlain(cols);
  }

  lemma TailPlain(cols: seq<string>, keys: seq<string>)
    requires forall i | 0 <= i < |cols| :: PlainName(cols[i])
    requires forall i | 0 <= i < |keys| :: PlainName(keys[i])
    ensures PlainName(UpsertTail(cols, keys))
  {
    var update := UpdateColumns(cols, keys);
    forall i | 0 <= i < |update| ensures PlainName(update[i]) { UpdateColumnsAreColumns(cols, keys, update[i]); }
    ColumnsPlain(keys);
    ColumnsPlain(update);
    var before, after := " ON CONFLICT (" + QuoteColumns(keys), ") DO UPDATE SET " + Join(Assignments(update), ", ");
    FixedTextPlain();
    assert PlainName(before) && PlainName(after) && PlainName(")" + before);
    assert UpsertTail(cols, keys) == ")" + (before + if update == [] then ") DO NOTHING" else after);
  }

  lemma FixedTextPlain()
    ensures PlainName(" ON CONFLICT (") && PlainName(") DO UPDATE SET ") && PlainName(") DO NOTHING")
  {
  }
}
