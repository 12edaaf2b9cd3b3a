/**
 The workspace document and its row-keyed three-way merge
 (financial/web/src/App.jsx:694-770).

 A document maps field names to values. A value is either an array of rows or any other JSON
 value, which only takes part in equality tests. A field that is absent stands for `undefined`.
 */
module WorkspaceMerge {
  import opened Common

  /** A row: the five fields that can name it, and everything else it holds. */
  datatype Row = Row(
    id: Option<string>,
    number: Option<string>,
    sourceId: Option<string>,
    checkNo: Option<string>,
    trackingNo: Option<string>,
    rest: string)

  /** A row is named by its first identifying field, or else by its whole content. */
  datatype Key = Named(name: string) | ByContent(row: Row)

  datatype Value = Rows(rows: seq<Row>) | Scalar(json: string)

  type Doc = map<string, Value>

  predicate Blank(s: string) {
    forall i | 0 <= i < |s| :: s[i] in {' ', '\t', '\n', '\r'}
  }

  function OrElse(first: Option<string>, second: Option<string>): Option<string> {
    if first.Some? then first else second
  }

  function RowKey(r: Row): Key {
    var name := OrElse(r.id, OrElse(r.number, OrElse(r.sourceId, OrElse(r.checkNo, r.trackingNo))));
    if name.Some? && !Blank(name.value) then Named(name.value) else ByContent(r)
  }

  /** The fields that can name a row, in the order in which they are asked. */
  function NamesInOrder(r: Row): seq<Option<string>> { [r.id, r.number, r.sourceId, r.checkNo, r.trackingNo] }

  /** Field k is the first one present, and it holds something besides blanks. */
  predicate NamedBy(r: Row, k: nat, name: string) {
    && k < 5 && NamesInOrder(r)[k] == Some(name) && (forall j | 0 <= j < k :: NamesInOrder(r)[j].None?)
    && exists i | 0 <= i < |name| :: name[i] != ' ' && name[i] != '\t' && name[i] != '\n' && name[i] != '\r'
  }

  /**
   Two rows stand for one row of the table exactly when the first identifying field present in each holds the same
   name, or neither has a name and they are equal.
   */
  lemma SameRowIff(r: Row, q: Row)
    ensures RowKey(r) == RowKey(q)
       <==> || (exists k: nat, j: nat, name: string :: NamedBy(r, k, name) && NamedBy(q, j, name))
            || (r == q && !exists k: nat, name: string :: NamedBy(r, k, name))
  {
    var k, name := FirstName(r);
    var j, other := FirstName(q);
    if RowKey(r).Named? && RowKey(q).Named? && name == other {
      assert NamedBy(r, k, name) && NamedBy(q, j, name);
    }
  }

  lemma FirstName(r: Row) returns (k: nat, name: string)
    ensures RowKey(r).Named? ==> NamedBy(r, k, name) && RowKey(r) == Named(name)
    ensures RowKey(r).ByContent? ==> RowKey(r) == ByContent(r) && forall k: nat, name: string :: !NamedBy(r, k, name)
    ensures forall k: nat, other: string | NamedBy(r, k, other) :: RowKey(r) == Named(other)
  {
    k := if r.id.Some? then 0 else if r.number.Some? then 1 else if r.sourceId.Some? then 2
         else if r.checkNo.Some? then 3 else 4;
    name := if NamesInOrder(r)[k].Some? then NamesInOrder(r)[k].value else "";
    assert forall j | 0 <= j < k :: NamesInOrder(r)[j].None?;
    forall k': nat, other: string | NamedBy(r, k', other) ensures k' == k && RowKey(r) == Named(other) {
      assert NamesInOrder(r)[k'] == Some(other);
    }
  }

  /** The rows as a map from key to row; of rows with one key the last one counts. */
  function RowMap(rows: seq<Row>): map<Key, Row> {
    if rows == [] then map[]
    else
      var last := rows[|rows| - 1];
      RowMap(rows[..|rows| - 1])[RowKey(last) := last]
  }

  function KeysOf(rows: seq<Row>): seq<Key> {
    seq(|rows|, i requires 0 <= i < |rows| => RowKey(rows[i]))
  }

  function Lookup<K, V>(m: map<K, V>, k: K): Option<V> {
    if k in m then Some(m[k]) else None
  }

  // ---------------------------------------------------------------- merging rows

  /** The local side has its own version of row k, different from the base. */
  predicate LocalWins(base: map<Key, Row>, local: map<Key, Row>, k: Key) {
    k in local && Lookup(base, k) != Some(local[k])
  }

  function PickRow(r: Row, base: map<Key, Row>, local: map<Key, Row>): Row {
    if LocalWins(base, local, RowKey(r)) then local[RowKey(r)] else r
  }

  /** Server rows in server order, each replaced where the local side wins. */
  function Overlay(server: seq<Row>, base: map<Key, Row>, local: map<Key, Row>): seq<Row> {
    if server == [] then []
    else Overlay(server[..|server| - 1], base, local) + [PickRow(server[|server| - 1], base, local)]
  }

  /** Local rows, in local order, whose key is not in `seen`. */
  function Unseen(local: seq<Row>, seen: set<Key>): seq<Row> {
    if local == [] then []
    else
      var last := local[|local| - 1];
      Unseen(local[..|local| - 1], seen) + if RowKey(last) in seen then [] else [last]
  }

  function MergeRows(base: seq<Row>, server: seq<Row>, local: seq<Row>): seq<Row> {
    Overlay(server, RowMap(base), RowMap(local)) + Unseen(local, RowMap(server).Keys)
  }

  /** The loops that fill `seen` and `merged`. */
  method MergeRowsLoop(base: seq<Row>, server: seq<Row>, local: seq<Row>) returns (merged: seq<Row>)
    ensures merged == MergeRows(base, server, local)
  {
    var baseMap, localMap := RowMap(base), RowMap(local);
    var seen: set<Key> := {};
    merged := [];
    for i := 0 to |server|
      invariant merged == Overlay(server[..i], baseMap, localMap)
      invariant seen == RowMap(server[..i]).Keys
    {
      var r := server[i];
      var k := RowKey(r);
      assert server[..i + 1][..i] == server[..i];
      seen := seen + {k};
      if k in localMap && Lookup(baseMap, k) != Some(localMap[k]) {
        merged := merged + [localMap[k]];
      } else {
        merged := merged + [r];
      }
    }
    assert server[..|server|] == server;
    ghost var fromServer := merged;
    for i := 0 to |local|
      invariant merged == fromServer + Unseen(local[..i], seen)
    {
      assert local[..i + 1][..i] == local[..i];
      if RowKey(local[i]) !in seen {
        merged := merged + [local[i]];
      }
    }
    assert local[..|local|] == local;
  }

  // ---------------------------------------------------------------- what merged rows hold

  lemma {:induction false} RowMapHoldsItsKeys(rows: seq<Row>, k: Key)
    requires k in RowMap(rows)
    ensures RowKey(RowMap(rows)[k]) == k && RowMap(rows)[k] in rows
  {
    var n := |rows| - 1;
    if RowKey(rows[n]) != k {
      RowMapHoldsItsKeys(rows[..n], k);
    }
  }

  lemma {:induction false} RowMapKeys(rows: seq<Row>, k: Key)
    ensures k in RowMap(rows) <==> k in KeysOf(rows)
  {
    if rows != [] {
      var n := |rows| - 1;
      RowMapKeys(rows[..n], k);
      assert KeysOf(rows) == KeysOf(rows[..n]) + [RowKey(rows[n])];
    }
  }

  lemma {:induction false} RowMapConcat(a: seq<Row>, b: seq<Row>)
    ensures RowMap(a + b) == RowMap(a) + RowMap(b)
  {
    if b == [] {
      assert a + b == a;
    } else {
      var n := |b| - 1;
      RowMapConcat(a, b[..n]);
      assert (a + b)[..|a + b| - 1] == a + b[..n];
    }
  }

  lemma Snoc(rows: seq<Row>, r: Row)
    ensures RowMap(rows + [r]) == RowMap(rows)[RowKey(r) := r]
    ensures KeysOf(rows + [r]) == KeysOf(rows) + [RowKey(r)]
  {
    assert (rows + [r])[..|rows|] == rows;
  }

  lemma {:induction false} OverlayKeys(server: seq<Row>, base: map<Key, Row>, local: map<Key, Row>)
    requires forall k | k in local :: RowKey(local[k]) == k
    ensures KeysOf(Overlay(server, base, local)) == KeysOf(server)
  {
    if server != [] {
      var n := |server| - 1;
      OverlayKeys(server[..n], base, local);
      assert server[..n] + [server[n]] == server;
      Snoc(server[..n], server[n]);
      Snoc(Overlay(server[..n], base, local), PickRow(server[n], base, local));
    }
  }

  lemma {:induction false} OverlayRow(server: seq<Row>, base: map<Key, Row>, local: map<Key, Row>, k: Key)
    requires forall k | k in local :: RowKey(local[k]) == k
    ensures Lookup(RowMap(Overlay(server, base, local)), k)
         == if k in RowMap(server) && LocalWins(base, local, k) then Some(local[k]) else Lookup(RowMap(server), k)
  {
    if server != [] {
      var n := |server| - 1;
      OverlayRow(server[..n], base, local, k);
      Snoc(Overlay(server[..n], base, local), PickRow(server[n], base, local));
    }
  }

  lemma {:induction false} UnseenMeaning(local: seq<Row>, seen: set<Key>, k: Key)
    ensures Lookup(RowMap(Unseen(local, seen)), k) == if k in seen then None else Lookup(RowMap(local), k)
  {
    if local != [] {
      var n := |local| - 1;
      UnseenMeaning(local[..n], seen, k);
      Snoc(Unseen(local[..n], seen), local[n]);
      if RowKey(local[n]) in seen {
        assert Unseen(local, seen) == Unseen(local[..n], seen);
      }
    }
  }

  /** The row the merge settles on for one key, from the three sides' rows for it. */
  function Settle<T(==)>(base: Option<T>, server: Option<T>, local: Option<T>): Option<T> {
    if local.Some? && local != base then local
    else if server.Some? then server
    else local
  }

  /** Row by row: the local row where it differs from the base, else the server row, else the local row. */
  lemma MergedRowByKey(base: seq<Row>, server: seq<Row>, local: seq<Row>, k: Key)
    ensures Lookup(RowMap(MergeRows(base, server, local)), k)
         == Settle(Lookup(RowMap(base), k), Lookup(RowMap(server), k), Lookup(RowMap(local), k))
  {
    var bm, sm, lm := RowMap(base), RowMap(server), RowMap(local);
    forall k' | k' in lm ensures RowKey(lm[k']) == k' { RowMapHoldsItsKeys(local, k'); }
    OverlayRow(server, bm, lm, k);
    UnseenMeaning(local, sm.Keys, k);
    RowMapConcat(Overlay(server, bm, lm), Unseen(local, sm.Keys));
  }

  /** Merged keys: the server's key sequence, then the local-only keys in local order. */
  lemma MergedKeyOrder(base: seq<Row>, server: seq<Row>, local: seq<Row>)
    ensures KeysOf(MergeRows(base, server, local))
         == KeysOf(server) + KeysOf(Unseen(local, RowMap(server).Keys))
    ensures forall k :: k in KeysOf(MergeRows(base, server, local)) <==> k in KeysOf(server) || k in KeysOf(local)
  {
    var bm, sm, lm := RowMap(base), RowMap(server), RowMap(local);
    forall k' | k' in lm ensures RowKey(lm[k']) == k' { RowMapHoldsItsKeys(local, k'); }
    OverlayKeys(server, bm, lm);
    var merged := MergeRows(base, server, local);
    assert KeysOf(merged) == KeysOf(server) + KeysOf(Unseen(local, sm.Keys));
    forall k ensures k in KeysOf(merged) <==> k in KeysOf(server) || k in KeysOf(local) {
      MergedRowByKey(base, server, local, k);
      RowMapKeys(merged, k);
      RowMapKeys(server, k);
      RowMapKeys(local, k);
    }
  }

  ghost predicate Distinct<T>(s: seq<T>) {
    forall i, j | 0 <= i < j < |s| :: s[i] != s[j]
  }

  lemma {:induction false} UnseenDistinct(local: seq<Row>, seen: set<Key>)
    requires Distinct(KeysOf(local))
    ensures Distinct(KeysOf(Unseen(local, seen)))
    ensures forall k | k in KeysOf(Unseen(local, seen)) :: k !in seen && k in KeysOf(local)
  {
    if local != [] {
      var n := |local| - 1;
      assert KeysOf(local) == KeysOf(local[..n]) + [RowKey(local[n])];
      assert Distinct(KeysOf(local[..n])) by {
        forall i, j | 0 <= i < j < n ensures KeysOf(local[..n])[i] != KeysOf(local[..n])[j] {
          assert KeysOf(local)[i] != KeysOf(local)[j];
        }
      }
      UnseenDistinct(local[..n], seen);
      var front := Unseen(local[..n], seen);
      Snoc(front, local[n]);
      assert front + [] == front;
      if RowKey(local[n]) !in seen {
        forall i | 0 <= i < |front| ensures KeysOf(front)[i] != RowKey(local[n]) {
          assert KeysOf(front)[i] in KeysOf(local[..n]);
          var j :| 0 <= j < n && KeysOf(local[..n])[j] == KeysOf(front)[i];
          assert KeysOf(local)[j] != KeysOf(local)[n];
        }
      }
    }
  }

  /** No key appears twice in the result when neither side repeats one. */
  lemma MergeKeepsKeysDistinct(base: seq<Row>, server: seq<Row>, local: seq<Row>)
    requires Distinct(KeysOf(server)) && Distinct(KeysOf(local))
    ensures Distinct(KeysOf(MergeRows(base, server, local)))
  {
    MergedKeyOrder(base, server, local);
    UnseenDistinct(local, RowMap(server).Keys);
    var left, right := KeysOf(server), KeysOf(Unseen(local, RowMap(server).Keys));
    forall i, j | 0 <= i < |left| && 0 <= j < |right| ensures left[i] != right[j] {
      RowMapKeys(server, left[i]);
      assert right[j] in right;
    }
  }

  // ---------------------------------------------------------------- merging documents

  predicate IsRows(v: Option<Value>) { v.Some? && v.value.Rows? }

  function RowsOf(v: Option<Value>): seq<Row> {
    if IsRows(v) then v.value.rows else []
  }

  function MergeField(base: Option<Value>, server: Option<Value>, local: Option<Value>): Option<Value> {
    if IsRows(local) || IsRows(server) then Some(Rows(MergeRows(RowsOf(base), RowsOf(server), RowsOf(local))))
    else if local != base then local
    else if server != base then server
    else if local.Some? then local
    else server
  }

  function MergedField(base: Doc, server: Doc, local: Doc, f: string): Option<Value> {
    MergeField(Lookup(base, f), Lookup(server, f), Lookup(local, f))
  }

  function MergeDocs(base: Doc, server: Doc, local: Doc): Doc {
    map f | f in local.Keys + server.Keys && MergedField(base, server, local, f).Some?
      :: MergedField(base, server, local, f).value
  }

  /** Visits the field names in any order, starting from a copy of the server document. */
  method MergeWorkspace3Way(base: Doc, server: Doc, local: Doc) returns (out: Doc)
    ensures out == MergeDocs(base, server, local)
  {
    out := server;
    var todo := local.Keys + server.Keys;
    while todo != {}
      invariant todo <= local.Keys + server.Keys
      invariant forall f :: Lookup(out, f) == if f in todo || f !in local.Keys + server.Keys
                                              then Lookup(server, f) else MergedField(base, server, local, f)
      decreases todo
    {
      var f :| f in todo;
      todo := todo - {f};
      var lv, sv, bv := Lookup(local, f), Lookup(server, f), Lookup(base, f);
      var next: Option<Value>;
      if IsRows(lv) || IsRows(sv) {
        var merged := MergeRowsLoop(RowsOf(bv), RowsOf(sv), RowsOf(lv));
        next := Some(Rows(merged));
      } else if lv != bv {
        next := lv;
      } else if sv != bv {
        next := sv;
      } else {
        next := if lv.Some? then lv else sv;
      }
      out := if next.Some? then out[f := next.value] else out - {f};
    }
    forall f ensures Lookup(out, f) == Lookup(MergeDocs(base, server, local), f) {}
    LookupDetermines(out, MergeDocs(base, server, local));
  }

  lemma LookupDetermines<K(!new), V(!new)>(m: map<K, V>, n: map<K, V>)
    requires forall k :: Lookup(m, k) == Lookup(n, k)
    ensures m == n
  {
    forall k ensures k in m <==> k in n { assert Lookup(m, k) == Lookup(n, k); }
    forall k | k in m ensures m[k] == n[k] { assert Lookup(m, k) == Lookup(n, k); }
  }

  // ---------------------------------------------------------------- cells

  /** A place in a document that a user can change: one row of an array field, or a whole other field. */
  datatype Cell = RowCell(field: string, key: Key) | ScalarCell(field: string)

  datatype Content = RowContent(row: Row) | ScalarContent(json: string)

  function At(d: Doc, c: Cell): Option<Content> {
    var v := Lookup(d, c.field);
    match c
    case RowCell(_, k) =>
      var r := Lookup(RowMap(RowsOf(v)), k);
      if r.Some? then Some(RowContent(r.value)) else None
    case ScalarCell(_) =>
      if v.Some? && v.value.Scalar? then Some(ScalarContent(v.value.json)) else None
  }

  /** Every document keeps the same fields as arrays. */
  predicate WellKinded(arrays: set<string>, d: Doc) {
    forall f | f in d :: d[f].Rows? <==> f in arrays
  }

  /** What the merge leaves in one cell, from what the three sides hold there. */
  function SettleCell(c: Cell, base: Option<Content>, server: Option<Content>, local: Option<Content>)
    : Option<Content>
  {
    if c.RowCell? then Settle(base, server, local)
    else if local != base then local
    else server
  }

  /** Row cells settle one by one, whatever the other sides hold in that field. */
  lemma MergeAtRowCell(base: Doc, server: Doc, local: Doc, c: Cell)
    requires c.RowCell?
    ensures At(MergeDocs(base, server, local), c) == SettleCell(c, At(base, c), At(server, c), At(local, c))
  {
    var bv, sv, lv := Lookup(base, c.field), Lookup(server, c.field), Lookup(local, c.field);
    MergedRowByKey(RowsOf(bv), RowsOf(sv), RowsOf(lv), c.key);
    assert Lookup(MergeDocs(base, server, local), c.field) == MergedField(base, server, local, c.field);
  }

  /** Cell by cell, the merge of documents that agree on which fields are arrays. */
  lemma MergeAtCell(arrays: set<string>, base: Doc, server: Doc, local: Doc, c: Cell)
    requires WellKinded(arrays, base) && WellKinded(arrays, server) && WellKinded(arrays, local)
    ensures At(MergeDocs(base, server, local), c) == SettleCell(c, At(base, c), At(server, c), At(local, c))
    ensures WellKinded(arrays, MergeDocs(base, server, local))
  {
    assert Lookup(MergeDocs(base, server, local), c.field) == MergedField(base, server, local, c.field);
    if c.RowCell? {
      MergeAtRowCell(base, server, local, c);
    }
  }

  /**
   A scalar of the server survives in a field exactly when the local side holds no array there and either
   left the field as the base has it or has the same scalar. So an untouched local side loses it exactly when
   the base holds an array in that field.
   */
  lemma ServerScalarSurvivesIff(base: Doc, server: Doc, local: Doc, f: string)
    requires Lookup(server, f).Some? && Lookup(server, f).value.Scalar?
    ensures At(MergeDocs(base, server, local), ScalarCell(f)) == At(server, ScalarCell(f))
       <==> !IsRows(Lookup(local, f))
            && (Lookup(local, f) == Lookup(base, f) || Lookup(local, f) == Lookup(server, f))
    ensures Lookup(local, f) == Lookup(base, f) ==>
              (At(MergeDocs(base, server, local), ScalarCell(f)) != At(server, ScalarCell(f)) <==>
                 IsRows(Lookup(base, f)))
  {
    assert Lookup(MergeDocs(base, server, local), f) == MergedField(base, server, local, f);
  }

  // ---------------------------------------------------------------- symmetry

  predicate SameValue(a: Option<Value>, b: Option<Value>) {
    if IsRows(a) && IsRows(b) then RowMap(RowsOf(a)) == RowMap(RowsOf(b)) else a == b
  }

  /** Equal up to the order of rows inside an array. */
  ghost predicate SameContent(a: Doc, b: Doc) {
    forall f: string :: SameValue(Lookup(a, f), Lookup(b, f))
  }

  predicate Compatible<T(==)>(base: Option<T>, server: Option<T>, local: Option<T>) {
    local == base || server == base || local == server
  }

  /** No row present on both sides, and no other field, was changed in two different ways. */
  ghost predicate FieldUnconflicted(base: Option<Value>, server: Option<Value>, local: Option<Value>) {
    if IsRows(local) || IsRows(server) then
      RowsUnconflicted(RowMap(RowsOf(base)), RowMap(RowsOf(server)), RowMap(RowsOf(local)))
    else Compatible(base, server, local)
  }

  ghost predicate RowsUnconflicted(bm: map<Key, Row>, sm: map<Key, Row>, lm: map<Key, Row>) {
    forall k | k in sm && k in lm :: Compatible(Lookup(bm, k), Some(sm[k]), Some(lm[k]))
  }

  ghost predicate Unconflicted(base: Doc, server: Doc, local: Doc) {
    forall f: string :: FieldUnconflicted(Lookup(base, f), Lookup(server, f), Lookup(local, f))
  }

  lemma RowsSymmetry(b: seq<Row>, s: seq<Row>, l: seq<Row>)
    ensures RowMap(MergeRows(b, s, l)) == RowMap(MergeRows(b, l, s))
       <==> RowsUnconflicted(RowMap(b), RowMap(s), RowMap(l))
  {
    var there, back := RowMap(MergeRows(b, s, l)), RowMap(MergeRows(b, l, s));
    var bm, sm, lm := RowMap(b), RowMap(s), RowMap(l);
    forall k ensures Lookup(there, k) == Lookup(back, k) <==>
                     (k in sm && k in lm ==> Compatible(Lookup(bm, k), Some(sm[k]), Some(lm[k])))
    {
      MergedRowByKey(b, s, l, k);
      MergedRowByKey(b, l, s, k);
    }
    if RowsUnconflicted(bm, sm, lm) {
      forall k ensures Lookup(there, k) == Lookup(back, k) {}
      LookupDetermines(there, back);
    } else {
      var k :| k in sm && k in lm && !Compatible(Lookup(bm, k), Some(sm[k]), Some(lm[k]));
      assert Lookup(there, k) != Lookup(back, k);
    }
  }

  lemma FieldSymmetry(base: Option<Value>, server: Option<Value>, local: Option<Value>)
    ensures SameValue(MergeField(base, server, local), MergeField(base, local, server))
       <==> FieldUnconflicted(base, server, local)
  {
    if IsRows(local) || IsRows(server) {
      RowsSymmetry(RowsOf(base), RowsOf(server), RowsOf(local));
    }
  }

  /** Which side rebases on which does not matter, exactly when the two sides have no conflicting change. */
  lemma MergeSymmetricIffUnconflicted(base: Doc, server: Doc, local: Doc)
    ensures SameContent(MergeDocs(base, server, local), MergeDocs(base, local, server))
       <==> Unconflicted(base, server, local)
  {
    var there, back := MergeDocs(base, server, local), MergeDocs(base, local, server);
    forall f: string ensures SameValue(Lookup(there, f), Lookup(back, f))
                        <==> FieldUnconflicted(Lookup(base, f), Lookup(server, f), Lookup(local, f))
    {
      assert Lookup(there, f) == MergedField(base, server, local, f) by {
        if f !in local.Keys + server.Keys { assert f !in there; }
      }
      assert Lookup(back, f) == MergedField(base, local, server, f) by {
        if f !in local.Keys + server.Keys { assert f !in back; }
      }
      FieldSymmetry(Lookup(base, f), Lookup(server, f), Lookup(local, f));
    }
  }

  // ---------------------------------------------------------------- chains of rebases

  /** Rebasing local work on each server version in turn, the last version serving as the next base. */
  function RebaseChain(base: Doc, local: Doc, servers: seq<Doc>): Doc
    decreases |servers|
  {
    if servers == [] then local
    else RebaseChain(servers[0], MergeDocs(base, servers[0], local), servers[1..])
  }

  /** A locally changed row keeps its value unless some version before the last already held that value. */
  lemma {:induction false} LocalRowSurvivesRebases(base: Doc, local: Doc, servers: seq<Doc>, c: Cell)
    requires c.RowCell? && At(local, c).Some? && At(local, c) != At(base, c)
    requires forall i | 0 <= i < |servers| - 1 :: At(servers[i], c) != At(local, c)
    ensures At(RebaseChain(base, local, servers), c) == At(local, c)
    decreases |servers|
  {
    if servers != [] {
      var next := MergeDocs(base, servers[0], local);
      MergeAtRowCell(base, servers[0], local, c);
      if |servers| > 1 {
        assert At(servers[0], c) != At(next, c);
        forall i | 0 <= i < |servers[1..]| - 1 ensures At(servers[1..][i], c) != At(next, c) {
          assert servers[1..][i] == servers[i + 1];
        }
        LocalRowSurvivesRebases(servers[0], next, servers[1..], c);
      } else {
        assert servers[1..] == [];
      }
    }
  }

  /** Once a version has held the local value, the next version that still has the row replaces it. */
  lemma LocalRowYieldsOnceServed(base: Doc, local: Doc, first: Doc, second: Doc, c: Cell)
    requires c.RowCell? && At(local, c).Some? && At(first, c) == At(local, c) && At(second, c).Some?
    ensures At(RebaseChain(base, local, [first, second]), c) == At(second, c)
  {
    var next := MergeDocs(base, first, local);
    MergeAtRowCell(base, first, local, c);
    MergeAtRowCell(first, second, next, c);
    assert [first, second][1..] == [second];
    assert RebaseChain(base, local, [first, second]) == RebaseChain(first, next, [second]);
    assert RebaseChain(first, next, [second]) == MergeDocs(first, second, next);
  }

  // ---------------------------------------------------------------- deletions

  /** The merge has no tombstones: a row is gone from the result only if both sides lack it. */
  lemma DeletedRowReturns(base: Doc, server: Doc, local: Doc, c: Cell)
    requires c.RowCell?
    ensures At(MergeDocs(base, server, local), c).None? <==> At(server, c).None? && At(local, c).None?
  {
    MergeAtRowCell(base, server, local, c);
  }
}
