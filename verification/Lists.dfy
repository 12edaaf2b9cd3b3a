/** Filtering and summing sequences. */
module Lists {
  import opened Common

  function Filter<A>(rows: seq<A>, keep: A -> bool): seq<A> {
    if rows == [] then [] else (if keep(rows[0]) then [rows[0]] else []) + Filter(rows[1..], keep)
  }

  lemma {:induction false} FilterConcat<A>(a: seq<A>, b: seq<A>, keep: A -> bool)
    ensures Filter(a + b, keep) == Filter(a, keep) + Filter(b, keep)
  {
    if a == [] {
      assert a + b == b;
    } else {
      assert (a + b)[1..] == a[1..] + b && (a + b)[0] == a[0];
      FilterConcat(a[1..], b, keep);
      var head := if keep(a[0]) then [a[0]] else [];
      assert head + (Filter(a[1..], keep) + Filter(b, keep)) == (head + Filter(a[1..], keep)) + Filter(b, keep);
    }
  }

  lemma {:induction false} FilterMember<A>(rows: seq<A>, keep: A -> bool, r: A)
    ensures r in Filter(rows, keep) <==> r in rows && keep(r)
  {
    if rows != [] {
      FilterMember(rows[1..], keep, r);
      assert rows == [rows[0]] + rows[1..];
    }
  }

  /** A filter that drops nothing, everything, or something. */
  lemma {:induction false} FilterSize<A>(rows: seq<A>, keep: A -> bool)
    ensures |Filter(rows, keep)| <= |rows|
    ensures Filter(rows, keep) == rows <==> forall i | 0 <= i < |rows| :: keep(rows[i])
    ensures Filter(rows, keep) == [] <==> forall i | 0 <= i < |rows| :: !keep(rows[i])
  {
    if rows != [] {
      FilterSize(rows[1..], keep);
      assert forall i | 0 < i < |rows| :: rows[i] == rows[1..][i - 1];
      if keep(rows[0]) {
        assert Filter(rows, keep)[1..] == Filter(rows[1..], keep);
      }
    }
  }

  lemma {:induction false} FilterTwiceSame<A>(rows: seq<A>, first: A -> bool, second: A -> bool)
    requires forall i | 0 <= i < |rows| :: second(rows[i]) ==> first(rows[i])
    ensures Filter(Filter(rows, first), second) == Filter(rows, second)
  {
    if rows != [] {
      var tail := rows[1..];
      FilterTwiceSame(tail, first, second);
      FilterConcat(if first(rows[0]) then [rows[0]] else [], Filter(tail, first), second);
    }
  }

  lemma {:induction false} FilterTwiceShorter<A>(rows: seq<A>, first: A -> bool, second: A -> bool)
    ensures |Filter(Filter(rows, first), second)| <= |Filter(rows, second)|
    ensures (exists i | 0 <= i < |rows| :: second(rows[i]) && !first(rows[i]))
        ==> |Filter(Filter(rows, first), second)| < |Filter(rows, second)|
  {
    if rows != [] {
      var tail := rows[1..];
      FilterTwiceShorter(tail, first, second);
      FilterConcat(if first(rows[0]) then [rows[0]] else [], Filter(tail, first), second);
      assert forall i | 0 < i < |rows| :: rows[i] == tail[i - 1];
    }
  }

  /** Filtering first by one test changes the outcome of a second exactly when it drops a row the second keeps. */
  lemma FilterTwice<A>(rows: seq<A>, first: A -> bool, second: A -> bool)
    ensures Filter(Filter(rows, first), second) == Filter(rows, second)
       <==> forall i | 0 <= i < |rows| :: second(rows[i]) ==> first(rows[i])
  {
    FilterTwiceShorter(rows, first, second);
    if forall i | 0 <= i < |rows| :: second(rows[i]) ==> first(rows[i]) {
      FilterTwiceSame(rows, first, second);
    }
  }

  function SumOf<A>(items: seq<A>, worth: A -> int): int {
    if items == [] then 0 else worth(items[0]) + SumOf(items[1..], worth)
  }

  lemma {:induction false} SumConcat<A>(a: seq<A>, b: seq<A>, worth: A -> int)
    ensures SumOf(a + b, worth) == SumOf(a, worth) + SumOf(b, worth)
  {
    if a == [] {
      assert a + b == b;
    } else {
      assert (a + b)[1..] == a[1..] + b;
      SumConcat(a[1..], b, worth);
    }
  }

  lemma SumLast<A>(items: seq<A>, worth: A -> int)
    requires items != []
    ensures SumOf(items, worth) == SumOf(items[..|items| - 1], worth) + worth(items[|items| - 1])
  {
    var n := |items| - 1;
    assert items == items[..n] + [items[n]];
    SumConcat(items[..n], [items[n]], worth);
  }

  /** Changing one item changes the sum by the difference of the two. */
  lemma {:induction false} SumChangedAt<A>(a: seq<A>, b: seq<A>, k: nat, worth: A -> int)
    requires |a| == |b| && k < |a|
    requires forall i | 0 <= i < |a| && i != k :: worth(a[i]) == worth(b[i])
    ensures SumOf(b, worth) - SumOf(a, worth) == worth(b[k]) - worth(a[k])
  {
    if k == 0 {
      SumSame(a[1..], b[1..], worth);
    } else {
      SumChangedAt(a[1..], b[1..], k - 1, worth);
    }
  }

  lemma {:induction false} SumOfOne<A>(items: seq<A>, k: nat, worth: A -> int)
    requires k < |items| && forall i | 0 <= i < |items| && i != k :: worth(items[i]) == 0
    ensures SumOf(items, worth) == worth(items[k])
  {
    if k > 0 {
      SumOfOne(items[1..], k - 1, worth);
    } else {
      SumOfNone(items[1..], worth);
    }
  }

  lemma {:induction false} SumOfNone<A>(items: seq<A>, worth: A -> int)
    requires forall i | 0 <= i < |items| :: worth(items[i]) == 0
    ensures SumOf(items, worth) == 0
  {
    if items != [] {
      SumOfNone(items[1..], worth);
    }
  }

  lemma {:induction false} SumSame<A>(a: seq<A>, b: seq<A>, worth: A -> int)
    requires |a| == |b|
    requires forall i | 0 <= i < |a| :: worth(a[i]) == worth(b[i])
    ensures SumOf(a, worth) == SumOf(b, worth)
  {
    if a != [] {
      SumSame(a[1..], b[1..], worth);
    }
  }

  function First<A>(items: seq<A>, test: A -> bool): Option<A> {
    if items == [] then None else if test(items[0]) then Some(items[0]) else First(items[1..], test)
  }

  lemma {:induction false} FirstMeans<A>(items: seq<A>, test: A -> bool)
    ensures First(items, test).None? <==> forall x | x in items :: !test(x)
    ensures First(items, test).Some? ==> First(items, test).value in items && test(First(items, test).value)
  {
    if items != [] {
      assert items == [items[0]] + items[1..];
      FirstMeans(items[1..], test);
    }
  }

  /** Filtering leaves the first match alone when it keeps every match, and leaves none when it keeps none. */
  lemma {:induction false} FirstFiltered<A>(items: seq<A>, keep: A -> bool, test: A -> bool)
    ensures (forall x | x in items && test(x) :: keep(x)) ==> First(Filter(items, keep), test) == First(items, test)
    ensures (forall x | x in items && test(x) :: !keep(x)) ==> First(Filter(items, keep), test).None?
  {
    if items != [] {
      var head, tail := items[0], items[1..];
      assert items == [head] + tail;
      FirstFiltered(tail, keep, test);
      if keep(head) {
        assert Filter(items, keep)[1..] == Filter(tail, keep);
      } else {
        assert [] + Filter(tail, keep) == Filter(tail, keep);
      }
    }
  }

  predicate DistinctBy<A, K(==)>(items: seq<A>, key: A -> K) {
    forall i, j | 0 <= i < j < |items| :: key(items[i]) != key(items[j])
  }

  lemma {:induction false} DistinctFiltered<A, K>(items: seq<A>, keep: A -> bool, key: A -> K)
    requires DistinctBy(items, key)
    ensures DistinctBy(Filter(items, keep), key)
  {
    if items != [] {
      var tail := items[1..];
      DistinctFiltered(tail, keep, key);
      var kept := Filter(tail, keep);
      forall i | 0 <= i < |kept| ensures key(kept[i]) != key(items[0]) {
        FilterMember(tail, keep, kept[i]);
        var j :| 0 <= j < |tail| && tail[j] == kept[i];
        assert items[j + 1] == tail[j];
      }
      DistinctConcat(if keep(items[0]) then [items[0]] else [], kept, key);
    }
  }

  lemma DistinctConcat<A, K>(a: seq<A>, b: seq<A>, key: A -> K)
    requires DistinctBy(a, key) && DistinctBy(b, key)
    requires forall x, y | x in a && y in b :: key(x) != key(y)
    ensures DistinctBy(a + b, key)
  {
    var both := a + b;
    forall i, j | 0 <= i < j < |both| ensures key(both[i]) != key(both[j]) {
      if i < |a| <= j {
        assert both[i] in a && both[j] in b;
      }
    }
  }

  lemma DistinctAgree<A, K>(items: seq<A>, key: A -> K, x: A, y: A)
    requires DistinctBy(items, key) && x in items && y in items && key(x) == key(y)
    ensures x == y
  {
    var i :| 0 <= i < |items| && items[i] == x;
    var j :| 0 <= j < |items| && items[j] == y;
  }

  /** Dropping the only item that passes a test takes its worth out of the sum. */
  lemma {:induction false} SumDropped<A>(items: seq<A>, keep: A -> bool, test: A -> bool, worth: A -> int)
    requires forall x | x in items :: keep(x) <==> !test(x)
    requires forall i, j | 0 <= i < j < |items| :: !(test(items[i]) && test(items[j]))
    ensures SumOf(Filter(items, keep), worth)
         == SumOf(items, worth) - match First(items, test) { case None => 0 case Some(x) => worth(x) }
  {
    if items != [] {
      var head, tail := items[0], items[1..];
      assert items == [head] + tail;
      if test(head) {
        forall i | 0 <= i < |tail| ensures keep(tail[i]) { assert items[i + 1] == tail[i]; }
        FilterSize(tail, keep);
        assert [] + Filter(tail, keep) == tail;
      } else {
        SumDropped(tail, keep, test, worth);
        assert Filter(items, keep)[1..] == Filter(tail, keep);
      }
    }
  }
}
