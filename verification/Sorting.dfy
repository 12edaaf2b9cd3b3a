/** A stable sort of values by a given order, standing for the library sorts the programs call. */
module Sorting {

  /** Puts x in front of the first element that does not come before it. */
  function Insert<T>(x: T, s: seq<T>, less: (T, T) -> bool): (r: seq<T>)
    ensures multiset(r) == multiset{x} + multiset(s)
  {
    if s == [] then [x]
    else if less(s[0], x) then
      assert s == [s[0]] + s[1..];
      [s[0]] + Insert(x, s[1..], less)
    else [x] + s
  }

  function Sort<T>(s: seq<T>, less: (T, T) -> bool): (r: seq<T>)
    ensures multiset(r) == multiset(s) && |r| == |s|
  {
    if s == [] then []
    else
      assert s == [s[0]] + s[1..];
      var r := Insert(s[0], Sort(s[1..], less), less);
      assert |r| == |multiset(r)| && |s| == |multiset(s)|;
      r
  }

  /** Among the elements of s, `less` is a strict weak order. */
  ghost predicate OrderedOn<T(!new)>(s: seq<T>, less: (T, T) -> bool) {
    && (forall x, y | x in s && y in s :: less(x, y) ==> !less(y, x))
    && (forall x, y, z | x in s && y in s && z in s :: less(x, z) ==> less(x, y) || less(y, z))
  }

  ghost predicate Sorted<T>(s: seq<T>, less: (T, T) -> bool) {
    forall i, j | 0 <= i < j < |s| :: !less(s[j], s[i])
  }

  lemma SameElements<T>(s: seq<T>, t: seq<T>)
    requires multiset(s) == multiset(t)
    ensures forall x :: x in s <==> x in t
  {
    forall x ensures x in s <==> x in t {
      assert x in s <==> x in multiset(s);
      assert x in t <==> x in multiset(t);
    }
  }

  lemma RemoveAt<T>(s: seq<T>, j: nat)
    requires j < |s|
    ensures s == s[..j] + ([s[j]] + s[j + 1..])
    ensures multiset(s[..j] + s[j + 1..]) == multiset(s) - multiset{s[j]}
  {
    assert s == s[..j] + ([s[j]] + s[j + 1..]);
    assert multiset(s) == multiset(s[..j]) + (multiset{s[j]} + multiset(s[j + 1..]));
  }

  lemma TailElements<T>(s: seq<T>)
    requires s != []
    ensures s == [s[0]] + s[1..]
    ensures multiset(s[1..]) == multiset(s) - multiset{s[0]}
  {
    assert s == [s[0]] + s[1..];
  }

  /** The head of one arrangement, found in and taken out of another. */
  lemma RemoveHead<T>(a: seq<T>, b: seq<T>) returns (j: nat)
    requires multiset(a) == multiset(b) && a != []
    ensures j < |b| && b[j] == a[0]
    ensures multiset(a[1..]) == multiset(b[..j] + b[j + 1..])
    ensures b == b[..j] + ([b[j]] + b[j + 1..]) && a == [a[0]] + a[1..]
  {
    assert a[0] in b by { SameElements(a, b); }
    j :| 0 <= j < |b| && b[j] == a[0];
    RemoveAt(b, j);
    TailElements(a);
  }

  lemma {:induction false} InsertSorted<T(!new)>(x: T, s: seq<T>, less: (T, T) -> bool)
    requires Sorted(s, less) && OrderedOn([x] + s, less)
    ensures Sorted(Insert(x, s, less), less)
  {
    var all := [x] + s;
    assert x in all && forall y | y in s :: y in all;
    if s != [] {
      if less(s[0], x) {
        var rest := Insert(x, s[1..], less);
        assert forall y | y in [x] + s[1..] :: y in all;
        assert Sorted(s[1..], less);
        InsertSorted(x, s[1..], less);
        SameElements(rest, [x] + s[1..]);
        forall j | 0 <= j < |rest| ensures !less(rest[j], s[0]) {
          assert rest[j] in [x] + s[1..];
          if rest[j] != x {
            var k :| 0 < k < |s| && s[k] == rest[j];
          }
        }
      } else {
        forall j | 0 <= j < |s| ensures !less(s[j], x) {
          var head, other := s[0], s[j];
          assert less(other, x) ==> less(other, head) || less(head, x);
        }
      }
    }
  }

  lemma {:induction false} SortSorted<T(!new)>(s: seq<T>, less: (T, T) -> bool)
    requires OrderedOn(s, less)
    ensures Sorted(Sort(s, less), less)
  {
    if s != [] {
      assert s == [s[0]] + s[1..];
      assert forall y | y in s[1..] :: y in s;
      SortSorted(s[1..], less);
      SameElements(Sort(s[1..], less), s[1..]);
      assert forall y | y in [s[0]] + Sort(s[1..], less) :: y in s;
      InsertSorted(s[0], Sort(s[1..], less), less);
    }
  }

  /** Elements that the order cannot tell apart are equal. */
  ghost predicate Total<T(!new)>(s: seq<T>, less: (T, T) -> bool) {
    forall x, y | x in s && y in s :: !less(x, y) && !less(y, x) ==> x == y
  }

  /** Two sorted arrangements of the same elements coincide when the order tells distinct elements apart. */
  lemma {:induction false} SortedUnique<T(!new)>(s: seq<T>, t: seq<T>, less: (T, T) -> bool)
    requires multiset(s) == multiset(t) && Sorted(s, less) && Sorted(t, less) && Total(s, less)
    ensures s == t
  {
    assert |s| == |multiset(s)| && |t| == |multiset(t)|;
    if s != [] {
      HeadsAgree(s, t, less);
      TailElements(s);
      TailElements(t);
      var restS, restT := s[1..], t[1..];
      assert s == [s[0]] + restS && t == [t[0]] + restT;
      SortedUnique(restS, restT, less);
    }
  }

  lemma HeadsAgree<T(!new)>(s: seq<T>, t: seq<T>, less: (T, T) -> bool)
    requires s != [] && t != []
    requires multiset(s) == multiset(t) && Sorted(s, less) && Sorted(t, less) && Total(s, less)
    ensures s[0] == t[0]
  {
    SameElements(s, t);
    assert s[0] in t && t[0] in s;
    var i :| 0 <= i < |t| && t[i] == s[0];
    var j :| 0 <= j < |s| && s[j] == t[0];
  }

  lemma SortIgnoresOrder<T(!new)>(s: seq<T>, t: seq<T>, less: (T, T) -> bool)
    requires multiset(s) == multiset(t) && OrderedOn(s, less) && Total(s, less)
    ensures Sort(s, less) == Sort(t, less)
  {
    SameElements(s, t);
    SortSorted(s, less);
    SortSorted(t, less);
    SameElements(Sort(s, less), s);
    SortedUnique(Sort(s, less), Sort(t, less), less);
  }
}
