/** Insertion into an ascending sequence, for any strict order. */
module Sorting {

  ghost predicate Strict<T(!new)>(less: (T, T) -> bool) {
    && (forall a, b {:trigger less(a, b)} :: less(a, b) ==> !less(b, a))
    && (forall a, b, c {:trigger less(a, b), less(b, c)} :: less(a, b) && less(b, c) ==> less(a, c))
  }

  ghost predicate Ascending<T>(less: (T, T) -> bool, s: seq<T>) {
    forall i, j :: 0 <= i < j < |s| ==> less(s[i], s[j])
  }

  function Insert<T>(less: (T, T) -> bool, x: T, sorted: seq<T>): seq<T> {
    if sorted == [] || less(x, sorted[0]) then [x] + sorted else [sorted[0]] + Insert(less, x, sorted[1..])
  }

  /** Whatever the order, insertion adds the element and loses none. */
  lemma {:induction false} InsertAdds<T>(less: (T, T) -> bool, x: T, sorted: seq<T>)
    ensures multiset(Insert(less, x, sorted)) == multiset(sorted) + multiset{x}
    ensures forall y :: y in Insert(less, x, sorted) <==> y == x || y in sorted
  {
    if sorted != [] {
      assert sorted == [sorted[0]] + sorted[1..];
      InsertAdds(less, x, sorted[1..]);
    }
  }

  /** An element that is comparable with all others finds its place among them. */
  lemma {:induction false} InsertKeeps<T(!new)>(less: (T, T) -> bool, x: T, sorted: seq<T>)
    requires Strict(less) && Ascending(less, sorted)
    requires forall y :: y in sorted ==> less(x, y) || less(y, x)
    ensures Ascending(less, Insert(less, x, sorted))
  {
    if sorted != [] {
      assert sorted == [sorted[0]] + sorted[1..];
      if less(x, sorted[0]) {
        InFront(less, x, sorted);
      } else {
        InsertKeeps(less, x, sorted[1..]);
        InsertAdds(less, x, sorted[1..]);
        var rest := Insert(less, x, sorted[1..]);
        forall y | y in rest ensures less(sorted[0], y) {
          if y != x { Behind(less, sorted, y); }
        }
        InFront(less, sorted[0], rest);
      }
    }
  }

  lemma InFront<T(!new)>(less: (T, T) -> bool, x: T, sorted: seq<T>)
    requires Strict(less) && Ascending(less, sorted)
    requires sorted != [] && (less(x, sorted[0]) || forall y :: y in sorted ==> less(x, y))
    ensures Ascending(less, [x] + sorted)
  {
    forall j | 0 <= j < |sorted| ensures less(x, sorted[j]) {
      if j > 0 { assert less(sorted[0], sorted[j]); }
    }
  }

  lemma Behind<T(!new)>(less: (T, T) -> bool, sorted: seq<T>, y: T)
    requires Ascending(less, sorted) && sorted != [] && y in sorted[1..]
    ensures less(sorted[0], y)
  {
    var j :| 0 <= j < |sorted[1..]| && sorted[1..][j] == y;
    assert sorted[j + 1] == y;
  }

  /** There is only one way to put the same elements in ascending order. */
  lemma {:induction false} AscendingIsUnique<T(!new)>(less: (T, T) -> bool, a: seq<T>, b: seq<T>)
    requires Strict(less) && Ascending(less, a) && Ascending(less, b) && forall x :: x in a <==> x in b
    ensures a == b
  {
    if a != [] { assert a[0] in b; }
    if b != [] { assert b[0] in a; }
    if a != [] && b != [] {
      LeastIsFirst(less, a, b);
      forall x ensures x in a[1..] <==> x in b[1..] {
        RestHas(less, a, x);
        RestHas(less, b, x);
      }
      AscendingIsUnique(less, a[1..], b[1..]);
      assert a == [a[0]] + a[1..] && b == [b[0]] + b[1..];
    }
  }

  lemma LeastIsFirst<T(!new)>(less: (T, T) -> bool, a: seq<T>, b: seq<T>)
    requires Strict(less) && Ascending(less, a) && Ascending(less, b) && a != [] && b != []
    requires a[0] in b && b[0] in a
    ensures a[0] == b[0]
  {
    var i :| 0 <= i < |b| && b[i] == a[0];
    var j :| 0 <= j < |a| && a[j] == b[0];
    assert i > 0 ==> less(b[0], a[0]);
    assert j > 0 ==> less(a[0], b[0]);
  }

  lemma RestHas<T(!new)>(less: (T, T) -> bool, a: seq<T>, x: T)
    requires Strict(less) && Ascending(less, a) && a != []
    ensures x in a[1..] <==> x in a && x != a[0]
  {
    assert a == [a[0]] + a[1..];
    if x in a[1..] { Behind(less, a, x); }
  }
}
