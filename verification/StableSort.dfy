/**
 PHP's stable sort by a comparator, as an insertion sort. The comparator need not be consistent: that
 a negative or zero result is no order is what the users of this module have to live with.
 */
module StableSort {

  /** Inserts x from the right, past the elements that compare strictly greater. */
  function Insert<T>(s: seq<T>, x: T, compare: (T, T) -> int): seq<T> {
    if s == [] then [x]
    else
      var last := |s| - 1;
      if compare(s[last], x) > 0 then Insert(s[..last], x, compare) + [s[last]] else s + [x]
  }

  function Sort<T>(s: seq<T>, compare: (T, T) -> int): seq<T> {
    if s == [] then [] else Insert(Sort(s[..|s| - 1], compare), s[|s| - 1], compare)
  }

  lemma {:induction false} InsertPermutes<T>(s: seq<T>, x: T, compare: (T, T) -> int)
    ensures multiset(Insert(s, x, compare)) == multiset(s) + multiset{x}
  {
    if s != [] {
      var last := |s| - 1;
      assert s == s[..last] + [s[last]];
      InsertPermutes(s[..last], x, compare);
    }
  }

  lemma {:induction false} SortPermutes<T>(s: seq<T>, compare: (T, T) -> int)
    ensures multiset(Sort(s, compare)) == multiset(s)
  {
    if s != [] {
      var last := |s| - 1;
      assert s == s[..last] + [s[last]];
      SortPermutes(s[..last], compare);
      InsertPermutes(Sort(s[..last], compare), s[last], compare);
    }
  }

  lemma InsertElements<T>(s: seq<T>, x: T, compare: (T, T) -> int)
    ensures forall y :: y in Insert(s, x, compare) <==> y in s || y == x
  {
    InsertPermutes(s, x, compare);
    forall y ensures y in Insert(s, x, compare) <==> y in s || y == x {
      assert y in Insert(s, x, compare) <==> y in multiset(Insert(s, x, compare));
    }
  }

  lemma SortElements<T>(s: seq<T>, compare: (T, T) -> int)
    ensures forall y :: y in Sort(s, compare) <==> y in s
  {
    SortPermutes(s, compare);
    forall y ensures y in Sort(s, compare) <==> y in s {
      assert y in Sort(s, compare) <==> y in multiset(Sort(s, compare));
    }
  }
}
