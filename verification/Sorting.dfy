/** Insertion into order; what std::sort is used for in src/main.h and src/kernel.cpp. */
module Sorting {

  ghost predicate TotalOrder<T(!new)>(le: (T, T) -> bool) {
    && (forall a, b :: le(a, b) || le(b, a))
    && (forall a, b, c {:trigger le(a, b), le(b, c)} :: le(a, b) && le(b, c) ==> le(a, c))
  }

  predicate Ordered<T>(s: seq<T>, le: (T, T) -> bool) { forall i, j :: 0 <= i < j < |s| ==> le(s[i], s[j]) }

  function Insert<T>(s: seq<T>, x: T, le: (T, T) -> bool): (r: seq<T>)
    ensures |r| == |s| + 1
  {
    if s == [] || le(x, s[0]) then [x] + s else [s[0]] + Insert(s[1..], x, le)
  }

  function Sort<T>(s: seq<T>, le: (T, T) -> bool): (r: seq<T>)
    ensures |r| == |s|
  {
    if s == [] then [] else Insert(Sort(s[1..], le), s[0], le)
  }

  ghost predicate AtLeast<T>(s: seq<T>, b: T, le: (T, T) -> bool) { forall i :: 0 <= i < |s| ==> le(b, s[i]) }

  lemma {:induction false} InsertBound<T>(s: seq<T>, x: T, b: T, le: (T, T) -> bool)
    requires AtLeast(s, b, le) && le(b, x)
    ensures AtLeast(Insert(s, x, le), b, le)
  {
    if s != [] && !le(x, s[0]) { InsertBound(s[1..], x, b, le); }
  }

  lemma InsertFirst<T(!new)>(s: seq<T>, x: T, le: (T, T) -> bool)
    requires TotalOrder(le) && Ordered(s, le) && s != [] && le(x, s[0])
    ensures Ordered([x] + s, le)
  {
    forall j | 0 <= j < |s| ensures le(x, s[j]) {
      if j > 0 { assert le(s[0], s[j]); }
    }
  }

  lemma {:induction false} InsertOk<T(!new)>(s: seq<T>, x: T, le: (T, T) -> bool)
    requires TotalOrder(le) && Ordered(s, le)
    ensures Ordered(Insert(s, x, le), le) && multiset(Insert(s, x, le)) == multiset(s) + multiset{x}
  {
    if s != [] && !le(x, s[0]) {
      var rest := Insert(s[1..], x, le);
      assert s == [s[0]] + s[1..];
      InsertOk(s[1..], x, le);
      assert le(s[0], x);
      InsertBound(s[1..], x, s[0], le);
      hide Insert;
      assert Ordered([s[0]] + rest, le);
    } else if s != [] {
      InsertFirst(s, x, le);
    }
  }

  /** Sorting gives an ordered sequence of the same elements. */
  lemma {:induction false} SortOk<T(!new)>(s: seq<T>, le: (T, T) -> bool)
    requires TotalOrder(le)
    ensures Ordered(Sort(s, le), le) && multiset(Sort(s, le)) == multiset(s)
  {
    if s != [] {
      SortOk(s[1..], le);
      InsertOk(Sort(s[1..], le), s[0], le);
      assert s == [s[0]] + s[1..];
    }
  }
}
