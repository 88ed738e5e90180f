/** Sequence helpers shared by the store and the responder: options, maps,
    filters, de-duplication and a stable insertion sort. */
module Util {

  datatype Option<+T> = None | Some(value: T)

  function Min(a: int, b: int): int
  {
    if a <= b then a else b
  }

  /** The first `n` elements of `s`, or all of `s` when it is shorter
      (Python's `s[:n]`). */
  function Prefix<T>(s: seq<T>, n: nat): (r: seq<T>)
    ensures |r| == Min(n, |s|)
    ensures forall i :: 0 <= i < |r| ==> r[i] == s[i]
  {
    s[..Min(n, |s|)]
  }

  /** Applies `f` to every element, keeping the order. */
  function Map<A, B>(f: A -> B, s: seq<A>): (r: seq<B>)
    ensures |r| == |s|
    ensures forall i :: 0 <= i < |s| ==> r[i] == f(s[i])
  {
    if s == [] then [] else Map(f, s[..|s| - 1]) + [f(s[|s| - 1])]
  }

  /** The values of `Map(f, s)` are the images of the elements of `s`. */
  lemma MapMembers<A, B>(f: A -> B, s: seq<A>)
    ensures forall y :: y in Map(f, s) <==> exists x :: x in s && y == f(x)
  {
    forall y | y in Map(f, s) ensures exists x :: x in s && y == f(x) {
      var i :| 0 <= i < |s| && Map(f, s)[i] == y;
      assert s[i] in s;
    }
    forall x | x in s ensures f(x) in Map(f, s) {
      var i :| 0 <= i < |s| && s[i] == x;
      assert Map(f, s)[i] == f(x);
    }
  }

  /** The elements of `s` that satisfy `p`, in their order in `s`. */
  function Filter<A(!new)>(p: A -> bool, s: seq<A>): (r: seq<A>)
    ensures |r| <= |s|
    ensures forall x :: x in r <==> x in s && p(x)
  {
    if s == [] then []
    else
      assert s == s[..|s| - 1] + [s[|s| - 1]];
      Filter(p, s[..|s| - 1]) + (if p(s[|s| - 1]) then [s[|s| - 1]] else [])
  }

  /** Filtering keeps order and repeats: it distributes over concatenation. */
  lemma {:induction false} FilterAppend<A(!new)>(p: A -> bool, a: seq<A>, b: seq<A>)
    ensures Filter(p, a + b) == Filter(p, a) + Filter(p, b)
  {
    if b == [] {
      assert a + b == a;
    } else {
      var init, last := b[..|b| - 1], b[|b| - 1];
      var tail := if p(last) then [last] else [];
      assert (a + b)[..|a + b| - 1] == a + init && (a + b)[|a + b| - 1] == last;
      assert Filter(p, a + b) == Filter(p, a + init) + tail;
      FilterAppend(p, a, init);
      assert Filter(p, b) == Filter(p, init) + tail;
    }
  }

  /** A single row is kept or dropped as a whole. */
  lemma FilterSingle<A(!new)>(p: A -> bool, x: A)
    ensures Filter(p, [x]) == if p(x) then [x] else []
  {
    assert [x][..0] == [];
  }

  /** Two conditions that no row meets both of split the rows: the two
      filtered lists hold at most all rows, and exactly all when every row
      meets one of them. */
  lemma {:induction false} FilterSplit<A(!new)>(p: A -> bool, q: A -> bool, s: seq<A>)
    requires forall x :: x in s ==> !(p(x) && q(x))
    ensures |Filter(p, s)| + |Filter(q, s)| <= |s|
    ensures (forall x :: x in s ==> p(x) || q(x)) ==> |Filter(p, s)| + |Filter(q, s)| == |s|
  {
    if s != [] {
      var init := s[..|s| - 1];
      assert forall x :: x in init ==> x in s;
      FilterSplit(p, q, init);
    }
  }

  predicate NoDup<T(==)>(s: seq<T>)
  {
    forall i, j :: 0 <= i < j < |s| ==> s[i] != s[j]
  }

  /** The first occurrence of every element of `s`, in order (SQL's DISTINCT). */
  function Dedup<T(==,!new)>(s: seq<T>): (r: seq<T>)
    ensures NoDup(r)
    ensures forall x :: x in r <==> x in s
  {
    if s == [] then []
    else
      var d := Dedup(s[..|s| - 1]);
      assert s == s[..|s| - 1] + [s[|s| - 1]];
      if s[|s| - 1] in d then d else d + [s[|s| - 1]]
  }

  lemma {:induction false} NoDupCount<T>(s: seq<T>, x: T)
    requires NoDup(s)
    ensures multiset(s)[x] <= 1
  {
    if s != [] {
      var init := s[..|s| - 1];
      assert s == init + [s[|s| - 1]];
      assert NoDup(init);
      NoDupCount(init, x);
      if x == s[|s| - 1] {
        assert x !in init;
      }
    }
  }

  /** A permutation of a sequence without duplicates has no duplicates. */
  lemma PermutationKeepsNoDup<T>(a: seq<T>, b: seq<T>)
    requires NoDup(a) && multiset(a) == multiset(b)
    ensures NoDup(b)
  {
    forall i, j | 0 <= i < j < |b| ensures b[i] != b[j] {
      if b[i] == b[j] {
        var x := b[i];
        assert b == b[..j] + b[j..];
        assert x in b[..j];
        assert x in b[j..];
        assert multiset(b)[x] == multiset(b[..j])[x] + multiset(b[j..])[x];
        NoDupCount(a, x);
        assert false;
      }
    }
  }

  /** `le` is a total preorder: every pair is comparable and it is transitive. */
  ghost predicate TotalPreorder<T(!new)>(le: (T, T) -> bool)
  {
    && (forall a, b :: le(a, b) || le(b, a))
    && (forall a, b, c :: le(a, b) && le(b, c) ==> le(a, c))
  }

  predicate SortedBy<T>(s: seq<T>, le: (T, T) -> bool)
  {
    forall i, j :: 0 <= i < j < |s| ==> le(s[i], s[j])
  }

  /** Inserts `x` after every element that is not greater than it, so that
      elements with equal keys keep their order of arrival. */
  function Insert<T>(x: T, s: seq<T>, le: (T, T) -> bool): (r: seq<T>)
    ensures multiset(r) == multiset(s) + multiset{x}
  {
    if s == [] then [x]
    else if !le(s[0], x) then [x] + s
    else
      assert s == [s[0]] + s[1..];
      [s[0]] + Insert(x, s[1..], le)
  }

  /** Stable insertion sort of `s` by `le`. */
  function SortBy<T>(s: seq<T>, le: (T, T) -> bool): (r: seq<T>)
    ensures multiset(r) == multiset(s)
  {
    if s == [] then []
    else
      assert s == s[..|s| - 1] + [s[|s| - 1]];
      Insert(s[|s| - 1], SortBy(s[..|s| - 1], le), le)
  }

  lemma {:induction false} InsertSorted<T(!new)>(x: T, s: seq<T>, le: (T, T) -> bool)
    requires TotalPreorder(le) && SortedBy(s, le)
    ensures SortedBy(Insert(x, s, le), le)
  {
    if s != [] && le(s[0], x) {
      var rest := Insert(x, s[1..], le);
      InsertSorted(x, s[1..], le);
      assert multiset(rest) == multiset(s[1..]) + multiset{x};
      forall k | 0 <= k < |rest| ensures le(s[0], rest[k]) {
        assert rest[k] in multiset(rest);
        if rest[k] != x {
          assert rest[k] in s[1..];
        }
      }
    }
  }

  lemma {:induction false} SortBySorted<T(!new)>(s: seq<T>, le: (T, T) -> bool)
    requires TotalPreorder(le)
    ensures SortedBy(SortBy(s, le), le)
  {
    if s != [] {
      SortBySorted(s[..|s| - 1], le);
      InsertSorted(s[|s| - 1], SortBy(s[..|s| - 1], le), le);
    }
  }

  /** The sort is stable: rows that all sort as equal to one another come
      out in the order they went in. */
  lemma {:induction false} SortByStable<T(!new)>(p: T -> bool, s: seq<T>, le: (T, T) -> bool)
    requires TotalPreorder(le)
    requires forall a, b :: p(a) && p(b) ==> le(a, b)
    ensures Filter(p, SortBy(s, le)) == Filter(p, s)
  {
    if s != [] {
      var init, last := s[..|s| - 1], s[|s| - 1];
      var sorted := SortBy(init, le);
      assert init + [last] == s;
      assert SortBy(s, le) == Insert(last, sorted, le);
      calc {
        Filter(p, SortBy(s, le));
        Filter(p, Insert(last, sorted, le));
        { SortBySorted(init, le); InsertStable(p, last, sorted, le); }
        Filter(p, sorted) + Filter(p, [last]);
        { SortByStable(p, init, le); }
        Filter(p, init) + Filter(p, [last]);
        { FilterAppend(p, init, [last]); }
        Filter(p, s);
      }
    }
  }

  /** Inserting `x` lands it after every row that sorts as equal to it. */
  lemma {:induction false} InsertStable<T(!new)>(p: T -> bool, x: T, s: seq<T>, le: (T, T) -> bool)
    requires TotalPreorder(le) && SortedBy(s, le)
    requires forall a, b :: p(a) && p(b) ==> le(a, b)
    ensures Filter(p, Insert(x, s, le)) == Filter(p, s) + Filter(p, [x])
  {
    var l := Filter(p, [x]);
    if s == [] {
      assert Insert(x, s, le) == [x] && Filter(p, s) == [];
      assert Filter(p, s) + l == l;
    } else if !le(s[0], x) {
      assert Insert(x, s, le) == [x] + s;
      InsertAtFront(p, x, s, le);
    } else {
      var rest := s[1..];
      var h := Filter(p, [s[0]]);
      assert s == [s[0]] + rest;
      assert Insert(x, s, le) == [s[0]] + Insert(x, rest, le);
      assert SortedBy(rest, le);
      InsertStable(p, x, rest, le);
      FilterAppend(p, [s[0]], Insert(x, rest, le));
      FilterAppend(p, [s[0]], rest);
      calc {
        Filter(p, Insert(x, s, le));
        h + Filter(p, Insert(x, rest, le));
        h + (Filter(p, rest) + l);
        (h + Filter(p, rest)) + l;
        Filter(p, s) + l;
      }
    }
  }

  /** Placed in front of a sorted sequence whose head is greater than it,
      `x` comes after every row that sorts as equal to it, since there is none. */
  lemma InsertAtFront<T(!new)>(p: T -> bool, x: T, s: seq<T>, le: (T, T) -> bool)
    requires TotalPreorder(le) && SortedBy(s, le) && s != [] && !le(s[0], x)
    requires forall a, b :: p(a) && p(b) ==> le(a, b)
    ensures Filter(p, [x] + s) == Filter(p, s) + Filter(p, [x])
  {
    FilterAppend(p, [x], s);
    FilterSingle(p, x);
    if p(x) {
      NoneEqualAbove(p, x, s, le);
      assert Filter(p, [x]) + [] == [] + Filter(p, [x]);
    } else {
      assert [] + Filter(p, s) == Filter(p, s) + [];
    }
  }

  /** In a sorted sequence whose head is greater than `x`, no row sorts as
      equal to `x`. */
  lemma NoneEqualAbove<T(!new)>(p: T -> bool, x: T, s: seq<T>, le: (T, T) -> bool)
    requires TotalPreorder(le) && SortedBy(s, le) && s != [] && !le(s[0], x) && p(x)
    requires forall a, b :: p(a) && p(b) ==> le(a, b)
    ensures Filter(p, s) == []
  {
    forall y | y in s ensures !p(y) {
      var i :| 0 <= i < |s| && s[i] == y;
    }
    FilterNone(p, s);
  }

  /** Nothing is kept when no row meets the condition. */
  lemma {:induction false} FilterNone<A(!new)>(p: A -> bool, s: seq<A>)
    requires forall x :: x in s ==> !p(x)
    ensures Filter(p, s) == []
  {
    if s != [] {
      var init := s[..|s| - 1];
      assert forall x :: x in init ==> x in s;
      FilterNone(p, init);
    }
  }
}
