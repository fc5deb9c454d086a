/** Options, filters, and the stable sort that stand for Python's list and query primitives. */
module Sequences {

  datatype Option<+T> = None | Some(value: T)

  function Max(a: int, b: int): int { if a >= b then a else b }

  function Min(a: int, b: int): int { if a <= b then a else b }

  function Abs(a: int): int { if a < 0 then -a else a }

  function Map<A, B>(f: A --> B, s: seq<A>): (r: seq<B>)
    requires forall x :: x in s ==> f.requires(x)
    ensures |r| == |s| && forall i :: 0 <= i < |s| ==> r[i] == f(s[i])
  {
    seq(|s|, i requires 0 <= i < |s| => f(s[i]))
  }

  function Filter<T>(s: seq<T>, p: T -> bool): seq<T>
  {
    if s == [] then [] else (if p(s[0]) then [s[0]] else []) + Filter(s[1..], p)
  }

  /** The number of elements satisfying p. */
  function Count<T>(s: seq<T>, p: T -> bool): (n: nat)
    ensures n <= |s|
  {
    if s == [] then 0 else (if p(s[0]) then 1 else 0) + Count(s[1..], p)
  }

  lemma {:induction false} CountConcat<T>(s: seq<T>, t: seq<T>, p: T -> bool)
    ensures Count(s + t, p) == Count(s, p) + Count(t, p)
  {
    if s == [] {
      assert s + t == t;
    } else {
      assert (s + t)[1..] == s[1..] + t;
      CountConcat(s[1..], t, p);
    }
  }

  lemma CountUpdate<T>(s: seq<T>, i: nat, x: T, p: T -> bool)
    requires i < |s|
    ensures Count(s[i := x], p) == Count(s, p) - (if p(s[i]) then 1 else 0) + if p(x) then 1 else 0
  {
    var before, after := s[..i], s[i + 1..];
    assert s == before + ([s[i]] + after) && s[i := x] == before + ([x] + after);
    CountConcat(before, [s[i]] + after, p);
    CountConcat(before, [x] + after, p);
    assert ([s[i]] + after)[1..] == after && ([x] + after)[1..] == after;
  }

  lemma {:induction false} CountPositive<T>(s: seq<T>, i: nat, p: T -> bool)
    requires i < |s| && p(s[i])
    ensures Count(s, p) > 0
  {
    if i > 0 { CountPositive(s[1..], i - 1, p); }
  }

  /** Counting two lists in step: whatever counts on the left counts on the right. */
  lemma {:induction false} CountAligned<A, B>(s: seq<A>, t: seq<B>, p: A -> bool, q: B -> bool)
    requires |s| == |t| && forall i :: 0 <= i < |s| && p(s[i]) ==> q(t[i])
    ensures Count(s, p) <= Count(t, q)
  {
    if s != [] { CountAligned(s[1..], t[1..], p, q); }
  }

  lemma ConcatAssociates<T>(a: seq<T>, b: seq<T>, c: seq<T>)
    ensures a + (b + c) == (a + b) + c
  {
  }

  lemma {:induction false} FilterConcat<T>(s: seq<T>, t: seq<T>, p: T -> bool)
    ensures Filter(s + t, p) == Filter(s, p) + Filter(t, p)
  {
    if s == [] {
      assert s + t == t;
    } else {
      assert (s + t)[1..] == s[1..] + t;
      FilterConcat(s[1..], t, p);
      ConcatAssociates(if p(s[0]) then [s[0]] else [], Filter(s[1..], p), Filter(t, p));
    }
  }

  lemma {:induction false} FilterMembers<T>(s: seq<T>, p: T -> bool)
    ensures forall x :: x in Filter(s, p) <==> x in s && p(x)
  {
    if s != [] {
      assert s == [s[0]] + s[1..];
      FilterMembers(s[1..], p);
    }
  }

  lemma {:induction false} FilterAllOrNothing<T>(s: seq<T>, p: T -> bool)
    ensures (forall x :: x in s ==> p(x)) ==> Filter(s, p) == s
    ensures (forall x :: x in s ==> !p(x)) ==> Filter(s, p) == []
  {
    if s != [] {
      FilterAllOrNothing(s[1..], p);
      assert s == [s[0]] + s[1..];
    }
  }

  lemma Slices<T>(s: seq<T>, a: nat, b: nat, c: nat)
    requires a <= b <= c <= |s|
    ensures s[..a] + s[a..b] == s[..b]
    ensures s[..a] + s[a..b] + s[b..c] + s[c..] == s
    ensures s[b..c] + s[c..] == s[b..]
  {
  }

  lemma SliceWithoutLast<T>(s: seq<T>, a: nat, b: nat)
    requires a < b <= |s|
    ensures s[a..b][..b - a - 1] == s[a..b - 1] && s[a..b][b - a - 1] == s[b - 1]
  {
  }

  // ----- Stable insertion sort: the specification of list.sort and of ORDER BY -----

  ghost predicate TotalPreorder<T(!new)>(leq: (T, T) -> bool)
  {
    && (forall x, y :: leq(x, y) || leq(y, x))
    && (forall x, y, z :: leq(x, y) && leq(y, z) ==> leq(x, z))
  }

  ghost predicate SortedBy<T>(s: seq<T>, leq: (T, T) -> bool)
  {
    forall i, j :: 0 <= i < j < |s| ==> leq(s[i], s[j])
  }

  /** Inserts x before the first element that does not rank strictly ahead of it. */
  function Insert<T>(x: T, s: seq<T>, leq: (T, T) -> bool): seq<T>
  {
    if s == [] || leq(x, s[0]) then [x] + s else [s[0]] + Insert(x, s[1..], leq)
  }

  function Sort<T>(s: seq<T>, leq: (T, T) -> bool): seq<T>
  {
    if s == [] then [] else Insert(s[0], Sort(s[1..], leq), leq)
  }

  lemma {:induction false} InsertKeepsElements<T>(x: T, s: seq<T>, leq: (T, T) -> bool)
    ensures multiset(Insert(x, s, leq)) == multiset{x} + multiset(s)
    ensures |Insert(x, s, leq)| == |s| + 1
  {
    if !(s == [] || leq(x, s[0])) {
      InsertKeepsElements(x, s[1..], leq);
      assert s == [s[0]] + s[1..];
    }
  }

  lemma {:induction false} SortKeepsElements<T>(s: seq<T>, leq: (T, T) -> bool)
    ensures multiset(Sort(s, leq)) == multiset(s)
    ensures |Sort(s, leq)| == |s|
    ensures forall x :: x in Sort(s, leq) <==> x in s
  {
    if s != [] {
      SortKeepsElements(s[1..], leq);
      InsertKeepsElements(s[0], Sort(s[1..], leq), leq);
      assert s == [s[0]] + s[1..];
    }
    forall x ensures x in Sort(s, leq) <==> x in s {
      assert x in Sort(s, leq) <==> x in multiset(Sort(s, leq));
    }
  }

  lemma {:induction false} InsertKeepsSorted<T(!new)>(x: T, s: seq<T>, leq: (T, T) -> bool)
    requires TotalPreorder(leq) && SortedBy(s, leq)
    ensures SortedBy(Insert(x, s, leq), leq)
  {
    if !(s == [] || leq(x, s[0])) {
      InsertKeepsSorted(x, s[1..], leq);
      InsertKeepsElements(x, s[1..], leq);
      var rest := Insert(x, s[1..], leq);
      forall j | 0 <= j < |rest| ensures leq(s[0], rest[j]) {
        assert rest[j] in multiset(rest);
        assert rest[j] == x || rest[j] in s[1..];
      }
    }
  }

  lemma {:induction false} SortIsSorted<T(!new)>(s: seq<T>, leq: (T, T) -> bool)
    requires TotalPreorder(leq)
    ensures SortedBy(Sort(s, leq), leq)
  {
    if s != [] {
      SortIsSorted(s[1..], leq);
      InsertKeepsSorted(s[0], Sort(s[1..], leq), leq);
    }
  }

  /** p selects elements that rank equally, so none of them is ever moved past another. */
  ghost predicate Tied<T(!new)>(p: T -> bool, leq: (T, T) -> bool)
  {
    forall x, y :: p(x) && p(y) ==> leq(x, y)
  }

  lemma {:induction false} InsertIsStable<T(!new)>(x: T, s: seq<T>, leq: (T, T) -> bool, p: T -> bool)
    requires Tied(p, leq)
    ensures Filter(Insert(x, s, leq), p) == Filter([x] + s, p)
  {
    if !(s == [] || leq(x, s[0])) {
      InsertIsStable(x, s[1..], leq, p);
      assert ([x] + s)[1..] == s;
      assert ([x] + s[1..])[1..] == s[1..];
    }
  }

  /** Stability: elements that rank equally keep their original order. */
  lemma {:induction false} SortIsStable<T(!new)>(s: seq<T>, leq: (T, T) -> bool, p: T -> bool)
    requires Tied(p, leq)
    ensures Filter(Sort(s, leq), p) == Filter(s, p)
  {
    if s != [] {
      SortIsStable(s[1..], leq, p);
      var rest := Sort(s[1..], leq);
      InsertIsStable(s[0], rest, leq, p);
      assert ([s[0]] + rest)[1..] == rest;
    }
  }

  lemma TailElements<T>(s: seq<T>)
    requires s != []
    ensures multiset(s[1..]) == multiset(s) - multiset{s[0]}
  {
    assert s == [s[0]] + s[1..];
  }

  lemma SameHead<T(!new)>(s: seq<T>, t: seq<T>, leq: (T, T) -> bool)
    requires SortedBy(s, leq) && SortedBy(t, leq)
    requires s != [] && multiset(s) == multiset(t)
    requires forall x, y :: x in s && y in s && leq(x, y) && leq(y, x) ==> x == y
    ensures t != [] && s[0] == t[0]
  {
    assert s[0] in multiset(t);
    assert t[0] in multiset(s);
    var i :| 0 <= i < |s| && s[i] == t[0];
    var j :| 0 <= j < |t| && t[j] == s[0];
  }

  /** A strictly ranked collection has exactly one sorted arrangement. */
  lemma {:induction false} SortedArrangementIsUnique<T(!new)>(s: seq<T>, t: seq<T>, leq: (T, T) -> bool)
    requires SortedBy(s, leq) && SortedBy(t, leq)
    requires multiset(s) == multiset(t)
    requires forall x, y :: x in s && y in s && leq(x, y) && leq(y, x) ==> x == y
    ensures s == t
  {
    if s == [] {
      assert |multiset(t)| == 0;
    } else {
      SameHead(s, t, leq);
      TailElements(s);
      TailElements(t);
      SortedArrangementIsUnique(s[1..], t[1..], leq);
      assert s == [s[0]] + s[1..] && t == [t[0]] + t[1..];
    }
  }
}
