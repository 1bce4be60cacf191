/** Stable sorting by an order given as a function, and the order of strings by code points. */
module Ordering {

  ghost predicate Total<T(!new)>(leq: (T, T) -> bool) {
    && (forall x, y :: leq(x, y) || leq(y, x))
    && (forall x, y, z :: leq(x, y) && leq(y, z) ==> leq(x, z))
  }

  ghost predicate Reflexive<T(!new)>(leq: (T, T) -> bool) {
    forall x :: leq(x, x)
  }

  ghost predicate Sorted<T(!new)>(s: seq<T>, leq: (T, T) -> bool) {
    forall i, j :: 0 <= i < j < |s| ==> leq(s[i], s[j])
  }

  /** No two different members of `s` tie. */
  ghost predicate Untied<T(!new)>(s: seq<T>, leq: (T, T) -> bool) {
    forall x, y :: x in s && y in s && leq(x, y) && leq(y, x) ==> x == y
  }

  function Insert<T>(x: T, s: seq<T>, leq: (T, T) -> bool): seq<T> {
    if s == [] || leq(x, s[0]) then [x] + s else [s[0]] + Insert(x, s[1..], leq)
  }

  /** Equal members keep their order. */
  function Sort<T>(s: seq<T>, leq: (T, T) -> bool): seq<T> {
    if s == [] then [] else Insert(s[0], Sort(s[1..], leq), leq)
  }

  lemma HeadFirst<T(!new)>(head: T, rest: seq<T>, members: multiset<T>, leq: (T, T) -> bool)
    requires Sorted(rest, leq) && multiset(rest) == members
    requires forall x :: x in members ==> leq(head, x)
    ensures Sorted([head] + rest, leq)
  {
    forall j | 0 <= j < |rest| ensures leq(head, rest[j]) {
      assert rest[j] in members;
    }
  }

  lemma PutFirst<T(!new)>(x: T, s: seq<T>, leq: (T, T) -> bool)
    requires Total(leq) && Sorted(s, leq) && (s == [] || leq(x, s[0]))
    ensures Sorted([x] + s, leq)
  {
    forall j | 0 <= j < |s| ensures leq(x, s[j]) {
      assert j == 0 || leq(s[0], s[j]);
    }
  }

  lemma TailSorted<T(!new)>(s: seq<T>, leq: (T, T) -> bool)
    requires s != [] && Sorted(s, leq)
    ensures Sorted(s[1..], leq)
    ensures Untied(s, leq) ==> Untied(s[1..], leq)
  {
    assert forall x :: x in s[1..] ==> x in s;
  }

  lemma HeadStays<T(!new)>(x: T, s: seq<T>, rest: seq<T>, leq: (T, T) -> bool)
    requires Total(leq) && s != [] && Sorted(s, leq) && leq(s[0], x)
    requires Sorted(rest, leq) && multiset(rest) == multiset(s[1..]) + multiset{x}
    ensures Sorted([s[0]] + rest, leq) && multiset([s[0]] + rest) == multiset(s) + multiset{x}
  {
    assert s == [s[0]] + s[1..];
    HeadFirst(s[0], rest, multiset(s[1..]) + multiset{x}, leq);
  }

  lemma {:induction false} InsertSorted<T(!new)>(x: T, s: seq<T>, leq: (T, T) -> bool)
    requires Total(leq) && Sorted(s, leq)
    ensures Sorted(Insert(x, s, leq), leq)
    ensures multiset(Insert(x, s, leq)) == multiset(s) + multiset{x}
  {
    if s == [] || leq(x, s[0]) {
      PutFirst(x, s, leq);
    } else {
      TailSorted(s, leq);
      InsertSorted(x, s[1..], leq);
      HeadStays(x, s, Insert(x, s[1..], leq), leq);
    }
  }

  lemma {:induction false} SortSorted<T(!new)>(s: seq<T>, leq: (T, T) -> bool)
    requires Total(leq)
    ensures Sorted(Sort(s, leq), leq) && multiset(Sort(s, leq)) == multiset(s)
  {
    if s != [] {
      SortSorted(s[1..], leq);
      InsertSorted(s[0], Sort(s[1..], leq), leq);
      assert s == [s[0]] + s[1..];
    }
  }

  lemma TailMultiset<T>(s: seq<T>)
    requires s != []
    ensures multiset(s[1..]) == multiset(s) - multiset{s[0]}
  {
    assert s == [s[0]] + s[1..];
  }

  lemma TailsAgree<T>(a: seq<T>, b: seq<T>)
    requires a != [] && b != [] && a[0] == b[0] && multiset(a) == multiset(b)
    ensures multiset(a[1..]) == multiset(b[1..])
  {
    TailMultiset(a);
    TailMultiset(b);
  }

  lemma HeadAndTail<T>(a: seq<T>, b: seq<T>)
    requires a != [] && b != [] && a[0] == b[0] && a[1..] == b[1..]
    ensures a == b
  {
    assert a == [a[0]] + a[1..] && b == [b[0]] + b[1..];
  }

  lemma HeadLeast<T(!new)>(s: seq<T>, x: T, leq: (T, T) -> bool)
    requires Sorted(s, leq) && Reflexive(leq) && x in s
    ensures leq(s[0], x)
  {
  }

  lemma HeadsAgree<T(!new)>(a: seq<T>, b: seq<T>, leq: (T, T) -> bool)
    requires Sorted(a, leq) && Sorted(b, leq) && multiset(a) == multiset(b) && Untied(a, leq)
    requires Reflexive(leq) && a != [] && b != []
    ensures a[0] == b[0]
  {
    assert a[0] in multiset(b) && b[0] in multiset(a);
    HeadLeast(a, b[0], leq);
    HeadLeast(b, a[0], leq);
  }

  lemma SameSize<T>(a: seq<T>, b: seq<T>)
    requires multiset(a) == multiset(b)
    ensures |a| == |b|
  {
    assert |multiset(a)| == |a| && |multiset(b)| == |b|;
  }

  /** A list without ties has one sorted form. */
  lemma {:induction false} SortedUnique<T(!new)>(a: seq<T>, b: seq<T>, leq: (T, T) -> bool)
    requires Sorted(a, leq) && Sorted(b, leq) && multiset(a) == multiset(b) && Untied(a, leq)
    requires Reflexive(leq)
    ensures a == b
  {
    SameSize(a, b);
    if a != [] {
      HeadsAgree(a, b, leq);
      TailsAgree(a, b);
      TailSorted(a, leq);
      TailSorted(b, leq);
      SortedUnique(a[1..], b[1..], leq);
      HeadAndTail(a, b);
    }
  }

  predicate StringLeq(a: string, b: string) {
    if a == [] then true
    else if b == [] then false
    else if a[0] != b[0] then a[0] < b[0]
    else StringLeq(a[1..], b[1..])
  }

  /** `a` comes strictly before `b` in the order of the code points: a proper prefix of it, or the smaller
      at the first place where they differ. */
  ghost predicate IsSmaller(a: string, b: string) {
    a < b || exists k :: 0 <= k < |a| && k < |b| && DiffersAt(a, b, k) && a[k] < b[k]
  }

  ghost predicate DiffersAt(a: string, b: string, k: int)
    requires 0 <= k < |a| && k < |b|
  {
    a[k] != b[k] && forall i :: 0 <= i < k ==> a[i] == b[i]
  }

  lemma {:induction false} SmallerExactly(a: string, b: string)
    ensures IsSmaller(a, b) <==> StringLeq(a, b) && a != b
  {
    if a != [] && b != [] {
      if a[0] == b[0] {
        SmallerExactly(a[1..], b[1..]);
        assert a == [a[0]] + a[1..] && b == [b[0]] + b[1..];
        if IsSmaller(a[1..], b[1..]) && !(a[1..] < b[1..]) {
          var k :| 0 <= k < |a[1..]| && k < |b[1..]| && DiffersAt(a[1..], b[1..], k) && a[1..][k] < b[1..][k];
          assert DiffersAt(a, b, k + 1);
        }
        if IsSmaller(a, b) && !(a < b) {
          var k :| 0 <= k < |a| && k < |b| && DiffersAt(a, b, k) && a[k] < b[k];
          assert DiffersAt(a[1..], b[1..], k - 1);
        }
      } else {
        assert DiffersAt(a, b, 0);
      }
    }
  }

  lemma {:induction false} StringTotal(a: string, b: string)
    ensures StringLeq(a, b) || StringLeq(b, a)
    ensures StringLeq(a, b) && StringLeq(b, a) ==> a == b
  {
    if a != [] && b != [] {
      StringTotal(a[1..], b[1..]);
      assert a == [a[0]] + a[1..] && b == [b[0]] + b[1..];
    }
  }

  lemma {:induction false} StringTransitive(a: string, b: string, c: string)
    requires StringLeq(a, b) && StringLeq(b, c)
    ensures StringLeq(a, c)
  {
    if a != [] && c != [] && a[0] == c[0] {
      StringTransitive(a[1..], b[1..], c[1..]);
    }
  }
}
