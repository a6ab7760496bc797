/** Orders, sorting and filtering shared by every component.

    Strings are ordered lexicographically by character, as both Python and Spark order them. Sorting is
    stable: elements that compare equal keep their relative position. */
module Ordering {

  /** Lexicographic string order. */
  predicate StringLe(a: string, b: string) {
    a == "" || (b != "" && (a[0] < b[0] || (a[0] == b[0] && StringLe(a[1..], b[1..]))))
  }

  lemma {:induction false} StringLeTotal(a: string, b: string)
    ensures StringLe(a, b) || StringLe(b, a)
  {
    if a != "" && b != "" {
      StringLeTotal(a[1..], b[1..]);
    }
  }

  lemma {:induction false} StringLeAntisymmetric(a: string, b: string)
    requires StringLe(a, b) && StringLe(b, a)
    ensures a == b
  {
    if a != "" && b != "" {
      StringLeAntisymmetric(a[1..], b[1..]);
      assert a == [a[0]] + a[1..] && b == [b[0]] + b[1..];
    }
  }

  lemma {:induction false} StringLeTransitive(a: string, b: string, c: string)
    requires StringLe(a, b) && StringLe(b, c)
    ensures StringLe(a, c)
  {
    if a != "" && a[0] == b[0] == c[0] {
      StringLeTransitive(a[1..], b[1..], c[1..]);
    }
  }

  /** A total preorder: what a Python sort key or a Spark ORDER BY induces. */
  ghost predicate TotalPreorder<T(!new)>(le: (T, T) -> bool) {
    && (forall a, b :: le(a, b) || le(b, a))
    && (forall a, b, c :: le(a, b) && le(b, c) ==> le(a, c))
  }

  ghost predicate Sorted<T>(xs: seq<T>, le: (T, T) -> bool) {
    forall i, j :: 0 <= i < j < |xs| ==> le(xs[i], xs[j])
  }

  function Insert<T>(x: T, xs: seq<T>, le: (T, T) -> bool): seq<T> {
    if xs == [] || le(x, xs[0]) then [x] + xs else [xs[0]] + Insert(x, xs[1..], le)
  }

  lemma StringLeTotalPreorder()
    ensures TotalPreorder(StringLe) && forall a, b :: StringLe(a, b) && StringLe(b, a) ==> a == b
  {
    forall a, b ensures StringLe(a, b) || StringLe(b, a) {
      StringLeTotal(a, b);
    }
    forall a, b | StringLe(a, b) && StringLe(b, a) ensures a == b {
      StringLeAntisymmetric(a, b);
    }
    forall a, b, c | StringLe(a, b) && StringLe(b, c) ensures StringLe(a, c) {
      StringLeTransitive(a, b, c);
    }
  }

  /** The stable sort of `xs` by `le`. */
  function Sort<T>(xs: seq<T>, le: (T, T) -> bool): seq<T> {
    if xs == [] then [] else Insert(xs[0], Sort(xs[1..], le), le)
  }

  lemma {:induction false} InsertPermutes<T>(x: T, xs: seq<T>, le: (T, T) -> bool)
    ensures multiset(Insert(x, xs, le)) == multiset{x} + multiset(xs)
  {
    if !(xs == [] || le(x, xs[0])) {
      InsertPermutes(x, xs[1..], le);
      assert xs == [xs[0]] + xs[1..];
    }
  }

  lemma {:induction false} SortPermutes<T>(xs: seq<T>, le: (T, T) -> bool)
    ensures multiset(Sort(xs, le)) == multiset(xs)
  {
    if xs != [] {
      SortPermutes(xs[1..], le);
      InsertPermutes(xs[0], Sort(xs[1..], le), le);
      assert xs == [xs[0]] + xs[1..];
    }
  }

  /** A sort keeps exactly the elements it was given. */
  lemma SortMembers<T>(xs: seq<T>, le: (T, T) -> bool)
    ensures |Sort(xs, le)| == |xs|
    ensures forall x :: x in Sort(xs, le) <==> x in xs
  {
    SortPermutes(xs, le);
    assert |multiset(Sort(xs, le))| == |multiset(xs)|;
    forall x ensures x in Sort(xs, le) <==> x in xs {
      assert x in Sort(xs, le) <==> x in multiset(Sort(xs, le));
      assert x in xs <==> x in multiset(xs);
    }
  }

  lemma {:induction false} InsertSorted<T(!new)>(x: T, xs: seq<T>, le: (T, T) -> bool)
    requires TotalPreorder(le) && Sorted(xs, le)
    ensures Sorted(Insert(x, xs, le), le)
  {
    if xs == [] {
    } else if le(x, xs[0]) {
      forall j | 0 <= j < |xs| ensures le(x, xs[j]) {
        assert j == 0 || le(xs[0], xs[j]);
      }
    } else {
      var rest := Insert(x, xs[1..], le);
      InsertSorted(x, xs[1..], le);
      InsertPermutes(x, xs[1..], le);
      forall j | 0 <= j < |rest| ensures le(xs[0], rest[j]) {
        assert rest[j] in multiset(rest);
        assert rest[j] == x || rest[j] in xs[1..];
      }
    }
  }

  lemma {:induction false} SortSorted<T(!new)>(xs: seq<T>, le: (T, T) -> bool)
    requires TotalPreorder(le)
    ensures Sorted(Sort(xs, le), le)
  {
    if xs != [] {
      SortSorted(xs[1..], le);
      InsertSorted(xs[0], Sort(xs[1..], le), le);
    }
  }

  lemma {:induction false} InsertRefined<T(!new)>(x: T, xs: seq<T>, le: (T, T) -> bool, finer: (T, T) -> bool)
    requires TotalPreorder(le) && TotalPreorder(finer) && Sorted(xs, finer)
    requires forall a, b :: le(a, b) && !le(b, a) ==> finer(a, b)
    requires forall y :: y in xs && le(x, y) && le(y, x) ==> finer(x, y)
    ensures Sorted(Insert(x, xs, le), finer)
  {
    if xs == [] {
    } else if le(x, xs[0]) {
      assert finer(x, xs[0]);
      forall j | 0 <= j < |xs| ensures finer(x, xs[j]) {
        assert j == 0 || finer(xs[0], xs[j]);
      }
    } else {
      var rest := Insert(x, xs[1..], le);
      InsertRefined(x, xs[1..], le, finer);
      InsertPermutes(x, xs[1..], le);
      assert finer(xs[0], x);
      forall j | 0 <= j < |rest| ensures finer(xs[0], rest[j]) {
        assert rest[j] in multiset(rest);
        assert rest[j] == x || rest[j] in xs[1..];
      }
    }
  }

  /** Stability: if tied elements already stand in a finer order, the sorted list is sorted by that finer order. */
  lemma {:induction false} SortStable<T(!new)>(xs: seq<T>, le: (T, T) -> bool, finer: (T, T) -> bool)
    requires TotalPreorder(le) && TotalPreorder(finer)
    requires forall a, b :: le(a, b) && !le(b, a) ==> finer(a, b)
    requires forall i, j :: 0 <= i < j < |xs| && le(xs[i], xs[j]) && le(xs[j], xs[i]) ==> finer(xs[i], xs[j])
    ensures Sorted(Sort(xs, le), finer)
  {
    if xs != [] {
      SortStable(xs[1..], le, finer);
      SortMembers(xs[1..], le);
      forall y | y in Sort(xs[1..], le) && le(xs[0], y) && le(y, xs[0]) ensures finer(xs[0], y) {
        assert y in xs[1..];
        var j :| 0 < j < |xs| && xs[j] == y;
      }
      InsertRefined(xs[0], Sort(xs[1..], le), le, finer);
    }
  }

  /** The head of a sorted list is below every element. */
  lemma SortedHead<T(!new)>(a: seq<T>, le: (T, T) -> bool, x: T)
    requires TotalPreorder(le) && Sorted(a, le) && x in a
    ensures le(a[0], x)
  {
    var i :| 0 <= i < |a| && a[i] == x;
    assert i == 0 || le(a[0], a[i]);
  }

  lemma MultisetTail<T>(a: seq<T>)
    requires a != []
    ensures multiset(a) == multiset{a[0]} + multiset(a[1..])
  {
    assert a == [a[0]] + a[1..];
  }

  lemma SameMultisetMembers<T>(a: seq<T>, b: seq<T>, x: T)
    requires multiset(a) == multiset(b)
    ensures x in a <==> x in b
  {
    assert x in a <==> x in multiset(a);
    assert x in b <==> x in multiset(b);
  }

  /** Elements that compare equal are equal. */
  ghost predicate TiesAreEqual<T(!new)>(a: seq<T>, le: (T, T) -> bool) {
    forall x, y :: x in a && y in a && le(x, y) && le(y, x) ==> x == y
  }

  lemma SortedTail<T(!new)>(a: seq<T>, le: (T, T) -> bool)
    requires a != []
    ensures Sorted(a, le) ==> Sorted(a[1..], le)
    ensures TiesAreEqual(a, le) ==> TiesAreEqual(a[1..], le)
  {
    assert forall x :: x in a[1..] ==> x in a;
  }

  lemma SortedHeads<T(!new)>(a: seq<T>, b: seq<T>, le: (T, T) -> bool)
    requires TotalPreorder(le) && a != [] && b != [] && multiset(a) == multiset(b)
    requires Sorted(a, le) && Sorted(b, le) && TiesAreEqual(a, le)
    ensures a[0] == b[0]
  {
    SameMultisetMembers(a, b, a[0]);
    SameMultisetMembers(a, b, b[0]);
    SortedHead(a, le, b[0]);
    SortedHead(b, le, a[0]);
  }

  lemma EqualTails<T>(a: seq<T>, b: seq<T>)
    requires a != [] && b != [] && a[0] == b[0] && multiset(a) == multiset(b)
    ensures multiset(a[1..]) == multiset(b[1..])
    ensures a[1..] == b[1..] ==> a == b
  {
    MultisetTail(a);
    MultisetTail(b);
    assert multiset(a[1..]) == multiset(a) - multiset{a[0]} == multiset(b[1..]);
    assert a == [a[0]] + a[1..] && b == [b[0]] + b[1..];
  }

  /** Two sorted lists with the same elements are the same list when ties are equal elements. */
  lemma {:induction false} SortedUnique<T(!new)>(a: seq<T>, b: seq<T>, le: (T, T) -> bool)
    requires TotalPreorder(le)
    requires multiset(a) == multiset(b)
    requires Sorted(a, le) && Sorted(b, le) && TiesAreEqual(a, le)
    ensures a == b
    decreases |a|
  {
    hide TotalPreorder, Sorted, TiesAreEqual;
    assert |a| == |multiset(a)| == |multiset(b)| == |b|;
    if a != [] {
      SortedHeads(a, b, le);
      EqualTails(a, b);
      SortedTail(a, le);
      SortedTail(b, le);
      SortedUnique(a[1..], b[1..], le);
    }
  }

  /** `[x for x in xs if keep(x)]`. */
  function Filter<T(!new)>(xs: seq<T>, keep: T -> bool): (ys: seq<T>)
    ensures forall x :: x in ys <==> x in xs && keep(x)
  {
    if xs == [] then []
    else
      var last := xs[|xs| - 1];
      var rest := Filter(xs[..|xs| - 1], keep);
      assert xs == xs[..|xs| - 1] + [last];
      if keep(last) then rest + [last] else rest
  }

  lemma FilterShort<T(!new)>(x: T, y: T, keep: T -> bool)
    ensures Filter([x], keep) == if keep(x) then [x] else []
    ensures Filter([x, y], keep) == (if keep(x) then [x] else []) + (if keep(y) then [y] else [])
  {
    assert [x][..0] == [] && [x, y][..1] == [x];
  }

  lemma DedupeShort<T(!new)>(x: T, y: T)
    ensures Dedupe([x]) == [x] && Dedupe([x, y]) == if x == y then [x] else [x, y]
  {
    assert [x][..0] == [] && [x, y][..1] == [x];
  }

  /** No element occurs twice. */
  ghost predicate Distinct<T>(xs: seq<T>) {
    forall i, j :: 0 <= i < j < |xs| ==> xs[i] != xs[j]
  }

  lemma DistinctLast<T>(init: seq<T>, last: T)
    requires Distinct(init + [last])
    ensures Distinct(init) && last !in init
  {
    var all := init + [last];
    forall i | 0 <= i < |init| ensures init[i] != last {
      assert all[i] != all[|init|];
    }
    forall i, j | 0 <= i < j < |init| ensures init[i] != init[j] {
      assert all[i] != all[j];
    }
  }

  lemma {:induction false} FilterDistinct<T(!new)>(xs: seq<T>, keep: T -> bool)
    requires Distinct(xs)
    ensures Distinct(Filter(xs, keep))
  {
    if xs != [] {
      FilterDistinct(xs[..|xs| - 1], keep);
    }
  }

  /** The distinct elements of a list in order of first appearance: the key order of a Python dict. */
  function Dedupe<T(==,!new)>(xs: seq<T>): (ys: seq<T>)
    ensures Distinct(ys)
    ensures forall x :: x in ys <==> x in xs
  {
    if xs == [] then []
    else
      var last := xs[|xs| - 1];
      var rest := Dedupe(xs[..|xs| - 1]);
      assert xs == xs[..|xs| - 1] + [last];
      if last in rest then rest else rest + [last]
  }

  lemma DistinctMultiset<T>(xs: seq<T>, x: T)
    requires Distinct(xs)
    ensures multiset(xs)[x] == if x in xs then 1 else 0
  {
    if xs != [] {
      var init := xs[..|xs| - 1];
      DistinctMultiset(init, x);
      assert xs == init + [xs[|xs| - 1]];
      assert xs[|xs| - 1] !in init;
    }
  }

  lemma DistinctConcat<T>(a: seq<T>, b: seq<T>)
    requires Distinct(a) && Distinct(b) && forall x :: !(x in a && x in b)
    ensures Distinct(a + b)
  {
    forall i, j | 0 <= i < |a| && 0 <= j < |b| ensures a[i] != b[j] {
      assert a[i] in a && b[j] in b;
    }
  }

  lemma MoreThanOneIff<T>(xs: seq<T>, x: T)
    requires Distinct(xs) && x in xs
    ensures |xs| > 1 <==> exists y :: y in xs && y != x
  {
    if |xs| > 1 {
      assert xs[0] in xs && xs[1] in xs && xs[0] != xs[1];
    }
  }

  /** Distinct lists with the same members are permutations of each other. */
  lemma DistinctSameMembers<T>(a: seq<T>, b: seq<T>)
    requires Distinct(a) && Distinct(b)
    requires forall x :: x in a <==> x in b
    ensures multiset(a) == multiset(b)
  {
    forall x ensures multiset(a)[x] == multiset(b)[x] {
      DistinctMultiset(a, x);
      DistinctMultiset(b, x);
    }
  }

  lemma PermutationDistinct<T>(a: seq<T>, b: seq<T>)
    requires Distinct(a) && multiset(a) == multiset(b)
    ensures Distinct(b)
  {
    forall i, j | 0 <= i < j < |b| ensures b[i] != b[j] {
      if b[i] == b[j] {
        var pre, post := b[..j], b[j..];
        assert b == pre + post;
        assert pre[i] == b[i] && post[0] == b[j];
        assert multiset(pre)[b[i]] >= 1 && multiset(post)[b[i]] >= 1;
        assert multiset(b)[b[i]] >= 2;
        DistinctMultiset(a, b[i]);
      }
    }
  }

  function FlatMap<A, B>(xs: seq<A>, f: A -> seq<B>): seq<B> {
    if xs == [] then [] else f(xs[0]) + FlatMap(xs[1..], f)
  }

  lemma {:induction false} FlatMapConcat<A, B>(a: seq<A>, b: seq<A>, f: A -> seq<B>)
    ensures FlatMap(a + b, f) == FlatMap(a, f) + FlatMap(b, f)
  {
    if a == [] {
      assert a + b == b;
    } else {
      FlatMapConcat(a[1..], b, f);
      assert (a + b)[0] == a[0] && (a + b)[1..] == a[1..] + b;
    }
  }

  function Map<A, B>(xs: seq<A>, f: A -> B): seq<B> { seq(|xs|, i requires 0 <= i < |xs| => f(xs[i])) }

  lemma {:induction false} FilterCounts<T(!new)>(xs: seq<T>, keep: T -> bool, x: T)
    ensures multiset(Filter(xs, keep))[x] == if keep(x) then multiset(xs)[x] else 0
  {
    if xs != [] {
      FilterCounts(xs[..|xs| - 1], keep, x);
      assert xs == xs[..|xs| - 1] + [xs[|xs| - 1]];
    }
  }

  /** Filters of which each element passes exactly one split the list. */
  lemma FilterTwoWays<T(!new)>(xs: seq<T>, f: T -> bool, g: T -> bool)
    requires forall x :: x in xs ==> (f(x) <==> !g(x))
    ensures multiset(Filter(xs, f)) + multiset(Filter(xs, g)) == multiset(xs)
  {
    forall x ensures multiset(Filter(xs, f))[x] + multiset(Filter(xs, g))[x] == multiset(xs)[x] {
      FilterCounts(xs, f, x);
      FilterCounts(xs, g, x);
      if x !in xs {
        assert multiset(xs)[x] == 0;
      }
    }
  }

  lemma FilterThreeWays<T(!new)>(xs: seq<T>, f: T -> bool, g: T -> bool, h: T -> bool)
    requires forall x :: x in xs ==> (f(x) <==> !g(x) && !h(x)) && !(g(x) && h(x))
    ensures multiset(Filter(xs, f)) + multiset(Filter(xs, g)) + multiset(Filter(xs, h)) == multiset(xs)
  {
    forall x
      ensures multiset(Filter(xs, f))[x] + multiset(Filter(xs, g))[x] + multiset(Filter(xs, h))[x] == multiset(xs)[x]
    {
      FilterCounts(xs, f, x);
      FilterCounts(xs, g, x);
      FilterCounts(xs, h, x);
      if x !in xs {
        assert multiset(xs)[x] == 0;
      }
    }
  }

  lemma FilterPermutes<T(!new)>(a: seq<T>, b: seq<T>, keep: T -> bool)
    requires multiset(a) == multiset(b)
    ensures multiset(Filter(a, keep)) == multiset(Filter(b, keep))
  {
    forall x ensures multiset(Filter(a, keep))[x] == multiset(Filter(b, keep))[x] {
      FilterCounts(a, keep, x);
      FilterCounts(b, keep, x);
    }
  }

  /** Only the filter's verdict on the list's own elements matters. */
  lemma {:induction false} FilterSame<T(!new)>(xs: seq<T>, f: T -> bool, g: T -> bool)
    requires forall x :: x in xs ==> f(x) == g(x)
    ensures Filter(xs, f) == Filter(xs, g)
  {
    if xs != [] {
      FilterSame(xs[..|xs| - 1], f, g);
    }
  }

  lemma {:induction false} FilterConcat<T(!new)>(a: seq<T>, b: seq<T>, keep: T -> bool)
    ensures Filter(a + b, keep) == Filter(a, keep) + Filter(b, keep)
  {
    if b == [] {
      assert a + b == a;
    } else {
      FilterConcat(a, b[..|b| - 1], keep);
      assert (a + b)[..|a + b| - 1] == a + b[..|b| - 1];
    }
  }

  lemma {:induction false} FilterAllOrNone<T(!new)>(xs: seq<T>, keep: T -> bool)
    ensures (forall x :: x in xs ==> keep(x)) ==> Filter(xs, keep) == xs
    ensures (forall x :: x in xs ==> !keep(x)) ==> Filter(xs, keep) == []
  {
    if xs != [] {
      FilterAllOrNone(xs[..|xs| - 1], keep);
      assert xs == xs[..|xs| - 1] + [xs[|xs| - 1]];
    }
  }

  /** Filtering twice is filtering once by both conditions. */
  lemma {:induction false} FilterFilter<T(!new)>(xs: seq<T>, f: T -> bool, g: T -> bool, both: T -> bool)
    requires forall x :: x in xs ==> both(x) == (f(x) && g(x))
    ensures Filter(Filter(xs, f), g) == Filter(xs, both)
  {
    if xs != [] {
      var init, last := xs[..|xs| - 1], xs[|xs| - 1];
      FilterFilter(init, f, g, both);
      if f(last) {
        assert (Filter(init, f) + [last])[..|Filter(init, f)|] == Filter(init, f);
      }
    }
  }

  /** A list split at an element it contains. */
  lemma RemoveOne<T>(b: seq<T>, x: T) returns (i: nat)
    requires x in multiset(b)
    ensures i < |b| && b[i] == x && multiset(b[..i] + b[i + 1..]) == multiset(b) - multiset{x}
  {
    i :| 0 <= i < |b| && b[i] == x;
    assert b == b[..i] + [x] + b[i + 1..];
  }

  lemma {:induction false} FlatMapPermutes<A, B>(a: seq<A>, b: seq<A>, f: A -> seq<B>)
    requires multiset(a) == multiset(b)
    ensures multiset(FlatMap(a, f)) == multiset(FlatMap(b, f))
    decreases |a|
  {
    assert |a| == |multiset(a)| == |multiset(b)| == |b|;
    if a != [] {
      MultisetTail(a);
      var i := RemoveOne(b, a[0]);
      var pre, post := b[..i], b[i + 1..];
      assert b == pre + ([a[0]] + post);
      assert multiset(pre + post) == multiset(a[1..]);
      FlatMapPermutes(a[1..], pre + post, f);
      FlatMapConcat(pre, post, f);
      FlatMapConcat(pre, [a[0]] + post, f);
      assert ([a[0]] + post)[1..] == post;
      assert FlatMap([a[0]] + post, f) == f(a[0]) + FlatMap(post, f);
    }
  }

  lemma {:induction false} MapIsFlat<A, B>(xs: seq<A>, f: A -> B, g: A -> seq<B>)
    requires forall x :: x in xs ==> g(x) == [f(x)]
    ensures Map(xs, f) == FlatMap(xs, g)
  {
    if xs != [] {
      MapIsFlat(xs[1..], f, g);
      assert Map(xs, f) == [f(xs[0])] + Map(xs[1..], f);
    }
  }

  lemma MapPermutes<A, B>(a: seq<A>, b: seq<A>, f: A -> B)
    requires multiset(a) == multiset(b)
    ensures multiset(Map(a, f)) == multiset(Map(b, f))
  {
    MapIsFlat(a, f, x => [f(x)]);
    MapIsFlat(b, f, x => [f(x)]);
    FlatMapPermutes(a, b, x => [f(x)]);
  }

  lemma MapIdentity<A>(xs: seq<A>, f: A -> A)
    requires forall x :: f(x) == x
    ensures Map(xs, f) == xs
  {}

  lemma MapTwoWays<A, B>(a: seq<A>, b: seq<A>, all: seq<A>, f: A -> B)
    requires multiset(a) + multiset(b) == multiset(all)
    ensures multiset(Map(a, f)) + multiset(Map(b, f)) == multiset(Map(all, f))
  {
    assert multiset(a + b) == multiset(all);
    MapPermutes(a + b, all, f);
    assert Map(a + b, f) == Map(a, f) + Map(b, f);
  }

  /** Two aligned lists, filtered alike and looked at alike, agree. */
  lemma {:induction false} FilterAligned<A(!new), B(!new), C>(
      xs: seq<A>, ys: seq<B>, p: A -> bool, q: B -> bool, f: A -> C, g: B -> C)
    requires |xs| == |ys|
    requires forall i :: 0 <= i < |xs| ==> p(xs[i]) == q(ys[i]) && f(xs[i]) == g(ys[i])
    ensures Map(Filter(xs, p), f) == Map(Filter(ys, q), g)
    decreases |xs|
  {
    if xs != [] {
      var n := |xs| - 1;
      FilterAligned(xs[..n], ys[..n], p, q, f, g);
      if p(xs[n]) {
        assert Map(Filter(xs[..n], p) + [xs[n]], f) == Map(Filter(xs[..n], p), f) + [f(xs[n])];
        assert Map(Filter(ys[..n], q) + [ys[n]], g) == Map(Filter(ys[..n], q), g) + [g(ys[n])];
      }
    }
  }

  ghost function Pick<T>(s: set<T>): (x: T)
    requires s != {}
    ensures x in s
  {
    var x :| x in s; x
  }

  lemma ConcatPrefix<T>(a: seq<T>, b: seq<T>, n: nat)
    requires n <= |a + b|
    ensures n <= |a| ==> (a + b)[..n] == a[..n]
    ensures n >= |a| ==> (a + b)[..n] == a + b[..n - |a|]
  {}

  lemma FullPrefix<T>(a: seq<T>)
    ensures a[..|a|] == a
  {}

  // ---- Sizes of filtered lists ----

  ghost function Positions<T(!new)>(xs: seq<T>, keep: T -> bool): set<int> {
    set i | 0 <= i < |xs| && keep(xs[i])
  }

  lemma PositionsGrow<T(!new)>(xs: seq<T>, x: T, keep: T -> bool)
    ensures Positions(xs + [x], keep) == Positions(xs, keep) + if keep(x) then {|xs|} else {}
  {}

  lemma {:induction false} FilterPositions<T(!new)>(xs: seq<T>, keep: T -> bool)
    ensures |Filter(xs, keep)| == |Positions(xs, keep)|
  {
    if xs == [] {
      assert Positions(xs, keep) == {};
    } else {
      var init, last := xs[..|xs| - 1], xs[|xs| - 1];
      FilterPositions(init, keep);
      PositionsGrow(init, last, keep);
      assert xs == init + [last];
      assert |init| !in Positions(init, keep);
      hide Positions;
    }
  }

  /** Two kept elements stand in the filtered list in the same order. */
  lemma {:induction false} FilterPlaces<T(!new)>(xs: seq<T>, keep: T -> bool, i: nat, j: nat) returns (p: nat, q: nat)
    requires i < j < |xs| && keep(xs[i]) && keep(xs[j])
    ensures p < q < |Filter(xs, keep)| && Filter(xs, keep)[p] == xs[i] && Filter(xs, keep)[q] == xs[j]
  {
    var init, last := xs[..|xs| - 1], xs[|xs| - 1];
    if j < |init| {
      p, q := FilterPlaces(init, keep, i, j);
    } else {
      assert init[i] in init;
      p :| 0 <= p < |Filter(init, keep)| && Filter(init, keep)[p] == xs[i];
      q := |Filter(init, keep)|;
    }
  }

  /** And come from two places of the list. */
  lemma {:induction false} FilterOrigins<T(!new)>(xs: seq<T>, keep: T -> bool, p: nat, q: nat) returns (i: nat, j: nat)
    requires p < q < |Filter(xs, keep)|
    ensures i < j < |xs| && Filter(xs, keep)[p] == xs[i] && Filter(xs, keep)[q] == xs[j]
  {
    var init, last := xs[..|xs| - 1], xs[|xs| - 1];
    if q < |Filter(init, keep)| {
      i, j := FilterOrigins(init, keep, p, q);
    } else {
      assert Filter(init, keep)[p] in init;
      i :| 0 <= i < |init| && init[i] == Filter(init, keep)[p];
      j := |init|;
    }
  }

  lemma {:induction false} FilterSizes<T(!new)>(xs: seq<T>, f: T -> bool, g: T -> bool, h: T -> bool)
    requires forall x :: x in xs ==> (f(x) <==> g(x) || h(x)) && !(g(x) && h(x))
    ensures |Filter(xs, f)| == |Filter(xs, g)| + |Filter(xs, h)|
  {
    if xs != [] {
      FilterSizes(xs[..|xs| - 1], f, g, h);
      assert xs[|xs| - 1] in xs;
    }
  }

  lemma {:induction false} DistinctSize<T>(xs: seq<T>, names: set<T>)
    requires Distinct(xs) && forall x :: x in xs <==> x in names
    ensures |xs| == |names|
  {
    if xs == [] {
      assert names == {};
    } else {
      var init, last := xs[..|xs| - 1], xs[|xs| - 1];
      assert xs == init + [last];
      DistinctSize(init, names - {last});
    }
  }

  // ---- Strings ----

  /** The dictionary order: up to some position the strings agree, and there the first one ends or has the smaller
      character. */
  ghost predicate Precedes(a: string, b: string) {
    exists i :: 0 <= i <= |a| && i < |b| && PrecedesAt(a, b, i)
  }

  ghost predicate PrecedesAt(a: string, b: string, i: nat)
    requires i <= |a| && i < |b|
  {
    (forall j :: 0 <= j < i ==> a[j] == b[j]) && (i == |a| || a[i] < b[i])
  }

  lemma PrecedesRest(a: string, b: string)
    requires a != "" && b != "" && a[0] == b[0]
    ensures Precedes(a, b) <==> Precedes(a[1..], b[1..])
  {
    if i :| 0 <= i <= |a[1..]| && i < |b[1..]| && PrecedesAt(a[1..], b[1..], i) {
      forall j | 0 <= j < i + 1 ensures a[j] == b[j] {
        assert j > 0 ==> a[1..][j - 1] == b[1..][j - 1];
      }
      assert PrecedesAt(a, b, i + 1);
    }
    if i :| 0 <= i <= |a| && i < |b| && PrecedesAt(a, b, i) {
      assert i > 0 && PrecedesAt(a[1..], b[1..], i - 1);
    }
  }

  lemma {:induction false} StringPrecedes(a: string, b: string)
    ensures StringLe(a, b) && a != b <==> Precedes(a, b)
  {
    if a != "" && b != "" && a[0] == b[0] {
      StringPrecedes(a[1..], b[1..]);
      PrecedesRest(a, b);
      assert a == [a[0]] + a[1..] && b == [b[0]] + b[1..];
    } else if b != "" {
      assert Precedes(a, b) <==> PrecedesAt(a, b, 0);
    }
  }
}
