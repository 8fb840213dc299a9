/**
 Orders and sorting, as the gateway uses them: Go's `<` on strings (lexicographic, code point by
 code point), `sort.Slice` / `sort.SliceStable` / `sort.Strings` and the facts that make a sorted
 result independent of the order the elements arrived in.

 - `Less`, and that it is a strict total order;
 - `StrictlySorted`, `Distinct`, and that strictly sorted sequences over the same elements are equal;
 - `Sort`, an insertion sort that stands for any stable sort;
 - `SortedSet`, the elements of a set in order.
 */
module Order {

  /** Go's string `<`. */
  predicate Less(a: string, b: string) {
    if b == "" then false
    else if a == "" then true
    else if a[0] != b[0] then a[0] < b[0]
    else Less(a[1..], b[1..])
  }

  lemma {:induction false} LessIrreflexive(a: string)
    ensures !Less(a, a)
  {
    if a != "" {
      LessIrreflexive(a[1..]);
    }
  }

  lemma {:induction false} LessTransitive(a: string, b: string, c: string)
    requires Less(a, b) && Less(b, c)
    ensures Less(a, c)
  {
    if a != "" && a[0] == b[0] == c[0] {
      LessTransitive(a[1..], b[1..], c[1..]);
    }
  }

  lemma {:induction false} LessTotal(a: string, b: string)
    ensures a == b || Less(a, b) || Less(b, a)
  {
    if a != "" && b != "" && a[0] == b[0] {
      LessTotal(a[1..], b[1..]);
      assert a == [a[0]] + a[1..] && b == [b[0]] + b[1..];
    }
  }

  /** The first difference decides; a proper prefix comes first. */
  lemma {:induction false} LessAtFirstDifference(a: string, b: string, k: nat)
    requires k <= |a| && k <= |b| && a[..k] == b[..k]
    ensures k == |a| < |b| ==> Less(a, b)
    ensures k < |a| && k < |b| && a[k] < b[k] ==> Less(a, b)
  {
    if k > 0 {
      assert a[0] == a[..k][0] == b[..k][0] == b[0];
      assert a[1..][..k - 1] == a[..k][1..] && b[1..][..k - 1] == b[..k][1..];
      LessAtFirstDifference(a[1..], b[1..], k - 1);
    }
  }

  /** A strict total order, the only kind of comparison whose sorted result is unique. */
  ghost predicate StrictTotal<T(!new)>(less: (T, T) -> bool) {
    && (forall x :: !less(x, x))
    && (forall x, y, z :: less(x, y) && less(y, z) ==> less(x, z))
    && (forall x, y :: x == y || less(x, y) || less(y, x))
  }

  lemma LessStrictTotal()
    ensures StrictTotal(Less)
  {
    forall x {
      LessIrreflexive(x);
    }
    forall x, y, z | Less(x, y) && Less(y, z) {
      LessTransitive(x, y, z);
    }
    forall x, y {
      LessTotal(x, y);
    }
  }

  ghost predicate StrictlySorted<T>(s: seq<T>, less: (T, T) -> bool) {
    forall i, j :: 0 <= i < j < |s| ==> less(s[i], s[j])
  }

  ghost predicate SortedBy<T>(s: seq<T>, less: (T, T) -> bool) {
    forall i, j :: 0 <= i < j < |s| ==> !less(s[j], s[i])
  }

  ghost predicate Distinct<T>(s: seq<T>) {
    forall i, j :: 0 <= i < j < |s| ==> s[i] != s[j]
  }

  /** s mentions x before it first mentions y. */
  ghost predicate SeenBefore<T>(s: seq<T>, x: T, y: T) {
    exists p :: 0 <= p < |s| && s[p] == x && y !in s[..p + 1]
  }

  /** r lists elements of s in the order s first mentions them. */
  ghost predicate FirstSeen<T>(r: seq<T>, s: seq<T>) {
    forall i, j :: 0 <= i < j < |r| ==> SeenBefore(s, r[i], r[j])
  }

  lemma SeenBeforeNext<T>(s: seq<T>, last: T, x: T, y: T)
    ensures SeenBefore(s, x, y) ==> SeenBefore(s + [last], x, y)
    ensures x in s && last !in s ==> SeenBefore(s + [last], x, last)
  {
    var s' := s + [last];
    if SeenBefore(s, x, y) {
      var p :| 0 <= p < |s| && s[p] == x && y !in s[..p + 1];
      assert s'[..p + 1] == s[..p + 1] && s'[p] == x;
    }
    if x in s && last !in s {
      var p :| 0 <= p < |s| && s[p] == x;
      assert s'[..p + 1] == s[..p + 1] && s'[p] == x;
      assert forall z | z in s[..p + 1] :: z in s;
    }
  }

  lemma FirstSeenNext<T>(r: seq<T>, s: seq<T>, x: T)
    requires FirstSeen(r, s) && forall y | y in r :: y in s
    ensures FirstSeen(r, s + [x])
    ensures x !in s ==> FirstSeen(r + [x], s + [x])
  {
    hide SeenBefore;
    forall i, j | 0 <= i < j < |r|
      ensures SeenBefore(s + [x], r[i], r[j])
    {
      SeenBeforeNext(s, x, r[i], r[j]);
    }
    forall i | 0 <= i < |r|
      ensures x !in s ==> SeenBefore(s + [x], r[i], x)
    {
      SeenBeforeNext(s, x, r[i], x);
    }
  }

  lemma DistinctConcat<T>(a: seq<T>, b: seq<T>)
    requires Distinct(a) && Distinct(b) && forall x | x in a :: x !in b
    ensures Distinct(a + b)
  {
    forall i, j | 0 <= i < j < |a + b|
      ensures (a + b)[i] != (a + b)[j]
    {
      if i < |a| <= j {
        assert a[i] in a && b[j - |a|] in b;
      }
    }
  }

  lemma HeadIn<T>(s: seq<T>)
    ensures s == [] || s[0] in s
  {
  }

  /** Two strictly sorted sequences over the same elements are the same sequence. */
  lemma {:induction false} SortedUnique<T(!new)>(a: seq<T>, b: seq<T>, less: (T, T) -> bool)
    requires forall x, y :: less(x, y) ==> !less(y, x)
    requires StrictlySorted(a, less) && StrictlySorted(b, less)
    requires forall x :: x in a <==> x in b
    ensures a == b
  {
    HeadIn(a);
    HeadIn(b);
    if a != [] && b != [] {
      assert a[0] in b && b[0] in a;
      var i :| 0 <= i < |a| && a[i] == b[0];
      var j :| 0 <= j < |b| && b[j] == a[0];
      HeadLeast(a, i, less);
      HeadLeast(b, j, less);
      forall x
        ensures x in a[1..] <==> x in b[1..]
      {
        assert x in a <==> x == a[0] || x in a[1..];
        assert x in b <==> x == b[0] || x in b[1..];
        if x == a[0] {
          HeadNotInTail(a, less);
          HeadNotInTail(b, less);
        }
      }
      SortedUnique(a[1..], b[1..], less);
      assert a == [a[0]] + a[1..] && b == [b[0]] + b[1..];
    }
  }

  lemma HeadLeast<T>(a: seq<T>, i: nat, less: (T, T) -> bool)
    requires StrictlySorted(a, less) && i < |a|
    ensures a[i] == a[0] || less(a[0], a[i])
  {
  }

  lemma HeadNotInTail<T(!new)>(a: seq<T>, less: (T, T) -> bool)
    requires forall x, y :: less(x, y) ==> !less(y, x)
    requires StrictlySorted(a, less) && a != []
    ensures a[0] !in a[1..]
  {
    forall i | 0 <= i < |a[1..]|
      ensures a[1..][i] != a[0]
    {
      assert less(a[0], a[i + 1]);
    }
  }

  /** Same elements without repetition on both sides: the same bag. */
  lemma {:induction false} DistinctSameBag<T>(a: seq<T>, b: seq<T>)
    requires Distinct(a) && Distinct(b)
    requires forall x :: x in a <==> x in b
    ensures multiset(a) == multiset(b)
  {
    forall x
      ensures multiset(a)[x] == multiset(b)[x]
    {
      DistinctCount(a, x);
      DistinctCount(b, x);
    }
  }

  lemma {:induction false} DistinctCount<T>(a: seq<T>, x: T)
    requires Distinct(a)
    ensures multiset(a)[x] == if x in a then 1 else 0
  {
    if a != [] {
      var n := |a| - 1;
      assert a == a[..n] + [a[n]];
      DistinctCount(a[..n], x);
      assert a[n] !in a[..n];
    }
  }

  /** The insertion step of `Sort`: x goes before the first element it is less than. */
  function InsertSorted<T>(s: seq<T>, x: T, less: (T, T) -> bool): (r: seq<T>)
    ensures multiset(r) == multiset(s) + multiset{x}
    ensures |r| == |s| + 1
  {
    if s == [] then [x]
    else if less(x, s[0]) then
      assert s == [s[0]] + s[1..];
      [x] + s
    else
      assert s == [s[0]] + s[1..];
      [s[0]] + InsertSorted(s[1..], x, less)
  }

  /** The library sort: a stable sort of s by `less`. */
  function Sort<T>(s: seq<T>, less: (T, T) -> bool): (r: seq<T>)
    ensures multiset(r) == multiset(s)
    ensures |r| == |s|
  {
    if s == [] then []
    else
      var n := |s| - 1;
      assert s == s[..n] + [s[n]];
      InsertSorted(Sort(s[..n], less), s[n], less)
  }

  lemma SameBagSameElements<T>(a: seq<T>, b: seq<T>)
    requires multiset(a) == multiset(b)
    ensures forall x :: x in a <==> x in b
  {
    forall x
      ensures x in a <==> x in b
    {
      assert x in a <==> x in multiset(a);
      assert x in b <==> x in multiset(b);
    }
  }

  lemma SortElements<T>(s: seq<T>, less: (T, T) -> bool)
    ensures forall x :: x in Sort(s, less) <==> x in s
  {
    SameBagSameElements(Sort(s, less), s);
  }

  /** `less` is a strict weak order on the elements of s: what Go's sort asks of its comparison. */
  ghost predicate WeakOn<T>(s: seq<T>, less: (T, T) -> bool) {
    && (forall x | x in s :: !less(x, x))
    && (forall x, y, z | x in s && y in s && z in s :: less(x, y) && less(y, z) ==> less(x, z))
    && (forall x, y, z | x in s && y in s && z in s :: !less(x, y) && !less(y, z) ==> !less(x, z))
  }

  lemma {:induction false} InsertKeepsSorted<T>(s: seq<T>, x: T, less: (T, T) -> bool)
    requires WeakOn(s + [x], less)
    requires SortedBy(s, less)
    ensures SortedBy(InsertSorted(s, x, less), less)
  {
    assert x in s + [x] && forall y | y in s :: y in s + [x];
    if s != [] {
      var r := InsertSorted(s, x, less);
      if less(x, s[0]) {
        forall k | 0 <= k < |s|
          ensures !less(s[k], x)
        {
          assert s[k] in s && s[0] in s;
        }
      } else {
        assert forall y | y in s[1..] + [x] :: y in s + [x];
        InsertKeepsSorted(s[1..], x, less);
        var t := InsertSorted(s[1..], x, less);
        forall j | 0 <= j < |t|
          ensures !less(t[j], s[0])
        {
          assert t[j] in multiset(t);
          assert t[j] in multiset(s[1..]) || t[j] == x;
          if t[j] != x {
            assert t[j] in s[1..];
            var k :| 0 <= k < |s[1..]| && s[1..][k] == t[j];
            assert s[k + 1] == t[j];
          }
        }
      }
    }
  }

  lemma {:induction false} SortSorted<T>(s: seq<T>, less: (T, T) -> bool)
    requires WeakOn(s, less)
    ensures SortedBy(Sort(s, less), less)
  {
    if s != [] {
      var n := |s| - 1;
      var t := Sort(s[..n], less);
      SortSorted(s[..n], less);
      SortElements(s[..n], less);
      forall y | y in t + [s[n]]
        ensures y in s
      {
        assert y in t ==> y in multiset(t) && y in s[..n];
      }
      InsertKeepsSorted(t, s[n], less);
    }
  }

  /** Sorting elements that `less` orders pairwise gives a strictly sorted sequence. */
  lemma {:induction false} SortStrict<T>(s: seq<T>, less: (T, T) -> bool)
    requires WeakOn(s, less)
    requires Distinct(s)
    requires forall x, y | x in s && y in s :: x == y || less(x, y) || less(y, x)
    ensures StrictlySorted(Sort(s, less), less)
    ensures forall x :: x in Sort(s, less) <==> x in s
  {
    var r := Sort(s, less);
    SortSorted(s, less);
    SortElements(s, less);
    forall i, j | 0 <= i < j < |r|
      ensures less(r[i], r[j])
    {
      assert r[i] in multiset(r) && r[j] in multiset(r);
      if r[i] == r[j] {
        DistinctCount(s, r[i]);
        RepeatCount(r, i, j);
      }
    }
  }

  lemma RepeatCount<T>(r: seq<T>, i: nat, j: nat)
    requires i < j < |r| && r[i] == r[j]
    ensures multiset(r)[r[i]] >= 2
  {
    assert r == r[..j] + r[j..];
    assert r[i] in r[..j] && r[j] in r[j..];
  }

  /** `sort.Strings` on distinct strings. */
  lemma {:induction false} SortStringsStrict(s: seq<string>)
    requires Distinct(s)
    ensures StrictlySorted(Sort(s, Less), Less)
    ensures forall x :: x in Sort(s, Less) <==> x in s
  {
    LessStrictTotal();
    SortStrict(s, Less);
  }

  lemma SortedNamesUnique(a: seq<string>, b: seq<string>)
    requires StrictlySorted(a, Less) && StrictlySorted(b, Less)
    requires forall x :: x in a <==> x in b
    ensures a == b
  {
    hide Less, StrictlySorted;
    LessStrictTotal();
    SortedUnique(a, b, Less);
  }

  lemma {:induction false} SortedSetExists(s: set<string>) returns (r: seq<string>)
    ensures StrictlySorted(r, Less) && forall x :: x in r <==> x in s
  {
    hide Sort, Less;
    var d := Enumerate(s);
    SortStringsStrict(d);
    r := Sort(d, Less);
  }

  lemma {:induction false} Enumerate(s: set<string>) returns (d: seq<string>)
    ensures Distinct(d) && forall x :: x in d <==> x in s
  {
    if s == {} {
      d := [];
    } else {
      var x :| x in s;
      d := Enumerate(s - {x});
      d := d + [x];
    }
  }

  /** The elements of a set of names in the order `sort.Strings` puts them. */
  ghost function SortedSet(s: set<string>): (r: seq<string>)
    ensures StrictlySorted(r, Less)
    ensures forall x :: x in r <==> x in s
  {
    assert exists r :: StrictlySorted(r, Less) && forall x :: x in r <==> x in s by {
      var r := SortedSetExists(s);
    }
    var r :| StrictlySorted(r, Less) && forall x :: x in r <==> x in s;
    r
  }
}
