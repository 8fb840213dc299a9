/**
 The gateway's list helpers (memory.go) and the in-place `list[:0]` compaction that `removeItems`,
 the account registry and the recent-project list all use.

 - `Each` and `Elements`;
 - `Filter`, and the compaction that computes it in place;
 - `Removed` and `Appended`, what `removeItems` and `appendUnique` return.
 */
module Slices {
  import opened Order

  /** f of each element, in order. */
  function Each<S, T>(xs: seq<S>, f: S -> T): (r: seq<T>)
    ensures |r| == |xs| && forall i :: 0 <= i < |r| ==> r[i] == f(xs[i])
  {
    seq(|xs|, i requires 0 <= i < |xs| => f(xs[i]))
  }

  function Elements(s: seq<string>): (r: set<string>)
    ensures forall x :: x in r <==> x in s
  {
    set x | x in s
  }

  function Filter<T(!new)>(s: seq<T>, keep: T -> bool): seq<T> {
    if s == [] then []
    else
      var n := |s| - 1;
      if keep(s[n]) then Filter(s[..n], keep) + [s[n]] else Filter(s[..n], keep)
  }

  lemma {:induction false} FilterMeans<T(!new)>(s: seq<T>, keep: T -> bool)
    ensures forall x :: x in Filter(s, keep) <==> x in s && keep(x)
    ensures |Filter(s, keep)| <= |s|
  {
    if s != [] {
      var n := |s| - 1;
      FilterMeans(s[..n], keep);
      assert s == s[..n] + [s[n]];
    }
  }

  lemma {:induction false} FilterAll<T(!new)>(s: seq<T>, keep: T -> bool)
    ensures (forall x | x in s :: keep(x)) ==> Filter(s, keep) == s
  {
    if s != [] {
      var n := |s| - 1;
      FilterAll(s[..n], keep);
      assert s == s[..n] + [s[n]];
    }
  }

  lemma {:induction false} FilterConcat<T(!new)>(a: seq<T>, b: seq<T>, keep: T -> bool)
    ensures Filter(a + b, keep) == Filter(a, keep) + Filter(b, keep)
  {
    if b == [] {
      assert a + b == a;
    } else {
      var n := |b| - 1;
      assert (a + b)[..|a + b| - 1] == a + b[..n];
      FilterConcat(a, b[..n], keep);
    }
  }

  /** A sublist of a list without repetition has none either, and keeps its order. */
  lemma {:induction false} FilterDistinct<T(!new)>(s: seq<T>, keep: T -> bool)
    requires Distinct(s)
    ensures Distinct(Filter(s, keep))
  {
    if s != [] {
      var n := |s| - 1;
      FilterDistinct(s[..n], keep);
      FilterMeans(s[..n], keep);
      assert s[n] !in s[..n];
    }
  }

  /** Filtering keeps the order of what it keeps. */
  lemma {:induction false} FilterOrder<T(!new)>(s: seq<T>, keep: T -> bool, i: nat, j: nat) returns (a: nat, b: nat)
    requires i < j < |Filter(s, keep)|
    ensures a < b < |s| && s[a] == Filter(s, keep)[i] && s[b] == Filter(s, keep)[j]
  {
    var n := |s| - 1;
    if keep(s[n]) && j == |Filter(s, keep)| - 1 {
      FilterMeans(s[..n], keep);
      assert Filter(s, keep)[i] in Filter(s[..n], keep);
      a :| 0 <= a < n && s[..n][a] == Filter(s, keep)[i];
      b := n;
    } else {
      a, b := FilterOrder(s[..n], keep, i, j);
    }
  }

  /** `out := list[:0]`, then append what is kept: the kept elements move to the front of the same
      backing array, in order. The write index never passes the read index. */
  method CompactInPlace<T(!new)>(list: array<T>, keep: T -> bool) returns (n: nat)
    modifies list
    ensures n <= list.Length
    ensures list[..n] == Filter(old(list[..]), keep)
  {
    hide Filter;
    n := 0;
    FilterEmpty(old(list[..])[..0], keep);
    for i := 0 to list.Length
      invariant n <= i
      invariant list[i..] == old(list[..])[i..]
      invariant list[..n] == Filter(old(list[..])[..i], keep)
    {
      FilterNext(old(list[..]), i, keep);
      assert list[i] == list[i..][0] == old(list[..])[i];
      if keep(list[i]) {
        list[n] := list[i];
        n := n + 1;
      }
      assert list[i + 1..] == old(list[..])[i + 1..];
    }
    assert old(list[..])[..list.Length] == old(list[..]);
  }

  lemma FilterEmpty<T(!new)>(s: seq<T>, keep: T -> bool)
    ensures s == [] ==> Filter(s, keep) == []
  {
  }

  lemma FilterNext<T(!new)>(s: seq<T>, i: nat, keep: T -> bool)
    requires i < |s|
    ensures Filter(s[..i + 1], keep) == Filter(s[..i], keep) + if keep(s[i]) then [s[i]] else []
  {
    assert s[..i + 1][..i] == s[..i];
  }

  /** removeItems: list without any occurrence of items, in order. */
  method RemoveItems(list: seq<string>, items: seq<string>) returns (out: seq<string>)
    ensures out == Removed(list, items)
  {
    var backing := new string[|list|](i requires 0 <= i < |list| => list[i]);
    assert backing[..] == list;
    var n := CompactInPlace(backing, x => x !in items);
    out := backing[..n];
  }

  function Removed(list: seq<string>, items: seq<string>): (r: seq<string>)
    ensures forall x :: x in r <==> x in list && x !in items
    ensures (forall x | x in items :: x !in list) ==> r == list
  {
    FilterMeans(list, x => x !in items);
    FilterAll(list, x => x !in items);
    Filter(list, x => x !in items)
  }

  /** appendUnique: items appended one by one, skipping any already present. */
  method AppendUnique(list: seq<string>, items: seq<string>) returns (out: seq<string>)
    ensures out == Appended(list, items)
  {
    out := list;
    for i := 0 to |items|
      invariant out == Appended(list, items[..i])
    {
      assert items[..i + 1][..i] == items[..i];
      if items[i] !in out {
        out := out + [items[i]];
      }
    }
    assert items[..|items|] == items;
  }

  function Appended(list: seq<string>, items: seq<string>): (r: seq<string>)
    ensures list <= r
    ensures forall x :: x in r <==> x in list || x in items
    ensures (forall x | x in items :: x in list) ==> r == list
  {
    if items == [] then list
    else
      var n := |items| - 1;
      assert items == items[..n] + [items[n]];
      var r := Appended(list, items[..n]);
      if items[n] in r then r else r + [items[n]]
  }

  /** New names go to the end, in the order they are given. */
  lemma {:induction false} AppendedInOrder(list: seq<string>, items: seq<string>)
    requires Distinct(items) && forall x | x in items :: x !in list
    ensures Appended(list, items) == list + items
  {
    if items == [] {
      assert list + items == list;
    } else {
      var n := |items| - 1;
      assert items == items[..n] + [items[n]] && items[n] in items;
      assert forall x | x in items[..n] :: x in items;
      AppendedInOrder(list, items[..n]);
    }
  }
}
