/** Sequence, dictionary and sum helpers shared by the table builders and the
    formulation builder.  Python lists and pandas columns are sequences here;
    a Python dict built from a list of pairs is `ToMap`; a Pyomo `Set`
    initialised from a list with repeats, and pandas' `drop_duplicates(keep='first')`,
    are `DedupBy`. */
module Seqs {

  datatype Option<T> = None | Some(value: T)

  function Id<T>(x: T): T { x }

  /** Some element of `s` has key `k`. */
  predicate HasKey<T, K(==)>(s: seq<T>, key: T -> K, k: K)
  {
    exists i :: 0 <= i < |s| && key(s[i]) == k
  }

  /** The position of the first element of `s` whose key is `k`. */
  function FirstIndex<T, K(==)>(s: seq<T>, key: T -> K, k: K): (i: nat)
    requires HasKey(s, key, k)
    ensures i < |s| && key(s[i]) == k
    ensures forall j :: 0 <= j < i ==> key(s[j]) != k
    decreases |s|
  {
    if key(s[0]) == k then 0
    else
      assert HasKey(s[1..], key, k) by {
        var j :| 0 <= j < |s| && key(s[j]) == k;
        assert key(s[1..][j - 1]) == k;
      }
      1 + FirstIndex(s[1..], key, k)
  }

  /** Keeps the first element of every key, in their original order
      (pandas `drop_duplicates(keep='first')`, Pyomo's `Set` initialisation). */
  function DedupBy<T, K(==)>(s: seq<T>, key: T -> K): seq<T>
  {
    if s == [] then []
    else
      var r := DedupBy(s[..|s| - 1], key);
      if HasKey(r, key, key(s[|s| - 1])) then r else r + [s[|s| - 1]]
  }

  /** The elements `DedupBy` drops: every element whose key occurred earlier. */
  function DuplicatesBy<T, K(==)>(s: seq<T>, key: T -> K): seq<T>
  {
    if s == [] then []
    else
      var d := DuplicatesBy(s[..|s| - 1], key);
      if HasKey(DedupBy(s[..|s| - 1], key), key, key(s[|s| - 1])) then d + [s[|s| - 1]] else d
  }

  /** De-duplication of plain values. */
  function Dedup<T(==)>(s: seq<T>): seq<T>
  {
    DedupBy(s, Id)
  }

  lemma {:induction false} DedupByKeys<T, K>(s: seq<T>, key: T -> K, k: K)
    ensures HasKey(DedupBy(s, key), key, k) <==> HasKey(s, key, k)
    decreases |s|
  {
    if s != [] {
      var p := s[..|s| - 1];
      DedupByKeys(p, key, k);
      var r := DedupBy(p, key);
      if HasKey(DedupBy(s, key), key, k) {
        var i :| 0 <= i < |DedupBy(s, key)| && key(DedupBy(s, key)[i]) == k;
        if i < |r| {
          assert DedupBy(s, key)[i] == r[i];
          var j :| 0 <= j < |p| && key(p[j]) == k;
          assert s[j] == p[j];
        } else {
          assert key(s[|s| - 1]) == k;
        }
      }
      if HasKey(s, key, k) {
        var j :| 0 <= j < |s| && key(s[j]) == k;
        if j < |s| - 1 {
          assert p[j] == s[j];
          var i :| 0 <= i < |r| && key(r[i]) == k;
          assert DedupBy(s, key)[i] == r[i];
        } else if !HasKey(r, key, k) {
          assert DedupBy(s, key)[|r|] == s[|s| - 1];
        }
      }
    }
  }

  lemma {:induction false} DedupByElements<T, K>(s: seq<T>, key: T -> K)
    ensures forall x :: x in DedupBy(s, key) ==> x in s
    decreases |s|
  {
    if s != [] {
      var p := s[..|s| - 1];
      DedupByElements(p, key);
      assert forall x :: x in p ==> x in s;
    }
  }

  /** `d` lists the first occurrence of every key it holds, distinct keys, in
      the order of those first occurrences in `s`. */
  ghost predicate KeepsFirstOccurrences<T, K>(s: seq<T>, key: T -> K, d: seq<T>)
  {
    (forall i, j :: 0 <= i < j < |d| ==> key(d[i]) != key(d[j])) &&
    (forall j :: 0 <= j < |d| ==> HasKey(s, key, key(d[j]))) &&
    (forall j :: 0 <= j < |d| ==> d[j] == s[FirstIndex(s, key, key(d[j]))]) &&
    (forall i, j :: 0 <= i < j < |d| ==>
       FirstIndex(s, key, key(d[i])) < FirstIndex(s, key, key(d[j])))
  }

  /** `DedupBy` keeps exactly the first occurrence of every key, distinct keys,
      in the order of those first occurrences. */
  lemma {:induction false} DedupByFirstOccurrences<T, K>(s: seq<T>, key: T -> K)
    ensures forall i, j :: 0 <= i < j < |DedupBy(s, key)| ==>
              key(DedupBy(s, key)[i]) != key(DedupBy(s, key)[j])
    ensures forall j :: 0 <= j < |DedupBy(s, key)| ==> HasKey(s, key, key(DedupBy(s, key)[j]))
    ensures forall j :: 0 <= j < |DedupBy(s, key)| ==>
              DedupBy(s, key)[j] == s[FirstIndex(s, key, key(DedupBy(s, key)[j]))]
    ensures forall i, j :: 0 <= i < j < |DedupBy(s, key)| ==>
              FirstIndex(s, key, key(DedupBy(s, key)[i])) < FirstIndex(s, key, key(DedupBy(s, key)[j]))
    decreases |s|
  {
    DedupByKeepsFirst(s, key);
  }

  lemma {:induction false} DedupByKeepsFirst<T, K>(s: seq<T>, key: T -> K)
    ensures KeepsFirstOccurrences(s, key, DedupBy(s, key))
    decreases |s|
  {
    if s != [] {
      DedupByKeepsFirst(s[..|s| - 1], key);
      KeepsFirstSnoc(s, key);
    }
  }

  /** One step of `DedupBy`: the first occurrences of a prefix stay first
      occurrences, and a new key is first seen at the end. */
  lemma KeepsFirstSnoc<T, K>(s: seq<T>, key: T -> K)
    requires s != []
    requires KeepsFirstOccurrences(s[..|s| - 1], key, DedupBy(s[..|s| - 1], key))
    ensures KeepsFirstOccurrences(s, key, DedupBy(s, key))
  {
    var p := s[..|s| - 1];
    var r := DedupBy(p, key);
    var last := s[|s| - 1];
    KeepsFirstExtend(s, p, key, r);
    if !HasKey(r, key, key(last)) {
      assert DedupBy(s, key) == r + [last];
      DedupByKeys(p, key, key(last));
      FirstIndexLast(s, key);
      KeepsFirstAppend(s, key, r);
    }
  }

  /** First occurrences in a prefix are first occurrences in the whole sequence. */
  lemma KeepsFirstExtend<T, K>(s: seq<T>, p: seq<T>, key: T -> K, r: seq<T>)
    requires p <= s && KeepsFirstOccurrences(p, key, r)
    ensures KeepsFirstOccurrences(s, key, r)
    ensures forall j :: 0 <= j < |r| ==> FirstIndex(s, key, key(r[j])) < |p|
  {
    forall j | 0 <= j < |r|
      ensures HasKey(s, key, key(r[j]))
      ensures FirstIndex(s, key, key(r[j])) == FirstIndex(p, key, key(r[j]))
    {
      FirstIndexPrefix(s, p, key, key(r[j]));
    }
    forall j | 0 <= j < |r|
      ensures r[j] == s[FirstIndex(s, key, key(r[j]))]
    {
      assert r[j] == p[FirstIndex(p, key, key(r[j]))];
    }
  }

  /** Appending the last element, whose key is new, keeps first occurrences. */
  lemma KeepsFirstAppend<T, K>(s: seq<T>, key: T -> K, r: seq<T>)
    requires s != [] && KeepsFirstOccurrences(s, key, r)
    requires !HasKey(r, key, key(s[|s| - 1]))
    requires forall j :: 0 <= j < |r| ==> FirstIndex(s, key, key(r[j])) < |s| - 1
    requires HasKey(s, key, key(s[|s| - 1])) && FirstIndex(s, key, key(s[|s| - 1])) == |s| - 1
    ensures KeepsFirstOccurrences(s, key, r + [s[|s| - 1]])
  {
    var d := r + [s[|s| - 1]];
    forall j | 0 <= j < |d|
      ensures HasKey(s, key, key(d[j]))
      ensures d[j] == s[FirstIndex(s, key, key(d[j]))]
    {
      if j < |r| { assert d[j] == r[j]; } else { assert d[j] == s[|s| - 1]; }
    }
    forall i, j | 0 <= i < j < |d|
      ensures key(d[i]) != key(d[j])
      ensures FirstIndex(s, key, key(d[i])) < FirstIndex(s, key, key(d[j]))
    {
      assert d[i] == r[i];
      if j < |r| { assert d[j] == r[j]; } else { assert d[j] == s[|s| - 1]; }
    }
  }

  /** A key found in a prefix has the same first index in the whole sequence. */
  lemma FirstIndexPrefix<T, K>(s: seq<T>, p: seq<T>, key: T -> K, k: K)
    requires p <= s && HasKey(p, key, k)
    ensures HasKey(s, key, k)
    ensures FirstIndex(s, key, k) == FirstIndex(p, key, k)
  {
    var f := FirstIndex(p, key, k);
    assert s[f] == p[f];
  }

  /** A key absent from every earlier element first occurs at the end. */
  lemma FirstIndexLast<T, K>(s: seq<T>, key: T -> K)
    requires s != [] && !HasKey(s[..|s| - 1], key, key(s[|s| - 1]))
    ensures HasKey(s, key, key(s[|s| - 1]))
    ensures FirstIndex(s, key, key(s[|s| - 1])) == |s| - 1
  {
    assert key(s[|s| - 1]) == key(s[|s| - 1]);
    forall j | 0 <= j < |s| - 1
      ensures key(s[j]) != key(s[|s| - 1])
    {
      assert s[..|s| - 1][j] == s[j];
    }
  }

  lemma DedupMembers<T>(s: seq<T>, x: T)
    ensures x in Dedup(s) <==> x in s
  {
    DedupByKeys(s, Id, x);
    if x in s {
      var i :| 0 <= i < |s| && s[i] == x;
      assert Id(s[i]) == x;
    }
    if x in Dedup(s) {
      var i :| 0 <= i < |Dedup(s)| && Dedup(s)[i] == x;
      assert Id(Dedup(s)[i]) == x;
    }
  }

  lemma DedupDistinct<T>(s: seq<T>)
    ensures forall i, j :: 0 <= i < j < |Dedup(s)| ==> Dedup(s)[i] != Dedup(s)[j]
  {
    DedupByFirstOccurrences(s, Id);
    forall i, j | 0 <= i < j < |Dedup(s)|
      ensures Dedup(s)[i] != Dedup(s)[j]
    {
      assert Id(Dedup(s)[i]) != Id(Dedup(s)[j]);
    }
  }

  /** Every element goes either to `DedupBy` or to `DuplicatesBy`, so their
      sums add up to the sum over `s`. */
  lemma {:induction false} DedupBySplitSum<T, K>(s: seq<T>, key: T -> K, f: T -> real)
    ensures SumBy(DedupBy(s, key), f) + SumBy(DuplicatesBy(s, key), f) == SumBy(s, f)
    decreases |s|
  {
    if s != [] {
      var p := s[..|s| - 1];
      DedupBySplitSum(p, key, f);
      var r := DedupBy(p, key);
      var d := DuplicatesBy(p, key);
      if HasKey(r, key, key(s[|s| - 1])) {
        SumByAppend(d, [s[|s| - 1]], f);
        SumBySingle(s[|s| - 1], f);
      } else {
        SumByAppend(r, [s[|s| - 1]], f);
        SumBySingle(s[|s| - 1], f);
      }
    }
  }

  /** Sum of `f` over the elements of `s`. */
  function SumBy<T>(s: seq<T>, f: T -> real): real
  {
    if s == [] then 0.0 else SumBy(s[..|s| - 1], f) + f(s[|s| - 1])
  }

  lemma {:induction false} SumByAppend<T>(s: seq<T>, t: seq<T>, f: T -> real)
    ensures SumBy(s + t, f) == SumBy(s, f) + SumBy(t, f)
    decreases |t|
  {
    if t != [] {
      assert (s + t)[..|s + t| - 1] == s + t[..|t| - 1];
      assert (s + t)[|s + t| - 1] == t[|t| - 1];
      SumByAppend(s, t[..|t| - 1], f);
    } else {
      assert s + t == s;
    }
  }

  lemma SumBySingle<T>(x: T, f: T -> real)
    ensures SumBy([x], f) == f(x)
  {
    assert [x][..0] == [];
  }

  lemma {:induction false} SumByNonNegative<T>(s: seq<T>, f: T -> real)
    requires forall x :: x in s ==> f(x) >= 0.0
    ensures SumBy(s, f) >= 0.0
    decreases |s|
  {
    if s != [] {
      assert s[|s| - 1] in s;
      assert forall x :: x in s[..|s| - 1] ==> x in s;
      SumByNonNegative(s[..|s| - 1], f);
    }
  }

  /** The dictionary `dict(items)`: every key of `items`, each with the value
      of its LAST occurrence. */
  function ToMap<K(!new), V>(items: seq<(K, V)>): (m: map<K, V>)
    ensures forall k :: k in m <==> exists i :: 0 <= i < |items| && items[i].0 == k
  {
    if items == [] then map[]
    else
      var m := ToMap(items[..|items| - 1])[items[|items| - 1].0 := items[|items| - 1].1];
      assert forall i :: 0 <= i < |items| - 1 ==> items[..|items| - 1][i] == items[i];
      m
  }

  /** The keys of a list of pairs, in order. */
  function Keys<K, V>(items: seq<(K, V)>): (r: seq<K>)
    ensures |r| == |items| && forall i :: 0 <= i < |items| ==> r[i] == items[i].0
  {
    seq(|items|, i requires 0 <= i < |items| => items[i].0)
  }

  /** `dict(items).items()`: every key once, in the order of its first
      occurrence, with the value of its last occurrence. */
  function DictItems<K(==,!new), V>(items: seq<(K, V)>): seq<(K, V)>
  {
    var ks := Dedup(Keys(items));
    var m := ToMap(items);
    assert forall k :: k in ks ==> k in m by {
      forall k | k in ks
        ensures k in m
      {
        DedupMembers(Keys(items), k);
        var i :| 0 <= i < |items| && Keys(items)[i] == k;
      }
    }
    seq(|ks|, i requires 0 <= i < |ks| => (ks[i], m[ks[i]]))
  }

  /** Every item of `dict(items).items()` is an item of `items`. */
  lemma DictItemsMembers<K(!new), V>(items: seq<(K, V)>, e: (K, V))
    requires e in DictItems(items)
    ensures e in items
  {
    var i :| 0 <= i < |DictItems(items)| && DictItems(items)[i] == e;
    DedupMembers(Keys(items), e.0);
    var j :| 0 <= j < |items| && Keys(items)[j] == e.0;
    ToMapValue(items, e.0);
  }

  /** `dict(dict(items).items()) == dict(items)`: each key occurs once in
      the listing, with the dictionary's value. */
  lemma DictItemsToMap<K(!new), V>(items: seq<(K, V)>)
    ensures ToMap(DictItems(items)) == ToMap(items)
  {
    var ks := Dedup(Keys(items));
    var r := DictItems(items);
    DedupDistinct(Keys(items));
    forall k | k in ToMap(items)
      ensures k in ToMap(r) && ToMap(r)[k] == ToMap(items)[k]
    {
      var i :| 0 <= i < |items| && items[i].0 == k;
      assert Keys(items)[i] == k;
      DedupMembers(Keys(items), k);
      var j :| 0 <= j < |ks| && ks[j] == k;
      assert r[j].0 == k;
      ToMapLastWins(r, j);
    }
    forall k | k in ToMap(r)
      ensures k in ToMap(items)
    {
      var j :| 0 <= j < |r| && r[j].0 == k;
      DictItemsMembers(items, r[j]);
      var i :| 0 <= i < |items| && items[i] == r[j];
    }
  }

  /** An item that no later item overrides determines the dictionary's value. */
  lemma {:induction false} ToMapLastWins<K(!new), V>(items: seq<(K, V)>, i: nat)
    requires i < |items|
    requires forall j :: i < j < |items| ==> items[j].0 != items[i].0
    ensures items[i].0 in ToMap(items) && ToMap(items)[items[i].0] == items[i].1
    decreases |items|
  {
    if i < |items| - 1 {
      var p := items[..|items| - 1];
      assert p[i] == items[i];
      ToMapLastWins(p, i);
    }
  }

  /** Every value of `dict(items)` is the value of an item with that key. */
  lemma {:induction false} ToMapValue<K(!new), V>(items: seq<(K, V)>, k: K)
    requires k in ToMap(items)
    ensures exists i :: 0 <= i < |items| && items[i] == (k, ToMap(items)[k])
    decreases |items|
  {
    if items[|items| - 1].0 != k {
      var p := items[..|items| - 1];
      ToMapValue(p, k);
      var i :| 0 <= i < |p| && p[i] == (k, ToMap(p)[k]);
      assert items[i] == p[i];
    }
  }

  /** The concatenation of `f(x)` over the elements `x` of `xs`: a loop that
      emits a block of items per element. */
  function FlatMap<T, U>(xs: seq<T>, f: T --> seq<U>): seq<U>
    requires forall x :: x in xs ==> f.requires(x)
  {
    if xs == [] then []
    else
      assert forall x :: x in xs[..|xs| - 1] ==> x in xs;
      FlatMap(xs[..|xs| - 1], f) + f(xs[|xs| - 1])
  }

  /** A prefix one longer is the prefix with the next element appended. */
  lemma TakeSnoc<T>(s: seq<T>, n: nat)
    requires n < |s|
    ensures s[..n + 1] == s[..n] + [s[n]]
  {
  }

  /** The empty sequence is a left unit of concatenation. */
  lemma EmptyAppend<T>(s: seq<T>)
    ensures [] + s == s
  {
  }

  /** Concatenation is associative. */
  lemma AppendAssoc<T>(a: seq<T>, b: seq<T>, c: seq<T>)
    ensures a + b + c == a + (b + c)
  {
  }

  /** Appending an element appends its block. */
  lemma FlatMapSnoc<T, U>(xs: seq<T>, x: T, f: T --> seq<U>)
    requires forall y :: y in xs + [x] ==> f.requires(y)
    ensures FlatMap(xs + [x], f) == FlatMap(xs, f) + f(x)
  {
    assert (xs + [x])[..|xs|] == xs;
  }

  lemma {:induction false} FlatMapLength<T, U>(xs: seq<T>, f: T --> seq<U>, n: nat)
    requires forall x :: x in xs ==> f.requires(x)
    requires forall x :: x in xs ==> |f(x)| == n
    ensures |FlatMap(xs, f)| == n * |xs|
    decreases |xs|
  {
    if xs != [] {
      var p := xs[..|xs| - 1];
      assert forall x :: x in p ==> x in xs;
      FlatMapLength(p, f, n);
      assert |FlatMap(xs, f)| == |FlatMap(p, f)| + |f(xs[|xs| - 1])|;
      MulSucc(n, |p|);
    }
  }

  lemma MulSucc(n: nat, m: nat)
    ensures n * m + n == n * (m + 1)
  {
  }

  /** When every block has `n` items, item `n*i + r` is item `r` of block `i`. */
  lemma {:induction false} FlatMapAt<T, U>(xs: seq<T>, f: T --> seq<U>, n: nat, i: nat, r: nat)
    requires forall x :: x in xs ==> f.requires(x)
    requires forall x :: x in xs ==> |f(x)| == n
    requires i < |xs| && r < n
    ensures n * i + r < |FlatMap(xs, f)|
    ensures FlatMap(xs, f)[n * i + r] == f(xs[i])[r]
    decreases |xs|
  {
    var p := xs[..|xs| - 1];
    assert forall x :: x in p ==> x in xs;
    FlatMapLength(p, f, n);
    FlatMapLength(xs, f, n);
    MulStep(n, i, r, |xs|);
    var a, b := FlatMap(p, f), f(xs[|xs| - 1]);
    assert FlatMap(xs, f) == a + b;
    if i < |p| {
      FlatMapAt(p, f, n, i, r);
      assert xs[i] == p[i];
    } else {
      assert n * i + r == |a| + r;
    }
  }

  lemma MulStep(n: nat, i: nat, r: nat, m: nat)
    requires i < m && r < n
    ensures n * i + r < n * m
  {
    assert n * i + n == n * (i + 1) <= n * m;
  }

  /** Every item comes from the block of some element, and every block's items occur. */
  lemma {:induction false} FlatMapMembers<T, U>(xs: seq<T>, f: T --> seq<U>, y: U)
    requires forall x :: x in xs ==> f.requires(x)
    ensures y in FlatMap(xs, f) <==> exists x :: x in xs && y in f(x)
    decreases |xs|
  {
    if xs != [] {
      var p := xs[..|xs| - 1];
      assert forall x :: x in p ==> x in xs;
      FlatMapMembers(p, f, y);
      if exists x :: x in xs && y in f(x) {
        var x :| x in xs && y in f(x);
        if x != xs[|xs| - 1] {
          var i :| 0 <= i < |xs| && xs[i] == x;
          assert p[i] == x;
        }
      }
    }
  }
}
