/** Order-preserving filtering and a stable descending sort, the two list
    operations the analytics and the record list are built from. */
module Seqs {

  /** An integer extended with +infinity, the value of "days since" for a
      worker who never held a role. Infinity is above every finite value. */
  datatype ExtInt = Fin(n: int) | Inf

  predicate AtLeast(a: ExtInt, b: ExtInt) {
    match (a, b)
    case (Inf, _) => true
    case (Fin(_), Inf) => false
    case (Fin(x), Fin(y)) => x >= y
  }

  /** `Array.prototype.filter`: the elements satisfying `p`, in their original order. */
  function Filter<T>(s: seq<T>, p: T -> bool): (r: seq<T>)
    ensures |r| <= |s|
    ensures forall i :: 0 <= i < |r| ==> p(r[i])
    ensures multiset(r) <= multiset(s)
  {
    if s == [] then []
    else
      var rest := Filter(s[1..], p);
      assert s == [s[0]] + s[1..];
      if p(s[0]) then [s[0]] + rest else rest
  }

  /** An element is kept exactly when it occurs and satisfies `p`. */
  lemma {:induction false} FilterIn<T>(s: seq<T>, p: T -> bool, x: T)
    ensures x in Filter(s, p) <==> x in s && p(x)
  {
    if s != [] {
      FilterIn(s[1..], p, x);
      assert x in s <==> x == s[0] || x in s[1..];
    }
  }

  /** Filtering a concatenation filters each part: kept elements keep their relative order. */
  lemma {:induction false} FilterAppend<T>(a: seq<T>, b: seq<T>, p: T -> bool)
    ensures Filter(a + b, p) == Filter(a, p) + Filter(b, p)
  {
    if a == [] {
      assert a + b == b;
    } else {
      var ab := a + b;
      assert ab != [] && ab[0] == a[0] && ab[1..] == a[1..] + b;
      var head := if p(a[0]) then [a[0]] else [];
      assert Filter(ab, p) == head + Filter(a[1..] + b, p);
      assert Filter(a, p) == head + Filter(a[1..], p);
      FilterAppend(a[1..], b, p);
      assert head + (Filter(a[1..], p) + Filter(b, p)) == (head + Filter(a[1..], p)) + Filter(b, p);
    }
  }

  /** Filtering with a predicate every element satisfies changes nothing. */
  lemma {:induction false} FilterAll<T>(s: seq<T>, p: T -> bool)
    requires forall i :: 0 <= i < |s| ==> p(s[i])
    ensures Filter(s, p) == s
  {
    if s != [] {
      FilterAll(s[1..], p);
    }
  }

  /** `s` is in descending order of `key`. */
  ghost predicate SortedDesc<T>(s: seq<T>, key: T -> ExtInt) {
    forall i, j :: 0 <= i < j < |s| ==> AtLeast(key(s[i]), key(s[j]))
  }

  lemma AtLeastTrans(a: ExtInt, b: ExtInt, c: ExtInt)
    requires AtLeast(a, b) && AtLeast(b, c)
    ensures AtLeast(a, c)
  {
  }

  lemma AtLeastTotal(a: ExtInt, b: ExtInt)
    ensures AtLeast(a, b) || AtLeast(b, a)
  {
  }

  /** An element whose key is at least the first key of a sorted list can go in front of it. */
  lemma ConsSorted<T>(y: T, s: seq<T>, key: T -> ExtInt)
    requires SortedDesc(s, key) && (s == [] || AtLeast(key(y), key(s[0])))
    ensures SortedDesc([y] + s, key)
  {
    var r := [y] + s;
    forall i, j | 0 <= i < j < |r| ensures AtLeast(key(r[i]), key(r[j])) {
      if i == 0 {
        if j > 1 {
          AtLeastTrans(key(y), key(s[0]), key(s[j - 1]));
        }
      } else {
        assert r[i] == s[i - 1] && r[j] == s[j - 1];
      }
    }
  }

  /** Inserts `x` before the first element whose key is not above its own. The result
      starts with `x` or with the first element of `s`. */
  function Insert<T>(x: T, s: seq<T>, key: T -> ExtInt): (r: seq<T>)
    requires SortedDesc(s, key)
    ensures SortedDesc(r, key)
    ensures multiset(r) == multiset(s) + multiset{x}
    ensures |r| == |s| + 1 && (r[0] == x || (s != [] && r[0] == s[0]))
  {
    if s == [] || AtLeast(key(x), key(s[0])) then
      ConsSorted(x, s, key);
      [x] + s
    else
      var rest := Insert(x, s[1..], key);
      assert s == [s[0]] + s[1..];
      AtLeastTotal(key(x), key(s[0]));
      ConsSorted(s[0], rest, key);
      assert multiset([s[0]] + rest) == multiset{s[0]} + multiset(rest);
      [s[0]] + rest
  }

  /** `Array.prototype.sort` with a descending comparator: a stable sort, here an insertion
      sort in which an element goes before the equal elements that follow it in the input. */
  function SortDesc<T>(s: seq<T>, key: T -> ExtInt): (r: seq<T>)
    ensures SortedDesc(r, key)
    ensures multiset(r) == multiset(s)
    ensures |r| == |s|
  {
    if s == [] then []
    else
      assert s == [s[0]] + s[1..];
      Insert(s[0], SortDesc(s[1..], key), key)
  }

  /** Sorting keeps exactly the elements it is given. */
  lemma SortDescIn<T>(s: seq<T>, key: T -> ExtInt, x: T)
    ensures x in SortDesc(s, key) <==> x in s
  {
    var r := SortDesc(s, key);
    assert x in r <==> x in multiset(r);
    assert x in s <==> x in multiset(s);
  }
}
