/** Counting and summing over finite sets and sequences. */
module Finite {

  /** Any element of a set. */
  method Pick<T>(s: set<T>) returns (x: T)
    requires s != {}
    ensures x in s
  {
    x :| x in s;
  }

  /** The elements of a set in some order. */
  method Enumerate<T>(s: set<T>) returns (list: seq<T>)
    ensures Distinct(list) && Elements(list) == s
  {
    list := [];
    var todo := s;
    while todo != {}
      invariant Distinct(list) && s == todo + Elements(list) && forall i :: 0 <= i < |list| ==> list[i] !in todo
    {
      var x :| x in todo;
      list := list + [x];
      todo := todo - {x};
    }
  }

  // ---- sizes

  lemma {:induction false} SubsetSize<T>(a: set<T>, b: set<T>)
    requires a <= b
    ensures |a| <= |b|
    ensures |a| == |b| ==> a == b
  {
    if a != {} {
      var x :| x in a;
      SubsetSize(a - {x}, b - {x});
      assert a == (a - {x}) + {x} && b == (b - {x}) + {x};
    }
  }

  lemma SplitSize<T>(s: set<T>, part: set<T>)
    requires part <= s
    ensures |s| == |s - part| + |part|
  {
    assert s == (s - part) + part;
  }

  ghost function Range(lo: int, hi: int): (r: set<int>)
    ensures forall i :: i in r <==> lo <= i < hi
    decreases hi - lo
  {
    if lo >= hi then {} else Range(lo, hi - 1) + {hi - 1}
  }

  lemma {:induction false} RangeSize(lo: int, hi: int)
    requires lo <= hi
    ensures |Range(lo, hi)| == hi - lo
    decreases hi - lo
  {
    if lo < hi {
      RangeSize(lo, hi - 1);
    }
  }

  ghost predicate Distinct<T>(s: seq<T>) {
    forall i, j :: 0 <= i < j < |s| ==> s[i] != s[j]
  }

  ghost function Elements<T>(s: seq<T>): set<T> {
    set x | x in s
  }

  lemma Unsnoc<T>(s: seq<T>)
    requires s != [] && Distinct(s)
    ensures s == s[..|s| - 1] + [s[|s| - 1]] && Distinct(s[..|s| - 1]) && s[|s| - 1] !in s[..|s| - 1]
  {
  }

  lemma InsertSize<T>(s: set<T>, x: T)
    requires x !in s
    ensures |s + {x}| == |s| + 1
  {
  }

  lemma DistinctConcat<T>(a: seq<T>, b: seq<T>)
    requires Distinct(a) && Distinct(b) && forall x :: x in a ==> x !in b
    ensures Distinct(a + b)
  {
    var c := a + b;
    forall i, j | 0 <= i < j < |c|
      ensures c[i] != c[j]
    {
      if i < |a| <= j {
        assert c[i] == a[i] && c[j] == b[j - |a|] && a[i] in a;
      }
    }
  }

  lemma {:induction false} DistinctSize<T>(s: seq<T>)
    requires Distinct(s)
    ensures |Elements(s)| == |s|
  {
    if s != [] {
      var n := |s| - 1;
      DistinctSize(s[..n]);
      assert s == s[..n] + [s[n]];
      assert Elements(s) == Elements(s[..n]) + {s[n]};
    }
  }

  /** Pigeonhole: a sequence of hi - lo distinct numbers from [lo, hi) contains every one of them. */
  lemma Pigeonhole(s: seq<int>, lo: int, hi: int)
    requires lo <= hi && |s| == hi - lo && Distinct(s)
    requires forall x :: x in s ==> lo <= x < hi
    ensures forall x :: lo <= x < hi ==> x in s
  {
    DistinctSize(s);
    RangeSize(lo, hi);
    assert Elements(s) <= Range(lo, hi);
    SubsetSize(Elements(s), Range(lo, hi));
    forall x | lo <= x < hi
      ensures x in s
    {
      assert x in Range(lo, hi);
    }
  }

  // ---- sums

  /** The sum of `f` over a finite set. */
  ghost function Sum<K(!new)>(keys: set<K>, f: K -> int): int {
    if keys == {} then 0 else
      var k :| k in keys;
      f(k) + Sum(keys - {k}, f)
  }

  /** The element taken out first does not matter. */
  lemma {:induction false} SumPick<K(!new)>(keys: set<K>, f: K -> int, k: K)
    requires k in keys
    ensures Sum(keys, f) == f(k) + Sum(keys - {k}, f)
  {
    var j :| j in keys && Sum(keys, f) == f(j) + Sum(keys - {j}, f);
    if j != k {
      SumPick(keys - {j}, f, k);
      SumPick(keys - {k}, f, j);
      assert keys - {j} - {k} == keys - {k} - {j};
    }
  }

  lemma SumInsert<K(!new)>(keys: set<K>, f: K -> int, k: K)
    requires k !in keys
    ensures Sum(keys + {k}, f) == f(k) + Sum(keys, f)
  {
    SumPick(keys + {k}, f, k);
    assert keys + {k} - {k} == keys;
  }

  lemma {:induction false} SumSame<K(!new)>(keys: set<K>, f: K -> int, g: K -> int)
    requires forall k :: k in keys ==> f(k) == g(k)
    ensures Sum(keys, f) == Sum(keys, g)
  {
    if keys != {} {
      var k :| k in keys;
      SumPick(keys, f, k);
      SumPick(keys, g, k);
      SumSame(keys - {k}, f, g);
    }
  }

  /** Changing `f` at one element changes the sum by that much. */
  lemma SumChange<K(!new)>(keys: set<K>, f: K -> int, g: K -> int, k: K)
    requires k in keys
    requires forall j :: j in keys && j != k ==> f(j) == g(j)
    ensures Sum(keys, g) == Sum(keys, f) - f(k) + g(k)
  {
    SumPick(keys, f, k);
    SumPick(keys, g, k);
    SumSame(keys - {k}, f, g);
  }

  lemma {:induction false} SumAtLeast<K(!new)>(keys: set<K>, f: K -> int, part: set<K>)
    requires part <= keys
    requires forall k :: k in keys ==> 0 <= f(k)
    ensures 0 <= Sum(part, f) <= Sum(keys, f)
  {
    if keys != {} {
      var k :| k in keys;
      SumPick(keys, f, k);
      if k in part {
        SumPick(part, f, k);
        SumAtLeast(keys - {k}, f, part - {k});
      } else {
        SumAtLeast(keys - {k}, f, part);
      }
    }
  }

  lemma {:induction false} SumZero<K(!new)>(keys: set<K>, f: K -> int)
    requires forall k :: k in keys ==> f(k) == 0
    ensures Sum(keys, f) == 0
  {
    if keys != {} {
      var k :| k in keys;
      SumPick(keys, f, k);
      SumZero(keys - {k}, f);
    }
  }

  lemma {:induction false} SumSplit<K(!new)>(keys: set<K>, f: K -> int, g: K -> int, h: K -> int)
    requires forall k :: k in keys ==> f(k) == g(k) + h(k)
    ensures Sum(keys, f) == Sum(keys, g) + Sum(keys, h)
  {
    if keys != {} {
      var k :| k in keys;
      SumPick(keys, f, k);
      SumPick(keys, g, k);
      SumPick(keys, h, k);
      SumSplit(keys - {k}, f, g, h);
    }
  }

  /** A new element joins, and the others keep their values. */
  lemma SumGrows<K(!new)>(keys: set<K>, f: K -> int, g: K -> int, k: K)
    requires k !in keys
    requires forall j :: j in keys ==> f(j) == g(j)
    ensures Sum(keys + {k}, g) == Sum(keys, f) + g(k)
  {
    SumInsert(keys, g, k);
    SumSame(keys, f, g);
  }

  /** Terms that are zero do not matter. */
  lemma {:induction false} SumRest<K(!new)>(keys: set<K>, part: set<K>, f: K -> int)
    requires part <= keys && forall k :: k in keys && k !in part ==> f(k) == 0
    ensures Sum(keys, f) == Sum(part, f)
  {
    if keys != part {
      var k :| k in keys && k !in part;
      SumPick(keys, f, k);
      SumRest(keys - {k}, part, f);
    }
  }

  /** `h` pairs each term of one sum with a term of another that is no less and nowhere negative, no two with the same. */
  ghost predicate Paired<A(!new), B(!new)>(xs: set<A>, f: A -> int, ys: set<B>, g: B -> int, h: A -> B) {
    && (forall x :: x in xs ==> h(x) in ys && f(x) <= g(h(x)))
    && (forall x, x' :: x in xs && x' in xs && h(x) == h(x') ==> x == x')
    && (forall y :: y in ys ==> g(y) >= 0)
  }

  lemma {:induction false} SumPaired<A(!new), B(!new)>(xs: set<A>, f: A -> int, ys: set<B>, g: B -> int, h: A -> B)
    requires Paired(xs, f, ys, g, h)
    ensures Sum(xs, f) <= Sum(ys, g)
  {
    if xs == {} {
      SumAtLeast(ys, g, {});
    } else {
      var x :| x in xs;
      SumPick(xs, f, x);
      SumPick(ys, g, h(x));
      SumPaired(xs - {x}, f, ys - {h(x)}, g, h);
    }
  }
}
