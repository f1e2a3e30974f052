/** List operations of Python the pipeline relies on: list comprehensions with
    a condition, `sorted(..., key=..., reverse=True)` (a stable sort) and
    `sorted(set(...))` over strings. */
module Lists {
  import opened Text

  /** `min(a, b)`. */
  function Min(a: int, b: int): (m: int)
    ensures m <= a && m <= b && (m == a || m == b)
  {
    if a <= b then a else b
  }

  // ---------------------------------------------------------------------
  // [x for x in s if p(x)]

  function Keep<T>(s: seq<T>, p: T -> bool): (r: seq<T>)
    ensures |r| <= |s|
    ensures forall i :: 0 <= i < |r| ==> p(r[i])
  {
    if |s| == 0 then [] else (if p(s[0]) then [s[0]] else []) + Keep(s[1..], p)
  }

  lemma {:induction false} KeepMember<T>(s: seq<T>, p: T -> bool, x: T)
    ensures x in Keep(s, p) <==> x in s && p(x)
    decreases |s|
  {
    if |s| > 0 {
      KeepMember(s[1..], p, x);
      assert x in s <==> x == s[0] || x in s[1..];
    }
  }

  lemma {:induction false} KeepAppend<T>(a: seq<T>, b: seq<T>, p: T -> bool)
    ensures Keep(a + b, p) == Keep(a, p) + Keep(b, p)
    decreases |a|
  {
    if |a| > 0 {
      assert (a + b)[1..] == a[1..] + b;
      KeepAppend(a[1..], b, p);
    } else {
      assert a + b == b;
    }
  }

  /** A property every element has, every kept element has. */
  lemma {:induction false} KeepPreserves<T>(s: seq<T>, p: T -> bool, q: T -> bool)
    requires forall i :: 0 <= i < |s| ==> q(s[i])
    ensures forall i :: 0 <= i < |Keep(s, p)| ==> q(Keep(s, p)[i])
    decreases |s|
  {
    if |s| > 0 {
      assert forall i :: 0 <= i < |s[1..]| ==> s[1..][i] == s[i + 1];
      KeepPreserves(s[1..], p, q);
      var head := if p(s[0]) then [s[0]] else [];
      assert Keep(s, p) == head + Keep(s[1..], p);
    }
  }

  lemma {:induction false} KeepAll<T>(s: seq<T>, p: T -> bool)
    requires forall i :: 0 <= i < |s| ==> p(s[i])
    ensures Keep(s, p) == s
    decreases |s|
  {
    if |s| > 0 {
      assert forall i :: 0 <= i < |s[1..]| ==> s[1..][i] == s[i + 1];
      KeepAll(s[1..], p);
      assert p(s[0]);
      assert Keep(s, p) == [s[0]] + s[1..];
    }
  }

  /** Two conditions: keeping by one and then by the other keeps by both. */
  lemma {:induction false} KeepKeep<T>(s: seq<T>, p: T -> bool, q: T -> bool)
    ensures Keep(Keep(s, p), q) == Keep(s, x => p(x) && q(x))
    decreases |s|
  {
    if |s| > 0 {
      KeepKeep(s[1..], p, q);
      var head := if p(s[0]) then [s[0]] else [];
      KeepAppend(head, Keep(s[1..], p), q);
    }
  }

  /** Keeping by a condition and by its negation splits the list: the
      two parts hold every element, each exactly once. */
  lemma {:induction false} KeepPartition<T>(s: seq<T>, p: T -> bool, q: T -> bool)
    requires forall x :: q(x) == !p(x)
    ensures |Keep(s, p)| + |Keep(s, q)| == |s|
    ensures multiset(Keep(s, p)) + multiset(Keep(s, q)) == multiset(s)
    decreases |s|
  {
    if |s| > 0 {
      KeepPartition(s[1..], p, q);
      assert s == [s[0]] + s[1..];
    }
  }

  /** The first index at or after `from` whose element satisfies `p`, or
      |s| when there is none: the `for ...: if p(x): ... break` scan. */
  function FirstIndex<T>(s: seq<T>, from: nat, p: T -> bool): (k: nat)
    requires from <= |s|
    ensures from <= k <= |s|
    ensures k < |s| ==> p(s[k])
    ensures forall i :: from <= i < k ==> !p(s[i])
    decreases |s| - from
  {
    if from == |s| then from
    else if p(s[from]) then from
    else FirstIndex(s, from + 1, p)
  }

  /** The elements from `from` on, up to the first that satisfies `p`:
      the loop `for x in s[from:]: if p(x): break; out.append(x)`. */
  method TakeUntil<T>(s: seq<T>, from: nat, p: T -> bool) returns (r: seq<T>)
    requires from <= |s|
    ensures r == s[from..FirstIndex(s, from, p)]
  {
    r := [];
    var j := from;
    while j < |s|
      invariant from <= j <= |s|
      invariant r == s[from..j]
      invariant FirstIndex(s, from, p) == FirstIndex(s, j, p)
    {
      if p(s[j]) {
        break;
      }
      r := r + [s[j]];
      j := j + 1;
    }
  }

  /** The loop `for x in s: if p(x): out.append(x)`. */
  method Select<T>(s: seq<T>, p: T -> bool) returns (r: seq<T>)
    ensures r == Keep(s, p)
  {
    r := [];
    var i := 0;
    while i < |s|
      invariant 0 <= i <= |s|
      invariant r == Keep(s[..i], p)
    {
      assert s[..i + 1] == s[..i] + [s[i]];
      KeepAppend(s[..i], [s[i]], p);
      if p(s[i]) {
        r := r + [s[i]];
      }
      i := i + 1;
    }
    assert s[..i] == s;
  }

  /** The loop `for x in s: if p(x): ...; break`: the index it stops at. */
  method ScanFirst<T>(s: seq<T>, p: T -> bool) returns (k: nat)
    ensures k == FirstIndex(s, 0, p)
  {
    k := 0;
    while k < |s|
      invariant k <= |s|
      invariant FirstIndex(s, 0, p) == FirstIndex(s, k, p)
    {
      if p(s[k]) {
        return;
      }
      k := k + 1;
    }
  }

  /** `a` is `b` with some elements left out, order kept. */
  predicate IsSubsequence<T(==)>(a: seq<T>, b: seq<T>)
    decreases |b|
  {
    if |a| == 0 then true
    else if |b| == 0 then false
    else (a[|a| - 1] == b[|b| - 1] && IsSubsequence(a[..|a| - 1], b[..|b| - 1]))
         || IsSubsequence(a, b[..|b| - 1])
  }

  /** `sum(1 for x in s if p(x))` */
  function Count<T>(s: seq<T>, p: T -> bool): nat {
    |Keep(s, p)|
  }

  // ---------------------------------------------------------------------
  // sorted(s, key=key, reverse=True)

  predicate SortedDesc<T>(s: seq<T>, key: T -> int) {
    forall i, j :: 0 <= i < j < |s| ==> key(s[i]) >= key(s[j])
  }

  /** Places `x` after every element with a larger key and before the rest,
      so that `x` stays ahead of later elements with an equal key. */
  function Insert<T>(x: T, s: seq<T>, key: T -> int): (r: seq<T>)
    ensures |r| == |s| + 1
    ensures multiset(r) == multiset(s) + multiset{x}
  {
    if |s| == 0 then [x]
    else if key(s[0]) > key(x) then
      assert s == [s[0]] + s[1..];
      [s[0]] + Insert(x, s[1..], key)
    else [x] + s
  }

  /** Python's stable descending sort, as insertion sort. */
  function SortDesc<T>(s: seq<T>, key: T -> int): (r: seq<T>)
    ensures |r| == |s|
    ensures multiset(r) == multiset(s)
  {
    if |s| == 0 then []
    else
      assert s == [s[0]] + s[1..];
      Insert(s[0], SortDesc(s[1..], key), key)
  }

  lemma {:induction false} InsertSorted<T>(x: T, s: seq<T>, key: T -> int)
    requires SortedDesc(s, key)
    ensures SortedDesc(Insert(x, s, key), key)
    decreases |s|
  {
    if |s| > 0 && key(s[0]) > key(x) {
      InsertSorted(x, s[1..], key);
      var r := Insert(x, s[1..], key);
      assert forall j :: 0 <= j < |r| ==> key(s[0]) >= key(r[j]) by {
        forall j | 0 <= j < |r| ensures key(s[0]) >= key(r[j]) {
          assert r[j] in multiset(r);
          assert r[j] == x || r[j] in multiset(s[1..]);
          if r[j] != x {
            var k :| 0 <= k < |s[1..]| && s[1..][k] == r[j];
          }
        }
      }
    }
  }

  /** The result is ordered by non-increasing key. */
  lemma {:induction false} SortDescSorted<T>(s: seq<T>, key: T -> int)
    ensures SortedDesc(SortDesc(s, key), key)
    decreases |s|
  {
    if |s| > 0 {
      SortDescSorted(s[1..], key);
      InsertSorted(s[0], SortDesc(s[1..], key), key);
    }
  }

  /** The elements whose key is `v`. */
  function KeyIs<T>(key: T -> int, v: int): T -> bool {
    e => key(e) == v
  }

  lemma KeepCons<T>(x: T, s: seq<T>, p: T -> bool)
    ensures Keep([x] + s, p) == (if p(x) then [x] else []) + Keep(s, p)
  {
    assert ([x] + s)[1..] == s;
  }

  lemma SwapEmpty<T>(a: seq<T>, b: seq<T>, c: seq<T>)
    requires a == [] || b == []
    ensures a + (b + c) == b + (a + c)
  {
  }

  /** Putting back a head that `p` rejects, or that comes before nothing
      `p` keeps, commutes with the kept prefix `px`. */
  lemma KeepConsShift<T>(h: T, tail: seq<T>, rest: seq<T>, px: seq<T>, p: T -> bool)
    requires Keep(rest, p) == px + Keep(tail, p)
    requires px == [] || !p(h)
    ensures Keep([h] + rest, p) == px + Keep([h] + tail, p)
  {
    KeepCons(h, rest, p);
    KeepCons(h, tail, p);
    SwapEmpty(if p(h) then [h] else [], px, Keep(tail, p));
  }

  lemma {:induction false} InsertStable<T>(x: T, s: seq<T>, key: T -> int, v: int)
    ensures Keep(Insert(x, s, key), KeyIs(key, v))
         == (if key(x) == v then [x] else []) + Keep(s, KeyIs(key, v))
    decreases |s|
  {
    if |s| > 0 && key(s[0]) > key(x) {
      InsertStable(x, s[1..], key, v);
      var rest := Insert(x, s[1..], key);
      assert Insert(x, s, key) == [s[0]] + rest;
      KeepConsShift(s[0], s[1..], rest, if key(x) == v then [x] else [], KeyIs(key, v));
      assert [s[0]] + s[1..] == s;
    } else {
      assert Insert(x, s, key) == [x] + s;
      KeepCons(x, s, KeyIs(key, v));
    }
  }

  /** Stability: the elements sharing one key keep their input order. */
  lemma {:induction false} SortDescStable<T>(s: seq<T>, key: T -> int, v: int)
    ensures Keep(SortDesc(s, key), KeyIs(key, v)) == Keep(s, KeyIs(key, v))
    decreases |s|
  {
    if |s| > 0 {
      SortDescStable(s[1..], key, v);
      InsertStable(s[0], SortDesc(s[1..], key), key, v);
    }
  }

  /** A contiguous part of a sorted list is sorted. */
  lemma SortedDescSlice<T>(s: seq<T>, key: T -> int, lo: nat, hi: nat)
    requires lo <= hi <= |s|
    requires SortedDesc(s, key)
    ensures SortedDesc(s[lo..hi], key)
  {
    var r := s[lo..hi];
    forall i, j | 0 <= i < j < |r| ensures key(r[i]) >= key(r[j]) {
      assert r[i] == s[lo + i];
      assert r[j] == s[lo + j];
    }
  }

  // ---------------------------------------------------------------------
  // sorted(set(items)) over strings

  /** `set(s)` */
  function Elems<T>(s: seq<T>): set<T> {
    set e | e in s
  }

  lemma ElemsConcat<T>(a: seq<T>, b: seq<T>)
    ensures Elems(a + b) == Elems(a) + Elems(b)
  {
    assert forall e :: e in a + b <==> e in a || e in b;
  }

  /** The elements of the first `n` entries, gathered one index at a time. */
  ghost function PrefixSet<T>(s: seq<T>, n: nat): set<T>
    requires n <= |s|
  {
    if n == 0 then {} else PrefixSet(s, n - 1) + {s[n - 1]}
  }

  lemma {:induction false} PrefixSetIsElems<T>(s: seq<T>, n: nat)
    requires n <= |s|
    ensures PrefixSet(s, n) == Elems(s[..n])
  {
    if n > 0 {
      PrefixSetIsElems(s, n - 1);
      ElemsSnoc(s, n - 1);
    }
  }

  /** The elements of a prefix one longer. */
  lemma ElemsSnoc<T>(s: seq<T>, i: nat)
    requires i < |s|
    ensures Elems(s[..i + 1]) == Elems(s[..i]) + {s[i]}
  {
    assert s[..i + 1] == s[..i] + [s[i]];
    ElemsConcat(s[..i], [s[i]]);
    assert Elems([s[i]]) == {s[i]};
  }

  predicate StrictlyIncreasing(s: seq<string>) {
    forall i, j :: 0 <= i < j < |s| ==> Less(s[i], s[j])
  }

  function InsertUnique(x: string, s: seq<string>): (r: seq<string>)
    ensures Elems(r) == Elems(s) + {x}
    decreases |s|
  {
    if |s| == 0 then [x]
    else if s[0] == x then s
    else if Less(s[0], x) then
      var r := InsertUnique(x, s[1..]);
      ElemsConcat([s[0]], s[1..]);
      ElemsConcat([s[0]], r);
      assert s == [s[0]] + s[1..];
      [s[0]] + r
    else [x] + s
  }

  lemma {:induction false} InsertUniqueIncreasing(x: string, s: seq<string>)
    requires StrictlyIncreasing(s)
    ensures StrictlyIncreasing(InsertUnique(x, s))
    decreases |s|
  {
    if |s| > 0 && s[0] != x {
      if Less(s[0], x) {
        InsertUniqueIncreasing(x, s[1..]);
        var r := InsertUnique(x, s[1..]);
        forall j | 0 <= j < |r| ensures Less(s[0], r[j]) {
          assert r[j] in Elems(r);
          if r[j] != x {
            var k :| 0 <= k < |s[1..]| && s[1..][k] == r[j];
            assert s[1..][k] == s[k + 1];
          }
        }
      } else {
        LessTotal(s[0], x);
        forall j | 0 <= j < |s| ensures Less(x, s[j]) {
          if j > 0 { LessTransitive(x, s[0], s[j]); }
        }
      }
    }
  }

  /** `sorted(set(items))` */
  function SortedUnique(items: seq<string>): (r: seq<string>)
    ensures Elems(r) == Elems(items)
    decreases |items|
  {
    if |items| == 0 then []
    else
      assert Elems(items) == Elems(items[1..]) + {items[0]} by {
        assert items == [items[0]] + items[1..];
      }
      InsertUnique(items[0], SortedUnique(items[1..]))
  }

  /** The result is sorted and holds no element twice. */
  lemma {:induction false} SortedUniqueIncreasing(items: seq<string>)
    ensures StrictlyIncreasing(SortedUnique(items))
    decreases |items|
  {
    if |items| > 0 {
      SortedUniqueIncreasing(items[1..]);
      InsertUniqueIncreasing(items[0], SortedUnique(items[1..]));
    }
  }

  lemma StrictlyIncreasingDistinct(s: seq<string>)
    requires StrictlyIncreasing(s)
    ensures forall i, j :: 0 <= i < j < |s| ==> s[i] != s[j]
  {
    forall i, j | 0 <= i < j < |s| ensures s[i] != s[j] {
      if s[i] == s[j] { LessIrreflexive(s[i]); }
    }
  }

  /** One more factor of m. */
  lemma MulSucc(j: nat, m: nat)
    ensures (j + 1) * m == j * m + m
  {
  }

  /** A prefix followed by the next slice is the longer prefix. */
  lemma SliceJoin<T>(s: seq<T>, a: nat, b: nat)
    requires a <= b <= |s|
    ensures s[..a] + s[a..b] == s[..b]
  {
  }
}
