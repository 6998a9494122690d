/** Sums and means of a quantity over a sequence: independent of order, bounded, additive over parts. */
module RealSums {

  function SumOf<T>(f: T -> real, s: seq<T>): real
  {
    if s == [] then 0.0 else f(s[0]) + SumOf(f, s[1..])
  }

  /** The arithmetic mean, 0 for no values. */
  function MeanOf<T>(f: T -> real, s: seq<T>): real
  {
    if s == [] then 0.0 else SumOf(f, s) / |s| as real
  }

  lemma {:induction false} SumOfAppend<T>(f: T -> real, a: seq<T>, b: seq<T>)
    ensures SumOf(f, a + b) == SumOf(f, a) + SumOf(f, b)
    decreases |a|
  {
    if a == [] {
      assert a + b == b;
    } else {
      assert (a + b)[0] == a[0] && (a + b)[1..] == a[1..] + b;
      SumOfAppend(f, a[1..], b);
    }
  }

  lemma SumOfOne<T>(f: T -> real, x: T)
    ensures SumOf(f, [x]) == f(x)
  {
    assert [x][1..] == [];
    assert SumOf(f, [x][1..]) == 0.0;
  }

  lemma SplitAt<T>(s: seq<T>, k: nat)
    requires k < |s|
    ensures s == s[..k] + ([s[k]] + s[k + 1..])
  {
  }

  lemma SumOfRemove<T>(f: T -> real, s: seq<T>, k: nat)
    requires k < |s|
    ensures SumOf(f, s) == f(s[k]) + SumOf(f, s[..k] + s[k + 1..])
  {
    hide SumOf;
    SplitAt(s, k);
    SumOfAppend(f, s[..k], [s[k]] + s[k + 1..]);
    SumOfAppend(f, [s[k]], s[k + 1..]);
    SumOfOne(f, s[k]);
    SumOfAppend(f, s[..k], s[k + 1..]);
  }

  /** Where the first element of one ordering stands in another, and what is left of both. */
  lemma MatchFirst<T>(a: seq<T>, b: seq<T>) returns (k: nat)
    requires a != [] && multiset(a) == multiset(b)
    ensures k < |b| && b[k] == a[0]
    ensures multiset(a[1..]) == multiset(b[..k] + b[k + 1..])
  {
    assert a[0] in multiset(b);
    k :| 0 <= k < |b| && b[k] == a[0];
    assert a == [a[0]] + a[1..];
    assert b == b[..k] + ([b[k]] + b[k + 1..]);
    assert multiset(a[1..]) == multiset(a) - multiset{a[0]};
    assert multiset(b[..k] + b[k + 1..]) == multiset(b) - multiset{a[0]};
  }

  /** A sum depends only on the multiset of the terms. */
  lemma {:induction false} SumOfPermutation<T>(f: T -> real, a: seq<T>, b: seq<T>)
    requires multiset(a) == multiset(b)
    ensures SumOf(f, a) == SumOf(f, b) && |a| == |b|
    decreases |a|
  {
    assert |multiset(a)| == |a| && |multiset(b)| == |b|;
    if a != [] {
      var k := MatchFirst(a, b);
      SumOfRemove(f, b, k);
      SumOfPermutation(f, a[1..], b[..k] + b[k + 1..]);
    }
  }

  lemma MeanOfPermutation<T>(f: T -> real, a: seq<T>, b: seq<T>)
    requires multiset(a) == multiset(b)
    ensures MeanOf(f, a) == MeanOf(f, b)
  {
    SumOfPermutation(f, a, b);
  }

  lemma {:induction false} SumOfBounds<T>(f: T -> real, s: seq<T>)
    requires forall x :: x in s ==> 0.0 <= f(x) <= 1.0
    ensures 0.0 <= SumOf(f, s) <= |s| as real
    decreases |s|
  {
    if s != [] {
      assert s[0] in s;
      SumOfBounds(f, s[1..]);
    }
  }

  lemma {:induction false} SumOfNonnegative<T>(f: T -> real, s: seq<T>)
    requires forall x :: x in s ==> 0.0 <= f(x)
    ensures 0.0 <= SumOf(f, s)
    decreases |s|
  {
    if s != [] {
      assert s[0] in s;
      SumOfNonnegative(f, s[1..]);
    }
  }

  /** A sum of non-negative terms vanishes only when each of them does. */
  lemma {:induction false} SumOfZero<T>(f: T -> real, s: seq<T>)
    requires forall x :: x in s ==> 0.0 <= f(x)
    ensures SumOf(f, s) == 0.0 <==> forall x :: x in s ==> f(x) == 0.0
    decreases |s|
  {
    if s != [] {
      assert s == [s[0]] + s[1..];
      assert s[0] in s;
      SumOfZero(f, s[1..]);
      SumOfNonnegative(f, s[1..]);
    }
  }

  lemma DivideBounds(n: real, d: real)
    requires 0.0 <= n <= d && 0.0 < d
    ensures 0.0 <= n / d <= 1.0
  {
    assert n == (n / d) * d;
  }

  /** A mean of values in the unit interval lies in it. */
  lemma MeanOfBounds<T>(f: T -> real, s: seq<T>)
    requires forall x :: x in s ==> 0.0 <= f(x) <= 1.0
    ensures 0.0 <= MeanOf(f, s) <= 1.0
  {
    SumOfBounds(f, s);
    if s != [] {
      DivideBounds(SumOf(f, s), |s| as real);
    }
  }

  lemma MeanOfNonnegative<T>(f: T -> real, s: seq<T>)
    requires forall x :: x in s ==> 0.0 <= f(x)
    ensures 0.0 <= MeanOf(f, s)
  {
    SumOfNonnegative(f, s);
    if s != [] {
      assert SumOf(f, s) == MeanOf(f, s) * |s| as real;
    }
  }

  lemma {:induction false} SumOfOnes<T>(f: T -> real, s: seq<T>)
    requires forall x :: x in s ==> f(x) == 1.0
    ensures SumOf(f, s) == |s| as real
    decreases |s|
  {
    if s != [] {
      assert s[0] in s;
      SumOfOnes(f, s[1..]);
    }
  }

  /** Equal terms give equal sums. */
  lemma {:induction false} SumOfSame<T>(f: T -> real, g: T -> real, s: seq<T>)
    requires forall x :: x in s ==> f(x) == g(x)
    ensures SumOf(f, s) == SumOf(g, s)
    decreases |s|
  {
    if s != [] {
      assert s[0] in s;
      SumOfSame(f, g, s[1..]);
    }
  }

  /** Smaller terms give smaller sums. */
  lemma {:induction false} SumOfMonotone<T>(f: T -> real, g: T -> real, s: seq<T>)
    requires forall x :: x in s ==> f(x) <= g(x)
    ensures SumOf(f, s) <= SumOf(g, s)
    decreases |s|
  {
    if s != [] {
      assert s[0] in s;
      SumOfMonotone(f, g, s[1..]);
    }
  }

  lemma MeanOfMonotone<T>(f: T -> real, g: T -> real, s: seq<T>)
    requires forall x :: x in s ==> f(x) <= g(x)
    ensures MeanOf(f, s) <= MeanOf(g, s)
  {
    SumOfMonotone(f, g, s);
    if s != [] {
      var n := |s| as real;
      assert SumOf(f, s) == MeanOf(f, s) * n && SumOf(g, s) == MeanOf(g, s) * n;
    }
  }

  // ---- Lists of values ----

  function Applied<T, U>(f: T -> U, s: seq<T>): (r: seq<U>)
    ensures |r| == |s|
  {
    if s == [] then [] else [f(s[0])] + Applied(f, s[1..])
  }

  function Mean(values: seq<real>): real
  {
    MeanOf(v => v, values)
  }

  lemma {:induction false} SumOfApplied<T>(f: T -> real, s: seq<T>)
    ensures SumOf(v => v, Applied(f, s)) == SumOf(f, s)
    decreases |s|
  {
    if s != [] {
      assert Applied(f, s)[1..] == Applied(f, s[1..]);
      SumOfApplied(f, s[1..]);
    }
  }

  /** The mean of a list of computed values is the mean of the computation. */
  lemma MeanOfApplied<T>(f: T -> real, s: seq<T>)
    ensures Mean(Applied(f, s)) == MeanOf(f, s)
  {
    SumOfApplied(f, s);
  }

  lemma {:induction false} AppliedAppend<T, U>(f: T -> U, a: seq<T>, b: seq<T>)
    ensures Applied(f, a + b) == Applied(f, a) + Applied(f, b)
    decreases |a|
  {
    if a == [] {
      assert a + b == b;
    } else {
      assert (a + b)[0] == a[0] && (a + b)[1..] == a[1..] + b;
      AppliedAppend(f, a[1..], b);
      ConcatAssociates([f(a[0])], Applied(f, a[1..]), Applied(f, b));
    }
  }

  lemma AppliedOne<T, U>(f: T -> U, x: T)
    ensures Applied(f, [x]) == [f(x)]
  {
    assert [x][1..] == [];
    assert Applied(f, [x][1..]) == [];
  }

  lemma {:induction false} AppliedAt<T, U>(f: T -> U, s: seq<T>, i: nat)
    requires i < |s|
    ensures Applied(f, s)[i] == f(s[i])
  {
    if i > 0 {
      AppliedAt(f, s[1..], i - 1);
    }
  }

  lemma {:induction false} AppliedSame<T, U>(f: T -> U, g: T -> U, s: seq<T>)
    requires forall x :: x in s ==> f(x) == g(x)
    ensures Applied(f, s) == Applied(g, s)
    decreases |s|
  {
    if s != [] {
      assert s[0] in s;
      AppliedSame(f, g, s[1..]);
    }
  }

  lemma {:induction false} AppliedTwice<T, U, V>(f: T -> U, g: U -> V, h: T -> V, s: seq<T>)
    requires forall x :: x in s ==> h(x) == g(f(x))
    ensures Applied(g, Applied(f, s)) == Applied(h, s)
    decreases |s|
  {
    if s != [] {
      assert s[0] in s;
      AppliedTwice(f, g, h, s[1..]);
    }
  }

  lemma MultisetOfParts<U>(a: seq<U>, x: U, b: seq<U>)
    ensures multiset(a + ([x] + b)) == multiset{x} + multiset(a + b)
  {
    assert multiset(a + ([x] + b)) == multiset(a) + multiset([x] + b);
  }

  lemma AppliedParts<T, U>(f: T -> U, a: seq<T>, x: T, b: seq<T>)
    ensures Applied(f, a + ([x] + b)) == Applied(f, a) + ([f(x)] + Applied(f, b))
    ensures Applied(f, a + b) == Applied(f, a) + Applied(f, b)
  {
    hide Applied;
    AppliedAppend(f, a, [x] + b);
    AppliedAppend(f, [x], b);
    AppliedOne(f, x);
    AppliedAppend(f, a, b);
  }

  lemma AppliedRemove<T, U>(f: T -> U, s: seq<T>, k: nat)
    requires k < |s|
    ensures multiset(Applied(f, s)) == multiset{f(s[k])} + multiset(Applied(f, s[..k] + s[k + 1..]))
  {
    hide Applied;
    var a, b := s[..k], s[k + 1..];
    SplitAt(s, k);
    AppliedParts(f, a, s[k], b);
    MultisetOfParts(Applied(f, a), f(s[k]), Applied(f, b));
  }

  lemma {:induction false} AppliedPermutation<T, U>(f: T -> U, a: seq<T>, b: seq<T>)
    requires multiset(a) == multiset(b)
    ensures multiset(Applied(f, a)) == multiset(Applied(f, b))
    decreases |a|
  {
    assert |multiset(a)| == |a| && |multiset(b)| == |b|;
    if a != [] {
      var k := MatchFirst(a, b);
      AppliedPermutation(f, a[1..], b[..k] + b[k + 1..]);
      AppliedRemove(f, b, k);
    }
  }

  // ---- Whole-number totals ----

  function TotalOf<T>(f: T -> nat, s: seq<T>): nat
  {
    if s == [] then 0 else f(s[0]) + TotalOf(f, s[1..])
  }

  lemma {:induction false} TotalOfAppend<T>(f: T -> nat, a: seq<T>, b: seq<T>)
    ensures TotalOf(f, a + b) == TotalOf(f, a) + TotalOf(f, b)
    decreases |a|
  {
    if a == [] {
      assert a + b == b;
    } else {
      assert (a + b)[0] == a[0] && (a + b)[1..] == a[1..] + b;
      TotalOfAppend(f, a[1..], b);
    }
  }

  function AsReal<T>(f: T -> nat): T -> real
  {
    x => f(x) as real
  }

  lemma {:induction false} TotalAsSum<T>(f: T -> nat, s: seq<T>)
    ensures TotalOf(f, s) as real == SumOf(AsReal(f), s)
    decreases |s|
  {
    if s != [] {
      TotalAsSum(f, s[1..]);
    }
  }

  lemma TotalOfPermutation<T>(f: T -> nat, a: seq<T>, b: seq<T>)
    requires multiset(a) == multiset(b)
    ensures TotalOf(f, a) == TotalOf(f, b)
  {
    TotalAsSum(f, a);
    TotalAsSum(f, b);
    SumOfPermutation(AsReal(f), a, b);
  }

  lemma {:induction false} TotalOfMonotone<T>(f: T -> nat, g: T -> nat, s: seq<T>)
    requires forall x :: x in s ==> f(x) <= g(x)
    ensures TotalOf(f, s) <= TotalOf(g, s)
    decreases |s|
  {
    if s != [] {
      assert s[0] in s;
      TotalOfMonotone(f, g, s[1..]);
    }
  }

  function Keep<T>(p: T -> bool, s: seq<T>): seq<T>
  {
    if s == [] then [] else (if p(s[0]) then [s[0]] else []) + Keep(p, s[1..])
  }

  lemma KeepOne<T>(p: T -> bool, x: T)
    ensures Keep(p, [x]) == if p(x) then [x] else []
  {
    assert [x][1..] == [];
    assert Keep(p, [x][1..]) == [];
  }

  lemma ConcatAssociates<T>(a: seq<T>, b: seq<T>, c: seq<T>)
    ensures a + (b + c) == (a + b) + c
  {
  }

  lemma {:induction false} KeepAppend<T>(p: T -> bool, a: seq<T>, b: seq<T>)
    ensures Keep(p, a + b) == Keep(p, a) + Keep(p, b)
    decreases |a|
  {
    if a == [] {
      assert a + b == b;
    } else {
      assert (a + b)[0] == a[0] && (a + b)[1..] == a[1..] + b;
      KeepAppend(p, a[1..], b);
      ConcatAssociates(if p(a[0]) then [a[0]] else [], Keep(p, a[1..]), Keep(p, b));
    }
  }

  lemma {:induction false} KeepMembers<T(!new)>(p: T -> bool, s: seq<T>)
    ensures forall x :: x in Keep(p, s) <==> x in s && p(x)
    decreases |s|
  {
    if s != [] {
      assert s == [s[0]] + s[1..];
      KeepMembers(p, s[1..]);
    }
  }

  lemma {:induction false} KeepSame<T>(p: T -> bool, q: T -> bool, s: seq<T>)
    requires forall x :: x in s ==> p(x) == q(x)
    ensures Keep(p, s) == Keep(q, s)
    decreases |s|
  {
    if s != [] {
      assert s[0] in s;
      KeepSame(p, q, s[1..]);
    }
  }

  lemma {:induction false} KeepPermutation<T>(p: T -> bool, a: seq<T>, b: seq<T>)
    requires multiset(a) == multiset(b)
    ensures multiset(Keep(p, a)) == multiset(Keep(p, b))
    decreases |a|
  {
    assert |multiset(a)| == |a| && |multiset(b)| == |b|;
    if a != [] {
      var k := MatchFirst(a, b);
      KeepPermutation(p, a[1..], b[..k] + b[k + 1..]);
      assert b == b[..k] + ([b[k]] + b[k + 1..]);
      KeepAppend(p, b[..k], [b[k]] + b[k + 1..]);
      KeepAppend(p, [b[k]], b[k + 1..]);
      KeepAppend(p, b[..k], b[k + 1..]);
    }
  }

  // ---- Buckets ----

  function Keyed<T, K(==)>(key: T -> K, bucket: K): T -> bool
  {
    x => key(x) == bucket
  }

  /** The elements of one bucket, in order. */
  function InBucket<T, K(==)>(key: T -> K, s: seq<T>, bucket: K): seq<T>
  {
    Keep(Keyed(key, bucket), s)
  }

  function OffBucket<T, K(==)>(key: T -> K, s: seq<T>, bucket: K): seq<T>
  {
    Keep(x => key(x) != bucket, s)
  }

  lemma {:induction false} SumOfSplit<T, K>(f: T -> real, key: T -> K, s: seq<T>, bucket: K)
    ensures SumOf(f, s) == SumOf(f, InBucket(key, s, bucket)) + SumOf(f, OffBucket(key, s, bucket))
    decreases |s|
  {
    if s != [] {
      SumOfSplit(f, key, s[1..], bucket);
      SumOfOne(f, s[0]);
      if key(s[0]) == bucket {
        SumOfAppend(f, [s[0]], InBucket(key, s[1..], bucket));
        assert OffBucket(key, s, bucket) == OffBucket(key, s[1..], bucket);
      } else {
        SumOfAppend(f, [s[0]], OffBucket(key, s[1..], bucket));
        assert InBucket(key, s, bucket) == InBucket(key, s[1..], bucket);
      }
    }
  }

  lemma {:induction false} BucketOfRest<T, K>(key: T -> K, s: seq<T>, removed: K, bucket: K)
    requires removed != bucket
    ensures InBucket(key, OffBucket(key, s, removed), bucket) == InBucket(key, s, bucket)
    decreases |s|
  {
    if s != [] {
      BucketOfRest(key, s[1..], removed, bucket);
      var rest := OffBucket(key, s[1..], removed);
      if key(s[0]) != removed {
        assert OffBucket(key, s, removed) == [s[0]] + rest;
        assert ([s[0]] + rest)[1..] == rest;
      } else {
        assert OffBucket(key, s, removed) == rest;
      }
    }
  }

  /** The sum of a quantity over a finite set of bucket names. */
  ghost function SumOverNames<K>(g: K -> real, names: set<K>): real
  {
    if names == {} then 0.0
    else
      var name :| name in names;
      g(name) + SumOverNames(g, names - {name})
  }

  lemma {:induction false} SumOverSame<K>(g: K -> real, h: K -> real, names: set<K>)
    requires forall name :: name in names ==> g(name) == h(name)
    ensures SumOverNames(g, names) == SumOverNames(h, names)
    decreases |names|
  {
    if names != {} {
      var name :| name in names && SumOverNames(g, names) == g(name) + SumOverNames(g, names - {name});
      SumOverSplit(h, names, name);
      SumOverSame(g, h, names - {name});
    }
  }

  /** Any name can be taken out first. */
  lemma {:induction false} SumOverSplit<K>(g: K -> real, names: set<K>, name: K)
    requires name in names
    ensures SumOverNames(g, names) == g(name) + SumOverNames(g, names - {name})
    decreases |names|
  {
    var first :| first in names && SumOverNames(g, names) == g(first) + SumOverNames(g, names - {first});
    if first != name {
      SumOverSplit(g, names - {first}, name);
      SumOverSplit(g, names - {name}, first);
      assert names - {first} - {name} == names - {name} - {first};
    }
  }

  lemma SumOverAdd<K>(g: K -> real, names: set<K>, name: K)
    requires name !in names
    ensures SumOverNames(g, names + {name}) == g(name) + SumOverNames(g, names)
  {
    SumOverSplit(g, names + {name}, name);
    assert names + {name} - {name} == names;
  }

  lemma NoMembers<T(!new)>(s: seq<T>)
    ensures (forall x :: x !in s) <==> s == []
  {
    if s != [] {
      var first := s[0];
      assert first in s;
    }
  }

  /** The sum of a quantity inside each bucket. */
  function BucketSum<T, K(==)>(f: T -> real, key: T -> K, s: seq<T>): K -> real
  {
    name => SumOf(f, InBucket(key, s, name))
  }

  /** Conservation: a sum over buckets of the sums inside them is the sum over everything. */
  lemma {:induction false} BucketsPartition<T(!new), K>(f: T -> real, key: T -> K, s: seq<T>, names: set<K>)
    requires forall x :: x in s ==> key(x) in names
    ensures SumOverNames(BucketSum(f, key, s), names) == SumOf(f, s)
    decreases |names|
  {
    var g := BucketSum(f, key, s);
    if names == {} {
      NoMembers(s);
    } else {
      var name :| name in names;
      SumOverSplit(g, names, name);
      SumOfSplit(f, key, s, name);
      var rest := OffBucket(key, s, name);
      KeepMembers(x => key(x) != name, s);
      BucketsPartition(f, key, rest, names - {name});
      var h := BucketSum(f, key, rest);
      forall n | n in names - {name} ensures g(n) == h(n) {
        BucketOfRest(key, s, name, n);
      }
      SumOverSame(g, h, names - {name});
    }
  }
}
