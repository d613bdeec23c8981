/** Sequence operations that several components share: the `filter` of
    JavaScript arrays and SQL `WHERE`, counting and removing one value, the
    distinct values of SQL `GROUP BY`, and a sort by an integer key for SQL
    `ORDER BY`. */
module Seqs {

  /** The elements of `s` that satisfy `p`, in their original order. */
  function Filter<T(!new)>(s: seq<T>, p: T -> bool): (r: seq<T>)
    ensures |r| <= |s|
    ensures forall x :: x in r <==> x in s && p(x)
  {
    if s == [] then [] else (if p(s[0]) then [s[0]] else []) + Filter(s[1..], p)
  }

  /** Filtering a concatenation filters each part: the kept elements keep their relative order. */
  lemma {:induction false} FilterConcat<T(!new)>(a: seq<T>, b: seq<T>, p: T -> bool)
    ensures Filter(a + b, p) == Filter(a, p) + Filter(b, p)
  {
    if a == [] {
      assert a + b == b;
    } else {
      assert (a + b)[1..] == a[1..] + b;
      FilterConcat(a[1..], b, p);
    }
  }

  /** When every element satisfies the predicate, filtering changes nothing. */
  lemma {:induction false} FilterKeepsAll<T(!new)>(s: seq<T>, p: T -> bool)
    requires forall i :: 0 <= i < |s| ==> p(s[i])
    ensures Filter(s, p) == s
  {
    if s != [] {
      FilterKeepsAll(s[1..], p);
    }
  }

  /** When some element fails the predicate, filtering makes the sequence strictly shorter. */
  lemma {:induction false} FilterDropsOne<T(!new)>(s: seq<T>, p: T -> bool, k: nat)
    requires k < |s| && !p(s[k])
    ensures |Filter(s, p)| < |s|
  {
    if k > 0 {
      FilterDropsOne(s[1..], p, k - 1);
    }
  }

  /** A predicate and its negation split a sequence in two. */
  lemma {:induction false} FilterPartition<T(!new)>(s: seq<T>, p: T -> bool, q: T -> bool)
    requires forall x :: q(x) == !p(x)
    ensures |Filter(s, p)| + |Filter(s, q)| == |s|
  {
    if s != [] {
      FilterPartition(s[1..], p, q);
    }
  }

  /** When exactly one element fails the predicate, filtering removes just that element. */
  lemma FilterDropsExactlyOne<T(!new)>(s: seq<T>, p: T -> bool, k: nat)
    requires k < |s| && !p(s[k])
    requires forall i :: 0 <= i < |s| && i != k ==> p(s[i])
    ensures Filter(s, p) == s[..k] + s[k + 1..]
  {
    var before, after := s[..k], s[k + 1..];
    assert s == before + ([s[k]] + after);
    forall i | 0 <= i < |before| ensures p(before[i]) {
      assert before[i] == s[i];
    }
    forall i | 0 <= i < |after| ensures p(after[i]) {
      assert after[i] == s[k + 1 + i];
    }
    FilterAroundOne(before, s[k], after, p);
  }

  lemma FilterAroundOne<T(!new)>(before: seq<T>, x: T, after: seq<T>, p: T -> bool)
    requires !p(x)
    requires forall i :: 0 <= i < |before| ==> p(before[i])
    requires forall i :: 0 <= i < |after| ==> p(after[i])
    ensures Filter(before + ([x] + after), p) == before + after
  {
    FilterConcat(before, [x] + after, p);
    FilterConcat([x], after, p);
    FilterKeepsAll(before, p);
    FilterKeepsAll(after, p);
    assert [x][1..] == [];
    assert Filter([x], p) == [];
    assert Filter([x], p) + Filter(after, p) == after;
  }

  /** How many times `x` occurs in `s`. */
  function Count<T(==,!new)>(s: seq<T>, x: T): (n: nat)
    ensures n <= |s|
    ensures n > 0 <==> x in s
  {
    if s == [] then 0 else (if s[0] == x then 1 else 0) + Count(s[1..], x)
  }

  /** `s` without any occurrence of `x`. */
  function Remove<T(==,!new)>(s: seq<T>, x: T): (r: seq<T>)
    ensures |r| + Count(s, x) == |s|
    ensures forall y :: y in r <==> y in s && y != x
  {
    if s == [] then [] else (if s[0] == x then [] else [s[0]]) + Remove(s[1..], x)
  }

  /** Removing `x` does not change how often any other value occurs. */
  lemma {:induction false} CountAfterRemove<T(!new)>(s: seq<T>, x: T, y: T)
    requires y != x
    ensures Count(Remove(s, x), y) == Count(s, y)
  {
    if s != [] {
      CountAfterRemove(s[1..], x, y);
      if s[0] == x {
        assert Remove(s, x) == Remove(s[1..], x);
      } else {
        assert Remove(s, x) == [s[0]] + Remove(s[1..], x);
        assert ([s[0]] + Remove(s[1..], x))[1..] == Remove(s[1..], x);
      }
    }
  }

  ghost predicate NoDuplicates<T(!new)>(s: seq<T>)
  {
    forall i, j :: 0 <= i < j < |s| ==> s[i] != s[j]
  }

  /** The distinct values of `s`, each once, in order of first occurrence. */
  function Distinct<T(==,!new)>(s: seq<T>): (r: seq<T>)
    ensures forall x :: x in r <==> x in s
    ensures NoDuplicates(r)
    decreases |s|
  {
    if s == [] then []
    else
      var rest := Distinct(Remove(s[1..], s[0]));
      assert s[0] !in rest;
      [s[0]] + rest
  }

  /** The sum of the counts in `s` of each value listed in `keys`. */
  function SumOfCounts<T(==,!new)>(keys: seq<T>, s: seq<T>): nat
  {
    if keys == [] then 0 else Count(s, keys[0]) + SumOfCounts(keys[1..], s)
  }

  lemma {:induction false} SumOfCountsAgree<T(!new)>(keys: seq<T>, s: seq<T>, t: seq<T>)
    requires forall k :: k in keys ==> Count(s, k) == Count(t, k)
    ensures SumOfCounts(keys, s) == SumOfCounts(keys, t)
  {
    if keys != [] {
      SumOfCountsAgree(keys[1..], s, t);
    }
  }

  /** Grouping by value partitions the sequence: the group sizes add up to its length. */
  lemma {:induction false} DistinctCountsSum<T(!new)>(s: seq<T>)
    ensures SumOfCounts(Distinct(s), s) == |s|
    decreases |s|
  {
    if s != [] {
      var rest := Remove(s[1..], s[0]);
      DistinctCountsSum(rest);
      var keys := Distinct(rest);
      forall k | k in keys
        ensures Count(s, k) == Count(rest, k)
      {
        CountAfterRemove(s[1..], s[0], k);
      }
      SumOfCountsAgree(keys, s, rest);
      assert Distinct(s) == [s[0]] + keys;
      assert ([s[0]] + keys)[1..] == keys;
    }
  }

  /** `s` is in ascending order of `key`. */
  ghost predicate SortedBy<T(!new)>(s: seq<T>, key: T -> int)
  {
    forall i, j :: 0 <= i < j < |s| ==> key(s[i]) <= key(s[j])
  }

  /** `x` placed into `s` before the first element whose key is not smaller. */
  function Insert<T(==,!new)>(x: T, s: seq<T>, key: T -> int): (r: seq<T>)
    ensures multiset(r) == multiset(s) + multiset{x}
    ensures forall y :: y in r <==> y == x || y in s
  {
    if s == [] || key(x) <= key(s[0]) then [x] + s
    else
      assert s == [s[0]] + s[1..];
      [s[0]] + Insert(x, s[1..], key)
  }

  /** Every key of a sequence is at least `k`. */
  ghost predicate KeysAtLeast<T(!new)>(k: int, s: seq<T>, key: T -> int)
  {
    forall y :: y in s ==> k <= key(y)
  }

  /** Inserting into a sorted sequence keeps it sorted. */
  lemma {:induction false} InsertSorted<T(!new)>(x: T, s: seq<T>, key: T -> int)
    requires SortedBy(s, key)
    ensures SortedBy(Insert(x, s, key), key)
  {
    if s == [] || key(x) <= key(s[0]) {
      var r := [x] + s;
      forall i, j | 0 <= i < j < |r|
        ensures key(r[i]) <= key(r[j])
      {
        if i > 0 {
          assert r[i] == s[i - 1] && r[j] == s[j - 1];
        } else {
          assert r[j] == s[j - 1];
          assert key(s[0]) <= key(s[j - 1]);
        }
      }
    } else {
      var tail := Insert(x, s[1..], key);
      InsertSorted(x, s[1..], key);
      assert KeysAtLeast(key(s[0]), s[1..], key) by {
        forall y | y in s[1..] ensures key(s[0]) <= key(y) {
          var j :| 0 <= j < |s[1..]| && s[1..][j] == y;
          assert s[j + 1] == y;
        }
      }
      assert KeysAtLeast(key(s[0]), tail, key);
      var r := [s[0]] + tail;
      forall i, j | 0 <= i < j < |r|
        ensures key(r[i]) <= key(r[j])
      {
        if i == 0 {
          assert r[j] in tail;
        } else {
          assert r[i] == tail[i - 1] && r[j] == tail[j - 1];
        }
      }
    }
  }

  /** No two elements of `s` have the same key. */
  ghost predicate KeysDistinct<T(!new)>(s: seq<T>, key: T -> int)
  {
    forall i, j :: 0 <= i < j < |s| ==> key(s[i]) != key(s[j])
  }

  /** Filtering keeps keys distinct when they were distinct. */
  lemma {:induction false} FilterKeepsKeysDistinct<T(!new)>(s: seq<T>, p: T -> bool, key: T -> int)
    requires KeysDistinct(s, key)
    ensures KeysDistinct(Filter(s, p), key)
  {
    if s != [] {
      var tail := s[1..];
      assert KeysDistinct(tail, key) by {
        forall i, j | 0 <= i < j < |tail| ensures key(tail[i]) != key(tail[j]) {
          assert tail[i] == s[i + 1] && tail[j] == s[j + 1];
        }
      }
      FilterKeepsKeysDistinct(tail, p, key);
      var rest := Filter(tail, p);
      forall y | y in rest ensures key(y) != key(s[0]) {
        var j :| 0 <= j < |tail| && tail[j] == y;
        assert y == s[j + 1];
      }
      var r := Filter(s, p);
      if p(s[0]) {
        assert r == [s[0]] + rest;
        forall i, j | 0 <= i < j < |r| ensures key(r[i]) != key(r[j]) {
          assert r[j] == rest[j - 1];
          if i == 0 {
            assert r[j] in rest;
          } else {
            assert r[i] == rest[i - 1];
          }
        }
      } else {
        assert r == [] + rest == rest;
      }
    }
  }

  /** `s` sorted ascending by `key`. */
  function SortBy<T(==,!new)>(s: seq<T>, key: T -> int): (r: seq<T>)
    ensures multiset(r) == multiset(s)
    ensures forall x :: x in r <==> x in s
    ensures |r| == |s|
    ensures SortedBy(r, key)
  {
    if s == [] then []
    else
      assert s == [s[0]] + s[1..];
      var rest := SortBy(s[1..], key);
      InsertSorted(s[0], rest, key);
      var r := Insert(s[0], rest, key);
      assert |r| == |multiset(r)|;
      r
  }

  /** The first `n` elements of `s`, or all of them when there are fewer (`slice(0, n)`). */
  function Take<T(!new)>(s: seq<T>, n: nat): (r: seq<T>)
    ensures |r| == if |s| < n then |s| else n
    ensures r <= s
  {
    if |s| <= n then s else s[..n]
  }

  /** Taking a prefix of a sorted sequence keeps every element whose key is
      smaller than the key of some element taken. */
  lemma TakeSortedKeepsSmallerKeys<T(!new)>(s: seq<T>, key: T -> int, n: nat, x: T, j: nat)
    requires SortedBy(s, key) && x in s
    requires j < |Take(s, n)| && key(x) < key(Take(s, n)[j])
    ensures x in Take(s, n)
  {
    var i :| 0 <= i < |s| && s[i] == x;
    assert Take(s, n)[j] == s[j];
    assert i < |Take(s, n)|;
    assert Take(s, n)[i] == x;
  }
}
