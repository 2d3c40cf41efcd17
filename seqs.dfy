/** Optional values: JavaScript's `undefined`/`null` next to a present value. */
module Optional {
  datatype Option<+T> = None | Some(value: T) {
    function GetOr(default: T): T {
      if Some? then value else default
    }
  }
}

/** The array operations the application applies to record lists:
    `filter`, `find`, `reduce` into a count or a sum, `reverse`, `slice`,
    and a stable sort. */
module Seqs {
  import opened Optional

  /** A prefix one longer ends with the next element. */
  lemma PrefixGrows<T>(s: seq<T>, i: nat)
    requires i < |s|
    ensures s[..i + 1] == s[..i] + [s[i]]
  {
  }

  /** A non-empty sequence is its first element followed by the rest. */
  lemma HeadAndRest<T>(s: seq<T>)
    requires s != []
    ensures s == [s[0]] + s[1..]
  {
  }

  /** A non-empty sequence is its front followed by its last element. */
  lemma FrontAndLast<T>(s: seq<T>)
    requires s != []
    ensures s == s[..|s| - 1] + [s[|s| - 1]]
  {
  }

  /** The prefix of full length is the sequence itself. */
  lemma AllPrefix<T>(s: seq<T>)
    ensures s[..|s|] == s
  {
  }

  /** `s.filter(p)`. */
  function Filter<T>(s: seq<T>, p: T -> bool): (r: seq<T>)
    ensures |r| <= |s|
    ensures forall i :: 0 <= i < |r| ==> p(r[i])
  {
    if s == [] then [] else (if p(s[0]) then [s[0]] else []) + Filter(s[1..], p)
  }

  /** The filter holds exactly the elements of s that pass. */
  lemma {:induction false} FilterMembers<T>(s: seq<T>, p: T -> bool)
    ensures forall x :: x in Filter(s, p) <==> x in s && p(x)
  {
    if s != [] {
      FilterMembers(s[1..], p);
      assert s == [s[0]] + s[1..];
    }
  }

  /** Filtering a rearrangement of rows keeps exactly the rows that pass. */
  lemma FilterOfPermutation<T>(s: seq<T>, rows: seq<T>, p: T -> bool)
    requires multiset(s) == multiset(rows)
    ensures forall x :: x in Filter(s, p) <==> x in rows && p(x)
  {
    FilterMembers(s, p);
    assert forall x :: x in s <==> x in multiset(rows);
  }

  /** Filtering distributes over concatenation, so a loop that visits the
      elements in order and pushes the ones that pass builds the filter. */
  lemma {:induction false} FilterAppend<T>(a: seq<T>, b: seq<T>, p: T -> bool)
    ensures Filter(a + b, p) == Filter(a, p) + Filter(b, p)
  {
    if a == [] {
      assert a + b == b;
    } else {
      FilterAppend(a[1..], b, p);
      assert (a + b)[0] == a[0] && (a + b)[1..] == a[1..] + b;
      var h := if p(a[0]) then [a[0]] else [];
      calc {
        Filter(a + b, p);
        h + Filter(a[1..] + b, p);
        h + (Filter(a[1..], p) + Filter(b, p));
        (h + Filter(a[1..], p)) + Filter(b, p);
        Filter(a, p) + Filter(b, p);
      }
    }
  }

  /** A filter that every element passes returns its input. */
  lemma {:induction false} FilterAll<T>(s: seq<T>, p: T -> bool)
    requires forall i :: 0 <= i < |s| ==> p(s[i])
    ensures Filter(s, p) == s
  {
    if s != [] {
      FilterAll(s[1..], p);
    }
  }

  /** A filter that no element passes is empty. */
  lemma {:induction false} FilterNone<T>(s: seq<T>, p: T -> bool)
    requires forall i :: 0 <= i < |s| ==> !p(s[i])
    ensures Filter(s, p) == []
  {
    if s != [] {
      FilterNone(s[1..], p);
    }
  }

  /** Two tests that agree on every element select the same elements. */
  lemma {:induction false} FilterAlike<T>(s: seq<T>, p: T -> bool, q: T -> bool)
    requires forall i :: 0 <= i < |s| ==> p(s[i]) == q(s[i])
    ensures Filter(s, p) == Filter(s, q)
  {
    if s != [] {
      FilterAlike(s[1..], p, q);
    }
  }

  /** Filtering twice is filtering once by both tests. */
  lemma {:induction false} FilterThen<T>(s: seq<T>, p: T -> bool, q: T -> bool, both: T -> bool)
    requires forall i :: 0 <= i < |s| ==> both(s[i]) == (p(s[i]) && q(s[i]))
    ensures Filter(Filter(s, p), q) == Filter(s, both)
  {
    if s != [] {
      FilterThen(s[1..], p, q, both);
      var h := if p(s[0]) then [s[0]] else [];
      FilterAppend(h, Filter(s[1..], p), q);
      assert Filter(h, q) == if both(s[0]) then [s[0]] else [] by {
        if h != [] {
          assert h[1..] == [];
        }
      }
    }
  }

  /** a is obtained from b by deleting elements, keeping the order of the rest. */
  predicate IsSubsequence<T(==)>(a: seq<T>, b: seq<T>)
    decreases |b|
  {
    a == [] ||
    (b != [] && ((a[0] == b[0] && IsSubsequence(a[1..], b[1..])) || IsSubsequence(a, b[1..])))
  }

  lemma {:induction false} SubsequenceRefl<T>(s: seq<T>)
    ensures IsSubsequence(s, s)
  {
    if s != [] {
      SubsequenceRefl(s[1..]);
    }
  }

  lemma {:induction false} SubsequenceTrans<T>(a: seq<T>, b: seq<T>, c: seq<T>)
    requires IsSubsequence(a, b) && IsSubsequence(b, c)
    ensures IsSubsequence(a, c)
    decreases |c|
  {
    if a != [] {
      if IsSubsequence(b, c[1..]) {
        SubsequenceTrans(a, b, c[1..]);
      } else if a[0] == b[0] && IsSubsequence(a[1..], b[1..]) {
        SubsequenceTrans(a[1..], b[1..], c[1..]);
      } else {
        SubsequenceTrans(a, b[1..], c[1..]);
      }
    }
  }

  /** A filter keeps the survivors in their original order. */
  lemma {:induction false} FilterIsSubsequence<T>(s: seq<T>, p: T -> bool)
    ensures IsSubsequence(Filter(s, p), s)
  {
    if s != [] {
      FilterIsSubsequence(s[1..], p);
      var r := Filter(s, p);
      if p(s[0]) {
        assert r[0] == s[0] && r[1..] == Filter(s[1..], p);
      } else {
        assert r == Filter(s[1..], p);
      }
    }
  }

  /** `s.filter(p).length`. */
  function Count<T>(s: seq<T>, p: T -> bool): nat {
    |Filter(s, p)|
  }

  /** The count of a non-empty list: its head, then the rest. */
  lemma CountFirst<T>(s: seq<T>, p: T -> bool)
    requires s != []
    ensures Count(s, p) == (if p(s[0]) then 1 else 0) + Count(s[1..], p)
  {
  }

  /** Narrowing a subsequence of orig by p gives a subsequence of orig
      holding exactly the narrowed elements that pass p. */
  lemma Narrow<T>(prev: seq<T>, orig: seq<T>, p: T -> bool)
    requires IsSubsequence(prev, orig)
    ensures IsSubsequence(Filter(prev, p), orig)
    ensures forall x {:trigger x in Filter(prev, p)} :: x in Filter(prev, p) <==> x in prev && p(x)
  {
    FilterMembers(prev, p);
    FilterIsSubsequence(prev, p);
    SubsequenceTrans(Filter(prev, p), prev, orig);
  }

  lemma {:induction false} CountAppend<T>(a: seq<T>, b: seq<T>, p: T -> bool)
    ensures Count(a + b, p) == Count(a, p) + Count(b, p)
  {
    FilterAppend(a, b, p);
  }

  /** Index of the first element that passes, as `findIndex` computes it. */
  function FindIndex<T>(s: seq<T>, p: T -> bool): (r: Option<nat>)
    ensures r.Some? ==> r.value < |s| && p(s[r.value])
    ensures r.Some? ==> forall j :: 0 <= j < r.value ==> !p(s[j])
    ensures r.None? <==> forall j :: 0 <= j < |s| ==> !p(s[j])
  {
    if s == [] then None
    else if p(s[0]) then Some(0)
    else match FindIndex(s[1..], p)
      case None => None
      case Some(k) => Some(k + 1)
  }

  /** Two tests that agree on every element stop at the same place. */
  lemma {:induction false} FindIndexAgree<T>(s: seq<T>, p: T -> bool, q: T -> bool)
    requires forall i :: 0 <= i < |s| ==> p(s[i]) == q(s[i])
    ensures FindIndex(s, p) == FindIndex(s, q)
  {
    if s != [] {
      assert forall i :: 0 <= i < |s[1..]| ==> s[1..][i] == s[i + 1];
      FindIndexAgree(s[1..], p, q);
    }
  }

  /** Two sequences whose elements pass the test at the same places stop
      at the same place. */
  lemma {:induction false} FindIndexAlike<T>(a: seq<T>, b: seq<T>, p: T -> bool)
    requires |a| == |b|
    requires forall i :: 0 <= i < |a| ==> p(a[i]) == p(b[i])
    ensures FindIndex(a, p) == FindIndex(b, p)
  {
    if a != [] {
      assert forall i :: 0 <= i < |a[1..]| ==> a[1..][i] == a[i + 1] && b[1..][i] == b[i + 1];
      FindIndexAlike(a[1..], b[1..], p);
    }
  }

  /** An element appended that fails the test changes nothing. */
  lemma {:induction false} FindIndexAppendMiss<T>(a: seq<T>, x: T, p: T -> bool)
    requires !p(x)
    ensures FindIndex(a + [x], p) == FindIndex(a, p)
  {
    if a != [] {
      assert (a + [x])[0] == a[0] && (a + [x])[1..] == a[1..] + [x];
      FindIndexAppendMiss(a[1..], x, p);
    }
  }

  /** `s.find(p)`. */
  function Find<T>(s: seq<T>, p: T -> bool): (r: Option<T>)
    ensures r.Some? ==> r.value in s && p(r.value)
    ensures r.None? <==> forall j :: 0 <= j < |s| ==> !p(s[j])
  {
    match FindIndex(s, p)
    case None => None
    case Some(i) => Some(s[i])
  }

  /** `s.reduce((sum, x) => sum + f(x), 0)`. */
  function SumBy<T>(s: seq<T>, f: T -> int): int {
    if s == [] then 0 else f(s[0]) + SumBy(s[1..], f)
  }

  lemma {:induction false} SumByAppend<T>(a: seq<T>, b: seq<T>, f: T -> int)
    ensures SumBy(a + b, f) == SumBy(a, f) + SumBy(b, f)
  {
    if a == [] {
      assert a + b == b;
    } else {
      SumByAppend(a[1..], b, f);
      assert (a + b)[1..] == a[1..] + b;
    }
  }

  /** Dropping elements whose values are never negative can only lower
      the sum. */
  lemma {:induction false} SumBySubsequence<T>(a: seq<T>, b: seq<T>, f: T -> int)
    requires IsSubsequence(a, b)
    requires forall x :: x in b ==> f(x) >= 0
    ensures SumBy(a, f) <= SumBy(b, f)
    decreases |b|
  {
    if b != [] {
      assert forall x :: x in b[1..] ==> x in b;
      if a != [] && a[0] == b[0] && IsSubsequence(a[1..], b[1..]) {
        SumBySubsequence(a[1..], b[1..], f);
      } else {
        SumBySubsequence(a, b[1..], f);
      }
    }
  }

  function Reverse<T>(s: seq<T>): (r: seq<T>)
    ensures |r| == |s|
  {
    if s == [] then [] else [s[|s| - 1]] + Reverse(s[..|s| - 1])
  }

  /** Reversing puts element i at position |s| - 1 - i and keeps every element. */
  lemma {:induction false} ReverseSpec<T>(s: seq<T>)
    ensures forall i :: 0 <= i < |s| ==> Reverse(s)[i] == s[|s| - 1 - i]
    ensures multiset(Reverse(s)) == multiset(s)
  {
    if s != [] {
      ReverseSpec(s[..|s| - 1]);
      assert s == s[..|s| - 1] + [s[|s| - 1]];
    }
  }

  /** `s.slice(0, n)`. */
  function Take<T>(s: seq<T>, n: nat): (r: seq<T>)
    ensures |r| == if n < |s| then n else |s|
    ensures r == s[..|r|]
  {
    if n < |s| then s[..n] else s
  }

  ghost predicate SortedDesc<T>(s: seq<T>, key: T -> int) {
    forall i, j :: 0 <= i < j < |s| ==> key(s[i]) >= key(s[j])
  }

  /** Put x in front of the first element whose key is not larger, which
      keeps equal keys in their original relative order. */
  function InsertDesc<T>(x: T, s: seq<T>, key: T -> int): seq<T> {
    if s == [] || key(s[0]) <= key(x) then [x] + s else [s[0]] + InsertDesc(x, s[1..], key)
  }

  /** Inserting adds x and loses nothing. */
  lemma {:induction false} InsertDescPerm<T>(x: T, s: seq<T>, key: T -> int)
    ensures multiset(InsertDesc(x, s, key)) == multiset(s) + multiset{x}
  {
    if s != [] && key(s[0]) > key(x) {
      InsertDescPerm(x, s[1..], key);
      assert s == [s[0]] + s[1..];
    }
  }

  /** Inserting into a descending list keeps it descending. */
  lemma {:induction false} InsertDescSorted<T>(x: T, s: seq<T>, key: T -> int)
    requires SortedDesc(s, key)
    ensures SortedDesc(InsertDesc(x, s, key), key)
  {
    if s != [] && key(s[0]) > key(x) {
      var t := InsertDesc(x, s[1..], key);
      InsertDescSorted(x, s[1..], key);
      InsertDescPerm(x, s[1..], key);
      HeadAboveRest(x, s, t, key);
      var r := [s[0]] + t;
      assert r == InsertDesc(x, s, key);
      forall i, j | 0 <= i < j < |r| ensures key(r[i]) >= key(r[j]) {
        assert r[j] == t[j - 1];
        if i > 0 {
          assert r[i] == t[i - 1];
        }
      }
    }
  }

  /** The head of a descending list stays above the rest after x, which is
      below it, joins the rest. */
  lemma HeadAboveRest<T>(x: T, s: seq<T>, t: seq<T>, key: T -> int)
    requires s != [] && SortedDesc(s, key) && key(x) < key(s[0])
    requires multiset(t) == multiset(s[1..]) + multiset{x}
    ensures forall k :: 0 <= k < |t| ==> key(t[k]) <= key(s[0])
  {
    forall k | 0 <= k < |t| ensures key(t[k]) <= key(s[0]) {
      assert t[k] in multiset(t);
      if t[k] != x {
        assert t[k] in multiset(s[1..]);
        var m :| 0 <= m < |s[1..]| && s[1..][m] == t[k];
        assert s[m + 1] == t[k];
      }
    }
  }

  /** `s.sort((a, b) => key(b) - key(a))`: descending by key, and stable
      like every JavaScript sort since ES2019. */
  function SortDesc<T>(s: seq<T>, key: T -> int): seq<T> {
    if s == [] then [] else InsertDesc(s[0], SortDesc(s[1..], key), key)
  }

  /** The sort is a permutation of its input in descending key order. */
  lemma {:induction false} SortDescSpec<T>(s: seq<T>, key: T -> int)
    ensures multiset(SortDesc(s, key)) == multiset(s)
    ensures SortedDesc(SortDesc(s, key), key)
  {
    if s != [] {
      SortDescSpec(s[1..], key);
      InsertDescPerm(s[0], SortDesc(s[1..], key), key);
      InsertDescSorted(s[0], SortDesc(s[1..], key), key);
      assert s == [s[0]] + s[1..];
    }
  }

  /** Sorting an already sorted list leaves it unchanged, stability included. */
  lemma {:induction false} SortDescOfSorted<T>(s: seq<T>, key: T -> int)
    requires SortedDesc(s, key)
    ensures SortDesc(s, key) == s
  {
    if s != [] {
      SortDescOfSorted(s[1..], key);
      assert SortDesc(s[1..], key) == s[1..];
    }
  }

  /** `xs.reduce((acc, x) => { acc[key(x)] = (acc[key(x)] || 0) + 1; ... }, {})`:
      a count per key, with a key present only once some element has it. */
  function Tally<T, K(==)>(xs: seq<T>, key: T -> K): map<K, nat>
    decreases |xs|
  {
    if xs == [] then map[]
    else
      var acc := Tally(xs[..|xs| - 1], key);
      var k := key(xs[|xs| - 1]);
      acc[k := (if k in acc then acc[k] else 0) + 1]
  }

  /** A tally's entry for k, with an absent key read as zero. */
  function TallyOf<K>(m: map<K, nat>, k: K): nat {
    if k in m then m[k] else 0
  }

  function KeyIs<T, K(==)>(key: T -> K, k: K): T -> bool { x => key(x) == k }

  /** The tally for k is the number of elements whose key is k, and k is a
      key of the tally exactly when that number is not zero. */
  lemma {:induction false} TallyCounts<T, K>(xs: seq<T>, key: T -> K, k: K)
    ensures TallyOf(Tally(xs, key), k) == Count(xs, KeyIs(key, k))
    ensures k in Tally(xs, key) <==> Count(xs, KeyIs(key, k)) > 0
    decreases |xs|
  {
    if xs != [] {
      var front, last := xs[..|xs| - 1], xs[|xs| - 1];
      TallyCounts(front, key, k);
      FrontAndLast(xs);
      CountAppend(front, [last], KeyIs(key, k));
      assert Filter([last], KeyIs(key, k)) == (if key(last) == k then [last] else []);
    }
  }

  /** Sums and counts do not depend on the order of the elements. */
  /** A permutation of a non-empty sequence holds its first element
      somewhere; around it lies a permutation of the rest. */
  lemma TakeOut<T>(s: seq<T>, t: seq<T>) returns (before: seq<T>, after: seq<T>)
    requires s != [] && multiset(s) == multiset(t)
    ensures t == before + ([s[0]] + after)
    ensures multiset(s[1..]) == multiset(before + after)
  {
    assert s[0] in multiset(t);
    var i :| 0 <= i < |t| && t[i] == s[0];
    before, after := t[..i], t[i + 1..];
    assert t == before + ([t[i]] + after);
    assert s == [s[0]] + s[1..];
    assert multiset(t) == multiset(before) + multiset{t[i]} + multiset(after);
    assert multiset(s) == multiset{s[0]} + multiset(s[1..]);
    assert multiset(s[1..]) == multiset(s) - multiset{s[0]};
    assert multiset(before + after) == multiset(before) + multiset(after) == multiset(t) - multiset{t[i]};
  }

  lemma {:induction false} SumByPermutation<T>(s: seq<T>, t: seq<T>, f: T -> int)
    requires multiset(s) == multiset(t)
    ensures SumBy(s, f) == SumBy(t, f)
    decreases |s|
  {
    if s == [] {
      assert |t| == |multiset(t)| == 0;
    } else {
      var before, after := TakeOut(s, t);
      SumByPermutation(s[1..], before + after, f);
      SumByAppend(before, [s[0]] + after, f);
      SumByAppend(before, after, f);
      assert ([s[0]] + after)[1..] == after;
    }
  }

  lemma {:induction false} CountPermutation<T>(s: seq<T>, t: seq<T>, p: T -> bool)
    requires multiset(s) == multiset(t)
    ensures Count(s, p) == Count(t, p)
    decreases |s|
  {
    if s == [] {
      assert |t| == |multiset(t)| == 0;
    } else {
      var before, after := TakeOut(s, t);
      CountPermutation(s[1..], before + after, p);
      CountAppend(before, [s[0]] + after, p);
      CountAppend(before, after, p);
      CountFirst([s[0]] + after, p);
      CountFirst(s, p);
      assert ([s[0]] + after)[1..] == after;
    }
  }

  /** `s.sort(byKeyDescending).slice(0, n)`: the n elements with the largest
      keys (all of s when it is shorter), largest first, and no element left
      out has a larger key than one kept. */
  lemma TopByKey<T>(s: seq<T>, key: T -> int, n: nat)
    ensures |Take(SortDesc(s, key), n)| == if n < |s| then n else |s|
    ensures SortedDesc(Take(SortDesc(s, key), n), key)
    ensures multiset(Take(SortDesc(s, key), n)) <= multiset(s)
    ensures forall x, y :: x in Take(SortDesc(s, key), n) && y in multiset(s) - multiset(Take(SortDesc(s, key), n))
              ==> key(y) <= key(x)
  {
    SortDescSpec(s, key);
    PrefixOfSorted(s, SortDesc(s, key), Take(SortDesc(s, key), n), key);
  }

  /** A prefix of a descending rearrangement of s. */
  lemma PrefixOfSorted<T>(s: seq<T>, t: seq<T>, r: seq<T>, key: T -> int)
    requires multiset(t) == multiset(s) && SortedDesc(t, key)
    requires |r| <= |t| && r == t[..|r|]
    ensures SortedDesc(r, key)
    ensures multiset(r) <= multiset(s)
    ensures forall x, y :: x in r && y in multiset(s) - multiset(r) ==> key(y) <= key(x)
  {
    assert t == r + t[|r|..];
    assert multiset(t) == multiset(r) + multiset(t[|r|..]);
    assert multiset(s) - multiset(r) == multiset(t[|r|..]);
    SortedSplit(t, |r|, key);
  }

  /** In a descending list, nothing after position m is above anything before it. */
  lemma SortedSplit<T>(t: seq<T>, m: nat, key: T -> int)
    requires SortedDesc(t, key) && m <= |t|
    ensures forall x, y :: x in t[..m] && y in multiset(t[m..]) ==> key(y) <= key(x)
  {
    forall x, y | x in t[..m] && y in multiset(t[m..]) ensures key(y) <= key(x) {
      var i :| 0 <= i < m && t[i] == x;
      var j :| 0 <= j < |t[m..]| && t[m..][j] == y;
      assert t[m + j] == y;
    }
  }
}
