/** Generic operations over a table held as a sequence of rows: the lookups,
    filters, orderings and limits that the handlers ask the query layer for. */
module Tables {
  import opened Wrappers

  /** A sort key: compared lexicographically, first component first. */
  type Key = (int, int)

  predicate KeyLe(a: Key, b: Key) {
    a.0 < b.0 || (a.0 == b.0 && a.1 <= b.1)
  }

  /** Every earlier row has a key no greater than every later row. */
  ghost predicate SortedBy<T>(s: seq<T>, key: T -> Key) {
    forall i, j :: 0 <= i < j < |s| ==> KeyLe(key(s[i]), key(s[j]))
  }

  /** Index of the first row satisfying `p` (the first row a `WHERE` select returns). */
  function IndexWhere<T>(s: seq<T>, p: T -> bool): (r: Option<nat>)
    ensures r.None? <==> forall i :: 0 <= i < |s| ==> !p(s[i])
    ensures r.Some? ==> r.value < |s| && p(s[r.value])
    ensures r.Some? ==> forall i :: 0 <= i < r.value ==> !p(s[i])
  {
    if s == [] then None
    else if p(s[0]) then Some(0)
    else match IndexWhere(s[1..], p)
      case None => None
      case Some(k) => Some(k + 1)
  }

  /** The rows satisfying `p`, in stored order (`SELECT ... WHERE p`). */
  function Filter<T>(s: seq<T>, p: T -> bool): (r: seq<T>)
    ensures |r| <= |s|
    ensures forall i :: 0 <= i < |r| ==> p(r[i])
    ensures forall i :: 0 <= i < |s| && p(s[i]) ==> s[i] in r
    ensures forall x :: x in r ==> x in s
    ensures multiset(r) <= multiset(s)
  {
    if s == [] then []
    else
      assert s == [s[0]] + s[1..];
      if p(s[0]) then [s[0]] + Filter(s[1..], p)
      else Filter(s[1..], p)
  }

  /** Filtering a concatenation filters each part and keeps them in order:
      the filter never reorders rows. */
  lemma {:induction false} FilterAppend<T>(a: seq<T>, b: seq<T>, p: T -> bool)
    ensures Filter(a + b, p) == Filter(a, p) + Filter(b, p)
  {
    if a == [] {
      assert a + b == b;
    } else {
      assert (a + b)[1..] == a[1..] + b;
      FilterAppend(a[1..], b, p);
    }
  }

  /** Number of rows satisfying `p`. */
  function Count<T>(s: seq<T>, p: T -> bool): (n: nat)
    ensures n <= |s|
    ensures n == |Filter(s, p)|
  {
    if s == [] then 0
    else (if p(s[0]) then 1 else 0) + Count(s[1..], p)
  }

  function Min(a: int, b: int): int { if a <= b then a else b }

  /** The first `n` rows (`LIMIT n`). */
  function Take<T>(s: seq<T>, n: nat): (r: seq<T>)
    ensures |r| == Min(n, |s|)
    ensures r == s[..|r|]
    ensures n >= |s| ==> r == s
    ensures multiset(r) <= multiset(s)
  {
    if n <= |s| then
      assert s == s[..n] + s[n..];
      s[..n]
    else s
  }

  /** Puts `x` in front of the first row whose key is at least `x`'s, so
      that `SortBy`, which inserts earlier rows last, keeps equal keys in
      their stored order. */
  function Insert<T>(x: T, s: seq<T>, key: T -> Key): (r: seq<T>)
    requires SortedBy(s, key)
    ensures |r| == |s| + 1
    ensures multiset(r) == multiset(s) + multiset{x}
    ensures SortedBy(r, key)
  {
    if s == [] then [x]
    else if KeyLe(key(x), key(s[0])) then [x] + s
    else
      var t := Insert(x, s[1..], key);
      assert forall i :: 0 <= i < |t| ==> KeyLe(key(s[0]), key(t[i])) by {
        forall i | 0 <= i < |t| ensures KeyLe(key(s[0]), key(t[i])) {
          assert t[i] in multiset(s[1..]) + multiset{x};
          if t[i] != x {
            assert t[i] in s[1..];
          }
        }
      }
      assert s == [s[0]] + s[1..];
      [s[0]] + t
  }

  /** `ORDER BY key`: a stable insertion sort. */
  function SortBy<T>(s: seq<T>, key: T -> Key): (r: seq<T>)
    ensures |r| == |s|
    ensures multiset(r) == multiset(s)
    ensures SortedBy(r, key)
  {
    if s == [] then []
    else
      assert s == [s[0]] + s[1..];
      Insert(s[0], SortBy(s[1..], key), key)
  }

  /** `ORDER BY RANDOM()`: the row at `picks[0] % |s|` goes first, then the
      rest is shuffled with the remaining picks. The random source is the
      parameter `picks`; when it runs out, rows keep their stored order. */
  function Shuffle<T>(s: seq<T>, picks: seq<nat>): (r: seq<T>)
    ensures |r| == |s|
    ensures multiset(r) == multiset(s)
    decreases |s|
  {
    if s == [] then []
    else
      var i := if picks == [] then 0 else picks[0] % |s|;
      var rest := if picks == [] then [] else picks[1..];
      assert s == s[..i] + [s[i]] + s[i + 1..];
      [s[i]] + Shuffle(s[..i] + s[i + 1..], rest)
  }

  /** A row picked from `s` (up to multiplicity) keeps every property all of
      `s`'s rows have. */
  lemma SubMultisetKeeps<T>(r: seq<T>, s: seq<T>, p: T -> bool)
    requires multiset(r) <= multiset(s)
    requires forall i :: 0 <= i < |s| ==> p(s[i])
    ensures forall i :: 0 <= i < |r| ==> p(r[i])
  {
    forall i | 0 <= i < |r| ensures p(r[i]) {
      assert r[i] in multiset(r);
      assert r[i] in s;
    }
  }

  /** No two rows have the same id. */
  ghost predicate DistinctIds<T>(s: seq<T>, id: T -> int) {
    forall i, j :: 0 <= i < j < |s| ==> id(s[i]) != id(s[j])
  }

  /** With distinct ids, each row occurs at most once. */
  lemma {:induction false} DistinctIdsOccurOnce<T>(s: seq<T>, id: T -> int, x: T)
    requires DistinctIds(s, id)
    ensures multiset(s)[x] <= 1
  {
    if s != [] {
      var rest := s[1..];
      assert s == [s[0]] + rest;
      DistinctIdsOccurOnce(rest, id, x);
      if s[0] == x {
        assert x !in rest;
      }
    }
  }

  /** Picking rows from a table with distinct ids never picks one twice. */
  lemma SubMultisetOfDistinct<T>(r: seq<T>, s: seq<T>, id: T -> int)
    requires multiset(r) <= multiset(s)
    requires DistinctIds(s, id)
    ensures forall i, j :: 0 <= i < j < |r| ==> r[i] != r[j]
  {
    forall i, j | 0 <= i < j < |r| ensures r[i] != r[j] {
      if r[i] == r[j] {
        RepeatCountsTwice(r, i, j);
        DistinctIdsOccurOnce(s, id, r[i]);
        assert false;
      }
    }
  }

  /** A value found at two positions occurs at least twice. */
  lemma RepeatCountsTwice<T>(r: seq<T>, i: nat, j: nat)
    requires i < j < |r| && r[i] == r[j]
    ensures multiset(r)[r[i]] >= 2
  {
    assert r == r[..j] + r[j..];
    assert r[..j][i] == r[i];
    assert r[j..][0] == r[j];
  }

  /** Nothing outside the first `k` rows of a sorted sequence sorts strictly
      before a row inside them. */
  lemma SortedPrefixIsSmallest<T>(s: seq<T>, key: T -> Key, k: nat, i: nat, j: nat)
    requires SortedBy(s, key)
    requires i < k <= j < |s|
    ensures KeyLe(key(s[i]), key(s[j]))
  {
  }
}
