/** Ordered query results: filtering, taking the first match, and stable sorting by an ordering. */
module Sequences {
  import opened Options

  lemma SplitLast<T>(s: seq<T>)
    requires s != []
    ensures s == s[..|s| - 1] + [s[|s| - 1]]
  {
  }

  lemma TakeOneMore<T>(s: seq<T>, i: nat)
    requires i < |s|
    ensures s[..i + 1] == s[..i] + [s[i]]
  {
  }

  lemma {:induction false} ChainOfPrefixes<T>(chain: seq<seq<T>>, i: nat, j: nat)
    requires i <= j < |chain| && forall k: nat :: k + 1 < |chain| ==> chain[k] <= chain[k + 1]
    ensures chain[i] <= chain[j]
  {
    if i < j {
      ChainOfPrefixes(chain, i, j - 1);
      assert chain[j - 1] <= chain[j - 1 + 1];
    }
  }

  lemma WithoutLast<T>(s: seq<T>)
    requires s != []
    ensures multiset(s[..|s| - 1]) == multiset(s) - multiset{s[|s| - 1]}
  {
    SplitLast(s);
  }

  function Filter<T(!new)>(s: seq<T>, keep: T -> bool): (r: seq<T>)
    ensures forall x :: x in r <==> x in s && keep(x)
  {
    if s == [] then []
    else
      var rest := Filter(s[..|s| - 1], keep);
      var last := s[|s| - 1];
      assert s == s[..|s| - 1] + [last];
      if keep(last) then rest + [last] else rest
  }

  /** `next((x for x in s if p(x)), None)`. */
  function FirstWhere<T(!new)>(s: seq<T>, p: T -> bool): (r: Option<T>)
    ensures r.None? ==> forall x :: x in s ==> !p(x)
    ensures r.Some? ==> exists k :: 0 <= k < |s| && s[k] == r.value && p(s[k]) && forall j :: 0 <= j < k ==> !p(s[j])
  {
    if s == [] then None
    else if p(s[0]) then Some(s[0])
    else
      var r := FirstWhere(s[1..], p);
      assert r.Some? ==> exists k :: 0 < k < |s| && s[k] == r.value && p(s[k]) && forall j :: 0 <= j < k ==> !p(s[j]) by {
        if r.Some? {
          var k :| 0 <= k < |s| - 1 && s[1..][k] == r.value && p(s[1..][k]) && forall j :: 0 <= j < k ==> !p(s[1..][j]);
          assert forall j :: 0 < j < k + 1 ==> s[j] == s[1..][j - 1];
          assert s[k + 1] == r.value;
        }
      }
      r
  }

  lemma FirstWhereOfSnoc<T(!new)>(s: seq<T>, x: T, p: T -> bool)
    ensures FirstWhere(s + [x], p) == if FirstWhere(s, p).Some? then FirstWhere(s, p) else if p(x) then Some(x) else None
  {
    if s != [] {
      assert (s + [x])[1..] == s[1..] + [x];
    }
  }

  ghost predicate TotalPreorder<T(!new)>(le: (T, T) -> bool) {
    && (forall x, y :: le(x, y) || le(y, x))
    && (forall x, y, z :: le(x, y) && le(y, z) ==> le(x, z))
  }

  ghost predicate Sorted<T>(s: seq<T>, le: (T, T) -> bool) {
    forall i, j :: 0 <= i < j < |s| ==> le(s[i], s[j])
  }

  /** Puts `x` after every element that is not greater. */
  function InsertLast<T>(s: seq<T>, x: T, le: (T, T) -> bool): seq<T> {
    if s == [] || le(s[|s| - 1], x) then s + [x]
    else InsertLast(s[..|s| - 1], x, le) + [s[|s| - 1]]
  }

  /** Python's `sorted`, and SQL's ORDER BY: equal elements keep their order. */
  function Sort<T>(s: seq<T>, le: (T, T) -> bool): seq<T> {
    if s == [] then [] else InsertLast(Sort(s[..|s| - 1], le), s[|s| - 1], le)
  }

  lemma {:induction false} InsertLastAt<T(!new)>(s: seq<T>, x: T, le: (T, T) -> bool) returns (at: nat)
    requires TotalPreorder(le) && Sorted(s, le)
    ensures at <= |s| && InsertLast(s, x, le) == s[..at] + [x] + s[at..]
    ensures forall i :: 0 <= i < at ==> le(s[i], x)
    ensures forall i :: at <= i < |s| ==> !le(s[i], x)
    decreases |s|
  {
    if s == [] || le(s[|s| - 1], x) {
      at := |s|;
    } else {
      var front := s[..|s| - 1];
      at := InsertLastAt(front, x, le);
      assert s == front + [s[|s| - 1]];
      assert front[..at] + [x] + front[at..] + [s[|s| - 1]] == s[..at] + [x] + s[at..];
    }
  }

  /** `idx` lists the positions of `s` in the order in which `Sort` puts them. */
  ghost predicate SortsBy<T>(s: seq<T>, le: (T, T) -> bool, r: seq<T>, idx: seq<nat>) {
    && |idx| == |s| == |r|
    && (forall k :: 0 <= k < |idx| ==> idx[k] < |s| && r[k] == s[idx[k]])
    && (forall i :: 0 <= i < |s| ==> i in idx)
    && (forall k, l :: 0 <= k < l < |idx| ==> idx[k] != idx[l] && le(r[k], r[l]) && (le(r[l], r[k]) ==> idx[k] < idx[l]))
  }

  /** `r'` is `r` with `x` put in at position `at`. */
  ghost predicate Splice<T>(r: seq<T>, x: T, at: nat, r': seq<T>) {
    && at <= |r| && |r'| == |r| + 1 && r'[at] == x
    && (forall k :: 0 <= k < at ==> r'[k] == r[k])
    && (forall k :: at < k < |r'| ==> r'[k] == r[k - 1])
  }

  lemma SpliceOf<T>(r: seq<T>, x: T, at: nat)
    requires at <= |r|
    ensures Splice(r, x, at, r[..at] + [x] + r[at..])
  {
  }

  lemma SpliceKeeps<T>(r: seq<T>, x: T, at: nat, r': seq<T>, y: T)
    requires Splice(r, x, at, r')
    ensures y in r' <==> y in r || y == x
  {
    if y in r {
      var k :| 0 <= k < |r| && r[k] == y;
      assert r'[if k < at then k else k + 1] == y;
    }
  }

  lemma SplicedPair<T(!new)>(s: seq<T>, x: T, le: (T, T) -> bool, r: seq<T>, idx: seq<nat>, at: nat, r': seq<T>, idx': seq<nat>, k: nat, l: nat)
    requires TotalPreorder(le) && SortsBy(s, le, r, idx) && Splice(r, x, at, r') && Splice(idx, |s|, at, idx')
    requires forall i :: 0 <= i < at ==> le(r[i], x)
    requires forall i :: at <= i < |r| ==> !le(r[i], x)
    requires k < l < |idx'|
    ensures idx'[k] != idx'[l] && le(r'[k], r'[l]) && (le(r'[l], r'[k]) ==> idx'[k] < idx'[l])
  {
    var i, j := if k < at then k else k - 1, if l < at then l else l - 1;
    if k != at && l != at {
      assert idx[i] != idx[j] && le(r[i], r[j]);
    }
  }

  lemma SortsByInsert<T(!new)>(s: seq<T>, x: T, le: (T, T) -> bool, r: seq<T>, idx: seq<nat>, at: nat,
                               s': seq<T>, r': seq<T>, idx': seq<nat>)
    requires TotalPreorder(le) && SortsBy(s, le, r, idx) && Splice(r, x, at, r') && Splice(idx, |s|, at, idx')
    requires forall i :: 0 <= i < at ==> le(r[i], x)
    requires forall i :: at <= i < |r| ==> !le(r[i], x)
    requires s' == s + [x]
    ensures SortsBy(s', le, r', idx')
  {
    forall i: nat | i < |s'|
      ensures i in idx'
    {
      SpliceKeeps(idx, |s|, at, idx', i);
    }
    forall k: nat, l: nat | k < l < |idx'|
      ensures idx'[k] != idx'[l] && le(r'[k], r'[l]) && (le(r'[l], r'[k]) ==> idx'[k] < idx'[l])
    {
      SplicedPair(s, x, le, r, idx, at, r', idx', k, l);
    }
  }

  lemma {:induction false} SortIndices<T(!new)>(s: seq<T>, le: (T, T) -> bool) returns (idx: seq<nat>)
    requires TotalPreorder(le)
    ensures SortsBy(s, le, Sort(s, le), idx)
    decreases |s|
  {
    if s == [] {
      idx := [];
    } else {
      var n := |s| - 1;
      var before := SortIndices(s[..n], le);
      var at := InsertLastAt(Sort(s[..n], le), s[n], le);
      idx := before[..at] + [n] + before[at..];
      SpliceOf(before, n, at);
      SpliceOf(Sort(s[..n], le), s[n], at);
      SplitLast(s);
      SortsByInsert(s[..n], s[n], le, Sort(s[..n], le), before, at, s, Sort(s, le), idx);
    }
  }

  /** The sorted list is ordered and holds the same elements. */
  lemma SortSorts<T(!new)>(s: seq<T>, le: (T, T) -> bool)
    requires TotalPreorder(le)
    ensures Sorted(Sort(s, le), le)
    ensures |Sort(s, le)| == |s|
    ensures forall x :: x in Sort(s, le) <==> x in s
  {
    var idx := SortIndices(s, le);
    forall x | x in s
      ensures x in Sort(s, le)
    {
      var i: nat :| i < |s| && s[i] == x;
      assert i in idx;
      var k :| 0 <= k < |idx| && idx[k] == i;
      assert Sort(s, le)[k] == x;
    }
  }

  lemma {:induction false} InsertLastKeepsAll<T>(s: seq<T>, x: T, le: (T, T) -> bool)
    ensures multiset(InsertLast(s, x, le)) == multiset(s) + multiset{x}
    decreases |s|
  {
    if s != [] && !le(s[|s| - 1], x) {
      InsertLastKeepsAll(s[..|s| - 1], x, le);
      SplitLast(s);
    }
  }

  lemma {:induction false} SortIsPermutation<T>(s: seq<T>, le: (T, T) -> bool)
    ensures multiset(Sort(s, le)) == multiset(s)
    decreases |s|
  {
    if s != [] {
      SortIsPermutation(s[..|s| - 1], le);
      InsertLastKeepsAll(Sort(s[..|s| - 1], le), s[|s| - 1], le);
      SplitLast(s);
    }
  }

  /** Lexicographic order on strings, as Python compares them. */
  predicate StringLe(a: string, b: string) {
    a == [] || (b != [] && (a[0] < b[0] || (a[0] == b[0] && StringLe(a[1..], b[1..]))))
  }

  lemma {:induction false} StringLeTotal(a: string, b: string)
    ensures StringLe(a, b) || StringLe(b, a)
    ensures StringLe(a, b) && StringLe(b, a) ==> a == b
  {
    if a != [] && b != [] && a[0] == b[0] {
      StringLeTotal(a[1..], b[1..]);
      assert a == [a[0]] + a[1..] && b == [b[0]] + b[1..];
    }
  }

  lemma {:induction false} StringLeTransitive(a: string, b: string, c: string)
    requires StringLe(a, b) && StringLe(b, c)
    ensures StringLe(a, c)
  {
    if a != [] && b[0] == a[0] && c[0] == b[0] {
      StringLeTransitive(a[1..], b[1..], c[1..]);
    }
  }
}
