/** Sequence helpers: `Array.prototype.filter`, reversal, `.limit(n)`, and
    the orderings used by the "sort by createdAt, newest first" queries. */
module Seqs {

  /** The reverse of a sequence. */
  function Reverse<T>(s: seq<T>): (r: seq<T>)
    ensures |r| == |s|
    ensures forall i | 0 <= i < |s| :: r[i] == s[|s| - 1 - i]
  {
    if s == [] then [] else Reverse(s[1..]) + [s[0]]
  }

  /** No element occurs twice. */
  predicate Unique<T(==)>(s: seq<T>) {
    forall i, j | 0 <= i < j < |s| :: s[i] != s[j]
  }

  function Min(a: nat, b: nat): nat {
    if a <= b then a else b
  }

  /** `.limit(n)` / `.slice(0, n)`: the first n elements, or all of them when
      there are fewer. */
  function Take<T>(s: seq<T>, n: nat): (r: seq<T>)
    ensures |r| == Min(n, |s|) && r == s[..|r|]
  {
    s[..Min(n, |s|)]
  }

  /** `s.filter(keep)`. */
  function Filter<T>(s: seq<T>, keep: T -> bool): (r: seq<T>)
    ensures |r| <= |s|
    ensures forall i | 0 <= i < |r| :: r[i] in s && keep(r[i])
    ensures forall i | 0 <= i < |s| && keep(s[i]) :: s[i] in r
  {
    if s == [] then []
    else if keep(s[0]) then [s[0]] + Filter(s[1..], keep)
    else Filter(s[1..], keep)
  }

  /** Filtering works element by element, so it keeps the original order:
      filtering a concatenation concatenates the filtered parts. */
  lemma {:induction false} FilterAppend<T>(s: seq<T>, t: seq<T>, keep: T -> bool)
    ensures Filter(s + t, keep) == Filter(s, keep) + Filter(t, keep)
  {
    if s == [] {
      assert s + t == t;
    } else {
      assert (s + t)[1..] == s[1..] + t;
      FilterAppend(s[1..], t, keep);
    }
  }

  /** A filter that keeps everything is the identity. */
  lemma {:induction false} FilterAll<T>(s: seq<T>, keep: T -> bool)
    requires forall i | 0 <= i < |s| :: keep(s[i])
    ensures Filter(s, keep) == s
  {
    if s != [] {
      FilterAll(s[1..], keep);
    }
  }

  predicate Ascending<T>(s: seq<T>, key: T -> int) {
    forall i, j | 0 <= i < j < |s| :: key(s[i]) < key(s[j])
  }

  predicate Descending<T>(s: seq<T>, key: T -> int) {
    forall i, j | 0 <= i < j < |s| :: key(s[i]) > key(s[j])
  }

  /** A filter of a sorted sequence is sorted. */
  lemma {:induction false} FilterAscending<T>(s: seq<T>, keep: T -> bool, key: T -> int)
    requires Ascending(s, key)
    ensures Ascending(Filter(s, keep), key)
  {
    if s != [] {
      var tail := s[1..];
      var rest := Filter(tail, keep);
      FilterAscending(tail, keep, key);
      if keep(s[0]) {
        forall j | 0 <= j < |rest| ensures key(s[0]) < key(rest[j]) {
          var k :| 0 <= k < |tail| && tail[k] == rest[j];
          assert s[k + 1] == rest[j];
        }
        var r := [s[0]] + rest;
        forall i, j | 0 <= i < j < |r| ensures key(r[i]) < key(r[j]) {
          assert r[j] == rest[j - 1];
          if i > 0 {
            assert r[i] == rest[i - 1];
          }
        }
      }
    }
  }

  /** Reversing an oldest-first sequence gives it newest first. */
  lemma ReverseAscending<T>(s: seq<T>, key: T -> int)
    requires Ascending(s, key)
    ensures Descending(Reverse(s), key)
  {
    var r := Reverse(s);
    forall i, j | 0 <= i < j < |r| ensures key(r[i]) > key(r[j]) {
      assert r[i] == s[|s| - 1 - i] && r[j] == s[|s| - 1 - j];
    }
  }

  /** Filtering an oldest-first sequence and reversing the result keeps
      exactly the elements that pass, newest first. */
  lemma ReverseFilterSpec<T>(s: seq<T>, keep: T -> bool, key: T -> int)
    requires Ascending(s, key)
    ensures forall x :: x in Reverse(Filter(s, keep)) <==> x in s && keep(x)
    ensures Descending(Reverse(Filter(s, keep)), key)
  {
    var f := Filter(s, keep);
    var r := Reverse(f);
    FilterAscending(s, keep, key);
    ReverseAscending(f, key);
    forall x ensures x in r <==> x in s && keep(x) {
      if x in r {
        var i :| 0 <= i < |r| && r[i] == x;
        assert r[i] == f[|f| - 1 - i];
      }
      if x in s && keep(x) {
        var j :| 0 <= j < |s| && s[j] == x;
        var k :| 0 <= k < |f| && f[k] == x;
        assert r[|f| - 1 - k] == x;
      }
    }
  }

  /** A prefix of a sorted sequence is sorted. */
  lemma TakeDescending<T>(s: seq<T>, n: nat, key: T -> int)
    requires Descending(s, key)
    ensures Descending(Take(s, n), key)
  {
  }

  /** A filter that rejects exactly one position drops that position. */
  lemma {:induction false} FilterSkip<T>(s: seq<T>, i: nat, keep: T -> bool)
    requires i < |s| && !keep(s[i])
    requires forall j | 0 <= j < |s| && j != i :: keep(s[j])
    ensures Filter(s, keep) == s[..i] + s[i + 1..]
  {
    if i == 0 {
      FilterAll(s[1..], keep);
    } else {
      FilterSkip(s[1..], i - 1, keep);
      assert s[1..][..i - 1] == s[1..i];
      assert s[1..][i..] == s[i + 1..];
      assert s[..i] == [s[0]] + s[1..i];
    }
  }
}
