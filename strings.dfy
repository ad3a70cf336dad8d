/** String helpers shared by the server and the client models: the small
    subset of JavaScript's String methods the modelled code calls.
    Case mapping and whitespace are ASCII-only. */
module Strings {

  datatype Option<+T> = None | Some(value: T)

  /** JavaScript truthiness of an optional string (a request field, a
      storage entry): absent and "" are falsy. */
  predicate Truthy(v: Option<string>) {
    v.Some? && v.value != ""
  }

  // ---------------------------------------------------------------------------
  // Case mapping (String.prototype.toLowerCase / toUpperCase, ASCII range)

  predicate IsUpper(c: char) { 'A' <= c <= 'Z' }
  predicate IsLower(c: char) { 'a' <= c <= 'z' }

  function LowerChar(c: char): char {
    if IsUpper(c) then (c as int + 32) as char else c
  }

  function UpperChar(c: char): char {
    if IsLower(c) then (c as int - 32) as char else c
  }

  function Lower(s: string): (r: string)
    ensures |r| == |s|
    ensures forall i :: 0 <= i < |s| ==> r[i] == LowerChar(s[i])
  {
    if s == [] then [] else [LowerChar(s[0])] + Lower(s[1..])
  }

  function Upper(s: string): (r: string)
    ensures |r| == |s|
    ensures forall i :: 0 <= i < |s| ==> r[i] == UpperChar(s[i])
  {
    if s == [] then [] else [UpperChar(s[0])] + Upper(s[1..])
  }

  /** Lower-casing twice is lower-casing once. */
  lemma LowerIdempotent(s: string)
    ensures Lower(Lower(s)) == Lower(s)
  {
    assert forall i :: 0 <= i < |s| ==> Lower(Lower(s))[i] == Lower(s)[i];
  }

  // ---------------------------------------------------------------------------
  // Whitespace trimming (String.prototype.trim, ASCII whitespace)

  predicate IsSpace(c: char) {
    c == ' ' || c == '\t' || c == '\n' || c == '\r' || c == '\U{B}' || c == '\U{C}'
  }

  function TrimStart(s: string): (r: string)
    ensures |r| <= |s| && r == s[|s| - |r|..]
    ensures r == [] || !IsSpace(r[0])
    ensures forall i :: 0 <= i < |s| - |r| ==> IsSpace(s[i])
  {
    if |s| > 0 && IsSpace(s[0]) then TrimStart(s[1..]) else s
  }

  function TrimEnd(s: string): (r: string)
    ensures |r| <= |s| && r == s[..|r|]
    ensures r == [] || !IsSpace(r[|r| - 1])
    ensures forall i :: |r| <= i < |s| ==> IsSpace(s[i])
  {
    if |s| > 0 && IsSpace(s[|s| - 1]) then TrimEnd(s[..|s| - 1]) else s
  }

  function Trim(s: string): string {
    TrimEnd(TrimStart(s))
  }

  /** Where the trimmed text starts in the original string. */
  function TrimOffset(s: string): nat {
    |s| - |TrimStart(s)|
  }

  /** A prefix `r` of a suffix `t` of `s`, with only whitespace cut off on
      either side, is the slice of `s` at `|s| - |t|`. */
  lemma MiddleSlice(s: string, t: string, r: string)
    requires |t| <= |s| && t == s[|s| - |t|..]
    requires forall i :: 0 <= i < |s| - |t| ==> IsSpace(s[i])
    requires |r| <= |t| && r == t[..|r|]
    requires forall i :: |r| <= i < |t| ==> IsSpace(t[i])
    ensures s[|s| - |t|..|s| - |t| + |r|] == r
    ensures forall i :: |s| - |t| + |r| <= i < |s| ==> IsSpace(s[i])
  {
    var k := |s| - |t|;
    forall i | k + |r| <= i < |s|
      ensures IsSpace(s[i])
    {
      assert s[i] == t[i - k];
    }
  }

  /** What trim removes is whitespace, and what it keeps is the middle of the
      string, neither starting nor ending with whitespace. */
  lemma TrimSpec(s: string)
    ensures TrimOffset(s) + |Trim(s)| <= |s|
    ensures s[TrimOffset(s)..TrimOffset(s) + |Trim(s)|] == Trim(s)
    ensures Trim(s) == [] || (!IsSpace(Trim(s)[0]) && !IsSpace(Trim(s)[|Trim(s)| - 1]))
    ensures forall i :: 0 <= i < TrimOffset(s) ==> IsSpace(s[i])
    ensures forall i :: TrimOffset(s) + |Trim(s)| <= i < |s| ==> IsSpace(s[i])
  {
    var t := TrimStart(s);
    var r := TrimEnd(t);
    MiddleSlice(s, t, r);
    if r != [] {
      assert r[0] == t[0];
    }
  }

  lemma TrimStartNoSpace(s: string)
    requires s == [] || !IsSpace(s[0])
    ensures TrimStart(s) == s
  {
  }

  lemma TrimEndNoSpace(s: string)
    requires s == [] || !IsSpace(s[|s| - 1])
    ensures TrimEnd(s) == s
  {
  }

  /** Trimming twice is trimming once. */
  lemma TrimIdempotent(s: string)
    ensures Trim(Trim(s)) == Trim(s)
  {
    var r := Trim(s);
    TrimSpec(s);
    TrimStartNoSpace(r);
    TrimEndNoSpace(r);
  }

  lemma LowerCharSpace(c: char)
    ensures IsSpace(LowerChar(c)) == IsSpace(c)
  {
  }

  lemma {:induction false} TrimStartLower(s: string)
    ensures TrimStart(Lower(s)) == Lower(TrimStart(s))
    decreases |s|
  {
    if |s| > 0 {
      var l := Lower(s);
      assert l == [LowerChar(s[0])] + Lower(s[1..]);
      assert l[0] == LowerChar(s[0]) && l[1..] == Lower(s[1..]);
      LowerCharSpace(s[0]);
      if IsSpace(s[0]) {
        TrimStartLower(s[1..]);
      }
    }
  }

  lemma {:induction false} LowerDropLast(s: string)
    requires s != []
    ensures Lower(s)[..|s| - 1] == Lower(s[..|s| - 1])
    ensures Lower(s)[|s| - 1] == LowerChar(s[|s| - 1])
  {
    var t := s[..|s| - 1];
    forall i | 0 <= i < |t|
      ensures Lower(s)[i] == Lower(t)[i]
    {
      assert t[i] == s[i];
    }
    assert Lower(s)[..|s| - 1] == Lower(t);
  }

  lemma {:induction false} TrimEndLower(s: string)
    ensures TrimEnd(Lower(s)) == Lower(TrimEnd(s))
    decreases |s|
  {
    if |s| > 0 {
      LowerDropLast(s);
      LowerCharSpace(s[|s| - 1]);
      if IsSpace(s[|s| - 1]) {
        TrimEndLower(s[..|s| - 1]);
      }
    }
  }

  /** Lower-casing and trimming commute, so the order in which a schema applies
      its `trim` and `lowercase` setters does not matter. */
  lemma TrimLowerCommute(s: string)
    ensures Trim(Lower(s)) == Lower(Trim(s))
  {
    TrimStartLower(s);
    TrimEndLower(TrimStart(s));
  }

  // ---------------------------------------------------------------------------
  // Prefix, suffix and substring tests

  predicate StartsWith(s: string, p: string) {
    |p| <= |s| && s[..|p|] == p
  }

  predicate EndsWith(s: string, p: string) {
    |p| <= |s| && s[|s| - |p|..] == p
  }

  /** String.prototype.includes. */
  predicate Contains(s: string, q: string)
    decreases |s|
  {
    StartsWith(s, q) || (|s| > 0 && Contains(s[1..], q))
  }

  predicate OccursAt(s: string, q: string, k: int) {
    0 <= k <= |s| - |q| && s[k..k + |q|] == q
  }

  /** A string contains q exactly when q occurs at some position. */
  lemma {:induction false} ContainsAt(s: string, q: string)
    ensures Contains(s, q) <==> exists k :: OccursAt(s, q, k)
    decreases |s|
  {
    if StartsWith(s, q) {
      assert OccursAt(s, q, 0);
    } else if |s| > 0 {
      ContainsAt(s[1..], q);
      if Contains(s[1..], q) {
        var k :| OccursAt(s[1..], q, k);
        assert s[k + 1..k + 1 + |q|] == s[1..][k..k + |q|];
        assert OccursAt(s, q, k + 1);
      }
      if exists k :: OccursAt(s, q, k) {
        var k :| OccursAt(s, q, k);
        assert k != 0;
        assert s[1..][k - 1..k - 1 + |q|] == s[k..k + |q|];
        assert OccursAt(s[1..], q, k - 1);
      }
    }
  }

  /** Every string contains the empty string. */
  lemma ContainsEmpty(s: string)
    ensures Contains(s, "")
  {
  }

  // ---------------------------------------------------------------------------
  // Splitting on one character

  /** s.split(c)[0]: everything before the first c, or all of s. */
  function BeforeFirst(s: string, c: char): (r: string)
    ensures StartsWith(s, r) && c !in r
    ensures |r| < |s| ==> s[|r|] == c
  {
    if s == [] || s[0] == c then [] else [s[0]] + BeforeFirst(s[1..], c)
  }

  /** Splitting on a c that follows a c-free prefix stops right there. */
  lemma {:induction false} BeforeFirstAppend(a: string, c: char, rest: string)
    requires c !in a
    ensures BeforeFirst(a + [c] + rest, c) == a
  {
    if a != [] {
      assert (a + [c] + rest)[1..] == a[1..] + [c] + rest;
      BeforeFirstAppend(a[1..], c, rest);
    }
  }

  /** s.split(c): the pieces between the occurrences of c, one more than
      there are occurrences. */
  function SplitOn(s: string, c: char): (r: seq<string>)
    ensures |r| >= 1 && r[0] == BeforeFirst(s, c)
    ensures forall k | 0 <= k < |r| :: c !in r[k]
    decreases |s|
  {
    var head := BeforeFirst(s, c);
    if |head| == |s| then
      assert s[..|head|] == s;
      [s]
    else [head] + SplitOn(s[|head| + 1..], c)
  }

  /** s.split(c).pop(): everything after the last c, or all of s. */
  function AfterLast(s: string, c: char): (r: string)
    ensures EndsWith(s, r) && c !in r
    ensures |r| < |s| ==> s[|s| - |r| - 1] == c
    decreases |s|
  {
    if s == [] then []
    else if s[|s| - 1] == c then []
    else AfterLast(s[..|s| - 1], c) + [s[|s| - 1]]
  }

  /** s.replace(/c+$/, ''): s without its trailing run of c. */
  function StripTrailing(s: string, c: char): (r: string)
    ensures StartsWith(s, r)
    ensures r == [] || r[|r| - 1] != c
    ensures forall i :: |r| <= i < |s| ==> s[i] == c
    decreases |s|
  {
    if s != [] && s[|s| - 1] == c then StripTrailing(s[..|s| - 1], c) else s
  }

  /** s.replace(p, t) with a string pattern: replaces the first occurrence only. */
  function ReplaceFirst(s: string, p: string, t: string): (r: string)
    requires p != []
    decreases |s|
  {
    if StartsWith(s, p) then t + s[|p|..]
    else if s == [] then []
    else [s[0]] + ReplaceFirst(s[1..], p, t)
  }

  lemma {:induction false} ReplaceFirstAbsent(s: string, p: string, t: string)
    requires p != [] && !Contains(s, p)
    ensures ReplaceFirst(s, p, t) == s
    decreases |s|
  {
    if s != [] {
      ReplaceFirstAbsent(s[1..], p, t);
    }
  }

  /** A replaced prefix: the occurrence at the very start is the one replaced. */
  lemma ReplaceFirstAtStart(s: string, p: string, t: string)
    requires p != [] && StartsWith(s, p)
    ensures ReplaceFirst(s, p, t) == t + s[|p|..]
  {
  }

  // ---------------------------------------------------------------------------
  // Decimal numerals (Number.prototype.toString for non-negative integers)

  predicate IsDigit(c: char) { '0' <= c <= '9' }

  function Digit(d: nat): (c: char)
    requires d < 10
    ensures IsDigit(c)
  {
    ('0' as int + d) as char
  }

  function DigitValue(c: char): nat {
    if IsDigit(c) then c as int - '0' as int else 0
  }

  function Show(n: nat): (r: string)
    ensures r != []
    ensures forall i :: 0 <= i < |r| ==> IsDigit(r[i])
    decreases n
  {
    if n < 10 then [Digit(n)] else Show(n / 10) + [Digit(n % 10)]
  }

  function ParseNat(s: string): nat
    decreases |s|
  {
    if s == [] then 0 else ParseNat(s[..|s| - 1]) * 10 + DigitValue(s[|s| - 1])
  }

  /** Reading back a numeral gives the number: Show is injective. */
  lemma {:induction false} ParseShow(n: nat)
    ensures ParseNat(Show(n)) == n
    decreases n
  {
    if n >= 10 {
      var s := Show(n / 10) + [Digit(n % 10)];
      assert s[..|s| - 1] == Show(n / 10);
      ParseShow(n / 10);
    }
  }

  lemma ShowInjective(m: nat, n: nat)
    requires Show(m) == Show(n)
    ensures m == n
  {
    ParseShow(m);
    ParseShow(n);
  }

  /** A number of two or more digits is written with one digit more than
      its tenth. */
  lemma ShowStep(n: nat)
    requires n >= 10
    ensures |Show(n)| == |Show(n / 10)| + 1
  {
  }

  /** Each number in [100000, 999999] is written with exactly six digits. */
  lemma ShowSixDigits(n: nat)
    requires 100000 <= n <= 999999
    ensures |Show(n)| == 6
  {
    var d1 := n / 10;
    assert 10000 <= d1 <= 99999;
    var d2 := d1 / 10;
    assert 1000 <= d2 <= 9999;
    var d3 := d2 / 10;
    assert 100 <= d3 <= 999;
    var d4 := d3 / 10;
    assert 10 <= d4 <= 99;
    var d5 := d4 / 10;
    assert 1 <= d5 <= 9;
    ShowStep(n);
    ShowStep(d1);
    ShowStep(d2);
    ShowStep(d3);
    ShowStep(d4);
  }
}
