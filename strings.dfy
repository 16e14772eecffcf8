/**
 * The JavaScript string operations the two scripts rely on, over `seq<char>`:
 * `indexOf`/`includes`, `replace` with a string pattern, ASCII `toUpperCase` and
 * `toLowerCase`, `trim`, `split` on one character, `parseInt` on decimal text and
 * the rendering of a number inside a template literal.
 */
module Strings {
  import opened Wrappers

  /** `k` occurs in `s` starting at position `i`. */
  predicate OccursAt(s: string, k: string, i: nat) {
    i + |k| <= |s| && s[i..i + |k|] == k
  }

  lemma OccursAtTail(s: string, k: string, i: nat)
    requires |s| > 0
    ensures OccursAt(s, k, i + 1) <==> OccursAt(s[1..], k, i)
  {
    if i + 1 + |k| <= |s| {
      assert s[1..][i..i + |k|] == s[i + 1..i + 1 + |k|];
    }
  }

  /** `s.indexOf(k)`: the first position at which `k` occurs, or None for -1. */
  function IndexOf(s: string, k: string): (r: Option<nat>)
    ensures r.Some? ==> OccursAt(s, k, r.value)
    ensures r.Some? ==> forall j: nat :: j < r.value ==> !OccursAt(s, k, j)
    ensures r.None? ==> forall j: nat :: !OccursAt(s, k, j)
    decreases |s|
  {
    if |s| < |k| then None
    else if s[..|k|] == k then Some(0)
    else
      var rest := IndexOf(s[1..], k);
      assert forall j: nat :: 0 < j ==> (OccursAt(s, k, j) <==> OccursAt(s[1..], k, j - 1)) by {
        forall j: nat | 0 < j ensures OccursAt(s, k, j) <==> OccursAt(s[1..], k, j - 1) {
          OccursAtTail(s, k, j - 1);
        }
      }
      assert !OccursAt(s, k, 0);
      match rest
      case None => None
      case Some(i) => Some(i + 1)
  }

  /** `s.includes(k)`. */
  predicate Contains(s: string, k: string)
    decreases |s|
  {
    OccursAt(s, k, 0) || (|s| > 0 && Contains(s[1..], k))
  }

  /** `includes` agrees with `indexOf`: the pattern occurs exactly when `indexOf` finds it. */
  lemma {:induction false} ContainsIndexOf(s: string, k: string)
    ensures Contains(s, k) <==> IndexOf(s, k).Some?
    decreases |s|
  {
    if |s| > 0 {
      ContainsIndexOf(s[1..], k);
    }
  }

  lemma ContainsIff(s: string, k: string)
    ensures Contains(s, k) <==> exists j: nat :: OccursAt(s, k, j)
  {
    ContainsIndexOf(s, k);
  }

  /** An occurrence of `k` holds an occurrence of every suffix of `k`. */
  lemma {:induction false} ContainsSuffix(s: string, k: string, d: nat)
    requires Contains(s, k) && d <= |k|
    ensures Contains(s, k[d..])
  {
    ContainsIndexOf(s, k);
    var i := IndexOf(s, k).value;
    assert s[i + d..i + d + |k[d..]|] == s[i..i + |k|][d..];
    ContainsAt(s, k[d..], i + d);
  }

  /** The first character of a non-empty pattern that occurs in `s` is a character of `s`. */
  lemma ContainsHead(s: string, k: string)
    requires Contains(s, k) && |k| > 0
    ensures k[0] in s
  {
    ContainsIndexOf(s, k);
    var i := IndexOf(s, k).value;
    assert s[i] == s[i..i + |k|][0];
  }

  lemma NotInAppend(c: char, a: string, b: string)
    requires c !in a && c !in b
    ensures c !in a + b
  {
  }

  /** `s.replace(pat, rep)` with a string pattern: only the first occurrence is replaced. */
  function ReplaceFirst(s: string, pat: string, rep: string): (r: string)
    ensures !Contains(s, pat) ==> r == s
    ensures Contains(s, pat) ==>
      (IndexOf(s, pat).Some? && var i := IndexOf(s, pat).value; r == s[..i] + rep + s[i + |pat|..])
  {
    ContainsIndexOf(s, pat);
    match IndexOf(s, pat)
    case None => s
    case Some(i) => s[..i] + rep + s[i + |pat|..]
  }

  // ---------------------------------------------------------------- case mapping

  /** ASCII part of `String.prototype.toUpperCase` on one character. */
  function UpperChar(c: char): char {
    if 'a' <= c <= 'z' then (c as int - 32) as char else c
  }

  /** ASCII part of `String.prototype.toLowerCase` on one character. */
  function LowerChar(c: char): char {
    if 'A' <= c <= 'Z' then (c as int + 32) as char else c
  }

  function Upper(s: string): (r: string)
    ensures |r| == |s|
    ensures forall i :: 0 <= i < |s| ==> r[i] == UpperChar(s[i])
  {
    seq(|s|, i requires 0 <= i < |s| => UpperChar(s[i]))
  }

  function Lower(s: string): (r: string)
    ensures |r| == |s|
    ensures forall i :: 0 <= i < |s| ==> r[i] == LowerChar(s[i])
  {
    seq(|s|, i requires 0 <= i < |s| => LowerChar(s[i]))
  }

  // ---------------------------------------------------------------- trim

  /**
   * The characters `String.prototype.trim` removes: ECMAScript WhiteSpace and
   * LineTerminator code points.
   */
  predicate IsSpace(c: char) {
    var n := c as int;
    (9 <= n <= 13) || n == 0x20 || n == 0xA0 || n == 0x1680 || (0x2000 <= n <= 0x200A)
    || n == 0x2028 || n == 0x2029 || n == 0x202F || n == 0x205F || n == 0x3000 || n == 0xFEFF
  }

  function TrimStart(s: string): (r: string)
    ensures |r| <= |s| && r == s[|s| - |r|..]
    ensures r != [] ==> !IsSpace(r[0])
    ensures forall i :: 0 <= i < |s| - |r| ==> IsSpace(s[i])
  {
    if |s| > 0 && IsSpace(s[0]) then TrimStart(s[1..]) else s
  }

  function TrimEnd(s: string): (r: string)
    ensures |r| <= |s| && r == s[..|r|]
    ensures r != [] ==> !IsSpace(r[|r| - 1])
    ensures forall i :: |r| <= i < |s| ==> IsSpace(s[i])
  {
    if |s| > 0 && IsSpace(s[|s| - 1]) then TrimEnd(s[..|s| - 1]) else s
  }

  /** `s.trim()`. */
  function Trim(s: string): string {
    TrimEnd(TrimStart(s))
  }

  /** A keyword made of characters that `trim` never removes. */
  predicate NoSpace(k: string) {
    forall i :: 0 <= i < |k| ==> !IsSpace(k[i])
  }

  /** An occurrence inside the window `[a, b)` of `s` is an occurrence in the slice `s[a..b]`. */
  lemma OccursInSlice(s: string, k: string, a: nat, b: nat, j: nat)
    requires a <= j && j + |k| <= b <= |s|
    ensures OccursAt(s, k, j) <==> OccursAt(s[a..b], k, j - a)
  {
    var w := s[a..b];
    var u, v := w[j - a..j - a + |k|], s[j..j + |k|];
    assert |u| == |v|;
    forall i | 0 <= i < |k|
      ensures u[i] == v[i]
    {
      assert u[i] == w[j - a + i] == s[j + i];
    }
    assert w[j - a..j - a + |k|] == s[j..j + |k|];
  }

  /** The first character of an occurrence is the first character of the keyword. */
  lemma OccursHead(s: string, k: string, j: nat)
    requires OccursAt(s, k, j) && |k| > 0
    ensures j < |s| && s[j] == k[0] && s[j + |k| - 1] == k[|k| - 1]
  {
    assert s[j..j + |k|][0] == s[j];
    assert s[j..j + |k|][|k| - 1] == s[j + |k| - 1];
  }

  lemma ContainsAt(s: string, k: string, j: nat)
    requires OccursAt(s, k, j)
    ensures Contains(s, k)
  {
    ContainsIndexOf(s, k);
  }

  /** An occurrence of a blank-free keyword starts after the leading blanks. */
  lemma OccursAfterBlanks(s: string, k: string, lead: nat, j: nat)
    requires |k| > 0 && NoSpace(k) && OccursAt(s, k, j)
    requires lead <= |s| && forall i :: 0 <= i < lead ==> IsSpace(s[i])
    ensures lead <= j
  {
    OccursHead(s, k, j);
    assert !IsSpace(s[j]);
  }

  /** An occurrence of a blank-free keyword ends before the trailing blanks. */
  lemma OccursBeforeBlanks(s: string, k: string, keep: nat, j: nat)
    requires |k| > 0 && NoSpace(k) && OccursAt(s, k, j)
    requires forall i :: keep <= i < |s| ==> IsSpace(s[i])
    ensures j + |k| <= keep
  {
    OccursHead(s, k, j);
    assert !IsSpace(s[j + |k| - 1]);
  }

  /** An occurrence after the cut is an occurrence in the suffix. */
  lemma FoundInSuffix(s: string, k: string, lead: nat)
    requires lead <= |s| && IndexOf(s, k).Some? && lead <= IndexOf(s, k).value
    ensures IndexOf(s[lead..|s|], k).Some?
  {
    var j := IndexOf(s, k).value;
    OccursInSlice(s, k, lead, |s|, j);
    assert OccursAt(s[lead..|s|], k, j - lead);
  }

  /** An occurrence in a suffix is an occurrence in the whole string. */
  lemma FoundFromSuffix(s: string, k: string, lead: nat)
    requires lead <= |s| && IndexOf(s[lead..|s|], k).Some?
    ensures IndexOf(s, k).Some?
  {
    var j := IndexOf(s[lead..|s|], k).value;
    OccursInSlice(s, k, lead, |s|, j + lead);
    assert OccursAt(s, k, j + lead);
  }

  /** Dropping a suffix that starts after the first occurrence keeps the keyword found. */
  lemma FoundInPrefix(s: string, k: string, keep: nat)
    requires keep <= |s|
    requires IndexOf(s, k).Some? ==> IndexOf(s, k).value + |k| <= keep
    ensures IndexOf(s[0..keep], k).Some? <==> IndexOf(s, k).Some?
  {
    var u := s[0..keep];
    if IndexOf(s, k).Some? {
      var j := IndexOf(s, k).value;
      OccursInSlice(s, k, 0, keep, j);
      assert OccursAt(u, k, j);
    }
    if IndexOf(u, k).Some? {
      var j := IndexOf(u, k).value;
      OccursInSlice(s, k, 0, keep, j);
      assert OccursAt(s, k, j);
    }
  }

  /** Trimming the start never changes whether a blank-free keyword is found. */
  lemma FoundTrimStart(s: string, k: string)
    requires |k| > 0 && NoSpace(k)
    ensures IndexOf(TrimStart(s), k).Some? <==> IndexOf(s, k).Some?
  {
    var t := TrimStart(s);
    assert t == s[|s| - |t|..|s|];
    if IndexOf(s, k).Some? {
      OccursAfterBlanks(s, k, |s| - |t|, IndexOf(s, k).value);
      FoundInSuffix(s, k, |s| - |t|);
    }
    if IndexOf(t, k).Some? {
      FoundFromSuffix(s, k, |s| - |t|);
    }
  }

  /** Trimming the end never changes whether a blank-free keyword is found. */
  lemma FoundTrimEnd(s: string, k: string)
    requires |k| > 0 && NoSpace(k)
    ensures IndexOf(TrimEnd(s), k).Some? <==> IndexOf(s, k).Some?
  {
    var u := TrimEnd(s);
    assert u == s[0..|u|];
    if IndexOf(s, k).Some? {
      OccursBeforeBlanks(s, k, |u|, IndexOf(s, k).value);
    }
    FoundInPrefix(s, k, |u|);
  }

  /**
   * Trimming never changes whether a keyword without white space occurs in a
   * string: the blanks it removes cannot be part of an occurrence.
   */
  lemma ContainsTrim(s: string, k: string)
    requires |k| > 0 && NoSpace(k)
    ensures Contains(Trim(s), k) <==> Contains(s, k)
  {
    FoundTrimStart(s, k);
    FoundTrimEnd(TrimStart(s), k);
    ContainsIndexOf(s, k);
    ContainsIndexOf(Trim(s), k);
  }

  // ---------------------------------------------------------------- split and join

  /** `s.split(sep)` for a one-character separator; always at least one part. */
  function Split(s: string, sep: char): (parts: seq<string>)
    ensures |parts| >= 1
  {
    if s == [] then [""]
    else
      var rest := Split(s[1..], sep);
      if s[0] == sep then [""] + rest else [[s[0]] + rest[0]] + rest[1..]
  }

  /** `parts.join(sep)`. */
  function Join(parts: seq<string>, sep: char): string {
    if |parts| == 0 then ""
    else if |parts| == 1 then parts[0]
    else parts[0] + [sep] + Join(parts[1..], sep)
  }

  /** A separator splits a string into the parts before it and the parts after it. */
  lemma {:induction false} SplitAround(a: string, sep: char, b: string)
    ensures Split(a + [sep] + b, sep) == Split(a, sep) + Split(b, sep)
  {
    if a == [] {
      assert a + [sep] + b == [sep] + b;
      assert ([sep] + b)[1..] == b;
    } else {
      assert (a + [sep] + b)[1..] == a[1..] + [sep] + b;
      SplitAround(a[1..], sep, b);
    }
  }

  /** A string without the separator is a single part. */
  lemma {:induction false} SplitNoSep(s: string, sep: char)
    requires sep !in s
    ensures Split(s, sep) == [s]
  {
    if s != [] {
      SplitNoSep(s[1..], sep);
      assert [s[0]] + s[1..] == s;
    }
  }

  /** Two separators between three separator-free parts split into exactly those parts. */
  lemma SplitThree(a: string, b: string, c: string, sep: char)
    requires sep !in a && sep !in b && sep !in c
    ensures Split(a + [sep] + b + [sep] + c, sep) == [a, b, c]
  {
    SplitNoSep(a, sep);
    SplitNoSep(b, sep);
    SplitNoSep(c, sep);
    SplitAround(b, sep, c);
    assert a + [sep] + b + [sep] + c == a + [sep] + (b + [sep] + c);
    SplitAround(a, sep, b + [sep] + c);
  }

  /** The first part is a prefix of the string. */
  lemma {:induction false} SplitFirst(s: string, sep: char)
    ensures |Split(s, sep)[0]| <= |s| && Split(s, sep)[0] == s[..|Split(s, sep)[0]|]
  {
    if s != [] && s[0] != sep {
      SplitFirst(s[1..], sep);
    }
  }

  /** Joining the parts back with the separator gives the original string. */
  lemma {:induction false} JoinSplit(s: string, sep: char)
    ensures Join(Split(s, sep), sep) == s
  {
    if s != [] {
      var rest := Split(s[1..], sep);
      JoinSplit(s[1..], sep);
      if s[0] == sep {
        assert Split(s, sep) == [""] + rest;
        assert ([""] + rest)[1..] == rest;
        assert s == [sep] + s[1..];
      } else {
        var parts := [[s[0]] + rest[0]] + rest[1..];
        assert parts[1..] == rest[1..];
        if |rest| == 1 {
          assert s == [s[0]] + s[1..];
        } else {
          assert rest == [rest[0]] + rest[1..];
          assert Join(rest, sep) == rest[0] + [sep] + Join(rest[1..], sep);
          assert s == [s[0]] + s[1..];
        }
      }
    }
  }

  /** No part of a split contains the separator. */
  lemma {:induction false} SplitPartsFree(s: string, sep: char)
    ensures forall i :: 0 <= i < |Split(s, sep)| ==> sep !in Split(s, sep)[i]
  {
    if s != [] {
      SplitPartsFree(s[1..], sep);
    }
  }

  // ---------------------------------------------------------------- numbers

  predicate IsDigit(c: char) {
    '0' <= c <= '9'
  }

  function DigitValue(c: char): nat
    requires IsDigit(c)
  {
    c as int - '0' as int
  }

  /** Every character is a decimal digit. */
  predicate AllDigits(s: string) {
    forall i :: 0 <= i < |s| ==> IsDigit(s[i])
  }

  function DigitChar(d: nat): (c: char)
    requires d < 10
    ensures IsDigit(c) && DigitValue(c) == d
  {
    (d + '0' as int) as char
  }

  /** Decimal rendering of a natural number, without leading zeros. */
  function NatToString(n: nat): (r: string)
    ensures |r| >= 1 && AllDigits(r)
    ensures DigitsValue(r) == n
    ensures |r| == 1 || r[0] != '0'
    ensures n >= 10 <==> r[0] != '0' && |r| >= 2
  {
    if n < 10 then [DigitChar(n)]
    else
      var high := NatToString(n / 10);
      var r := high + [DigitChar(n % 10)];
      assert r[..|r| - 1] == high;
      r
  }

  /** The longest prefix of `s` made of decimal digits. */
  function LeadingDigits(s: string): (r: string)
    ensures |r| <= |s| && r == s[..|r|] && AllDigits(r)
    ensures |r| < |s| ==> !IsDigit(s[|r|])
  {
    if |s| > 0 && IsDigit(s[0]) then [s[0]] + LeadingDigits(s[1..]) else ""
  }

  /** The value of a string of decimal digits. */
  function DigitsValue(ds: string): nat
    requires AllDigits(ds)
  {
    if ds == [] then 0 else 10 * DigitsValue(ds[..|ds| - 1]) + DigitValue(ds[|ds| - 1])
  }

  /**
   * `parseInt(s)` with radix 10: leading white space, an optional sign, then the
   * longest run of digits; None stands for NaN (no digit at all).
   */
  function ParseInt(s: string): (r: Option<int>)
    ensures r.None? <==> LeadingDigits(SignStripped(TrimStart(s))) == ""
    ensures r.Some? ==>
      var t := TrimStart(s);
      r.value == (if |t| > 0 && t[0] == '-' then -1 else 1) * DigitsValue(LeadingDigits(SignStripped(t)))
  {
    var t := TrimStart(s);
    var ds := LeadingDigits(SignStripped(t));
    var v: int := if ds == "" then 0 else DigitsValue(ds);
    if ds == "" then None
    else if |t| > 0 && t[0] == '-' then Some(-v)
    else Some(v)
  }

  function SignStripped(t: string): string {
    if |t| > 0 && (t[0] == '-' || t[0] == '+') then t[1..] else t
  }

  /** A string of digits is its own leading digit run. */
  lemma {:induction false} LeadingDigitsAll(s: string)
    requires AllDigits(s)
    ensures LeadingDigits(s) == s
  {
    if |s| > 0 {
      assert IsDigit(s[0]);
      LeadingDigitsAll(s[1..]);
      assert [s[0]] + s[1..] == s;
    }
  }

  /** `parseInt` reads back the decimal form of every natural number. */
  lemma ParseNatToString(n: nat)
    ensures ParseInt(NatToString(n)) == Some(n)
  {
    var r := NatToString(n);
    assert !IsSpace(r[0]) by {
      assert IsDigit(r[0]);
    }
    assert TrimStart(r) == r;
    assert SignStripped(r) == r;
    LeadingDigitsAll(r);
  }

  /** A number interpolated into a template literal: NaN, or its decimal form. */
  function NumberToString(n: Option<int>): string {
    match n
    case None => "NaN"
    case Some(v) => if v < 0 then "-" + NatToString(-v) else NatToString(v)
  }

  /** `parseInt` reads back every integer interpolated into a template literal. */
  lemma ParseNumberToString(v: int)
    ensures ParseInt(NumberToString(Some(v))) == Some(v)
  {
    if v < 0 {
      var r := NatToString(-v);
      var s := "-" + r;
      assert TrimStart(s) == s;
      assert SignStripped(s) == r;
      LeadingDigitsAll(r);
    } else {
      ParseNatToString(v);
    }
  }

  /**
   * A two-digit field parses to its value and renders without its leading
   * zero: "05" gives "5", "12" gives "12", "00" gives "0".
   */
  lemma TwoDigits(d: string)
    requires |d| == 2 && IsDigit(d[0]) && IsDigit(d[1])
    ensures NumberToString(ParseInt(d)) == if d[0] == '0' then d[1..] else d
  {
    assert TrimStart(d) == d;
    assert SignStripped(d) == d;
    assert LeadingDigits(d[1..][1..]) == "";
    assert LeadingDigits(d) == d;
    assert d[..1] == [d[0]] && d[..1][..0] == [];
    assert DigitsValue(d[..1]) == DigitValue(d[0]);
    var v := DigitsValue(d);
    assert v == 10 * DigitValue(d[0]) + DigitValue(d[1]);
    if d[0] == '0' {
      assert NatToString(v) == [DigitChar(DigitValue(d[1]))];
    } else {
      assert v / 10 == DigitValue(d[0]) && v % 10 == DigitValue(d[1]);
      assert NatToString(v) == [DigitChar(DigitValue(d[0]))] + [DigitChar(DigitValue(d[1]))];
    }
  }
}
