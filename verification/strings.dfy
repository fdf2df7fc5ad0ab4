/** String helpers shared by the model: JavaScript's `Array.prototype.join`,
    `String.prototype.split` on a one-character separator, `startsWith`,
    `endsWith`, `trim`, and the decimal rendering of a count. */
module Strings {

  /** `parts.join(sep)`: the empty list joins to "", one part to itself. */
  function Join(parts: seq<string>, sep: string): string
  {
    if |parts| == 0 then ""
    else if |parts| == 1 then parts[0]
    else parts[0] + sep + Join(parts[1..], sep)
  }

  /** A join of two or more parts starts with the first part and a separator
      and ends with a separator and the last part. */
  lemma {:induction false} JoinEnds(parts: seq<string>, sep: string)
    requires |parts| >= 2
    ensures StartsWith(Join(parts, sep), parts[0] + sep)
    ensures EndsWith(Join(parts, sep), sep + parts[|parts| - 1])
    decreases |parts|
  {
    var rest := Join(parts[1..], sep);
    assert Join(parts, sep) == parts[0] + sep + rest;
    if |parts| > 2 {
      JoinEnds(parts[1..], sep);
    }
  }

  predicate StartsWith(s: string, prefix: string)
  {
    |prefix| <= |s| && s[..|prefix|] == prefix
  }

  predicate EndsWith(s: string, suffix: string)
  {
    |suffix| <= |s| && s[|s| - |suffix|..] == suffix
  }

  /** Index of the first occurrence of `d` in `s`. */
  function FirstIndex(s: string, d: char): (k: nat)
    requires d in s
    ensures k < |s| && s[k] == d
    ensures d !in s[..k]
  {
    if s[0] == d then 0
    else
      assert d in s[1..] by { assert s == [s[0]] + s[1..]; }
      var k := 1 + FirstIndex(s[1..], d);
      assert s[..k] == [s[0]] + s[1..][..k - 1];
      k
  }

  /** `s.split(d)`: always at least one piece, and no piece holds `d`. */
  function Split(s: string, d: char): (r: seq<string>)
    ensures |r| >= 1
    ensures forall i :: 0 <= i < |r| ==> d !in r[i]
    decreases |s|
  {
    if d !in s then [s]
    else
      var k := FirstIndex(s, d);
      [s[..k]] + Split(s[k + 1..], d)
  }

  /** Splitting and joining again on the same separator gives the string back. */
  lemma {:induction false} JoinSplit(s: string, d: char)
    ensures Join(Split(s, d), [d]) == s
    decreases |s|
  {
    if d in s {
      var k := FirstIndex(s, d);
      var rest := Split(s[k + 1..], d);
      JoinSplit(s[k + 1..], d);
      var parts := [s[..k]] + rest;
      assert Split(s, d) == parts;
      assert |parts| >= 2 && parts[0] == s[..k] && parts[1..] == rest;
      assert Join(parts, [d]) == s[..k] + [d] + Join(rest, [d]);
      assert s == s[..k] + [d] + s[k + 1..];
    }
  }

  /** In `a + [d] + b` with `d` not in `a`, the first `d` is the one after `a`. */
  lemma {:induction false} FirstIndexAfter(a: string, d: char, b: string)
    requires d !in a
    ensures d in a + [d] + b
    ensures FirstIndex(a + [d] + b, d) == |a|
  {
    var s := a + [d] + b;
    assert s[|a|] == d;
    assert s[..|a|] == a;
  }

  /** Splitting `a + [d] + b` with `d` not in `a` yields `a`, then the pieces of `b`. */
  lemma {:induction false} SplitCons(a: string, d: char, b: string)
    requires d !in a
    ensures Split(a + [d] + b, d) == [a] + Split(b, d)
  {
    var s := a + [d] + b;
    FirstIndexAfter(a, d, b);
    assert s[..|a|] == a;
    assert s[|a| + 1..] == b;
  }

  /** Joining pieces free of the separator and splitting again gives the pieces back. */
  lemma {:induction false} SplitJoin(parts: seq<string>, d: char)
    requires |parts| >= 1
    requires forall i :: 0 <= i < |parts| ==> d !in parts[i]
    ensures Split(Join(parts, [d]), d) == parts
    decreases |parts|
  {
    if |parts| > 1 {
      var tail := Join(parts[1..], [d]);
      assert Join(parts, [d]) == parts[0] + [d] + tail;
      assert d !in parts[0];
      SplitCons(parts[0], d, tail);
      SplitJoin(parts[1..], d);
      assert parts == [parts[0]] + parts[1..];
    } else {
      assert d !in parts[0];
    }
  }

  /** The characters `String.prototype.trim` removes: ECMAScript WhiteSpace
      and LineTerminator code points. */
  predicate IsSpace(c: char)
  {
    c == ' ' || c == '\t' || c == '\n' || c == '\r' || c == '\U{000B}' || c == '\U{000C}'
    || c == '\U{00A0}' || c == '\U{1680}' || ('\U{2000}' <= c <= '\U{200A}')
    || c == '\U{2028}' || c == '\U{2029}' || c == '\U{202F}' || c == '\U{205F}'
    || c == '\U{3000}' || c == '\U{FEFF}'
  }

  /** Number of leading whitespace characters. */
  function LeadingSpaces(s: string): (i: nat)
    ensures i <= |s|
    ensures forall k :: 0 <= k < i ==> IsSpace(s[k])
    ensures i == |s| || !IsSpace(s[i])
  {
    if |s| > 0 && IsSpace(s[0]) then 1 + LeadingSpaces(s[1..]) else 0
  }

  /** Length of `s` once its trailing whitespace is dropped. */
  function EndBeforeTrailingSpaces(s: string): (j: nat)
    ensures j <= |s|
    ensures forall k :: j <= k < |s| ==> IsSpace(s[k])
    ensures j == 0 || !IsSpace(s[j - 1])
  {
    if |s| > 0 && IsSpace(s[|s| - 1]) then EndBeforeTrailingSpaces(s[..|s| - 1]) else |s|
  }

  /** `s.trim()`: the slice of `s` between its leading and trailing whitespace. */
  function Trim(s: string): (r: string)
    ensures exists i, j ::
              && 0 <= i <= j <= |s| && r == s[i..j]
              && (forall k :: 0 <= k < i ==> IsSpace(s[k]))
              && (forall k :: j <= k < |s| ==> IsSpace(s[k]))
    ensures |r| > 0 ==> !IsSpace(r[0]) && !IsSpace(r[|r| - 1])
  {
    var i := LeadingSpaces(s);
    var j := EndBeforeTrailingSpaces(s);
    if j <= i then
      assert forall k :: 0 <= k < |s| ==> IsSpace(s[k]) by {
        forall k | 0 <= k < |s| ensures IsSpace(s[k]) {
          if k >= i { assert false; }
        }
      }
      assert s[0..0] == "";
      ""
    else
      s[i..j]
  }

  predicate IsDigit(c: char)
  {
    '0' <= c <= '9'
  }

  function DigitChar(d: nat): (c: char)
    requires d < 10
    ensures IsDigit(c) && (c as int) - ('0' as int) == d
  {
    ('0' as int + d) as char
  }

  /** The decimal rendering JavaScript gives a non-negative integer. */
  function NatToString(n: nat): string
  {
    if n < 10 then [DigitChar(n)] else NatToString(n / 10) + [DigitChar(n % 10)]
  }

  /** The rendering is a non-empty string of digits, longer than one digit
      exactly from ten on. */
  lemma {:induction false} NatToStringDigits(n: nat)
    ensures |NatToString(n)| >= 1
    ensures forall i :: 0 <= i < |NatToString(n)| ==> IsDigit(NatToString(n)[i])
    ensures n >= 10 <==> |NatToString(n)| > 1
  {
    if n >= 10 {
      NatToStringDigits(n / 10);
      var r := NatToString(n);
      assert r == NatToString(n / 10) + [DigitChar(n % 10)];
      forall i | 0 <= i < |r| ensures IsDigit(r[i]) {
        if i < |r| - 1 {
          assert r[i] == NatToString(n / 10)[i];
        }
      }
    }
  }

  /** Reads a string of decimal digits back as a number. */
  function ParseDigits(s: string): nat
    requires forall i :: 0 <= i < |s| ==> IsDigit(s[i])
  {
    if |s| == 0 then 0
    else
      assert IsDigit(s[|s| - 1]);
      ParseDigits(s[..|s| - 1]) * 10 + ((s[|s| - 1] as int) - ('0' as int))
  }

  /** The decimal rendering loses nothing: it reads back as the same number. */
  lemma {:induction false} ParseNatToString(n: nat)
    ensures forall i :: 0 <= i < |NatToString(n)| ==> IsDigit(NatToString(n)[i])
    ensures ParseDigits(NatToString(n)) == n
  {
    NatToStringDigits(n);
    if n >= 10 {
      var r := NatToString(n);
      ParseNatToString(n / 10);
      assert r[..|r| - 1] == NatToString(n / 10);
    }
  }
}
