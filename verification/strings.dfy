/** String operations the TypeScript code relies on: `String(n)`, `padStart`,
    `join`, `split`, `Number(s)`, and the default
    (code-unit lexicographic) order of `Array.prototype.sort`. */
module Strings {
  import opened Wrappers

  predicate IsDigit(c: char) {
    '0' <= c <= '9'
  }

  predicate AllDigits(s: string) {
    forall i :: 0 <= i < |s| ==> IsDigit(s[i])
  }

  function DigitChar(d: nat): (c: char)
    requires d < 10
    ensures IsDigit(c) && DigitValue(c) == d
  {
    ('0' as int + d) as char
  }

  function DigitValue(c: char): (d: nat)
    requires IsDigit(c)
    ensures d < 10
  {
    (c as int) - ('0' as int)
  }

  /** `String(n)` for a non-negative integer: decimal, no leading zeros. */
  function NatToString(n: nat): (s: string)
    ensures |s| > 0 && AllDigits(s)
    decreases n
  {
    if n < 10 then [DigitChar(n)] else NatToString(n / 10) + [DigitChar(n % 10)]
  }

  /** Value of a string of decimal digits (the empty string is 0, as `Number("")`). */
  function DigitsValue(s: string): nat
    requires AllDigits(s)
    decreases |s|
  {
    if |s| == 0 then 0 else DigitsValue(s[..|s| - 1]) * 10 + DigitValue(s[|s| - 1])
  }

  /** `Number(s)` on the strings this model feeds it: a string of decimal digits
      parses to its value; anything else is `NaN`, represented as `None`. */
  function ToNumber(s: string): Option<nat> {
    if AllDigits(s) then Some(DigitsValue(s)) else None
  }

  lemma {:induction false} NatToStringRoundTrip(n: nat)
    ensures ToNumber(NatToString(n)) == Some(n)
    decreases n
  {
    var s := NatToString(n);
    if n >= 10 {
      NatToStringRoundTrip(n / 10);
      assert s[..|s| - 1] == NatToString(n / 10);
      assert DigitValue(s[|s| - 1]) == n % 10;
    } else {
      assert s == [DigitChar(n)];
      assert s[..|s| - 1] == [];
      assert AllDigits(s);
      assert DigitsValue(s) == DigitsValue(s[..|s| - 1]) * 10 + DigitValue(s[|s| - 1]);
    }
  }

  /** `s.padStart(2, "0")`. */
  function PadStart2(s: string): (r: string)
    ensures |s| >= 2 ==> r == s
    ensures |s| < 2 ==> |r| == 2
  {
    if |s| >= 2 then s else seq(2 - |s|, _ => '0') + s
  }

  /** `String(n).padStart(2, "0")` parses back to `n`. */
  lemma PaddedRoundTrip(n: nat)
    ensures AllDigits(PadStart2(NatToString(n)))
    ensures ToNumber(PadStart2(NatToString(n))) == Some(n)
  {
    var s := NatToString(n);
    NatToStringRoundTrip(n);
    if |s| < 2 {
      var p := PadStart2(s);
      assert p == ['0'] + s;
      assert p[..1] == ['0'];
      assert DigitsValue(p[..1]) == 0 by {
        assert p[..1][..0] == [];
      }
      assert p[..|p| - 1] == ['0'];
      assert s == [s[0]];
      assert DigitsValue(s) == DigitsValue(s[..0]) * 10 + DigitValue(s[0]);
    }
  }

  /** `parts.join(sep)`. */
  function Join(parts: seq<string>, sep: string): string
    decreases |parts|
  {
    if |parts| == 0 then ""
    else if |parts| == 1 then parts[0]
    else parts[0] + sep + Join(parts[1..], sep)
  }

  /** `s.indexOf(sep)` for a non-empty separator, or `None` when it is absent. */
  function IndexOf(s: string, sep: string): (r: Option<nat>)
    requires |sep| > 0
    ensures r.Some? ==> r.value + |sep| <= |s| && s[r.value..r.value + |sep|] == sep
    decreases |s|
  {
    if |s| < |sep| then None
    else if s[..|sep|] == sep then Some(0)
    else match IndexOf(s[1..], sep)
      case None => None
      case Some(i) => Some(i + 1)
  }

  /** `s.split(sep)` for a non-empty separator. */
  function Split(s: string, sep: string): (parts: seq<string>)
    requires |sep| > 0
    ensures |parts| > 0
    decreases |s|
  {
    match IndexOf(s, sep)
    case None => [s]
    case Some(i) => [s[..i]] + Split(s[i + |sep|..], sep)
  }

  /** The first character of `sep` does not occur in `a`. */
  predicate Avoids(a: string, sep: string)
    requires |sep| > 0
  {
    forall k :: 0 <= k < |a| ==> a[k] != sep[0]
  }

  lemma {:induction false} IndexOfAfterAvoiding(a: string, sep: string, b: string)
    requires |sep| > 0 && Avoids(a, sep)
    ensures IndexOf(a + sep + b, sep) == Some(|a|)
    decreases |a|
  {
    var s := a + sep + b;
    if |a| == 0 {
      assert s[..|sep|] == sep;
    } else {
      assert s[0] == a[0] != sep[0];
      assert s[..|sep|] != sep;
      assert s[1..] == a[1..] + sep + b;
      IndexOfAfterAvoiding(a[1..], sep, b);
    }
  }

  lemma {:induction false} IndexOfAbsent(a: string, sep: string)
    requires |sep| > 0 && Avoids(a, sep)
    ensures IndexOf(a, sep) == None
    decreases |a|
  {
    if |a| >= |sep| {
      assert a[..|sep|][0] == a[0];
      IndexOfAbsent(a[1..], sep);
    }
  }

  /** Splitting `a + sep + b`, where `a` cannot contain `sep`, gives two fields. */
  lemma SplitTwoFields(a: string, sep: string, b: string)
    requires |sep| > 0 && Avoids(a, sep) && Avoids(b, sep)
    ensures Split(a + sep + b, sep) == [a, b]
  {
    IndexOfAfterAvoiding(a, sep, b);
    var s := a + sep + b;
    assert s[..|a|] == a;
    assert s[|a| + |sep|..] == b;
    IndexOfAbsent(b, sep);
  }

  /** Lexicographic order by character code: the order `Array.prototype.sort`
      uses without a comparator. */
  predicate StrLt(a: string, b: string)
    decreases |a|
  {
    if |a| == 0 then |b| > 0
    else if |b| == 0 then false
    else if a[0] == b[0] then StrLt(a[1..], b[1..])
    else a[0] < b[0]
  }

  lemma {:induction false} StrLtIrreflexive(a: string)
    ensures !StrLt(a, a)
    decreases |a|
  {
    if |a| > 0 { StrLtIrreflexive(a[1..]); }
  }

  lemma {:induction false} StrLtTransitive(a: string, b: string, c: string)
    requires StrLt(a, b) && StrLt(b, c)
    ensures StrLt(a, c)
    decreases |a|
  {
    if |a| > 0 && a[0] == b[0] && b[0] == c[0] {
      StrLtTransitive(a[1..], b[1..], c[1..]);
    }
  }

  lemma {:induction false} StrLtTotal(a: string, b: string)
    ensures a == b || StrLt(a, b) || StrLt(b, a)
    decreases |a|
  {
    if |a| > 0 && |b| > 0 && a[0] == b[0] {
      StrLtTotal(a[1..], b[1..]);
      if a[1..] == b[1..] {
        assert a == [a[0]] + a[1..] && b == [b[0]] + b[1..];
      }
    }
  }

  /** `ss` is in the order `ss.sort()` produces. */
  ghost predicate StringsSorted(ss: seq<string>) {
    forall i, j :: 0 <= i < j < |ss| ==> !StrLt(ss[j], ss[i])
  }

  function InsertString(x: string, ss: seq<string>): (r: seq<string>)
    requires StringsSorted(ss)
    ensures StringsSorted(r)
    ensures multiset(r) == multiset(ss) + multiset{x}
    decreases |ss|
  {
    if |ss| == 0 then [x]
    else if StrLt(x, ss[0]) then
      assert forall k :: 0 <= k < |ss| ==> !StrLt(ss[k], x) by {
        forall k | 0 <= k < |ss|
          ensures !StrLt(ss[k], x)
        {
          if StrLt(ss[k], x) {
            StrLtTransitive(ss[k], x, ss[0]);
            if k == 0 { StrLtIrreflexive(ss[0]); }
          }
        }
      }
      [x] + ss
    else
      var rest := InsertString(x, ss[1..]);
      assert ss == [ss[0]] + ss[1..];
      assert forall k :: 0 <= k < |rest| ==> !StrLt(rest[k], ss[0]) by {
        forall k | 0 <= k < |rest|
          ensures !StrLt(rest[k], ss[0])
        {
          assert rest[k] in multiset(ss[1..]) + multiset{x};
        }
      }
      [ss[0]] + rest
  }

  /** `[...ss].sort()`. */
  function SortStrings(ss: seq<string>): (r: seq<string>)
    ensures StringsSorted(r)
    ensures multiset(r) == multiset(ss)
    decreases |ss|
  {
    if |ss| == 0 then []
    else
      assert ss == ss[..|ss| - 1] + [ss[|ss| - 1]];
      InsertString(ss[|ss| - 1], SortStrings(ss[..|ss| - 1]))
  }
}
