/** The Python built-ins the core relies on, stated over `seq<char>`:
    `str.isspace`, `str.strip`, `x or ""`, `str.split` with a one-character
    separator, `str.find`/`str.rfind`, `in` on strings and `int(str)`. */
module Builtins {
  import opened Wrappers

  /** `c.isspace()`: the Unicode whitespace characters Python strips. */
  predicate IsSpace(c: char) {
    c == ' ' || ('\t' <= c <= '\r') || ('\U{1c}' <= c <= '\U{1f}') || c == '\U{85}' || c == '\U{a0}'
    || c == '\U{1680}' || ('\U{2000}' <= c <= '\U{200a}') || c == '\U{2028}' || c == '\U{2029}'
    || c == '\U{202f}' || c == '\U{205f}' || c == '\U{3000}'
  }

  /** `s.lstrip()` */
  function LStrip(s: string): (r: string)
    ensures |r| <= |s| && r == s[|s| - |r|..]
    ensures r == [] || !IsSpace(r[0])
    ensures forall i :: 0 <= i < |s| - |r| ==> IsSpace(s[i])
  {
    if |s| > 0 && IsSpace(s[0]) then LStrip(s[1..]) else s
  }

  /** `s.rstrip()` */
  function RStrip(s: string): (r: string)
    ensures |r| <= |s| && r == s[..|r|]
    ensures r == [] || !IsSpace(r[|r| - 1])
    ensures forall i :: |r| <= i < |s| ==> IsSpace(s[i])
  {
    if |s| > 0 && IsSpace(s[|s| - 1]) then RStrip(s[..|s| - 1]) else s
  }

  /** `s.strip()`: no whitespace is left at either end, and only whitespace was removed. */
  function Strip(s: string): (r: string)
    ensures |r| <= |s|
    ensures r == [] || (!IsSpace(r[0]) && !IsSpace(r[|r| - 1]))
    ensures exists i :: SpaceTrimmed(s, r, i)
  {
    var l := LStrip(s);
    var r := RStrip(l);
    var i := |s| - |l|;
    assert r == s[i..i + |r|];
    assert forall k :: i + |r| <= k < |s| ==> s[k] == l[k - i];
    assert SpaceTrimmed(s, r, i);
    r
  }

  /** `r` is the slice of `s` that starts at `i`, and every character of `s` outside it is
      whitespace. */
  predicate SpaceTrimmed(s: string, r: string, i: int) {
    && 0 <= i && i + |r| <= |s| && r == s[i..i + |r|]
    && (forall k :: 0 <= k < i ==> IsSpace(s[k]))
    && (forall k :: i + |r| <= k < |s| ==> IsSpace(s[k]))
  }

  /** `(x or "")` for a value that is a string or `None`. */
  function OrEmpty(x: Option<string>): string {
    if x.Some? then x.value else ""
  }

  /** Python truthiness of an optional string. */
  predicate Truthy(x: Option<string>) {
    x.Some? && x.value != ""
  }

  lemma StripUnchanged(s: string)
    requires s == [] || (!IsSpace(s[0]) && !IsSpace(s[|s| - 1]))
    ensures Strip(s) == s
  {
  }

  /** Stripping twice blanks a string exactly when stripping once does. */
  lemma {:induction false} StripTwiceBlank(s: string)
    ensures Strip(Strip(s)) == "" <==> Strip(s) == ""
  {
    var r := Strip(s);
    if r != [] {
      StripUnchanged(r);
    }
  }

  /** Stripping a string whose first character is not whitespace only trims its tail. */
  lemma {:induction false} RStripAppend(a: string, b: string)
    requires |a| > 0 && !IsSpace(a[|a| - 1])
    ensures RStrip(a + b) == a + RStrip(b)
    decreases |b|
  {
    if |b| > 0 && IsSpace(b[|b| - 1]) {
      assert (a + b)[..|a + b| - 1] == a + b[..|b| - 1];
      RStripAppend(a, b[..|b| - 1]);
    } else if |b| == 0 {
      assert a + b == a;
    }
  }

  lemma StripAppend(a: string, b: string)
    requires |a| > 0 && !IsSpace(a[0]) && !IsSpace(a[|a| - 1])
    ensures Strip(a + b) == a + RStrip(b)
  {
    assert LStrip(a + b) == a + b;
    RStripAppend(a, b);
  }

  /** `s.find(c)`: the first index holding `c`, or -1. */
  function Find(s: string, c: char): (i: int)
    ensures -1 <= i < |s|
    ensures i == -1 <==> c !in s
    ensures 0 <= i ==> s[i] == c && c !in s[..i]
  {
    if |s| == 0 then -1
    else if s[0] == c then 0
    else
      var j := Find(s[1..], c);
      assert s[1..][..if j < 0 then 0 else j] == s[1..if j < 0 then 1 else j + 1];
      if j < 0 then -1 else j + 1
  }

  /** The index `Find` returns is the only one its contract admits. */
  lemma FindAt(s: string, c: char, i: nat)
    requires i < |s| && s[i] == c && c !in s[..i]
    ensures Find(s, c) == i
  {
    assert s[i] in s;
  }

  /** `s.rfind(c)`: the last index holding `c`, or -1. */
  function RFind(s: string, c: char): (i: int)
    ensures -1 <= i < |s|
    ensures i == -1 <==> c !in s
    ensures 0 <= i ==> s[i] == c && c !in s[i + 1..]
  {
    if |s| == 0 then -1
    else if s[|s| - 1] == c then |s| - 1
    else
      var j := RFind(s[..|s| - 1], c);
      assert j >= 0 ==> s[j + 1..] == s[..|s| - 1][j + 1..] + [s[|s| - 1]];
      j
  }

  /** The first index at or after `start` whose character is in `cs`, or `|s|`. */
  function FirstOf(s: string, start: nat, cs: set<char>): (i: nat)
    requires start <= |s|
    ensures start <= i <= |s|
    ensures i < |s| ==> s[i] in cs
    ensures forall j :: start <= j < i ==> s[j] !in cs
    decreases |s| - start
  {
    if start == |s| || s[start] in cs then start else FirstOf(s, start + 1, cs)
  }

  /** `sub in s` for strings. */
  predicate Contains(s: string, sub: string)
    decreases |s|
  {
    |s| >= |sub| && (s[..|sub|] == sub || Contains(s[1..], sub))
  }

  /** A string with no two adjacent '/' does not contain "://". */
  lemma {:induction false} NoDoubleSlashNoScheme(s: string)
    requires forall i :: 0 <= i < |s| - 1 ==> !(s[i] == '/' && s[i + 1] == '/')
    ensures !Contains(s, "://")
    decreases |s|
  {
    if |s| >= 3 {
      assert s[..3] != "://" by { assert !(s[1] == '/' && s[2] == '/'); }
      NoDoubleSlashNoScheme(s[1..]);
    }
  }

  /** `s.split(sep)` for a one-character separator. */
  function Split(s: string, sep: char): (parts: seq<string>)
    ensures |parts| >= 1
  {
    if |s| == 0 then [""]
    else
      var rest := Split(s[1..], sep);
      if s[0] == sep then [""] + rest else [[s[0]] + rest[0]] + rest[1..]
  }

  /** No part holds the separator. */
  lemma {:induction false} SplitPartsFree(s: string, sep: char)
    ensures forall p :: p in Split(s, sep) ==> sep !in p
  {
    if |s| > 0 {
      SplitPartsFree(s[1..], sep);
      var rest := Split(s[1..], sep);
      if s[0] != sep {
        assert rest[0] in rest;
        forall p | p in [[s[0]] + rest[0]] + rest[1..] ensures sep !in p {
          if p != [s[0]] + rest[0] {
            assert p in rest;
          }
        }
      }
    }
  }

  lemma {:induction false} SplitNoSeparator(s: string, sep: char)
    requires sep !in s
    ensures Split(s, sep) == [s]
  {
    if |s| > 0 {
      SplitNoSeparator(s[1..], sep);
      assert [s[0]] + s[1..] == s;
    }
  }

  /** Splitting at the first separator. */
  lemma {:induction false} SplitAtSeparator(a: string, sep: char, b: string)
    requires sep !in a
    ensures Split(a + [sep] + b, sep) == [a] + Split(b, sep)
  {
    if |a| == 0 {
      assert (a + [sep] + b)[1..] == b;
    } else {
      assert (a + [sep] + b)[1..] == a[1..] + [sep] + b;
      SplitAtSeparator(a[1..], sep, b);
      assert [a[0]] + a[1..] == a;
    }
  }

  /** `[p for p in parts if p]` */
  function NonEmpty(parts: seq<string>): (r: seq<string>)
    ensures |r| <= |parts|
  {
    if |parts| == 0 then []
    else if parts[0] == [] then NonEmpty(parts[1..])
    else [parts[0]] + NonEmpty(parts[1..])
  }

  /** The kept parts are non-empty parts of the input. */
  lemma {:induction false} NonEmptyKept(parts: seq<string>)
    ensures forall p :: p in NonEmpty(parts) ==> p != [] && p in parts
  {
    if |parts| > 0 {
      NonEmptyKept(parts[1..]);
      forall p | p in NonEmpty(parts) ensures p != [] && p in parts {
        if p != parts[0] {
          assert p in parts[1..];
        }
      }
    }
  }

  lemma {:induction false} NonEmptyAppend(a: seq<string>, b: seq<string>)
    ensures NonEmpty(a + b) == NonEmpty(a) + NonEmpty(b)
  {
    if |a| > 0 {
      assert (a + b)[1..] == a[1..] + b;
      NonEmptyAppend(a[1..], b);
    } else {
      assert a + b == b;
    }
  }

  predicate IsAsciiDigit(c: char) { '0' <= c <= '9' }

  /** The code point of the zero of the run of ten Unicode decimal digits (general
      category Nd of Unicode 15.0, zero to nine in order) that holds `c`, or -1. These
      are the digits `int()` accepts and the regular expression `\d` matches in a `str`
      pattern; the ASCII run comes first. */
  function DecimalZero(c: char): (z: int)
    ensures z == -1 || 0x30 <= z <= c as int <= z + 9
    ensures z == 0x30 <==> IsAsciiDigit(c)
  {
    var n := c as int;
    if 0x30 <= n <= 0x39 then 0x30
    else if n < 0x660 then -1
    else if n < 0x660 then -1 else if n <= 0x669 then 0x660
    else if n < 0x6F0 then -1 else if n <= 0x6F9 then 0x6F0
    else if n < 0x7C0 then -1 else if n <= 0x7C9 then 0x7C0
    else if n < 0x966 then -1 else if n <= 0x96F then 0x966
    else if n < 0x9E6 then -1 else if n <= 0x9EF then 0x9E6
    else if n < 0xA66 then -1 else if n <= 0xA6F then 0xA66
    else if n < 0xAE6 then -1 else if n <= 0xAEF then 0xAE6
    else if n < 0xB66 then -1 else if n <= 0xB6F then 0xB66
    else if n < 0xBE6 then -1 else if n <= 0xBEF then 0xBE6
    else if n < 0xC66 then -1 else if n <= 0xC6F then 0xC66
    else if n < 0xCE6 then -1 else if n <= 0xCEF then 0xCE6
    else if n < 0xD66 then -1 else if n <= 0xD6F then 0xD66
    else if n < 0xDE6 then -1 else if n <= 0xDEF then 0xDE6
    else if n < 0xE50 then -1 else if n <= 0xE59 then 0xE50
    else if n < 0xED0 then -1 else if n <= 0xED9 then 0xED0
    else if n < 0xF20 then -1 else if n <= 0xF29 then 0xF20
    else if n < 0x1040 then -1 else if n <= 0x1049 then 0x1040
    else if n < 0x1090 then -1 else if n <= 0x1099 then 0x1090
    else if n < 0x17E0 then -1 else if n <= 0x17E9 then 0x17E0
    else if n < 0x1810 then -1 else if n <= 0x1819 then 0x1810
    else if n < 0x1946 then -1 else if n <= 0x194F then 0x1946
    else if n < 0x19D0 then -1 else if n <= 0x19D9 then 0x19D0
    else if n < 0x1A80 then -1 else if n <= 0x1A89 then 0x1A80
    else if n < 0x1A90 then -1 else if n <= 0x1A99 then 0x1A90
    else if n < 0x1B50 then -1 else if n <= 0x1B59 then 0x1B50
    else if n < 0x1BB0 then -1 else if n <= 0x1BB9 then 0x1BB0
    else if n < 0x1C40 then -1 else if n <= 0x1C49 then 0x1C40
    else if n < 0x1C50 then -1 else if n <= 0x1C59 then 0x1C50
    else if n < 0xA620 then -1 else if n <= 0xA629 then 0xA620
    else if n < 0xA8D0 then -1 else if n <= 0xA8D9 then 0xA8D0
    else if n < 0xA900 then -1 else if n <= 0xA909 then 0xA900
    else if n < 0xA9D0 then -1 else if n <= 0xA9D9 then 0xA9D0
    else if n < 0xA9F0 then -1 else if n <= 0xA9F9 then 0xA9F0
    else if n < 0xAA50 then -1 else if n <= 0xAA59 then 0xAA50
    else if n < 0xABF0 then -1 else if n <= 0xABF9 then 0xABF0
    else if n < 0xFF10 then -1 else if n <= 0xFF19 then 0xFF10
    else if n < 0x104A0 then -1 else if n <= 0x104A9 then 0x104A0
    else if n < 0x10D30 then -1 else if n <= 0x10D39 then 0x10D30
    else if n < 0x11066 then -1 else if n <= 0x1106F then 0x11066
    else if n < 0x110F0 then -1 else if n <= 0x110F9 then 0x110F0
    else if n < 0x11136 then -1 else if n <= 0x1113F then 0x11136
    else if n < 0x111D0 then -1 else if n <= 0x111D9 then 0x111D0
    else if n < 0x112F0 then -1 else if n <= 0x112F9 then 0x112F0
    else if n < 0x11450 then -1 else if n <= 0x11459 then 0x11450
    else if n < 0x114D0 then -1 else if n <= 0x114D9 then 0x114D0
    else if n < 0x11650 then -1 else if n <= 0x11659 then 0x11650
    else if n < 0x116C0 then -1 else if n <= 0x116C9 then 0x116C0
    else if n < 0x11730 then -1 else if n <= 0x11739 then 0x11730
    else if n < 0x118E0 then -1 else if n <= 0x118E9 then 0x118E0
    else if n < 0x11950 then -1 else if n <= 0x11959 then 0x11950
    else if n < 0x11C50 then -1 else if n <= 0x11C59 then 0x11C50
    else if n < 0x11D50 then -1 else if n <= 0x11D59 then 0x11D50
    else if n < 0x11DA0 then -1 else if n <= 0x11DA9 then 0x11DA0
    else if n < 0x11F50 then -1 else if n <= 0x11F59 then 0x11F50
    else if n < 0x16A60 then -1 else if n <= 0x16A69 then 0x16A60
    else if n < 0x16AC0 then -1 else if n <= 0x16AC9 then 0x16AC0
    else if n < 0x16B50 then -1 else if n <= 0x16B59 then 0x16B50
    else if n < 0x1D7CE then -1 else if n <= 0x1D7D7 then 0x1D7CE
    else if n < 0x1D7D8 then -1 else if n <= 0x1D7E1 then 0x1D7D8
    else if n < 0x1D7E2 then -1 else if n <= 0x1D7EB then 0x1D7E2
    else if n < 0x1D7EC then -1 else if n <= 0x1D7F5 then 0x1D7EC
    else if n < 0x1D7F6 then -1 else if n <= 0x1D7FF then 0x1D7F6
    else if n < 0x1E140 then -1 else if n <= 0x1E149 then 0x1E140
    else if n < 0x1E2F0 then -1 else if n <= 0x1E2F9 then 0x1E2F0
    else if n < 0x1E4F0 then -1 else if n <= 0x1E4F9 then 0x1E4F0
    else if n < 0x1E950 then -1 else if n <= 0x1E959 then 0x1E950
    else if n < 0x1FBF0 then -1 else if n <= 0x1FBF9 then 0x1FBF0
    else -1
  }

  /** `c.isdecimal()` */
  predicate IsDigit(c: char) { DecimalZero(c) >= 0 }

  /** The value of a decimal digit of any script. */
  function DigitValue(c: char): (d: nat)
    requires IsDigit(c)
    ensures d <= 9
    ensures IsAsciiDigit(c) ==> d == c as int - '0' as int
  {
    c as int - DecimalZero(c)
  }

  /** The value of a string of decimal digits. */
  function DigitsValue(ds: string): (n: nat)
    requires forall i :: 0 <= i < |ds| ==> IsDigit(ds[i])
  {
    if |ds| == 0 then 0 else DigitsValue(ds[..|ds| - 1]) * 10 + DigitValue(ds[|ds| - 1])
  }

  /** The characters of `s` that are not `c`. */
  function Without(s: string, c: char): (r: string)
    ensures c !in r
    ensures forall x :: x in r ==> x in s
  {
    if |s| == 0 then [] else (if s[0] == c then [] else [s[0]]) + Without(s[1..], c)
  }

  /** The digit body `int()` accepts: decimal digits of any script, with single underscores
      only between digits. */
  predicate IsIntBody(b: string) {
    && |b| > 0
    && forall i {:trigger b[i]} :: 0 <= i < |b| ==> IsDigit(b[i]) || (b[i] == '_' && 0 < i < |b| - 1 && IsDigit(b[i + 1]))
  }

  /** `int(s)` for base 10: surrounding whitespace, one optional sign,
      and underscores between digits are accepted; anything else raises (`None` here). */
  function ParseInt(s: string): (r: Option<int>)
    ensures r.Some? ==> Strip(s) != ""
  {
    var t := Strip(s);
    var negative := |t| > 0 && t[0] == '-';
    var body := if |t| > 0 && (t[0] == '-' || t[0] == '+') then t[1..] else t;
    if !IsIntBody(body) then None
    else
      var ds := Without(body, '_');
      assert forall i :: 0 <= i < |ds| ==> IsDigit(ds[i]) by {
        forall i | 0 <= i < |ds| ensures IsDigit(ds[i]) {
          assert ds[i] in body;
          var k :| 0 <= k < |body| && body[k] == ds[i];
          assert ds[i] != '_';
        }
      }
      var n: int := DigitsValue(ds);
      Some(if negative then -n else n)
  }

  /** No decimal digit is whitespace. */
  lemma DigitNotSpace(c: char)
    requires IsDigit(c)
    ensures !IsSpace(c) && c != '_' && c != '-' && c != '+'
  {
    if c as int < 0x660 {
      assert IsAsciiDigit(c);
    } else {
      assert c as int >= 0x660;
    }
  }

  /** A string of decimal digits with no sign, space or underscore is read as its value. */
  lemma ParseDigits(s: string)
    requires |s| > 0 && forall i :: 0 <= i < |s| ==> IsDigit(s[i])
    ensures ParseInt(s) == Some(DigitsValue(s))
  {
    DigitNotSpace(s[0]);
    DigitNotSpace(s[|s| - 1]);
    StripUnchanged(s);
    assert IsIntBody(s);
    WithoutAbsent(s, '_');
  }

  /** `int("\u0661\u0669\u0669\u0669")` is 1999: Arabic-Indic digits are decimal digits. */
  lemma OtherScriptInt(s: string)
    requires s == "\U{0661}\U{0669}\U{0669}\U{0669}"
    ensures ParseInt(s) == Some(1999)
  {
    assert DecimalZero(s[0]) == 0x660 && DecimalZero(s[1]) == 0x660;
    assert DecimalZero(s[2]) == 0x660 && DecimalZero(s[3]) == 0x660;
    assert DigitsValue(s[..1]) == 1 by { assert s[..1][..0] == []; }
    assert DigitsValue(s[..2]) == 19 by { assert s[..2][..1] == s[..1]; }
    assert DigitsValue(s[..3]) == 199 by { assert s[..3][..2] == s[..2]; }
    assert DigitsValue(s) == 1999 by { assert s[..3] == s[..|s| - 1]; }
    ParseDigits(s);
  }

  /** Searching past a prefix that lacks the character. */
  lemma FindAfter(a: string, b: string, c: char)
    requires c !in a
    ensures Find(a + b, c) == if c in b then |a| + Find(b, c) else -1
  {
    if c in b {
      var j := Find(b, c);
      assert (a + b)[..|a| + j] == a + b[..j];
      FindAt(a + b, c, |a| + j);
    } else {
      assert c !in a + b;
    }
  }

  /** Searching a prefix that already holds the character. */
  lemma FindBefore(a: string, b: string, c: char)
    requires c in a
    ensures Find(a + b, c) == Find(a, c)
  {
    var j := Find(a, c);
    assert (a + b)[..j] == a[..j];
    FindAt(a + b, c, j);
  }

  lemma {:induction false} WithoutAppend(a: string, b: string, c: char)
    ensures Without(a + b, c) == Without(a, c) + Without(b, c)
  {
    if |a| > 0 {
      assert (a + b)[1..] == a[1..] + b;
      WithoutAppend(a[1..], b, c);
    } else {
      assert a + b == b;
    }
  }

  lemma {:induction false} WithoutAbsent(s: string, c: char)
    requires c !in s
    ensures Without(s, c) == s
  {
    if |s| > 0 {
      WithoutAbsent(s[1..], c);
      assert [s[0]] + s[1..] == s;
    }
  }
}
