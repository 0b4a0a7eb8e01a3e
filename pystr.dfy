/**
 The parts of Python's `str` behaviour that the adherence script relies on:
 whitespace and `strip`, single-character `replace`, `startswith`/`endswith`,
 the `in` substring test, string ordering, `split` on one character, and the
 base-10 `int()` and `str()` conversions.

 Only ASCII digits are modelled as digits: Python also accepts the other
 Unicode decimal digits in `int()` and in `strptime`.
 */
module PyStr {
  import opened Wrappers

  /** The characters for which Python's `str.isspace()` holds. */
  const Whitespace: set<char> := {
    '\t', '\n', '\U{000B}', '\U{000C}', '\r',
    '\U{001C}', '\U{001D}', '\U{001E}', '\U{001F}', ' ',
    '\U{0085}', '\U{00A0}', '\U{1680}',
    '\U{2000}', '\U{2001}', '\U{2002}', '\U{2003}', '\U{2004}', '\U{2005}',
    '\U{2006}', '\U{2007}', '\U{2008}', '\U{2009}', '\U{200A}',
    '\U{2028}', '\U{2029}', '\U{202F}', '\U{205F}', '\U{3000}'
  }

  /** `s.strip() == ""`: the string holds whitespace only. */
  predicate IsBlank(s: string) {
    forall i :: 0 <= i < |s| ==> s[i] in Whitespace
  }

  predicate IsDigit(c: char) {
    '0' <= c <= '9'
  }

  predicate AllDigits(s: string) {
    forall i :: 0 <= i < |s| ==> IsDigit(s[i])
  }

  function DigitValue(c: char): (d: nat)
    requires IsDigit(c)
    ensures d < 10
  {
    c as int - '0' as int
  }

  function DigitChar(d: nat): (c: char)
    requires d < 10
    ensures IsDigit(c) && DigitValue(c) == d
  {
    ('0' as int + d) as char
  }

  /** The number a string of decimal digits denotes. */
  function DigitsValue(s: string): nat
    requires AllDigits(s)
    decreases |s|
  {
    if s == [] then 0 else 10 * DigitsValue(s[..|s| - 1]) + DigitValue(s[|s| - 1])
  }

  /** `str(n)` for a natural number: its decimal digits, without a leading zero. */
  function NatToString(n: nat): (r: string)
    ensures |r| > 0 && AllDigits(r) && DigitsValue(r) == n
    ensures r[0] == '0' ==> n == 0
    decreases n
  {
    if n < 10 then [DigitChar(n)]
    else
      var p := NatToString(n / 10);
      var r := p + [DigitChar(n % 10)];
      assert r[..|r| - 1] == p;
      r
  }

  /** `s.replace(a, b)` for single characters `a` and `b`. */
  function ReplaceChar(s: string, a: char, b: char): (r: string)
    ensures |r| == |s|
    ensures forall i :: 0 <= i < |s| && s[i] != a ==> r[i] == s[i]
    ensures forall i :: 0 <= i < |s| && s[i] == a ==> r[i] == b
    ensures a != b ==> a !in r
    decreases |s|
  {
    if s == [] then []
    else [if s[0] == a then b else s[0]] + ReplaceChar(s[1..], a, b)
  }

  predicate StartsWith(s: string, prefix: string) {
    |prefix| <= |s| && s[..|prefix|] == prefix
  }

  predicate EndsWith(s: string, suffix: string) {
    |suffix| <= |s| && s[|s| - |suffix|..] == suffix
  }

  /** `s.rstrip(chars)`: the longest prefix of `s` not ending in one of `chars`. */
  function RStrip(s: string, chars: set<char>): (r: string)
    ensures |r| <= |s| && r == s[..|r|]
    ensures |r| > 0 ==> r[|r| - 1] !in chars
    ensures forall i :: |r| <= i < |s| ==> s[i] in chars
    decreases |s|
  {
    if |s| > 0 && s[|s| - 1] in chars then RStrip(s[..|s| - 1], chars) else s
  }

  /** `s.lstrip(chars)`: the longest suffix of `s` not starting with one of `chars`. */
  function LStrip(s: string, chars: set<char>): (r: string)
    ensures |r| <= |s| && r == s[|s| - |r|..]
    ensures |r| > 0 ==> r[0] !in chars
    ensures forall i :: 0 <= i < |s| - |r| ==> s[i] in chars
    decreases |s|
  {
    if |s| > 0 && s[0] in chars then LStrip(s[1..], chars) else s
  }

  /** `s.strip(chars)`: both ends stripped of `chars`. */
  function Strip(s: string, chars: set<char>): (r: string)
    ensures |r| <= |s|
    ensures |r| > 0 ==> r[0] !in chars && r[|r| - 1] !in chars
    ensures (forall i :: 0 <= i < |s| ==> s[i] !in chars) ==> r == s
  {
    LStrip(RStrip(s, chars), chars)
  }

  /** What `Strip` leaves: the infix of `s` at `StripStart(s, chars)`, between runs of `chars`. */
  lemma StripInfix(s: string, chars: set<char>)
    ensures StripStart(s, chars) + |Strip(s, chars)| <= |s|
    ensures Strip(s, chars) == s[StripStart(s, chars)..StripStart(s, chars) + |Strip(s, chars)|]
    ensures forall k :: 0 <= k < StripStart(s, chars) ==> s[k] in chars
    ensures forall k :: StripStart(s, chars) + |Strip(s, chars)| <= k < |s| ==> s[k] in chars
  {
    var t := RStrip(s, chars);
    var r := LStrip(t, chars);
    SuffixOfPrefix(s, t, r, chars);
  }

  /** A suffix `r` of a prefix `t` of `s`, cut from `t` after a run of `chars`, is the
      infix of `s` that ends where `t` does, with only `chars` before it. */
  lemma SuffixOfPrefix(s: string, t: string, r: string, chars: set<char>)
    requires |t| <= |s| && t == s[..|t|]
    requires |r| <= |t| && r == t[|t| - |r|..]
    requires forall i :: 0 <= i < |t| - |r| ==> t[i] in chars
    ensures r == s[|t| - |r|..|t|]
    ensures forall k :: 0 <= k < |t| - |r| ==> s[k] in chars
  {
    assert forall k :: 0 <= k < |t| ==> s[k] == t[k];
  }

  /** The length of the run of `chars` that `Strip` removes at the front of `s`. */
  function StripStart(s: string, chars: set<char>): nat {
    |RStrip(s, chars)| - |LStrip(RStrip(s, chars), chars)|
  }

  /** Python's `pat in s` for two strings. */
  predicate Contains(s: string, pat: string)
    decreases |s|
  {
    StartsWith(s, pat) || (|s| > 0 && Contains(s[1..], pat))
  }

  /** `pat` occurs in `s` starting at position `i`. */
  predicate OccursAt(s: string, pat: string, i: int) {
    0 <= i <= |s| - |pat| && s[i..i + |pat|] == pat
  }

  /** `Contains` holds exactly when `pat` occurs at some position of `s`. */
  lemma {:induction false} ContainsIffOccurs(s: string, pat: string)
    ensures Contains(s, pat) <==> exists i :: OccursAt(s, pat, i)
    decreases |s|
  {
    if StartsWith(s, pat) {
      assert OccursAt(s, pat, 0);
    } else if |s| > 0 {
      ContainsIffOccurs(s[1..], pat);
      if Contains(s[1..], pat) {
        var j :| OccursAt(s[1..], pat, j);
        assert s[j + 1..j + 1 + |pat|] == s[1..][j..j + |pat|];
        assert OccursAt(s, pat, j + 1);
      }
      if i :| OccursAt(s, pat, i) {
        assert i != 0;
        assert s[1..][i - 1..i - 1 + |pat|] == s[i..i + |pat|];
        assert OccursAt(s[1..], pat, i - 1);
      }
    } else {
      assert |pat| > 0;
    }
  }

  /** Python's `a < b` on strings: code points compared left to right, a proper prefix first. */
  predicate LexLess(a: string, b: string)
    decreases |a|
  {
    |b| > 0 && (|a| == 0 || a[0] < b[0] || (a[0] == b[0] && LexLess(a[1..], b[1..])))
  }

  lemma {:induction false} LexLessIrreflexive(a: string)
    ensures !LexLess(a, a)
    decreases |a|
  {
    if |a| > 0 {
      LexLessIrreflexive(a[1..]);
    }
  }

  lemma {:induction false} LexLessAsymmetric(a: string, b: string)
    ensures LexLess(a, b) ==> !LexLess(b, a)
    decreases |a|
  {
    if |a| > 0 && |b| > 0 && a[0] == b[0] {
      LexLessAsymmetric(a[1..], b[1..]);
    }
  }

  lemma {:induction false} LexLessTransitive(a: string, b: string, c: string)
    requires LexLess(a, b) && LexLess(b, c)
    ensures LexLess(a, c)
    decreases |a|
  {
    if |a| > 0 && a[0] == b[0] && b[0] == c[0] {
      LexLessTransitive(a[1..], b[1..], c[1..]);
    }
  }

  lemma {:induction false} LexLessTotal(a: string, b: string)
    ensures a == b || LexLess(a, b) || LexLess(b, a)
    decreases |a|
  {
    if |a| > 0 && |b| > 0 && a[0] == b[0] {
      LexLessTotal(a[1..], b[1..]);
      if a[1..] == b[1..] {
        assert a == [a[0]] + a[1..] && b == [b[0]] + b[1..];
      }
    }
  }

  /** `s.split(sep)` for a one-character separator: never empty, no part holds `sep`. */
  function Split(s: string, sep: char): (parts: seq<string>)
    ensures |parts| > 0
    ensures forall i :: 0 <= i < |parts| ==> sep !in parts[i]
    decreases |s|
  {
    if s == [] then [""]
    else
      var rest := Split(s[1..], sep);
      if s[0] == sep then [""] + rest else [[s[0]] + rest[0]] + rest[1..]
  }

  /** `sep.join(parts)` for a one-character separator. */
  function Join(parts: seq<string>, sep: char): string
    decreases |parts|
  {
    if |parts| == 0 then ""
    else if |parts| == 1 then parts[0]
    else parts[0] + [sep] + Join(parts[1..], sep)
  }

  /** Splitting a part that holds no separator, followed by anything, keeps the part whole. */
  lemma {:induction false} SplitPrefix(p: string, tail: string, sep: char)
    requires sep !in p
    ensures Split(p + tail, sep) == [p + Split(tail, sep)[0]] + Split(tail, sep)[1..]
    decreases |p|
  {
    var t := Split(tail, sep);
    if p != [] {
      SplitPrefix(p[1..], tail, sep);
      assert p[0] != sep;
      assert (p + tail)[0] == p[0];
      assert (p + tail)[1..] == p[1..] + tail;
      assert [p[0]] + (p[1..] + t[0]) == p + t[0];
    } else {
      assert p + tail == tail;
      assert p + t[0] == t[0];
      assert t == [t[0]] + t[1..];
    }
  }

  /** Joining parts without separators and splitting again gives the parts back. */
  lemma {:induction false} SplitJoin(parts: seq<string>, sep: char)
    requires |parts| > 0
    requires forall i :: 0 <= i < |parts| ==> sep !in parts[i]
    ensures Split(Join(parts, sep), sep) == parts
    decreases |parts|
  {
    if |parts| == 1 {
      SplitPrefix(parts[0], "", sep);
      assert parts[0] + "" == parts[0];
    } else {
      var rest := Join(parts[1..], sep);
      SplitJoin(parts[1..], sep);
      SplitPrefix(parts[0], [sep] + rest, sep);
      assert parts[0] + [sep] + rest == parts[0] + ([sep] + rest);
      assert ([sep] + rest)[1..] == rest;
      assert parts[0] + "" == parts[0];
      assert parts == [parts[0]] + parts[1..];
    }
  }

  /** Digits with single underscores between them, as `int()` accepts in base 10. */
  predicate IsDigitGroups(s: string)
    decreases |s|
  {
    && |s| > 0 && IsDigit(s[0])
    && (|s| == 1 || (if s[1] == '_' then IsDigitGroups(s[2..]) else IsDigitGroups(s[1..])))
  }

  /** The string without its underscores. */
  function RemoveUnderscores(s: string): string
    decreases |s|
  {
    if s == [] then [] else (if s[0] == '_' then [] else [s[0]]) + RemoveUnderscores(s[1..])
  }

  lemma {:induction false} DigitGroupsDigits(s: string)
    requires IsDigitGroups(s)
    ensures AllDigits(RemoveUnderscores(s))
    decreases |s|
  {
    if |s| > 1 {
      if s[1] == '_' {
        DigitGroupsDigits(s[2..]);
        assert RemoveUnderscores(s[1..]) == RemoveUnderscores(s[2..]);
      } else {
        DigitGroupsDigits(s[1..]);
      }
    }
  }

  lemma {:induction false} AllDigitsGroups(s: string)
    requires |s| > 0 && AllDigits(s)
    ensures IsDigitGroups(s) && RemoveUnderscores(s) == s
    decreases |s|
  {
    if |s| > 1 {
      AllDigitsGroups(s[1..]);
      assert s == [s[0]] + s[1..];
    }
  }

  /** A sign, then digit groups, without surrounding whitespace. */
  function ParseSigned(t: string): Option<int> {
    if |t| > 0 && (t[0] == '+' || t[0] == '-') then
      var body := t[1..];
      if IsDigitGroups(body) then
        DigitGroupsDigits(body);
        var v := DigitsValue(RemoveUnderscores(body)) as int;
        Some(if t[0] == '-' then -v else v)
      else None
    else if IsDigitGroups(t) then
      DigitGroupsDigits(t);
      Some(DigitsValue(RemoveUnderscores(t)) as int)
    else None
  }

  /** `int(s)` in base 10, with `None` where Python raises `ValueError`; whitespace around the number is ignored. */
  function ParseInt(s: string): (r: Option<int>)
    ensures (forall i :: 0 <= i < |s| ==> s[i] in Whitespace) ==> r.None?
    decreases |s|
  {
    if |s| > 0 && s[0] in Whitespace then ParseInt(s[1..])
    else if |s| > 0 && s[|s| - 1] in Whitespace then ParseInt(s[..|s| - 1])
    else ParseSigned(s)
  }

  /** `int()` reads the same number with or without the surrounding whitespace. */
  lemma {:induction false} ParseIntStrips(s: string)
    ensures ParseInt(s) == ParseSigned(Strip(s, Whitespace))
    decreases |s|
  {
    if |s| > 0 && s[0] in Whitespace {
      ParseIntStrips(s[1..]);
      StripFront(s, Whitespace);
    } else if |s| > 0 && s[|s| - 1] in Whitespace {
      ParseIntStrips(s[..|s| - 1]);
      StripBack(s, Whitespace);
    } else {
      StripNothing(s, Whitespace);
    }
  }

  lemma StripFront(s: string, chars: set<char>)
    requires |s| > 0 && s[0] in chars
    ensures Strip(s, chars) == Strip(s[1..], chars)
    decreases |s|
  {
    StripFrontR(s, chars);
  }

  lemma {:induction false} StripFrontR(s: string, chars: set<char>)
    requires |s| > 0 && s[0] in chars
    ensures RStrip(s, chars) == [] || (RStrip(s, chars)[0] == s[0] && RStrip(s, chars)[1..] == RStrip(s[1..], chars))
    ensures RStrip(s, chars) == [] ==> RStrip(s[1..], chars) == []
    decreases |s|
  {
    if |s| > 1 && s[|s| - 1] in chars {
      StripFrontR(s[..|s| - 1], chars);
      assert s[..|s| - 1][1..] == s[1..][..|s[1..]| - 1];
    } else if |s| > 1 {
      assert s[1..][|s[1..]| - 1] == s[|s| - 1];
    }
  }

  lemma StripBack(s: string, chars: set<char>)
    requires |s| > 0 && s[|s| - 1] in chars
    ensures Strip(s, chars) == Strip(s[..|s| - 1], chars)
  {
  }

  lemma StripNothing(s: string, chars: set<char>)
    requires |s| > 0 ==> s[0] !in chars && s[|s| - 1] !in chars
    ensures Strip(s, chars) == s
  {
  }

  /** No decimal digit is whitespace. */
  lemma DigitIsNotSpace(c: char)
    requires IsDigit(c)
    ensures c !in Whitespace
  {
  }

  /** A concatenation splits back at the length of its first part. */
  lemma SliceConcat(a: string, b: string)
    ensures (a + b)[..|a|] == a && (a + b)[|a|..] == b
  {
  }

  /** Two numbers written in decimal around a slash are split back into the two, as `str` wrote them. */
  lemma SplitDecimalPair(k: nat, n: nat)
    ensures Split(NatToString(k) + "/" + NatToString(n), '/') == [NatToString(k), NatToString(n)]
  {
    var passes, size := NatToString(k), NatToString(n);
    assert passes + "/" + size == Join([passes, size], '/');
    assert '/' !in passes && '/' !in size;
    SplitJoin([passes, size], '/');
  }

  /** `int()` reads a run of decimal digits, leading zeros included, as its value. */
  lemma ParseIntDigits(s: string)
    requires |s| > 0 && AllDigits(s)
    ensures ParseInt(s) == Some(DigitsValue(s))
  {
    DigitIsNotSpace(s[0]);
    DigitIsNotSpace(s[|s| - 1]);
    AllDigitsGroups(s);
    assert s[0] != '+' && s[0] != '-';
  }

  /** `int(str(n)) == n` for every natural number. */
  lemma ParseIntOfString(n: nat)
    ensures ParseInt(NatToString(n)) == Some(n)
  {
    var s := NatToString(n);
    DigitIsNotSpace(s[0]);
    DigitIsNotSpace(s[|s| - 1]);
    AllDigitsGroups(s);
    assert s[0] != '+' && s[0] != '-';
  }
}
