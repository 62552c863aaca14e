/**
 * The string functions of the JavaScript host that the core relies on (lower-casing on ASCII letters only):
 * `trim`, `toLowerCase`, `includes`, `startsWith`, `join`, `split`, `pop` after a split,
 * and the decimal text of integers as produced by `String(n)` and read back by
 * `parseInt`, `parseFloat` and `Number`.
 */
module Strings {
  import opened Wrappers

  /**
   * The whitespace and line terminators that `trim` removes: tab, line feed,
   * vertical tab, form feed, carriage return, space, no-break space, the other
   * space separators of Unicode (U+1680, U+2000 to U+200A, U+202F, U+205F,
   * U+3000), the line and paragraph separators and the byte order mark.
   */
  predicate IsSpace(c: char) {
    var n := c as int;
    || 9 <= n <= 13
    || n == 0x20 || n == 0xA0 || n == 0x1680
    || 0x2000 <= n <= 0x200A
    || n == 0x2028 || n == 0x2029 || n == 0x202F || n == 0x205F
    || n == 0x3000 || n == 0xFEFF
  }

  /** Every character of `s` is whitespace (this includes the empty string). */
  predicate IsBlank(s: string) {
    forall i | 0 <= i < |s| :: IsSpace(s[i])
  }

  /** `s.trimStart()`. */
  function TrimStart(s: string): (r: string)
    ensures |r| <= |s| && r == s[|s| - |r|..]
    ensures IsBlank(s[..|s| - |r|])
    ensures |r| > 0 ==> !IsSpace(r[0])
    decreases |s|
  {
    if |s| > 0 && IsSpace(s[0]) then TrimStart(s[1..]) else s
  }

  /** `s.trimEnd()`. */
  function TrimEnd(s: string): (r: string)
    ensures |r| <= |s| && r == s[..|r|]
    ensures IsBlank(s[|r|..])
    ensures |r| > 0 ==> !IsSpace(r[|r| - 1])
    decreases |s|
  {
    if |s| > 0 && IsSpace(s[|s| - 1]) then TrimEnd(s[..|s| - 1]) else s
  }

  /** `s.trim()`: empty exactly when `s` is blank; otherwise it begins and ends with a non-space. */
  function Trim(s: string): (r: string)
    ensures r == "" <==> IsBlank(s)
    ensures |r| > 0 ==> !IsSpace(r[0]) && !IsSpace(r[|r| - 1])
  {
    TrimEmptyIffBlank(s);
    TrimEnd(TrimStart(s))
  }

  lemma TrimEmptyIffBlank(s: string)
    ensures TrimEnd(TrimStart(s)) == "" <==> IsBlank(s)
  {
    var t := TrimStart(s);
    var k := |s| - |t|;
    assert s == s[..k] + t;
    if TrimEnd(t) == "" {
      assert t[0..] == t;
      assert |t| == 0;
      assert s[..k] == s;
    }
    if |t| > 0 {
      assert t[0] == s[k];
      assert !IsSpace(s[k]);
    }
  }

  /** ASCII `toLowerCase` of one character. */
  function LowerChar(c: char): char {
    if 'A' <= c <= 'Z' then (c as int + 32) as char else c
  }

  /** `s.toLowerCase()` on ASCII letters; other characters are kept. */
  function Lower(s: string): (r: string)
    ensures |r| == |s|
  {
    seq(|s|, i requires 0 <= i < |s| => LowerChar(s[i]))
  }

  /** `s.includes(t)`: `t` occurs in `s` at some position. */
  predicate Contains(s: string, t: string) {
    exists i | 0 <= i <= |s| - |t| :: OccursAt(s, t, i)
  }

  /** `t` occurs in `s` starting at index `i`. */
  predicate OccursAt(s: string, t: string, i: int)
    requires 0 <= i <= |s| - |t|
  {
    s[i..i + |t|] == t
  }

  /** `s.includes('')` is true for every `s`, so an empty search term matches everything. */
  lemma ContainsEmpty(s: string)
    ensures Contains(s, "")
  {
    assert OccursAt(s, "", 0);
  }

  /** `s.startsWith(p)`. */
  predicate StartsWith(s: string, p: string) {
    |p| <= |s| && s[..|p|] == p
  }

  /** A string starts with any string it is built from by appending. */
  lemma StartsWithConcat(p: string, rest: string)
    ensures StartsWith(p + rest, p)
  {
    assert (p + rest)[..|p|] == p;
  }

  /** `xs.join(sep)`. */
  function Join(xs: seq<string>, sep: string): string
    decreases |xs|
  {
    if |xs| == 0 then ""
    else if |xs| == 1 then xs[0]
    else xs[0] + sep + Join(xs[1..], sep)
  }

  /** Text that occurs in `s` still occurs once something is put in front of `s`. */
  lemma ContainsAfter(pre: string, s: string, t: string)
    requires Contains(s, t)
    ensures Contains(pre + s, t)
  {
    var i :| 0 <= i <= |s| - |t| && OccursAt(s, t, i);
    assert (pre + s)[|pre| + i..|pre| + i + |t|] == s[i..i + |t|];
    assert OccursAt(pre + s, t, |pre| + i);
  }

  /** Every element of a list occurs in the list's join, whatever the separator. */
  lemma {:induction false} JoinContains(xs: seq<string>, sep: string, i: int)
    requires 0 <= i < |xs|
    ensures Contains(Join(xs, sep), xs[i])
    decreases |xs|
  {
    var j := Join(xs, sep);
    if i == 0 {
      if |xs| > 1 {
        assert j == xs[0] + (sep + Join(xs[1..], sep));
      }
      assert j[0..|xs[0]|] == xs[0];
      assert OccursAt(j, xs[0], 0);
    } else {
      JoinContains(xs[1..], sep, i - 1);
      assert j == (xs[0] + sep) + Join(xs[1..], sep);
      ContainsAfter(xs[0] + sep, Join(xs[1..], sep), xs[i]);
    }
  }

  /**
   * `s.split(sep)` for a non-empty separator: the pieces between the
   * occurrences of `sep`, matched from the left without overlap. A string
   * without `sep` (the empty string included) gives one piece.
   */
  function Split(s: string, sep: string): (r: seq<string>)
    requires |sep| > 0
    ensures |r| > 0
    decreases |s|
  {
    if |s| == 0 then [""]
    else if StartsWith(s, sep) then [""] + Split(s[|sep|..], sep)
    else
      var rest := Split(s[1..], sep);
      [[s[0]] + rest[0]] + rest[1..]
  }

  /** The separator of tag lists, in both directions. */
  const TagSeparator: string := ", "

  /** Splitting `x + ", " + rest`, where `x` holds no separator, yields `x` and then the pieces of `rest`. */
  lemma {:induction false} SplitAfterPiece(x: string, rest: string)
    requires !Contains(x, TagSeparator)
    ensures Split(x + TagSeparator + rest, TagSeparator) == [x] + Split(rest, TagSeparator)
    decreases |x|
  {
    var s := x + TagSeparator + rest;
    if |x| == 0 {
      assert s == TagSeparator + rest;
      assert s[|TagSeparator|..] == rest;
    } else {
      var x' := x[1..];
      if |x'| > 0 {
        assert !OccursAt(x, TagSeparator, 0);
        assert x[0..2] == s[..2];
      } else {
        assert s[1] == ',';
      }
      assert !StartsWith(s, TagSeparator);
      NoSeparatorInTail(x);
      assert s[1..] == x' + TagSeparator + rest;
      SplitAfterPiece(x', rest);
      assert [x[0]] + x' == x;
    }
  }

  /** A string without the separator is one piece. */
  lemma {:induction false} SplitWithoutSeparator(x: string)
    requires !Contains(x, TagSeparator)
    ensures Split(x, TagSeparator) == [x]
    decreases |x|
  {
    if |x| > 0 {
      if |x| >= 2 {
        assert !OccursAt(x, TagSeparator, 0);
      }
      assert !StartsWith(x, TagSeparator);
      NoSeparatorInTail(x);
      SplitWithoutSeparator(x[1..]);
      assert [x[0]] + x[1..] == x;
    }
  }

  /** Removing the first character cannot create an occurrence of the separator. */
  lemma NoSeparatorInTail(x: string)
    requires |x| > 0 && !Contains(x, TagSeparator)
    ensures !Contains(x[1..], TagSeparator)
  {
    if Contains(x[1..], TagSeparator) {
      var i :| 0 <= i <= |x[1..]| - |TagSeparator| && OccursAt(x[1..], TagSeparator, i);
      assert x[i + 1..i + 1 + |TagSeparator|] == x[1..][i..i + |TagSeparator|];
      assert OccursAt(x, TagSeparator, i + 1);
    }
  }

  /**
   * Splitting a joined list gives the list back, provided no element holds the
   * separator. (A list whose last element is `""` joins and splits back too.)
   */
  lemma {:induction false} SplitJoin(xs: seq<string>)
    requires |xs| > 0
    requires forall i | 0 <= i < |xs| :: !Contains(xs[i], TagSeparator)
    ensures Split(Join(xs, TagSeparator), TagSeparator) == xs
    decreases |xs|
  {
    if |xs| == 1 {
      SplitWithoutSeparator(xs[0]);
    } else {
      SplitJoin(xs[1..]);
      SplitAfterPiece(xs[0], Join(xs[1..], TagSeparator));
      assert [xs[0]] + xs[1..] == xs;
    }
  }

  /** The last element of a non-empty sequence (`pop` of the array `split` returns). */
  function Last<T>(xs: seq<T>): T
    requires |xs| > 0
  {
    xs[|xs| - 1]
  }

  /**
   * The last piece of a split on one character is the text after the last
   * occurrence of that character, or the whole string when it has none.
   */
  lemma {:induction false} SplitLastPiece(s: string, c: char)
    ensures var r := Last(Split(s, [c]));
      && |r| <= |s| && r == s[|s| - |r|..]
      && c !in r
      && (|r| == |s| || s[|s| - |r| - 1] == c)
      && (c !in s <==> |Split(s, [c])| == 1)
    decreases |s|
  {
    if |s| > 0 {
      SplitLastPiece(s[1..], c);
      var rest := Split(s[1..], [c]);
      if StartsWith(s, [c]) {
        assert s[|[c]|..] == s[1..];
        assert s[0] == c;
      } else {
        assert s[0] != c;
        if |rest| == 1 {
          assert s == [s[0]] + s[1..];
        }
      }
    }
  }

  // ---- decimal text of integers ----

  predicate IsDigit(c: char) {
    '0' <= c <= '9'
  }

  predicate AllDigits(s: string) {
    forall i | 0 <= i < |s| :: IsDigit(s[i])
  }

  function DigitChar(d: nat): (c: char)
    requires d < 10
    ensures IsDigit(c)
  {
    ('0' as int + d) as char
  }

  function DigitValue(c: char): (d: nat)
    requires IsDigit(c)
    ensures d < 10
  {
    c as int - '0' as int
  }

  /** `String(n)` for a natural number: its decimal digits, most significant first, without leading zeros. */
  function NatToString(n: nat): (r: string)
    ensures |r| > 0 && AllDigits(r)
    ensures |r| > 1 ==> r[0] != '0'
    decreases n
  {
    if n < 10 then [DigitChar(n)] else NatToString(n / 10) + [DigitChar(n % 10)]
  }

  /** `String(n)` for an integer. */
  function IntToString(n: int): (r: string)
    ensures |r| > 0
    ensures n < 0 <==> r[0] == '-'
    ensures !IsSpace(r[0]) && !IsSpace(r[|r| - 1])
  {
    if n < 0 then "-" + NatToString(-n) else NatToString(n)
  }

  /** The number a string of decimal digits denotes. */
  function DigitsValue(ds: string): nat
    requires AllDigits(ds)
    decreases |ds|
  {
    if |ds| == 0 then 0 else DigitsValue(ds[..|ds| - 1]) * 10 + DigitValue(ds[|ds| - 1])
  }

  /** The longest prefix of `s` made of decimal digits. */
  function LeadingDigits(s: string): (r: string)
    ensures AllDigits(r) && r <= s
    ensures |r| < |s| ==> !IsDigit(s[|r|])
    decreases |s|
  {
    if |s| > 0 && IsDigit(s[0]) then [s[0]] + LeadingDigits(s[1..]) else ""
  }

  /** Reading back the digits of `String(n)` gives `n`. */
  lemma {:induction false} DigitsValueOfNatToString(n: nat)
    ensures DigitsValue(NatToString(n)) == n
    decreases n
  {
    if n >= 10 {
      DigitsValueOfNatToString(n / 10);
      var ds := NatToString(n);
      assert ds[..|ds| - 1] == NatToString(n / 10);
    }
  }

  /** A string made only of digits is its own longest digit prefix. */
  lemma {:induction false} LeadingDigitsOfDigits(s: string)
    requires AllDigits(s)
    ensures LeadingDigits(s) == s
    decreases |s|
  {
    if |s| > 0 {
      LeadingDigitsOfDigits(s[1..]);
      assert [s[0]] + s[1..] == s;
    }
  }

  /** The optional sign in front of the digits that `parseInt`, `parseFloat` and `Number` accept. */
  function Sign(t: string): int {
    if |t| > 0 && t[0] == '-' then -1 else 1
  }

  /** What follows the optional sign. */
  function Unsigned(t: string): string {
    if |t| > 0 && (t[0] == '-' || t[0] == '+') then t[1..] else t
  }

  /**
   * `parseInt(s)` / `parseFloat(s)` restricted to integer text: leading
   * whitespace is skipped, then an optional sign and the longest run of digits
   * is read; anything after it is ignored. `None` stands for `NaN`.
   */
  function ParseLeadingInt(s: string): (r: Option<int>)
    ensures r.None? <==> LeadingDigits(Unsigned(TrimStart(s))) == ""
  {
    var t := TrimStart(s);
    var ds := LeadingDigits(Unsigned(t));
    if ds == "" then None else Some(Sign(t) * DigitsValue(ds))
  }

  /**
   * `Number(s)` restricted to integer text: surrounding whitespace is trimmed;
   * the empty result is `0`; otherwise the whole rest must be an optional sign
   * and at least one digit. `None` stands for `NaN`.
   */
  function StringToNumber(s: string): (r: Option<int>)
    ensures IsBlank(s) ==> r == Some(0)
  {
    var t := Trim(s);
    var rest := Unsigned(t);
    if t == "" then Some(0)
    else if rest != "" && AllDigits(rest) then Some(Sign(t) * DigitsValue(rest))
    else None
  }

  /** The sign and the digits of `String(n)`. */
  lemma SignOfIntToString(n: int)
    ensures var s := IntToString(n);
      Unsigned(s) == NatToString(if n < 0 then -n else n) && Sign(s) == (if n < 0 then -1 else 1)
  {
    var s := IntToString(n);
    if n < 0 {
      assert s[1..] == NatToString(-n);
    } else {
      assert IsDigit(s[0]);
    }
  }

  /** `parseInt(String(n)) == n`: the text of an integer reads back as that integer. */
  lemma ParseLeadingIntOfIntToString(n: int)
    ensures ParseLeadingInt(IntToString(n)) == Some(n)
  {
    var m: nat := if n < 0 then -n else n;
    DigitsValueOfNatToString(m);
    LeadingDigitsOfDigits(NatToString(m));
    SignOfIntToString(n);
    assert TrimStart(IntToString(n)) == IntToString(n);
  }

  /** `Number(String(n)) == n`. */
  lemma StringToNumberOfIntToString(n: int)
    ensures StringToNumber(IntToString(n)) == Some(n)
  {
    var m: nat := if n < 0 then -n else n;
    DigitsValueOfNatToString(m);
    SignOfIntToString(n);
    TrimOfUnpadded(IntToString(n));
  }

  /** A string that neither begins nor ends with whitespace is its own trim. */
  lemma TrimOfUnpadded(s: string)
    requires |s| > 0 && !IsSpace(s[0]) && !IsSpace(s[|s| - 1])
    ensures Trim(s) == s
  {
  }
}
