/**
 * The Python string built-ins the core relies on, restricted to ASCII:
 * `str.replace`, `in` on strings, `str.strip`/`lstrip`/`rstrip`,
 * `str.isnumeric`, `int` on a digit string, `str` on a natural number,
 * `str.lower`, `str.rjust`/`ljust`, `str * n`, `sep.join`,
 * `textwrap.indent` and `urllib.parse.unquote`.
 */
module PyStr {

  /** The ASCII characters for which `str.isspace` holds. */
  const Whitespace: string := " \t\n\r\U{0B}\U{0C}\U{1C}\U{1D}\U{1E}\U{1F}"

  /** The ASCII line boundaries of `str.splitlines` ("\r\n" counts as one boundary). */
  predicate IsLineBreak(c: char) {
    c == '\n' || c == '\r' || c == '\U{0B}' || c == '\U{0C}' || c == '\U{1C}' || c == '\U{1D}' || c == '\U{1E}'
  }

  predicate StartsWith(s: string, p: string) {
    |p| <= |s| && s[..|p|] == p
  }

  /** `p in s`: `p` occurs somewhere in `s`. */
  predicate Contains(s: string, p: string)
    decreases |s|
  {
    StartsWith(s, p) || (s != [] && Contains(s[1..], p))
  }

  lemma {:induction false} ContainsAt(s: string, p: string, i: nat)
    requires i + |p| <= |s| && s[i..i + |p|] == p
    ensures Contains(s, p)
    decreases i
  {
    if i > 0 {
      assert s[1..][i - 1..i - 1 + |p|] == s[i..i + |p|];
      ContainsAt(s[1..], p, i - 1);
    }
  }

  lemma {:induction false} ContainsChar(s: string, c: char)
    ensures Contains(s, [c]) <==> c in s
    decreases |s|
  {
    if s != [] {
      ContainsChar(s[1..], c);
      assert s == [s[0]] + s[1..];
    }
  }

  // ---------------------------------------------------------------- replace

  /**
   * `s.replace(pat, rep)`: scanning left to right, every occurrence of `pat`
   * that does not overlap an earlier one is replaced by `rep`.
   */
  function Replace(s: string, pat: string, rep: string): string
    requires pat != ""
    decreases |s|
  {
    if s == [] then []
    else if StartsWith(s, pat) then rep + Replace(s[|pat|..], pat, rep)
    else [s[0]] + Replace(s[1..], pat, rep)
  }

  /** Replacing a pattern that does not occur changes nothing. */
  lemma {:induction false} ReplaceAbsent(s: string, pat: string, rep: string)
    requires pat != "" && !Contains(s, pat)
    ensures Replace(s, pat, rep) == s
    decreases |s|
  {
    if s != [] {
      ReplaceAbsent(s[1..], pat, rep);
      assert s == [s[0]] + s[1..];
    }
  }

  /** Removing a single character removes every occurrence of it. */
  lemma {:induction false} ReplaceCharRemoves(s: string, c: char)
    ensures c !in Replace(s, [c], "")
    decreases |s|
  {
    if s != [] {
      ReplaceCharRemoves(s[1..], c);
    }
  }


  /** A pattern whose first character does not occur in `s` does not occur in `s`. */
  lemma {:induction false} NotContainsHead(s: string, p: string)
    requires p != [] && p[0] !in s
    ensures !Contains(s, p)
    decreases |s|
  {
    if s != [] {
      assert s[1..] == s[1..] && p[0] !in s[1..] by {
        assert forall i :: 0 <= i < |s[1..]| ==> s[1..][i] == s[i + 1];
      }
      NotContainsHead(s[1..], p);
    }
  }

  /** A prefix that cannot start the pattern is copied unchanged by `replace`. */
  lemma {:induction false} ReplaceSkips(a: string, b: string, pat: string, rep: string)
    requires pat != [] && pat[0] !in a
    ensures Replace(a + b, pat, rep) == a + Replace(b, pat, rep)
    decreases |a|
  {
    if a == [] {
      assert a + b == b;
    } else {
      var s := a + b;
      assert s[0] == a[0] && s[1..] == a[1..] + b;
      assert !StartsWith(s, pat) by {
        assert s[0] != pat[0];
      }
      assert pat[0] !in a[1..] by {
        assert forall i :: 0 <= i < |a[1..]| ==> a[1..][i] == a[i + 1];
      }
      ReplaceSkips(a[1..], b, pat, rep);
      assert [a[0]] + a[1..] == a;
    }
  }

  /** Removing a character that occurs once, between `a` and `b`, leaves `a + b`. */
  lemma ReplaceCharOnce(a: string, b: string, c: char)
    requires c !in a && c !in b
    ensures Replace(a + [c] + b, [c], "") == a + b
  {
    assert a + [c] + b == a + ([c] + b);
    ReplaceSkips(a, [c] + b, [c], "");
    ReplaceHeadChar(b, c);
  }

  lemma ReplaceHeadChar(b: string, c: char)
    requires c !in b
    ensures Replace([c] + b, [c], "") == b
  {
    var s := [c] + b;
    assert s[1..] == b;
    assert StartsWith(s, [c]);
    ContainsChar(b, c);
    ReplaceAbsent(b, [c], "");
  }

  /** An occurrence at the very front is replaced, and the scan resumes right after it. */
  lemma ReplaceHead(pat: string, t: string, rep: string)
    requires pat != []
    ensures Replace(pat + t, pat, rep) == rep + Replace(t, pat, rep)
  {
    var s := pat + t;
    assert s[..|pat|] == pat && s[|pat|..] == t;
  }

  /** Removing a word that ends the text, and cannot start any earlier, leaves what precedes it. */
  lemma ReplaceTrailingWord(a: string, w: string)
    requires w != [] && w[0] !in a
    ensures Replace(a + w, w, "") == a
  {
    ReplaceSkips(a, w, w, "");
    assert w[|w|..] == [];
    assert Replace(w, w, "") == "";
    assert a + "" == a;
  }

  // ---------------------------------------------------------------- strip

  /** `s.lstrip(chars)`: drops the longest prefix whose characters all belong to the SET `chars`. */
  function LStrip(s: string, chars: string): string
    decreases |s|
  {
    if s != [] && s[0] in chars then LStrip(s[1..], chars) else s
  }

  /** `s.rstrip(chars)`: drops the longest suffix whose characters all belong to the SET `chars`. */
  function RStrip(s: string, chars: string): string
    decreases |s|
  {
    if s != [] && s[|s| - 1] in chars then RStrip(s[..|s| - 1], chars) else s
  }

  /** Stripping a character set skips any leading run of its characters. */
  lemma {:induction false} LStripSkips(p: string, t: string, chars: string)
    requires forall i :: 0 <= i < |p| ==> p[i] in chars
    ensures LStrip(p + t, chars) == LStrip(t, chars)
    decreases |p|
  {
    if p != [] {
      var s := p + t;
      assert s[0] == p[0] && s[0] in chars;
      assert s[1..] == p[1..] + t;
      calc {
        LStrip(s, chars);
        LStrip(s[1..], chars);
        { LStripSkips(p[1..], t, chars); }
        LStrip(t, chars);
      }
    } else {
      assert p + t == t;
    }
  }

  /**
   * What `lstrip` keeps is a suffix of `s`; everything it dropped is in the set
   * and the first character it kept is not.
   */
  lemma {:induction false} LStripSpec(s: string, chars: string)
    ensures var r := LStrip(s, chars);
            && |r| <= |s| && r == s[|s| - |r|..]
            && (forall i :: 0 <= i < |s| - |r| ==> s[i] in chars)
            && (r != [] ==> r[0] !in chars)
    decreases |s|
  {
    if s != [] && s[0] in chars {
      LStripSpec(s[1..], chars);
      var r := LStrip(s, chars);
      assert forall i :: 1 <= i < |s| - |r| ==> s[i] == s[1..][i - 1];
    }
  }

  /**
   * What `rstrip` keeps is a prefix of `s`; everything it dropped is in the set
   * and the last character it kept is not.
   */
  lemma {:induction false} RStripSpec(s: string, chars: string)
    ensures var r := RStrip(s, chars);
            && |r| <= |s| && r == s[..|r|]
            && (forall i :: |r| <= i < |s| ==> s[i] in chars)
            && (r != [] ==> r[|r| - 1] !in chars)
    decreases |s|
  {
    if s != [] && s[|s| - 1] in chars {
      RStripSpec(s[..|s| - 1], chars);
    }
  }

  /** Stripping from the right stops at the last character outside the set. */
  lemma {:induction false} RStripTrailing(s: string, t: string, chars: string)
    requires s != [] && s[|s| - 1] !in chars
    requires forall i :: 0 <= i < |t| ==> t[i] in chars
    ensures RStrip(s + t, chars) == s
    decreases |t|
  {
    if t == [] {
      assert s + t == s;
    } else {
      var u := s + t;
      assert u[|u| - 1] == t[|t| - 1];
      assert u[..|u| - 1] == s + t[..|t| - 1];
      RStripTrailing(s, t[..|t| - 1], chars);
    }
  }

  /** `s.strip()`. */
  function Strip(s: string): string {
    RStrip(LStrip(s, Whitespace), Whitespace)
  }

  // ---------------------------------------------------------------- numbers

  predicate IsDigit(c: char) {
    '0' <= c <= '9'
  }

  predicate AllDigits(s: string) {
    forall i :: 0 <= i < |s| ==> IsDigit(s[i])
  }

  /** `s.isnumeric()` for ASCII text: non-empty and made of decimal digits only. */
  predicate IsNumeric(s: string) {
    s != [] && AllDigits(s)
  }

  function DigitValue(c: char): nat
    requires IsDigit(c)
  {
    (c as int) - ('0' as int)
  }

  function DigitChar(d: nat): (c: char)
    requires d < 10
    ensures IsDigit(c) && DigitValue(c) == d
  {
    (('0' as int) + d) as char
  }

  /** `int(s)` for a string of decimal digits (leading zeros allowed). */
  function DigitsValue(s: string): nat
    requires AllDigits(s)
    decreases |s|
  {
    if s == [] then 0 else 10 * DigitsValue(s[..|s| - 1]) + DigitValue(s[|s| - 1])
  }

  /** `str(n)`: the canonical decimal numeral of `n`, which `int` reads back as `n`. */
  function NatToString(n: nat): (s: string)
    ensures IsNumeric(s) && DigitsValue(s) == n
    ensures s[0] == '0' ==> n == 0
    decreases n
  {
    if n < 10 then [DigitChar(n)]
    else
      var t := NatToString(n / 10);
      assert (t + [DigitChar(n % 10)])[..|t|] == t;
      t + [DigitChar(n % 10)]
  }

  /** A larger number never has a shorter numeral: numerals of `m <= n` fit in the width of `n`'s. */
  lemma {:induction false} NatToStringLengthMonotone(m: nat, n: nat)
    requires m <= n
    ensures |NatToString(m)| <= |NatToString(n)|
    decreases n
  {
    if m >= 10 {
      NatToStringLengthMonotone(m / 10, n / 10);
    }
  }

  // ---------------------------------------------------------------- lower

  predicate IsUpper(c: char) {
    'A' <= c <= 'Z'
  }

  function LowerChar(c: char): char {
    if IsUpper(c) then ((c as int) + 32) as char else c
  }

  /** `s.lower()` for ASCII letters: upper-case letters become lower-case, nothing else changes. */
  function Lower(s: string): (r: string)
    ensures |r| == |s|
    ensures forall i :: 0 <= i < |r| ==> !IsUpper(r[i])
    ensures forall i :: 0 <= i < |s| && !IsUpper(s[i]) ==> r[i] == s[i]
    ensures forall i :: 0 <= i < |s| && IsUpper(s[i]) ==> r[i] as int == s[i] as int + 32
  {
    seq(|s|, i requires 0 <= i < |s| => LowerChar(s[i]))
  }

  /** `[s.lower() for s in ss]`. */
  function LowerAll(ss: seq<string>): (r: seq<string>)
    ensures |r| == |ss| && forall i :: 0 <= i < |ss| ==> r[i] == Lower(ss[i])
  {
    seq(|ss|, i requires 0 <= i < |ss| => Lower(ss[i]))
  }

  /** `lower` works character by character, so it distributes over concatenation. */
  lemma LowerConcat(a: string, b: string)
    ensures Lower(a + b) == Lower(a) + Lower(b)
  {
    assert forall i :: 0 <= i < |a + b| ==> Lower(a + b)[i] == (Lower(a) + Lower(b))[i];
  }

  /** Lower-casing a joined text is joining the lower-cased parts, for a separator `lower` keeps. */
  lemma {:induction false} LowerJoin(parts: seq<string>, sep: string)
    requires Lower(sep) == sep
    ensures Lower(Join(parts, sep)) == Join(LowerAll(parts), sep)
    decreases |parts|
  {
    if |parts| > 1 {
      LowerJoin(parts[1..], sep);
      LowerConcat(parts[0] + sep, Join(parts[1..], sep));
      LowerConcat(parts[0], sep);
      assert LowerAll(parts)[1..] == LowerAll(parts[1..]);
    }
  }


  // ---------------------------------------------------------------- padding and joining

  /** `c * n`. */
  function Repeat(c: char, n: nat): (r: string)
    ensures |r| == n && forall i :: 0 <= i < n ==> r[i] == c
  {
    seq(n, _ => c)
  }

  /** `s.rjust(w)`: `s` right-aligned in a field of at least `w` characters. */
  function RJust(s: string, w: nat): (r: string)
    ensures |r| == if |s| < w then w else |s|
    ensures r[|r| - |s|..] == s
    ensures forall i :: 0 <= i < |r| - |s| ==> r[i] == ' '
  {
    if |s| < w then Repeat(' ', w - |s|) + s else s
  }

  /** `s.ljust(w)`: `s` left-aligned in a field of at least `w` characters. */
  function LJust(s: string, w: nat): (r: string)
    ensures |r| == if |s| < w then w else |s|
    ensures r[..|s|] == s
    ensures forall i :: |s| <= i < |r| ==> r[i] == ' '
  {
    if |s| < w then s + Repeat(' ', w - |s|) else s
  }

  /** `sep.join(parts)`. */
  function Join(parts: seq<string>, sep: string): string
    decreases |parts|
  {
    if parts == [] then ""
    else if |parts| == 1 then parts[0]
    else parts[0] + sep + Join(parts[1..], sep)
  }

  /** Joining two non-empty runs of parts puts one separator between them. */
  lemma {:induction false} JoinAppend(a: seq<string>, b: seq<string>, sep: string)
    requires a != [] && b != []
    ensures Join(a + b, sep) == Join(a, sep) + sep + Join(b, sep)
    decreases |a|
  {
    if |a| == 1 {
      assert (a + b)[1..] == b;
    } else {
      assert (a + b)[1..] == a[1..] + b;
      JoinAppend(a[1..], b, sep);
    }
  }

  // ---------------------------------------------------------------- textwrap.indent

  predicate NoLineBreak(s: string) {
    forall i :: 0 <= i < |s| ==> !IsLineBreak(s[i])
  }

  predicate AllWhitespace(s: string) {
    forall i :: 0 <= i < |s| ==> s[i] in Whitespace
  }

  /** Length of the first line of `s`, its boundary included, as `s.splitlines(True)` cuts it. */
  function FirstLineLength(s: string): (n: nat)
    requires s != []
    ensures 0 < n <= |s|
    decreases |s|
  {
    if s[0] == '\r' then (if |s| > 1 && s[1] == '\n' then 2 else 1)
    else if IsLineBreak(s[0]) || |s| == 1 then 1
    else 1 + FirstLineLength(s[1..])
  }

  lemma {:induction false} FirstLineIsWhole(s: string)
    requires s != [] && NoLineBreak(s)
    ensures FirstLineLength(s) == |s|
    decreases |s|
  {
    if |s| > 1 {
      assert !IsLineBreak(s[0]);
      FirstLineIsWhole(s[1..]);
    }
  }

  /** `textwrap.indent(s, prefix)`: puts `prefix` before every line that is not whitespace only. */
  function Indent(s: string, prefix: string): string
    decreases |s|
  {
    if s == [] then ""
    else
      var n := FirstLineLength(s);
      (if AllWhitespace(s[..n]) then s[..n] else prefix + s[..n]) + Indent(s[n..], prefix)
  }

  /** A single line with some visible character gets the prefix exactly once. */
  lemma IndentOneLine(s: string, prefix: string)
    requires NoLineBreak(s) && s != [] && s[0] !in Whitespace
    ensures Indent(s, prefix) == prefix + s
  {
    FirstLineIsWhole(s);
    assert s[..|s|] == s;
  }

  // ---------------------------------------------------------------- urllib.parse.unquote

  predicate IsHexDigit(c: char) {
    '0' <= c <= '9' || 'a' <= c <= 'f' || 'A' <= c <= 'F'
  }

  function HexValue(c: char): (v: nat)
    requires IsHexDigit(c)
    ensures v < 16
  {
    if '0' <= c <= '9' then (c as int) - ('0' as int)
    else if 'a' <= c <= 'f' then (c as int) - ('a' as int) + 10
    else (c as int) - ('A' as int) + 10
  }

  /** Whether `s` starts with a percent escape of an ASCII byte ("%XX" with XX below 0x80). */
  predicate StartsWithAsciiEscape(s: string) {
    |s| >= 3 && s[0] == '%' && IsHexDigit(s[1]) && IsHexDigit(s[2])
    && 16 * HexValue(s[1]) + HexValue(s[2]) < 128
  }

  /** `unquote(s)` restricted to escapes of ASCII bytes; any other '%' is kept as it is. */
  function Unquote(s: string): string
    decreases |s|
  {
    if s == [] then []
    else if StartsWithAsciiEscape(s) then [(16 * HexValue(s[1]) + HexValue(s[2])) as char] + Unquote(s[3..])
    else [s[0]] + Unquote(s[1..])
  }

  /** Text without a '%' is left alone. */
  lemma {:induction false} UnquotePlain(s: string)
    requires '%' !in s
    ensures Unquote(s) == s
    decreases |s|
  {
    if s != [] {
      UnquotePlain(s[1..]);
      assert s == [s[0]] + s[1..];
    }
  }

}
