/**
 * The Python string operations the trace debugger relies on, with
 * CPython's semantics: `str.splitlines()`, `'\n'.join(...)`, `str.find`,
 * `str.split(' ')` and `int(s, base)` for bases 10 and 16.
 */
module PyStr {
  import opened CTypes

  // ---------- str.splitlines and '\n'.join ----------

  /** The characters at which str.splitlines() breaks a line ("\r\n" counts as one boundary). */
  predicate IsLineBoundary(c: char)
  {
    c == '\n' || c == '\r' || c == '\U{b}' || c == '\U{c}' || c == '\U{1c}' || c == '\U{1d}' ||
    c == '\U{1e}' || c == '\U{85}' || c == '\U{2028}' || c == '\U{2029}'
  }

  ghost predicate NoBoundary(s: string)
  {
    forall i :: 0 <= i < |s| ==> !IsLineBoundary(s[i])
  }

  /** The index of the first line boundary of s, or |s|. */
  function FirstBoundary(s: string): (i: nat)
    ensures i <= |s|
    ensures forall j :: 0 <= j < i ==> !IsLineBoundary(s[j])
    ensures i < |s| ==> IsLineBoundary(s[i])
  {
    if s == [] || IsLineBoundary(s[0]) then 0 else 1 + FirstBoundary(s[1..])
  }

  /** s.splitlines(): the lines of s without their terminators; a final terminator adds no empty line. */
  function SplitLines(s: string): (r: seq<string>)
    decreases |s|
    ensures forall k :: 0 <= k < |r| ==> NoBoundary(r[k])
    ensures s == [] <==> r == []
  {
    if s == [] then []
    else
      var i := FirstBoundary(s);
      if i == |s| then [s]
      else
        var skip := if s[i] == '\r' && i + 1 < |s| && s[i + 1] == '\n' then 2 else 1;
        [s[..i]] + SplitLines(s[i + skip..])
  }

  /** '\n'.join(rows) */
  function JoinLines(rows: seq<string>): string
  {
    if rows == [] then ""
    else if |rows| == 1 then rows[0]
    else rows[0] + "\n" + JoinLines(rows[1..])
  }

  /** rows without its last element when that element is the empty string. */
  function DropTrailingEmpty(rows: seq<string>): seq<string>
  {
    if rows != [] && rows[|rows| - 1] == "" then rows[..|rows| - 1] else rows
  }

  /**
   * Splitting joined lines gives them back, except that a last empty line
   * disappears: it would be an empty text after the final "\n".
   */
  lemma {:induction false} SplitLinesJoin(rows: seq<string>)
    requires forall k :: 0 <= k < |rows| ==> NoBoundary(rows[k])
    ensures SplitLines(JoinLines(rows)) == DropTrailingEmpty(rows)
  {
    if |rows| == 1 {
      if rows[0] != "" {
        FirstBoundaryOfLine(rows[0], "");
        assert rows[0] + "" == rows[0];
      }
    } else if |rows| > 1 {
      SplitLinesJoin(rows[1..]);
      SplitLinesCons(rows[0], JoinLines(rows[1..]));
      DropTrailingEmptyCons(rows[0], rows[1..]);
      assert rows == [rows[0]] + rows[1..];
    }
  }

  /** A boundary-free line followed by "\n" is split off as the first line. */
  lemma SplitLinesCons(line: string, rest: string)
    requires NoBoundary(line)
    ensures SplitLines(line + "\n" + rest) == [line] + SplitLines(rest)
  {
    var s := line + "\n" + rest;
    FirstBoundaryOfLine(line, "\n" + rest);
    assert s == line + ("\n" + rest);
    assert s[|line|] == '\n' && s[..|line|] == line && s[|line| + 1..] == rest;
  }

  lemma DropTrailingEmptyCons(r: string, rows: seq<string>)
    requires rows != []
    ensures DropTrailingEmpty([r] + rows) == [r] + DropTrailingEmpty(rows)
  {
    if rows[|rows| - 1] == "" {
      assert ([r] + rows)[..|rows|] == [r] + rows[..|rows| - 1];
    }
  }

  /** The first boundary of a line followed by text starting with a boundary is the line's end. */
  lemma {:induction false} FirstBoundaryOfLine(line: string, tail: string)
    requires NoBoundary(line)
    requires tail == [] || IsLineBoundary(tail[0])
    ensures FirstBoundary(line + tail) == |line|
  {
    if line != [] {
      assert (line + tail)[1..] == line[1..] + tail;
      FirstBoundaryOfLine(line[1..], tail);
    }
  }

  // ---------- str.find ----------

  /** pat occurs in s at position i. */
  predicate OccursAt(s: string, pat: string, i: nat)
  {
    i + |pat| <= |s| && s[i..i + |pat|] == pat
  }

  /** s.find(pat, from): the lowest position from `from` on where pat occurs, or -1. */
  function FindFrom(s: string, pat: string, from: nat): (r: int)
    decreases |s| - from
    ensures r == -1 || (from <= r && OccursAt(s, pat, r))
    ensures r != -1 ==> forall j :: from <= j < r ==> !OccursAt(s, pat, j)
    ensures r == -1 <==> forall j :: from <= j <= |s| ==> !OccursAt(s, pat, j)
  {
    if from > |s| then -1
    else if OccursAt(s, pat, from) then from
    else FindFrom(s, pat, from + 1)
  }

  /** s.find(pat) */
  function Find(s: string, pat: string): int
  {
    FindFrom(s, pat, 0)
  }

  /** s.find(pat) == 0 exactly when s starts with pat. */
  lemma FindZero(s: string, pat: string)
    ensures Find(s, pat) == 0 <==> |pat| <= |s| && s[..|pat|] == pat
  {
  }

  // ---------- str.split(' ') ----------

  /** s.split(sep) for a single-character separator: at least one field, none containing sep. */
  function Split(s: string, sep: char): (r: seq<string>)
    decreases |s|
    ensures |r| >= 1
    ensures forall k :: 0 <= k < |r| ==> sep !in r[k]
  {
    var i := IndexOf(s, sep);
    if i == |s| then [s] else [s[..i]] + Split(s[i + 1..], sep)
  }

  /** The first index of c in s, or |s|. */
  function IndexOf(s: string, c: char): (i: nat)
    ensures i <= |s|
    ensures forall j :: 0 <= j < i ==> s[j] != c
    ensures i < |s| ==> s[i] == c
  {
    if s == [] || s[0] == c then 0 else 1 + IndexOf(s[1..], c)
  }

  /** sep.join(fields) */
  function JoinWith(fields: seq<string>, sep: char): string
  {
    if fields == [] then ""
    else if |fields| == 1 then fields[0]
    else fields[0] + [sep] + JoinWith(fields[1..], sep)
  }

  /** Joining the fields of a split with the separator gives back the string. */
  lemma {:induction false} SplitJoin(s: string, sep: char)
    decreases |s|
    ensures JoinWith(Split(s, sep), sep) == s
  {
    var i := IndexOf(s, sep);
    if i < |s| {
      SplitJoin(s[i + 1..], sep);
      var r := Split(s, sep);
      assert r[1..] == Split(s[i + 1..], sep);
      assert s == s[..i] + [sep] + s[i + 1..];
    }
  }

  // ---------- int(s, base) ----------

  /**
   * The ASCII characters int() skips around the digits (str.isspace() is
   * also true of \x1c..\x1f).
   */
  predicate IsSpace(c: char)
  {
    c == ' ' || ('\t' <= c <= '\r') || ('\U{1c}' <= c <= '\U{1f}')
  }

  /** The value of an ASCII digit of the given base, or -1. */
  function DigitValue(c: char, base: nat): (v: int)
    requires base == 10 || base == 16
    ensures -1 <= v < base as int
  {
    if '0' <= c <= '9' then c as int - '0' as int
    else if base == 16 && 'a' <= c <= 'f' then c as int - 'a' as int + 10
    else if base == 16 && 'A' <= c <= 'F' then c as int - 'A' as int + 10
    else -1
  }

  function StripLeft(s: string): (r: string)
    ensures |r| <= |s|
  {
    if s != [] && IsSpace(s[0]) then StripLeft(s[1..]) else s
  }

  function StripRight(s: string): (r: string)
    ensures |r| <= |s|
  {
    if s != [] && IsSpace(s[|s| - 1]) then StripRight(s[..|s| - 1]) else s
  }

  /** Digits of the base, each underscore between two digits, at least one digit. */
  predicate ValidDigits(w: string, base: nat)
    requires base == 10 || base == 16
  {
    && |w| > 0
    && DigitValue(w[0], base) >= 0
    && DigitValue(w[|w| - 1], base) >= 0
    && (forall i :: 0 <= i < |w| ==> DigitValue(w[i], base) >= 0 || w[i] == '_')
    && (forall i :: 0 <= i < |w| - 1 ==> w[i] == '_' ==> w[i + 1] != '_')
  }

  /** The number the digits of w denote, most significant first, underscores skipped. */
  function DigitsValue(w: string, base: nat): (v: nat)
    requires base == 10 || base == 16
  {
    if w == [] then 0
    else
      var d := DigitValue(w[|w| - 1], base);
      var rest := DigitsValue(w[..|w| - 1], base);
      if d < 0 then rest else rest * base + d
  }

  /** An optional leading sign: whether it is '-', and the text after it. */
  function SplitSign(t: string): (bool, string)
  {
    if t != [] && (t[0] == '+' || t[0] == '-') then (t[0] == '-', t[1..]) else (false, t)
  }

  /** For base 16, an optional 0x/0X prefix, which may be followed by one underscore. */
  function StripBasePrefix(u: string, base: nat): string
  {
    if base == 16 && |u| >= 2 && u[0] == '0' && (u[1] == 'x' || u[1] == 'X') then
      var afterPrefix := u[2..];
      if afterPrefix != [] && afterPrefix[0] == '_' then afterPrefix[1..] else afterPrefix
    else u
  }

  /**
   * int(s, base): surrounding whitespace, an optional sign, for base 16 an
   * optional 0x/0X prefix that may be followed by one underscore, then
   * digits separated by single underscores. None is the ValueError.
   */
  function ParseInt(s: string, base: nat): Option<int>
    requires base == 10 || base == 16
  {
    var (negative, unsigned) := SplitSign(StripRight(StripLeft(s)));
    var digits := StripBasePrefix(unsigned, base);
    if ValidDigits(digits, base) then
      var magnitude: int := DigitsValue(digits, base);
      Some(if negative then -magnitude else magnitude)
    else None
  }

  /** The lowercase digit of value d. */
  function DigitChar(d: nat): (c: char)
    requires d < 16
    ensures DigitValue(c, 16) == d
    ensures d < 10 ==> DigitValue(c, 10) == d
  {
    if d < 10 then ('0' as int + d) as char else ('a' as int + d - 10) as char
  }

  /** The digits of n in the base, without leading zeros (format(n, 'd') / format(n, 'x')). */
  function Format(n: nat, base: nat): (r: string)
    requires base == 10 || base == 16
    ensures |r| >= 1
    ensures forall i :: 0 <= i < |r| ==> DigitValue(r[i], base) >= 0
    ensures |r| > 1 ==> r[0] != '0'
  {
    if n < base then [DigitChar(n)] else Format(n / base, base) + [DigitChar(n % base)]
  }

  lemma {:induction false} FormatValue(n: nat, base: nat)
    requires base == 10 || base == 16
    ensures DigitsValue(Format(n, base), base) == n
  {
    if n < base {
      DigitsValueSnoc([], DigitChar(n), base);
      assert [] + [DigitChar(n)] == Format(n, base);
    } else {
      FormatValue(n / base, base);
      DigitsValueSnoc(Format(n / base, base), DigitChar(n % base), base);
      DivMod(n, base);
    }
  }

  /** Appending a digit multiplies the value by the base and adds the digit. */
  lemma DigitsValueSnoc(w: string, c: char, base: nat)
    requires base == 10 || base == 16
    requires DigitValue(c, base) >= 0
    ensures DigitsValue(w + [c], base) == DigitsValue(w, base) * base + DigitValue(c, base)
  {
    assert (w + [c])[..|w|] == w;
  }

  lemma DivMod(n: nat, base: nat)
    requires base == 10 || base == 16
    ensures n == (n / base) * base + n % base
  {
  }

  /** Stripping leaves a text alone that neither starts nor ends with whitespace. */
  lemma StripNothing(s: string)
    requires s != [] && !IsSpace(s[0]) && !IsSpace(s[|s| - 1])
    ensures StripRight(StripLeft(s)) == s
  {
  }

  /** The digits format() writes pass int()'s digit check unchanged and keep their value. */
  lemma FormatDigits(n: nat, base: nat)
    requires base == 10 || base == 16
    ensures StripBasePrefix(Format(n, base), base) == Format(n, base)
    ensures ValidDigits(Format(n, base), base)
    ensures DigitsValue(Format(n, base), base) == n
  {
    FormatValue(n, base);
  }

  /** int() reads back what format() writes. */
  lemma ParseFormat(n: nat, base: nat)
    requires base == 10 || base == 16
    ensures ParseInt(Format(n, base), base) == Some(n)
  {
    var f := Format(n, base);
    FormatDigits(n, base);
    StripNothing(f);
    assert SplitSign(f) == (false, f);
  }

  /** int() reads back a minus sign followed by what format() writes as the negated number. */
  lemma ParseFormatNegative(n: nat, base: nat)
    requires base == 10 || base == 16
    ensures ParseInt("-" + Format(n, base), base) == Some(-(n as int))
  {
    var f := Format(n, base);
    FormatDigits(n, base);
    var m := "-" + f;
    assert m[0] == '-' && m[1..] == f;
    assert m[|m| - 1] == f[|f| - 1];
    assert DigitValue(f[|f| - 1], base) >= 0;
    StripNothing(m);
    assert SplitSign(m) == (true, f);
    assert StripBasePrefix(f, base) == f;
  }
}
