/** String operations the client and the server rely on: whitespace trimming (JavaScript
    `trim` and Python `strip` differ in what counts as whitespace), `split`, the first-occurrence
    `replace` of JavaScript, decimal digits, and the time pattern `\d{1,2}:\d{2}` used by two
    regular expressions of the client. */
module Text {

  import opened Common

  /** Characters JavaScript's `String.prototype.trim` removes (WhiteSpace and LineTerminator). */
  predicate IsJsSpace(c: char) {
    c == ' ' || c == '\t' || c == '\n' || c == '\r' || c == '\U{000B}' || c == '\U{000C}'
    || c == '\U{00A0}' || c == '\U{FEFF}' || c == '\U{1680}' || ('\U{2000}' <= c <= '\U{200A}')
    || c == '\U{2028}' || c == '\U{2029}' || c == '\U{202F}' || c == '\U{205F}' || c == '\U{3000}'
  }

  /** Characters Python's `str.strip()` removes (`str.isspace`). */
  predicate IsPySpace(c: char) {
    c == ' ' || c == '\t' || c == '\n' || c == '\r' || c == '\U{000B}' || c == '\U{000C}'
    || ('\U{001C}' <= c <= '\U{001F}') || c == '\U{0085}' || c == '\U{00A0}' || c == '\U{1680}'
    || ('\U{2000}' <= c <= '\U{200A}') || c == '\U{2028}' || c == '\U{2029}' || c == '\U{202F}'
    || c == '\U{205F}' || c == '\U{3000}'
  }

  /** Drops leading characters satisfying `ws` (see `TrimStartSpec`). */
  function TrimStart(s: string, ws: char -> bool): string {
    if s != [] && ws(s[0]) then TrimStart(s[1..], ws) else s
  }

  /** Drops trailing characters satisfying `ws` (see `TrimEndSpec`). */
  function TrimEnd(s: string, ws: char -> bool): string {
    if s != [] && ws(s[|s| - 1]) then TrimEnd(s[..|s| - 1], ws) else s
  }

  /** `TrimStart` gives the longest suffix that does not start with a character satisfying `ws`. */
  lemma {:induction false} TrimStartSpec(s: string, ws: char -> bool)
    ensures var r := TrimStart(s, ws);
            |r| <= |s| && r == s[|s| - |r|..]
            && (forall i :: 0 <= i < |s| - |r| ==> ws(s[i]))
            && (r == [] || !ws(r[0]))
  {
    if s != [] && ws(s[0]) {
      TrimStartSpec(s[1..], ws);
      var r := TrimStart(s, ws);
      assert r == TrimStart(s[1..], ws);
      assert s[1..][|s| - 1 - |r|..] == s[|s| - |r|..];
      forall i | 0 <= i < |s| - |r| ensures ws(s[i]) {
        if i > 0 {
          assert s[i] == s[1..][i - 1];
        }
      }
    }
  }

  /** `TrimEnd` gives the longest prefix that does not end with a character satisfying `ws`. */
  lemma {:induction false} TrimEndSpec(s: string, ws: char -> bool)
    ensures var r := TrimEnd(s, ws);
            |r| <= |s| && r == s[..|r|]
            && (forall i :: |r| <= i < |s| ==> ws(s[i]))
            && (r == [] || !ws(r[|r| - 1]))
  {
    if s != [] && ws(s[|s| - 1]) {
      TrimEndSpec(s[..|s| - 1], ws);
      var r := TrimEnd(s, ws);
      assert r == TrimEnd(s[..|s| - 1], ws);
      assert s[..|s| - 1][..|r|] == s[..|r|];
      forall i | |r| <= i < |s| ensures ws(s[i]) {
        if i < |s| - 1 {
          assert s[i] == s[..|s| - 1][i];
        }
      }
    }
  }

  function Trim(s: string, ws: char -> bool): string {
    TrimEnd(TrimStart(s, ws), ws)
  }

  /** JavaScript `s.trim()`. */
  function JsTrim(s: string): string {
    Trim(s, IsJsSpace)
  }

  /** Python `s.strip()`. */
  function PyStrip(s: string): string {
    Trim(s, IsPySpace)
  }

  /** A trimmed string is what is left after removing whitespace at both ends, so it is empty
      exactly when the whole string is whitespace, and it neither starts nor ends with
      whitespace. */
  lemma {:induction false} TrimEmptyIffBlank(s: string, ws: char -> bool)
    ensures Trim(s, ws) == [] <==> forall i :: 0 <= i < |s| ==> ws(s[i])
    ensures Trim(s, ws) != [] ==> !ws(Trim(s, ws)[0]) && !ws(Trim(s, ws)[|Trim(s, ws)| - 1])
  {
    var t := TrimStart(s, ws);
    var r := TrimEnd(t, ws);
    TrimStartSpec(s, ws);
    TrimEndSpec(t, ws);
    if r == [] {
      // an empty end-trim means all of t is whitespace, so t is empty
      assert |t| == 0;
    }
    if r != [] {
      assert r[0] == t[0];
    }
  }

  /** Trimming a string that has no whitespace at its ends leaves it as it is, and trimming
      twice is trimming once. */
  lemma TrimIdempotent(s: string, ws: char -> bool)
    ensures Trim(Trim(s, ws), ws) == Trim(s, ws)
    ensures (s == [] || (!ws(s[0]) && !ws(s[|s| - 1]))) ==> Trim(s, ws) == s
  {
    TrimEmptyIffBlank(s, ws);
  }

  /** Surrounding a string with whitespace does not change its trimmed form. */
  lemma {:induction false} TrimPadded(a: string, t: string, b: string, ws: char -> bool)
    requires forall i :: 0 <= i < |a| ==> ws(a[i])
    requires forall i :: 0 <= i < |b| ==> ws(b[i])
    ensures Trim(a + t + b, ws) == Trim(t, ws)
  {
    TrimStartPadded(a, t + b, ws);
    assert a + t + b == a + (t + b);
    TrimStartSuffix(t, b, ws);
    TrimEndPadded(TrimStart(t, ws), b, ws);
  }

  lemma {:induction false} TrimStartPadded(a: string, u: string, ws: char -> bool)
    requires forall i :: 0 <= i < |a| ==> ws(a[i])
    ensures TrimStart(a + u, ws) == TrimStart(u, ws)
  {
    if a != [] {
      var v := a + u;
      assert ws(a[0]) && v[0] == a[0];
      assert v[1..] == a[1..] + u;
      assert TrimStart(v, ws) == TrimStart(v[1..], ws);
      TrimStartPadded(a[1..], u, ws);
    } else {
      assert a + u == u;
    }
  }

  /** Trimming the start of t + b, where b is all whitespace, is the trimmed start of t followed
      by b whenever t is not all whitespace; when it is, the result is a suffix of b. */
  lemma {:induction false} TrimStartSuffix(t: string, b: string, ws: char -> bool)
    requires forall i :: 0 <= i < |b| ==> ws(b[i])
    ensures TrimStart(t, ws) != [] ==> TrimStart(t + b, ws) == TrimStart(t, ws) + b
    ensures TrimStart(t, ws) == [] ==> TrimStart(t + b, ws) == []
  {
    if t == [] {
      assert t + b == b + [];
      TrimStartPadded(b, [], ws);
    } else if ws(t[0]) {
      assert (t + b)[1..] == t[1..] + b;
      TrimStartSuffix(t[1..], b, ws);
    } else {
      assert (t + b)[0] == t[0];
    }
  }

  lemma {:induction false} TrimEndPadded(t: string, b: string, ws: char -> bool)
    requires forall i :: 0 <= i < |b| ==> ws(b[i])
    ensures TrimEnd(t + b, ws) == TrimEnd(t, ws)
  {
    if b != [] {
      assert (t + b)[..|t + b| - 1] == t + b[..|b| - 1];
      TrimEndPadded(t, b[..|b| - 1], ws);
    } else {
      assert t + b == t;
    }
  }

  // ---- split, join, replace -------------------------------------------------------------

  /** Python `s.split(d)` for a one-character separator: the pieces between separators,
      always at least one. */
  function Split(s: string, d: char): (r: seq<string>)
    ensures |r| >= 1
    ensures forall k :: 0 <= k < |r| ==> d !in r[k]
  {
    if s == [] then [""]
    else
      var rest := Split(s[1..], d);
      if s[0] == d then [""] + rest
      else [[s[0]] + rest[0]] + rest[1..]
  }

  /** `d.join(pieces)`. */
  function Join(pieces: seq<string>, d: char): string
    requires |pieces| >= 1
  {
    if |pieces| == 1 then pieces[0] else pieces[0] + [d] + Join(pieces[1..], d)
  }

  /** Splitting loses nothing: joining the pieces with the separator gives the string back. */
  lemma {:induction false} SplitJoin(s: string, d: char)
    ensures Join(Split(s, d), d) == s
  {
    if s != [] {
      SplitJoin(s[1..], d);
      var rest := Split(s[1..], d);
      if s[0] == d {
        assert Split(s, d)[1..] == rest;
      } else {
        var r := Split(s, d);
        if |rest| > 1 {
          assert r[1..] == rest[1..];
        }
      }
    }
  }

  /** A piece without the separator, followed by the separator, splits off as one piece. */
  lemma {:induction false} SplitFront(a: string, b: string, d: char)
    requires d !in a
    ensures Split(a + [d] + b, d) == [a] + Split(b, d)
  {
    if a == [] {
      assert ([d] + b)[1..] == b;
    } else {
      SplitFront(a[1..], b, d);
      assert (a + [d] + b)[1..] == a[1..] + [d] + b;
      assert [a[0]] + a[1..] == a;
    }
  }

  /** A string without the separator is a single piece. */
  lemma {:induction false} SplitWhole(a: string, d: char)
    requires d !in a
    ensures Split(a, d) == [a]
  {
    if a != [] {
      SplitWhole(a[1..], d);
      assert [a[0]] + a[1..] == a;
    }
  }

  /** Joining pieces that do not contain the separator and splitting again gives the pieces
      back. */
  lemma {:induction false} JoinSplit(pieces: seq<string>, d: char)
    requires |pieces| >= 1 && forall k :: 0 <= k < |pieces| ==> d !in pieces[k]
    ensures Split(Join(pieces, d), d) == pieces
  {
    if |pieces| == 1 {
      SplitWhole(pieces[0], d);
    } else {
      JoinSplit(pieces[1..], d);
      SplitFront(pieces[0], Join(pieces[1..], d), d);
      assert [pieces[0]] + pieces[1..] == pieces;
    }
  }

  /** `pat` occurs in `s` starting at `j`. */
  predicate OccursAt(s: string, pat: string, j: nat) {
    j + |pat| <= |s| && forall m :: 0 <= m < |pat| ==> s[j + m] == pat[m]
  }

  lemma OccursShift(s: string, pat: string, j: nat)
    requires s != []
    ensures OccursAt(s, pat, j + 1) == OccursAt(s[1..], pat, j)
  {
    if j + 1 + |pat| <= |s| {
      assert forall m :: 0 <= m < |pat| ==> (s[1..][j + m] == pat[m] <==> s[j + 1 + m] == pat[m]);
    }
  }

  /** First index at which `pat` occurs in `s`. */
  function IndexOf(s: string, pat: string): (r: Option<nat>)
    ensures r.Some? ==> OccursAt(s, pat, r.value)
    ensures r.Some? ==> forall j: nat :: j < r.value ==> !OccursAt(s, pat, j)
    ensures r.None? ==> forall j: nat :: !OccursAt(s, pat, j)
    decreases |s|
  {
    if |pat| > |s| then None
    else if OccursAt(s, pat, 0) then Some(0)
    else
      var r := IndexOf(s[1..], pat);
      assert forall j: nat :: j > 0 ==> OccursAt(s, pat, j) == OccursAt(s[1..], pat, j - 1) by {
        forall j: nat | j > 0 ensures OccursAt(s, pat, j) == OccursAt(s[1..], pat, j - 1) {
          OccursShift(s, pat, j - 1);
        }
      }
      match r
      case None => None
      case Some(i) => Some(i + 1)
  }

  /** JavaScript `s.replace(pat, rep)` with a string pattern: only the first occurrence. */
  function ReplaceFirst(s: string, pat: string, rep: string): string {
    match IndexOf(s, pat)
    case None => s
    case Some(i) => s[..i] + rep + s[i + |pat|..]
  }

  /** Removing a prefix label with `replace(label, '')` gives back what followed it. */
  lemma ReplacePrefix(pat: string, u: string)
    ensures ReplaceFirst(pat + u, pat, "") == u
  {
    assert OccursAt(pat + u, pat, 0);
    assert (pat + u)[|pat|..] == u;
  }

  /** With no occurrence of the pattern, `replace` changes nothing. */
  lemma ReplaceAbsent(s: string, pat: string, rep: string)
    requires forall j: nat :: !OccursAt(s, pat, j)
    ensures ReplaceFirst(s, pat, rep) == s
  {
  }

  // ---- digits ------------------------------------------------------------------------------

  /** `\d` in a JavaScript regular expression: ASCII digits only. */
  predicate IsDigit(c: char) {
    '0' <= c <= '9'
  }

  function DigitChar(n: nat): char
    requires n < 10
  {
    ('0' as int + n) as char
  }

  function DigitValue(c: char): nat
    requires IsDigit(c)
  {
    c as int - '0' as int
  }

  /** `parseInt` of a string of ASCII digits. */
  function DigitsValue(d: string): nat
    requires forall i :: 0 <= i < |d| ==> IsDigit(d[i])
  {
    if d == [] then 0 else 10 * DigitsValue(d[..|d| - 1]) + DigitValue(d[|d| - 1])
  }

  /** `n.toString()` for a natural number. */
  function Decimal(n: nat): (r: string)
    ensures |r| >= 1 && forall i :: 0 <= i < |r| ==> IsDigit(r[i])
    ensures n < 10 <==> |r| == 1
  {
    if n < 10 then [DigitChar(n)] else Decimal(n / 10) + [DigitChar(n % 10)]
  }

  /** `s.padStart(2, '0')`. */
  function Pad2(s: string): string {
    if |s| >= 2 then s else if |s| == 1 then "0" + s else "00"
  }

  lemma DigitRoundTrip(c: char)
    requires IsDigit(c)
    ensures DigitChar(DigitValue(c)) == c
  {
  }

  lemma DecimalOneDigit(n: nat)
    requires n < 10
    ensures Decimal(n) == [DigitChar(n)]
  {
  }

  lemma DecimalTwoDigits(n: nat)
    requires 10 <= n < 100
    ensures Decimal(n) == [DigitChar(n / 10), DigitChar(n % 10)]
  {
    DecimalOneDigit(n / 10);
  }

  lemma DivTen(n: nat, a: nat, b: nat)
    requires n == 10 * a + b && b < 10
    ensures n / 10 == a && n % 10 == b
  {
  }

  lemma DigitsValueSmall(d: string)
    requires 1 <= |d| <= 2 && forall i :: 0 <= i < |d| ==> IsDigit(d[i])
    ensures |d| == 1 ==> DigitsValue(d) == DigitValue(d[0])
    ensures |d| == 2 ==> DigitsValue(d) == 10 * DigitValue(d[0]) + DigitValue(d[1])
  {
    if |d| == 1 {
      assert d[..0] == [];
    } else {
      var p := d[..1];
      assert p == [d[0]];
      assert p[..0] == [];
      assert DigitsValue(p) == DigitValue(d[0]);
    }
  }

  /** `parseInt`, `toString` and `padStart(2, '0')` give back a one- or two-digit field padded to
      two digits: a value read from `7` shows as `07`, one read from `07` or `12` shows as it was
      written. */
  lemma PadDecimalOfDigits(d: string)
    requires 1 <= |d| <= 2 && forall i :: 0 <= i < |d| ==> IsDigit(d[i])
    ensures Pad2(Decimal(DigitsValue(d))) == Pad2(d)
  {
    DigitsValueSmall(d);
    if |d| == 1 {
      PadOneDigit(d);
    } else {
      PadTwoDigits(d);
    }
  }

  lemma PadOneDigit(d: string)
    requires |d| == 1 && IsDigit(d[0]) && DigitsValue(d) == DigitValue(d[0])
    ensures Decimal(DigitsValue(d)) == d
  {
    DecimalOneDigit(DigitValue(d[0]));
    DigitRoundTrip(d[0]);
  }

  lemma PadTwoDigits(d: string)
    requires |d| == 2 && IsDigit(d[0]) && IsDigit(d[1])
    requires DigitsValue(d) == 10 * DigitValue(d[0]) + DigitValue(d[1])
    ensures Pad2(Decimal(DigitsValue(d))) == d
  {
    var a, b := DigitValue(d[0]), DigitValue(d[1]);
    DigitRoundTrip(d[0]);
    DigitRoundTrip(d[1]);
    if a == 0 {
      DecimalOneDigit(b);
      assert d == ['0', d[1]];
    } else {
      DivTen(DigitsValue(d), a, b);
      DecimalTwoDigits(DigitsValue(d));
      assert d == [d[0], d[1]];
    }
  }

  /** A number below 100 padded with `padStart(2, '0')` has exactly two digits. */
  lemma PadDecimalSmall(n: nat)
    requires n < 100
    ensures |Pad2(Decimal(n))| == 2
    ensures forall i :: 0 <= i < 2 ==> IsDigit(Pad2(Decimal(n))[i])
  {
    if n >= 10 {
      assert n / 10 < 10;
    }
  }

  // ---- the time pattern \d{1,2}:\d{2} ----------------------------------------------------

  predicate DigitAt(s: string, i: nat) {
    i < |s| && IsDigit(s[i])
  }

  predicate ColonAt(s: string, i: nat) {
    i < |s| && s[i] == ':'
  }

  /** The length of the hour digits of a match of `\d{1,2}:\d{2}` that starts at `k`: 2 when two
      digits fit (the quantifier is greedy), else 1 when one does, 0 when nothing matches at `k`. */
  function HourLenAt(s: string, k: nat): (h: nat)
    ensures h <= 2
    ensures h > 0 ==> k + h + 3 <= |s| && IsTimeText(s[k..k + h + 3])
  {
    if DigitAt(s, k) && DigitAt(s, k + 1) && ColonAt(s, k + 2) && DigitAt(s, k + 3) && DigitAt(s, k + 4) then 2
    else if DigitAt(s, k) && ColonAt(s, k + 1) && DigitAt(s, k + 2) && DigitAt(s, k + 3) then 1
    else 0
  }

  /** A whole string of the form H:MM or HH:MM. */
  predicate IsTimeText(t: string) {
    (|t| == 4 && IsDigit(t[0]) && t[1] == ':' && IsDigit(t[2]) && IsDigit(t[3]))
    || (|t| == 5 && IsDigit(t[0]) && IsDigit(t[1]) && t[2] == ':' && IsDigit(t[3]) && IsDigit(t[4]))
  }

  /** The leftmost position at or after `from` where the time pattern matches. */
  function FirstTimeFrom(s: string, from: nat): (r: Option<nat>)
    ensures r.Some? ==> from <= r.value < |s| && HourLenAt(s, r.value) > 0
    ensures r.Some? ==> forall j :: from <= j < r.value ==> HourLenAt(s, j) == 0
    ensures r.None? ==> forall j :: from <= j ==> HourLenAt(s, j) == 0
    decreases |s| - from
  {
    if from >= |s| then None
    else if HourLenAt(s, from) > 0 then Some(from)
    else FirstTimeFrom(s, from + 1)
  }

  function FirstTime(s: string): Option<nat> {
    FirstTimeFrom(s, 0)
  }

  /** The text a match at `k` captures as a whole (`\d{1,2}:\d{2}`). */
  function MatchText(s: string, k: nat): string
    requires HourLenAt(s, k) > 0
  {
    s[k..k + HourLenAt(s, k) + 3]
  }

  /** Characters that can never take part in a match of the time pattern. */
  predicate NoTimeChars(s: string) {
    forall i :: 0 <= i < |s| ==> !IsDigit(s[i]) && s[i] != ':'
  }

  /** Digits and colons of `a + t + b` sit where they sit in `t` when `a` and `b` hold none. */
  lemma ShiftAt(a: string, t: string, b: string, i: int)
    requires NoTimeChars(a) && NoTimeChars(b) && 0 <= i
    ensures DigitAt(a + t + b, |a| + i) == DigitAt(t, i)
    ensures ColonAt(a + t + b, |a| + i) == ColonAt(t, i)
  {
    var s := a + t + b;
    if i < |t| {
      assert s[|a| + i] == t[i];
    } else if |a| + i < |s| {
      assert s[|a| + i] == b[i - |t|];
    }
  }

  lemma OutsideAt(a: string, t: string, b: string, i: nat)
    requires NoTimeChars(a) && NoTimeChars(b) && i < |a|
    ensures !DigitAt(a + t + b, i) && !ColonAt(a + t + b, i)
  {
    assert (a + t + b)[i] == a[i];
  }

  /** A match found inside `t` is found at the shifted position in `a + t + b` when `a` and `b`
      hold no digit and no colon, and no match starts inside `a` or `b`. */
  lemma HourLenShift(a: string, t: string, b: string, k: nat)
    requires NoTimeChars(a) && NoTimeChars(b)
    ensures |a| <= k ==> HourLenAt(a + t + b, k) == HourLenAt(t, k - |a|)
    ensures k < |a| ==> HourLenAt(a + t + b, k) == 0
  {
    if |a| <= k {
      var i := k - |a|;
      ShiftAt(a, t, b, i);
      ShiftAt(a, t, b, i + 1);
      ShiftAt(a, t, b, i + 2);
      ShiftAt(a, t, b, i + 3);
      ShiftAt(a, t, b, i + 4);
    } else {
      OutsideAt(a, t, b, k);
    }
  }

  lemma {:induction false} FirstTimeShift(a: string, t: string, b: string)
    requires NoTimeChars(a) && NoTimeChars(b)
    ensures FirstTime(t).None? ==> FirstTime(a + t + b).None?
    ensures FirstTime(t).Some? ==> FirstTime(a + t + b) == Some(|a| + FirstTime(t).value)
  {
    match FirstTime(t)
    case None => ShiftNone(a, t, b);
    case Some(k) => ShiftSome(a, t, b, k);
  }

  lemma {:induction false} ShiftNone(a: string, t: string, b: string)
    requires NoTimeChars(a) && NoTimeChars(b) && FirstTime(t).None?
    ensures FirstTime(a + t + b).None?
  {
    var s := a + t + b;
    forall j | 0 <= j < |s| ensures HourLenAt(s, j) == 0 {
      HourLenShift(a, t, b, j);
    }
    FirstTimeNone(s, 0);
  }

  lemma {:induction false} ShiftSome(a: string, t: string, b: string, k: nat)
    requires NoTimeChars(a) && NoTimeChars(b) && FirstTime(t) == Some(k)
    ensures FirstTime(a + t + b) == Some(|a| + k)
  {
    var s := a + t + b;
    forall j | 0 <= j < |a| + k ensures HourLenAt(s, j) == 0 {
      HourLenShift(a, t, b, j);
    }
    HourLenShift(a, t, b, |a| + k);
    FirstTimeSome(s, 0, |a| + k);
  }

  lemma {:induction false} FirstTimeNone(s: string, from: nat)
    requires forall j :: from <= j < |s| ==> HourLenAt(s, j) == 0
    ensures FirstTimeFrom(s, from).None?
    decreases |s| - from
  {
    if from < |s| {
      FirstTimeNone(s, from + 1);
    }
  }

  lemma {:induction false} FirstTimeSome(s: string, from: nat, k: nat)
    requires from <= k < |s| && HourLenAt(s, k) > 0
    requires forall j :: from <= j < k ==> HourLenAt(s, j) == 0
    ensures FirstTimeFrom(s, from) == Some(k)
    decreases k - from
  {
    if from < k {
      FirstTimeSome(s, from + 1, k);
    }
  }

  // ---- one-line regular expressions ----------------------------------------------------

  /** Characters a JavaScript `.` does not match when the `s` flag is absent. */
  predicate IsLineTerminator(c: char) {
    c == '\n' || c == '\r' || c == '\U{2028}' || c == '\U{2029}'
  }

  predicate NoLineTerminators(s: string) {
    forall i :: 0 <= i < |s| ==> !IsLineTerminator(s[i])
  }

  /** Start of the line holding position `k`. */
  function LineStart(s: string, k: nat): (j: nat)
    requires k <= |s|
    ensures j <= k
    ensures j == 0 || IsLineTerminator(s[j - 1])
    ensures forall i :: j <= i < k ==> !IsLineTerminator(s[i])
  {
    if k == 0 || IsLineTerminator(s[k - 1]) then k else LineStart(s, k - 1)
  }

  /** End of the line holding position `k`: the next line terminator, or the end. */
  function LineEnd(s: string, k: nat): (j: nat)
    requires k <= |s|
    ensures k <= j <= |s|
    ensures j == |s| || IsLineTerminator(s[j])
    ensures forall i :: k <= i < j ==> !IsLineTerminator(s[i])
    decreases |s| - k
  {
    if k == |s| || IsLineTerminator(s[k]) then k else LineEnd(s, k + 1)
  }

  /** `s.replace(/.*?(\d{1,2}:\d{2}).*\/, '$1')`: the leftmost match starts at the beginning of
      the line holding the first time, the lazy `.*?` stops at that time, and the greedy `.*`
      runs to the end of the same line; the whole line is replaced by the captured time. With no
      time anywhere the string is returned as it is. */
  function ReplaceTime(s: string): (r: string)
  {
    match FirstTime(s)
    case None => s
    case Some(k) =>
      s[..LineStart(s, k)] + MatchText(s, k) + s[LineEnd(s, k)..]
  }

  /** The matched time itself never spans a line terminator. */
  lemma MatchTextOneLine(s: string, k: nat)
    requires HourLenAt(s, k) > 0
    ensures NoLineTerminators(MatchText(s, k))
  {
  }

  /** Without any time in the text, the snapshot keeps it as it is. */
  lemma ReplaceTimeAbsent(s: string)
    requires FirstTime(s).None?
    ensures ReplaceTime(s) == s
  {
  }

  /** On a single line the replacement leaves exactly the first time. */
  lemma ReplaceTimeOneLine(s: string)
    requires NoLineTerminators(s) && FirstTime(s).Some?
    ensures ReplaceTime(s) == MatchText(s, FirstTime(s).value)
  {
    var k := FirstTime(s).value;
    LineStartOneLine(s, k);
    LineEndOneLine(s, k);
  }

  lemma {:induction false} LineStartOneLine(s: string, k: nat)
    requires k <= |s| && NoLineTerminators(s)
    ensures LineStart(s, k) == 0
  {
    if k > 0 {
      LineStartOneLine(s, k - 1);
    }
  }

  lemma {:induction false} LineEndOneLine(s: string, k: nat)
    requires k <= |s| && NoLineTerminators(s)
    ensures LineEnd(s, k) == |s|
    decreases |s| - k
  {
    if k < |s| {
      LineEndOneLine(s, k + 1);
    }
  }

  /** Where the time sits on its own line between other lines that hold no time, exactly that
      line is replaced by the time and the lines around it are kept. */
  lemma ReplaceTimeLine(pre: string, line: string, post: string)
    requires NoTimeChars(pre) && NoTimeChars(post) && NoLineTerminators(line)
    requires pre == [] || IsLineTerminator(pre[|pre| - 1])
    requires post == [] || IsLineTerminator(post[0])
    requires FirstTime(line).Some?
    ensures ReplaceTime(pre + line + post) == pre + MatchText(line, FirstTime(line).value) + post
  {
    var s := pre + line + post;
    var k2 := |pre| + FirstTime(line).value;
    LocateTime(pre, line, post);
    ReplaceTimeAt(s, k2, |pre|, |pre| + |line|);
    KeepOuter(pre, line, post, MatchText(line, FirstTime(line).value));
  }

  /** The first time of the whole text is the one of the middle line, with the same match, and
      its line is exactly that line. */
  lemma LocateTime(pre: string, line: string, post: string)
    requires NoTimeChars(pre) && NoTimeChars(post) && NoLineTerminators(line)
    requires pre == [] || IsLineTerminator(pre[|pre| - 1])
    requires post == [] || IsLineTerminator(post[0])
    requires FirstTime(line).Some?
    ensures FirstTime(pre + line + post) == Some(|pre| + FirstTime(line).value)
    ensures MatchText(pre + line + post, |pre| + FirstTime(line).value) == MatchText(line, FirstTime(line).value)
    ensures LineStart(pre + line + post, |pre| + FirstTime(line).value) == |pre|
    ensures LineEnd(pre + line + post, |pre| + FirstTime(line).value) == |pre| + |line|
  {
    var k := FirstTime(line).value;
    LocateFirst(pre, line, post, k);
    LocateLine(pre, line, post, k);
  }

  lemma LocateFirst(pre: string, line: string, post: string, k: nat)
    requires NoTimeChars(pre) && NoTimeChars(post)
    requires FirstTime(line) == Some(k)
    ensures FirstTime(pre + line + post) == Some(|pre| + k)
    ensures MatchText(pre + line + post, |pre| + k) == MatchText(line, k)
  {
    var s := pre + line + post;
    var k2 := |pre| + k;
    FirstTimeShift(pre, line, post);
    HourLenShift(pre, line, post, k2);
    assert HourLenAt(s, k2) == HourLenAt(line, k) > 0;
    SliceInMiddle(pre, line, post, k, k + HourLenAt(line, k) + 3);
  }

  lemma LocateLine(pre: string, line: string, post: string, k: nat)
    requires NoLineTerminators(line) && k < |line|
    requires pre == [] || IsLineTerminator(pre[|pre| - 1])
    requires post == [] || IsLineTerminator(post[0])
    ensures LineStart(pre + line + post, |pre| + k) == |pre|
    ensures LineEnd(pre + line + post, |pre| + k) == |pre| + |line|
  {
    var s := pre + line + post;
    MiddleLine(pre, line, post);
    LineStartAt(s, |pre|, |pre| + k);
    LineEndAt(s, |pre| + |line|, |pre| + k);
  }

  lemma KeepOuter(a: string, t: string, b: string, m: string)
    ensures (a + t + b)[..|a|] + m + (a + t + b)[|a| + |t|..] == a + m + b
  {
    assert (a + t + b)[..|a|] == a;
    assert (a + t + b)[|a| + |t|..] == b;
  }

  /** Unfolds `ReplaceTime` once the first time and its line are known. */
  lemma ReplaceTimeAt(s: string, k: nat, j: nat, e: nat)
    requires FirstTime(s) == Some(k)
    requires k <= |s| && LineStart(s, k) == j && LineEnd(s, k) == e
    ensures ReplaceTime(s) == s[..j] + MatchText(s, k) + s[e..]
  {
  }

  lemma SliceInMiddle(a: string, t: string, b: string, i: nat, j: nat)
    requires i <= j <= |t|
    ensures (a + t + b)[|a| + i..|a| + j] == t[i..j]
  {
    assert forall m :: 0 <= m < j - i ==> (a + t + b)[|a| + i..|a| + j][m] == t[i..j][m];
  }

  lemma MiddleLine(a: string, t: string, b: string)
    requires NoLineTerminators(t)
    requires a == [] || IsLineTerminator(a[|a| - 1])
    requires b == [] || IsLineTerminator(b[0])
    ensures |a| == 0 || IsLineTerminator((a + t + b)[|a| - 1])
    ensures |a| + |t| == |a + t + b| || IsLineTerminator((a + t + b)[|a| + |t|])
    ensures forall i :: |a| <= i < |a| + |t| ==> !IsLineTerminator((a + t + b)[i])
  {
    var s := a + t + b;
    assert forall i :: |a| <= i < |a| + |t| ==> s[i] == t[i - |a|];
    if |a| > 0 {
      assert s[|a| - 1] == a[|a| - 1];
    }
    if b != [] {
      assert s[|a| + |t|] == b[0];
    }
  }

  lemma {:induction false} LineStartAt(s: string, j: nat, k: nat)
    requires j <= k <= |s|
    requires j == 0 || IsLineTerminator(s[j - 1])
    requires forall i :: j <= i < k ==> !IsLineTerminator(s[i])
    ensures LineStart(s, k) == j
    decreases k - j
  {
    if k > j {
      LineStartAt(s, j, k - 1);
    }
  }

  lemma {:induction false} LineEndAt(s: string, j: nat, k: nat)
    requires k <= j <= |s|
    requires j == |s| || IsLineTerminator(s[j])
    requires forall i :: k <= i < j ==> !IsLineTerminator(s[i])
    ensures LineEnd(s, k) == j
    decreases j - k
  {
    if k < j {
      LineEndAt(s, j, k + 1);
    }
  }

  // ---- class tokens and capitalisation -----------------------------------------------------

  /** ASCII whitespace, which separates the tokens of a `class` attribute. */
  predicate IsAsciiSpace(c: char) {
    c == ' ' || c == '\t' || c == '\n' || c == '\U{000C}' || c == '\r'
  }

  /** The longest prefix of `s` without ASCII whitespace. */
  function WordAt(s: string): (w: string)
    ensures |w| <= |s| && w == s[..|w|]
    ensures forall i :: 0 <= i < |w| ==> !IsAsciiSpace(w[i])
    ensures |w| < |s| ==> IsAsciiSpace(s[|w|])
  {
    if s == [] || IsAsciiSpace(s[0]) then [] else [s[0]] + WordAt(s[1..])
  }

  /** The tokens of a `class` attribute value, in order. */
  function Words(s: string): (r: seq<string>)
    ensures forall i :: 0 <= i < |r| ==> r[i] != [] && forall j :: 0 <= j < |r[i]| ==> !IsAsciiSpace(r[i][j])
    decreases |s|
  {
    if s == [] then []
    else if IsAsciiSpace(s[0]) then Words(s[1..])
    else [WordAt(s)] + Words(s[|WordAt(s)|..])
  }

  /** A non-empty value without whitespace is a single token. */
  lemma {:induction false} WordsSingle(s: string)
    requires s != [] && forall i :: 0 <= i < |s| ==> !IsAsciiSpace(s[i])
    ensures Words(s) == [s]
  {
    WordAtWhole(s);
    assert s[|s|..] == [];
  }

  lemma {:induction false} WordAtWhole(s: string)
    requires forall i :: 0 <= i < |s| ==> !IsAsciiSpace(s[i])
    ensures WordAt(s) == s
  {
    if s != [] {
      WordAtWhole(s[1..]);
    }
  }

  /** A string of whitespace only has no token. */
  lemma {:induction false} WordsBlank(s: string)
    requires forall i :: 0 <= i < |s| ==> IsAsciiSpace(s[i])
    ensures Words(s) == []
  {
    if s != [] {
      WordsBlank(s[1..]);
    }
  }

  /** `c.toUpperCase()` for an ASCII letter; other characters are kept. */
  function UpperAscii(c: char): (u: char)
    ensures 'a' <= c <= 'z' ==> 'A' <= u <= 'Z' && u as int - 'A' as int == c as int - 'a' as int
    ensures !('a' <= c <= 'z') ==> u == c
  {
    if 'a' <= c <= 'z' then (c as int - 'a' as int + 'A' as int) as char else c
  }

  /** `s.charAt(0).toUpperCase() + s.slice(1)`. */
  function Capitalize(s: string): (r: string)
    ensures |r| == |s| && (s != [] ==> r[1..] == s[1..])
    ensures s != [] ==> r[0] == UpperAscii(s[0])
  {
    if s == [] then [] else [UpperAscii(s[0])] + s[1..]
  }
}
