/**
 * The JavaScript string primitives the CSV parser relies on:
 * `String.prototype.trim`, `String.prototype.split` with a one-character
 * separator, and the global `parseInt` without a radix argument.
 * Strings are `seq<char>`, a `char` being a Unicode scalar value where
 * JavaScript counts UTF-16 code units; a character outside the Basic
 * Multilingual Plane is one `char` here and two units there. Trimming,
 * splitting on a comma or a newline, `parseInt` and string equality give
 * the same results under either reading, since none of the characters
 * they look for is outside that plane.
 */
module Text {
  import opened Wrappers

  /** WhiteSpace and LineTerminator code points as ECMAScript defines them;
      these are what `trim` strips and what `parseInt` skips. */
  predicate IsJsSpace(c: char) {
    c == '\t' || c == '\n' || c == '\U{000B}' || c == '\U{000C}' || c == '\r' || c == ' '
    || c == '\U{00A0}' || c == '\U{1680}' || ('\U{2000}' <= c <= '\U{200A}')
    || c == '\U{2028}' || c == '\U{2029}' || c == '\U{202F}' || c == '\U{205F}'
    || c == '\U{3000}' || c == '\U{FEFF}'
  }

  predicate AllSpace(s: string) {
    forall i :: 0 <= i < |s| ==> IsJsSpace(s[i])
  }

  /** The position of the first non-space character at or after `i`, or
      `|s|`. */
  function FirstNonSpace(s: string, i: nat): (r: nat)
    requires i <= |s|
    ensures i <= r <= |s|
    ensures forall j :: i <= j < r ==> IsJsSpace(s[j])
    ensures r < |s| ==> !IsJsSpace(s[r])
    decreases |s| - i
  {
    if i < |s| && IsJsSpace(s[i]) then FirstNonSpace(s, i + 1) else i
  }

  /** The position just after the last non-space character before `j`, or 0. */
  function EndOfText(s: string, j: nat): (r: nat)
    requires j <= |s|
    ensures r <= j
    ensures forall k :: r <= k < j ==> IsJsSpace(s[k])
    ensures r > 0 ==> !IsJsSpace(s[r - 1])
    decreases j
  {
    if j > 0 && IsJsSpace(s[j - 1]) then EndOfText(s, j - 1) else j
  }

  /** Leading white space removed: the result is the suffix of `s` that starts
      at its first non-space character. */
  function TrimStart(s: string): (r: string)
    ensures |r| <= |s| && r == s[|s| - |r|..]
    ensures AllSpace(s[..|s| - |r|])
    ensures r == [] || !IsJsSpace(r[0])
  {
    s[FirstNonSpace(s, 0)..]
  }

  /** Trailing white space removed: the prefix of `s` that ends at its last
      non-space character. */
  function TrimEnd(s: string): (r: string)
    ensures |r| <= |s| && r == s[..|r|]
    ensures AllSpace(s[|r|..])
    ensures r == [] || !IsJsSpace(r[|r| - 1])
  {
    s[..EndOfText(s, |s|)]
  }

  /** `r` is the part of `s` from position `i` with only white space
      around it. */
  predicate TrimmedAt(s: string, r: string, i: int) {
    0 <= i <= i + |r| <= |s| && r == s[i..i + |r|] && AllSpace(s[..i]) && AllSpace(s[i + |r|..])
  }

  /** `r` is what trimming `s` leaves: an infix of `s` with only white
      space around it. */
  ghost predicate IsTrimOf(s: string, r: string) {
    exists i :: TrimmedAt(s, r, i)
  }

  /** `s.trim()`: the infix of `s` between its leading and trailing white space. */
  function Trim(s: string): (r: string)
    ensures exists i :: TrimmedAt(s, r, i)
    ensures r == [] || (!IsJsSpace(r[0]) && !IsJsSpace(r[|r| - 1]))
  {
    var t := TrimStart(s);
    var r := TrimEnd(t);
    TrimmedInside(s, t, r);
    r
  }

  /** Trailing white space removed from a suffix that only white space
      precedes leaves an infix with white space on both sides. */
  lemma TrimmedInside(s: string, t: string, r: string)
    requires |t| <= |s| && t == s[|s| - |t|..] && AllSpace(s[..|s| - |t|])
    requires |r| <= |t| && r == t[..|r|] && AllSpace(t[|r|..])
    requires t == [] || !IsJsSpace(t[0])
    requires r == [] || !IsJsSpace(r[|r| - 1])
    ensures TrimmedAt(s, r, |s| - |t|)
    ensures r == [] || (!IsJsSpace(r[0]) && !IsJsSpace(r[|r| - 1]))
  {
    assert r != [] ==> r[0] == t[0];
    var i := |s| - |t|;
    assert s[i..i + |r|] == t[..|r|];
    assert s[i + |r|..] == t[|r|..];
  }

  /** A string is blank (its trim is empty, so `line.trim()` is falsy)
      exactly when every character is white space. */
  lemma BlankIffAllSpace(s: string)
    ensures Trim(s) == [] <==> AllSpace(s)
  {
    var t := TrimStart(s);
    if Trim(s) == [] {
      forall j | 0 <= j < |s| ensures IsJsSpace(s[j]) {
        assert s[..|s| - |t|][j] == s[j];
      }
    }
  }

  /** `s.split(sep)` for a one-character separator: the maximal runs between
      separators, always at least one (an empty string splits into `[""]`). */
  function Split(s: string, sep: char): (r: seq<string>)
    ensures |r| >= 1
    ensures forall i :: 0 <= i < |r| ==> sep !in r[i]
    decreases |s|
  {
    if s == [] then [""]
    else
      var rest := Split(s[1..], sep);
      if s[0] == sep then [""] + rest
      else [[s[0]] + rest[0]] + rest[1..]
  }

  /** `parts.join(sep)`: the partner of `Split`. */
  function Join(parts: seq<string>, sep: char): string
    requires |parts| >= 1
  {
    if |parts| == 1 then parts[0] else parts[0] + [sep] + Join(parts[1..], sep)
  }

  lemma {:induction false} JoinConsHead(c: char, parts: seq<string>, sep: char)
    requires |parts| >= 1
    ensures Join([[c] + parts[0]] + parts[1..], sep) == [c] + Join(parts, sep)
  {
    var ps := [[c] + parts[0]] + parts[1..];
    assert ps[1..] == parts[1..];
  }

  /** Joining the pieces of a split with the same separator gives back the text. */
  lemma {:induction false} JoinSplit(s: string, sep: char)
    ensures Join(Split(s, sep), sep) == s
    decreases |s|
  {
    if s != [] {
      var rest := Split(s[1..], sep);
      JoinSplit(s[1..], sep);
      if s[0] == sep {
        assert ([""] + rest)[1..] == rest;
      } else {
        JoinConsHead(s[0], rest, sep);
      }
    }
  }

  lemma {:induction false} SplitNoSep(a: string, sep: char)
    requires sep !in a
    ensures Split(a, sep) == [a]
    decreases |a|
  {
    if a != [] {
      SplitNoSep(a[1..], sep);
      assert [a[0]] + a[1..] == a;
    }
  }

  lemma {:induction false} SplitAfterPiece(a: string, sep: char, b: string)
    requires sep !in a
    ensures Split(a + [sep] + b, sep) == [a] + Split(b, sep)
    decreases |a|
  {
    var s := a + [sep] + b;
    if a == [] {
      assert s[1..] == b;
    } else {
      assert s[1..] == a[1..] + [sep] + b;
      SplitAfterPiece(a[1..], sep, b);
      assert [a[0]] + a[1..] == a;
    }
  }

  /** Splitting a join of separator-free pieces gives back the pieces. */
  lemma {:induction false} SplitJoin(parts: seq<string>, sep: char)
    requires |parts| >= 1
    requires forall i :: 0 <= i < |parts| ==> sep !in parts[i]
    ensures Split(Join(parts, sep), sep) == parts
    decreases |parts|
  {
    if |parts| == 1 {
      SplitNoSep(parts[0], sep);
    } else {
      SplitJoin(parts[1..], sep);
      SplitAfterPiece(parts[0], sep, Join(parts[1..], sep));
      assert [parts[0]] + parts[1..] == parts;
    }
  }

  // ---------------------------------------------------------------- parseInt

  /** The value of `c` as a digit in base `radix` (10 or 16), if it is one. */
  function DigitValue(c: char, radix: nat): Option<nat>
  {
    if '0' <= c <= '9' && (c as int) - ('0' as int) < radix then Some((c as int) - ('0' as int))
    else if radix == 16 && 'a' <= c <= 'f' then Some((c as int) - ('a' as int) + 10)
    else if radix == 16 && 'A' <= c <= 'F' then Some((c as int) - ('A' as int) + 10)
    else None
  }

  predicate IsDigit(c: char, radix: nat) {
    DigitValue(c, radix).Some?
  }

  /** The longest prefix of `s` made of base-`radix` digits. */
  function LeadingDigits(s: string, radix: nat): (r: string)
    ensures |r| <= |s| && r == s[..|r|]
    ensures forall i :: 0 <= i < |r| ==> IsDigit(r[i], radix)
    ensures |r| < |s| ==> !IsDigit(s[|r|], radix)
    decreases |s|
  {
    if s != [] && IsDigit(s[0], radix) then [s[0]] + LeadingDigits(s[1..], radix) else []
  }

  /** The value of a digit, 0 for a character that is not one. */
  function Digit(c: char, radix: nat): nat
  {
    match DigitValue(c, radix)
    case Some(d) => d
    case None => 0
  }

  /** The number a string of digits denotes, most significant digit first. */
  function DigitsValue(ds: string, radix: nat): nat
    decreases |ds|
  {
    if ds == [] then 0 else DigitsValue(ds[..|ds| - 1], radix) * radix + Digit(ds[|ds| - 1], radix)
  }

  /** The magnitude that a run of base-`radix` digits at the start of `body`
      denotes, or `None` when `body` does not start with such a digit. */
  function LeadingValue(body: string, radix: nat): Option<nat>
  {
    var ds := LeadingDigits(body, radix);
    if ds == [] then None else Some(DigitsValue(ds, radix))
  }

  /** An unsigned number: a `0x`/`0X` prefix switches to base 16. */
  function ParseMagnitude(u: string): Option<nat>
  {
    if |u| >= 2 && u[0] == '0' && (u[1] == 'x' || u[1] == 'X') then LeadingValue(u[2..], 16)
    else LeadingValue(u, 10)
  }

  /** The global `parseInt(s)` with no radix, as ECMAScript defines it, with
      `None` for NaN: leading white space is skipped, one `+` or `-` is
      read, a `0x`/`0X` prefix switches to base 16, and the longest run of
      digits that follows is the magnitude; without a digit the result is NaN. */
  function ParseInt(s: string): Option<int>
  {
    var t := TrimStart(s);
    if t != [] && t[0] == '-' then
      match ParseMagnitude(t[1..])
      case Some(v) => Some(-(v as int))
      case None => None
    else if t != [] && t[0] == '+' then
      match ParseMagnitude(t[1..])
      case Some(v) => Some(v)
      case None => None
    else
      match ParseMagnitude(t)
      case Some(v) => Some(v)
      case None => None
  }

  /** `parseInt(s) || 0`: NaN (and -0) become 0. */
  function ParseIntOrZero(s: string): int
  {
    match ParseInt(s)
    case Some(v) => v
    case None => 0
  }

  predicate NoDecimalDigit(s: string) {
    forall i :: 0 <= i < |s| ==> !('0' <= s[i] <= '9')
  }

  /** A string without a decimal digit anywhere is NaN to `parseInt`, so
      `parseInt(s) || 0` reads it as 0: neither a sign nor the prefix `0x`
      can start a number without one. */
  lemma NoDigitIsNaN(s: string)
    requires NoDecimalDigit(s)
    ensures ParseInt(s) == None
    ensures ParseIntOrZero(s) == 0
  {
    var t := TrimStart(s);
    assert NoDecimalDigit(t) by {
      forall i | 0 <= i < |t| ensures !('0' <= t[i] <= '9') {
        assert t[i] == s[|s| - |t| + i];
      }
    }
    if t != [] {
      assert NoDecimalDigit(t[1..]) by {
        forall i | 0 <= i < |t| - 1 ensures !('0' <= t[1..][i] <= '9') {
          assert t[1..][i] == t[i + 1];
        }
      }
      NoDigitNoMagnitude(t[1..]);
    }
    NoDigitNoMagnitude(t);
  }

  lemma NoDigitNoMagnitude(u: string)
    requires NoDecimalDigit(u)
    ensures ParseMagnitude(u) == None
  {
    if u != [] {
      assert !IsDigit(u[0], 10);
    }
  }

  // ------------------------------------------- decimal rendering, the partner

  function DigitChar(d: nat): char
    requires d < 10
  {
    ('0' as int + d) as char
  }

  /** Decimal digits of `n`, without leading zeros. */
  function ShowNat(n: nat): (r: string)
    ensures |r| >= 1
    ensures forall i :: 0 <= i < |r| ==> '0' <= r[i] <= '9'
    ensures |r| >= 2 ==> r[0] != '0'
  {
    if n < 10 then [DigitChar(n)] else ShowNat(n / 10) + [DigitChar(n % 10)]
  }

  /** `String(n)` for an integer `n`. */
  function ShowInt(n: int): string
  {
    if n < 0 then "-" + ShowNat(-n) else ShowNat(n)
  }

  lemma {:induction false} DigitsValueShowNat(n: nat)
    ensures forall i :: 0 <= i < |ShowNat(n)| ==> IsDigit(ShowNat(n)[i], 10)
    ensures DigitsValue(ShowNat(n), 10) == n
  {
    var r := ShowNat(n);
    forall i | 0 <= i < |r| ensures IsDigit(r[i], 10) {
      assert '0' <= r[i] <= '9';
    }
    if n >= 10 {
      DigitsValueShowNat(n / 10);
      assert r[..|r| - 1] == ShowNat(n / 10);
    }
  }

  lemma {:induction false} LeadingDigitsOfDigits(ds: string, tail: string, radix: nat)
    requires forall i :: 0 <= i < |ds| ==> IsDigit(ds[i], radix)
    requires tail == [] || !IsDigit(tail[0], radix)
    ensures LeadingDigits(ds + tail, radix) == ds
    decreases |ds|
  {
    if ds != [] {
      assert (ds + tail)[1..] == ds[1..] + tail;
      LeadingDigitsOfDigits(ds[1..], tail, radix);
      assert [ds[0]] + ds[1..] == ds;
    }
  }

  /** The decimal rendering of `n`, with anything after it that neither
      continues its digits nor makes a lone `0` into the prefix `0x`,
      reads back as `n`. */
  lemma {:induction false} ParseMagnitudeShowNat(m: nat, tail: string)
    requires tail == [] || !('0' <= tail[0] <= '9')
    requires m == 0 ==> tail == [] || (tail[0] != 'x' && tail[0] != 'X')
    ensures ParseMagnitude(ShowNat(m) + tail) == Some(m)
  {
    var digits := ShowNat(m);
    DigitsValueShowNat(m);
    assert tail == [] || !IsDigit(tail[0], 10);
    LeadingDigitsOfDigits(digits, tail, 10);
    var u := digits + tail;
    assert u[0] == digits[0];
    if |digits| >= 2 {
      assert u[0] == digits[0] != '0';
    } else if |u| >= 2 {
      assert u[1] == tail[0];
    }
  }

  /** `parseInt` reads back what `String` writes, and ignores whatever follows
      the number as long as it does not continue the digits (and, after a
      lone `0`, does not turn it into the hexadecimal prefix `0x`). */
  lemma ParseIntShowNat(m: nat, tail: string)
    requires tail == [] || !('0' <= tail[0] <= '9')
    requires m == 0 ==> tail == [] || (tail[0] != 'x' && tail[0] != 'X')
    ensures ParseInt(ShowNat(m) + tail) == Some(m)
  {
    var s := ShowNat(m) + tail;
    ParseMagnitudeShowNat(m, tail);
    assert s[0] == ShowNat(m)[0];
    ParseIntUnsigned(s, m);
  }

  lemma ParseIntShowInt(n: int, tail: string)
    requires tail == [] || !('0' <= tail[0] <= '9')
    requires n == 0 ==> tail == [] || (tail[0] != 'x' && tail[0] != 'X')
    ensures ParseInt(ShowInt(n) + tail) == Some(n)
    ensures ParseIntOrZero(ShowInt(n) + tail) == n
  {
    if n < 0 {
      ParseIntShowNegative(-n, tail);
    } else {
      ParseIntShowNat(n, tail);
    }
  }

  lemma ParseIntShowNegative(m: nat, tail: string)
    requires m > 0
    requires tail == [] || !('0' <= tail[0] <= '9')
    ensures ParseInt(ShowInt(-(m as int)) + tail) == Some(-(m as int))
  {
    var u := ShowNat(m) + tail;
    ParseMagnitudeShowNat(m, tail);
    ParseIntMinus(u, m);
    assert ShowInt(-(m as int)) + tail == ['-'] + u;
  }

  lemma TrimStartKeeps(s: string)
    requires s == [] || !IsJsSpace(s[0])
    ensures TrimStart(s) == s
  {
  }

  lemma ParseIntUnsigned(s: string, m: nat)
    requires s != [] && '0' <= s[0] <= '9'
    requires ParseMagnitude(s) == Some(m)
    ensures ParseInt(s) == Some(m)
  {
    TrimStartKeeps(s);
  }

  lemma ParseIntMinus(u: string, m: nat)
    requires ParseMagnitude(u) == Some(m)
    ensures ParseInt(['-'] + u) == Some(-(m as int))
  {
    var s := ['-'] + u;
    TrimStartKeeps(s);
    assert s[1..] == u;
  }
}
