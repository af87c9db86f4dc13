/** The JavaScript string primitives the application relies on: whitespace
    trimming, `split`, `toLowerCase`, `includes`, character deletion,
    `parseInt`, `parseFloat`, the `Number(...)` coercion and the rendering
    of integers as decimal text. Strings are sequences of Unicode scalar
    values; "not a number" (NaN) is `None`. */
module JsText {

  datatype Option<+T> = None | Some(value: T)

  // ---------------------------------------------------------------------
  // Whitespace and trimming
  // ---------------------------------------------------------------------

  /** The WhiteSpace and LineTerminator code points of ECMA-262 (sections
      12.2 and 12.3): what `trim`, `parseInt`, `parseFloat` and `Number`
      skip. */
  predicate IsSpace(c: char) {
    c == '\t' || c == '\n' || c == '\U{0B}' || c == '\U{0C}' || c == '\r' || c == ' '
    || c == '\U{A0}' || c == '\U{1680}' || ('\U{2000}' <= c <= '\U{200A}')
    || c == '\U{2028}' || c == '\U{2029}' || c == '\U{202F}' || c == '\U{205F}'
    || c == '\U{3000}' || c == '\U{FEFF}'
  }

  /** `String.prototype.trimStart`: the suffix left after the leading
      whitespace. */
  function TrimStart(s: string): (r: string)
    ensures |r| <= |s| && r == s[|s| - |r|..]
    ensures forall i :: 0 <= i < |s| - |r| ==> IsSpace(s[i])
    ensures r == [] || !IsSpace(r[0])
    decreases |s|
  {
    if |s| > 0 && IsSpace(s[0]) then TrimStart(s[1..]) else s
  }

  /** `String.prototype.trimEnd`: the prefix left before the trailing
      whitespace. */
  function TrimEnd(s: string): (r: string)
    ensures |r| <= |s| && r == s[..|r|]
    ensures forall i :: |r| <= i < |s| ==> IsSpace(s[i])
    ensures r == [] || !IsSpace(r[|r| - 1])
    decreases |s|
  {
    if |s| > 0 && IsSpace(s[|s| - 1]) then TrimEnd(s[..|s| - 1]) else s
  }

  /** `String.prototype.trim`. */
  function Trim(s: string): string {
    TrimEnd(TrimStart(s))
  }

  /** The trimmed text is a slice of the input, everything cut away is
      whitespace, and it neither starts nor ends with whitespace. */
  lemma TrimIsInnerSlice(s: string)
    ensures exists i, j :: (0 <= i <= j <= |s| && Trim(s) == s[i..j]
      && (forall k :: 0 <= k < i ==> IsSpace(s[k]))
      && (forall k :: j <= k < |s| ==> IsSpace(s[k])))
    ensures Trim(s) == [] || (!IsSpace(Trim(s)[0]) && !IsSpace(Trim(s)[|Trim(s)| - 1]))
  {
    TrimIsSlice(s);
    TrimEndsNotSpace(s);
  }

  lemma TrimIsSlice(s: string)
    ensures exists i, j :: (0 <= i <= j <= |s| && Trim(s) == s[i..j]
      && (forall k :: 0 <= k < i ==> IsSpace(s[k]))
      && (forall k :: j <= k < |s| ==> IsSpace(s[k])))
  {
    var t := TrimStart(s);
    var u := TrimEnd(t);
    assert Trim(s) == u;
    InnerSlice(s, t, u);
  }

  lemma TrimEndsNotSpace(s: string)
    ensures Trim(s) == [] || (!IsSpace(Trim(s)[0]) && !IsSpace(Trim(s)[|Trim(s)| - 1]))
  {
    var t := TrimStart(s);
    var u := TrimEnd(t);
    assert Trim(s) == u;
    TrimmedEnds(t, u);
  }

  /** A prefix `u` of `t` that ends in a non-space, where `t` starts with
      one, starts and ends with a non-space. */
  lemma TrimmedEnds(t: string, u: string)
    requires t == [] || !IsSpace(t[0])
    requires |u| <= |t| && u == t[..|u|]
    requires u == [] || !IsSpace(u[|u| - 1])
    ensures u == [] || (!IsSpace(u[0]) && !IsSpace(u[|u| - 1]))
  {
    if u != [] {
      assert u[0] == t[0];
    }
  }

  /** A prefix `u` of a suffix `t` of `s`, where everything cut off is
      whitespace, is a slice of `s` with only whitespace around it. */
  lemma InnerSlice(s: string, t: string, u: string)
    requires |t| <= |s| && t == s[|s| - |t|..] && forall k :: 0 <= k < |s| - |t| ==> IsSpace(s[k])
    requires |u| <= |t| && u == t[..|u|] && forall k :: |u| <= k < |t| ==> IsSpace(t[k])
    ensures exists i, j :: (0 <= i <= j <= |s| && u == s[i..j]
      && (forall k :: 0 <= k < i ==> IsSpace(s[k]))
      && (forall k :: j <= k < |s| ==> IsSpace(s[k])))
  {
    var i := |s| - |t|;
    var j := i + |u|;
    assert u == s[i..j];
    forall k | j <= k < |s| ensures IsSpace(s[k]) {
      assert s[k] == t[k - i];
    }
  }

  /** Trimming leaves nothing exactly when every character is whitespace. */
  lemma TrimEmptyIffBlank(s: string)
    ensures Trim(s) == [] <==> forall k :: 0 <= k < |s| ==> IsSpace(s[k])
  {
    TrimIsInnerSlice(s);
    if forall k :: 0 <= k < |s| ==> IsSpace(s[k]) {
      assert TrimStart(s) == [];
    }
  }

  /** Trimming twice is trimming once. */
  lemma TrimIdempotent(s: string)
    ensures Trim(Trim(s)) == Trim(s)
  {
    var t := Trim(s);
    TrimIsInnerSlice(s);
    assert TrimStart(t) == t by {
      if t != [] {
        assert !IsSpace(t[0]);
      }
    }
    assert TrimEnd(t) == t by {
      if t != [] {
        assert !IsSpace(t[|t| - 1]);
      }
    }
  }

  // ---------------------------------------------------------------------
  // Case folding and substring search
  // ---------------------------------------------------------------------

  /** `toLowerCase` on one character, for the ASCII letters. */
  function LowerChar(c: char): char {
    if 'A' <= c <= 'Z' then (c as int - 'A' as int + 'a' as int) as char else c
  }

  /** `String.prototype.toLowerCase`, character by character. */
  function Lower(s: string): (r: string)
    ensures |r| == |s|
    ensures forall i :: 0 <= i < |s| ==> r[i] == LowerChar(s[i])
  {
    seq(|s|, i requires 0 <= i < |s| => LowerChar(s[i]))
  }

  predicate IsPrefix(t: string, s: string) {
    |t| <= |s| && s[..|t|] == t
  }

  /** `String.prototype.includes`: `t` occurs in `s` at some position. */
  predicate Contains(s: string, t: string)
    decreases |s|
  {
    IsPrefix(t, s) || (|s| > 0 && Contains(s[1..], t))
  }

  /** `t` occurs in `s` starting at index `i`. */
  predicate OccursAt(s: string, t: string, i: int) {
    0 <= i <= |s| - |t| && s[i..i + |t|] == t
  }

  /** `Contains` holds exactly when `t` is the slice of `s` at some index. */
  lemma {:induction false} ContainsAt(s: string, t: string)
    ensures Contains(s, t) <==> exists i :: OccursAt(s, t, i)
    decreases |s|
  {
    if |s| > 0 {
      ContainsAt(s[1..], t);
      if IsPrefix(t, s) {
        assert OccursAt(s, t, 0);
      } else if Contains(s[1..], t) {
        var i :| OccursAt(s[1..], t, i);
        assert s[i + 1..i + 1 + |t|] == s[1..][i..i + |t|];
        assert OccursAt(s, t, i + 1);
      }
      if !IsPrefix(t, s) && exists i :: OccursAt(s, t, i) {
        var i :| OccursAt(s, t, i);
        assert i != 0;
        assert s[1..][i - 1..i - 1 + |t|] == s[i..i + |t|];
        assert OccursAt(s[1..], t, i - 1);
      }
    } else {
      if exists i :: OccursAt(s, t, i) {
        var i :| OccursAt(s, t, i);
        assert |t| == 0 && t == [];
        assert IsPrefix(t, s);
      }
      if IsPrefix(t, s) {
        assert OccursAt(s, t, 0);
      }
    }
  }

  /** Every string contains itself surrounded by anything. */
  lemma ContainsInfix(a: string, t: string, b: string)
    ensures Contains(a + t + b, t)
  {
    var s := a + t + b;
    assert s[|a|..|a| + |t|] == t;
    assert OccursAt(s, t, |a|);
    ContainsAt(s, t);
  }

  /** Lower-casing keeps an occurrence: if `t` occurs in `s`, the lower-case
      `t` occurs in the lower-case `s`. */
  lemma LowerKeepsContains(s: string, t: string)
    requires Contains(s, t)
    ensures Contains(Lower(s), Lower(t))
  {
    ContainsAt(s, t);
    var i :| OccursAt(s, t, i);
    assert Lower(s)[i..i + |t|] == Lower(t);
    assert OccursAt(Lower(s), Lower(t), i);
    ContainsAt(Lower(s), Lower(t));
  }

  // ---------------------------------------------------------------------
  // Deleting characters and splitting
  // ---------------------------------------------------------------------

  /** `s.replace(/[cs]/g, '')`: `s` with every character of `cs` deleted. */
  function DeleteChars(s: string, cs: set<char>): (r: string)
    ensures |r| <= |s|
    ensures forall i :: 0 <= i < |r| ==> r[i] !in cs
    ensures (forall i :: 0 <= i < |s| ==> s[i] !in cs) ==> r == s
  {
    if s == [] then []
    else (if s[0] in cs then [] else [s[0]]) + DeleteChars(s[1..], cs)
  }

  /** Deleting distributes over concatenation. */
  lemma {:induction false} DeleteCharsConcat(a: string, b: string, cs: set<char>)
    ensures DeleteChars(a + b, cs) == DeleteChars(a, cs) + DeleteChars(b, cs)
    decreases |a|
  {
    if a == [] {
      assert a + b == b;
    } else {
      assert (a + b)[1..] == a[1..] + b;
      DeleteCharsConcat(a[1..], b, cs);
      var head := if a[0] in cs then [] else [a[0]];
      calc {
        DeleteChars(a + b, cs);
        head + DeleteChars(a[1..] + b, cs);
        head + (DeleteChars(a[1..], cs) + DeleteChars(b, cs));
        (head + DeleteChars(a[1..], cs)) + DeleteChars(b, cs);
      }
    }
  }

  /** Deleting a character that is to be deleted leaves nothing. */
  lemma DeleteOneChar(c: char, cs: set<char>)
    requires c in cs
    ensures DeleteChars([c], cs) == []
  {
    assert [c][0] == c && [c][1..] == [];
  }

  /** Number of occurrences of `c` in `s`. */
  function CountChar(s: string, c: char): nat {
    if s == [] then 0 else (if s[0] == c then 1 else 0) + CountChar(s[1..], c)
  }

  /** `String.prototype.split` with a one-character separator: the
      separator-free pieces between separators, in order. */
  function Split(s: string, sep: char): (r: seq<string>)
    ensures |r| >= 1
    decreases |s|
  {
    if s == [] then [""]
    else
      var rest := Split(s[1..], sep);
      if s[0] == sep then [""] + rest
      else [[s[0]] + rest[0]] + rest[1..]
  }

  /** `Array.prototype.join` with a one-character separator. */
  function Join(ps: seq<string>, sep: char): string
    requires |ps| >= 1
  {
    if |ps| == 1 then ps[0] else ps[0] + [sep] + Join(ps[1..], sep)
  }

  /** There is one piece more than there are separators, no piece holds the
      separator, and joining the pieces gives the input back. */
  lemma {:induction false} SplitJoin(s: string, sep: char)
    ensures |Split(s, sep)| == CountChar(s, sep) + 1
    ensures forall k :: 0 <= k < |Split(s, sep)| ==> sep !in Split(s, sep)[k]
    ensures Join(Split(s, sep), sep) == s
    decreases |s|
  {
    if s != [] {
      SplitJoin(s[1..], sep);
      var rest := Split(s[1..], sep);
      if s[0] == sep {
        assert Split(s, sep)[1..] == rest;
      } else {
        var r := Split(s, sep);
        assert r[0] == [s[0]] + rest[0];
        forall k | 0 <= k < |r| ensures sep !in r[k] {
          if k > 0 { assert r[k] == rest[k]; }
        }
        if |rest| > 1 {
          assert r[1..] == rest[1..];
          assert Join(rest, sep) == rest[0] + [sep] + Join(rest[1..], sep);
        }
      }
    }
  }

  // ---------------------------------------------------------------------
  // Digits and integers
  // ---------------------------------------------------------------------

  predicate IsDigit(c: char) {
    '0' <= c <= '9'
  }

  predicate AllDigits(s: string) {
    forall i :: 0 <= i < |s| ==> IsDigit(s[i])
  }

  /** The value of a character as a digit in the sense of `parseInt`:
      `0`-`9` are 0-9 and the letters, in either case, 10-35. */
  function DigitOf(c: char): Option<nat> {
    if '0' <= c <= '9' then Some(c as int - '0' as int)
    else if 'a' <= c <= 'z' then Some(c as int - 'a' as int + 10)
    else if 'A' <= c <= 'Z' then Some(c as int - 'A' as int + 10)
    else None
  }

  predicate IsRadixDigit(c: char, radix: nat) {
    DigitOf(c).Some? && DigitOf(c).value < radix
  }

  /** Length of the longest prefix of `s` made of digits of `radix`. */
  function LeadingDigits(s: string, radix: nat): (n: nat)
    ensures n <= |s|
    ensures forall i :: 0 <= i < n ==> IsRadixDigit(s[i], radix)
    ensures n == |s| || !IsRadixDigit(s[n], radix)
  {
    if s != [] && IsRadixDigit(s[0], radix) then 1 + LeadingDigits(s[1..], radix) else 0
  }

  /** The value of one digit character; 0 for a character that is none. */
  function Digit(c: char): nat {
    if DigitOf(c).Some? then DigitOf(c).value else 0
  }

  /** The value of a string of digits, most significant first; it is
      only read on strings of digits of `radix`. */
  function ValueIn(s: string, radix: nat): nat {
    if s == [] then 0 else ValueIn(s[..|s| - 1], radix) * radix + Digit(s[|s| - 1])
  }

  /** A decimal digit string is a string of radix-10 digits. */
  lemma DigitsAreRadix10(s: string)
    requires AllDigits(s)
    ensures forall i :: 0 <= i < |s| ==> IsRadixDigit(s[i], 10)
  {
  }

  /** Radix digits read from the start of `v`: the value of the longest
      run of digits, or NaN when `v` does not start with one. */
  function RadixPrefix(v: string, radix: nat): Option<nat> {
    var n := LeadingDigits(v, radix);
    if n == 0 then None else Some(ValueIn(v[..n], radix))
  }

  /** `parseInt` after the sign: a `0x`/`0X` selects radix 16, otherwise
      radix 10. */
  function ParseUnsigned(u: string): Option<nat> {
    if |u| >= 2 && u[0] == '0' && (u[1] == 'x' || u[1] == 'X') then RadixPrefix(u[2..], 16)
    else RadixPrefix(u, 10)
  }

  /** `parseInt(s)` with no radix argument (section 19.2.5 of ECMA-262):
      leading whitespace, an optional sign, an optional `0x`/`0X` that
      selects radix 16, then the longest run of digits; no digits is NaN. */
  function ParseInt(s: string): Option<int> {
    var t := TrimStart(s);
    if |t| > 0 && t[0] == '-' then
      match ParseUnsigned(t[1..])
      case None => None
      case Some(m) => Some(-(m as int))
    else if |t| > 0 && t[0] == '+' then
      match ParseUnsigned(t[1..])
      case None => None
      case Some(m) => Some(m)
    else
      match ParseUnsigned(t)
      case None => None
      case Some(m) => Some(m)
  }

  /** The digit character of a value below ten. */
  function DigitChar(d: nat): char
    requires d < 10
  {
    ('0' as int + d) as char
  }

  /** The decimal rendering of a natural number, as `String(n)` gives it. */
  function NatToString(n: nat): (r: string)
    ensures |r| >= 1 && AllDigits(r)
  {
    if n < 10 then [DigitChar(n)] else NatToString(n / 10) + [DigitChar(n % 10)]
  }

  /** The decimal rendering of an integer, with a leading `-` when negative. */
  function IntToString(i: int): (r: string)
    ensures |r| >= 1
  {
    if i < 0 then "-" + NatToString(-i) else NatToString(i)
  }

  /** Reading the rendering of `n` back digit by digit gives `n`. */
  lemma {:induction false} NatToStringValue(n: nat)
    ensures ValueIn(NatToString(n), 10) == n
  {
    if n >= 10 {
      NatToStringValue(n / 10);
      var r := NatToString(n);
      assert r[..|r| - 1] == NatToString(n / 10);
    }
  }

  /** A string made only of radix digits is read in full. */
  lemma {:induction false} LeadingDigitsOfDigits(d: string, radix: nat)
    requires forall i :: 0 <= i < |d| ==> IsRadixDigit(d[i], radix)
    ensures LeadingDigits(d, radix) == |d|
    decreases |d|
  {
    if d != [] {
      LeadingDigitsOfDigits(d[1..], radix);
    }
  }

  /** `parseInt` after the sign, on a non-empty decimal digit string. */
  lemma ParseUnsignedOfDigits(d: string)
    requires |d| > 0 && AllDigits(d)
    ensures ParseUnsigned(d) == Some(ValueIn(d, 10))
  {
    assert !(|d| >= 2 && d[0] == '0' && (d[1] == 'x' || d[1] == 'X')) by {
      if |d| >= 2 { assert IsDigit(d[1]); }
    }
    LeadingDigitsOfDigits(d, 10);
    assert d[..|d|] == d;
  }

  /** `parseInt` of a non-empty digit string is the number those digits
      write. */
  lemma ParseIntOfDigits(d: string)
    requires |d| > 0 && AllDigits(d)
    ensures ParseInt(d) == Some(ValueIn(d, 10))
  {
    assert !IsSpace(d[0]);
    assert TrimStart(d) == d;
    ParseUnsignedOfDigits(d);
  }

  /** `parseInt` reads back what `IntToString` writes. */
  lemma ParseIntOfIntToString(i: int)
    ensures ParseInt(IntToString(i)) == Some(i)
  {
    var m: nat := if i < 0 then -i else i;
    var d := NatToString(m);
    NatToStringValue(m);
    if i < 0 {
      var s := IntToString(i);
      assert s == "-" + d;
      assert s[0] == '-' && s[1..] == d;
      ParseIntOfNegative(s, d);
    } else {
      assert IntToString(i) == d;
      ParseIntOfDigits(d);
    }
  }

  /** `parseInt` of a minus sign followed by a non-empty digit string. */
  lemma ParseIntOfNegative(s: string, d: string)
    requires |d| > 0 && AllDigits(d)
    requires |s| == |d| + 1 && s[0] == '-' && s[1..] == d
    ensures ParseInt(s) == Some(-(ValueIn(d, 10) as int))
  {
    assert !IsSpace(s[0]);
    assert TrimStart(s) == s;
    ParseUnsignedOfDigits(d);
  }

  // ---------------------------------------------------------------------
  // Decimal numbers: parseFloat and Number()
  // ---------------------------------------------------------------------

  function Pow10(k: nat): (p: nat)
    ensures p >= 1
  {
    if k == 0 then 1 else 10 * Pow10(k - 1)
  }

  /** The value of fraction digits `f` written after a decimal point. */
  function FractionValue(f: string): real
    requires AllDigits(f)
  {
    ValueIn(f, 10) as real / Pow10(|f|) as real
  }

  /** The longest prefix of `body` that is an unsigned decimal literal:
      integer digits and an optional `.` with fraction digits, with at least
      one digit in all. Gives the value and the length read. */
  function UnsignedDecimalPrefix(body: string): (r: Option<(real, nat)>)
    ensures r.Some? ==> 0 < r.value.1 <= |body|
  {
    var k := LeadingDigits(body, 10);
    if k < |body| && body[k] == '.' then
      var f := LeadingDigits(body[k + 1..], 10);
      if k == 0 && f == 0 then None
      else Some((ValueIn(body[..k], 10) as real + FractionValue(body[k + 1..][..f]), k + 1 + f))
    else if k == 0 then None
    else Some((ValueIn(body[..k], 10) as real, k))
  }

  /** The longest prefix of `t` that is a decimal literal, an optional sign
      followed by an unsigned one. */
  function DecimalPrefix(t: string): (r: Option<(real, nat)>)
    ensures r.Some? ==> 0 < r.value.1 <= |t|
  {
    if |t| > 0 && (t[0] == '+' || t[0] == '-') then
      match UnsignedDecimalPrefix(t[1..])
      case None => None
      case Some((v, n)) => Some((if t[0] == '-' then -v else v, n + 1))
    else UnsignedDecimalPrefix(t)
  }

  /** The value part of a prefix read. */
  function ReadValue(r: Option<(real, nat)>): Option<real> {
    match r
    case None => None
    case Some((v, _)) => Some(v)
  }

  /** `parseFloat(s)` (section 19.2.4 of ECMA-262) for decimal literals:
      the value of the longest decimal prefix after leading whitespace. */
  function ParseFloat(s: string): Option<real> {
    ReadValue(DecimalPrefix(TrimStart(s)))
  }

  /** `Number(s)` for a string (section 7.1.4.1.1 of ECMA-262) on decimal
      literals: the trimmed text must be empty, which is 0, or one decimal
      literal in full. */
  function ToNumber(s: string): Option<real> {
    var t := Trim(s);
    if t == [] then Some(0.0)
    else
      match DecimalPrefix(t)
      case Some((v, n)) => if n == |t| then Some(v) else None
      case None => None
  }

  /** `parseFloat` of a text that starts with a digit reads an unsigned
      decimal literal from its start. */
  lemma ParseFloatFromDigit(t: string)
    requires |t| > 0 && IsDigit(t[0])
    ensures ParseFloat(t) == ReadValue(UnsignedDecimalPrefix(t))
  {
    assert !IsSpace(t[0]);
    assert TrimStart(t) == t;
    assert !(t[0] == '+' || t[0] == '-');
  }

  /** The value of one digit. */
  lemma ValueOfDigit(a: char)
    requires IsDigit(a)
    ensures ValueIn([a], 10) == DigitOf(a).value
  {
    assert [a][..0] == [];
  }

  /** `parseFloat` of one digit is that digit's value. */
  lemma ParseFloatOfDigit(a: char)
    requires IsDigit(a)
    ensures ParseFloat([a]) == Some(DigitOf(a).value as real)
  {
    var t := [a];
    LeadingDigitsOfDigits(t, 10);
    assert t[..1] == t;
    ValueOfDigit(a);
    assert UnsignedDecimalPrefix(t) == Some((DigitOf(a).value as real, 1));
    ParseFloatFromDigit(t);
  }

  /** `parseFloat` of `a.b`, for digits `a` and `b`, is `a + b/10`. */
  lemma ParseFloatOfDigitDotDigit(a: char, b: char)
    requires IsDigit(a) && IsDigit(b)
    ensures ParseFloat([a, '.', b]) == Some(DigitOf(a).value as real + DigitOf(b).value as real / 10.0)
  {
    var t := [a, '.', b];
    assert LeadingDigits(t, 10) == 1 by {
      assert t[1..][0] == '.';
    }
    assert t[2..] == [b];
    LeadingDigitsOfDigits([b], 10);
    assert t[..1] == [a] && [b][..1] == [b];
    ValueOfDigit(a);
    ValueOfDigit(b);
    assert FractionValue([b]) == DigitOf(b).value as real / 10.0;
    assert UnsignedDecimalPrefix(t) == Some((DigitOf(a).value as real + DigitOf(b).value as real / 10.0, 3));
    ParseFloatFromDigit(t);
  }

  /** A run of digits stops at the first character that is no digit. */
  lemma {:induction false} LeadingDigitsStop(d: string, rest: string)
    requires AllDigits(d)
    requires rest != [] && !IsRadixDigit(rest[0], 10)
    ensures LeadingDigits(d + rest, 10) == |d|
    decreases |d|
  {
    if d == [] {
      assert d + rest == rest;
    } else {
      assert (d + rest)[0] == d[0] && IsDigit(d[0]);
      assert (d + rest)[1..] == d[1..] + rest;
      LeadingDigitsStop(d[1..], rest);
    }
  }

  /** A text that starts and ends with a non-space is its own trim. */
  lemma TrimOfUnspaced(t: string)
    requires t != [] && !IsSpace(t[0]) && !IsSpace(t[|t| - 1])
    ensures TrimStart(t) == t && Trim(t) == t
  {
  }

  /** `Number(...)` of a blank text is 0, while `parseFloat` of it is NaN. */
  lemma ToNumberOfBlank(s: string)
    requires forall k :: 0 <= k < |s| ==> IsSpace(s[k])
    ensures ToNumber(s) == Some(0.0)
    ensures ParseFloat(s) == None
  {
    TrimEmptyIffBlank(s);
    assert TrimStart(s) == [];
  }

  /** `Number(...)` and `parseFloat` of a text that is one unsigned
      decimal literal from end to end, with no space around it, both read
      its value. */
  lemma WholeLiteral(t: string, v: real)
    requires t != [] && !IsSpace(t[0]) && !IsSpace(t[|t| - 1]) && t[0] != '+' && t[0] != '-'
    requires UnsignedDecimalPrefix(t) == Some((v, |t|))
    ensures ToNumber(t) == Some(v) && ParseFloat(t) == Some(v)
  {
    TrimOfUnspaced(t);
  }

  /** `Number(...)` of a run of digits is the number they write, as
      `parseFloat` gives it. */
  lemma ToNumberOfDigits(d: string)
    requires |d| > 0 && AllDigits(d)
    ensures ToNumber(d) == Some(ValueIn(d, 10) as real)
    ensures ParseFloat(d) == ToNumber(d)
  {
    assert IsDigit(d[0]) && IsDigit(d[|d| - 1]);
    DigitsAreRadix10(d);
    LeadingDigitsOfDigits(d, 10);
    assert d[..|d|] == d;
    WholeLiteral(d, ValueIn(d, 10) as real);
  }

  /** The unsigned literal `d.f` is read in full. */
  lemma DecimalReadInFull(t: string, d: string, f: string)
    requires AllDigits(d) && AllDigits(f) && |f| > 0
    requires t == d + "." + f
    ensures UnsignedDecimalPrefix(t) == Some((ValueIn(d, 10) as real + FractionValue(f), |t|))
  {
    DecimalParts(t, d, f);
    DigitsAreRadix10(f);
    LeadingDigitsOfDigits(f, 10);
    assert f[..|f|] == f;
  }

  /** The literal `d.f` splits at its point: digits `d` are read first,
      then the point, then `f`. */
  lemma DecimalParts(t: string, d: string, f: string)
    requires AllDigits(d) && t == d + "." + f
    ensures LeadingDigits(t, 10) == |d| && |d| < |t| && t[|d|] == '.'
    ensures t[..|d|] == d && t[|d| + 1..] == f
  {
    assert t == d + ("." + f);
    LeadingDigitsStop(d, "." + f);
  }

  /** `Number(...)` of a decimal literal `t`, written as digits `d`, a point
      and non-empty fraction digits `f`, is its value, and `parseFloat`
      reads the same value. */
  lemma ToNumberOfDecimal(t: string, d: string, f: string)
    requires AllDigits(d) && AllDigits(f) && |f| > 0 && t == d + "." + f
    ensures ToNumber(t) == Some(ValueIn(d, 10) as real + FractionValue(f))
    ensures ParseFloat(t) == ToNumber(t)
  {
    DecimalReadInFull(t, d, f);
    DecimalEnds(t, d, f);
    WholeLiteral(t, ValueIn(d, 10) as real + FractionValue(f));
  }

  /** `Number(...)` and `parseFloat` agree on `a.b`, for digits `a`
      and `b`. */
  lemma ToNumberOfDigitDotDigit(a: char, b: char)
    requires IsDigit(a) && IsDigit(b)
    ensures ToNumber([a, '.', b]) == ParseFloat([a, '.', b])
  {
    var t := [a, '.', b];
    assert t == [a] + "." + [b];
    ToNumberOfDecimal(t, [a], [b]);
  }

  /** `Number("4.5")` is 4.5. */
  lemma TypedFourPointFiveReads()
    ensures ToNumber("4.5") == Some(4.5)
  {
    ToNumberOfDigitDotDigit('4', '5');
    RatingChoicesParse();
    assert "4.5" == ['4', '.', '5'];
  }

  /** The literal `d.f` has no sign and no space at either end. */
  lemma DecimalEnds(t: string, d: string, f: string)
    requires AllDigits(d) && AllDigits(f) && |f| > 0
    requires t == d + "." + f
    ensures t != [] && !IsSpace(t[0]) && !IsSpace(t[|t| - 1]) && t[0] != '+' && t[0] != '-'
  {
    assert t[|t| - 1] == f[|f| - 1] && IsDigit(f[|f| - 1]);
    if d != [] {
      assert t[0] == d[0] && IsDigit(d[0]);
    } else {
      assert t[0] == '.';
    }
  }

  /** The minimum-rating choices of the package page, `4.5`, `4`, `3.5` and
      `3`, written out as the page renders them, parse to those values. */
  lemma RatingChoicesParse()
    ensures ParseFloat("4.5") == Some(4.5)
    ensures ParseFloat("4") == Some(4.0)
    ensures ParseFloat("3.5") == Some(3.5)
    ensures ParseFloat("3") == Some(3.0)
  {
    ParseFloatOfDigitDotDigit('4', '5');
    ParseFloatOfDigitDotDigit('3', '5');
    ParseFloatOfDigit('4');
    ParseFloatOfDigit('3');
  }
}
