/** Small value types and string helpers shared by the rest of the model:
    optional values, the JavaScript string operations the dashboard uses
    (join, split, number-to-string, ASCII lower-casing, indexOf, `<`) and
    Float64 values that may be NaN. */
module Common {

  datatype Option<T> = None | Some(value: T)

  // ---------------------------------------------------------------------
  // Array.prototype.join and String.prototype.split on one character

  function Join(parts: seq<string>, sep: string): string
  {
    if |parts| == 0 then ""
    else if |parts| == 1 then parts[0]
    else parts[0] + sep + Join(parts[1..], sep)
  }

  /** `s.split(c)` for a one-character separator: always at least one piece. */
  function Split(s: string, c: char): (pieces: seq<string>)
    ensures |pieces| >= 1
  {
    if s == [] then [""]
    else if s[0] == c then [""] + Split(s[1..], c)
    else
      var rest := Split(s[1..], c);
      [[s[0]] + rest[0]] + rest[1..]
  }

  lemma {:induction false} SplitNoSeparator(x: string, c: char)
    requires c !in x
    ensures Split(x, c) == [x]
  {
    if x != [] {
      SplitNoSeparator(x[1..], c);
      assert [x[0]] + x[1..] == x;
    }
  }

  lemma {:induction false} SplitAfterPiece(x: string, y: string, c: char)
    requires c !in x
    ensures Split(x + [c] + y, c) == [x] + Split(y, c)
  {
    if x == [] {
      assert x + [c] + y == [c] + y;
      assert ([c] + y)[1..] == y;
    } else {
      assert (x + [c] + y)[1..] == x[1..] + [c] + y;
      SplitAfterPiece(x[1..], y, c);
      assert [x[0]] + x[1..] == x;
    }
  }

  /** Joining the pieces of a split with the separator gives back the text. */
  lemma {:induction false} JoinSplit(s: string, c: char)
    ensures Join(Split(s, c), [c]) == s
  {
    if s != [] {
      var rest := Split(s[1..], c);
      JoinSplit(s[1..], c);
      if s[0] == c {
        assert Split(s, c) == [""] + rest;
        assert ([""] + rest)[1..] == rest;
        assert Join([""] + rest, [c]) == "" + [c] + Join(rest, [c]);
        assert [c] + s[1..] == s;
      } else {
        var pieces := [[s[0]] + rest[0]] + rest[1..];
        assert Split(s, c) == pieces;
        if |rest| == 1 {
          assert Join(pieces, [c]) == [s[0]] + rest[0];
        } else {
          assert pieces[1..] == rest[1..];
          assert Join(pieces, [c]) == [s[0]] + rest[0] + [c] + Join(rest[1..], [c]);
          assert Join(rest, [c]) == rest[0] + [c] + Join(rest[1..], [c]);
        }
        assert [s[0]] + s[1..] == s;
      }
    }
  }

  /** Splitting a join on the separator gives back the parts, provided no
      part contains the separator. */
  lemma {:induction false} SplitJoin(parts: seq<string>, c: char)
    requires |parts| >= 1
    requires forall k :: 0 <= k < |parts| ==> c !in parts[k]
    ensures Split(Join(parts, [c]), c) == parts
  {
    if |parts| == 1 {
      SplitNoSeparator(parts[0], c);
    } else {
      SplitJoin(parts[1..], c);
      assert Join(parts, [c]) == parts[0] + [c] + Join(parts[1..], [c]);
      SplitAfterPiece(parts[0], Join(parts[1..], [c]), c);
      assert [parts[0]] + parts[1..] == parts;
    }
  }

  // ---------------------------------------------------------------------
  // Number to decimal string, as `n + ""` does for integral numbers

  function DigitChar(d: nat): char
    requires d < 10
  {
    "0123456789"[d]
  }

  predicate IsDigit(c: char)
  {
    '0' <= c <= '9'
  }

  function DigitValue(c: char): nat
    requires IsDigit(c)
  {
    (c as int - '0' as int) as nat
  }

  predicate AllDigits(s: string)
  {
    forall k :: 0 <= k < |s| ==> IsDigit(s[k])
  }

  function NatToString(n: nat): (s: string)
    ensures |s| >= 1
  {
    if n < 10 then [DigitChar(n)] else NatToString(n / 10) + [DigitChar(n % 10)]
  }

  /** Printing a number gives decimal digits only. */
  lemma {:induction false} NatToStringDigits(n: nat)
    ensures AllDigits(NatToString(n))
  {
    if n >= 10 {
      NatToStringDigits(n / 10);
    }
  }

  function ParseNat(s: string): nat
    requires AllDigits(s)
  {
    if s == [] then 0 else 10 * ParseNat(s[..|s| - 1]) + DigitValue(s[|s| - 1])
  }

  lemma {:induction false} ParseNatToString(n: nat)
    ensures AllDigits(NatToString(n)) && ParseNat(NatToString(n)) == n
  {
    var s := NatToString(n);
    NatToStringDigits(n);
    if n >= 10 {
      ParseNatToString(n / 10);
      assert s[..|s| - 1] == NatToString(n / 10);
    }
  }

  function IntToString(i: int): (s: string)
    ensures |s| >= 1
  {
    if i < 0 then "-" + NatToString(-i) else NatToString(i)
  }

  /** A printed integer never holds the `:` separator. */
  lemma IntToStringNoColon(i: int)
    ensures ':' !in IntToString(i)
  {
    NatToStringDigits(if i < 0 then -i else i);
  }

  lemma NatToStringInjective(a: nat, b: nat)
    requires NatToString(a) == NatToString(b)
    ensures a == b
  {
    ParseNatToString(a);
    ParseNatToString(b);
  }

  lemma IntToStringSign(i: int)
    ensures (IntToString(i)[0] == '-') == (i < 0)
  {
    if i >= 0 {
      NatToStringDigits(i);
      assert IsDigit(NatToString(i)[0]);
    }
  }

  /** Distinct integers print differently. */
  lemma IntToStringInjective(a: int, b: int)
    requires IntToString(a) == IntToString(b)
    ensures a == b
  {
    var sa, sb := IntToString(a), IntToString(b);
    IntToStringSign(a);
    IntToStringSign(b);
    if a < 0 {
      assert NatToString(-a) == sa[1..];
      assert NatToString(-b) == sb[1..];
      NatToStringInjective(-a, -b);
    } else {
      NatToStringInjective(a, b);
    }
  }

  // ---------------------------------------------------------------------
  // ASCII lower-casing and `indexOf` on strings

  function LowerChar(c: char): char
  {
    if 'A' <= c <= 'Z' then (c as int + 32) as char else c
  }

  function ToLower(s: string): (r: string)
    ensures |r| == |s|
    ensures forall k :: 0 <= k < |s| ==> r[k] == LowerChar(s[k])
  {
    if s == [] then [] else [LowerChar(s[0])] + ToLower(s[1..])
  }

  ghost predicate OccursAt(hay: string, needle: string, k: int)
  {
    0 <= k && k + |needle| <= |hay| && hay[k..k + |needle|] == needle
  }

  /** `hay.indexOf(needle)`: the first position of needle, or -1. */
  function IndexOf(hay: string, needle: string): (k: int)
    ensures -1 <= k <= |hay|
    decreases |hay|
  {
    if |needle| <= |hay| && hay[..|needle|] == needle then 0
    else if |hay| <= |needle| then -1
    else
      var r := IndexOf(hay[1..], needle);
      if r < 0 then -1 else r + 1
  }

  lemma OccursShift(hay: string, needle: string, j: int)
    requires |hay| >= 1 && j >= 0
    ensures OccursAt(hay[1..], needle, j) <==> OccursAt(hay, needle, j + 1)
  {
    if 0 <= j && j + |needle| <= |hay| - 1 {
      assert hay[1..][j..j + |needle|] == hay[j + 1..j + 1 + |needle|];
    }
  }

  /** indexOf finds the first occurrence, and -1 means there is none. */
  lemma {:induction false} IndexOfSpec(hay: string, needle: string)
    ensures IndexOf(hay, needle) >= 0 ==> OccursAt(hay, needle, IndexOf(hay, needle))
    ensures forall j :: 0 <= j < IndexOf(hay, needle) ==> !OccursAt(hay, needle, j)
    ensures IndexOf(hay, needle) == -1 ==> forall j :: !OccursAt(hay, needle, j)
    decreases |hay|
  {
    var k := IndexOf(hay, needle);
    if |needle| <= |hay| && hay[..|needle|] == needle {
      assert OccursAt(hay, needle, 0);
    } else if |hay| <= |needle| {
      if |needle| == |hay| { assert hay[..|needle|] == hay[0..0 + |needle|]; }
    } else {
      IndexOfSpec(hay[1..], needle);
      var r := IndexOf(hay[1..], needle);
      assert hay[..|needle|] == hay[0..0 + |needle|];
      forall j | 0 <= j < k ensures !OccursAt(hay, needle, j) {
        if j > 0 { OccursShift(hay, needle, j - 1); }
      }
      if r >= 0 {
        OccursShift(hay, needle, r);
      } else {
        forall j | OccursAt(hay, needle, j) ensures false {
          if j > 0 { OccursShift(hay, needle, j - 1); }
        }
      }
    }
  }

  // ---------------------------------------------------------------------
  // JavaScript `<` on strings: lexicographic by code unit, a proper prefix first

  predicate LexLess(a: string, b: string)
  {
    if a == [] then b != []
    else if b == [] then false
    else if a[0] != b[0] then a[0] < b[0]
    else LexLess(a[1..], b[1..])
  }

  lemma {:induction false} LexLessIrreflexive(a: string)
    ensures !LexLess(a, a)
  {
    if a != [] { LexLessIrreflexive(a[1..]); }
  }

  lemma {:induction false} LexLessTotal(a: string, b: string)
    ensures a == b || LexLess(a, b) || LexLess(b, a)
  {
    if a != [] && b != [] && a[0] == b[0] {
      LexLessTotal(a[1..], b[1..]);
      if a[1..] == b[1..] {
        assert a == [a[0]] + a[1..] && b == [b[0]] + b[1..];
      }
    }
  }

  lemma {:induction false} LexLessTransitive(a: string, b: string, c: string)
    requires LexLess(a, b) && LexLess(b, c)
    ensures LexLess(a, c)
  {
    if a != [] && b != [] && c != [] && a[0] == b[0] && b[0] == c[0] {
      LexLessTransitive(a[1..], b[1..], c[1..]);
    }
  }

  // ---------------------------------------------------------------------
  // Float64 values as the dashboard meets them: a finite number or NaN
  // (undefined becomes NaN and null becomes 0 when stored in a Float64Array)

  datatype Num = Fin(r: real) | NaN

  function Plus(a: Num, b: Num): Num
  {
    if a.Fin? && b.Fin? then Fin(a.r + b.r) else NaN
  }

  function Mul(a: Num, b: Num): Num
  {
    if a.Fin? && b.Fin? then Fin(a.r * b.r) else NaN
  }

  // ---------------------------------------------------------------------
  // Text to number, as ToNumber converts a string (ECMA-262, StringToNumber)

  /** The characters ECMAScript trims: WhiteSpace and LineTerminator. */
  predicate IsWhite(c: char)
  {
    || c == '\t' || c == '\n' || c == '\U{000B}' || c == '\U{000C}' || c == '\r'
    || c == ' ' || c == '\U{00A0}' || c == '\U{1680}' || '\U{2000}' <= c <= '\U{200A}'
    || c == '\U{2028}' || c == '\U{2029}' || c == '\U{202F}' || c == '\U{205F}'
    || c == '\U{3000}' || c == '\U{FEFF}'
  }

  predicate AllWhite(s: string)
  {
    forall k :: 0 <= k < |s| ==> IsWhite(s[k])
  }

  /** The text without its leading white space. */
  function TrimStart(s: string): (r: string)
    ensures |r| <= |s|
  {
    if s != [] && IsWhite(s[0]) then TrimStart(s[1..]) else s
  }

  /** TrimStart drops a white prefix and stops at the first other character. */
  lemma {:induction false} TrimStartSpec(s: string)
    ensures var r := TrimStart(s);
      && r == s[|s| - |r|..] && AllWhite(s[..|s| - |r|])
      && (r != [] ==> !IsWhite(r[0]))
  {
    var r := TrimStart(s);
    if s != [] && IsWhite(s[0]) {
      var p := s[1..];
      TrimStartSpec(p);
      assert r == TrimStart(p) && r == p[|p| - |r|..];
      assert p[|p| - |r|..] == s[|s| - |r|..];
      assert s[..|s| - |r|] == [s[0]] + p[..|p| - |r|];
    } else {
      assert s[..|s| - |r|] == [];
    }
  }

  /** The text without its trailing white space. */
  function TrimEnd(s: string): (r: string)
    ensures |r| <= |s|
  {
    if s != [] && IsWhite(s[|s| - 1]) then TrimEnd(s[..|s| - 1]) else s
  }

  /** TrimEnd drops a white suffix and stops at the last other character. */
  lemma {:induction false} TrimEndSpec(s: string)
    ensures var r := TrimEnd(s);
      && r == s[..|r|] && AllWhite(s[|r|..])
      && (r != [] ==> !IsWhite(r[|r| - 1]))
  {
    var r := TrimEnd(s);
    if s != [] && IsWhite(s[|s| - 1]) {
      var p := s[..|s| - 1];
      TrimEndSpec(p);
      assert r == TrimEnd(p) && r == p[..|r|];
      assert p[..|r|] == s[..|r|];
      assert s[|r|..] == p[|r|..] + [s[|s| - 1]];
    } else {
      assert s[|r|..] == [];
    }
  }

  function Trim(s: string): string
  {
    TrimEnd(TrimStart(s))
  }

  function Pow10(n: nat): (p: nat)
    ensures p >= 1
  {
    if n == 0 then 1 else 10 * Pow10(n - 1)
  }

  /** An unsigned decimal literal: digits, optionally a point and more
      digits, at least one digit in all; anything else is NaN. */
  function UnsignedDecimal(s: string): Num
  {
    var parts := Split(s, '.');
    if |parts| == 1 && parts[0] != [] && AllDigits(parts[0]) then Fin(ParseNat(parts[0]) as real)
    else if |parts| == 2 && |parts[0]| + |parts[1]| >= 1 && AllDigits(parts[0]) && AllDigits(parts[1]) then
      Fin(ParseNat(parts[0]) as real + Fraction(parts[1]))
    else NaN
  }

  /** n digits denote less than 10^n. */
  lemma {:induction false} FractionDigitsBelow(s: string)
    requires AllDigits(s)
    ensures ParseNat(s) < Pow10(|s|)
  {
    if s != [] {
      FractionDigitsBelow(s[..|s| - 1]);
    }
  }

  lemma QuotientBelowOne(n: real, p: real)
    requires 0.0 <= n < p
    ensures 0.0 <= n / p < 1.0
  {
    assert n / p * p == n;
  }

  /** The digits after a decimal point as the fraction they denote. */
  function Fraction(frac: string): (r: real)
    requires AllDigits(frac)
    ensures 0.0 <= r < 1.0
  {
    FractionDigitsBelow(frac);
    QuotientBelowOne(ParseNat(frac) as real, Pow10(|frac|) as real);
    ParseNat(frac) as real / Pow10(|frac|) as real
  }

  function Negate(a: Num): Num
  {
    if a.Fin? then Fin(-a.r) else NaN
  }

  /** A string stored in a Float64Array: trimmed, blank text is 0, an
      optional sign and an unsigned decimal is that number, anything else
      NaN. */
  function StringToNumber(s: string): Num
  {
    var t := Trim(s);
    if t == [] then Fin(0.0)
    else if t[0] == '-' then Negate(UnsignedDecimal(t[1..]))
    else if t[0] == '+' then UnsignedDecimal(t[1..])
    else UnsignedDecimal(t)
  }

  /** Trimming leaves nothing exactly when the text is all white space. */
  lemma {:induction false} TrimBlank(s: string)
    ensures Trim(s) == [] <==> AllWhite(s)
  {
    var u := TrimStart(s);
    TrimStartSpec(s);
    TrimEndSpec(u);
    assert s == s[..|s| - |u|] + u;
    if u != [] {
      assert !IsWhite(s[|s| - |u|]);
    } else {
      assert s[..|s| - |u|] == s;
    }
  }

  /** Blank text, the empty string included, converts to 0. */
  lemma BlankIsZero(s: string)
    requires AllWhite(s)
    ensures StringToNumber(s) == Fin(0.0)
  {
    TrimBlank(s);
  }

  /** Leading white space is dropped whatever follows it. */
  lemma {:induction false} TrimStartWhite(w: string, s: string)
    requires AllWhite(w)
    ensures TrimStart(w + s) == TrimStart(s)
  {
    if w != [] {
      assert IsWhite(w[0]) && (w + s)[0] == w[0];
      assert (w + s)[1..] == w[1..] + s;
      assert AllWhite(w[1..]);
      TrimStartWhite(w[1..], s);
    } else {
      assert w + s == s;
    }
  }

  /** Trailing white space is dropped whatever precedes it. */
  lemma {:induction false} TrimEndWhite(s: string, w: string)
    requires AllWhite(w)
    ensures TrimEnd(s + w) == TrimEnd(s)
  {
    if w != [] {
      var n := |w| - 1;
      assert (s + w)[|s + w| - 1] == w[n];
      assert (s + w)[..|s + w| - 1] == s + w[..n];
      TrimEndWhite(s, w[..n]);
    } else {
      assert s + w == s;
    }
  }

  /** Once non-white text is met, what follows is kept as it is. */
  lemma {:induction false} TrimStartAppend(s: string, x: string)
    requires TrimStart(s) != []
    ensures TrimStart(s + x) == TrimStart(s) + x
  {
    assert (s + x)[0] == s[0];
    if IsWhite(s[0]) {
      assert (s + x)[1..] == s[1..] + x;
      TrimStartAppend(s[1..], x);
    }
  }

  /** Trimming ignores white space added around a text. */
  lemma TrimPadded(w1: string, s: string, w2: string)
    requires AllWhite(w1) && AllWhite(w2)
    ensures Trim(w1 + s + w2) == Trim(s)
  {
    assert w1 + s + w2 == w1 + (s + w2);
    TrimStartWhite(w1, s + w2);
    var u := TrimStart(s);
    TrimStartSpec(s);
    if u != [] {
      TrimStartAppend(s, w2);
      TrimEndWhite(u, w2);
    } else {
      assert s[..|s|] == s;
      assert AllWhite(s + w2);
      TrimStartWhite(s + w2, []);
      assert s + w2 + [] == s + w2;
    }
  }

  /** White space around a text does not change the number it converts to. */
  lemma StringToNumberPadded(w1: string, s: string, w2: string)
    requires AllWhite(w1) && AllWhite(w2)
    ensures StringToNumber(w1 + s + w2) == StringToNumber(s)
  {
    TrimPadded(w1, s, w2);
  }

  /** Text that starts and ends with a digit is its own trimmed form. */
  lemma TrimDigits(s: string)
    requires s != [] && AllDigits(s)
    ensures Trim(s) == s
  {
    assert IsDigit(s[0]) && IsDigit(s[|s| - 1]);
  }

  /** Decimal digits read back as the number they print. */
  lemma UnsignedDecimalNat(n: nat)
    ensures UnsignedDecimal(NatToString(n)) == Fin(n as real)
  {
    var d := NatToString(n);
    ParseNatToString(n);
    assert '.' !in d;
    SplitNoSeparator(d, '.');
  }

  /** Digits, a point and digits read as whole part plus fraction. */
  lemma UnsignedDecimalPoint(whole: string, frac: string)
    requires AllDigits(whole) && AllDigits(frac) && |whole| + |frac| >= 1
    ensures UnsignedDecimal(whole + "." + frac)
      == Fin(ParseNat(whole) as real + ParseNat(frac) as real / Pow10(|frac|) as real)
  {
    assert '.' !in whole;
    assert '.' !in frac;
    SplitAfterPiece(whole, frac, '.');
    SplitNoSeparator(frac, '.');
    var parts := Split(whole + "." + frac, '.');
    assert parts == [whole, frac];
    assert |parts| == 2 && parts[0] == whole && parts[1] == frac;
  }

  /** Text with two points, or with any character other than digits and
      one point, is not a number. */
  lemma UnsignedDecimalRejects(s: string)
    requires exists k :: 0 <= k < |s| && !IsDigit(s[k]) && s[k] != '.'
    ensures UnsignedDecimal(s) == NaN
  {
    var parts := Split(s, '.');
    var k :| 0 <= k < |s| && !IsDigit(s[k]) && s[k] != '.';
    JoinSplit(s, '.');
    if |parts| == 1 {
      assert s == parts[0];
      assert !AllDigits(parts[0]);
    } else if |parts| == 2 {
      assert parts[1..] == [parts[1]];
      assert s == parts[0] + "." + parts[1];
      if k < |parts[0]| {
        assert parts[0][k] == s[k];
        assert !AllDigits(parts[0]);
      } else {
        assert k > |parts[0]|;
        assert parts[1][k - |parts[0]| - 1] == s[k];
        assert !AllDigits(parts[1]);
      }
    }
  }

  /** A minus sign followed by digits is its own trimmed form. */
  lemma TrimNegative(d: string)
    requires d != [] && AllDigits(d)
    ensures Trim("-" + d) == "-" + d
  {
    var s := "-" + d;
    assert IsDigit(d[|d| - 1]) && s[|s| - 1] == d[|d| - 1];
    assert TrimStart(s) == s;
  }

  /** Text made of digits converts as an unsigned decimal. */
  lemma StringToNumberDigits(d: string)
    requires d != [] && AllDigits(d)
    ensures StringToNumber(d) == UnsignedDecimal(d)
  {
    TrimDigits(d);
    assert IsDigit(d[0]);
  }

  /** A minus sign and digits convert to the negated unsigned decimal. */
  lemma StringToNumberMinus(d: string)
    requires d != [] && AllDigits(d)
    ensures StringToNumber("-" + d) == Negate(UnsignedDecimal(d))
  {
    var t := "-" + d;
    TrimNegative(d);
    assert Trim(t) == t && t != [] && t[0] == '-' && t[1..] == d;
    assert StringToNumber(t) == Negate(UnsignedDecimal(Trim(t)[1..]));
  }

  /** A printed integer converts back to that integer. */
  lemma StringToNumberInt(i: int)
    ensures StringToNumber(IntToString(i)) == Fin(i as real)
  {
    var n: nat := if i < 0 then -i else i;
    NatToStringDigits(n);
    UnsignedDecimalNat(n);
    if i < 0 {
      StringToNumberMinus(NatToString(n));
    } else {
      StringToNumberDigits(NatToString(n));
    }
  }
}
