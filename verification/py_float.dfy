/**
 * Python's `float(text)` on a string, as `detect_gaps` applies it to a
 * ticket's tier (backend/app/services.py:166-167): surrounding whitespace,
 * an optional sign, then either a decimal with an optional exponent, whose
 * digit runs may hold single underscores between digits, or `inf`,
 * `infinity` or `nan` in any letter case. Finite values are exact reals:
 * binary rounding is not modelled.
 */
module PyFloat {
  import opened Wrappers
  import opened Text

  /** A Python float: a finite value, an infinity, or NaN. */
  datatype FloatValue = Finite(value: real) | Infinite(negative: bool) | NotANumber

  /** Python's `x < bound` for a float `x`: false for NaN, the sign for an infinity. */
  predicate Below(x: FloatValue, bound: real) {
    match x
    case Finite(v) => v < bound
    case Infinite(negative) => negative
    case NotANumber => false
  }

  /** Unary minus on a float. */
  function Negate(x: FloatValue): FloatValue {
    match x
    case Finite(v) => Finite(-v)
    case Infinite(negative) => Infinite(!negative)
    case NotANumber => NotANumber
  }

  function Pow10(n: nat): (p: nat)
    ensures p >= 1
  {
    if n == 0 then 1 else 10 * Pow10(n - 1)
  }

  /** `x * 10**e` on exact reals. */
  function Scale(x: real, e: int): real {
    if e >= 0 then x * Pow10(e) as real else x / Pow10(-e) as real
  }

  /** Position of the first character of `s` that is in `marks`, if any. */
  function FindAny(s: string, marks: set<char>): (r: Option<nat>)
    ensures r.None? <==> forall i :: 0 <= i < |s| ==> s[i] !in marks
    ensures r.Some? ==> r.value < |s| && s[r.value] in marks && forall i :: 0 <= i < r.value ==> s[i] !in marks
  {
    if s == [] then None
    else if s[0] in marks then Some(0)
    else
      var rest := FindAny(s[1..], marks);
      if rest.None? then None else Some(rest.value + 1)
  }

  /** Position `i` of `s` holds an underscore between two digits. */
  predicate Separator(s: string, i: nat)
    requires i < |s|
  {
    s[i] == '_' && 0 < i < |s| - 1 && IsDigit(s[i - 1]) && IsDigit(s[i + 1])
  }

  /** `digitpart ::= digit (["_"] digit)*`. */
  predicate DigitPart(s: string) {
    s != [] && forall i :: 0 <= i < |s| ==> IsDigit(s[i]) || Separator(s, i)
  }

  /** The number the digits of `s` denote, underscores skipped. */
  function PartValue(s: string): nat {
    if s == [] then 0
    else
      var c := s[|s| - 1];
      if IsDigit(c) then PartValue(s[..|s| - 1]) * 10 + ((c as int) - ('0' as int))
      else PartValue(s[..|s| - 1])
  }

  /** How many digits `s` holds. */
  function PartDigits(s: string): nat {
    if s == [] then 0
    else PartDigits(s[..|s| - 1]) + (if IsDigit(s[|s| - 1]) then 1 else 0)
  }

  /** `whole.fraction` where the fraction has `places` digits: `whole + fraction / 10**places`. */
  function FixedPoint(whole: nat, fraction: nat, places: nat): (r: real)
    ensures r >= whole as real
  {
    whole as real + fraction as real / Pow10(places) as real
  }

  /** `number ::= [digitpart] "." digitpart | digitpart ["."]`. */
  function ParseMantissa(m: string): (r: Option<real>)
    ensures r.Some? ==> r.value >= 0.0
  {
    match FindAny(m, {'.'})
    case None => if DigitPart(m) then Some(PartValue(m) as real) else None
    case Some(k) =>
      var whole, fraction := m[..k], m[k + 1..];
      if (whole == [] || DigitPart(whole)) && (fraction == [] || DigitPart(fraction)) && whole + fraction != []
      then Some(FixedPoint(PartValue(whole), PartValue(fraction), PartDigits(fraction)))
      else None
  }

  /** `exponent` after its `e`: `[sign] digitpart`. */
  function ParseExponent(e: string): Option<int> {
    if e != [] && (e[0] == '+' || e[0] == '-') then
      if DigitPart(e[1..]) then Some(if e[0] == '-' then -(PartValue(e[1..]) as int) else PartValue(e[1..])) else None
    else if DigitPart(e) then Some(PartValue(e)) else None
  }

  /** `number [exponent]`. */
  function ParseNumber(u: string): Option<FloatValue> {
    match FindAny(u, {'e', 'E'})
    case None =>
      var m := ParseMantissa(u);
      if m.Some? then Some(Finite(m.value)) else None
    case Some(k) =>
      var m, e := ParseMantissa(u[..k]), ParseExponent(u[k + 1..]);
      if m.Some? && e.Some? then Some(Finite(Scale(m.value, e.value))) else None
  }

  /** `u.lower() == w`: `u` spells the word `w` in any letter case. */
  predicate Spells(u: string, w: string) {
    |u| == |w| && forall i :: 0 <= i < |u| ==> LowerChar(u[i]) == w[i]
  }

  /** `Spells` is comparing the lowered text. */
  lemma SpellsLower(u: string, w: string)
    ensures Spells(u, w) <==> Lower(u) == w
  {
    if Lower(u) == w {
      assert forall i :: 0 <= i < |u| ==> LowerChar(u[i]) == Lower(u)[i];
    }
  }

  /** `absfloatvalue ::= number [exponent] | infinity | nan`, the words in any case. */
  function ParseUnsigned(u: string): Option<FloatValue> {
    if Spells(u, "inf") || Spells(u, "infinity") then Some(Infinite(false))
    else if Spells(u, "nan") then Some(NotANumber)
    else ParseNumber(u)
  }

  /** `[sign] absfloatvalue`. */
  function ParseSigned(t: string): Option<FloatValue> {
    if t != [] && (t[0] == '-' || t[0] == '+') then
      match ParseUnsigned(t[1..])
      case None => None
      case Some(x) => Some(if t[0] == '-' then Negate(x) else x)
    else ParseUnsigned(t)
  }

  /** `float(text)`; `None` is the `ValueError` it raises. */
  function ParseFloat(text: string): (r: Option<FloatValue>)
    ensures Strip(text) == [] ==> r.None?
  {
    ParseSigned(Strip(text))
  }

  /** A run of plain digits is a digit part with its ordinary value and length. */
  lemma {:induction false} PlainDigits(s: string)
    requires AllDigits(s)
    ensures PartValue(s) == DigitsValue(s) && PartDigits(s) == |s|
  {
    if s != [] {
      PlainDigits(s[..|s| - 1]);
    }
  }

  /** A string that starts and ends with a non-space strips to itself. */
  lemma StripKeeps(t: string)
    requires t != [] && !IsSpace(t[0]) && !IsSpace(t[|t| - 1])
    ensures Strip(t) == t
  {
    assert TrimStart(t) == t;
  }

  /** A string led by a digit is none of the words `inf`, `infinity`, `nan`. */
  lemma NotAWord(u: string)
    requires u != [] && IsDigit(u[0])
    ensures !Spells(u, "inf") && !Spells(u, "infinity") && !Spells(u, "nan")
  {
    assert LowerChar(u[0]) == u[0];
    assert "inf"[0] == 'i' && "infinity"[0] == 'i' && "nan"[0] == 'n';
  }

  /** No position of `s` holds a mark. */
  lemma NotFound(s: string, marks: set<char>)
    requires forall i :: 0 <= i < |s| ==> s[i] !in marks
    ensures FindAny(s, marks).None?
  {
  }

  /** Digits and underscores hold no point and no exponent mark. */
  lemma NoMarks(s: string)
    requires forall i :: 0 <= i < |s| ==> IsDigit(s[i]) || s[i] == '_'
    ensures FindAny(s, {'.'}).None? && FindAny(s, {'e', 'E'}).None?
  {
    assert forall i :: 0 <= i < |s| ==> s[i] !in {'.'} && s[i] !in {'e', 'E'};
  }

  /** The first mark of `a + rest` is the head of `rest` when `a` holds none. */
  lemma {:induction false} FindAnyAfter(a: string, rest: string, marks: set<char>)
    requires forall i :: 0 <= i < |a| ==> a[i] !in marks
    requires rest != [] && rest[0] in marks
    ensures FindAny(a + rest, marks) == Some(|a|)
  {
    if a != [] {
      assert (a + rest)[1..] == a[1..] + rest;
      FindAnyAfter(a[1..], rest, marks);
    }
  }

  /** A digit part with no point is a mantissa of its value. */
  lemma MantissaPart(m: string)
    requires DigitPart(m)
    ensures ParseMantissa(m) == Some(PartValue(m) as real)
  {
    NoMarks(m);
  }

  /** A digit part is a number of its value. */
  lemma NumberPart(u: string)
    requires DigitPart(u)
    ensures ParseNumber(u) == Some(Finite(PartValue(u) as real))
  {
    NoMarks(u);
    MantissaPart(u);
  }

  /** A run of plain digits is a mantissa of its ordinary value. */
  lemma MantissaPlain(u: string)
    requires u != [] && AllDigits(u)
    ensures ParseMantissa(u) == Some(DigitsValue(u) as real)
  {
    NoMarks(u);
    PlainDigits(u);
    assert DigitPart(u);
  }

  /** A run of plain digits is an exponent of its ordinary value. */
  lemma ExponentPlain(e: string)
    requires e != [] && AllDigits(e)
    ensures ParseExponent(e) == Some(DigitsValue(e) as int)
  {
    PlainDigits(e);
    assert DigitPart(e);
    assert IsDigit(e[0]);
  }

  /** Text that starts and ends with a digit is read as a number. */
  lemma DigitBounded(t: string)
    requires t != [] && IsDigit(t[0]) && IsDigit(t[|t| - 1])
    ensures ParseFloat(t) == ParseNumber(t)
  {
    StripKeeps(t);
    NotAWord(t);
  }

  /** `float(str(n))` is `n`. */
  lemma ParseFloatNat(n: nat)
    ensures ParseFloat(NatText(n)) == Some(Finite(n as real))
  {
    var t := NatText(n);
    DigitBounded(t);
    NoMarks(t);
    MantissaPlain(t);
    NatTextRoundTrip(n);
  }

  /** `n * 10**k` read as a real. */
  lemma ScaleNat(n: nat, k: nat)
    ensures Scale(n as real, k) == (n * Pow10(k)) as real
  {
  }

  /** `f"{n}e{k}"` read as a number is `n * 10**k`. */
  lemma NumberScientific(a: string, b: string)
    requires a != [] && AllDigits(a) && b != [] && AllDigits(b)
    ensures ParseNumber(a + "e" + b) == Some(Finite(Scale(DigitsValue(a) as real, DigitsValue(b))))
  {
    var t := a + "e" + b;
    NoMarks(a);
    assert t == a + ("e" + b);
    FindAnyAfter(a, "e" + b, {'e', 'E'});
    assert t[..|a|] == a && t[|a| + 1..] == b;
    MantissaPlain(a);
    ExponentPlain(b);
  }

  /** `float(f"{n}e{k}")` is `n * 10**k`: the exponent form the tier may take. */
  lemma ParseFloatScientific(n: nat, k: nat)
    ensures ParseFloat(NatText(n) + "e" + NatText(k)) == Some(Finite((n * Pow10(k)) as real))
  {
    var a, b := NatText(n), NatText(k);
    var t := a + "e" + b;
    assert t[0] == a[0] && t[|t| - 1] == b[|b| - 1];
    DigitBounded(t);
    NumberScientific(a, b);
    NatTextRoundTrip(n);
    NatTextRoundTrip(k);
    ScaleNat(n, k);
  }

  /** Appending plain digits shifts the value left and adds theirs. */
  lemma {:induction false} PartAppend(s: string, b: string)
    requires AllDigits(b)
    ensures PartValue(s + b) == PartValue(s) * Pow10(|b|) + DigitsValue(b)
  {
    if b == [] {
      assert s + b == s;
    } else {
      var front := b[..|b| - 1];
      var d := (b[|b| - 1] as int) - ('0' as int);
      assert (s + b)[..|s + b| - 1] == s + front;
      assert (s + b)[|s + b| - 1] == b[|b| - 1];
      PartAppend(s, front);
      assert PartValue(s + b) == PartValue(s + front) * 10 + d;
      assert DigitsValue(b) == DigitsValue(front) * 10 + d;
      assert Pow10(|b|) == Pow10(|front|) * 10;
      ShiftStep(PartValue(s), Pow10(|front|), DigitsValue(front), d);
    }
  }

  /** `(v * p + w) * 10 + d == v * (p * 10) + (w * 10 + d)`. */
  lemma ShiftStep(v: int, p: int, w: int, d: int)
    ensures (v * p + w) * 10 + d == v * (p * 10) + (w * 10 + d)
  {
  }

  /** Appending plain digits adds their count. */
  lemma {:induction false} PartDigitsAppend(s: string, b: string)
    requires AllDigits(b)
    ensures PartDigits(s + b) == PartDigits(s) + |b|
  {
    if b != [] {
      assert (s + b)[..|s + b| - 1] == s + b[..|b| - 1];
      assert (s + b)[|s + b| - 1] == b[|b| - 1];
      PartDigitsAppend(s, b[..|b| - 1]);
    } else {
      assert s + b == s;
    }
  }

  /** A trailing underscore adds nothing to the value or the digit count. */
  lemma PartUnderscore(s: string)
    ensures PartValue(s + "_") == PartValue(s) && PartDigits(s + "_") == PartDigits(s)
  {
    assert (s + "_")[..|s|] == s;
  }

  /** Two digit runs joined by an underscore form a digit part of their digits' value. */
  lemma UnderscorePart(a: string, b: string)
    requires a != [] && AllDigits(a) && b != [] && AllDigits(b)
    ensures DigitPart(a + "_" + b)
    ensures PartValue(a + "_" + b) == DigitsValue(a) * Pow10(|b|) + DigitsValue(b)
  {
    var t := a + "_" + b;
    assert t[|a| - 1] == a[|a| - 1] && t[|a| + 1] == b[0];
    assert Separator(t, |a|);
    forall i | 0 <= i < |t| ensures IsDigit(t[i]) || Separator(t, i) {
      if i < |a| { assert t[i] == a[i]; } else if i > |a| { assert t[i] == b[i - |a| - 1]; }
    }
    assert t == (a + "_") + b;
    PartAppend(a + "_", b);
    PartUnderscore(a);
    PlainDigits(a);
  }

  /** `float(f"{a}_{b}")` for digit runs `a`, `b` is the digits of both, read as one number. */
  lemma ParseFloatUnderscore(a: string, b: string)
    requires a != [] && AllDigits(a) && b != [] && AllDigits(b)
    ensures ParseFloat(a + "_" + b) == Some(Finite((DigitsValue(a) * Pow10(|b|) + DigitsValue(b)) as real))
  {
    var t := a + "_" + b;
    assert t[0] == a[0] && t[|t| - 1] == b[|b| - 1];
    DigitBounded(t);
    UnderscorePart(a, b);
    NumberPart(t);
    var x := ParseFloat(t);
    assert x == Some(Finite(PartValue(t) as real));
    assert PartValue(t) == DigitsValue(a) * Pow10(|b|) + DigitsValue(b);
  }

  /** Two digit runs joined by a point are a mantissa. */
  lemma FractionMantissa(a: string, b: string)
    requires a != [] && AllDigits(a) && b != [] && AllDigits(b)
    ensures ParseMantissa(a + "." + b) == Some(FixedPoint(DigitsValue(a), DigitsValue(b), |b|))
  {
    var t := a + "." + b;
    NoMarks(a);
    assert t == a + ("." + b);
    FindAnyAfter(a, "." + b, {'.'});
    assert t[..|a|] == a && t[|a| + 1..] == b;
    assert DigitPart(a) && DigitPart(b);
    PlainDigits(a);
    PlainDigits(b);
    var x := ParseMantissa(t);
    assert x == Some(FixedPoint(PartValue(a), PartValue(b), PartDigits(b)));
  }

  /** Two digit runs joined by a point are a number. */
  lemma FractionNumber(a: string, b: string)
    requires a != [] && AllDigits(a) && b != [] && AllDigits(b)
    ensures ParseNumber(a + "." + b) == Some(Finite(FixedPoint(DigitsValue(a), DigitsValue(b), |b|)))
  {
    var t := a + "." + b;
    forall i | 0 <= i < |t| ensures t[i] !in {'e', 'E'} {
      if i < |a| { assert t[i] == a[i]; } else if i > |a| { assert t[i] == b[i - |a| - 1]; }
    }
    NotFound(t, {'e', 'E'});
    FractionMantissa(a, b);
  }

  /** `float(f"{a}.{b}")` for digit runs `a`, `b` is `a` plus `b` over ten to its length. */
  lemma ParseFloatFraction(a: string, b: string)
    requires a != [] && AllDigits(a) && b != [] && AllDigits(b)
    ensures ParseFloat(a + "." + b) == Some(Finite(FixedPoint(DigitsValue(a), DigitsValue(b), |b|)))
  {
    var t := a + "." + b;
    assert t[0] == a[0] && t[|t| - 1] == b[|b| - 1];
    DigitBounded(t);
    FractionNumber(a, b);
    var x := ParseFloat(t);
    assert x == ParseNumber(t);
  }

  /** Text with no sign in front, once stripped, is read unsigned. */
  lemma Unsigned(t: string)
    requires Strip(t) == [] || (Strip(t)[0] != '-' && Strip(t)[0] != '+')
    ensures ParseFloat(t) == ParseUnsigned(Strip(t))
  {
    NoSign(Strip(t));
  }

  /** Without a sign in front, the signed reading is the unsigned one. */
  lemma NoSign(u: string)
    requires u == [] || (u[0] != '-' && u[0] != '+')
    ensures ParseSigned(u) == ParseUnsigned(u)
  {
  }

  /** With a sign in front, the value is the rest's, negated for `-`. */
  lemma WithSign(u: string)
    requires u != [] && (u[0] == '-' || u[0] == '+')
    ensures ParseSigned(u).Some? <==> ParseUnsigned(u[1..]).Some?
    ensures ParseSigned(u).Some? ==> (ParseSigned(u).value.Finite? <==> ParseUnsigned(u[1..]).value.Finite?)
  {
  }

  /** Text that lowers to a word starting with a letter has no sign in front. */
  lemma WordLead(u: string, w: string)
    requires Spells(u, w) && w != [] && 'a' <= w[0] <= 'z'
    ensures u != [] && u[0] != '-' && u[0] != '+'
  {
    assert LowerChar(u[0]) == w[0];
  }

  /** `inf`, `infinity` and `nan`, in any letter case and with surrounding whitespace. */
  lemma ParseFloatWord(t: string)
    ensures Spells(Strip(t), "inf") || Spells(Strip(t), "infinity") ==> ParseFloat(t) == Some(Infinite(false))
    ensures Spells(Strip(t), "nan") ==> ParseFloat(t) == Some(NotANumber)
  {
    var u := Strip(t);
    assert "inf"[0] == 'i' && "infinity"[0] == 'i' && "nan"[0] == 'n';
    if Spells(u, "inf") {
      WordLead(u, "inf");
      Unsigned(t);
    } else if Spells(u, "infinity") {
      WordLead(u, "infinity");
      Unsigned(t);
    } else if Spells(u, "nan") {
      WordLead(u, "nan");
      Unsigned(t);
    }
  }

  /** `-inf` and `-infinity`, in any letter case, are negative infinity. */
  lemma ParseFloatNegativeInfinity(t: string)
    ensures Strip(t) != [] && Strip(t)[0] == '-' && (Spells(Strip(t)[1..], "inf") || Spells(Strip(t)[1..], "infinity"))
            ==> ParseFloat(t) == Some(Infinite(true))
  {
  }

  /** The characters a decimal literal may hold. */
  predicate NumeralChar(c: char) {
    IsDigit(c) || c == '_' || c == '.' || c == 'e' || c == 'E' || c == '+' || c == '-'
  }

  /** Every character of `s` is a numeral character. */
  predicate Numeral(s: string) {
    forall i :: 0 <= i < |s| ==> NumeralChar(s[i])
  }

  /** A mantissa that parses holds only digits, underscores and a point. */
  lemma MantissaAlphabet(m: string)
    ensures ParseMantissa(m).Some? ==> forall i :: 0 <= i < |m| ==> IsDigit(m[i]) || m[i] == '_' || m[i] == '.'
  {
    if ParseMantissa(m).Some? {
      match FindAny(m, {'.'})
      case None =>
      case Some(k) =>
        forall i | 0 <= i < |m| ensures IsDigit(m[i]) || m[i] == '_' || m[i] == '.' {
          if i < k { assert m[i] == m[..k][i]; }
          else if i > k { assert m[i] == m[k + 1..][i - k - 1]; }
        }
    }
  }

  /** An exponent that parses holds only a sign, digits and underscores. */
  lemma ExponentAlphabet(e: string)
    ensures ParseExponent(e).Some? ==> forall i :: 0 <= i < |e| ==> IsDigit(e[i]) || e[i] == '_' || e[i] == '+' || e[i] == '-'
  {
    if ParseExponent(e).Some? && e != [] && (e[0] == '+' || e[0] == '-') {
      forall i | 1 <= i < |e| ensures IsDigit(e[i]) || e[i] == '_' {
        assert e[i] == e[1..][i - 1];
      }
    }
  }

  /** A number that parses holds only numeral characters. */
  lemma NumberAlphabet(u: string)
    ensures ParseNumber(u).Some? ==> Numeral(u)
  {
    if ParseNumber(u).Some? {
      match FindAny(u, {'e', 'E'})
      case None =>
        MantissaAlphabet(u);
      case Some(k) =>
        MantissaAlphabet(u[..k]);
        ExponentAlphabet(u[k + 1..]);
        forall i | 0 <= i < |u| ensures NumeralChar(u[i]) {
          if i < k { assert u[i] == u[..k][i]; }
          else if i > k { assert u[i] == u[k + 1..][i - k - 1]; }
        }
    }
  }

  /** A finite unsigned value is a number: the words give none. */
  lemma UnsignedFinite(u: string)
    ensures ParseUnsigned(u).Some? && ParseUnsigned(u).value.Finite? ==> ParseNumber(u) == ParseUnsigned(u)
  {
  }

  /** Signed text is finite exactly when its unsigned rest is. */
  lemma Signed(t: string)
    requires Strip(t) != [] && (Strip(t)[0] == '-' || Strip(t)[0] == '+')
    ensures ParseFloat(t).Some? <==> ParseUnsigned(Strip(t)[1..]).Some?
    ensures ParseFloat(t).Some? ==> (ParseFloat(t).value.Finite? <==> ParseUnsigned(Strip(t)[1..]).value.Finite?)
  {
    WithSign(Strip(t));
  }

  /** A signed finite value has only numeral characters. */
  lemma SignedAlphabet(t: string)
    requires Strip(t) != [] && (Strip(t)[0] == '-' || Strip(t)[0] == '+')
    requires ParseFloat(t).Some? && ParseFloat(t).value.Finite?
    ensures Numeral(Strip(t))
  {
    var u := Strip(t);
    Signed(t);
    UnsignedFinite(u[1..]);
    NumberAlphabet(u[1..]);
    forall i | 0 <= i < |u| ensures NumeralChar(u[i]) {
      if i > 0 { assert u[i] == u[1..][i - 1]; }
    }
  }

  /**
   * A finite value comes only from text that, once stripped, holds nothing
   * but numeral characters: a tier such as `three` or `3 stars` is refused.
   */
  lemma FiniteAlphabet(t: string)
    ensures ParseFloat(t).Some? && ParseFloat(t).value.Finite? ==> Numeral(Strip(t))
  {
    var u := Strip(t);
    if ParseFloat(t).Some? && ParseFloat(t).value.Finite? {
      if u != [] && (u[0] == '-' || u[0] == '+') {
        SignedAlphabet(t);
      } else {
        Unsigned(t);
        UnsignedFinite(u);
        NumberAlphabet(u);
      }
    }
  }
}
