/** The decimal subset of Python's `float(text)` that robot scripts use for
    coordinates: surrounding whitespace, an optional sign, digits with an optional
    decimal point. Values are exact `real`s; IEEE-754 rounding is not modelled. */
module Decimal {
  import opened Wrappers
  import Text

  datatype Sign = Unsigned | Plus | Minus

  /** The parts of a decimal literal: sign, digits before the point, whether a
      point is written, digits after it. `"-1."` is `Literal(Minus, "1", true, "")`. */
  datatype Literal = Literal(sign: Sign, whole: string, point: bool, fraction: string)

  predicate IsDigit(c: char) {
    '0' <= c <= '9'
  }

  predicate AllDigits(s: string) {
    forall i | 0 <= i < |s| :: IsDigit(s[i])
  }

  /** A literal `float()` accepts: at least one digit on either side of the point,
      and no fraction digits without a point. */
  predicate WellFormed(d: Literal) {
    && AllDigits(d.whole)
    && AllDigits(d.fraction)
    && |d.whole| + |d.fraction| >= 1
    && (!d.point ==> d.fraction == [])
  }

  function SignText(s: Sign): string {
    match s
    case Unsigned => ""
    case Plus => "+"
    case Minus => "-"
  }

  /** The text of a literal. */
  function Render(d: Literal): string {
    SignText(d.sign) + d.whole + (if d.point then "." else "") + d.fraction
  }

  function DigitValue(c: char): nat
    requires IsDigit(c)
  {
    (c as int - '0' as int) as nat
  }

  /** The natural number a digit string denotes (most significant digit first). */
  function DigitsValue(s: string): nat
    requires AllDigits(s)
    decreases |s|
  {
    if |s| == 0 then 0 else 10 * DigitsValue(s[..|s| - 1]) + DigitValue(s[|s| - 1])
  }

  function Pow10(n: nat): nat {
    if n == 0 then 1 else 10 * Pow10(n - 1)
  }

  lemma {:induction false} Pow10Positive(n: nat)
    ensures Pow10(n) >= 1
  {
    if n > 0 {
      Pow10Positive(n - 1);
    }
  }

  /** The number a well-formed literal denotes. */
  function Value(d: Literal): real
    requires WellFormed(d)
  {
    Pow10Positive(|d.fraction|);
    var magnitude := DigitsValue(d.whole) as real + DigitsValue(d.fraction) as real / Pow10(|d.fraction|) as real;
    if d.sign == Minus then -magnitude else magnitude
  }

  /** Length of the run of digits at the front of `s`. */
  function LeadingDigits(s: string): (n: nat)
    ensures n <= |s|
    ensures AllDigits(s[..n])
    ensures n < |s| ==> !IsDigit(s[n])
  {
    if |s| > 0 && IsDigit(s[0]) then
      var n := 1 + LeadingDigits(s[1..]);
      assert s[..n] == [s[0]] + s[1..][..n - 1];
      n
    else 0
  }

  /** Reads the unsigned part of a literal that carries sign `sign`. */
  function ParseUnsigned(sign: Sign, body: string): (r: Option<Literal>)
    ensures r.Some? ==> WellFormed(r.value) && r.value.sign == sign && Render(r.value) == SignText(sign) + body
  {
    var n := LeadingDigits(body);
    var after := body[n..];
    if after == [] then
      if n > 0 then
        assert body[..n] == body;
        Some(Literal(sign, body[..n], false, []))
      else None
    else if after[0] == '.' && AllDigits(after[1..]) && n + |after| - 1 >= 1 then
      assert body == body[..n] + "." + after[1..];
      Some(Literal(sign, body[..n], true, after[1..]))
    else None
  }

  /** Reads a literal with no surrounding whitespace. */
  function ParseStripped(u: string): (r: Option<Literal>)
    ensures r.Some? ==> WellFormed(r.value) && Render(r.value) == u
  {
    if |u| > 0 && u[0] == '-' then
      assert u == "-" + u[1..];
      ParseUnsigned(Minus, u[1..])
    else if |u| > 0 && u[0] == '+' then
      assert u == "+" + u[1..];
      ParseUnsigned(Plus, u[1..])
    else
      ParseUnsigned(Unsigned, u)
  }

  /** `float(t)` on decimal input: the literal `t` holds once surrounding whitespace
      is stripped, or `None` where Python raises ValueError. */
  function Parse(t: string): (r: Option<Literal>)
    ensures r.Some? ==> WellFormed(r.value) && Render(r.value) == Text.Trim(t)
  {
    ParseStripped(Text.Trim(t))
  }

  /** The number `float(t)` returns, or `None` where it raises. */
  function ParseNumber(t: string): (r: Option<real>)
    ensures r.Some? <==> exists d :: WellFormed(d) && Render(d) == Text.Trim(t)
    ensures r.Some? ==> exists d :: WellFormed(d) && Render(d) == Text.Trim(t) && r.value == Value(d)
  {
    LiteralTextParses(t);
    match Parse(t)
    case Some(d) => Some(Value(d))
    case None => None
  }

  /** A text that is a well-formed literal once stripped is accepted. */
  lemma LiteralTextParses(t: string)
    ensures (exists d :: WellFormed(d) && Render(d) == Text.Trim(t)) ==> Parse(t).Some?
  {
    if exists d :: WellFormed(d) && Render(d) == Text.Trim(t) {
      var d :| WellFormed(d) && Render(d) == Text.Trim(t);
      ParseOfTrimmed(t, d);
    }
  }

  lemma {:induction false} LeadingDigitsOfConcat(digits: string, rest: string)
    requires AllDigits(digits)
    requires rest == [] || !IsDigit(rest[0])
    ensures LeadingDigits(digits + rest) == |digits|
    decreases |digits|
  {
    if |digits| > 0 {
      assert (digits + rest)[1..] == digits[1..] + rest;
      LeadingDigitsOfConcat(digits[1..], rest);
    } else {
      assert digits + rest == rest;
    }
  }

  /** The unsigned part of a literal's text is read back as that literal. */
  lemma {:induction false} ParseUnsignedBody(d: Literal)
    requires WellFormed(d)
    ensures ParseUnsigned(d.sign, Body(d)) == Some(d)
  {
    var tail := (if d.point then "." else "") + d.fraction;
    assert Body(d) == d.whole + tail;
    LeadingDigitsOfConcat(d.whole, tail);
    assert Body(d)[..|d.whole|] == d.whole;
    assert Body(d)[|d.whole|..] == tail;
    if d.point {
      assert tail[1..] == d.fraction;
    }
  }

  /** The text after the sign. */
  function Body(d: Literal): string {
    d.whole + (if d.point then "." else "") + d.fraction
  }

  /** A literal's text starts with a sign, a digit or the point and ends with a
      digit or the point, so stripping leaves it intact. */
  lemma {:induction false} RenderIsTrimmed(left: string, d: Literal, right: string)
    requires WellFormed(d)
    requires Text.AllSpace(left) && Text.AllSpace(right)
    ensures Text.Trim(left + Render(d) + right) == Render(d)
  {
    FirstCharNotSpace(d);
    LastCharNotSpace(d);
    Text.TrimPadded(left, Render(d), right);
  }

  lemma FirstCharNotSpace(d: Literal)
    requires WellFormed(d)
    ensures |Render(d)| > 0 && !Text.IsSpace(Render(d)[0])
  {
    var text := Render(d);
    assert text == SignText(d.sign) + Body(d);
    if d.sign == Unsigned {
      assert text[0] == Body(d)[0];
    }
  }

  lemma LastCharNotSpace(d: Literal)
    requires WellFormed(d)
    ensures |Render(d)| > 0 && !Text.IsSpace(Render(d)[|Render(d)| - 1])
  {
    var text := Render(d);
    if |d.fraction| > 0 {
      assert text[|text| - 1] == d.fraction[|d.fraction| - 1];
    } else if d.point {
      assert text[|text| - 1] == '.';
    } else {
      assert text[|text| - 1] == d.whole[|d.whole| - 1];
    }
  }

  /** Every well-formed literal, padded with any whitespace, is read back as itself:
      the converse of the round trip stated by `Parse`'s postcondition. */
  lemma {:induction false} ParseRender(left: string, d: Literal, right: string)
    requires WellFormed(d)
    requires Text.AllSpace(left) && Text.AllSpace(right)
    ensures Parse(left + Render(d) + right) == Some(d)
  {
    RenderIsTrimmed(left, d, right);
    ParseOfTrimmed(left + Render(d) + right, d);
  }

  lemma {:induction false} ParseOfTrimmed(t: string, d: Literal)
    requires WellFormed(d)
    requires Text.Trim(t) == Render(d)
    ensures Parse(t) == Some(d)
  {
    ParseStrippedRender(d);
  }

  lemma {:induction false} ParseStrippedRender(d: Literal)
    requires WellFormed(d)
    ensures ParseStripped(Render(d)) == Some(d)
  {
    if d.sign == Unsigned {
      ParseStrippedUnsigned(d);
    } else {
      ParseStrippedSigned(d);
    }
  }

  lemma ParseStrippedUnsigned(d: Literal)
    requires WellFormed(d) && d.sign == Unsigned
    ensures ParseStripped(Render(d)) == Some(d)
  {
    ParseUnsignedBody(d);
    var u := Render(d);
    assert u == Body(d);
    assert u[0] == '.' || IsDigit(u[0]);
  }

  lemma ParseStrippedSigned(d: Literal)
    requires WellFormed(d) && d.sign != Unsigned
    ensures ParseStripped(Render(d)) == Some(d)
  {
    ParseUnsignedBody(d);
    var u := Render(d);
    assert u == SignText(d.sign) + Body(d);
    assert u[0] == (if d.sign == Minus then '-' else '+');
    assert u[1..] == Body(d);
  }

  /** Decimal digits of a natural number, most significant first (Python's `str(n)`). */
  function ShowNat(n: nat): (s: string)
    ensures |s| >= 1 && AllDigits(s)
  {
    var last := ['0' + (n % 10) as char];
    if n < 10 then last else ShowNat(n / 10) + last
  }

  lemma {:induction false} ShowNatValue(n: nat)
    ensures DigitsValue(ShowNat(n)) == n
  {
    var s := ShowNat(n);
    if n >= 10 {
      assert s[..|s| - 1] == ShowNat(n / 10);
      ShowNatValue(n / 10);
    }
  }

  /** The text Python's `str(n)` gives an integer. */
  function ShowInt(n: int): string {
    if n < 0 then "-" + ShowNat(-n) else ShowNat(n)
  }

  /** The literal `str(n)` writes for an integer. */
  function IntLiteral(n: int): (d: Literal)
    ensures WellFormed(d)
  {
    Literal(if n < 0 then Minus else Unsigned, ShowNat(if n < 0 then -n else n), false, [])
  }

  lemma {:induction false} IntLiteralValue(n: int)
    ensures Value(IntLiteral(n)) == n as real
  {
    var d := IntLiteral(n);
    var m: nat := if n < 0 then -n else n;
    ShowNatValue(m);
    assert DigitsValue(d.whole) == m;
    assert DigitsValue(d.fraction) == 0 && Pow10(|d.fraction|) == 1;
  }

  lemma {:induction false} IntLiteralParses(n: int)
    ensures Parse(ShowInt(n)) == Some(IntLiteral(n))
  {
    var d := IntLiteral(n);
    assert Render(d) == ShowInt(n);
    RenderIsTrimmed([], d, []);
    assert [] + Render(d) + [] == ShowInt(n);
    ParseOfTrimmed(ShowInt(n), d);
  }

  /** Integer coordinates written the usual way are read back exactly. */
  lemma {:induction false} IntegerRoundTrip(n: int)
    ensures ParseNumber(ShowInt(n)) == Some(n as real)
  {
    IntLiteralParses(n);
    IntLiteralValue(n);
  }

  /** `str(n)` writes only digits and a leading minus sign. */
  lemma ShowIntAlphabet(n: int)
    ensures forall i | 0 <= i < |ShowInt(n)| :: IsDigit(ShowInt(n)[i]) || ShowInt(n)[i] == '-'
  {
    if n < 0 {
      assert forall i | 1 <= i < |ShowInt(n)| :: ShowInt(n)[i] == ShowNat(-n)[i - 1];
    }
  }
}
