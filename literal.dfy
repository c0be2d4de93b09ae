/** A restricted reader for the numeric text the decoders hand to Python's `eval`: a signed
    decimal integer or floating-point literal, a parenthesised one, or a comma-separated tuple of
    them (with or without parentheses, with an optional trailing comma). Any other text is
    rejected rather than evaluated. */
module Literals {
  import opened Wrappers
  import opened Text

  /** A number typed as `eval` types it: an `int`, or a `float` kept as the exact decimal
      `mantissa * 10^exponent` written in the text. */
  datatype Number = Int(value: int) | Float(mantissa: int, exponent: int)

  /** What `eval` returns for the accepted text: one number, or a tuple of numbers. */
  datatype Literal = Scalar(n: Number) | Tuple(items: seq<Number>)

  predicate AllDigits(s: string) {
    forall i :: 0 <= i < |s| ==> IsDigit(s[i])
  }

  /** The length of the run of digits at the start of `s`. */
  function DigitRun(s: string): (n: nat)
    ensures n <= |s| && AllDigits(s[..n])
    ensures n < |s| ==> !IsDigit(s[n])
  {
    if s != [] && IsDigit(s[0]) then
      var n := 1 + DigitRun(s[1..]);
      assert forall i :: 1 <= i < n ==> s[..n][i] == s[1..][..n - 1][i - 1];
      n
    else 0
  }

  function DigitValue(c: char): nat
    requires IsDigit(c)
  {
    c as int - '0' as int
  }

  /** The value of a string of decimal digits. */
  function DigitsValue(ds: string): nat
    requires AllDigits(ds)
  {
    if ds == [] then 0 else DigitsValue(ds[..|ds| - 1]) * 10 + DigitValue(ds[|ds| - 1])
  }

  /** Python refuses a decimal integer literal with a leading zero unless every digit is zero. */
  predicate ValidIntDigits(ds: string) {
    ds != [] && AllDigits(ds) && (ds[0] != '0' || forall i :: 0 <= i < |ds| ==> ds[i] == '0')
  }

  /** An optional exponent `e`/`E`, an optional sign and at least one digit; the empty text is
      exponent 0. */
  function ReadExponent(t: string): Option<int> {
    if t == [] then Some(0)
    else if t[0] != 'e' && t[0] != 'E' then None
    else
      var u := t[1..];
      var negative := u != [] && u[0] == '-';
      var ds := if u != [] && (u[0] == '-' || u[0] == '+') then u[1..] else u;
      if ds == [] || !AllDigits(ds) then None
      else
        var v: int := DigitsValue(ds);
        Some(if negative then -v else v)
  }

  /** An unsigned decimal literal: an integer, or a float with a point and/or an exponent. */
  function ReadUnsigned(t: string): Option<Number> {
    var a := DigitRun(t);
    var intPart := t[..a];
    var rest := t[a..];
    if rest == [] then
      if ValidIntDigits(intPart) then Some(Int(DigitsValue(intPart))) else None
    else
      var hasPoint := rest[0] == '.';
      var fracLen := if hasPoint then DigitRun(rest[1..]) else 0;
      var frac := if hasPoint then rest[1..][..fracLen] else "";
      var afterFrac := if hasPoint then rest[1..][fracLen..] else rest;
      assert AllDigits(intPart + frac) by {
        assert forall i :: 0 <= i < |intPart + frac| ==>
          (intPart + frac)[i] == if i < |intPart| then intPart[i] else frac[i - |intPart|];
      }
      if a + fracLen == 0 then None
      else
        match ReadExponent(afterFrac)
        case None => None
        case Some(e) => Some(Float(DigitsValue(intPart + frac), e - fracLen))
  }

  function Negate(n: Number): Number {
    match n
    case Int(v) => Int(-v)
    case Float(m, e) => Float(-m, e)
  }

  /** A decimal literal with an optional leading sign. */
  function ReadNumber(t: string): Option<Number> {
    if t != [] && t[0] == '-' then
      match ReadUnsigned(t[1..]) case None => None case Some(n) => Some(Negate(n))
    else if t != [] && t[0] == '+' then ReadUnsigned(t[1..])
    else ReadUnsigned(t)
  }

  /** Every piece, stripped, reads as a number. */
  function ReadNumbers(pieces: seq<string>): (r: Option<seq<Number>>)
    ensures r.Some? ==> |r.value| == |pieces|
  {
    if pieces == [] then Some([])
    else
      match ReadNumber(Strip(pieces[0]))
      case None => None
      case Some(n) =>
        match ReadNumbers(pieces[1..])
        case None => None
        case Some(ns) => Some([n] + ns)
  }

  /** The replacement for `eval` on numeric text. Parentheses around a single number do not make a
      tuple; a comma does, and a final comma is allowed. */
  function ReadLiteral(s: string): Option<Literal> {
    var t := Strip(s);
    var parenthesised := |t| >= 2 && t[0] == '(' && t[|t| - 1] == ')';
    var body := if parenthesised then t[1..|t| - 1] else t;
    if parenthesised && IsBlank(body) then Some(Tuple([]))
    else
      var parts := Split(body, ",");
      if |parts| == 1 then
        match ReadNumber(Strip(body)) case None => None case Some(n) => Some(Scalar(n))
      else
        var items := if IsBlank(parts[|parts| - 1]) then parts[..|parts| - 1] else parts;
        match ReadNumbers(items) case None => None case Some(ns) => Some(Tuple(ns))
  }

  // ---------------------------------------------------------------- writing numbers back

  function DigitChar(d: nat): (c: char)
    requires d < 10
    ensures IsDigit(c) && DigitValue(c) == d
  {
    ('0' as int + d) as char
  }

  /** The decimal digits of `n`, without leading zeros. */
  function ShowNat(n: nat): (ds: string)
    ensures AllDigits(ds) && ds != []
    decreases n
  {
    if n < 10 then [DigitChar(n)] else ShowNat(n / 10) + [DigitChar(n % 10)]
  }

  function ShowInt(i: int): string {
    if i < 0 then "-" + ShowNat(-i) else ShowNat(i)
  }

  /** A decimal literal that reads back as `n`: an `int` in decimal, a float as mantissa, `e` and
      exponent. */
  function ShowNumber(n: Number): string {
    match n
    case Int(v) => ShowInt(v)
    case Float(m, e) => ShowInt(m) + "e" + ShowInt(e)
  }

  lemma {:induction false} ShowNatReads(n: nat)
    ensures DigitsValue(ShowNat(n)) == n
    ensures n > 0 ==> ShowNat(n)[0] != '0'
    ensures ValidIntDigits(ShowNat(n))
    decreases n
  {
    var ds := ShowNat(n);
    if n >= 10 {
      ShowNatReads(n / 10);
      var hi := ShowNat(n / 10);
      assert ds[..|ds| - 1] == hi;
      assert ds[0] == hi[0];
    }
  }

  lemma DigitRunAll(ds: string, rest: string)
    requires AllDigits(ds)
    requires rest == [] || !IsDigit(rest[0])
    ensures DigitRun(ds + rest) == |ds|
    decreases |ds|
  {
    if ds != [] {
      assert (ds + rest)[1..] == ds[1..] + rest;
      DigitRunAll(ds[1..], rest);
    } else {
      assert ds + rest == rest;
    }
  }

  lemma ReadExponentShow(e: int)
    ensures ReadExponent("e" + ShowInt(e)) == Some(e)
  {
    var t := "e" + ShowInt(e);
    ShowNatReads(if e < 0 then -e else e);
    if e < 0 {
      assert t[1..] == "-" + ShowNat(-e);
      assert t[1..][1..] == ShowNat(-e);
    } else {
      assert t[1..] == ShowNat(e);
    }
  }

  lemma ReadUnsignedInt(n: nat)
    ensures ReadUnsigned(ShowNat(n)) == Some(Int(n))
  {
    var ds := ShowNat(n);
    ShowNatReads(n);
    DigitRunAll(ds, "");
    assert ds + "" == ds;
    assert ds[..|ds|] == ds && ds[|ds|..] == [];
  }

  lemma ReadUnsignedFloat(m: nat, e: int)
    ensures ReadUnsigned(ShowNat(m) + "e" + ShowInt(e)) == Some(Float(m, e))
  {
    var ds := ShowNat(m);
    var tail := "e" + ShowInt(e);
    var t := ds + tail;
    assert t == ShowNat(m) + "e" + ShowInt(e);
    ShowNatReads(m);
    DigitRunAll(ds, tail);
    assert t[..|ds|] == ds && t[|ds|..] == tail;
    ReadUnsignedExponent(t);
    ReadExponentShow(e);
  }

  /** A float literal with an exponent and no point. */
  lemma ReadUnsignedExponent(t: string)
    requires 0 < DigitRun(t) < |t| && t[DigitRun(t)] != '.'
    ensures ReadUnsigned(t) == match ReadExponent(t[DigitRun(t)..])
      case None => None
      case Some(x) => Some(Float(DigitsValue(t[..DigitRun(t)]), x))
  {
    var a := DigitRun(t);
    assert t[..a] + "" == t[..a];
  }

  lemma ReadNumberMinus(u: string)
    requires u != [] && IsDigit(u[0])
    ensures ReadNumber("-" + u) == match ReadUnsigned(u) case None => None case Some(x) => Some(Negate(x))
  {
    assert ("-" + u)[1..] == u;
  }

  lemma ReadNumberPlain(u: string)
    requires u != [] && IsDigit(u[0])
    ensures ReadNumber(u) == ReadUnsigned(u)
  {
  }

  lemma ShowIntReads(v: int)
    ensures ReadNumber(ShowNumber(Int(v))) == Some(Int(v))
  {
    var u := ShowNat(if v < 0 then -v else v);
    ReadUnsignedInt(if v < 0 then -v else v);
    assert IsDigit(u[0]);
    if v < 0 {
      assert ShowNumber(Int(v)) == "-" + u;
      ReadNumberMinus(u);
    } else {
      assert ShowNumber(Int(v)) == u;
      ReadNumberPlain(u);
    }
  }

  lemma NegativeFloatText(m: int, e: int)
    requires m < 0
    ensures ShowNumber(Float(m, e)) == "-" + (ShowNat(-m) + "e" + ShowInt(e))
  {
    var d, x := ShowNat(-m), ShowInt(e);
    assert ShowInt(m) == "-" + d;
    assert ("-" + d) + "e" + x == "-" + (d + "e" + x);
  }

  lemma ShowFloatReads(m: int, e: int)
    ensures ReadNumber(ShowNumber(Float(m, e))) == Some(Float(m, e))
  {
    var d := ShowNat(if m < 0 then -m else m);
    var u := d + "e" + ShowInt(e);
    ReadUnsignedFloat(if m < 0 then -m else m, e);
    assert u[0] == d[0] && IsDigit(u[0]);
    if m < 0 {
      NegativeFloatText(m, e);
      ReadNumberMinus(u);
    } else {
      assert ShowNumber(Float(m, e)) == u;
      ReadNumberPlain(u);
    }
  }

  /** The characters a written number is made of. */
  predicate NumberChar(c: char) {
    IsDigit(c) || c == '-' || c == 'e'
  }

  lemma ShowIntChars(v: int)
    ensures var s := ShowInt(v);
      s != [] && IsDigit(s[|s| - 1]) && forall i :: 0 <= i < |s| ==> NumberChar(s[i])
    ensures v >= 0 ==> AllDigits(ShowInt(v))
    ensures v < 0 ==> ShowInt(v)[0] == '-'
  {
    if v < 0 {
      var d := ShowNat(-v);
      assert forall i :: 1 <= i < |d| + 1 ==> ("-" + d)[i] == d[i - 1];
    }
  }

  /** A written number is non-empty, ends with a digit and uses only digits, `-` and `e`; it is
      all digits exactly when the number is a non-negative integer. */
  lemma ShowNumberChars(n: Number)
    ensures var s := ShowNumber(n);
      s != [] && IsDigit(s[|s| - 1]) && forall i :: 0 <= i < |s| ==> NumberChar(s[i])
    ensures AllDigits(ShowNumber(n)) <==> n.Int? && n.value >= 0
  {
    match n {
      case Int(v) =>
        ShowIntChars(v);
      case Float(m, e) =>
        ShowIntChars(m);
        ShowIntChars(e);
        var a, b := ShowInt(m), ShowInt(e);
        var s := a + "e" + b;
        assert forall i :: 0 <= i < |a| ==> s[i] == a[i];
        assert s[|a|] == 'e';
        assert forall i :: |a| < i < |s| ==> s[i] == b[i - |a| - 1];
    }
  }

  /** A written number has no whitespace, parenthesis, point, comma or quote. */
  lemma ShowNumberPlain(n: Number)
    ensures var s := ShowNumber(n);
      (forall i :: 0 <= i < |s| ==> !IsSpace(s[i]) && s[i] != '(' && s[i] != '.' && s[i] != ',')
      && '"' !in s
  {
    var s := ShowNumber(n);
    ShowNumberChars(n);
    forall i | 0 <= i < |s|
      ensures !IsSpace(s[i]) && s[i] != '(' && s[i] != '.' && s[i] != ',' && s[i] != '"'
    {
      assert NumberChar(s[i]);
    }
  }

  /** Text of non-blank characters without commas and not opening with a parenthesis is read as
      the one number it spells, if any. */
  lemma ReadLiteralNumberText(t: string)
    requires t != [] && t[0] != '('
    requires forall i :: 0 <= i < |t| ==> !IsSpace(t[i]) && t[i] != ','
    ensures ReadLiteral(t) == match ReadNumber(t) case None => None case Some(n) => Some(Scalar(n))
  {
    assert Strip(t) == t;
    ContainsChar(t, ',');
    SplitWhole(t, ",");
  }

  /** Parentheses around blank text are the empty tuple. */
  lemma ReadEmptyTuple(t: string)
    requires |t| >= 2 && t[0] == '(' && t[|t| - 1] == ')' && IsBlank(t[1..|t| - 1])
    ensures ReadLiteral(t) == Some(Tuple([]))
  {
    assert Trimmed(t);
  }

  /** The literal text of a number evaluates to that number. */
  lemma ReadLiteralShowNumber(n: Number)
    ensures ReadLiteral(ShowNumber(n)) == Some(Scalar(n))
  {
    var s := ShowNumber(n);
    ShowNumberChars(n);
    ShowNumberPlain(n);
    ReadLiteralNumberText(s);
    ShowNumberReads(n);
  }

  /** Writing a number and reading it back gives the same number. */
  lemma ShowNumberReads(n: Number)
    ensures ReadNumber(ShowNumber(n)) == Some(n)
  {
    match n {
      case Int(v) => ShowIntReads(v);
      case Float(m, e) => ShowFloatReads(m, e);
    }
  }
}
