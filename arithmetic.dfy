/** An exact instance of the interpreter, after `ExampleInterpreter` of
    actual_parser.py:262-278: numbers are read as exact decimals and the four
    operations are those of the rationals (Dafny's `real`), with division by
    zero an error. It stands in for Python floats, whose rounding it does not
    model. */
module Arithmetic {
  import opened Wrappers
  import opened Tokens
  import opened Syntax
  import opened Descent
  import opened Interpreter

  /** What the exact interpreter raises: `float(token)` refusing the text
      (ValueError), or a zero divisor (ZeroDivisionError). */
  datatype Failure = NotANumber | DivisionByZero

  function DigitsValue(s: string): nat
    requires forall i :: 0 <= i < |s| ==> IsDigit(s[i])
  {
    if s == [] then 0
    else
      assert IsDigit(s[|s| - 1]);
      10 * DigitsValue(s[..|s| - 1]) + (s[|s| - 1] as int - '0' as int) as nat
  }

  function Pow10(n: nat): (r: nat)
    ensures r > 0
  {
    if n == 0 then 1 else 10 * Pow10(n - 1)
  }

  /** Where the first "." of `s` is. */
  function FirstDot(s: string): (i: nat)
    requires '.' in s
    ensures i < |s| && s[i] == '.' && '.' !in s[..i]
  {
    if s[0] == '.' then 0
    else
      assert '.' in s[1..] by {
        var k :| 0 <= k < |s| && s[k] == '.';
        assert s[1..][k - 1] == '.';
      }
      var i := FirstDot(s[1..]);
      assert s[..i + 1] == [s[0]] + s[1..][..i];
      i + 1
  }

  /** The value of the digits `whole`, a dot, and the digits `frac`. */
  function Decimal(whole: string, frac: string): real
    requires AllDigits(whole) && AllDigits(frac)
  {
    DigitsValue(whole) as real + DigitsValue(frac) as real / Pow10(|frac|) as real
  }

  predicate AllDigits(s: string) {
    forall i :: 0 <= i < |s| ==> IsDigit(s[i])
  }

  /** `float(token)` for a text of digits and dots: digits with at most one
      dot and at least one digit; anything else is refused. */
  function NumberValue(text: string): (r: Option<real>)
    ensures AllDigits(text) && text != [] ==> r == Some(DigitsValue(text) as real)
    ensures text == [] || text == "." ==> r == None
  {
    if AllDigits(text) then
      if text == [] then None else Some(DigitsValue(text) as real)
    else if '.' !in text then
      None
    else
      var i := FirstDot(text);
      var whole, frac := text[..i], text[i + 1..];
      if !AllDigits(whole) || !AllDigits(frac) || (whole == [] && frac == []) then None
      else Some(Decimal(whole, frac))
  }

  /** `float` reads a text exactly when it is made of digits and dots, holds
      at most one dot and at least one digit: "1.", ".5" and "12" are
      numbers, ".", "" and "1.2.3" are not. */
  lemma NumberValueSomeIff(text: string)
    ensures NumberValue(text).Some? <==>
      && (forall k :: 0 <= k < |text| ==> IsNumberChar(text[k]))
      && multiset(text)['.'] <= 1
      && (exists k :: 0 <= k < |text| && IsDigit(text[k]))
  {
    if AllDigits(text) {
      assert '.' !in text;
      if text != [] {
        assert IsDigit(text[0]);
      }
    } else if '.' !in text {
      var k :| 0 <= k < |text| && !IsDigit(text[k]);
      assert !IsNumberChar(text[k]);
    } else {
      var i := FirstDot(text);
      var whole, frac := text[..i], text[i + 1..];
      assert text == whole + [text[i]] + frac;
      assert multiset(text)['.'] == multiset(whole)['.'] + 1 + multiset(frac)['.'];
      assert multiset(whole)['.'] == 0;
      if !AllDigits(whole) {
        var k :| 0 <= k < |whole| && !IsDigit(whole[k]);
        assert text[k] == whole[k] && whole[k] in whole;
      } else if !AllDigits(frac) {
        var k :| 0 <= k < |frac| && !IsDigit(frac[k]);
        if frac[k] == '.' {
          assert '.' in frac;
        } else {
          assert text[i + 1 + k] == frac[k];
        }
      } else {
        forall k | 0 <= k < |text|
          ensures IsNumberChar(text[k])
        {
          if k < i {
            assert text[k] == whole[k];
          } else if k > i {
            assert text[k] == frac[k - i - 1];
          }
        }
        if whole != [] {
          assert text[0] == whole[0];
        } else if frac != [] {
          assert text[i + 1] == frac[0];
        } else {
          assert text == ".";
        }
      }
    }
  }

  /** A text with one dot reads as its whole part plus its fraction digits
      scaled down by a power of ten; either part may be empty, not both. */
  lemma DecimalReading(whole: string, frac: string)
    requires AllDigits(whole) && AllDigits(frac) && (whole != [] || frac != [])
    ensures NumberValue(whole + "." + frac) == Some(Decimal(whole, frac))
  {
    var text := whole + "." + frac;
    assert !IsDigit(text[|whole|]);
    assert !AllDigits(text);
    FirstDotAfter(whole, frac);
    var i := FirstDot(text);
    assert text[..i] == whole && text[i + 1..] == frac;
  }

  lemma {:induction false} FirstDotAfter(whole: string, rest: string)
    requires '.' !in whole
    ensures '.' in whole + "." + rest
    ensures FirstDot(whole + "." + rest) == |whole|
    decreases |whole|
  {
    var text := whole + "." + rest;
    assert text[|whole|] == '.';
    if whole != [] {
      assert text[1..] == whole[1..] + "." + rest;
      assert '.' !in whole[1..] by {
        assert forall k :: 0 <= k < |whole[1..]| ==> whole[1..][k] == whole[k + 1];
      }
      FirstDotAfter(whole[1..], rest);
      assert text[0] == whole[0];
    }
  }

  function Number(text: string): (r: Result<real, Exception<Failure>>)
    ensures r.Ok? <==> NumberValue(text).Some?
    ensures r.Ok? ==> r.value == NumberValue(text).value
    ensures r.Err? ==> r.error == Raised(NotANumber)
  {
    match NumberValue(text)
    case Some(v) => Ok(v)
    case None => Err(Raised(NotANumber))
  }

  function Divide(lv: real, rv: real): (r: Result<real, Exception<Failure>>)
    ensures r.Err? <==> rv == 0.0
    ensures r.Err? ==> r.error == Raised(DivisionByZero)
    ensures r.Ok? ==> r.value * rv == lv
  {
    if rv == 0.0 then Err(Raised(DivisionByZero)) else Ok(lv / rv)
  }

  const Exact: Operations<real, Failure> := Operations(
    Number,
    (lv: real, rv: real) => Ok(lv + rv),
    (lv: real, rv: real) => Ok(lv - rv),
    (lv: real, rv: real) => Ok(lv * rv),
    Divide)

  lemma ExactRaisesOwn()
    ensures OwnExceptionsOnly(Exact)
  {
    forall text | Exact.number(text).Err?
      ensures Exact.number(text).error.Raised?
    {
    }
    forall a, b | Exact.div(a, b).Err?
      ensures Exact.div(a, b).error.Raised?
    {
    }
  }

  /** Evaluating what the parser returns exactly raises nothing but
      ValueError and ZeroDivisionError. */
  lemma ParsedTreesFailOnlyOnValues(s: string)
    requires ParseString(s).Ok? && ParseString(s).value.Some?
    ensures var r := EvalNode(Exact, ParseString(s).value.value);
            r.Err? ==> r.error in {Raised(NotANumber), Raised(DivisionByZero)}
  {
    var t := ParseString(s).value.value;
    ParseStringWellFormed(s);
    WellFormedIsEvaluable(t);
    ExactRaisesOwn();
    OnlyOwnExceptions(Exact, t);
    var r := EvalNode(Exact, t);
    if r.Err? {
      assert r.error.cause == NotANumber || r.error.cause == DivisionByZero;
    }
  }
}
