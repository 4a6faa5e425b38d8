/** The behaviour of `Parser(s).parse()` on particular inputs, each derived
    from the general theorems of module Grammar. */
module Samples {
  import opened Wrappers
  import opened Tokens
  import opened Syntax
  import opened Lexer
  import opened Descent
  import opened RoundTrip
  import opened Grammar
  import Interpreter
  import Arithmetic

  function Num(text: string): SyntaxNode {
    Leaf(Token(Number, text))
  }

  const Plus := Token(Additive, "+")
  const Minus := Token(Additive, "-")
  const Times := Token(Multiplicative, "*")
  const Over := Token(Multiplicative, "/")

  /** "1-2-3" is (1-2)-3: equal operators group to the left. */
  lemma SubtractionGroupsLeft()
    ensures ParseString("1-2-3") == Ok(Some(Binary(Minus, Binary(Minus, Num("1"), Num("2")), Num("3"))))
  {
    var t := Binary(Minus, Binary(Minus, Num("1"), Num("2")), Num("3"));
    var u := [Num("1").token, Minus, Num("2").token, Minus, Num("3").token];
    assert Unparse(t.children[0], 0) == u[..3];
    assert Unparse(t, 0) == u;
    TextsOfFive(u, "1-2-3");
    ParseSource(t);
  }

  /** "8/4/2" is (8/4)/2. */
  lemma DivisionGroupsLeft()
    ensures ParseString("8/4/2") == Ok(Some(Binary(Over, Binary(Over, Num("8"), Num("4")), Num("2"))))
  {
    var t := Binary(Over, Binary(Over, Num("8"), Num("4")), Num("2"));
    var u := [Num("8").token, Over, Num("4").token, Over, Num("2").token];
    assert Unparse(t.children[0], 1) == u[..3];
    assert Unparse(t, 0) == u;
    TextsOfFive(u, "8/4/2");
    ParseSource(t);
  }

  /** "2+3*4" is 2+(3*4): "*" binds tighter than "+" on the right... */
  lemma ProductBindsTighterRight()
    ensures ParseString("2+3*4") == Ok(Some(Binary(Plus, Num("2"), Binary(Times, Num("3"), Num("4")))))
  {
    var t := Binary(Plus, Num("2"), Binary(Times, Num("3"), Num("4")));
    var u := [Num("2").token, Plus, Num("3").token, Times, Num("4").token];
    assert Unparse(t.children[1], 1) == u[2..];
    assert Unparse(t, 0) == u;
    TextsOfFive(u, "2+3*4");
    ParseSource(t);
  }

  /** ... and on the left: "2*3+4" is (2*3)+4. */
  lemma ProductBindsTighterLeft()
    ensures ParseString("2*3+4") == Ok(Some(Binary(Plus, Binary(Times, Num("2"), Num("3")), Num("4"))))
  {
    var t := Binary(Plus, Binary(Times, Num("2"), Num("3")), Num("4"));
    var u := [Num("2").token, Times, Num("3").token, Plus, Num("4").token];
    assert Unparse(t.children[0], 0) == u[..3];
    assert Unparse(t, 0) == u;
    TextsOfFive(u, "2*3+4");
    ParseSource(t);
  }

  /** "1-(2-3)" keeps its parentheses' grouping. */
  lemma ParenthesesGroupRight()
    ensures ParseString("1-(2-3)") == Ok(Some(Binary(Minus, Num("1"), Binary(Minus, Num("2"), Num("3")))))
  {
    var t := Binary(Minus, Num("1"), Binary(Minus, Num("2"), Num("3")));
    NestedDifferencePrinted(t);
    ParseSource(t);
  }

  lemma NestedDifferencePrinted(t: SyntaxNode)
    requires t == Binary(Minus, Num("1"), Binary(Minus, Num("2"), Num("3")))
    ensures Texts(Unparse(t, 0)) == "1-(2-3)"
  {
    var inner := [Num("2").token, Minus, Num("3").token];
    PrintedInParentheses(t.children[1], inner);
    var u := [Num("1").token, Minus, OpenToken, Num("2").token, Minus, Num("3").token, CloseToken];
    assert Unparse(t, 0) == u;
    TextsOfSeven(u, "1-(2-3)");
  }

  /** "(1+2)*3" multiplies the parenthesised sum. */
  lemma ParenthesesGroupSum()
    ensures ParseString("(1+2)*3") == Ok(Some(Binary(Times, Binary(Plus, Num("1"), Num("2")), Num("3"))))
  {
    var t := Binary(Times, Binary(Plus, Num("1"), Num("2")), Num("3"));
    ScaledSumPrinted(t);
    ParseSource(t);
  }

  lemma ScaledSumPrinted(t: SyntaxNode)
    requires t == Binary(Times, Binary(Plus, Num("1"), Num("2")), Num("3"))
    ensures Texts(Unparse(t, 0)) == "(1+2)*3"
  {
    var inner := [Num("1").token, Plus, Num("2").token];
    PrintedInParentheses(t.children[0], inner);
    var u := [OpenToken, Num("1").token, Plus, Num("2").token, CloseToken, Times, Num("3").token];
    assert Unparse(t, 0) == u;
    TextsOfSeven(u, "(1+2)*3");
  }

  /** "(1)+2" is 1+2: redundant parentheses leave no trace in the tree. */
  lemma RedundantParenthesesVanish()
    ensures ParseString("(1)+2") == Ok(Some(Binary(Plus, Num("1"), Num("2"))))
  {
    var e := Infix(Plus, Group(Lit(Num("1").token)), Lit(Num("2").token));
    var u := [OpenToken, Num("1").token, CloseToken, Plus, Num("2").token];
    assert Print(e) == u;
    TextsOfFive(u, "(1)+2");
    ParseWrittenText(e);
  }

  /** "((2))" is the number 2. */
  lemma NestedParenthesesVanish()
    ensures ParseString("((2))") == Ok(Some(Num("2")))
  {
    var e := Group(Group(Lit(Num("2").token)));
    var u := [OpenToken, OpenToken, Num("2").token, CloseToken, CloseToken];
    assert Print(e) == u;
    TextsOfFive(u, "((2))");
    ParseWrittenText(e);
  }

  /** "(1-2)-3" is the same tree as "1-2-3": parentheses around a left
      operand group as the parser would anyway. */
  lemma LeftParenthesesAgree()
    ensures ParseString("(1-2)-3") == ParseString("1-2-3")
  {
    var e := Infix(Minus, Group(Infix(Minus, Lit(Num("1").token), Lit(Num("2").token))), Lit(Num("3").token));
    var u := [OpenToken, Num("1").token, Minus, Num("2").token, CloseToken, Minus, Num("3").token];
    assert Print(e) == u by {
      assert Print(e.left) == [OpenToken] + [Num("1").token, Minus, Num("2").token] + [CloseToken];
    }
    TextsOfSeven(u, "(1-2)-3");
    ParseWrittenText(e);
    SubtractionGroupsLeft();
  }

  /** "5 3" is the number 3: the 5 is never read. */
  lemma LeadingNumberDropped()
    ensures ParseString("5 3") == Ok(Some(Num("3")))
  {
    var t := Num("3");
    var pre := [Num("5").token];
    var gaps := ["", " ", ""];
    assert Unparse(t, 0) == [t.token];
    var ts := pre + [t.token];
    assert Layout(ts[1..], gaps[1..]) == " 3" by {
      assert ts[1..] == [t.token];
      assert Layout(ts[2..], gaps[2..]) == "";
    }
    assert Layout(ts, gaps) == "5 3";
    ParseDropsPrefix(t, pre, gaps);
  }

  /** "(1+2" is 1+2: the unmatched "(" is never read. */
  lemma UnmatchedOpenDropped()
    ensures ParseString("(1+2") == Ok(Some(Binary(Plus, Num("1"), Num("2"))))
  {
    var t := Binary(Plus, Num("1"), Num("2"));
    var pre := [OpenToken];
    var u := [Num("1").token, Plus, Num("2").token];
    assert Unparse(t, 0) == u;
    var ts := pre + u;
    assert ts == [OpenToken, Num("1").token, Plus, Num("2").token];
    assert Texts(ts[3..]) == "2";
    assert Texts(ts[2..]) == "+2";
    assert Texts(ts[1..]) == "1+2";
    assert Texts(ts) == "(1+2";
    TightLayout(ts);
    ParseDropsPrefix(t, pre, Tight(|ts|));
  }

  /** "1+" fails with ExprSyntaxError: the first token read is "+", not a
      number. */
  lemma TrailingOperatorFails()
    ensures ParseString("1+") == Err(ExprSyntaxError)
  {
    var ts := [Num("1").token, Plus];
    assert Texts(ts[1..]) == "+";
    assert Texts(ts) == "1+";
    TightLayout(ts);
    LayoutTokenize(ts, Tight(|ts|));
    ParseFailsAfterOperator("1+");
  }

  /** "+1" fails with IndexError: after reading "1" and "+" the descent asks
      for the current token past the end. */
  lemma LeadingOperatorFails()
    ensures ParseString("+1") == Err(IndexError)
  {
    var ts := [Plus, Num("1").token];
    assert Texts(ts[1..]) == "1";
    assert Texts(ts) == "+1";
    TightLayout(ts);
    LayoutTokenize(ts, Tight(|ts|));
    var buf := Reverse(ts);
    assert buf == [Num("1").token, Plus];
    AtEnd(buf);
    assert Value(buf, 0) == Ok(Parsed(Num("1"), 1));
    assert CatBinary(buf, 2, Sum) == Err(IndexError);
  }

  /** Whitespace alone gives no tree. */
  lemma BlankGivesNothing()
    ensures ParseString(" \t\n") == Ok(None)
  {
    ParseStringNoneIff(" \t\n");
  }

  /** "1.2.3" is a single number token: the tokenizer takes the longest run
      of digits and dots and does not check its form. */
  lemma DotsStayInOneNumber()
    ensures Tokenize("1.2.3") == Ok([Token(Number, "1.2.3")])
  {
    var ts := [Token(Number, "1.2.3")];
    assert Layout(ts, ["", ""]) == "1.2.3";
    LayoutTokenize(ts, ["", ""]);
  }

  /** 1-2-3 is -4, not 2: the tree groups to the left. */
  lemma SubtractionValue()
    ensures Interpreter.EvalNode(Arithmetic.Exact, Binary(Minus, Binary(Minus, Num("1"), Num("2")), Num("3"))) == Ok(-4.0)
  {
    Digits();
  }

  /** 2*3+4 is 10. */
  lemma ProductFirstValue()
    ensures Interpreter.EvalNode(Arithmetic.Exact, Binary(Plus, Binary(Times, Num("2"), Num("3")), Num("4"))) == Ok(10.0)
  {
    Digits();
  }

  /** 8/4/2 is 1. */
  lemma DivisionValue()
    ensures Interpreter.EvalNode(Arithmetic.Exact, Binary(Over, Binary(Over, Num("8"), Num("4")), Num("2"))) == Ok(1.0)
  {
    Digits();
  }

  /** 2+3*4 is 14. */
  lemma PrecedenceValue()
    ensures Interpreter.EvalNode(Arithmetic.Exact, Binary(Plus, Num("2"), Binary(Times, Num("3"), Num("4")))) == Ok(14.0)
  {
    Digits();
  }

  /** (1+2)*3 is 9. */
  lemma ParenthesesValue()
    ensures Interpreter.EvalNode(Arithmetic.Exact, Binary(Times, Binary(Plus, Num("1"), Num("2")), Num("3"))) == Ok(9.0)
  {
    Digits();
  }

  /** A zero divisor is the interpreter's error, raised after both operands
      are evaluated. */
  lemma DivisionByZeroRaised()
    ensures Interpreter.EvalNode(Arithmetic.Exact, Binary(Over, Num("1"), Binary(Minus, Num("2"), Num("2"))))
            == Err(Interpreter.Raised(Arithmetic.DivisionByZero))
  {
    Digits();
  }

  /** "1.2.3" is a number token but not a number to `float`. */
  lemma MalformedNumberRaised()
    ensures Interpreter.EvalNode(Arithmetic.Exact, Binary(Plus, Num("1.2.3"), Num("0")))
            == Err(Interpreter.Raised(Arithmetic.NotANumber))
  {
    Decimals();
  }

  /** An operator node with one child fails the child-count `assert`; an
      operator text the interpreter does not know is an EvalError once both
      children are evaluated; a number node is read by `n_value` whatever
      children it has. */
  lemma StructuralErrors()
    ensures Interpreter.EvalNode(Arithmetic.Exact, SyntaxNode(Plus, [Num("1")])) == Err(Interpreter.AssertionError)
    ensures Interpreter.EvalNode(Arithmetic.Exact, Binary(Token(Additive, "^"), Num("1"), Num("2"))) == Err(Interpreter.EvalError)
    ensures Interpreter.EvalNode(Arithmetic.Exact, SyntaxNode(Token(Number, "3"), [Num("1")])) == Ok(3.0)
  {
    Digits();
  }

  lemma Digits()
    ensures Arithmetic.Number("0") == Ok(0.0) && Arithmetic.Number("1") == Ok(1.0)
    ensures Arithmetic.Number("2") == Ok(2.0) && Arithmetic.Number("3") == Ok(3.0)
    ensures Arithmetic.Number("4") == Ok(4.0) && Arithmetic.Number("8") == Ok(8.0)
  {
    assert Arithmetic.DigitsValue("0") == 0 && Arithmetic.DigitsValue("1") == 1;
    assert Arithmetic.DigitsValue("2") == 2 && Arithmetic.DigitsValue("3") == 3;
    assert Arithmetic.DigitsValue("4") == 4 && Arithmetic.DigitsValue("8") == 8;
  }

  /** `float` takes one dot and refuses a second. */
  lemma Decimals()
    ensures Arithmetic.NumberValue("2.5") == Some(2.5)
    ensures Arithmetic.Number("1.2.3") == Err(Interpreter.Raised(Arithmetic.NotANumber))
  {
    assert "2.5"[1] == '.' && "1.2.3"[1] == '.' && "1.2.3"[3] == '.';
    assert Arithmetic.FirstDot("2.5") == 1 && Arithmetic.FirstDot("1.2.3") == 1;
    assert "2.5"[..1] == "2" && "2.5"[2..] == "5";
    assert Arithmetic.DigitsValue("2") == 2 && Arithmetic.DigitsValue("5") == 5;
    assert "1.2.3"[2..][1] == '.';
  }

  /** A sum of two numbers below an operator is printed in parentheses. */
  lemma PrintedInParentheses(t: SyntaxNode, inner: seq<Token>)
    requires WellShaped(t) && t.token.kind == Additive
    requires t.children[0].children == [] && t.children[1].children == []
    requires inner == [t.children[0].token, t.token, t.children[1].token]
    ensures Unparse(t, 1) == [OpenToken] + inner + [CloseToken]
  {
    assert Unparse(t, 0) == inner;
  }

  lemma TextsOfFive(u: seq<Token>, s: string)
    requires |u| == 5 && forall i :: 0 <= i < 5 ==> |u[i].text| == 1
    requires |s| == 5 && forall i :: 0 <= i < 5 ==> s[i] == u[i].text[0]
    ensures Texts(u) == s
  {
    assert Texts(u[4..]) == s[4..];
    assert Texts(u[3..]) == s[3..];
    assert Texts(u[2..]) == s[2..];
    assert Texts(u[1..]) == s[1..];
  }

  lemma TextsOfSeven(u: seq<Token>, s: string)
    requires |u| == 7 && forall i :: 0 <= i < 7 ==> |u[i].text| == 1
    requires |s| == 7 && forall i :: 0 <= i < 7 ==> s[i] == u[i].text[0]
    ensures Texts(u) == s
  {
    assert Texts(u[6..]) == s[6..];
    assert Texts(u[5..]) == s[5..];
    assert Texts(u[2..]) == s[2..] by {
      assert Texts(u[4..]) == s[4..];
      assert Texts(u[3..]) == s[3..];
    }
    assert Texts(u[1..]) == s[1..];
  }
}
