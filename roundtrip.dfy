/** The reversed-buffer descent inverts writing: any grammatical expression
    (Syntax.Source), with as many redundant parentheses as it likes and laid
    out with any whitespace, parses back to the tree it stands for. Since
    `1-2-3` stands for ((1-2)-3), `1-(2-3)` for (1-(2-3)), `2+3*4` for
    (2+(3*4)) and `((2))` for 2, this pins down associativity, precedence and
    parentheses of the parser for every input the grammar derives. */
module RoundTrip {
  import opened Wrappers
  import opened Tokens
  import opened Syntax
  import opened Lexer
  import opened Descent

  /** `buf` holds the tokens `u` back to front from `pos` on. */
  predicate ReversedAt(buf: seq<Token>, pos: nat, u: seq<Token>)
    decreases |u|
  {
    if u == [] then pos <= |buf|
    else pos < |buf| && buf[pos] == u[|u| - 1] && ReversedAt(buf, pos + 1, u[..|u| - 1])
  }

  lemma {:induction false} ReversedAtBound(buf: seq<Token>, pos: nat, u: seq<Token>)
    requires ReversedAt(buf, pos, u)
    ensures pos + |u| <= |buf|
    decreases |u|
  {
    if u != [] {
      ReversedAtBound(buf, pos + 1, u[..|u| - 1]);
    }
  }

  lemma {:induction false} ReversedAtAppend(buf: seq<Token>, pos: nat, a: seq<Token>, b: seq<Token>)
    ensures ReversedAt(buf, pos, a + b) <==> ReversedAt(buf, pos, b) && ReversedAt(buf, pos + |b|, a)
    decreases |b|
  {
    if b == [] {
      assert a + b == a;
      if ReversedAt(buf, pos, a) {
        ReversedAtBound(buf, pos, a);
      }
    } else {
      var b' := b[..|b| - 1];
      assert (a + b)[..|a + b| - 1] == a + b';
      assert (a + b)[|a + b| - 1] == b[|b| - 1];
      ReversedAtAppend(buf, pos + 1, a, b');
    }
  }

  lemma ReversedAtSplit(buf: seq<Token>, pos: nat, a: seq<Token>, x: Token, b: seq<Token>)
    requires ReversedAt(buf, pos, a + [x] + b)
    ensures ReversedAt(buf, pos, b) && pos + |b| < |buf| && buf[pos + |b|] == x && ReversedAt(buf, pos + |b| + 1, a)
  {
    ReversedAtAppend(buf, pos, a + [x], b);
    ReversedAtAppend(buf, pos + |b|, a, [x]);
    assert [x][..0] == [];
  }

  /** `[OpenToken] + inner + [CloseToken]` read back to front: ")", the
      inner tokens, "(". */
  lemma ReversedAtWrap(buf: seq<Token>, pos: nat, inner: seq<Token>)
    requires ReversedAt(buf, pos, [OpenToken] + inner + [CloseToken])
    ensures pos < |buf| && buf[pos] == CloseToken && ReversedAt(buf, pos + 1, inner)
    ensures pos + 1 + |inner| < |buf| && buf[pos + 1 + |inner|] == OpenToken
  {
    assert [OpenToken] + inner + [CloseToken] == ([OpenToken] + inner) + [CloseToken] + [];
    ReversedAtSplit(buf, pos, [OpenToken] + inner, CloseToken, []);
    assert [OpenToken] + inner == [] + [OpenToken] + inner;
    ReversedAtSplit(buf, pos + 1, [], OpenToken, inner);
  }

  /** The token after the first one read: the last but one of `u`. */
  lemma ReversedAtSecond(buf: seq<Token>, pos: nat, u: seq<Token>)
    requires ReversedAt(buf, pos, u) && |u| > 1
    ensures pos + 1 < |buf| && buf[pos] == u[|u| - 1] && buf[pos + 1] == u[|u| - 2]
  {
    assert ReversedAt(buf, pos + 1, u[..|u| - 1]);
  }

  lemma {:induction false} ReversedAtOfSlice(buf: seq<Token>, pos: nat, u: seq<Token>)
    requires pos + |u| <= |buf| && buf[pos..pos + |u|] == Reverse(u)
    ensures ReversedAt(buf, pos, u)
    decreases |u|
  {
    if u != [] {
      var v := u[..|u| - 1];
      assert buf[pos] == buf[pos..pos + |u|][0];
      assert buf[pos + 1..pos + 1 + |v|] == Reverse(v) by {
        forall i | 0 <= i < |v| ensures buf[pos + 1..pos + 1 + |v|][i] == Reverse(v)[i] {
          assert buf[pos + 1..pos + 1 + |v|][i] == buf[pos..pos + |u|][i + 1];
        }
      }
      ReversedAtOfSlice(buf, pos + 1, v);
    }
  }

  // One unfolding of the descent functions at a time.

  lemma ValueLeafStep(buf: seq<Token>, pos: nat)
    requires pos < |buf| && buf[pos].kind == Number
    ensures Value(buf, pos) == Ok(Parsed(Leaf(buf[pos]), pos + 1))
  {
  }

  lemma ValueParenStep(buf: seq<Token>, pos: nat, n: SyntaxNode, q: nat)
    requires pos < |buf| && buf[pos].kind == Close
    requires Expr(buf, pos + 1) == Ok(Parsed(n, q))
    requires q < |buf| && buf[q].kind == Open
    ensures Value(buf, pos) == Ok(Parsed(n, q + 1))
  {
  }

  /** The token one ahead is an operator of `level`: a value, the operator,
      and the rest of the chain. */
  lemma AheadStep(buf: seq<Token>, pos: nat, level: Level, a: SyntaxNode, p: nat, b: SyntaxNode, q: nat)
    requires pos + 1 < |buf| && buf[pos + 1].kind == OperatorKind(level)
    requires Value(buf, pos) == Ok(Parsed(a, p))
    requires p < |buf| && buf[p].kind == OperatorKind(level)
    requires CatBinary(buf, p + 1, level) == Ok(Parsed(b, q))
    ensures CatBinary(buf, pos, level) == Ok(Parsed(Binary(buf[p], b, a), q))
  {
  }

  /** The operand parser of `level`: `parse_term` for sums, `parse_value` for
      products. */
  function Operand(buf: seq<Token>, pos: nat, level: Level): Result<Parsed, Error>
    requires pos <= |buf|
  {
    if level == Sum then Term(buf, pos) else Value(buf, pos)
  }

  /** The token one ahead is not an operator of `level`: an operand, then the
      operator and the rest of the chain. */
  lemma OperandStep(buf: seq<Token>, pos: nat, level: Level, a: SyntaxNode, p: nat, b: SyntaxNode, q: nat)
    requires pos <= |buf| && (pos + 1 >= |buf| || buf[pos + 1].kind != OperatorKind(level))
    requires Operand(buf, pos, level) == Ok(Parsed(a, p))
    requires p < |buf| && buf[p].kind == OperatorKind(level)
    requires CatBinary(buf, p + 1, level) == Ok(Parsed(b, q))
    ensures CatBinary(buf, pos, level) == Ok(Parsed(Binary(buf[p], b, a), q))
  {
  }

  /** The token one ahead is not an operator of `level` and the operand is not
      followed by one: the operand alone. */
  lemma LoneOperandStep(buf: seq<Token>, pos: nat, level: Level, a: SyntaxNode, p: nat)
    requires pos <= |buf| && (pos + 1 >= |buf| || buf[pos + 1].kind != OperatorKind(level))
    requires Operand(buf, pos, level) == Ok(Parsed(a, p))
    requires p == |buf| || buf[p].kind != OperatorKind(level)
    ensures CatBinary(buf, pos, level) == Ok(Parsed(a, p))
  {
  }

  /** A product read back to front: its right operand is a value, then comes
      the operator and then the rest of the term. */
  lemma ProductCase(buf: seq<Token>, pos: nat, op: Token, l: SyntaxNode, r: SyntaxNode, p: nat, q: nat)
    requires pos < p < |buf| && buf[p] == op && op.kind == Multiplicative
    requires Value(buf, pos) == Ok(Parsed(r, p))
    requires Term(buf, p + 1) == Ok(Parsed(l, q))
    requires p == pos + 1 || buf[pos + 1].kind != Multiplicative
    ensures Term(buf, pos) == Ok(Parsed(Binary(op, l, r), q))
  {
    if p == pos + 1 {
      AheadStep(buf, pos, Product, r, p, l, q);
    } else {
      OperandStep(buf, pos, Product, r, p, l, q);
    }
  }

  /** A sum read back to front: its right operand is a term (a value when it
      is one token long), then comes the operator and then the rest of the
      expression. */
  lemma SumCase(buf: seq<Token>, pos: nat, op: Token, l: SyntaxNode, r: SyntaxNode, p: nat, q: nat)
    requires pos < p < |buf| && buf[p] == op && op.kind == Additive
    requires if p == pos + 1 then Value(buf, pos) == Ok(Parsed(r, p)) else Term(buf, pos) == Ok(Parsed(r, p))
    requires Expr(buf, p + 1) == Ok(Parsed(l, q))
    requires p == pos + 1 || buf[pos + 1].kind != Additive
    ensures Expr(buf, pos) == Ok(Parsed(Binary(op, l, r), q))
  {
    if p == pos + 1 {
      AheadStep(buf, pos, Sum, r, p, l, q);
    } else {
      OperandStep(buf, pos, Sum, r, p, l, q);
    }
  }

  /** A term that is not a product is the value it prints as. */
  lemma LoneTerm(buf: seq<Token>, pos: nat, t: SyntaxNode, p: nat)
    requires pos < p <= |buf| && Value(buf, pos) == Ok(Parsed(t, p))
    requires p == pos + 1 || buf[pos + 1].kind != Multiplicative
    requires p == |buf| || buf[p].kind != Multiplicative
    ensures Term(buf, pos) == Ok(Parsed(t, p))
  {
    LoneOperandStep(buf, pos, Product, t, p);
  }

  /** An expression that is not a sum is the term it prints as. */
  lemma LoneExpr(buf: seq<Token>, pos: nat, t: SyntaxNode, p: nat)
    requires pos < p <= |buf| && Term(buf, pos) == Ok(Parsed(t, p))
    requires p == pos + 1 || buf[pos + 1].kind != Additive
    requires p == |buf| || buf[p].kind != Additive
    ensures Expr(buf, pos) == Ok(Parsed(t, p))
  {
    LoneOperandStep(buf, pos, Sum, t, p);
  }

  /** The second token read of a written expression of at least two
      tokens that binds at least as strongly as a term. */
  lemma SecondRead(e: Source, buf: seq<Token>, pos: nat)
    requires Grammatical(e) && Strength(e) >= 1 && ReversedAt(buf, pos, Print(e))
    requires |Print(e)| > 1
    ensures pos + 1 < |buf| && buf[pos + 1].kind != Additive
    ensures Strength(e) == 2 ==> buf[pos + 1].kind != Multiplicative
  {
    PrintEnds(e);
    ReversedAtSecond(buf, pos, Print(e));
  }

  // The round trip proper, by mutual recursion on the written expression:
  // `Value` goes into a parenthesised expression, `Expr` falls back on `Term`
  // and `Term` on `Value` for the same expression (the second component of
  // `decreases`), and the operator cases recurse on the operands.

  /** `parse_value` reads back a number or a parenthesised expression written
      anywhere in the buffer; `end` is where it ends. */
  lemma {:induction false} ValueRoundTrip(e: Source, buf: seq<Token>, pos: nat, end: nat)
    requires Grammatical(e) && Strength(e) == 2
    requires ReversedAt(buf, pos, Print(e)) && end == pos + |Print(e)|
    ensures Value(buf, pos) == Ok(Parsed(Tree(e), end))
    decreases e, 0
  {
    if e.Lit? {
      ValueLeafStep(buf, pos);
    } else {
      var inner := e.inner;
      ReversedAtWrap(buf, pos, Print(inner));
      var q := pos + 1 + |Print(inner)|;
      ExprRoundTrip(inner, buf, pos + 1, q);
      ValueParenStep(buf, pos, Tree(inner), q);
    }
  }

  /** `parse_term` reads back a written term followed by anything but
      "*"/"/". */
  lemma {:induction false} TermRoundTrip(e: Source, buf: seq<Token>, pos: nat, end: nat)
    requires Grammatical(e) && Strength(e) >= 1
    requires ReversedAt(buf, pos, Print(e)) && end == pos + |Print(e)|
    requires end == |buf| || (end < |buf| && buf[end].kind != Multiplicative)
    ensures Term(buf, pos) == Ok(Parsed(Tree(e), end))
    decreases e, 1
  {
    if e.Infix? {
      ProductRoundTrip(e, buf, pos, end);
    } else {
      ValueRoundTrip(e, buf, pos, end);
      if |Print(e)| > 1 {
        SecondRead(e, buf, pos);
      }
      LoneTerm(buf, pos, Tree(e), end);
    }
  }

  /** The product case of `TermRoundTrip`. */
  lemma {:induction false} ProductRoundTrip(e: Source, buf: seq<Token>, pos: nat, end: nat)
    requires Grammatical(e) && e.Infix? && e.op.kind == Multiplicative
    requires ReversedAt(buf, pos, Print(e)) && end == pos + |Print(e)|
    requires end == |buf| || (end < |buf| && buf[end].kind != Multiplicative)
    ensures Term(buf, pos) == Ok(Parsed(Tree(e), end))
    decreases e, 0
  {
    var l, op, r := e.left, e.op, e.right;
    ReversedAtSplit(buf, pos, Print(l), op, Print(r));
    var p := pos + |Print(r)|;
    ValueRoundTrip(r, buf, pos, p);
    TermRoundTrip(l, buf, p + 1, end);
    if |Print(r)| > 1 {
      SecondRead(r, buf, pos);
    }
    ProductCase(buf, pos, op, Tree(l), Tree(r), p, end);
  }

  /** `parse_expr` reads back a written expression followed by anything but
      an operator. */
  lemma {:induction false} ExprRoundTrip(e: Source, buf: seq<Token>, pos: nat, end: nat)
    requires Grammatical(e)
    requires ReversedAt(buf, pos, Print(e)) && end == pos + |Print(e)|
    requires end == |buf| || (end < |buf| && buf[end].kind != Additive && buf[end].kind != Multiplicative)
    ensures Expr(buf, pos) == Ok(Parsed(Tree(e), end))
    decreases e, 2
  {
    if e.Infix? && e.op.kind == Additive {
      SumRoundTrip(e, buf, pos, end);
    } else {
      TermRoundTrip(e, buf, pos, end);
      if |Print(e)| > 1 {
        SecondRead(e, buf, pos);
      }
      LoneExpr(buf, pos, Tree(e), end);
    }
  }

  /** The sum case of `ExprRoundTrip`. */
  lemma {:induction false} SumRoundTrip(e: Source, buf: seq<Token>, pos: nat, end: nat)
    requires Grammatical(e) && e.Infix? && e.op.kind == Additive
    requires ReversedAt(buf, pos, Print(e)) && end == pos + |Print(e)|
    requires end == |buf| || (end < |buf| && buf[end].kind != Additive && buf[end].kind != Multiplicative)
    ensures Expr(buf, pos) == Ok(Parsed(Tree(e), end))
    decreases e, 0
  {
    var l, op, r := e.left, e.op, e.right;
    ReversedAtSplit(buf, pos, Print(l), op, Print(r));
    var p := pos + |Print(r)|;
    ExprRoundTrip(l, buf, p + 1, end);
    SumOperand(r, buf, pos, p);
    SumCase(buf, pos, op, Tree(l), Tree(r), p, end);
  }

  /** The right operand of a sum, followed by its operator. */
  lemma {:induction false} SumOperand(r: Source, buf: seq<Token>, pos: nat, p: nat)
    requires Grammatical(r) && Strength(r) >= 1
    requires ReversedAt(buf, pos, Print(r)) && p == pos + |Print(r)|
    requires p < |buf| && buf[p].kind == Additive
    ensures if p == pos + 1 then Value(buf, pos) == Ok(Parsed(Tree(r), p)) else Term(buf, pos) == Ok(Parsed(Tree(r), p))
    ensures p == pos + 1 || buf[pos + 1].kind != Additive
    decreases r, 3
  {
    if |Print(r)| == 1 {
      PrintEnds(r);
      ValueRoundTrip(r, buf, pos, p);
    } else {
      SecondRead(r, buf, pos);
      TermRoundTrip(r, buf, pos, p);
    }
  }

  /** The source's last token ends an operand: anything but "+"/"-"/"*"/"/"
      (or no token at all). */
  predicate EndsOperand(pre: seq<Token>) {
    pre == [] || (pre[|pre| - 1].kind != Additive && pre[|pre| - 1].kind != Multiplicative)
  }

  /** On the token level: the descent over the reversed token list reads a
      written expression back as the tree it stands for, and stops after
      it. Whatever comes before it in the source is never looked at, as long
      as it does not end with an operator; with nothing before it this is
      the round trip. */
  lemma ReadsBack(e: Source, pre: seq<Token>)
    requires Grammatical(e) && EndsOperand(pre)
    ensures Expr(Reverse(pre + Print(e)), 0) == Ok(Parsed(Tree(e), |Print(e)|))
    ensures ParseAt(Reverse(pre + Print(e)), 0) == Ok(Some(Tree(e)))
  {
    var u := Print(e);
    var buf := Reverse(pre + u);
    assert buf[0..|u|] == Reverse(u);
    ReversedAtOfSlice(buf, 0, u);
    if pre != [] {
      assert buf[|u|] == pre[|pre| - 1];
    }
    ExprRoundTrip(e, buf, 0, |u|);
  }
}
