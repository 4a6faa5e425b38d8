/** The syntax tree the parser builds and the interpreter walks
    (actual_parser.py:29), and the printer that writes a tree back as tokens. */
module Syntax {
  import opened Tokens

  /** A node keeps the token it was built from and its children in order. */
  datatype SyntaxNode = SyntaxNode(token: Token, children: seq<SyntaxNode>)

  function Leaf(t: Token): SyntaxNode {
    SyntaxNode(t, [])
  }

  /** An operator node; the left operand comes first. */
  function Binary(op: Token, left: SyntaxNode, right: SyntaxNode): SyntaxNode {
    SyntaxNode(op, [left, right])
  }

  /** Every node is a number leaf without children or an operator node of
      type "S" or "M" with exactly two children. */
  predicate WellShaped(n: SyntaxNode) {
    if n.children == [] then
      n.token.kind == Number
    else
      && (n.token.kind == Additive || n.token.kind == Multiplicative)
      && |n.children| == 2
      && WellShaped(n.children[0])
      && WellShaped(n.children[1])
  }

  /** Every token of the tree is one the tokenizer could have produced. */
  predicate TokensWellFormed(n: SyntaxNode) {
    && WellFormedToken(n.token)
    && forall i :: 0 <= i < |n.children| ==> TokensWellFormed(n.children[i])
  }

  /** A tree the parser can build from tokenizer output. */
  predicate WellFormed(n: SyntaxNode) {
    WellShaped(n) && TokensWellFormed(n)
  }

  const OpenToken := Token(Open, "(")
  const CloseToken := Token(Close, ")")

  /** Binding strength: 0 for "+"/"-", 1 for "*"/"/", 2 for a number. */
  function Prec(k: Kind): nat {
    match k
    case Additive => 0
    case Multiplicative => 1
    case _ => 2
  }

  /** The tokens of `t` written in a context that needs binding strength at
      least `ctx` (0: an expression, 1: a term, 2: a value), with the fewest
      parentheses: a left operand at its operator's own strength and a right
      operand one stronger, so that equal operators group to the left. */
  function Unparse(t: SyntaxNode, ctx: nat): seq<Token>
    requires WellShaped(t) && ctx <= 2
    decreases t, ctx
  {
    if t.children == [] then
      [t.token]
    else if Prec(t.token.kind) < ctx then
      [OpenToken] + Unparse(t, 0) + [CloseToken]
    else
      var p := Prec(t.token.kind);
      Unparse(t.children[0], p) + [t.token] + Unparse(t.children[1], p + 1)
  }

  /** An expression as it is written: a number, a parenthesised expression
      or an operator between two operands, with every pair of parentheses
      kept, redundant ones included. */
  datatype Source = Lit(token: Token) | Group(inner: Source) | Infix(op: Token, left: Source, right: Source)

  /** The tokens of a written expression, in order. */
  function Print(e: Source): (ts: seq<Token>)
    ensures ts != []
  {
    match e
    case Lit(tok) => [tok]
    case Group(inner) => [OpenToken] + Print(inner) + [CloseToken]
    case Infix(op, l, r) => Print(l) + [op] + Print(r)
  }

  /** How strongly a written expression binds: an operator application as
      strongly as its operator, a number or a parenthesised expression most
      strongly. */
  function Strength(e: Source): nat {
    if e.Infix? then Prec(e.op.kind) else 2
  }

  /** The expressions the grammar derives: numbers are "N" tokens, operators
      "S" or "M" tokens, the left operand of an operator binds at least as
      strongly as the operator and the right operand more strongly (or is
      parenthesised). */
  predicate Grammatical(e: Source) {
    match e
    case Lit(tok) => tok.kind == Number
    case Group(inner) => Grammatical(inner)
    case Infix(op, l, r) =>
      && (op.kind == Additive || op.kind == Multiplicative)
      && Strength(l) >= Prec(op.kind)
      && Strength(r) >= Prec(op.kind) + 1
      && Grammatical(l)
      && Grammatical(r)
  }

  /** The syntax tree a written expression stands for: parentheses only
      group, they leave no node. */
  function Tree(e: Source): SyntaxNode {
    match e
    case Lit(tok) => Leaf(tok)
    case Group(inner) => Tree(inner)
    case Infix(op, l, r) => Binary(op, Tree(l), Tree(r))
  }

  /** The written form `Unparse` chooses: parentheses exactly where the
      context binds more strongly than the operator. */
  function Minimal(t: SyntaxNode, ctx: nat): Source
    requires WellShaped(t) && ctx <= 2
    decreases t, ctx
  {
    if t.children == [] then
      Lit(t.token)
    else if Prec(t.token.kind) < ctx then
      Group(Minimal(t, 0))
    else
      var p := Prec(t.token.kind);
      Infix(t.token, Minimal(t.children[0], p), Minimal(t.children[1], p + 1))
  }

  /** The printer's output is a grammatical expression, binding as strongly
      as its context needs, that stands for the tree it printed. */
  lemma {:induction false} MinimalSource(t: SyntaxNode, ctx: nat)
    requires WellShaped(t) && ctx <= 2
    ensures var e := Minimal(t, ctx);
      && Grammatical(e) && Strength(e) >= ctx
      && Print(e) == Unparse(t, ctx) && Tree(e) == t
    decreases t, ctx
  {
    if t.children == [] {
    } else if Prec(t.token.kind) < ctx {
      MinimalSource(t, 0);
    } else {
      var p := Prec(t.token.kind);
      MinimalSource(t.children[0], p);
      MinimalSource(t.children[1], p + 1);
      assert t.children == [t.children[0], t.children[1]];
    }
  }

  /** The ends of a printout: at least one token; it starts with a number
      or "(" and ends with a number or ")"; the token before the last one is
      never "+"/"-" in a term and never an operator in a value. */
  predicate Ends(ts: seq<Token>, ctx: nat) {
    && |ts| >= 1
    && (ts[0].kind == Number || ts[0].kind == Open)
    && (ts[|ts| - 1].kind == Number || ts[|ts| - 1].kind == Close)
    && (ctx == 2 && |ts| > 1 ==> ts[|ts| - 2].kind == Number || ts[|ts| - 2].kind == Close)
    && (ctx >= 1 && |ts| > 1 ==> ts[|ts| - 2].kind != Additive)
  }

  /** The printout of a leaf is its one token; any other printout has more. */
  lemma {:induction false} UnparseEnds(t: SyntaxNode, ctx: nat)
    requires WellShaped(t) && ctx <= 2
    ensures var ts := Unparse(t, ctx);
      && Ends(ts, ctx) && (|ts| == 1 <==> t.children == [])
    decreases t, ctx
  {
    if t.children == [] {
    } else if Prec(t.token.kind) < ctx {
      UnparseEnds(t, 0);
      ParenEnds(Unparse(t, 0), ctx);
    } else {
      var p := Prec(t.token.kind);
      UnparseEnds(t.children[0], p);
      UnparseEnds(t.children[1], p + 1);
      BinaryEnds(Unparse(t.children[0], p), t.token, Unparse(t.children[1], p + 1), ctx);
    }
  }

  lemma ParenEnds(m: seq<Token>, ctx: nat)
    requires Ends(m, 0)
    ensures Ends([OpenToken] + m + [CloseToken], ctx)
  {
    var ts := [OpenToken] + m + [CloseToken];
    assert ts[0] == OpenToken && ts[|ts| - 1] == CloseToken && ts[|ts| - 2] == m[|m| - 1];
  }

  lemma BinaryEnds(a: seq<Token>, op: Token, b: seq<Token>, ctx: nat)
    requires op.kind == Additive || op.kind == Multiplicative
    requires ctx <= Prec(op.kind)
    requires Ends(a, Prec(op.kind)) && Ends(b, Prec(op.kind) + 1)
    ensures Ends(a + [op] + b, ctx) && |a + [op] + b| > 1
  {
    var ts := a + [op] + b;
    assert ts[0] == a[0] && ts[|ts| - 1] == b[|b| - 1];
    assert ts[|ts| - 2] == if |b| > 1 then b[|b| - 2] else op;
  }

  /** A written expression has the ends of a printout at its own strength,
      and only a number is one token long. */
  lemma {:induction false} PrintEnds(e: Source)
    requires Grammatical(e)
    ensures Ends(Print(e), Strength(e)) && (|Print(e)| == 1 <==> e.Lit?)
  {
    match e
    case Lit(_) =>
    case Group(inner) =>
      PrintEnds(inner);
      ParenEnds(Print(inner), 2);
    case Infix(op, l, r) =>
      PrintEnds(l);
      PrintEnds(r);
      BinaryEnds(Print(l), op, Print(r), Prec(op.kind));
  }

  /** No two numbers stand next to each other in a written expression. */
  lemma {:induction false} PrintApart(e: Source)
    requires Grammatical(e)
    ensures Apart(Print(e))
  {
    match e
    case Lit(_) =>
    case Group(inner) =>
      PrintApart(inner);
      ApartJoin([], OpenToken, Print(inner));
      assert [] + [OpenToken] + Print(inner) == [OpenToken] + Print(inner);
      ApartJoin([OpenToken] + Print(inner), CloseToken, []);
      assert [OpenToken] + Print(inner) + [CloseToken] + [] == Print(e);
    case Infix(op, l, r) =>
      PrintApart(l);
      PrintApart(r);
      ApartJoin(Print(l), op, Print(r));
  }

  /** The printout of a well-formed tree is tokenizer output. */
  lemma {:induction false} UnparseWellFormed(t: SyntaxNode, ctx: nat)
    requires WellFormed(t) && ctx <= 2
    ensures AllWellFormed(Unparse(t, ctx))
    decreases t, ctx
  {
    if t.children == [] {
    } else if Prec(t.token.kind) < ctx {
      UnparseWellFormed(t, 0);
    } else {
      var p := Prec(t.token.kind);
      assert TokensWellFormed(t.children[0]) && TokensWellFormed(t.children[1]);
      UnparseWellFormed(t.children[0], p);
      UnparseWellFormed(t.children[1], p + 1);
    }
  }

  /** No two numbers stand next to each other. */
  predicate Apart(ts: seq<Token>) {
    forall i :: 0 <= i < |ts| - 1 ==> ts[i].kind != Number || ts[i + 1].kind != Number
  }

  lemma ApartJoin(a: seq<Token>, x: Token, b: seq<Token>)
    requires Apart(a) && Apart(b) && x.kind != Number
    ensures Apart(a + [x] + b)
  {
    var ts := a + [x] + b;
    forall i | 0 <= i < |ts| - 1
      ensures ts[i].kind != Number || ts[i + 1].kind != Number
    {
      if i + 1 < |a| {
        assert ts[i] == a[i] && ts[i + 1] == a[i + 1];
      } else if i + 1 == |a| {
        assert ts[i + 1] == x;
      } else if i == |a| {
        assert ts[i] == x;
      } else {
        assert ts[i] == b[i - |a| - 1] && ts[i + 1] == b[i - |a|];
      }
    }
  }

  /** The printer never writes two numbers side by side, so it needs no
      whitespace to keep them apart. */
  lemma {:induction false} UnparseApart(t: SyntaxNode, ctx: nat)
    requires WellShaped(t) && ctx <= 2
    ensures Apart(Unparse(t, ctx))
    decreases t, ctx
  {
    if t.children == [] {
    } else if Prec(t.token.kind) < ctx {
      var inner := Unparse(t, 0);
      UnparseApart(t, 0);
      ApartJoin([], OpenToken, inner);
      assert [] + [OpenToken] + inner == [OpenToken] + inner;
      ApartJoin([OpenToken] + inner, CloseToken, []);
      assert [OpenToken] + inner + [CloseToken] + [] == Unparse(t, ctx);
    } else {
      var p := Prec(t.token.kind);
      UnparseApart(t.children[0], p);
      UnparseApart(t.children[1], p + 1);
      ApartJoin(Unparse(t.children[0], p), t.token, Unparse(t.children[1], p + 1));
    }
  }
}
