/** What the recursive descent of actual_parser.py:98-189 computes, as
    functions of the token buffer and the cursor. The buffer is the token list
    REVERSED, as `Parser.__init__` stores it, so the descent reads the input
    from its last token to its first and swaps each operator's children back
    into source order. The class Parser (module Parsing) is proved to follow
    these functions step by step. */
module Descent {
  import opened Wrappers
  import opened Tokens
  import opened Syntax
  import opened Lexer

  /** `s` back to front. */
  function Reverse<T>(s: seq<T>): seq<T> {
    seq(|s|, i requires 0 <= i < |s| => s[|s| - 1 - i])
  }

  /** A subtree and the cursor position after it. */
  datatype Parsed = Parsed(node: SyntaxNode, next: nat)

  /** The two binary levels of `_parse_cat_binary`: sums over terms ("S") and
      products over values ("M"). */
  datatype Level = Sum | Product

  function OperatorKind(level: Level): Kind {
    if level == Sum then Additive else Multiplicative
  }

  /** `consume_if` (actual_parser.py:131-139): reading past the end is an
      IndexError, a token of another type an ExprSyntaxError. */
  function ConsumeIf(buf: seq<Token>, pos: nat, kind: Kind): (r: Result<(Token, nat), Error>)
    ensures r.Ok? <==> pos < |buf| && buf[pos].kind == kind
    ensures r.Ok? ==> r.value == (buf[pos], pos + 1)
    ensures r.Err? ==> r.error == if pos >= |buf| then IndexError else ExprSyntaxError
  {
    if pos >= |buf| then Err(IndexError)
    else if buf[pos].kind != kind then Err(ExprSyntaxError)
    else Ok((buf[pos], pos + 1))
  }

  /** `parse_value` (actual_parser.py:159-169). In the reversed buffer a
      parenthesised expression starts with ")" and ends with "(". */
  function Value(buf: seq<Token>, pos: nat): (r: Result<Parsed, Error>)
    requires pos <= |buf|
    ensures r.Ok? ==> pos < r.value.next <= |buf|
    decreases |buf| - pos, 1
  {
    if pos == |buf| then
      Err(IndexError)
    else if buf[pos].kind == Close then
      // consume_if(")") succeeds here: the current token is ")"
      var inner :- Expr(buf, pos + 1);
      var (_, afterOpen) :- ConsumeIf(buf, inner.next, Open);
      Ok(Parsed(inner.node, afterOpen))
    else
      var (tok, next) :- ConsumeIf(buf, pos, Number);
      Ok(Parsed(Leaf(tok), next))
  }

  /** `_parse_cat_binary` (actual_parser.py:141-157) at `level`; its
      `next_parse_func` is `parse_term` for sums and `parse_value` for
      products. When the token one ahead is an operator of this level the
      operand is read with `parse_value`, whatever the level. */
  function CatBinary(buf: seq<Token>, pos: nat, level: Level): (r: Result<Parsed, Error>)
    requires pos <= |buf|
    ensures r.Ok? ==> pos < r.value.next <= |buf|
    decreases |buf| - pos, if level == Sum then 4 else 2
  {
    var kind := OperatorKind(level);
    if pos + 1 < |buf| && buf[pos + 1].kind == kind then
      var first :- Value(buf, pos);
      var (op, afterOp) :- ConsumeIf(buf, first.next, kind);
      var second :- CatBinary(buf, afterOp, level);
      Ok(Parsed(Binary(op, second.node, first.node), second.next))
    else
      var first :- if level == Sum then Term(buf, pos) else Value(buf, pos);
      if first.next < |buf| && buf[first.next].kind == kind then
        // consume_if succeeds here: the current token has the operator's type
        var second :- CatBinary(buf, first.next + 1, level);
        Ok(Parsed(Binary(buf[first.next], second.node, first.node), second.next))
      else
        Ok(first)
  }

  /** `parse_term` (actual_parser.py:171-175). */
  function Term(buf: seq<Token>, pos: nat): (r: Result<Parsed, Error>)
    requires pos <= |buf|
    ensures r.Ok? ==> pos < r.value.next <= |buf|
    decreases |buf| - pos, 3
  {
    CatBinary(buf, pos, Product)
  }

  /** `parse_expr` (actual_parser.py:177-181). */
  function Expr(buf: seq<Token>, pos: nat): (r: Result<Parsed, Error>)
    requires pos <= |buf|
    ensures r.Ok? ==> pos < r.value.next <= |buf|
    decreases |buf| - pos, 5
  {
    CatBinary(buf, pos, Sum)
  }

  /** `parse` with the cursor at `pos` (actual_parser.py:183-189): no tree for
      an empty buffer, otherwise one expression; tokens the expression did not
      take are not looked at. */
  function ParseAt(buf: seq<Token>, pos: nat): (r: Result<Option<SyntaxNode>, Error>)
    requires pos <= |buf|
    ensures r == Ok(None) <==> |buf| == 0
    ensures |buf| > 0 ==> (r.Ok? <==> Expr(buf, pos).Ok?)
    ensures |buf| > 0 && r.Err? ==> r.error == Expr(buf, pos).error
  {
    if |buf| == 0 then
      Ok(None)
    else
      var p :- Expr(buf, pos);
      Ok(Some(p.node))
  }

  /** `Parser(s).parse()`: tokenize, reverse, parse from the start. */
  function ParseString(s: string): (r: Result<Option<SyntaxNode>, Error>)
    ensures Tokenize(s).Err? ==> r == Err(Tokenize(s).error)
    ensures r == Ok(None) <==> Tokenize(s) == Ok([])
  {
    var ts :- Tokenize(s);
    ParseAt(Reverse(ts), 0)
  }

  /** A subtree the descent returns is well shaped, and well formed when every
      token of the buffer is. */
  predicate Shaped(buf: seq<Token>, r: Result<Parsed, Error>) {
    r.Ok? ==> WellShaped(r.value.node) && (AllWellFormed(buf) ==> WellFormed(r.value.node))
  }

  lemma {:induction false} ValueShaped(buf: seq<Token>, pos: nat)
    requires pos <= |buf|
    ensures Shaped(buf, Value(buf, pos))
    decreases |buf| - pos, 1
  {
    if pos < |buf| && buf[pos].kind == Close {
      ExprShaped(buf, pos + 1);
    }
  }

  lemma {:induction false} CatBinaryShaped(buf: seq<Token>, pos: nat, level: Level)
    requires pos <= |buf|
    ensures Shaped(buf, CatBinary(buf, pos, level))
    decreases |buf| - pos, if level == Sum then 4 else 2
  {
    var kind := OperatorKind(level);
    var r := CatBinary(buf, pos, level);
    if r.Ok? {
      var first := if pos + 1 < |buf| && buf[pos + 1].kind == kind then Value(buf, pos)
                   else if level == Sum then Term(buf, pos) else Value(buf, pos);
      if level == Sum && !(pos + 1 < |buf| && buf[pos + 1].kind == kind) {
        TermShaped(buf, pos);
      } else {
        ValueShaped(buf, pos);
      }
      var q := first.value.next;
      if q < |buf| && buf[q].kind == kind {
        CatBinaryShaped(buf, q + 1, level);
        var second := CatBinary(buf, q + 1, level);
        assert r.value.node == Binary(buf[q], second.value.node, first.value.node);
        BinaryShaped(buf, q, second.value.node, first.value.node);
      }
    }
  }

  /** An operator token of the buffer over two subtrees the descent
      returned. */
  lemma BinaryShaped(buf: seq<Token>, q: nat, second: SyntaxNode, first: SyntaxNode)
    requires q < |buf| && buf[q].kind in {Additive, Multiplicative}
    requires WellShaped(second) && WellShaped(first)
    requires AllWellFormed(buf) ==> WellFormed(second) && WellFormed(first)
    ensures WellShaped(Binary(buf[q], second, first))
    ensures AllWellFormed(buf) ==> WellFormed(Binary(buf[q], second, first))
  {
    var n := Binary(buf[q], second, first);
    assert n.children[0] == second && n.children[1] == first;
    if AllWellFormed(buf) {
      assert WellFormedToken(buf[q]);
      assert forall i :: 0 <= i < |n.children| ==> TokensWellFormed(n.children[i]);
    }
  }

  lemma {:induction false} TermShaped(buf: seq<Token>, pos: nat)
    requires pos <= |buf|
    ensures Shaped(buf, Term(buf, pos))
    decreases |buf| - pos, 3
  {
    CatBinaryShaped(buf, pos, Product);
  }

  lemma {:induction false} ExprShaped(buf: seq<Token>, pos: nat)
    requires pos <= |buf|
    ensures Shaped(buf, Expr(buf, pos))
    decreases |buf| - pos, 5
  {
    CatBinaryShaped(buf, pos, Sum);
  }

  /** `Parser(s).parse()` returns a tree whose leaves are numbers and whose
      inner nodes are operators with two children, all tokens as the tokenizer
      writes them. */
  lemma ParseStringWellFormed(s: string)
    ensures ParseString(s).Ok? && ParseString(s).value.Some? ==> WellFormed(ParseString(s).value.value)
  {
    var tr := Tokenize(s);
    if tr.Ok? {
      var ts := tr.value;
      assert AllWellFormed(Reverse(ts)) by {
        assert forall i :: 0 <= i < |ts| ==> Reverse(ts)[i] == ts[|ts| - 1 - i];
      }
      if |ts| > 0 {
        ExprShaped(Reverse(ts), 0);
      }
    }
  }
}
