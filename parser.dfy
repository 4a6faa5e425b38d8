/** The class Parser of actual_parser.py:98-189: the token list, reversed in
    place once, and a cursor that the recursive descent advances. Every method
    is proved to return what the matching function of module Descent computes
    from the buffer and the cursor it started at. */
module Parsing {
  import opened Wrappers
  import opened Tokens
  import opened Syntax
  import opened Lexer
  import opened Descent

  /** A method's outcome next to the function that specifies it: the same
      tree and the cursor just after it, or the same error. Where the cursor
      stands after an error is left open. */
  predicate Agrees(r: Result<SyntaxNode, Error>, pos: nat, spec: Result<Parsed, Error>) {
    match spec
    case Ok(p) => r == Ok(p.node) && pos == p.next
    case Err(e) => r == Err(e)
  }

  /** `list.reverse()`: swaps from both ends towards the middle. */
  method ReverseInPlace(a: array<Token>)
    modifies a
    ensures a[..] == Reverse(old(a[..]))
  {
    ghost var orig := a[..];
    var n := a.Length;
    var i := 0;
    while i < n / 2
      invariant 0 <= i <= n / 2
      invariant forall k :: 0 <= k < i ==> a[k] == orig[n - 1 - k]
      invariant forall k :: n - i <= k < n ==> a[k] == orig[n - 1 - k]
      invariant forall k :: i <= k < n - i ==> a[k] == orig[k]
    {
      a[i], a[n - 1 - i] := a[n - 1 - i], a[i];
      i := i + 1;
    }
  }

  class Parser {
    const tokens: array<Token>
    var pos: nat

    ghost predicate Valid()
      reads this
    {
      pos <= tokens.Length
    }

    /** The tokens as the descent sees them: the input's last token first. */
    function Buffer(): seq<Token>
      reads tokens
    {
      tokens[..]
    }

    /** `__init__` once the tokenizer has produced `ts`: store the list
        reversed and start at its first element. */
    constructor (ts: seq<Token>)
      ensures fresh(tokens) && tokens[..] == Reverse(ts) && pos == 0
    {
      var a := new Token[|ts|](i requires 0 <= i < |ts| => ts[i]);
      ReverseInPlace(a);
      tokens := a;
      pos := 0;
    }

    /** `Parser(s)`: tokenizing fails with the tokenizer's error, otherwise
        the parser holds the reversed token list. */
    static method Create(s: string) returns (r: Result<Parser, Error>)
      ensures r.Err? <==> Tokenize(s).Err?
      ensures r.Err? ==> r.error == Tokenize(s).error
      ensures r.Ok? ==> fresh(r.value) && fresh(r.value.tokens)
      ensures r.Ok? ==> r.value.Buffer() == Reverse(Tokenize(s).value) && r.value.pos == 0
    {
      var tokenizer := new Tokenizer(s);
      var ts := tokenizer.ToList();
      if ts.Err? {
        return Err(ts.error);
      }
      var p := new Parser(ts.value);
      return Ok(p);
    }

    /** `ahead(1)`: the token after the current one, if there is one. */
    function Ahead(): (r: Option<Token>)
      reads this, tokens
      ensures r.Some? <==> pos + 1 < tokens.Length
      ensures r.Some? ==> r.value == tokens[pos + 1]
      ensures r.Some? ==> !HasFinished()
    {
      if pos + 1 < tokens.Length then Some(tokens[pos + 1]) else None
    }

    /** `current`: indexing past the end raises IndexError. */
    function Current(): (r: Result<Token, Error>)
      reads this, tokens
      ensures r.Ok? <==> !HasFinished()
      ensures r.Ok? ==> r.value == tokens[pos]
      ensures r.Err? ==> r.error == IndexError
    {
      if pos < tokens.Length then Ok(tokens[pos]) else Err(IndexError)
    }

    function HasFinished(): bool
      reads this
    {
      pos >= tokens.Length
    }

    /** `consume_if`: take the current token if it has type `kind`; on an
        error the cursor does not move. */
    method ConsumeIf(kind: Kind) returns (r: Result<Token, Error>)
      requires Valid()
      modifies this`pos
      ensures Valid()
      ensures r.Ok? ==> pos == old(pos) + 1 && r.value.kind == kind && r.value == tokens[old(pos)]
      ensures r.Err? ==> pos == old(pos)
      ensures match Descent.ConsumeIf(Buffer(), old(pos), kind)
              case Ok((t, next)) => r == Ok(t) && pos == next
              case Err(e) => r == Err(e)
    {
      var curr :- Current();
      if curr.kind != kind {
        return Err(ExprSyntaxError);
      }
      pos := pos + 1;
      return Ok(curr);
    }

    /** `_parse_cat_binary` at `level`. */
    method ParseCatBinary(level: Level) returns (r: Result<SyntaxNode, Error>)
      requires Valid()
      modifies this`pos
      ensures Valid()
      ensures Agrees(r, pos, CatBinary(Buffer(), old(pos), level))
      decreases tokens.Length - pos, if level == Sum then 4 else 2
    {
      var kind := OperatorKind(level);
      var ahead := Ahead();
      if ahead.Some? && ahead.value.kind == kind {
        var first :- ParseValue();
        var op :- ConsumeIf(kind);
        var second :- ParseCatBinary(level);
        return Ok(Binary(op, second, first));
      }
      var first;
      if level == Sum {
        first :- ParseTerm();
      } else {
        first :- ParseValue();
      }
      if !HasFinished() && tokens[pos].kind == kind {
        // the current token has the operator's type, so consume_if succeeds
        var op := ConsumeIf(kind);
        var second :- ParseCatBinary(level);
        return Ok(Binary(op.value, second, first));
      }
      return Ok(first);
    }

    /** `parse_value`: a number, or ")" expression "(" read back to front. */
    method ParseValue() returns (r: Result<SyntaxNode, Error>)
      requires Valid()
      modifies this`pos
      ensures Valid()
      ensures Agrees(r, pos, Value(Buffer(), old(pos)))
      decreases tokens.Length - pos, 1
    {
      var curr :- Current();
      if curr.kind == Close {
        // the current token is ")", so consume_if succeeds
        var _ := ConsumeIf(Close);
        var node :- ParseExpr();
        var _ :- ConsumeIf(Open);
        return Ok(node);
      }
      var token :- ConsumeIf(Number);
      return Ok(Leaf(token));
    }

    /** `parse_term`. */
    method ParseTerm() returns (r: Result<SyntaxNode, Error>)
      requires Valid()
      modifies this`pos
      ensures Valid()
      ensures Agrees(r, pos, Term(Buffer(), old(pos)))
      decreases tokens.Length - pos, 3
    {
      r := ParseCatBinary(Product);
    }

    /** `parse_expr`. */
    method ParseExpr() returns (r: Result<SyntaxNode, Error>)
      requires Valid()
      modifies this`pos
      ensures Valid()
      ensures Agrees(r, pos, Expr(Buffer(), old(pos)))
      decreases tokens.Length - pos, 5
    {
      r := ParseCatBinary(Sum);
    }

    /** `parse`: no tree when the token list is empty, whatever the cursor;
        otherwise one expression from the cursor on. */
    method Parse() returns (r: Result<Option<SyntaxNode>, Error>)
      requires Valid()
      modifies this`pos
      ensures Valid()
      ensures r == ParseAt(Buffer(), old(pos))
      ensures tokens.Length == 0 ==> pos == old(pos)
      ensures tokens.Length > 0 && Expr(Buffer(), old(pos)).Ok? ==> pos == Expr(Buffer(), old(pos)).value.next
    {
      if tokens.Length == 0 {
        return Ok(None);
      }
      var node :- ParseExpr();
      return Ok(Some(node));
    }
  }

  /** `Parser(s).parse()`, the way the calculator front end calls it. */
  method ParseText(s: string) returns (r: Result<Option<SyntaxNode>, Error>)
    ensures r == ParseString(s)
  {
    var parser :- Parser.Create(s);
    r := parser.Parse();
  }
}
