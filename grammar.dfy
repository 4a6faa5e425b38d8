/** What `Parser(s).parse()` (actual_parser.py:105-111, 183-189) does to
    whole input strings: every grammatical expression, with any redundant
    parentheses and any whitespace, parses to the tree it stands for; the
    input that yields no tree, the leading tokens it drops without a word,
    the inputs it rejects, and a second `parse` on the same parser. */
module Grammar {
  import opened Wrappers
  import opened Tokens
  import opened Syntax
  import opened Lexer
  import opened Descent
  import opened RoundTrip
  import opened Parsing

  /** A printout laid out with whitespace-only gaps. */
  predicate Spaced(gaps: seq<string>, ts: seq<Token>) {
    |gaps| == |ts| + 1 && forall i :: 0 <= i < |gaps| ==> AllSpace(gaps[i])
  }

  /** A written expression laid out with whitespace-only gaps tokenizes
      back to its tokens. */
  lemma LaidOut(e: Source, gaps: seq<string>)
    requires Grammatical(e) && AllWellFormed(Print(e)) && Spaced(gaps, Print(e))
    ensures Tokenize(Layout(Print(e), gaps)) == Ok(Print(e))
  {
    PrintApart(e);
    assert Separates(gaps, Print(e));
    LayoutTokenize(Print(e), gaps);
  }

  /** Every grammatical expression, written with whatever parentheses it
      has and any whitespace around its tokens, parses to the tree it stands
      for: operators of equal strength group to the left, "*"/"/" bind
      tighter than "+"/"-", and parentheses only group. */
  lemma ParseWritten(e: Source, gaps: seq<string>)
    requires Grammatical(e) && AllWellFormed(Print(e)) && Spaced(gaps, Print(e))
    ensures ParseString(Layout(Print(e), gaps)) == Ok(Some(Tree(e)))
  {
    LaidOut(e, gaps);
    assert [] + Print(e) == Print(e);
    ReadsBack(e, []);
  }

  /** Parsing undoes printing: a well-formed tree written with the fewest
      parentheses and any whitespace around its tokens parses back to
      itself. */
  lemma ParseLayout(t: SyntaxNode, gaps: seq<string>)
    requires WellFormed(t) && Spaced(gaps, Unparse(t, 0))
    ensures ParseString(Layout(Unparse(t, 0), gaps)) == Ok(Some(t))
  {
    MinimalSource(t, 0);
    UnparseWellFormed(t, 0);
    ParseWritten(Minimal(t, 0), gaps);
  }

  /** No whitespace at all. */
  function Tight(n: nat): seq<string> {
    seq(n + 1, _ => "")
  }

  lemma {:induction false} TightLayout(ts: seq<Token>)
    ensures Layout(ts, Tight(|ts|)) == Texts(ts)
    decreases |ts|
  {
    if ts != [] {
      assert Tight(|ts|)[1..] == Tight(|ts[1..]|);
      TightLayout(ts[1..]);
    }
  }

  /** A written expression's texts run together parse to its tree. */
  lemma ParseWrittenText(e: Source)
    requires Grammatical(e) && AllWellFormed(Print(e))
    ensures ParseString(Texts(Print(e))) == Ok(Some(Tree(e)))
  {
    TightLayout(Print(e));
    ParseWritten(e, Tight(|Print(e)|));
  }

  /** The printout's texts run together parse back to the tree. */
  lemma ParseSource(t: SyntaxNode)
    requires WellFormed(t)
    ensures ParseString(Texts(Unparse(t, 0))) == Ok(Some(t))
  {
    var u := Unparse(t, 0);
    TightLayout(u);
    ParseLayout(t, Tight(|u|));
  }

  /** Tokens the descent does not reach are dropped without an error: in
      front of a printout, any tokens that do not end with an operator leave
      the result unchanged. */
  lemma ParseDropsPrefix(t: SyntaxNode, pre: seq<Token>, gaps: seq<string>)
    requires WellFormed(t) && AllWellFormed(pre) && EndsOperand(pre)
    requires Separates(gaps, pre + Unparse(t, 0))
    ensures ParseString(Layout(pre + Unparse(t, 0), gaps)) == Ok(Some(t))
  {
    var u := Unparse(t, 0);
    UnparseWellFormed(t, 0);
    assert AllWellFormed(pre + u);
    LayoutTokenize(pre + u, gaps);
    MinimalSource(t, 0);
    ReadsBack(Minimal(t, 0), pre);
  }

  /** `parse` returns None exactly for input that is empty or all
      whitespace. */
  lemma ParseStringNoneIff(s: string)
    ensures ParseString(s) == Ok(None) <==> forall i :: 0 <= i < |s| ==> IsSpace(s[i])
  {
    TokenizeEmptyIff(s);
  }

  /** A value cannot start with anything but a number or ")" (in the reversed
      buffer), and every descent function starts with a value. */
  lemma {:induction false} StartsWithoutOperand(buf: seq<Token>, pos: nat)
    requires pos < |buf| && buf[pos].kind != Number && buf[pos].kind != Close
    ensures Value(buf, pos) == Err(ExprSyntaxError)
    ensures Term(buf, pos) == Err(ExprSyntaxError)
    ensures Expr(buf, pos) == Err(ExprSyntaxError)
  {
    assert Value(buf, pos) == Err(ExprSyntaxError);
    assert CatBinary(buf, pos, Product) == Err(ExprSyntaxError);
  }

  /** Input whose last token is an operator or "(" fails with
      ExprSyntaxError ("1+"). */
  lemma ParseFailsAfterOperator(s: string)
    requires Tokenize(s).Ok? && Tokenize(s).value != []
    requires var ts := Tokenize(s).value; ts[|ts| - 1].kind !in {Number, Close}
    ensures ParseString(s) == Err(ExprSyntaxError)
  {
    var ts := Tokenize(s).value;
    assert Reverse(ts)[0] == ts[|ts| - 1];
    StartsWithoutOperand(Reverse(ts), 0);
  }

  /** At the end of the buffer `current` raises IndexError, and every
      descent function reads the current token first. */
  lemma AtEnd(buf: seq<Token>)
    ensures Value(buf, |buf|) == Err(IndexError)
    ensures Term(buf, |buf|) == Err(IndexError)
    ensures Expr(buf, |buf|) == Err(IndexError)
  {
    assert Value(buf, |buf|) == Err(IndexError);
    assert CatBinary(buf, |buf|, Product) == Err(IndexError);
  }

  /** `parse` twice on one parser: the first call reads the whole input and
      leaves the cursor at the end of the buffer, so the second raises
      IndexError. */
  method ParseAgainFails(e: Source, gaps: seq<string>) returns (first: Result<Option<SyntaxNode>, Error>, second: Result<Option<SyntaxNode>, Error>)
    requires Grammatical(e) && AllWellFormed(Print(e)) && Spaced(gaps, Print(e))
    ensures first == Ok(Some(Tree(e)))
    ensures second == Err(IndexError)
  {
    var u := Print(e);
    LaidOut(e, gaps);
    var created := Parser.Create(Layout(u, gaps));
    var parser := created.value;
    assert [] + u == u;
    ReadsBack(e, []);
    first := parser.Parse();
    AtEnd(parser.Buffer());
    second := parser.Parse();
  }
}
