/** Characters, tokens and the syntax errors of the calculator's front end
    (actual_parser.py:9-29). */
module Tokens {

  /** The token types: "N", "S", "M", "(" and ")". */
  datatype Kind = Number | Additive | Multiplicative | Open | Close

  /** A token keeps its type and the characters it was read from. */
  datatype Token = Token(kind: Kind, text: string)

  /** The exceptions the tokenizer and the parser raise. `UnexpectedChar` is a
      subclass of `ExprSyntaxError` in the source; `IndexError` is what reading
      the current token past the end of the buffer raises. */
  datatype Error = UnexpectedChar | ExprSyntaxError | IndexError

  /** Whether catching `ExprSyntaxError` catches this error. */
  predicate IsExprSyntaxError(e: Error) {
    e.UnexpectedChar? || e.ExprSyntaxError?
  }

  predicate IsDigit(c: char) {
    '0' <= c <= '9'
  }

  /** A character that may belong to a number: a digit or a dot. */
  predicate IsNumberChar(c: char) {
    IsDigit(c) || c == '.'
  }

  /** The characters that form a token on their own. */
  predicate IsCharToken(c: char) {
    c in "+-*/()"
  }

  /** The ASCII characters for which `str.isspace` holds. */
  predicate IsSpace(c: char) {
    c == ' ' || '\t' <= c <= '\r' || '\U{1C}' <= c <= '\U{1F}'
  }

  /** A character the tokenizer does not reject. */
  predicate Allowed(c: char) {
    IsNumberChar(c) || IsCharToken(c) || IsSpace(c)
  }

  /** The type of the token a one-character token is given. */
  function CharKind(c: char): (k: Kind)
    requires IsCharToken(c)
    ensures k == Additive <==> c == '+' || c == '-'
    ensures k == Multiplicative <==> c == '*' || c == '/'
    ensures k == Open <==> c == '('
    ensures k == Close <==> c == ')'
  {
    if c == '(' then Open
    else if c == ')' then Close
    else if c == '+' || c == '-' then Additive
    else Multiplicative
  }

  /** What the tokenizer can produce: a non-empty run of digits and dots for a
      number, one operator or parenthesis character of the right type
      otherwise. */
  predicate WellFormedToken(t: Token) {
    match t.kind
    case Number => |t.text| > 0 && forall i :: 0 <= i < |t.text| ==> IsNumberChar(t.text[i])
    case Additive => t.text == "+" || t.text == "-"
    case Multiplicative => t.text == "*" || t.text == "/"
    case Open => t.text == "("
    case Close => t.text == ")"
  }

  predicate AllWellFormed(ts: seq<Token>) {
    forall i :: 0 <= i < |ts| ==> WellFormedToken(ts[i])
  }
}
