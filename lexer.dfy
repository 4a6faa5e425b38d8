/** The tokenizer (actual_parser.py:32-95): a cursor over the input string that
    hands out one token at a time, skipping whitespace. The functions below
    say what one call and a whole run produce; the class Tokenizer is the
    cursor itself and is proved to follow them. */
module Lexer {
  import opened Wrappers
  import opened Tokens

  /** The end of the maximal run of number characters that starts at `i`. */
  function NumberEnd(s: string, i: nat): (e: nat)
    requires i <= |s|
    ensures i <= e <= |s|
    ensures forall k :: i <= k < e ==> IsNumberChar(s[k])
    ensures e == |s| || !IsNumberChar(s[e])
    decreases |s| - i
  {
    if i < |s| && IsNumberChar(s[i]) then NumberEnd(s, i + 1) else i
  }

  /** The answer of one `next_token` call together with the cursor it leaves. */
  datatype Scan = Scan(result: Result<Option<Token>, Error>, next: nat)

  /** `t` was read from `s` so that the cursor moved from `pos` to `next`: only
      whitespace was skipped before its text, and a number took every number
      character there was. */
  predicate TokenAt(s: string, pos: nat, t: Token, next: nat)
    requires pos <= next <= |s|
  {
    && WellFormedToken(t)
    && pos + |t.text| <= next
    && t.text == s[next - |t.text|..next]
    && (forall i :: pos <= i < next - |t.text| ==> IsSpace(s[i]))
    && (t.kind == Number ==> next == |s| || !IsNumberChar(s[next]))
  }

  /** One call of `next_token` with the cursor at `pos` (actual_parser.py:70-95). */
  function NextTokenAt(s: string, pos: nat): (r: Scan)
    requires pos <= |s|
    ensures pos <= r.next <= |s|
    decreases |s| - pos
  {
    if pos == |s| then Scan(Ok(None), pos)
    else if IsNumberChar(s[pos]) then
      var e := NumberEnd(s, pos);
      Scan(Ok(Some(Token(Number, s[pos..e]))), e)
    else if IsCharToken(s[pos]) then
      Scan(Ok(Some(Token(CharKind(s[pos]), [s[pos]]))), pos + 1)
    else if IsSpace(s[pos]) then
      NextTokenAt(s, pos + 1)
    else
      Scan(Err(UnexpectedChar), pos)
  }

  /** What one call of `next_token` promises: it answers None exactly when
      only whitespace is left, fails with UnexpectedChar on the first
      character it cannot place, and otherwise returns a well-formed token
      read right after some whitespace. */
  lemma NextTokenAtSpec(s: string, pos: nat)
    requires pos <= |s|
    ensures var r := NextTokenAt(s, pos);
      && (forall i :: pos <= i < r.next ==> Allowed(s[i]))
      && (r.result == Ok(None) <==> forall i :: pos <= i < |s| ==> IsSpace(s[i]))
      && (r.result == Ok(None) ==> r.next == |s|)
      && (r.result.Err? ==>
            && r.result.error == UnexpectedChar
            && r.next < |s| && !Allowed(s[r.next])
            && forall i :: pos <= i < r.next ==> IsSpace(s[i]))
      && (r.result.Ok? && r.result.value.Some? ==> TokenAt(s, pos, r.result.value.value, r.next))
  {
    NextTokenAtEnds(s, pos);
    NextTokenAtToken(s, pos);
  }

  lemma {:induction false} NextTokenAtEnds(s: string, pos: nat)
    requires pos <= |s|
    ensures var r := NextTokenAt(s, pos);
      && (r.result == Ok(None) <==> forall i :: pos <= i < |s| ==> IsSpace(s[i]))
      && (r.result == Ok(None) ==> r.next == |s|)
      && (r.result.Err? ==>
            && r.result.error == UnexpectedChar
            && r.next < |s| && !Allowed(s[r.next])
            && forall i :: pos <= i < r.next ==> IsSpace(s[i]))
    decreases |s| - pos
  {
    if pos < |s| && !IsNumberChar(s[pos]) && !IsCharToken(s[pos]) && IsSpace(s[pos]) {
      NextTokenAtEnds(s, pos + 1);
    }
  }

  lemma {:induction false} NextTokenAtToken(s: string, pos: nat)
    requires pos <= |s|
    ensures var r := NextTokenAt(s, pos);
      && (forall i :: pos <= i < r.next ==> Allowed(s[i]))
      && (r.result.Ok? && r.result.value.Some? ==> TokenAt(s, pos, r.result.value.value, r.next))
    decreases |s| - pos
  {
    if pos == |s| {
    } else if IsNumberChar(s[pos]) {
      NumberTokenAt(s, pos);
    } else if IsCharToken(s[pos]) {
    } else if IsSpace(s[pos]) {
      NextTokenAtToken(s, pos + 1);
    }
  }

  /** A number token is the longest run of number characters. */
  lemma NumberTokenAt(s: string, pos: nat)
    requires pos < |s| && IsNumberChar(s[pos])
    ensures var e := NumberEnd(s, pos);
      && (forall i :: pos <= i < e ==> Allowed(s[i]))
      && TokenAt(s, pos, Token(Number, s[pos..e]), e)
  {
    var e := NumberEnd(s, pos);
    assert s[pos..e] == s[e - (e - pos)..e];
  }

  /** Iterating the tokenizer from `pos` until `next_token` answers None; an
      exception ends the whole run. */
  function TokensFrom(s: string, pos: nat): (r: Result<seq<Token>, Error>)
    requires pos <= |s|
    ensures r.Ok? ==> AllWellFormed(r.value)
    decreases |s| - pos
  {
    NextTokenAtSpec(s, pos);
    var scan := NextTokenAt(s, pos);
    match scan.result
    case Err(e) => Err(e)
    case Ok(None) => Ok([])
    case Ok(Some(t)) =>
      var rest :- TokensFrom(s, scan.next);
      Ok([t] + rest)
  }

  /** `list(iter(Tokenizer(s)))`: the whole token list of `s`. */
  function Tokenize(s: string): (r: Result<seq<Token>, Error>)
    ensures r.Ok? ==> AllWellFormed(r.value)
    ensures r.Err? ==> r.error == UnexpectedChar
  {
    TokensFromFailsIff(s, 0);
    TokensFrom(s, 0)
  }

  class Tokenizer {
    const s: string
    var pos: nat

    ghost predicate Valid()
      reads this
    {
      pos <= |s|
    }

    constructor (s: string)
      ensures this.s == s && pos == 0
    {
      this.s := s;
      pos := 0;
    }

    /** The character being pointed at. */
    function Current(): char
      reads this
      requires pos < |s|
    {
      s[pos]
    }

    function HasFinished(): bool
      reads this
    {
      pos >= |s|
    }

    method Consume() returns (c: char)
      requires pos < |s|
      modifies this`pos
      ensures c == s[old(pos)] && pos == old(pos) + 1
    {
      c := Current();
      pos := pos + 1;
    }

    /** `__iter__`: iteration always starts over from the beginning. */
    method Restart()
      modifies this`pos
      ensures pos == 0
    {
      pos := 0;
    }

    method NextToken() returns (t: Result<Option<Token>, Error>)
      requires Valid()
      modifies this`pos
      ensures Valid()
      ensures Scan(t, pos) == NextTokenAt(s, old(pos))
      decreases |s| - pos
    {
      if HasFinished() {
        return Ok(None);
      }
      var kind: Kind;
      var chars: string := [];
      if IsNumberChar(Current()) {
        kind := Number;
        ghost var start := pos;
        while !HasFinished() && IsNumberChar(Current())
          invariant start <= pos <= |s|
          invariant chars == s[start..pos]
          invariant forall k :: start <= k < pos ==> IsNumberChar(s[k])
          decreases |s| - pos
        {
          var c := Consume();
          chars := chars + [c];
        }
        ghost var e := NumberEnd(s, start);
        assert pos == e;
      } else if IsCharToken(Current()) {
        kind := CharKind(Current());
        var c := Consume();
        chars := [c];
      } else if IsSpace(Current()) {
        var _ := Consume();
        t := NextToken();
        return;
      } else {
        return Err(UnexpectedChar);
      }
      t := Ok(Some(Token(kind, chars)));
    }

    /** `list(iter(self))`: restart, then collect tokens until there are none
        left; an exception leaves no partial list. */
    method ToList() returns (ts: Result<seq<Token>, Error>)
      modifies this`pos
      ensures ts == Tokenize(s)
      ensures ts.Ok? ==> pos == |s|
    {
      Restart();
      var acc: seq<Token> := [];
      PrependNothing(Tokenize(s));
      while true
        invariant Valid()
        invariant Prepend(acc, TokensFrom(s, pos)) == Tokenize(s)
        decreases |s| - pos
      {
        ghost var before := pos;
        var t := NextToken();
        match t
        case Err(e) =>
          return Err(e);
        case Ok(None) =>
          NextTokenAtSpec(s, before);
          assert acc + [] == acc;
          return Ok(acc);
        case Ok(Some(tok)) =>
          assert TokensFrom(s, before) == Prepend([tok], TokensFrom(s, pos));
          PrependTwice(acc, [tok], TokensFrom(s, pos));
          acc := acc + [tok];
      }
    }
  }

  /** `acc` followed by the tokens of `r`, if `r` has any. */
  function Prepend(acc: seq<Token>, r: Result<seq<Token>, Error>): Result<seq<Token>, Error> {
    match r
    case Ok(ts) => Ok(acc + ts)
    case Err(e) => Err(e)
  }

  lemma PrependNothing(r: Result<seq<Token>, Error>)
    ensures Prepend([], r) == r
  {
    if r.Ok? {
      assert [] + r.value == r.value;
    }
  }

  lemma PrependTwice(a: seq<Token>, b: seq<Token>, r: Result<seq<Token>, Error>)
    ensures Prepend(a, Prepend(b, r)) == Prepend(a + b, r)
  {
    if r.Ok? {
      assert a + (b + r.value) == (a + b) + r.value;
    }
  }

  // ---------------------------------------------------------------------------
  // What a whole run of the tokenizer promises

  /** Tokenizing fails, always with UnexpectedChar, exactly when the input
      holds a character that is not part of a number, not an operator or a
      parenthesis and not whitespace. */
  lemma TokenizeFailsIff(s: string)
    ensures Tokenize(s).Err? <==> exists i :: 0 <= i < |s| && !Allowed(s[i])
    ensures Tokenize(s).Err? ==> Tokenize(s).error == UnexpectedChar
  {
    TokensFromFailsIff(s, 0);
  }

  lemma {:induction false} TokensFromFailsIff(s: string, pos: nat)
    requires pos <= |s|
    ensures TokensFrom(s, pos).Err? <==> exists i :: pos <= i < |s| && !Allowed(s[i])
    ensures TokensFrom(s, pos).Err? ==> TokensFrom(s, pos).error == UnexpectedChar
    decreases |s| - pos
  {
    NextTokenAtSpec(s, pos);
    var scan := NextTokenAt(s, pos);
    if scan.result.Ok? && scan.result.value.Some? {
      TokensFromFailsIff(s, scan.next);
      if exists i :: pos <= i < |s| && !Allowed(s[i]) {
        var i :| pos <= i < |s| && !Allowed(s[i]);
        assert scan.next <= i;
      }
    }
  }

  /** The token list is empty exactly when the input is empty or all whitespace. */
  lemma TokenizeEmptyIff(s: string)
    ensures Tokenize(s) == Ok([]) <==> forall i :: 0 <= i < |s| ==> IsSpace(s[i])
  {
    NextTokenAtSpec(s, 0);
    var scan := NextTokenAt(s, 0);
    if scan.result.Ok? && scan.result.value.Some? {
      match TokensFrom(s, scan.next)
      case Ok(rest) => assert Tokenize(s) == Ok([scan.result.value.value] + rest);
      case Err(_) =>
    }
  }

  /** The input with every whitespace character dropped. */
  function RemoveSpace(s: string): string {
    if s == [] then [] else (if IsSpace(s[0]) then [] else [s[0]]) + RemoveSpace(s[1..])
  }

  /** The texts of the tokens, concatenated in order. */
  function Texts(ts: seq<Token>): string {
    if ts == [] then [] else ts[0].text + Texts(ts[1..])
  }

  lemma {:induction false} RemoveSpaceAppend(a: string, b: string)
    ensures RemoveSpace(a + b) == RemoveSpace(a) + RemoveSpace(b)
  {
    if a == [] {
      assert a + b == b;
    } else {
      assert (a + b)[1..] == a[1..] + b;
      RemoveSpaceAppend(a[1..], b);
    }
  }

  lemma {:induction false} RemoveSpaceOfSpaces(a: string)
    requires forall i :: 0 <= i < |a| ==> IsSpace(a[i])
    ensures RemoveSpace(a) == []
  {
    if a != [] {
      RemoveSpaceOfSpaces(a[1..]);
    }
  }

  lemma {:induction false} RemoveSpaceOfToken(a: string)
    requires forall i :: 0 <= i < |a| ==> !IsSpace(a[i])
    ensures RemoveSpace(a) == a
  {
    if a != [] {
      RemoveSpaceOfToken(a[1..]);
    }
  }

  /** Round trip: on success, the token texts put back together are the input
      without its whitespace. */
  lemma TokenizeTexts(s: string)
    requires Tokenize(s).Ok?
    ensures Texts(Tokenize(s).value) == RemoveSpace(s)
  {
    TokensFromTexts(s, 0);
    assert s[0..] == s;
  }

  lemma {:induction false} TokensFromTexts(s: string, pos: nat)
    requires pos <= |s| && TokensFrom(s, pos).Ok?
    ensures Texts(TokensFrom(s, pos).value) == RemoveSpace(s[pos..])
    decreases |s| - pos
  {
    NextTokenAtSpec(s, pos);
    var scan := NextTokenAt(s, pos);
    if scan.result == Ok(None) {
      RemoveSpaceOfSpaces(s[pos..]);
    } else {
      var t := scan.result.value.value;
      var q := scan.next;
      var rest := TokensFrom(s, q).value;
      assert TokensFrom(s, pos).value == [t] + rest;
      TokensFromTexts(s, q);
      assert ([t] + rest)[1..] == rest;
      TokenTextSplit(s, pos, t, q);
    }
  }

  /** Reading `t` moved the cursor over whitespace and over its text only. */
  lemma TokenTextSplit(s: string, pos: nat, t: Token, q: nat)
    requires pos <= q <= |s| && TokenAt(s, pos, t, q)
    ensures RemoveSpace(s[pos..]) == t.text + RemoveSpace(s[q..])
  {
    var blanks, text, tail := s[pos..q - |t.text|], t.text, s[q..];
    assert s[pos..] == blanks + text + tail;
    assert AllSpace(blanks);
    RemoveSpaceOfSpaces(blanks);
    assert WellFormedToken(t);
    RemoveSpaceOfToken(text);
    RemoveSpaceAppend(blanks, text);
    assert RemoveSpace(blanks + text) == text by {
      assert [] + text == text;
    }
    RemoveSpaceAppend(blanks + text, tail);
  }

  // ---------------------------------------------------------------------------
  // Laying tokens out with whitespace between them

  /** The texts of `ts` with `gaps[i]` written before the i-th token and the
      last gap after them all. */
  function Layout(ts: seq<Token>, gaps: seq<string>): string
    requires |gaps| == |ts| + 1
  {
    if ts == [] then gaps[0] else gaps[0] + ts[0].text + Layout(ts[1..], gaps[1..])
  }

  predicate AllSpace(g: string) {
    forall i :: 0 <= i < |g| ==> IsSpace(g[i])
  }

  /** Whitespace-only gaps, and some whitespace between two adjacent numbers
      (which would otherwise run together into one). */
  predicate Separates(gaps: seq<string>, ts: seq<Token>) {
    && |gaps| == |ts| + 1
    && (forall i :: 0 <= i < |gaps| ==> AllSpace(gaps[i]))
    && forall i :: 0 <= i < |ts| - 1 && ts[i].kind == Number && ts[i + 1].kind == Number ==> gaps[i + 1] != []
  }

  /** Tokenizing undoes laying out: any well-formed token list, written out with
      any separating whitespace, tokenizes back to itself. */
  lemma LayoutTokenize(ts: seq<Token>, gaps: seq<string>)
    requires AllWellFormed(ts) && Separates(gaps, ts)
    ensures Tokenize(Layout(ts, gaps)) == Ok(ts)
  {
    var s := Layout(ts, gaps);
    assert s[0..] == s;
    LayoutTokensFrom(s, 0, ts, gaps);
  }

  lemma {:induction false} SkipSpaces(s: string, p: nat, q: nat)
    requires p <= q <= |s|
    requires forall i :: p <= i < q ==> IsSpace(s[i])
    ensures NextTokenAt(s, p) == NextTokenAt(s, q)
    decreases q - p
  {
    if p < q {
      SkipSpaces(s, p + 1, q);
    }
  }

  lemma {:induction false} LayoutTokensFrom(s: string, p: nat, ts: seq<Token>, gaps: seq<string>)
    requires p <= |s| && AllWellFormed(ts) && Separates(gaps, ts)
    requires s[p..] == Layout(ts, gaps)
    ensures TokensFrom(s, p) == Ok(ts)
    decreases ts
  {
    var q := p + |gaps[0]|;
    LayoutParts(s, p, ts, gaps);
    SkipSpaces(s, p, q);
    if ts != [] {
      var t := ts[0];
      var e := q + |t.text|;
      SeparatesTail(gaps, ts);
      if t.kind == Number {
        LayoutHead(ts[1..], gaps[1..]);
      }
      ScanLaidOut(s, q, t, e);
      LayoutTokensFrom(s, e, ts[1..], gaps[1..]);
      TokensFromStep(s, p, t, e);
      assert ts == [t] + ts[1..];
    }
  }

  lemma LayoutParts(s: string, p: nat, ts: seq<Token>, gaps: seq<string>)
    requires p <= |s| && |gaps| == |ts| + 1 && s[p..] == Layout(ts, gaps)
    ensures p + |gaps[0]| <= |s| && s[p..p + |gaps[0]|] == gaps[0]
    ensures ts == [] ==> p + |gaps[0]| == |s|
    ensures ts != [] ==>
              var q, e := p + |gaps[0]|, p + |gaps[0]| + |ts[0].text|;
              && e <= |s| && s[q..e] == ts[0].text
              && s[e..] == Layout(ts[1..], gaps[1..])
  {
    if ts != [] {
      var g, text, rest := gaps[0], ts[0].text, Layout(ts[1..], gaps[1..]);
      assert s[p..] == g + text + rest;
    }
  }

  lemma TokensFromStep(s: string, p: nat, t: Token, e: nat)
    requires p <= e <= |s| && NextTokenAt(s, p) == Scan(Ok(Some(t)), e)
    ensures TokensFrom(s, p) == Prepend([t], TokensFrom(s, e))
  {
  }

  lemma SeparatesTail(gaps: seq<string>, ts: seq<Token>)
    requires ts != [] && AllWellFormed(ts) && Separates(gaps, ts)
    ensures AllWellFormed(ts[1..]) && Separates(gaps[1..], ts[1..])
    ensures ts[0].kind == Number && gaps[1] == [] ==> ts[1..] == [] || ts[1].kind != Number
  {
    var gs, rs := gaps[1..], ts[1..];
    forall i | 0 <= i < |rs| - 1 && rs[i].kind == Number && rs[i + 1].kind == Number
      ensures gs[i + 1] != []
    {
      assert ts[i + 1].kind == Number && ts[i + 2].kind == Number;
    }
  }

  /** A layout that does not start with a number's token does not start with a
      number character. */
  lemma LayoutHead(ts: seq<Token>, gaps: seq<string>)
    requires AllWellFormed(ts) && Separates(gaps, ts)
    requires gaps[0] == [] ==> ts == [] || ts[0].kind != Number
    ensures Layout(ts, gaps) == [] || !IsNumberChar(Layout(ts, gaps)[0])
  {
    if gaps[0] != [] {
      assert IsSpace(gaps[0][0]);
    } else if ts != [] {
      assert WellFormedToken(ts[0]);
      assert Layout(ts, gaps)[0] == ts[0].text[0];
    }
  }

  /** `next_token` at the first character of a laid-out token reads exactly it. */
  lemma ScanLaidOut(s: string, q: nat, t: Token, e: nat)
    requires q <= e <= |s| && WellFormedToken(t) && s[q..e] == t.text
    requires t.kind == Number ==> e == |s| || !IsNumberChar(s[e])
    ensures NextTokenAt(s, q) == Scan(Ok(Some(t)), e)
  {
    assert s[q] == t.text[0];
    if t.kind == Number {
      var end := NumberEnd(s, q);
      assert forall k :: q <= k < e ==> IsNumberChar(s[k]) by {
        forall k | q <= k < e ensures IsNumberChar(s[k]) {
          assert s[k] == t.text[k - q];
        }
      }
      assert end == e;
    }
  }
}
