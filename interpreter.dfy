/** `TreeInterpreter` of actual_parser.py:194-259: a structural evaluator
    over syntax trees, generic in the value type `V`. The five abstract
    methods a subclass overrides are a record of functions; each may succeed
    or raise, and what it raises is either one of the exceptions the
    evaluator itself names or a subclass's own exception of type `E`. */
module Interpreter {
  import opened Wrappers
  import opened Tokens
  import opened Syntax

  /** What `_eval_node` can raise: the `assert` on the child count, the
      interpreter's EvalError, an IndexError, or anything else a subclass's
      operations raise. */
  datatype Exception<E> = AssertionError | EvalError | IndexError | Raised(cause: E)

  /** The abstract methods `n_value`, `sum_value`, `sub_value`, `prod_value`
      and `div_value`. */
  datatype Operations<!V, E> = Operations(
    number: string -> Result<V, Exception<E>>,
    sum: (V, V) -> Result<V, Exception<E>>,
    sub: (V, V) -> Result<V, Exception<E>>,
    prod: (V, V) -> Result<V, Exception<E>>,
    div: (V, V) -> Result<V, Exception<E>>)

  /** The `try`/`except IndexError: raise EvalError` around the evaluation
      of the children: an IndexError from below turns into EvalError, any
      other exception passes through. */
  function FromChild<E>(e: Exception<E>): (r: Exception<E>)
    ensures r != Exception.IndexError
    ensures e == Exception.IndexError ==> r == EvalError
    ensures e != Exception.IndexError ==> r == e
  {
    if e == Exception.IndexError then EvalError else e
  }

  /** The operation an operator's text selects, applied to the children's
      values; any text but "+", "-", "*" and "/" raises EvalError. */
  function Apply<V, E>(ops: Operations<V, E>, op: string, lv: V, rv: V): (r: Result<V, Exception<E>>)
    ensures op == "+" ==> r == ops.sum(lv, rv)
    ensures op == "-" ==> r == ops.sub(lv, rv)
    ensures op == "*" ==> r == ops.prod(lv, rv)
    ensures op == "/" ==> r == ops.div(lv, rv)
    ensures op !in ["+", "-", "*", "/"] ==> r == Err(EvalError)
  {
    if op == "+" then ops.sum(lv, rv)
    else if op == "-" then ops.sub(lv, rv)
    else if op == "*" then ops.prod(lv, rv)
    else if op == "/" then ops.div(lv, rv)
    else Err(EvalError)
  }

  /** `_eval_node`: a number token is handed to `n_value` (children, if any,
      are not looked at); any other node must have two children, evaluated
      left first, then combined by the operation its text names. */
  function EvalNode<V, E>(ops: Operations<V, E>, node: SyntaxNode): (r: Result<V, Exception<E>>)
    ensures !Evaluable(node) ==> r.Err? && r.error != Exception.IndexError
    decreases node
  {
    if node.token.kind == Number then
      ops.number(node.token.text)
    else if |node.children| != 2 then
      Err(AssertionError)
    else
      var left := EvalNode(ops, node.children[0]);
      if left.Err? then Err(FromChild(left.error))
      else
        var right := EvalNode(ops, node.children[1]);
        if right.Err? then Err(FromChild(right.error))
        else Apply(ops, node.token.text, left.value, right.value)
  }

  /** An interpreter holds the tree it was created with. */
  datatype TreeInterpreter<!V, E> = TreeInterpreter(syntaxTree: SyntaxNode, ops: Operations<V, E>) {
    /** `eval`. */
    function Eval(): (r: Result<V, Exception<E>>)
      ensures !Evaluable(syntaxTree) ==> r.Err? && r.error != Exception.IndexError
    {
      EvalNode(ops, syntaxTree)
    }
  }

  /** The trees `_eval_node` can get through when no operation raises:
      number tokens, and nodes with two evaluable children whose text names
      one of the four operations. */
  predicate Evaluable(t: SyntaxNode) {
    if t.token.kind == Number then true
    else
      && |t.children| == 2
      && t.token.text in ["+", "-", "*", "/"]
      && Evaluable(t.children[0])
      && Evaluable(t.children[1])
  }

  /** Operations that never raise. */
  ghost predicate Total<V(!new), E>(ops: Operations<V, E>) {
    && (forall s :: ops.number(s).Ok?)
    && (forall a, b :: ops.sum(a, b).Ok?)
    && (forall a, b :: ops.sub(a, b).Ok?)
    && (forall a, b :: ops.prod(a, b).Ok?)
    && (forall a, b :: ops.div(a, b).Ok?)
  }

  /** Operations that never raise IndexError (they may raise anything
      else). */
  ghost predicate NoIndexError<V(!new), E>(ops: Operations<V, E>) {
    && (forall s :: ops.number(s) != Err(Exception.IndexError))
    && (forall a, b :: ops.sum(a, b) != Err(Exception.IndexError))
    && (forall a, b :: ops.sub(a, b) != Err(Exception.IndexError))
    && (forall a, b :: ops.prod(a, b) != Err(Exception.IndexError))
    && (forall a, b :: ops.div(a, b) != Err(Exception.IndexError))
  }

  /** Every tree the parser builds can be evaluated: its operator texts are
      the four the interpreter dispatches on. */
  lemma {:induction false} WellFormedIsEvaluable(t: SyntaxNode)
    requires WellFormed(t)
    ensures Evaluable(t)
  {
    if t.token.kind != Number {
      WellFormedIsEvaluable(t.children[0]);
      WellFormedIsEvaluable(t.children[1]);
    }
  }

  /** With operations that never raise, `_eval_node` succeeds exactly on the
      evaluable trees; on any other tree it fails on the child-count
      `assert` or with EvalError. */
  lemma {:induction false} EvalSucceedsIff<V(!new), E>(ops: Operations<V, E>, t: SyntaxNode)
    requires Total(ops)
    ensures EvalNode(ops, t).Ok? <==> Evaluable(t)
    ensures EvalNode(ops, t).Err? ==> EvalNode(ops, t).error in {AssertionError, EvalError}
  {
    if t.token.kind != Number && |t.children| == 2 {
      EvalSucceedsIff(ops, t.children[0]);
      EvalSucceedsIff(ops, t.children[1]);
    }
  }

  /** IndexError only ever leaves `_eval_node` from an operation applied at
      the root: one raised below is turned into EvalError on the way up. */
  lemma {:induction false} NoIndexErrorFromBelow<V(!new), E>(ops: Operations<V, E>, t: SyntaxNode)
    requires NoIndexError(ops)
    ensures EvalNode(ops, t) != Err(Exception.IndexError)
  {
    if t.token.kind != Number && |t.children| == 2 {
      NoIndexErrorFromBelow(ops, t.children[0]);
      NoIndexErrorFromBelow(ops, t.children[1]);
    }
  }

  /** The tree in postfix order: children left to right, then the node. */
  function Postorder(t: SyntaxNode): seq<Token>
    decreases t
  {
    if t.token.kind != Number && |t.children| == 2 then
      Postorder(t.children[0]) + Postorder(t.children[1]) + [t.token]
    else
      [t.token]
  }

  /** A stack machine over postfix code, an evaluator independent of the
      tree: a number pushes its value, an operator pops two values and
      pushes the result of its operation. */
  function Run<V, E>(ops: Operations<V, E>, code: seq<Token>, stack: seq<V>): Result<seq<V>, Exception<E>>
    decreases |code|
  {
    if code == [] then
      Ok(stack)
    else if code[0].kind == Number then
      var v :- ops.number(code[0].text);
      Run(ops, code[1..], stack + [v])
    else if |stack| < 2 then
      Err(AssertionError)
    else
      var v :- Apply(ops, code[0].text, stack[|stack| - 2], stack[|stack| - 1]);
      Run(ops, code[1..], stack[..|stack| - 2] + [v])
  }

  /** Running the postfix code of an evaluable tree pushes its value, or
      stops with the exception `_eval_node` raises. */
  lemma {:induction false} RunPostorder<V(!new), E>(ops: Operations<V, E>, t: SyntaxNode, rest: seq<Token>, stack: seq<V>)
    requires Evaluable(t) && NoIndexError(ops)
    ensures var v := EvalNode(ops, t);
      Run(ops, Postorder(t) + rest, stack) == if v.Ok? then Run(ops, rest, stack + [v.value]) else Err(v.error)
  {
    if t.token.kind == Number {
      assert (Postorder(t) + rest)[1..] == rest;
    } else {
      var l, r := t.children[0], t.children[1];
      NoIndexErrorFromBelow(ops, l);
      NoIndexErrorFromBelow(ops, r);
      var afterLeft := Postorder(r) + ([t.token] + rest);
      assert Postorder(t) + rest == Postorder(l) + afterLeft;
      RunPostorder(ops, l, afterLeft, stack);
      var lv := EvalNode(ops, l);
      if lv.Ok? {
        RunPostorder(ops, r, [t.token] + rest, stack + [lv.value]);
        var rv := EvalNode(ops, r);
        if rv.Ok? {
          RunOperator(ops, t.token, rest, stack, lv.value, rv.value);
        }
      }
    }
  }

  /** An operator with two values on top of the stack. */
  lemma RunOperator<V, E>(ops: Operations<V, E>, op: Token, rest: seq<Token>, stack: seq<V>, lv: V, rv: V)
    requires op.kind != Number
    ensures var a := Apply(ops, op.text, lv, rv);
      Run(ops, [op] + rest, stack + [lv] + [rv]) == if a.Ok? then Run(ops, rest, stack + [a.value]) else Err(a.error)
  {
    var st := stack + [lv] + [rv];
    assert st[|st| - 2] == lv && st[|st| - 1] == rv && st[..|st| - 2] == stack;
    assert ([op] + rest)[1..] == rest;
  }

  /** The stack machine and `_eval_node` agree on every evaluable tree, when
      no operation raises IndexError (the one exception `_eval_node`
      rewrites): the same value, or the same exception. */
  lemma EvalByStackMachine<V(!new), E>(ops: Operations<V, E>, t: SyntaxNode)
    requires Evaluable(t) && NoIndexError(ops)
    ensures EvalNode(ops, t).Ok? ==> Run(ops, Postorder(t), []) == Ok([EvalNode(ops, t).value])
    ensures EvalNode(ops, t).Err? ==> Run(ops, Postorder(t), []) == Err(EvalNode(ops, t).error)
  {
    RunPostorder(ops, t, [], []);
    assert Postorder(t) + [] == Postorder(t);
    if EvalNode(ops, t).Ok? {
      var v := EvalNode(ops, t).value;
      assert [] + [v] == [v];
    }
  }

  /** Operations whose only exceptions are their own: they never raise the
      evaluator's AssertionError, EvalError or IndexError. */
  ghost predicate OwnExceptionsOnly<V(!new), E>(ops: Operations<V, E>) {
    && (forall s :: ops.number(s).Err? ==> ops.number(s).error.Raised?)
    && (forall a, b :: ops.sum(a, b).Err? ==> ops.sum(a, b).error.Raised?)
    && (forall a, b :: ops.sub(a, b).Err? ==> ops.sub(a, b).error.Raised?)
    && (forall a, b :: ops.prod(a, b).Err? ==> ops.prod(a, b).error.Raised?)
    && (forall a, b :: ops.div(a, b).Err? ==> ops.div(a, b).error.Raised?)
  }

  /** On an evaluable tree the evaluator adds no exception of its own: what
      `_eval_node` raises is what an operation raised. */
  lemma {:induction false} OnlyOwnExceptions<V(!new), E>(ops: Operations<V, E>, t: SyntaxNode)
    requires Evaluable(t) && OwnExceptionsOnly(ops)
    ensures EvalNode(ops, t).Err? ==> EvalNode(ops, t).error.Raised?
  {
    if t.token.kind != Number {
      OnlyOwnExceptions(ops, t.children[0]);
      OnlyOwnExceptions(ops, t.children[1]);
    }
  }

  /** `eval` on a tree the parser built, with operations that never raise,
      returns a value. */
  lemma EvalParsedTree<V(!new), E>(interpreter: TreeInterpreter<V, E>)
    requires WellFormed(interpreter.syntaxTree) && Total(interpreter.ops)
    ensures interpreter.Eval().Ok?
  {
    WellFormedIsEvaluable(interpreter.syntaxTree);
    EvalSucceedsIff(interpreter.ops, interpreter.syntaxTree);
  }
}
