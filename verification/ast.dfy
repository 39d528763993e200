/**
 * The tree both passes walk: one closed datatype per syntactic category.
 * Expressions and statements are separated so that every position holds
 * a node of the kind the parser puts there.
 */
module Ast {
  import opened Wrappers

  datatype Expr =
    | BinaryOp(left: Expr, op: string, right: Expr)
    | Condition(left: Expr, op: string, right: Expr)
    | Number(value: int)
    | Identifier(name: string)
    | StringLit(text: string)

  datatype Stmt =
    | Function(name: string, params: seq<string>, body: seq<Stmt>, returnExpr: Option<Expr>)
    | Assignment(target: string, expr: Expr)
    | Print(expr: Expr)
      /** An absent else-block and an empty one are both falsy in the source: `[]` stands for both. */
    | If(cond: Expr, thenBlock: seq<Stmt>, elseBlock: seq<Stmt>)
    | While(cond: Expr, body: seq<Stmt>)

  datatype Program = Program(statements: seq<Stmt>)

  /** The identifier names read anywhere in an expression. */
  function Identifiers(e: Expr): set<string> {
    match e
    case BinaryOp(l, _, r) => Identifiers(l) + Identifiers(r)
    case Condition(l, _, r) => Identifiers(l) + Identifiers(r)
    case Number(_) => {}
    case Identifier(x) => {x}
    case StringLit(_) => {}
  }

  /** Whether a string literal occurs anywhere in an expression. */
  predicate HasStringLit(e: Expr) {
    match e
    case BinaryOp(l, _, r) => HasStringLit(l) || HasStringLit(r)
    case Condition(l, _, r) => HasStringLit(l) || HasStringLit(r)
    case Number(_) => false
    case Identifier(_) => false
    case StringLit(_) => true
  }

  /** The names assigned anywhere in a statement, nested blocks and function bodies included. */
  function Assigned(s: Stmt): set<string>
    decreases s, 0
  {
    match s
    case Function(_, _, body, _) => AssignedIn(body)
    case Assignment(x, _) => {x}
    case Print(_) => {}
    case If(_, t, e) => AssignedIn(t) + AssignedIn(e)
    case While(_, body) => AssignedIn(body)
  }

  function AssignedIn(ss: seq<Stmt>): set<string>
    decreases ss, 1
  {
    if |ss| == 0 then {} else Assigned(ss[0]) + AssignedIn(ss[1..])
  }

  /** The number of `while` loops in a statement, nested ones included. */
  function Loops(s: Stmt): nat
    decreases s, 0
  {
    match s
    case Function(_, _, body, _) => LoopsIn(body)
    case Assignment(_, _) => 0
    case Print(_) => 0
    case If(_, t, e) => LoopsIn(t) + LoopsIn(e)
    case While(_, body) => 1 + LoopsIn(body)
  }

  function LoopsIn(ss: seq<Stmt>): nat
    decreases ss, 1
  {
    if |ss| == 0 then 0 else Loops(ss[0]) + LoopsIn(ss[1..])
  }

  /** The function definitions among a program's statements, in source order. */
  function Functions(ss: seq<Stmt>): (fs: seq<Stmt>)
    ensures forall i :: 0 <= i < |fs| ==> fs[i].Function?
    ensures |fs| <= |ss|
  {
    if |ss| == 0 then []
    else if ss[0].Function? then [ss[0]] + Functions(ss[1..])
    else Functions(ss[1..])
  }

  /** The statements that are not function definitions, in source order. */
  function NonFunctions(ss: seq<Stmt>): (ms: seq<Stmt>)
    ensures forall i :: 0 <= i < |ms| ==> !ms[i].Function?
    ensures |ms| <= |ss|
  {
    if |ss| == 0 then []
    else if ss[0].Function? then NonFunctions(ss[1..])
    else [ss[0]] + NonFunctions(ss[1..])
  }

  /** Splitting a program into functions and the rest loses no assigned name. */
  lemma {:induction false} AssignedPartition(ss: seq<Stmt>)
    ensures AssignedIn(NonFunctions(ss)) + AssignedIn(Functions(ss)) == AssignedIn(ss)
  {
    if |ss| > 0 {
      AssignedPartition(ss[1..]);
      if ss[0].Function? {
        assert ([ss[0]] + Functions(ss[1..]))[1..] == Functions(ss[1..]);
      } else {
        assert ([ss[0]] + NonFunctions(ss[1..]))[1..] == NonFunctions(ss[1..]);
      }
    }
  }

  /** Splitting a program into functions and the rest loses no loop. */
  lemma {:induction false} LoopsPartition(ss: seq<Stmt>)
    ensures LoopsIn(NonFunctions(ss)) + LoopsIn(Functions(ss)) == LoopsIn(ss)
  {
    if |ss| > 0 {
      LoopsPartition(ss[1..]);
      if ss[0].Function? {
        assert ([ss[0]] + Functions(ss[1..]))[1..] == Functions(ss[1..]);
      } else {
        assert ([ss[0]] + NonFunctions(ss[1..]))[1..] == NonFunctions(ss[1..]);
      }
    }
  }

  /**
   * The split is a partition of the statements themselves: together the
   * two parts hold every statement exactly as often as the program does.
   */
  lemma {:induction false} SplitPermutes(ss: seq<Stmt>)
    ensures multiset(Functions(ss)) + multiset(NonFunctions(ss)) == multiset(ss)
  {
    if |ss| > 0 {
      SplitPermutes(ss[1..]);
      assert ss == [ss[0]] + ss[1..];
    }
  }
}
