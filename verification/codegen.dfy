/**
 * The code generator: lowers a program tree to a list of C source lines.
 *
 * Its state is the output buffer, the indentation depth, a name-to-type
 * table deciding declaration versus store, and the label counter. Every
 * handler is a pure function from a state to the next state, or to the
 * error the source raises.
 */
module CodeGen {
  import opened Wrappers
  import opened Ast
  import opened Text

  /** `CodegenError` for an undeclared identifier; `NoVisitMethod` for a node kind with no handler. */
  datatype CodegenError = UndefinedVariable(name: string) | NoVisitMethod(kind: string)

  datatype Gen = Gen(output: seq<string>, indent: nat, table: map<string, string>, labels: nat)

  /** A generator as constructed: nothing emitted, depth 0, empty table, counter 0. */
  function Fresh(): Gen {
    Gen([], 0, map[], 0)
  }

  /** The type every assigned name is recorded with. */
  const IntType: string := "int"

  // ---------------------------------------------------------------
  // Invariants the handlers keep
  // ---------------------------------------------------------------

  /** `h` keeps `g`'s lines in place, and every line added after them carries `g`'s indentation. */
  predicate Grows(g: Gen, h: Gen) {
    && g.output <= h.output
    && LinesIndented(h.output, |g.output|, g.indent)
  }

  /** Every line from index `from` on carries the indentation of `depth`. */
  predicate LinesIndented(lines: seq<string>, from: nat, depth: nat) {
    forall i :: from <= i < |lines| ==> IndentedBy(lines[i], depth)
  }

  /** Entries are never removed or retyped; the new ones all have type `int`. */
  predicate TableGrows(g: Gen, h: Gen) {
    && (forall x :: x in g.table ==> x in h.table && h.table[x] == g.table[x])
    && (forall x :: x in h.table && x !in g.table ==> h.table[x] == IntType)
  }

  lemma GrowsTrans(a: Gen, b: Gen, c: Gen)
    requires Grows(a, b) && Grows(b, c) && a.indent <= b.indent
    ensures Grows(a, c)
  {
    IndentMonotone(a.indent, b.indent);
  }

  // ---------------------------------------------------------------
  // Helpers
  // ---------------------------------------------------------------

  /** `_add_line`: one line, prefixed by the current indentation, at the end of the buffer. */
  function AddLine(g: Gen, text: string): (h: Gen)
    ensures h.output == g.output + [Indent(g.indent) + text]
    ensures h.indent == g.indent && h.table == g.table && h.labels == g.labels
    ensures Grows(g, h)
  {
    g.(output := g.output + [Indent(g.indent) + text])
  }

  /** `indent_level += 1` */
  function Nest(g: Gen): Gen {
    g.(indent := g.indent + 1)
  }

  /** `indent_level -= 1` */
  function Dedent(g: Gen): Gen
    requires g.indent > 0
  {
    g.(indent := g.indent - 1)
  }

  function LabelName(n: nat): string {
    "label_" + NatToString(n)
  }

  /** `_new_label`: bumps the counter and names the label after its new value. */
  function NewLabel(g: Gen): (r: (Gen, string))
    ensures r.0.labels == g.labels + 1 && r.1 == LabelName(r.0.labels)
    ensures r.0.output == g.output && r.0.indent == g.indent && r.0.table == g.table
  {
    var h := g.(labels := g.labels + 1);
    (h, LabelName(h.labels))
  }

  /** `_gen_params`: every parameter typed `int`, comma separated. */
  function ParamList(params: seq<string>): string {
    Join(seq(|params|, i requires 0 <= i < |params| => "int " + params[i]), ", ")
  }

  /** The forward declaration emitted for a function before `main`. */
  function ForwardDecl(f: Stmt): string
    requires f.Function?
  {
    "int " + f.name + "(" + ParamList(f.params) + ");"
  }

  /** The first line of a function definition. */
  function FunctionHeader(name: string, params: seq<string>): string {
    "\nint " + name + "(" + ParamList(params) + ") {"
  }

  // ---------------------------------------------------------------
  // Expressions
  // ---------------------------------------------------------------

  /**
   * The text of an expression. Binary operations and conditions are wrapped
   * in parentheses, numbers print as decimals, identifiers print as their
   * name once the table has them. A string literal has no handler.
   */
  function LowerExpr(table: map<string, string>, e: Expr): (r: Result<string, CodegenError>)
    ensures r.Success? <==> Identifiers(e) <= table.Keys && !HasStringLit(e)
    ensures r.Failure? && r.error.UndefinedVariable? ==>
              r.error.name in Identifiers(e) && r.error.name !in table
    ensures r.Failure? && r.error.NoVisitMethod? ==> HasStringLit(e)
    ensures r.Success? && e.Identifier? ==> r.value == e.name
    ensures r.Success? && e.Number? ==> Numeral(r.value) && ParseInt(r.value) == e.value
    ensures r.Success? && (e.BinaryOp? || e.Condition?) ==>
              |r.value| >= 2 && r.value[0] == '(' && r.value[|r.value| - 1] == ')'
  {
    match e
    case BinaryOp(l, op, rt) =>
      var lv :- LowerExpr(table, l);
      var rv :- LowerExpr(table, rt);
      Success("(" + lv + " " + op + " " + rv + ")")
    case Condition(l, op, rt) =>
      var lv :- LowerExpr(table, l);
      var rv :- LowerExpr(table, rt);
      Success("(" + lv + " " + op + " " + rv + ")")
    case Number(v) =>
      IntToStringRoundTrip(v);
      Success(IntToString(v))
    case Identifier(x) =>
      if x !in table then Failure(UndefinedVariable(x)) else Success(x)
    case StringLit(_) =>
      Failure(NoVisitMethod("StringLit"))
  }

  // ---------------------------------------------------------------
  // Statements
  // ---------------------------------------------------------------

  /**
   * One statement. On success the depth is back where it was, earlier lines
   * are untouched, every new line is at least as indented as the statement,
   * the table has gained exactly the names the statement assigns, and the
   * counter has moved by two per loop.
   */
  function GenStmt(g: Gen, s: Stmt): (r: Result<Gen, CodegenError>)
    decreases s, 2
    ensures r.Success? ==>
              && Grows(g, r.value) && r.value.indent == g.indent
              && TableGrows(g, r.value) && r.value.table.Keys == g.table.Keys + Assigned(s)
              && r.value.labels == g.labels + 2 * Loops(s)
  {
    match s
    case Function(name, params, body, ret) => GenFunction(g, name, params, body, ret)
    case Assignment(x, e) => GenAssignment(g, x, e)
    case Print(e) => GenPrint(g, e)
    case If(c, t, e) => GenIf(g, c, t, e)
    case While(c, body) => GenWhile(g, c, body)
  }

  /** A block, statement by statement, stopping at the first error. */
  function GenBlock(g: Gen, ss: seq<Stmt>): (r: Result<Gen, CodegenError>)
    decreases ss, 0
    ensures r.Success? ==>
              && Grows(g, r.value) && r.value.indent == g.indent
              && TableGrows(g, r.value) && r.value.table.Keys == g.table.Keys + AssignedIn(ss)
              && r.value.labels == g.labels + 2 * LoopsIn(ss)
  {
    if |ss| == 0 then Success(g)
    else
      var g1 :- GenStmt(g, ss[0]);
      var g2 :- GenBlock(g1, ss[1..]);
      GrowsTrans(g, g1, g2);
      Success(g2)
  }

  /** Declare on first assignment, store afterwards. */
  function GenAssignment(g: Gen, x: string, e: Expr): (r: Result<Gen, CodegenError>)
    ensures r.Success? <==> LowerExpr(g.table, e).Success?
    ensures r.Success? && x !in g.table ==>
              && r.value.table == g.table[x := IntType]
              && r.value.output == g.output + [Indent(g.indent) + ("int " + x + " = " + LowerExpr(g.table, e).value + ";")]
    ensures r.Success? && x in g.table ==>
              && r.value.table == g.table
              && r.value.output == g.output + [Indent(g.indent) + (x + " = " + LowerExpr(g.table, e).value + ";")]
    ensures r.Success? ==> r.value.indent == g.indent && r.value.labels == g.labels
  {
    var v :- LowerExpr(g.table, e);
    if x !in g.table then
      Success(AddLine(g.(table := g.table[x := IntType]), "int " + x + " = " + v + ";"))
    else
      Success(AddLine(g, x + " = " + v + ";"))
  }

  /** An integer `printf` of the expression. */
  function GenPrint(g: Gen, e: Expr): (r: Result<Gen, CodegenError>)
    ensures r.Success? <==> LowerExpr(g.table, e).Success?
    ensures r.Success? ==>
              r.value == g.(output := g.output + [Indent(g.indent) + ("printf(\"%d\\n\", " + LowerExpr(g.table, e).value + ");")])
  {
    var v :- LowerExpr(g.table, e);
    Success(AddLine(g, "printf(\"%d\\n\", " + v + ");"))
  }

  /** A structured `if`, with an `else` part only when the else-block is non-empty. */
  function GenIf(g: Gen, c: Expr, t: seq<Stmt>, e: seq<Stmt>): (r: Result<Gen, CodegenError>)
    decreases If(c, t, e), 1
    ensures r.Success? ==>
              && Grows(g, r.value) && r.value.indent == g.indent
              && TableGrows(g, r.value) && r.value.table.Keys == g.table.Keys + AssignedIn(t) + AssignedIn(e)
              && r.value.labels == g.labels + 2 * (LoopsIn(t) + LoopsIn(e))
    ensures r.Success? ==> LowerExpr(g.table, c).Success?
    ensures r.Success? ==>
              var n := |g.output|;
              && |r.value.output| >= n + 2
              && r.value.output[n] == Indent(g.indent) + ("if (" + LowerExpr(g.table, c).value + ") {")
              && r.value.output[|r.value.output| - 1] == Indent(g.indent) + "}"
  {
    var cv :- LowerExpr(g.table, c);
    var g1 := AddLine(g, "if (" + cv + ") {");
    var g2 :- GenBlock(Nest(g1), t);
    var g3 := Dedent(g2);
    var g5 :- GenElse(g3, c, t, e);
    var h := AddLine(g5, "}");
    IndentNested(g.indent);
    GrowsTrans(g, g1, Nest(g1));
    GrowsTrans(g, Nest(g1), g2);
    GrowsTrans(g, g3, g5);
    GrowsTrans(g, g5, h);
    Success(h)
  }

  /**
   * Between the head and the closing brace of an `if`, every line is one
   * level deeper except the `} else {` line; with no else-block, all of them are.
   */
  lemma IfLines(g: Gen, c: Expr, t: seq<Stmt>, e: seq<Stmt>)
    requires GenIf(g, c, t, e).Success?
    ensures var n, k, out := |g.output|, g.indent, GenIf(g, c, t, e).value.output;
            && (|e| == 0 ==> LinesIndented(out[..|out| - 1], n + 1, k + 1))
            && (forall i :: n < i < |out| - 1 ==> IndentedBy(out[i], k + 1) || out[i] == Indent(k) + "} else {")
  {
    var cv := LowerExpr(g.table, c).value;
    var g1 := AddLine(g, "if (" + cv + ") {");
    var g2 := GenBlock(Nest(g1), t).value;
    var g5 := GenElse(Dedent(g2), c, t, e).value;
    var h := AddLine(g5, "}");
    assert GenIf(g, c, t, e) == Success(h);
    IfBodyLines(g2.output, g5.output, h.output, |g.output|, g.indent, "} else {");
  }

  /**
   * The lines between an `if` head and its closing brace: the then-block,
   * deeper than the head, then possibly a `line` followed by the else-block,
   * deeper again.
   */
  lemma IfBodyLines(a: seq<string>, c: seq<string>, out: seq<string>, n: nat, k: nat, line: string)
    requires n < |a| && a <= c && |out| == |c| + 1 && out[..|c|] == c
    requires LinesIndented(a, n + 1, k + 1)
    requires |c| == |a| || (c[|a|] == Indent(k) + line && LinesIndented(c, |a| + 1, k + 1))
    ensures |c| == |a| ==> LinesIndented(out[..|out| - 1], n + 1, k + 1)
    ensures forall i :: n < i < |out| - 1 ==> IndentedBy(out[i], k + 1) || out[i] == Indent(k) + line
  {
    forall i | n < i < |out| - 1
      ensures IndentedBy(out[i], k + 1) || out[i] == Indent(k) + line
    {
      assert out[i] == c[i];
      if i < |a| {
        assert c[i] == a[i];
      }
    }
  }

  /** The `} else {` line and the else-block, or nothing when the else-block is empty. */
  function GenElse(g: Gen, c: Expr, t: seq<Stmt>, e: seq<Stmt>): (r: Result<Gen, CodegenError>)
    decreases If(c, t, e), 0
    ensures r.Success? ==>
              && Grows(g, r.value) && r.value.indent == g.indent
              && TableGrows(g, r.value) && r.value.table.Keys == g.table.Keys + AssignedIn(e)
              && r.value.labels == g.labels + 2 * LoopsIn(e)
    ensures |e| == 0 ==> r == Success(g)
    ensures r.Success? && |e| > 0 ==>
              && |r.value.output| > |g.output| && r.value.output[|g.output|] == Indent(g.indent) + "} else {"
              && LinesIndented(r.value.output, |g.output| + 1, g.indent + 1)
  {
    if |e| == 0 then Success(g)
    else
      var g1 := AddLine(g, "} else {");
      var g2 :- GenBlock(Nest(g1), e);
      IndentNested(g.indent);
      GrowsTrans(g, g1, Nest(g1));
      GrowsTrans(g, Nest(g1), g2);
      Success(Dedent(g2))
  }

  /**
   * A `while` loop as labels and jumps: the condition is lowered first, then a
   * start and an end label are taken from the counter, in that order.
   */
  function GenWhile(g: Gen, c: Expr, body: seq<Stmt>): (r: Result<Gen, CodegenError>)
    decreases body, 1
    ensures r.Success? ==>
              && Grows(g, r.value) && r.value.indent == g.indent
              && TableGrows(g, r.value) && r.value.table.Keys == g.table.Keys + AssignedIn(body)
              && r.value.labels == g.labels + 2 + 2 * LoopsIn(body)
    ensures r.Success? ==> LowerExpr(g.table, c).Success?
    ensures r.Success? ==>
              var n := |g.output|;
              var out := r.value.output;
              var k := g.indent;
              && |out| >= n + 4
              && out[n] == Indent(k) + (LabelName(g.labels + 1) + ":")
              && out[n + 1] == Indent(k) + ("if (!(" + LowerExpr(g.table, c).value + ")) goto " + LabelName(g.labels + 2) + ";")
              && LinesIndented(out[..|out| - 1], n + 2, k + 1)
              && out[|out| - 2] == Indent(k + 1) + ("goto " + LabelName(g.labels + 1) + ";")
              && out[|out| - 1] == Indent(k) + (LabelName(g.labels + 2) + ":")
  {
    var cv :- LowerExpr(g.table, c);
    var (g1, start) := NewLabel(g);
    var (g2, end) := NewLabel(g1);
    var g3 := AddLine(g2, start + ":");
    var g4 := AddLine(g3, "if (!(" + cv + ")) goto " + end + ";");
    var g5 :- GenBlock(Nest(g4), body);
    var g6 := AddLine(g5, "goto " + start + ";");
    var h := AddLine(Dedent(g6), end + ":");
    IndentNested(g.indent);
    GrowsTrans(Nest(g4), g5, g6);
    GrowsTrans(g, g3, g4);
    GrowsTrans(g, g4, Nest(g4));
    GrowsTrans(g, Nest(g4), g6);
    GrowsTrans(g, g6, Dedent(g6));
    GrowsTrans(g, Dedent(g6), h);
    Success(h)
  }

  /**
   * A function definition: header, body one level deeper, then a return of
   * the return expression or of 0, then the closing brace. The parameters are
   * not entered into the table.
   */
  function GenFunction(g: Gen, name: string, params: seq<string>, body: seq<Stmt>, ret: Option<Expr>)
    : (r: Result<Gen, CodegenError>)
    decreases body, 1
    ensures r.Success? ==>
              && Grows(g, r.value) && r.value.indent == g.indent
              && TableGrows(g, r.value) && r.value.table.Keys == g.table.Keys + AssignedIn(body)
              && r.value.labels == g.labels + 2 * LoopsIn(body)
    ensures r.Success? ==>
              var n := |g.output|;
              var out := r.value.output;
              && |out| >= n + 3
              && out[n] == Indent(g.indent) + FunctionHeader(name, params)
              && LinesIndented(out[..|out| - 1], n + 1, g.indent + 1)
              && (ret.None? ==> out[|out| - 2] == Indent(g.indent + 1) + "return 0;")
              && (ret.Some? ==>
                    && LowerExpr(r.value.table, ret.value).Success?
                    && out[|out| - 2] == Indent(g.indent + 1) + ("return " + LowerExpr(r.value.table, ret.value).value + ";"))
              && out[|out| - 1] == Indent(g.indent) + "}"
  {
    var g1 := AddLine(g, FunctionHeader(name, params));
    var g2 :- GenBlock(Nest(g1), body);
    var g3 :- GenReturn(g2, ret);
    var h := AddLine(Dedent(g3), "}");
    IndentNested(g.indent);
    GrowsTrans(g, g1, Nest(g1));
    GrowsTrans(g, Nest(g1), g2);
    GrowsTrans(g, g2, g3);
    GrowsTrans(g, g3, Dedent(g3));
    GrowsTrans(g, Dedent(g3), h);
    Success(h)
  }

  /**
   * The return statement closing a function body: the lowered return
   * expression, or `0` when there is none.
   */
  function GenReturn(g: Gen, ret: Option<Expr>): (r: Result<Gen, CodegenError>)
    ensures ret.None? ==> r.Success?
    ensures ret.Some? ==> (r.Success? <==> LowerExpr(g.table, ret.value).Success?)
    ensures r.Success? ==>
              && Grows(g, r.value) && |r.value.output| == |g.output| + 1
              && r.value.indent == g.indent && r.value.table == g.table && r.value.labels == g.labels
    ensures r.Success? && ret.None? ==> r.value.output[|g.output|] == Indent(g.indent) + "return 0;"
    ensures r.Success? && ret.Some? ==>
              r.value.output[|g.output|] == Indent(g.indent) + ("return " + LowerExpr(g.table, ret.value).value + ";")
  {
    match ret
    case Some(e) =>
      var v :- LowerExpr(g.table, e);
      Success(AddLine(g, "return " + v + ";"))
    case None =>
      Success(AddLine(g, "return 0;"))
  }

  // ---------------------------------------------------------------
  // Programs
  // ---------------------------------------------------------------

  /** The forward declarations of `fs`, one line each at depth `k`. */
  function ForwardDeclLines(fs: seq<Stmt>, k: nat): (lines: seq<string>)
    requires forall i :: 0 <= i < |fs| ==> fs[i].Function?
  {
    seq(|fs|, i requires 0 <= i < |fs| => Indent(k) + ForwardDecl(fs[i]))
  }

  /** One forward declaration per function among `ss`, in source order. */
  function ForwardDecls(g: Gen, ss: seq<Stmt>): (h: Gen)
    decreases ss
    ensures h.output == g.output + ForwardDeclLines(Functions(ss), g.indent)
    ensures h.indent == g.indent && h.table == g.table && h.labels == g.labels
  {
    if |ss| == 0 then g
    else if ss[0].Function? then ForwardDecls(AddLine(g, ForwardDecl(ss[0])), ss[1..])
    else ForwardDecls(g, ss[1..])
  }

  /** The lines before `main`'s statements: the includes, one declaration per function, the opening of `main`. */
  function PrologueText(fs: seq<Stmt>, k: nat): (lines: seq<string>)
    requires forall i :: 0 <= i < |fs| ==> fs[i].Function?
  {
    [Indent(k) + "#include <stdio.h>", Indent(k) + "#include <stdlib.h>\n"]
      + ForwardDeclLines(fs, k)
      + [Indent(k) + "\n// Main Program", Indent(k) + "int main() {"]
  }

  /** The includes, the forward declarations and the opening of `main`. */
  function Prologue(g: Gen, ss: seq<Stmt>): (h: Gen)
    ensures h.output == g.output + PrologueText(Functions(ss), g.indent)
    ensures h.indent == g.indent && h.table == g.table && h.labels == g.labels
  {
    var g1 := AddLine(g, "#include <stdio.h>");
    var g2 := AddLine(g1, "#include <stdlib.h>\n");
    var g3 := ForwardDecls(g2, ss);
    var g4 := AddLine(g3, "\n// Main Program");
    AddLine(g4, "int main() {")
  }

  /**
   * The body of `main`: the non-function statements one level deeper, then
   * `return 0;` and the closing brace, both back at the outer depth.
   */
  function GenMain(g: Gen, ss: seq<Stmt>): (r: Result<Gen, CodegenError>)
    ensures r.Success? ==>
              && Grows(g, r.value) && r.value.indent == g.indent
              && TableGrows(g, r.value) && r.value.table.Keys == g.table.Keys + AssignedIn(NonFunctions(ss))
              && r.value.labels == g.labels + 2 * LoopsIn(NonFunctions(ss))
    ensures r.Success? ==>
              var out := r.value.output;
              && |out| >= |g.output| + 2
              && LinesIndented(out[..|out| - 2], |g.output|, g.indent + 1)
              && out[|out| - 2] == Indent(g.indent) + "return 0;"
              && out[|out| - 1] == Indent(g.indent) + "}\n"
  {
    var g1 :- GenBlock(Nest(g), NonFunctions(ss));
    var g2 := AddLine(Dedent(g1), "return 0;");
    var h := AddLine(g2, "}\n");
    IndentNested(g.indent);
    GrowsTrans(g, Nest(g), g1);
    GrowsTrans(g, Dedent(g1), g2);
    GrowsTrans(g, g2, h);
    Success(h)
  }

  /**
   * `visit_ProgramNode`: the prologue, `main` wrapping the statements that are
   * not functions, then every function definition in source order.
   */
  function GenProgram(g: Gen, p: Program): (r: Result<Gen, CodegenError>)
    ensures r.Success? ==>
              && Grows(g, r.value) && r.value.indent == g.indent
              && TableGrows(g, r.value) && r.value.table.Keys == g.table.Keys + AssignedIn(p.statements)
              && r.value.labels == g.labels + 2 * LoopsIn(p.statements)
    ensures r.Success? ==> Prologue(g, p.statements).output <= r.value.output
  {
    var ss := p.statements;
    var g1 := Prologue(g, ss);
    var g2 :- GenMain(g1, ss);
    var h :- GenBlock(g2, Functions(ss));
    AssignedPartition(ss);
    LoopsPartition(ss);
    PrologueGrows(g, ss);
    GrowsTrans(g, g1, g2);
    GrowsTrans(g, g2, h);
    Success(h)
  }

  /** Every line of the prologue carries the entry indentation. */
  lemma PrologueGrows(g: Gen, ss: seq<Stmt>)
    ensures Grows(g, Prologue(g, ss))
  {
    var fs, k := Functions(ss), g.indent;
    var out := Prologue(g, ss).output;
    var decls := ForwardDeclLines(fs, k);
    forall i | |g.output| <= i < |out|
      ensures IndentedBy(out[i], k)
    {
      var j := i - |g.output|;
      if 2 <= j < 2 + |decls| {
        assert out[i] == decls[j - 2] == Indent(k) + ForwardDecl(fs[j - 2]);
      }
    }
  }

  /** `generate`: lower the program, then join the buffer with newlines. */
  function Generate(g: Gen, p: Program): (r: Result<string, CodegenError>)
    ensures r.Success? <==> GenProgram(g, p).Success?
    ensures r.Success? ==> r.value == Join(GenProgram(g, p).value.output, "\n")
  {
    var h :- GenProgram(g, p);
    Success(Join(h.output, "\n"))
  }
}
