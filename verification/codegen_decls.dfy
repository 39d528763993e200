/**
 * The other half of declare-once: every name a program assigns is declared
 * on some line of its output. Together with the reading in `CodeGenLines`,
 * each assigned name is declared exactly once in the whole translation unit.
 */
module CodeGenDecls {
  import opened Wrappers
  import opened Ast
  import opened Text
  import opened CodeGen
  import opened CodeGenProps
  import opened CodeGenLines

  /** The names declared among `lines`. */
  function Declared(lines: seq<string>): set<string> {
    if |lines| == 0 then {}
    else (if DeclOf(lines[0]).Some? then {DeclOf(lines[0]).value} else {}) + Declared(lines[1..])
  }

  lemma {:induction false} DeclaredAppend(x: seq<string>, y: seq<string>)
    ensures Declared(x + y) == Declared(x) + Declared(y)
  {
    if |x| > 0 {
      DeclaredAppend(x[1..], y);
      assert (x + y)[1..] == x[1..] + y;
    } else {
      assert x + y == y;
    }
  }

  /** A declared name is declared on a particular line. */
  lemma {:induction false} DeclaredAt(lines: seq<string>, x: string) returns (i: nat)
    requires x in Declared(lines)
    ensures i < |lines| && DeclOf(lines[i]) == Some(x)
  {
    if DeclOf(lines[0]) == Some(x) {
      i := 0;
    } else {
      var j := DeclaredAt(lines[1..], x);
      i := j + 1;
    }
  }

  /** Every name `h`'s table gained over `g`'s is declared on a line `h` added. */
  predicate Covers(g: Gen, h: Gen) {
    && g.output <= h.output
    && h.table.Keys - g.table.Keys <= Declared(h.output[|g.output|..])
  }

  lemma CoversTrans(a: Gen, b: Gen, c: Gen)
    requires Covers(a, b) && Covers(b, c)
    ensures Covers(a, c)
  {
    var x, y := b.output[|a.output|..], c.output[|b.output|..];
    assert c.output[|a.output|..] == x + y;
    DeclaredAppend(x, y);
  }

  /** A step that adds no name covers trivially. */
  lemma NoNewNames(g: Gen, h: Gen)
    requires g.output <= h.output && h.table.Keys <= g.table.Keys
    ensures Covers(g, h)
  {
  }

  // ---------------------------------------------------------------
  // Statements
  // ---------------------------------------------------------------

  lemma {:induction false} StmtCovers(g: Gen, s: Stmt)
    requires NamedStmt(s) && GenStmt(g, s).Success?
    ensures Covers(g, GenStmt(g, s).value)
    decreases s, 2
  {
    match s
    case Function(name, params, body, ret) => FunctionCovers(g, name, params, body, ret);
    case Assignment(x, e) => AssignmentCovers(g, x, e);
    case Print(e) => NoNewNames(g, GenPrint(g, e).value);
    case If(c, t, e) => IfCovers(g, c, t, e);
    case While(c, body) => WhileCovers(g, c, body);
  }

  lemma {:induction false} BlockCovers(g: Gen, ss: seq<Stmt>)
    requires NamedBlock(ss) && GenBlock(g, ss).Success?
    ensures Covers(g, GenBlock(g, ss).value)
    decreases ss, 0
  {
    if |ss| == 0 {
      NoNewNames(g, g);
    } else {
      var g1 := GenStmt(g, ss[0]).value;
      StmtCovers(g, ss[0]);
      BlockCovers(g1, ss[1..]);
      CoversTrans(g, g1, GenBlock(g, ss).value);
    }
  }

  /** A first assignment's line declares its target; a later one adds no name. */
  lemma AssignmentCovers(g: Gen, x: string, e: Expr)
    requires Name(x) && GenAssignment(g, x, e).Success?
    ensures Covers(g, GenAssignment(g, x, e).value)
  {
    var h := GenAssignment(g, x, e).value;
    var v := LowerExpr(g.table, e).value;
    var line := Indent(g.indent) + ("int " + x + " = " + v + ";");
    if x !in g.table {
      DeclLine(g.indent, x, v);
      assert h.output[|g.output|..] == [line];
      assert Declared([line]) == {x} + Declared([]);
    }
  }

  lemma {:induction false} IfCovers(g: Gen, c: Expr, t: seq<Stmt>, e: seq<Stmt>)
    requires NamedBlock(t) && NamedBlock(e) && GenIf(g, c, t, e).Success?
    ensures Covers(g, GenIf(g, c, t, e).value)
    decreases If(c, t, e), 1
  {
    var g1 := AddLine(g, "if (" + LowerExpr(g.table, c).value + ") {");
    IfSucceeds(g, c, t, e);
    var g2 := GenBlock(Nest(g1), t).value;
    var g5 := GenElse(Dedent(g2), c, t, e).value;
    BlockCovers(Nest(g1), t);
    ElseCovers(Dedent(g2), c, t, e);
    NoNewNames(g, g1);
    NoNewNames(g5, AddLine(g5, "}"));
    CoversTrans(g, g1, g2);
    CoversTrans(g, g2, g5);
    CoversTrans(g, g5, AddLine(g5, "}"));
  }

  lemma {:induction false} ElseCovers(g: Gen, c: Expr, t: seq<Stmt>, e: seq<Stmt>)
    requires NamedBlock(e) && GenElse(g, c, t, e).Success?
    ensures Covers(g, GenElse(g, c, t, e).value)
    decreases If(c, t, e), 0
  {
    if |e| == 0 {
      NoNewNames(g, g);
    } else {
      var g1 := AddLine(g, "} else {");
      BlockCovers(Nest(g1), e);
      NoNewNames(g, g1);
      CoversTrans(g, g1, GenBlock(Nest(g1), e).value);
    }
  }

  lemma {:induction false} FunctionCovers(g: Gen, name: string, params: seq<string>, body: seq<Stmt>, ret: Option<Expr>)
    requires NamedBlock(body) && GenFunction(g, name, params, body, ret).Success?
    ensures Covers(g, GenFunction(g, name, params, body, ret).value)
    decreases body, 1
  {
    var g1 := AddLine(g, FunctionHeader(name, params));
    var g2 := GenBlock(Nest(g1), body).value;
    var g3 := GenReturn(g2, ret).value;
    var h := AddLine(Dedent(g3), "}");
    BlockCovers(Nest(g1), body);
    NoNewNames(g, g1);
    NoNewNames(g2, g3);
    NoNewNames(g3, h);
    CoversTrans(g, g1, g2);
    CoversTrans(g, g2, g3);
    CoversTrans(g, g3, h);
  }

  lemma {:induction false} WhileCovers(g: Gen, c: Expr, body: seq<Stmt>)
    requires NamedBlock(body) && GenWhile(g, c, body).Success?
    ensures Covers(g, GenWhile(g, c, body).value)
    decreases body, 1
  {
    var cv := LowerExpr(g.table, c).value;
    var g4 := WhileHead(g, cv);
    WhileSucceeds(g, c, body);
    var g5 := GenBlock(Nest(g4), body).value;
    WhileSteps(g, c, body, cv, g5);
    BlockCovers(Nest(g4), body);
    NoNewNames(g, g4);
    NoNewNames(g5, WhileTail(g, g5));
    CoversTrans(g, g4, g5);
    CoversTrans(g, g5, WhileTail(g, g5));
  }

  // ---------------------------------------------------------------
  // Programs
  // ---------------------------------------------------------------

  lemma MainCovers(g: Gen, ss: seq<Stmt>)
    requires NamedBlock(NonFunctions(ss)) && GenMain(g, ss).Success?
    ensures Covers(g, GenMain(g, ss).value)
  {
    var g1 := GenBlock(Nest(g), NonFunctions(ss)).value;
    BlockCovers(Nest(g), NonFunctions(ss));
    NoNewNames(g1, GenMain(g, ss).value);
    CoversTrans(g, g1, GenMain(g, ss).value);
  }

  lemma ProgramCovers(g: Gen, p: Program)
    requires NamedBlock(p.statements) && GenProgram(g, p).Success?
    ensures Covers(g, GenProgram(g, p).value)
  {
    var ss := p.statements;
    var g1 := Prologue(g, ss);
    ProgramPhases(g, p);
    var g2 := GenMain(g1, ss).value;
    NamedParts(ss);
    NoNewNames(g, g1);
    MainCovers(g1, ss);
    BlockCovers(g2, Functions(ss));
    CoversTrans(g, g1, g2);
    CoversTrans(g, g2, GenProgram(g, p).value);
  }

  /**
   * Every name a program assigns, at any depth and in any function, is
   * declared on some line of the translation unit.
   */
  lemma ProgramDeclaresEvery(p: Program, h: Gen, x: string)
    requires NamedBlock(p.statements) && GenProgram(Fresh(), p) == Success(h)
    requires x in AssignedIn(p.statements)
    ensures exists i :: 0 <= i < |h.output| && DeclOf(h.output[i]) == Some(x)
  {
    ProgramCovers(Fresh(), p);
    assert h.output[0..] == h.output;
    var i := DeclaredAt(h.output, x);
  }

  /**
   * Declare-once for a whole translation unit: a name the program assigns is
   * declared on exactly one line, and any other name on none.
   */
  lemma ProgramDeclaresExactlyOnce(p: Program, h: Gen, x: string)
    requires NamedBlock(p.statements) && GenProgram(Fresh(), p) == Success(h)
    ensures x in AssignedIn(p.statements) <==>
              exists i :: 0 <= i < |h.output| && DeclOf(h.output[i]) == Some(x)
    ensures forall i, j :: 0 <= i < j < |h.output| && DeclOf(h.output[i]) == Some(x) ==> DeclOf(h.output[j]) != Some(x)
  {
    ProgramDeclaresOnce(p, h);
    if x in AssignedIn(p.statements) {
      ProgramDeclaresEvery(p, h, x);
    }
  }
}
