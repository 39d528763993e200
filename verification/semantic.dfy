/**
 * The semantic analyzer: a walk over a program's top-level statements that
 * builds a name-to-type table and collects diagnostics in the order it
 * detects them, never stopping early.
 *
 * Inference returns the diagnostics it detects instead of appending them to
 * shared state; the statement checks append them, in the same order, to the
 * analyzer's list.
 */
module Semantic {
  import opened Ast

  // ---------------------------------------------------------------
  // Types and diagnostics
  // ---------------------------------------------------------------

  /** The type names inference produces: two real types and two sentinels. */
  datatype Ty = IntTy | StrTy | UnknownTy | ErrorTy

  function TypeName(t: Ty): string {
    match t
    case IntTy => "int"
    case StrTy => "str"
    case UnknownTy => "unknown"
    case ErrorTy => "error"
  }

  datatype Diagnostic =
    | Undefined(name: string)
    | UndefinedInPrint(name: string)
    | AssignMismatch(name: string, declared: Ty, stored: Ty)
    | OperandMismatch(leftTy: Ty, rightTy: Ty)

  /** The message text the analyzer records for each diagnostic. */
  function Render(d: Diagnostic): string {
    match d
    case Undefined(x) => "Undefined variable '" + x + "'."
    case UndefinedInPrint(x) => "Undefined variable '" + x + "' in print statement."
    case AssignMismatch(x, declared, stored) =>
      "Type mismatch: '" + x + "' is " + TypeName(declared) + ", but assigned " + TypeName(stored) + "."
    case OperandMismatch(l, r) =>
      "Type mismatch in operation: " + TypeName(l) + " vs " + TypeName(r) + "."
  }

  function Rendered(ds: seq<Diagnostic>): seq<string> {
    seq(|ds|, i requires 0 <= i < |ds| => Render(ds[i]))
  }

  /** The analyzer's state: the symbol table and the diagnostics so far. */
  datatype Analyzer = Analyzer(table: map<string, Ty>, errors: seq<Diagnostic>)

  function Init(): Analyzer {
    Analyzer(map[], [])
  }

  // ---------------------------------------------------------------
  // Type inference
  // ---------------------------------------------------------------

  /** A type together with the diagnostics detected while inferring it, in detection order. */
  datatype Inferred = Inferred(ty: Ty, diags: seq<Diagnostic>)

  /**
   * `_infer_type`. A number is `int` and a string `str`; a declared name has
   * its recorded type and an undeclared one is `unknown` with one report; an
   * operation checks its left operand, then its right, and is `error` with
   * one more report when their types differ. Any other node (a condition) is
   * `unknown` and is not looked into.
   */
  function Infer(table: map<string, Ty>, e: Expr): (r: Inferred)
    ensures forall i :: 0 <= i < |r.diags| ==> r.diags[i].Undefined? || r.diags[i].OperandMismatch?
    ensures e.Number? ==> r == Inferred(IntTy, [])
    ensures e.StringLit? ==> r == Inferred(StrTy, [])
    ensures e.Condition? ==> r == Inferred(UnknownTy, [])
    ensures e.Identifier? && e.name in table ==> r == Inferred(table[e.name], [])
    ensures e.Identifier? && e.name !in table ==> r == Inferred(UnknownTy, [Undefined(e.name)])
  {
    match e
    case Number(_) => Inferred(IntTy, [])
    case StringLit(_) => Inferred(StrTy, [])
    case Identifier(x) =>
      if x in table then Inferred(table[x], []) else Inferred(UnknownTy, [Undefined(x)])
    case BinaryOp(l, _, r) =>
      var left := Infer(table, l);
      var right := Infer(table, r);
      if left.ty != right.ty then
        Inferred(ErrorTy, left.diags + right.diags + [OperandMismatch(left.ty, right.ty)])
      else
        Inferred(left.ty, left.diags + right.diags)
    case Condition(_, _, _) => Inferred(UnknownTy, [])
  }

  /**
   * An operation reports its left operand's diagnostics, then its right
   * operand's, then at most one more: a mismatch, present exactly when the
   * operand types differ, in which case the type is `error`.
   */
  lemma InferBinary(table: map<string, Ty>, l: Expr, op: string, rt: Expr)
    ensures var t := Infer(table, BinaryOp(l, op, rt));
      var a := Infer(table, l);
      var b := Infer(table, rt);
      && |a.diags| + |b.diags| <= |t.diags| <= |a.diags| + |b.diags| + 1
      && t.diags[..|a.diags|] == a.diags
      && t.diags[|a.diags|..|a.diags| + |b.diags|] == b.diags
      && (|t.diags| == |a.diags| + |b.diags| + 1 <==> a.ty != b.ty)
      && (a.ty == b.ty ==> t.ty == a.ty)
      && (a.ty != b.ty ==> t.ty == ErrorTy && t.diags[|t.diags| - 1] == OperandMismatch(a.ty, b.ty))
  {
    var a := Infer(table, l);
    var b := Infer(table, rt);
    if a.ty == b.ty {
      ThreeParts(a.diags, b.diags, []);
      assert a.diags + b.diags + [] == a.diags + b.diags;
    } else {
      ThreeParts(a.diags, b.diags, [OperandMismatch(a.ty, b.ty)]);
    }
  }

  lemma ThreeParts(x: seq<Diagnostic>, y: seq<Diagnostic>, z: seq<Diagnostic>)
    ensures |x + y + z| == |x| + |y| + |z|
    ensures (x + y + z)[..|x|] == x && (x + y + z)[|x|..|x| + |y|] == y
    ensures |z| > 0 ==> (x + y + z)[|x| + |y| + |z| - 1] == z[|z| - 1]
  {
  }

  /** The undeclared names inference meets, left to right, one entry per occurrence. */
  function Unbound(table: map<string, Ty>, e: Expr): seq<string> {
    match e
    case Identifier(x) => if x in table then [] else [x]
    case BinaryOp(l, _, r) => Unbound(table, l) + Unbound(table, r)
    case _ => []
  }

  /** The names in the `Undefined variable` reports of a diagnostic list, in order. */
  function UndefinedNames(ds: seq<Diagnostic>): seq<string> {
    if |ds| == 0 then []
    else (if ds[0].Undefined? then [ds[0].name] else []) + UndefinedNames(ds[1..])
  }

  lemma {:induction false} UndefinedNamesAppend(a: seq<Diagnostic>, b: seq<Diagnostic>)
    ensures UndefinedNames(a + b) == UndefinedNames(a) + UndefinedNames(b)
    decreases |a|
  {
    if |a| == 0 {
      assert a + b == b;
    } else {
      var rest := a[1..];
      assert (a + b)[0] == a[0] && (a + b)[1..] == rest + b;
      UndefinedNamesAppend(rest, b);
    }
  }

  /** Inference reports exactly the undeclared occurrences, in the order it meets them. */
  lemma {:induction false} InferReportsUnbound(table: map<string, Ty>, e: Expr)
    ensures UndefinedNames(Infer(table, e).diags) == Unbound(table, e)
  {
    match e
    case BinaryOp(l, _, r) =>
      InferReportsUnbound(table, l);
      InferReportsUnbound(table, r);
      var dl := Infer(table, l).diags;
      var dr := Infer(table, r).diags;
      UndefinedNamesAppend(dl, dr);
      if Infer(table, l).ty != Infer(table, r).ty {
        UndefinedNamesAppend(dl + dr, [OperandMismatch(Infer(table, l).ty, Infer(table, r).ty)]);
        assert UndefinedNames([OperandMismatch(Infer(table, l).ty, Infer(table, r).ty)]) == [];
      }
    case Identifier(x) =>
      if x !in table {
        assert UndefinedNames([Undefined(x)]) == [x] + UndefinedNames([]);
      }
    case _ =>
  }

  predicate HasMismatch(ds: seq<Diagnostic>) {
    exists i :: 0 <= i < |ds| && ds[i].OperandMismatch?
  }

  /** Some name inference looks up is recorded with type `error`. */
  predicate ReadsErrorTyped(table: map<string, Ty>, e: Expr) {
    match e
    case Identifier(x) => x in table && table[x] == ErrorTy
    case BinaryOp(l, _, r) => ReadsErrorTyped(table, l) || ReadsErrorTyped(table, r)
    case _ => false
  }

  lemma {:induction false} HasMismatchAppend(a: seq<Diagnostic>, b: seq<Diagnostic>)
    ensures HasMismatch(a + b) <==> HasMismatch(a) || HasMismatch(b)
  {
    if HasMismatch(a + b) {
      var i :| 0 <= i < |a + b| && (a + b)[i].OperandMismatch?;
      if i < |a| {
        assert a[i].OperandMismatch?;
      } else {
        assert b[i - |a|].OperandMismatch?;
      }
    }
    if HasMismatch(a) {
      var i :| 0 <= i < |a| && a[i].OperandMismatch?;
      assert (a + b)[i].OperandMismatch?;
    }
    if HasMismatch(b) {
      var i :| 0 <= i < |b| && b[i].OperandMismatch?;
      assert (a + b)[|a| + i].OperandMismatch?;
    }
  }

  /**
   * An expression is typed `error` exactly when a mismatch was reported
   * while inferring it or it reads a name recorded as `error`: the sentinel
   * spreads upward through every enclosing operation.
   */
  lemma {:induction false} InferErrorType(table: map<string, Ty>, e: Expr)
    ensures Infer(table, e).ty == ErrorTy <==> HasMismatch(Infer(table, e).diags) || ReadsErrorTyped(table, e)
  {
    match e
    case BinaryOp(l, _, r) =>
      InferErrorType(table, l);
      InferErrorType(table, r);
      var dl := Infer(table, l).diags;
      var dr := Infer(table, r).diags;
      HasMismatchAppend(dl, dr);
      var m := [OperandMismatch(Infer(table, l).ty, Infer(table, r).ty)];
      assert m[0].OperandMismatch?;
      HasMismatchAppend(dl + dr, m);
    case Identifier(x) =>
      if x !in table {
        assert !Undefined(x).OperandMismatch?;
      }
    case _ =>
  }

  // ---------------------------------------------------------------
  // Statements
  // ---------------------------------------------------------------

  /**
   * How an assignment is checked. The source infers the type of the target
   * identifier before the right-hand side, which reports a name being
   * declared as undefined; `Intended` leaves that step out.
   */
  datatype Mode = AsWritten | Intended

  /**
   * `_check_assignment`: a new name is declared with the right-hand side's
   * type; a declared name keeps its type, and a different right-hand type
   * is reported.
   */
  function CheckAssignment(mode: Mode, a: Analyzer, x: string, e: Expr): (r: Analyzer)
    ensures x !in a.table ==> r.table == a.table[x := Infer(a.table, e).ty]
    ensures x !in a.table && mode.AsWritten? ==> r.errors == a.errors + [Undefined(x)] + Infer(a.table, e).diags
    ensures x !in a.table && mode.Intended? ==> r.errors == a.errors + Infer(a.table, e).diags
    ensures x in a.table ==> r.table == a.table
    ensures x in a.table ==>
              var t := Infer(a.table, e);
              && (a.table[x] == t.ty ==> r.errors == a.errors + t.diags)
              && (a.table[x] != t.ty ==> r.errors == a.errors + t.diags + [AssignMismatch(x, a.table[x], t.ty)])
  {
    var t := Infer(a.table, e);
    var errs := a.errors + TargetReports(mode, a.table, x) + t.diags;
    assert x in a.table ==> errs == a.errors + t.diags;
    if x !in a.table then Analyzer(a.table[x := t.ty], errs)
    else if a.table[x] == t.ty then Analyzer(a.table, errs)
    else Analyzer(a.table, errs + [AssignMismatch(x, a.table[x], t.ty)])
  }

  /** What inferring the target identifier itself reports: only a name not yet declared, and only as written. */
  function TargetReports(mode: Mode, table: map<string, Ty>, x: string): (ds: seq<Diagnostic>)
    ensures ds == if mode.AsWritten? && x !in table then [Undefined(x)] else []
  {
    if mode.AsWritten? then Infer(table, Identifier(x)).diags else []
  }

  /** One report per identifier argument that is not declared, in argument order. */
  function PrintReports(table: map<string, Ty>, args: seq<Expr>): (ds: seq<Diagnostic>)
    ensures |ds| <= |args|
    ensures forall i :: 0 <= i < |ds| ==> ds[i].UndefinedInPrint? && ds[i].name !in table
  {
    if |args| == 0 then []
    else
      var d := if args[0].Identifier? && args[0].name !in table then [UndefinedInPrint(args[0].name)] else [];
      var rest := PrintReports(table, args[1..]);
      d + rest
  }

  /** Reports for the arguments in `args[..j]` and then `args[j]`. */
  lemma {:induction false} PrintReportsSnoc(table: map<string, Ty>, args: seq<Expr>, j: nat)
    requires j < |args|
    ensures PrintReports(table, args[..j + 1]) ==
              PrintReports(table, args[..j])
              + (if args[j].Identifier? && args[j].name !in table then [UndefinedInPrint(args[j].name)] else [])
    decreases j
  {
    if j > 0 {
      assert args[..j + 1][1..] == args[1..][..j];
      assert args[..j][1..] == args[1..][..j - 1];
      PrintReportsSnoc(table, args[1..], j - 1);
    } else {
      assert args[..1][1..] == [];
    }
  }

  /** An undeclared name is reported once for every argument that is exactly that name. */
  lemma {:induction false} PrintReportsCount(table: map<string, Ty>, args: seq<Expr>, x: string)
    requires x !in table
    ensures multiset(PrintReports(table, args))[UndefinedInPrint(x)] == multiset(args)[Identifier(x)]
    decreases |args|
  {
    if |args| > 0 {
      PrintReportsCount(table, args[1..], x);
      assert args == [args[0]] + args[1..];
    }
  }

  /** A name is reported exactly when some argument is that name and it is undeclared. */
  lemma PrintReportsNames(table: map<string, Ty>, args: seq<Expr>, x: string)
    ensures UndefinedInPrint(x) in PrintReports(table, args) <==> Identifier(x) in args && x !in table
  {
    if x !in table {
      PrintReportsCount(table, args, x);
      assert UndefinedInPrint(x) in PrintReports(table, args) <==> UndefinedInPrint(x) in multiset(PrintReports(table, args));
      assert Identifier(x) in args <==> Identifier(x) in multiset(args);
    }
  }

  /**
   * The reports come in argument order: those for a leading run of the
   * arguments are followed by those for the rest, nothing interleaved.
   */
  lemma {:induction false} PrintReportsSplit(table: map<string, Ty>, args: seq<Expr>, j: nat)
    requires j <= |args|
    ensures PrintReports(table, args) == PrintReports(table, args[..j]) + PrintReports(table, args[j..])
    decreases j
  {
    if j == 0 {
      assert args[j..] == args;
      assert args[..j] == [];
    } else {
      var tail, front := args[1..], args[..j];
      PrintReportsSplit(table, tail, j - 1);
      assert front[1..] == tail[..j - 1] && front[0] == args[0];
      assert args[j..] == tail[j - 1..];
      var d := ArgReport(table, args[0]);
      PrintReportsCons(table, args);
      PrintReportsCons(table, front);
      AppendAssoc(d, PrintReports(table, tail[..j - 1]), PrintReports(table, args[j..]));
    }
  }

  /** The report, if any, for one print argument. */
  function ArgReport(table: map<string, Ty>, arg: Expr): seq<Diagnostic> {
    if arg.Identifier? && arg.name !in table then [UndefinedInPrint(arg.name)] else []
  }

  lemma PrintReportsCons(table: map<string, Ty>, args: seq<Expr>)
    requires |args| > 0
    ensures PrintReports(table, args) == ArgReport(table, args[0]) + PrintReports(table, args[1..])
  {
  }

  lemma AppendAssoc(x: seq<Diagnostic>, y: seq<Diagnostic>, z: seq<Diagnostic>)
    ensures x + (y + z) == (x + y) + z
  {
  }

  /** `_check_print`: the table is not touched. */
  function CheckPrint(a: Analyzer, args: seq<Expr>): (r: Analyzer)
    ensures r.table == a.table && a.errors <= r.errors
    ensures forall i :: |a.errors| <= i < |r.errors| ==> r.errors[i].UndefinedInPrint?
  {
    a.(errors := a.errors + PrintReports(a.table, args))
  }

  /** The print node's arguments: our print statement carries a single expression. */
  function PrintArgs(s: Stmt): seq<Expr>
    requires s.Print?
  {
    [s.expr]
  }

  /** One step of `_check_statements`: only assignments and prints are looked at. */
  function CheckStatement(mode: Mode, a: Analyzer, s: Stmt): (r: Analyzer)
    ensures !s.Assignment? && !s.Print? ==> r == a
    ensures a.errors <= r.errors
    ensures forall x :: x in a.table ==> x in r.table && r.table[x] == a.table[x]
    ensures r.table.Keys == a.table.Keys + (if s.Assignment? then {s.target} else {})
  {
    match s
    case Assignment(x, e) => CheckAssignment(mode, a, x, e)
    case Print(_) => CheckPrint(a, PrintArgs(s))
    case _ => a
  }

  /** The names assigned by the statements themselves, not inside nested blocks. */
  function TopTargets(ss: seq<Stmt>): set<string> {
    if |ss| == 0 then {}
    else (if ss[0].Assignment? then {ss[0].target} else {}) + TopTargets(ss[1..])
  }

  /**
   * `_check_statements`: left to right over the top-level statements. The
   * errors only grow, a recorded type is never replaced, and the table ends
   * up holding exactly the names it started with plus the assigned ones.
   */
  function CheckStatements(mode: Mode, a: Analyzer, ss: seq<Stmt>): (r: Analyzer)
    decreases |ss|
    ensures a.errors <= r.errors
    ensures forall x :: x in a.table ==> x in r.table && r.table[x] == a.table[x]
    ensures r.table.Keys == a.table.Keys + TopTargets(ss)
  {
    if |ss| == 0 then a
    else CheckStatements(mode, CheckStatement(mode, a, ss[0]), ss[1..])
  }

  /** `analyze`: the messages of every diagnostic, in detection order. */
  function Analyze(p: Program): seq<string> {
    Rendered(CheckStatements(AsWritten, Init(), p.statements).errors)
  }

  /** The analysis with the target-inference step left out. */
  function AnalyzeIntended(p: Program): seq<string> {
    Rendered(CheckStatements(Intended, Init(), p.statements).errors)
  }

  // ---------------------------------------------------------------
  // The walk as the source writes it: loops over statements and arguments
  // ---------------------------------------------------------------

  /** `SemanticAnalyzer().analyze(tree)`. */
  method AnalyzeProgram(p: Program) returns (errors: seq<string>)
    ensures errors == Analyze(p)
  {
    var a := Init();
    var i := 0;
    while i < |p.statements|
      invariant 0 <= i <= |p.statements|
      invariant a == CheckStatements(AsWritten, Init(), p.statements[..i])
    {
      var s := p.statements[i];
      var next := a;
      if s.Assignment? {
        next := CheckAssignment(AsWritten, a, s.target, s.expr);
      } else if s.Print? {
        next := CheckPrintLoop(a, PrintArgs(s));
      }
      assert p.statements[..i + 1] == p.statements[..i] + [s];
      StatementsSnoc(AsWritten, Init(), p.statements[..i], s);
      a := next;
      i := i + 1;
    }
    assert p.statements[..i] == p.statements;
    errors := Rendered(a.errors);
  }

  /** `_check_print` as a loop over the arguments. */
  method CheckPrintLoop(a: Analyzer, args: seq<Expr>) returns (r: Analyzer)
    ensures r == CheckPrint(a, args)
  {
    r := a;
    var j := 0;
    while j < |args|
      invariant 0 <= j <= |args|
      invariant r == a.(errors := a.errors + PrintReports(a.table, args[..j]))
    {
      var arg := args[j];
      PrintReportsSnoc(a.table, args, j);
      if arg.Identifier? && arg.name !in r.table {
        r := r.(errors := r.errors + [UndefinedInPrint(arg.name)]);
      }
      j := j + 1;
    }
    assert args[..j] == args;
  }

  /** Checking one more statement after a list extends the list's check. */
  lemma {:induction false} StatementsSnoc(mode: Mode, a: Analyzer, ss: seq<Stmt>, s: Stmt)
    ensures CheckStatements(mode, a, ss + [s]) == CheckStatement(mode, CheckStatements(mode, a, ss), s)
    decreases |ss|
  {
    if |ss| == 0 {
      assert ss + [s] == [s];
      assert [s][1..] == [];
    } else {
      assert (ss + [s])[1..] == ss[1..] + [s];
      StatementsSnoc(mode, CheckStatement(mode, a, ss[0]), ss[1..], s);
    }
  }

  // ---------------------------------------------------------------
  // Properties of the walk
  // ---------------------------------------------------------------

  /** Checking two lists one after the other is checking their concatenation: nothing is reordered. */
  lemma {:induction false} StatementsSplit(mode: Mode, a: Analyzer, s1: seq<Stmt>, s2: seq<Stmt>)
    ensures CheckStatements(mode, a, s1 + s2) == CheckStatements(mode, CheckStatements(mode, a, s1), s2)
    decreases |s1|
  {
    if |s1| == 0 {
      assert s1 + s2 == s2;
    } else {
      assert (s1 + s2)[1..] == s1[1..] + s2;
      StatementsSplit(mode, CheckStatement(mode, a, s1[0]), s1[1..], s2);
    }
  }

  /** The statements the analyzer looks at: assignments and prints, in order. */
  function Checked(ss: seq<Stmt>): (cs: seq<Stmt>)
    ensures forall i :: 0 <= i < |cs| ==> cs[i].Assignment? || cs[i].Print?
    ensures |cs| <= |ss|
  {
    if |ss| == 0 then []
    else if ss[0].Assignment? || ss[0].Print? then [ss[0]] + Checked(ss[1..])
    else Checked(ss[1..])
  }

  /** Conditionals, loops and function definitions change neither the table nor the reports. */
  lemma {:induction false} OtherStatementsIgnored(mode: Mode, a: Analyzer, ss: seq<Stmt>)
    ensures CheckStatements(mode, a, ss) == CheckStatements(mode, a, Checked(ss))
    decreases |ss|
  {
    if |ss| > 0 {
      OtherStatementsIgnored(mode, CheckStatement(mode, a, ss[0]), ss[1..]);
      if ss[0].Assignment? || ss[0].Print? {
        assert ([ss[0]] + Checked(ss[1..]))[1..] == Checked(ss[1..]);
      }
    }
  }

  /** Without assignments the table stays as it is. */
  lemma {:induction false} NoAssignmentKeepsTable(mode: Mode, a: Analyzer, ss: seq<Stmt>)
    requires forall i :: 0 <= i < |ss| ==> !ss[i].Assignment?
    ensures CheckStatements(mode, a, ss).table == a.table
    decreases |ss|
  {
    if |ss| > 0 {
      NoAssignmentKeepsTable(mode, CheckStatement(mode, a, ss[0]), ss[1..]);
    }
  }

  /**
   * As written, a program with any top-level assignment is reported: the
   * first assignment meets an empty table, and checking its target reports
   * the name being declared.
   */
  lemma {:induction false} AsWrittenRejectsAssignments(p: Program, i: nat)
    requires i < |p.statements| && p.statements[i].Assignment?
    ensures Analyze(p) != []
    ensures Undefined(FirstAssignment(p.statements).target) in CheckStatements(AsWritten, Init(), p.statements).errors
  {
    var ss := p.statements;
    var k := FirstAssignmentIndex(ss);
    var before := CheckStatements(AsWritten, Init(), ss[..k]);
    NoAssignmentKeepsTable(AsWritten, Init(), ss[..k]);
    var after := CheckStatement(AsWritten, before, ss[k]);
    FreshTargetReported(before, ss[k]);
    SplitAt(AsWritten, Init(), ss, k);
    var all := CheckStatements(AsWritten, after, ss[k + 1..]).errors;
    assert after.errors <= all;
    assert |Rendered(all)| == |all| > 0;
  }

  /** Checking a list is checking its first `k` statements, then statement `k`, then the rest. */
  lemma {:induction false} SplitAt(mode: Mode, a: Analyzer, ss: seq<Stmt>, k: nat)
    requires k < |ss|
    ensures CheckStatements(mode, a, ss)
            == CheckStatements(mode, CheckStatement(mode, CheckStatements(mode, a, ss[..k]), ss[k]), ss[k + 1..])
  {
    var front, rest := ss[..k + 1], ss[k + 1..];
    assert ss == front + rest;
    PrefixSnoc(mode, a, ss, k);
    StatementsSplit(mode, a, front, rest);
  }

  lemma {:induction false} PrefixSnoc(mode: Mode, a: Analyzer, ss: seq<Stmt>, k: nat)
    requires k < |ss|
    ensures CheckStatements(mode, a, ss[..k + 1]) == CheckStatement(mode, CheckStatements(mode, a, ss[..k]), ss[k])
  {
    assert ss[..k + 1] == ss[..k] + [ss[k]];
    StatementsSnoc(mode, a, ss[..k], ss[k]);
  }

  /** As written, assigning a name that is not declared reports it as undefined. */
  lemma {:induction false} FreshTargetReported(a: Analyzer, s: Stmt)
    requires s.Assignment? && s.target !in a.table
    ensures Undefined(s.target) in CheckStatement(AsWritten, a, s).errors
  {
    var r := CheckStatement(AsWritten, a, s);
    assert r.errors == a.errors + [Undefined(s.target)] + Infer(a.table, s.expr).diags;
    assert r.errors[|a.errors|] == Undefined(s.target);
  }

  /** The index of the first top-level assignment. */
  function FirstAssignmentIndex(ss: seq<Stmt>): (k: nat)
    requires exists i :: 0 <= i < |ss| && ss[i].Assignment?
    ensures k < |ss| && ss[k].Assignment?
    ensures forall i :: 0 <= i < k ==> !ss[i].Assignment?
  {
    if ss[0].Assignment? then 0
    else
      var i :| 0 <= i < |ss| && ss[i].Assignment?;
      assert ss[1..][i - 1].Assignment?;
      1 + FirstAssignmentIndex(ss[1..])
  }

  function FirstAssignment(ss: seq<Stmt>): Stmt
    requires exists i :: 0 <= i < |ss| && ss[i].Assignment?
  {
    ss[FirstAssignmentIndex(ss)]
  }

  // ---------------------------------------------------------------
  // The intended analysis
  // ---------------------------------------------------------------

  /** An integer expression over the names in `declared`: numbers, those names, and operations on them. */
  predicate IntExpr(declared: set<string>, e: Expr) {
    match e
    case Number(_) => true
    case Identifier(x) => x in declared
    case BinaryOp(l, _, r) => IntExpr(declared, l) && IntExpr(declared, r)
    case _ => false
  }

  /**
   * Every assignment stores an integer expression over names assigned
   * earlier, and every printed name was assigned earlier.
   */
  predicate DeclaredBeforeUse(declared: set<string>, ss: seq<Stmt>)
    decreases |ss|
  {
    if |ss| == 0 then true
    else
      match ss[0]
      case Assignment(x, e) => IntExpr(declared, e) && DeclaredBeforeUse(declared + {x}, ss[1..])
      case Print(e) => (e.Identifier? ==> e.name in declared) && DeclaredBeforeUse(declared, ss[1..])
      case _ => DeclaredBeforeUse(declared, ss[1..])
  }

  predicate AllInt(table: map<string, Ty>) {
    forall x :: x in table ==> table[x] == IntTy
  }

  lemma {:induction false} IntExprIsInt(table: map<string, Ty>, e: Expr)
    requires AllInt(table) && IntExpr(table.Keys, e)
    ensures Infer(table, e) == Inferred(IntTy, [])
  {
    match e
    case BinaryOp(l, _, r) =>
      IntExprIsInt(table, l);
      IntExprIsInt(table, r);
    case _ =>
  }

  lemma {:induction false} IntendedAcceptsFrom(a: Analyzer, ss: seq<Stmt>)
    requires AllInt(a.table) && DeclaredBeforeUse(a.table.Keys, ss)
    ensures CheckStatements(Intended, a, ss).errors == a.errors
    decreases |ss|
  {
    if |ss| > 0 {
      var s := ss[0];
      var next := CheckStatement(Intended, a, s);
      match s
      case Assignment(x, e) =>
        IntExprIsInt(a.table, e);
        assert next.table.Keys == a.table.Keys + {x};
        IntendedAcceptsFrom(next, ss[1..]);
      case Print(e) =>
        assert PrintReports(a.table, [e]) == [];
        IntendedAcceptsFrom(next, ss[1..]);
      case _ =>
        IntendedAcceptsFrom(next, ss[1..]);
    }
  }

  /** Without the target step, a program that declares every integer name before using it gets no report. */
  lemma {:induction false} IntendedAcceptsDeclaredInts(p: Program)
    requires DeclaredBeforeUse({}, p.statements)
    ensures AnalyzeIntended(p) == []
  {
    assert Init().table.Keys == {};
    IntendedAcceptsFrom(Init(), p.statements);
  }

  /** The two modes differ only in the report for a name being declared. */
  lemma {:induction false} ModesDiffer(a: Analyzer, x: string, e: Expr)
    ensures x in a.table ==> CheckAssignment(AsWritten, a, x, e) == CheckAssignment(Intended, a, x, e)
    ensures x !in a.table ==>
              var w := CheckAssignment(AsWritten, a, x, e);
              var n := CheckAssignment(Intended, a, x, e);
              && w.table == n.table
              && w.errors == a.errors + [Undefined(x)] + n.errors[|a.errors|..]
  {
  }

  /**
   * The extra reports the target step adds along `ss`: one `Undefined` for
   * each top-level assignment to a name not declared before it.
   */
  function TargetStepReports(declared: set<string>, ss: seq<Stmt>): (ds: seq<Diagnostic>)
    decreases |ss|
  {
    if |ss| == 0 then []
    else if ss[0].Assignment? && ss[0].target !in declared then
      [Undefined(ss[0].target)] + TargetStepReports(declared + {ss[0].target}, ss[1..])
    else TargetStepReports(declared, ss[1..])
  }

  /** There is one such report per top-level target not declared at the start. */
  lemma {:induction false} TargetStepReportsCount(declared: set<string>, ss: seq<Stmt>)
    ensures |TargetStepReports(declared, ss)| == |TopTargets(ss) - declared|
    ensures forall i :: 0 <= i < |TargetStepReports(declared, ss)| ==>
              TargetStepReports(declared, ss)[i].Undefined? && TargetStepReports(declared, ss)[i].name in TopTargets(ss) - declared
    decreases |ss|
  {
    if |ss| > 0 {
      var s, rest := ss[0], ss[1..];
      if s.Assignment? && s.target !in declared {
        TargetStepReportsCount(declared + {s.target}, rest);
        assert TopTargets(ss) - declared == {s.target} + (TopTargets(rest) - (declared + {s.target}));
      } else {
        TargetStepReportsCount(declared, rest);
        assert TopTargets(ss) - declared == TopTargets(rest) - declared;
      }
    }
  }

  /**
   * Run from the same table, the two modes keep the same table, and the
   * reports as written are those without the target step plus exactly the
   * target step's reports.
   */
  lemma {:induction false} ModesCount(a: Analyzer, b: Analyzer, ss: seq<Stmt>)
    requires a.table == b.table
    ensures CheckStatements(AsWritten, a, ss).table == CheckStatements(Intended, b, ss).table
    ensures multiset(CheckStatements(AsWritten, a, ss).errors[|a.errors|..])
            == multiset(CheckStatements(Intended, b, ss).errors[|b.errors|..]) + multiset(TargetStepReports(a.table.Keys, ss))
    decreases |ss|
  {
    var w, n := CheckStatements(AsWritten, a, ss), CheckStatements(Intended, b, ss);
    if |ss| == 0 {
      assert w.errors[|a.errors|..] == [] && n.errors[|b.errors|..] == [];
    } else {
      var s, rest := ss[0], ss[1..];
      var a1, b1 := CheckStatement(AsWritten, a, s), CheckStatement(Intended, b, s);
      var da, db := a1.errors[|a.errors|..], b1.errors[|b.errors|..];
      StepModes(a, b, s);
      ModesCount(a1, b1, rest);
      assert w == CheckStatements(AsWritten, a1, rest) && n == CheckStatements(Intended, b1, rest);
      Unslice(a.errors, a1.errors, w.errors);
      Unslice(b.errors, b1.errors, n.errors);
      if s.Assignment? && s.target !in a.table {
        assert TargetStepReports(a.table.Keys, ss) == [Undefined(s.target)] + TargetStepReports(a1.table.Keys, rest);
      } else {
        assert TargetStepReports(a.table.Keys, ss) == TargetStepReports(a1.table.Keys, rest);
      }
    }
  }

  /** One statement in the two modes, from the same table. */
  lemma StepModes(a: Analyzer, b: Analyzer, s: Stmt)
    requires a.table == b.table
    ensures var a1, b1 := CheckStatement(AsWritten, a, s), CheckStatement(Intended, b, s);
      && a1.table == b1.table
      && a1.errors[|a.errors|..] ==
           (if s.Assignment? && s.target !in a.table then [Undefined(s.target)] else []) + b1.errors[|b.errors|..]
  {
    var a1, b1 := CheckStatement(AsWritten, a, s), CheckStatement(Intended, b, s);
    if s.Assignment? {
      var t := Infer(a.table, s.expr);
      if s.target !in a.table {
        assert a1.errors[|a.errors|..] == [Undefined(s.target)] + t.diags;
        assert b1.errors[|b.errors|..] == t.diags;
      } else if a.table[s.target] == t.ty {
        assert a1.errors[|a.errors|..] == t.diags == b1.errors[|b.errors|..];
      } else {
        assert a1.errors[|a.errors|..] == t.diags + [AssignMismatch(s.target, a.table[s.target], t.ty)] == b1.errors[|b.errors|..];
      }
    } else if s.Print? {
      assert a1.errors[|a.errors|..] == PrintReports(a.table, PrintArgs(s)) == b1.errors[|b.errors|..];
    } else {
      assert a1.errors[|a.errors|..] == [] == b1.errors[|b.errors|..];
    }
  }

  /** The new part of a list grown in two steps is the first step's part followed by the second's. */
  lemma Unslice(x: seq<Diagnostic>, y: seq<Diagnostic>, z: seq<Diagnostic>)
    requires x <= y <= z
    ensures z[|x|..] == y[|x|..] + z[|y|..]
  {
  }

  /**
   * `analyze` against the analysis without the target step: the same
   * messages plus one `Undefined variable` report per name assigned at the
   * top level, so it is silent exactly when the other is and the program
   * assigns nothing at the top level.
   */
  lemma AnalyzeAddsTargetReports(p: Program)
    ensures multiset(CheckStatements(AsWritten, Init(), p.statements).errors)
            == multiset(CheckStatements(Intended, Init(), p.statements).errors) + multiset(TargetStepReports({}, p.statements))
    ensures |Analyze(p)| == |AnalyzeIntended(p)| + |TopTargets(p.statements)|
    ensures Analyze(p) == [] <==> AnalyzeIntended(p) == [] && TopTargets(p.statements) == {}
  {
    var ss := p.statements;
    var w, n := CheckStatements(AsWritten, Init(), ss).errors, CheckStatements(Intended, Init(), ss).errors;
    ModesCount(Init(), Init(), ss);
    assert w[0..] == w && n[0..] == n;
    assert Init().table.Keys == {};
    TargetStepReportsCount({}, ss);
    assert |multiset(w)| == |multiset(n)| + |multiset(TargetStepReports({}, ss))|;
    assert TopTargets(ss) - {} == TopTargets(ss);
  }

  // ---------------------------------------------------------------
  // Worked analyses
  // ---------------------------------------------------------------

  /** `x = 5 + 3; print(x)`: declaring `x` is reported as using an undefined `x`. */
  lemma SumProgramReported()
    ensures Analyze(Program([Assignment("x", BinaryOp(Number(5), "+", Number(3))), Print(Identifier("x"))]))
              == ["Undefined variable 'x'."]
  {
    var ss := [Assignment("x", BinaryOp(Number(5), "+", Number(3))), Print(Identifier("x"))];
    var a1 := CheckStatement(AsWritten, Init(), ss[0]);
    assert a1 == Analyzer(map["x" := IntTy], [Undefined("x")]);
    var a2 := CheckStatement(AsWritten, a1, ss[1]);
    assert PrintReports(a1.table, [Identifier("x")]) == [];
    assert a2 == a1;
    assert ss[1..][1..] == [];
    assert CheckStatements(AsWritten, Init(), ss) == a2;
    UndefinedXMessage();
  }

  /** `print(y)` with nothing declared. */
  lemma UndeclaredPrintReported()
    ensures Analyze(Program([Print(Identifier("y"))])) == ["Undefined variable 'y' in print statement."]
  {
    var ss := [Print(Identifier("y"))];
    assert CheckStatements(AsWritten, Init(), ss) == Analyzer(map[], [UndefinedInPrint("y")]);
    UndefinedYMessage();
  }

  /** Without the target step, storing a string into an integer variable is the only report. */
  lemma RetypingReported()
    ensures AnalyzeIntended(Program([Assignment("x", Number(1)), Assignment("x", StringLit("a"))]))
              == ["Type mismatch: 'x' is int, but assigned str."]
  {
    var ss := [Assignment("x", Number(1)), Assignment("x", StringLit("a"))];
    var a1 := CheckStatement(Intended, Init(), ss[0]);
    assert a1 == Analyzer(map["x" := IntTy], []);
    var a2 := CheckStatement(Intended, a1, ss[1]);
    assert a2 == Analyzer(map["x" := IntTy], [AssignMismatch("x", IntTy, StrTy)]);
    assert ss[1..][1..] == [];
    assert CheckStatements(Intended, Init(), ss) == a2;
    RetypingMessage();
  }

  /**
   * The same program as written: the first assignment's target is looked up
   * before it is declared, so an undefined-variable report precedes the
   * mismatch.
   */
  lemma RetypingReportedAsWritten()
    ensures Analyze(Program([Assignment("x", Number(1)), Assignment("x", StringLit("a"))]))
              == ["Undefined variable 'x'.", "Type mismatch: 'x' is int, but assigned str."]
  {
    var ss := [Assignment("x", Number(1)), Assignment("x", StringLit("a"))];
    var a1 := CheckStatement(AsWritten, Init(), ss[0]);
    assert a1 == Analyzer(map["x" := IntTy], [Undefined("x")]);
    var a2 := CheckStatement(AsWritten, a1, ss[1]);
    assert a2 == Analyzer(map["x" := IntTy], [Undefined("x"), AssignMismatch("x", IntTy, StrTy)]);
    assert ss[1..][1..] == [];
    assert CheckStatements(AsWritten, Init(), ss) == a2;
    UndefinedXMessage();
    RetypingMessage();
    assert Rendered([Undefined("x"), AssignMismatch("x", IntTy, StrTy)])
           == Rendered([Undefined("x")]) + Rendered([AssignMismatch("x", IntTy, StrTy)]);
  }

  /** `1 + "a"` is typed `error` with one mismatch report. */
  lemma OperandMismatchReported()
    ensures Infer(map[], BinaryOp(Number(1), "+", StringLit("a"))) == Inferred(ErrorTy, [OperandMismatch(IntTy, StrTy)])
    ensures Render(OperandMismatch(IntTy, StrTy)) == "Type mismatch in operation: int vs str."
  {
  }

  lemma UndefinedXMessage()
    ensures Rendered([Undefined("x")]) == ["Undefined variable 'x'."]
  {
    assert Render(Undefined("x")) == "Undefined variable 'x'.";
  }

  lemma UndefinedYMessage()
    ensures Rendered([UndefinedInPrint("y")]) == ["Undefined variable 'y' in print statement."]
  {
    assert Render(UndefinedInPrint("y")) == "Undefined variable 'y' in print statement.";
  }

  lemma RetypingMessage()
    ensures Rendered([AssignMismatch("x", IntTy, StrTy)]) == ["Type mismatch: 'x' is int, but assigned str."]
  {
    RetypingText();
    assert Rendered([AssignMismatch("x", IntTy, StrTy)]) == [Render(AssignMismatch("x", IntTy, StrTy))];
  }

  lemma RetypingText()
    ensures Render(AssignMismatch("x", IntTy, StrTy)) == "Type mismatch: 'x' is int, but assigned str."
  {
    assert Render(AssignMismatch("x", IntTy, StrTy))
           == "Type mismatch: '" + "x" + "' is " + "int" + ", but assigned " + "str" + ".";
  }
}
