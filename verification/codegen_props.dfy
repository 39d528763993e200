/**
 * Properties of the code generator that relate several calls: label
 * naming, declare-once, the program layout, parenthesisation, and two
 * worked lowerings.
 */
module CodeGenProps {
  import opened Wrappers
  import opened Ast
  import opened Text
  import opened CodeGen

  // ---------------------------------------------------------------
  // Labels
  // ---------------------------------------------------------------

  /** Different counter values never give the same label. */
  lemma LabelNamesDistinct(i: nat, j: nat)
    requires i != j
    ensures LabelName(i) != LabelName(j)
  {
    NatToStringInjective(i, j);
    assert LabelName(i)[6..] == NatToString(i);
    assert LabelName(j)[6..] == NatToString(j);
  }

  /** `n` labels taken one after another with `_new_label`. */
  function IssueLabels(g: Gen, n: nat): (r: (Gen, seq<string>))
    decreases n
    ensures r.0.labels == g.labels + n && |r.1| == n
    ensures forall k :: 0 <= k < n ==> r.1[k] == LabelName(g.labels + k + 1)
  {
    if n == 0 then (g, [])
    else
      var (g1, first) := NewLabel(g);
      var (h, rest) := IssueLabels(g1, n - 1);
      (h, [first] + rest)
  }

  /** From a fresh generator the k-th label is `label_k`, and no two labels of the run coincide. */
  lemma FreshRunLabels(n: nat)
    ensures var labels := IssueLabels(Fresh(), n).1;
      && (forall k :: 1 <= k <= n ==> labels[k - 1] == "label_" + NatToString(k))
      && (forall i, j :: 0 <= i < j < n ==> labels[i] != labels[j])
  {
    var labels := IssueLabels(Fresh(), n).1;
    forall i, j | 0 <= i < j < n
      ensures labels[i] != labels[j]
    {
      LabelNamesDistinct(i + 1, j + 1);
    }
  }

  // ---------------------------------------------------------------
  // Declare once
  // ---------------------------------------------------------------

  /** A block is lowered as its first part followed by its second part. */
  lemma {:induction false} GenBlockAppend(g: Gen, a: seq<Stmt>, b: seq<Stmt>)
    ensures GenBlock(g, a + b) ==
              match GenBlock(g, a)
              case Success(h) => GenBlock(h, b)
              case Failure(err) => Failure(err)
    decreases a
  {
    if |a| == 0 {
      assert a + b == b;
    } else {
      assert (a + b)[0] == a[0];
      assert (a + b)[1..] == a[1..] + b;
      match GenStmt(g, a[0])
      case Success(g1) => GenBlockAppend(g1, a[1..], b);
      case Failure(_) =>
    }
  }

  /**
   * Once a block has assigned a name anywhere, a later assignment of that name
   * is a bare store and the table does not change.
   */
  lemma LaterAssignmentStores(g: Gen, before: seq<Stmt>, x: string, e: Expr)
    requires GenBlock(g, before + [Assignment(x, e)]).Success?
    requires x in AssignedIn(before)
    ensures GenBlock(g, before).Success?
    ensures LowerExpr(GenBlock(g, before).value.table, e).Success?
    ensures var mid := GenBlock(g, before).value;
      var out := GenBlock(g, before + [Assignment(x, e)]).value;
      && out.table == mid.table
      && out.output == mid.output + [Indent(g.indent) + (x + " = " + LowerExpr(mid.table, e).value + ";")]
  {
    GenBlockAppend(g, before, [Assignment(x, e)]);
    var mid := GenBlock(g, before).value;
    assert [Assignment(x, e)][1..] == [];
  }

  /**
   * The first assignment of a name the table does not hold emits its
   * declaration and records it as `int`.
   */
  lemma FirstAssignmentDeclares(g: Gen, before: seq<Stmt>, x: string, e: Expr)
    requires GenBlock(g, before + [Assignment(x, e)]).Success?
    requires x !in g.table && x !in AssignedIn(before)
    ensures GenBlock(g, before).Success?
    ensures LowerExpr(GenBlock(g, before).value.table, e).Success?
    ensures var mid := GenBlock(g, before).value;
      var out := GenBlock(g, before + [Assignment(x, e)]).value;
      && out.table == mid.table[x := IntType]
      && out.output == mid.output + [Indent(g.indent) + ("int " + x + " = " + LowerExpr(mid.table, e).value + ";")]
  {
    GenBlockAppend(g, before, [Assignment(x, e)]);
    assert [Assignment(x, e)][1..] == [];
  }

  // ---------------------------------------------------------------
  // Functions
  // ---------------------------------------------------------------

  /**
   * Parameters are not entered into the table: a function returning one of
   * its parameters fails unless the name was assigned before or in its body.
   */
  lemma ReturnedParamIsUndefined(g: Gen, name: string, params: seq<string>, body: seq<Stmt>, p: string)
    requires p in params && p !in g.table && p !in AssignedIn(body)
    ensures GenFunction(g, name, params, body, Some(Identifier(p))) ==
              (if GenBlock(Nest(AddLine(g, FunctionHeader(name, params))), body).Success?
               then Failure(UndefinedVariable(p))
               else GenBlock(Nest(AddLine(g, FunctionHeader(name, params))), body))
  {
  }

  // ---------------------------------------------------------------
  // Program layout
  // ---------------------------------------------------------------

  /**
   * The lines of function definitions, in order: each starts with its header
   * and ends with its closing brace, all at depth `k`.
   */
  predicate FunctionChunks(out: seq<string>, from: nat, fs: seq<Stmt>, k: nat)
    requires forall i :: 0 <= i < |fs| ==> fs[i].Function?
    decreases |fs|
  {
    if |fs| == 0 then from == |out|
    else
      exists j :: from + 3 <= j <= |out| && out[j - 1] == Indent(k) + "}"
        && out[from] == Indent(k) + FunctionHeader(fs[0].name, fs[0].params)
        && LinesIndented(out[..j], from, k)
        && FunctionChunks(out, j, fs[1..], k)
  }

  /** The lines one function definition adds. */
  lemma FunctionChunk(g: Gen, f: Stmt)
    requires f.Function? && GenStmt(g, f).Success?
    ensures var out := GenStmt(g, f).value.output;
      && |out| >= |g.output| + 3
      && out[|g.output|] == Indent(g.indent) + FunctionHeader(f.name, f.params)
      && out[|out| - 1] == Indent(g.indent) + "}"
  {
    assert GenStmt(g, f) == GenFunction(g, f.name, f.params, f.body, f.returnExpr);
  }

  /** The function definitions emitted after `g`'s lines are the chunks of `fs`, in order. */
  lemma {:induction false} FunctionsLayout(g: Gen, fs: seq<Stmt>)
    requires forall i :: 0 <= i < |fs| ==> fs[i].Function?
    requires GenBlock(g, fs).Success?
    ensures FunctionChunks(GenBlock(g, fs).value.output, |g.output|, fs, g.indent)
    decreases fs
  {
    var out := GenBlock(g, fs).value.output;
    if |fs| == 0 {
      assert out == g.output;
    } else {
      var g1 := GenStmt(g, fs[0]).value;
      assert GenBlock(g, fs) == GenBlock(g1, fs[1..]);
      FunctionsLayout(g1, fs[1..]);
      FunctionChunk(g, fs[0]);
      var mid := |g1.output|;
      assert g1.output <= out;
      assert out[..mid] == g1.output;
      assert out[|g.output|] == g1.output[|g.output|];
      assert out[mid - 1] == g1.output[mid - 1];
      assert mid <= |out|;
    }
  }

  /**
   * The whole program: the includes, one forward declaration per function
   * before `int main() {`, the other statements inside `main` one level
   * deeper, `main`'s `return 0;` and closing brace, then the functions.
   */
  lemma ProgramLayout(g: Gen, p: Program)
    requires GenProgram(g, p).Success?
    ensures PrologueAt(GenProgram(g, p).value.output, |g.output|, Functions(p.statements), g.indent)
    ensures GenMain(Prologue(g, p.statements), p.statements).Success?
    ensures MainBody(GenProgram(g, p).value.output, |g.output| + 4 + |Functions(p.statements)|,
                     Functions(p.statements), g.indent, MainEnd(g, p.statements))
  {
    ProgramPhases(g, p);
    var g2 := GenMain(Prologue(g, p.statements), p.statements).value;
    PhasesLayout(g, p.statements, g2, GenProgram(g, p).value.output);
  }

  /** Where `main`'s `return 0;` sits in the buffer after lowering `ss` from `g`. */
  function MainEnd(g: Gen, ss: seq<Stmt>): nat
    requires GenMain(Prologue(g, ss), ss).Success?
  {
    |GenMain(Prologue(g, ss), ss).value.output| - 2
  }

  /** The layout, from the three phases of `GenProgram`. */
  lemma PhasesLayout(g: Gen, ss: seq<Stmt>, g2: Gen, out: seq<string>)
    requires GenMain(Prologue(g, ss), ss) == Success(g2)
    requires GenBlock(g2, Functions(ss)).Success?
    requires out == GenBlock(g2, Functions(ss)).value.output
    ensures PrologueAt(out, |g.output|, Functions(ss), g.indent)
    ensures MainBody(out, |g.output| + 4 + |Functions(ss)|, Functions(ss), g.indent, MainEnd(g, ss))
  {
    var g1 := Prologue(g, ss);
    assert g1.output <= out by {
      assert g1.output <= g2.output;
    }
    PrologueLines(g, ss, out);
    MainThenFunctionsFrom(g1, ss, g2, GenBlock(g2, Functions(ss)).value, |g.output| + 4 + |Functions(ss)|, g.indent, MainEnd(g, ss));
  }

  /** `main`'s lines and the function definitions that follow them. */
  lemma MainThenFunctionsFrom(g1: Gen, ss: seq<Stmt>, g2: Gen, h: Gen, from: nat, k: nat, m: nat)
    requires GenMain(g1, ss) == Success(g2) && GenBlock(g2, Functions(ss)) == Success(h)
    requires from == |g1.output| && k == g1.indent && m + 2 == |g2.output|
    ensures MainBody(h.output, from, Functions(ss), k, m)
  {
    var fs := Functions(ss);
    assert g2.output <= h.output;
    MainLines(g1, ss, g2, h.output, m);
    FunctionsAfter(g2, fs, h, m, k);
    MainBodyIntro(h.output, from, fs, k, m);
  }

  lemma FunctionsAfter(g2: Gen, fs: seq<Stmt>, h: Gen, m: nat, k: nat)
    requires forall i :: 0 <= i < |fs| ==> fs[i].Function?
    requires GenBlock(g2, fs) == Success(h) && m + 2 == |g2.output| && k == g2.indent
    ensures FunctionChunks(h.output, m + 2, fs, k)
  {
    FunctionsLayout(g2, fs);
  }

  lemma MainBodyIntro(out: seq<string>, from: nat, fs: seq<Stmt>, k: nat, m: nat)
    requires forall i :: 0 <= i < |fs| ==> fs[i].Function?
    requires from <= m && m + 2 <= |out|
    requires LinesIndented(out[..m], from, k + 1)
    requires out[m] == Indent(k) + "return 0;" && out[m + 1] == Indent(k) + "}\n"
    requires FunctionChunks(out, m + 2, fs, k)
    ensures MainBody(out, from, fs, k, m)
  {
  }

  /**
   * Lines `n` on of `out` start with the prologue of a translation unit at
   * depth `k`: the includes, one forward declaration per function, the
   * comment and `int main() {`.
   */
  predicate PrologueAt(out: seq<string>, n: nat, fs: seq<Stmt>, k: nat)
    requires forall i :: 0 <= i < |fs| ==> fs[i].Function?
  {
    n + 4 + |fs| <= |out| && out[n..n + 4 + |fs|] == PrologueText(fs, k)
  }

  /** The prologue line by line. */
  lemma PrologueTextLines(fs: seq<Stmt>, k: nat)
    requires forall i :: 0 <= i < |fs| ==> fs[i].Function?
    ensures var lines := PrologueText(fs, k);
      && |lines| == 4 + |fs|
      && lines[0] == Indent(k) + "#include <stdio.h>"
      && lines[1] == Indent(k) + "#include <stdlib.h>\n"
      && (forall i :: 0 <= i < |fs| ==> lines[2 + i] == Indent(k) + ForwardDecl(fs[i]))
      && lines[2 + |fs|] == Indent(k) + "\n// Main Program"
      && lines[3 + |fs|] == Indent(k) + "int main() {"
  {
    var lines := PrologueText(fs, k);
    var decls := ForwardDeclLines(fs, k);
    forall i | 0 <= i < |fs|
      ensures lines[2 + i] == Indent(k) + ForwardDecl(fs[i])
    {
      assert lines[2 + i] == decls[i];
    }
  }

  /**
   * From `from` to `m`: `main`'s statements one level deeper; then its
   * `return 0;` and closing brace; then the function definitions.
   */
  predicate MainBody(out: seq<string>, from: nat, fs: seq<Stmt>, k: nat, m: nat)
    requires forall i :: 0 <= i < |fs| ==> fs[i].Function?
  {
    && from <= m && m + 2 <= |out|
    && LinesIndented(out[..m], from, k + 1)
    && out[m] == Indent(k) + "return 0;"
    && out[m + 1] == Indent(k) + "}\n"
    && FunctionChunks(out, m + 2, fs, k)
  }

  /** `GenProgram` is the prologue, then `main`, then the functions. */
  lemma ProgramPhases(g: Gen, p: Program)
    requires GenProgram(g, p).Success?
    ensures GenMain(Prologue(g, p.statements), p.statements).Success?
    ensures var g2 := GenMain(Prologue(g, p.statements), p.statements).value;
      GenBlock(g2, Functions(p.statements)) == GenProgram(g, p)
  {
  }

  /** Without functions, a program is its prologue and `main`. */
  lemma ProgramWithoutFunctions(g: Gen, ss: seq<Stmt>, m: Gen)
    requires Functions(ss) == [] && GenMain(Prologue(g, ss), ss) == Success(m)
    ensures GenProgram(g, Program(ss)) == Success(m)
  {
    assert GenBlock(m, []) == Success(m);
  }

  lemma PrologueLines(g: Gen, ss: seq<Stmt>, out: seq<string>)
    requires Prologue(g, ss).output <= out
    ensures |Prologue(g, ss).output| == |g.output| + 4 + |Functions(ss)|
    ensures PrologueAt(out, |g.output|, Functions(ss), g.indent)
  {
    PrefixWindow(g.output, PrologueText(Functions(ss), g.indent), out);
  }

  /** Lines appended to `pre` sit, in a longer buffer, right after `pre`'s lines. */
  lemma PrefixWindow(pre: seq<string>, x: seq<string>, out: seq<string>)
    requires pre + x <= out
    ensures out[|pre|..|pre| + |x|] == x
  {
    assert out[..|pre| + |x|] == pre + x;
    assert out[|pre|..|pre| + |x|] == (pre + x)[|pre|..];
  }

  lemma MainLines(g: Gen, ss: seq<Stmt>, h: Gen, out: seq<string>, m: nat)
    requires GenMain(g, ss) == Success(h) && h.output <= out && m + 2 == |h.output|
    ensures && |g.output| <= m
            && LinesIndented(out[..m], |g.output|, g.indent + 1)
            && out[m] == Indent(g.indent) + "return 0;"
            && out[m + 1] == Indent(g.indent) + "}\n"
  {
    assert out[..m] == h.output[..m];
    assert out[m] == h.output[m] && out[m + 1] == h.output[m + 1];
  }

  /** `generate` keeps the buffer's order: line `i` follows the join of the lines before it. */
  lemma GeneratedTextOrder(g: Gen, p: Program, i: nat)
    requires GenProgram(g, p).Success?
    requires 0 < i < |GenProgram(g, p).value.output|
    ensures var out := GenProgram(g, p).value.output;
      Generate(g, p).Success? &&
      Generate(g, p).value == Join(out[..i], "\n") + "\n" + Join(out[i..], "\n")
  {
    JoinSplit(GenProgram(g, p).value.output, i, "\n");
  }

  // ---------------------------------------------------------------
  // Parenthesisation
  // ---------------------------------------------------------------

  /** Open minus close parentheses. */
  function Depth(s: string): int {
    if |s| == 0 then 0
    else (if s[0] == '(' then 1 else if s[0] == ')' then -1 else 0) + Depth(s[1..])
  }

  predicate Balanced(s: string) {
    Depth(s) == 0 && forall k :: 0 <= k <= |s| ==> Depth(s[..k]) >= 0
  }

  /** One parenthesised group: the opening parenthesis closes only at the very end. */
  predicate Wrapped(s: string) {
    && |s| >= 2 && s[0] == '(' && s[|s| - 1] == ')'
    && Depth(s) == 0
    && forall k :: 1 <= k < |s| ==> Depth(s[..k]) >= 1
  }

  predicate NoParens(s: string) {
    forall i :: 0 <= i < |s| ==> s[i] != '(' && s[i] != ')'
  }

  /** The parser's names and operators carry no parentheses. */
  predicate PlainText(e: Expr) {
    match e
    case BinaryOp(l, op, r) => PlainText(l) && NoParens(op) && PlainText(r)
    case Condition(l, op, r) => PlainText(l) && NoParens(op) && PlainText(r)
    case Number(_) => true
    case Identifier(x) => NoParens(x)
    case StringLit(_) => true
  }

  lemma {:induction false} DepthConcat(a: string, b: string)
    ensures Depth(a + b) == Depth(a) + Depth(b)
  {
    if |a| == 0 {
      assert a + b == b;
    } else {
      assert (a + b)[0] == a[0];
      assert (a + b)[1..] == a[1..] + b;
      DepthConcat(a[1..], b);
    }
  }

  lemma {:induction false} NoParensDepth(s: string)
    requires NoParens(s)
    ensures Depth(s) == 0
  {
    if |s| > 0 {
      NoParensDepth(s[1..]);
    }
  }

  lemma NoParensBalanced(s: string)
    requires NoParens(s)
    ensures Balanced(s)
  {
    NoParensDepth(s);
    forall k | 0 <= k <= |s|
      ensures Depth(s[..k]) >= 0
    {
      NoParensDepth(s[..k]);
    }
  }

  lemma BalancedConcat(a: string, b: string)
    requires Balanced(a) && Balanced(b)
    ensures Balanced(a + b)
  {
    DepthConcat(a, b);
    forall k | 0 <= k <= |a + b|
      ensures Depth((a + b)[..k]) >= 0
    {
      if k <= |a| {
        assert (a + b)[..k] == a[..k];
      } else {
        assert (a + b)[..k] == a + b[..k - |a|];
        DepthConcat(a, b[..k - |a|]);
      }
    }
  }

  lemma WrapBalanced(s: string)
    requires Balanced(s)
    ensures Wrapped("(" + s + ")")
  {
    var w := "(" + s + ")";
    DepthConcat("(", s);
    DepthConcat("(" + s, ")");
    forall k | 1 <= k < |w|
      ensures Depth(w[..k]) >= 1
    {
      assert w[..k] == "(" + s[..k - 1];
      DepthConcat("(", s[..k - 1]);
    }
  }

  lemma WrappedBalanced(s: string)
    requires Wrapped(s)
    ensures Balanced(s)
  {
    assert s[..|s|] == s;
    assert s[..0] == [];
  }

  /**
   * Every lowered expression has balanced parentheses, and a lowered binary
   * operation or condition is a single parenthesised group, so its operator
   * binds exactly its two operands whatever the target's precedence.
   */
  lemma {:induction false} LoweredParenthesised(table: map<string, string>, e: Expr)
    requires PlainText(e) && LowerExpr(table, e).Success?
    ensures Balanced(LowerExpr(table, e).value)
    ensures (e.BinaryOp? || e.Condition?) ==> Wrapped(LowerExpr(table, e).value)
  {
    var v := LowerExpr(table, e).value;
    match e
    case BinaryOp(l, op, r) =>
      LoweredParenthesised(table, l);
      LoweredParenthesised(table, r);
      LowerInfix(LowerExpr(table, l).value, op, LowerExpr(table, r).value);
    case Condition(l, op, r) =>
      LoweredParenthesised(table, l);
      LoweredParenthesised(table, r);
      LowerInfix(LowerExpr(table, l).value, op, LowerExpr(table, r).value);
    case Number(n) =>
      NumeralNoParens(n);
      NoParensBalanced(IntToString(n));
    case Identifier(x) =>
      NoParensBalanced(x);
    case StringLit(_) =>
  }

  lemma NumeralNoParens(n: int)
    ensures NoParens(IntToString(n))
  {
    if n < 0 {
      assert IntToString(n) == "-" + NatToString(-n);
    }
  }

  lemma LowerInfix(lv: string, op: string, rv: string)
    requires Balanced(lv) && Balanced(rv) && NoParens(op)
    ensures Wrapped("(" + lv + " " + op + " " + rv + ")")
    ensures Balanced("(" + lv + " " + op + " " + rv + ")")
  {
    NoParensBalanced(" ");
    NoParensBalanced(op);
    BalancedConcat(lv, " ");
    BalancedConcat(lv + " ", op);
    BalancedConcat(lv + " " + op, " ");
    BalancedConcat(lv + " " + op + " ", rv);
    WrapBalanced(lv + " " + op + " " + rv);
    assert "(" + lv + " " + op + " " + rv + ")" == "(" + (lv + " " + op + " " + rv) + ")";
    WrappedBalanced("(" + lv + " " + op + " " + rv + ")");
  }

  // ---------------------------------------------------------------
  // Reading a lowered operation back
  // ---------------------------------------------------------------

  /** A name, operator or numeral as it appears in lowered text: no space and no parenthesis. */
  predicate Token(s: string) {
    forall i :: 0 <= i < |s| ==> s[i] != ' ' && s[i] != '(' && s[i] != ')'
  }

  /** The parser's names and operators are single tokens. */
  predicate Tokens(e: Expr) {
    match e
    case BinaryOp(l, op, r) => Tokens(l) && Token(op) && Tokens(r)
    case Condition(l, op, r) => Tokens(l) && Token(op) && Tokens(r)
    case Number(_) => true
    case Identifier(x) => Token(x)
    case StringLit(_) => true
  }

  lemma {:induction false} TokensPlain(e: Expr)
    requires Tokens(e)
    ensures PlainText(e)
  {
    match e
    case BinaryOp(l, _, r) =>
      TokensPlain(l);
      TokensPlain(r);
    case Condition(l, _, r) =>
      TokensPlain(l);
      TokensPlain(r);
    case _ =>
  }

  /** The first index from `i` on holding a space outside every parenthesis, or `|s|`. */
  function TopSpaceFrom(s: string, i: nat): (k: nat)
    requires i <= |s|
    ensures i <= k <= |s|
    decreases |s| - i
  {
    if i == |s| then i
    else if s[i] == ' ' && Depth(s[..i]) == 0 then i
    else TopSpaceFrom(s, i + 1)
  }

  function TopSpace(s: string): nat {
    TopSpaceFrom(s, 0)
  }

  /**
   * Reads `(l op r)` back: strips the outer parentheses, cuts at the first
   * top-level space, and cuts what follows at its first top-level space.
   */
  function Split(s: string): (string, string, string)
    requires |s| >= 2
  {
    var inner := s[1..|s| - 1];
    var i := TopSpace(inner);
    var rest := if i < |inner| then inner[i + 1..] else [];
    var j := TopSpace(rest);
    (inner[..i], rest[..j], if j < |rest| then rest[j + 1..] else [])
  }

  /** A text that opens with a token or a parenthesised group, then a space, has its first top-level space right there. */
  lemma OperandThenSpace(v: string, tail: string)
    requires Token(v) || Wrapped(v)
    ensures TopSpace(v + " " + tail) == |v|
  {
    var s := v + " " + tail;
    if Token(v) {
      NoParensDepth(v);
    }
    assert s[..|v|] == v;
    forall i | 0 <= i < |v|
      ensures !(s[i] == ' ' && Depth(s[..i]) == 0)
    {
      assert s[..i] == v[..i];
    }
    TopSpaceSkips(s, 0, |v|);
  }

  /** `TopSpaceFrom` passes over positions that are not top-level spaces. */
  lemma {:induction false} TopSpaceSkips(s: string, i: nat, k: nat)
    requires i <= k < |s|
    requires s[k] == ' ' && Depth(s[..k]) == 0
    requires forall j :: i <= j < k ==> !(s[j] == ' ' && Depth(s[..j]) == 0)
    ensures TopSpaceFrom(s, i) == k
    decreases k - i
  {
    if i < k {
      TopSpaceSkips(s, i + 1, k);
    }
  }

  lemma NumeralToken(n: int)
    ensures Token(IntToString(n))
  {
    if n < 0 {
      assert IntToString(n) == "-" + NatToString(-n);
    }
  }

  /** A lowered operand is a single token or a single parenthesised group. */
  lemma LoweredOperand(table: map<string, string>, e: Expr)
    requires Tokens(e) && LowerExpr(table, e).Success?
    ensures Token(LowerExpr(table, e).value) || Wrapped(LowerExpr(table, e).value)
  {
    match e
    case Number(n) =>
      NumeralToken(n);
    case Identifier(_) =>
    case StringLit(_) =>
    case _ =>
      TokensPlain(e);
      LoweredParenthesised(table, e);
  }

  /**
   * A lowered operation or condition reads back as its two operands' texts
   * and its operator, in source order: the text is exactly
   * `(<left> <op> <right>)` and nothing else.
   */
  lemma LowerSplits(table: map<string, string>, e: Expr)
    requires Tokens(e) && LowerExpr(table, e).Success?
    requires e.BinaryOp? || e.Condition?
    ensures Split(LowerExpr(table, e).value)
            == (LowerExpr(table, e.left).value, e.op, LowerExpr(table, e.right).value)
  {
    LoweredOperand(table, e.left);
    SplitInfix(LowerExpr(table, e.left).value, e.op, LowerExpr(table, e.right).value);
  }

  /** `Split` undoes the generator's infix template for a token or group on the left and a token operator. */
  lemma SplitInfix(lv: string, op: string, rv: string)
    requires Token(lv) || Wrapped(lv)
    requires Token(op)
    ensures Split("(" + lv + " " + op + " " + rv + ")") == (lv, op, rv)
  {
    var w := "(" + lv + " " + op + " " + rv + ")";
    var rest := op + " " + rv;
    assert w == "(" + (lv + " " + rest) + ")";
    var inner := w[1..|w| - 1];
    assert inner == lv + " " + rest;
    OperandThenSpace(lv, rest);
    assert inner[..|lv|] == lv;
    assert inner[|lv| + 1..] == rest;
    OperandThenSpace(op, rv);
    assert rest[..|op|] == op;
    assert rest[|op| + 1..] == rv;
  }

  /** The leaves of an expression, left to right. */
  function Leaves(e: Expr): seq<Expr> {
    match e
    case BinaryOp(l, _, r) => Leaves(l) + Leaves(r)
    case Condition(l, _, r) => Leaves(l) + Leaves(r)
    case _ => [e]
  }

  /** A leaf the generator cannot lower: an undeclared name, or a string literal. */
  predicate BadLeaf(table: map<string, string>, x: Expr) {
    (x.Identifier? && x.name !in table) || x.StringLit?
  }

  /** The error the generator raises at a bad leaf. */
  function LeafError(x: Expr): CodegenError
    requires x.Identifier? || x.StringLit?
  {
    if x.Identifier? then UndefinedVariable(x.name) else NoVisitMethod("StringLit")
  }

  /** The index of the first bad leaf, or `|ls|` when there is none. */
  function FirstBad(table: map<string, string>, ls: seq<Expr>): (k: nat)
    ensures k <= |ls|
    ensures k < |ls| ==> BadLeaf(table, ls[k])
    ensures forall i :: 0 <= i < k ==> !BadLeaf(table, ls[i])
  {
    if |ls| == 0 then 0
    else if BadLeaf(table, ls[0]) then 0
    else 1 + FirstBad(table, ls[1..])
  }

  /** The first bad leaf of `a + b` is the first of `a`, or else the first of `b`. */
  lemma FirstBadAppend(table: map<string, string>, a: seq<Expr>, b: seq<Expr>)
    ensures FirstBad(table, a + b)
            == if FirstBad(table, a) < |a| then FirstBad(table, a) else |a| + FirstBad(table, b)
  {
    var ka, kb, k := FirstBad(table, a), FirstBad(table, b), FirstBad(table, a + b);
    var want := if ka < |a| then ka else |a| + kb;
    assert forall i :: 0 <= i < want ==> !BadLeaf(table, (a + b)[i]) by {
      forall i | 0 <= i < want
        ensures !BadLeaf(table, (a + b)[i])
      {
        if i >= |a| {
          assert (a + b)[i] == b[i - |a|];
        }
      }
    }
    if want < |a + b| {
      assert BadLeaf(table, (a + b)[want]) by {
        if ka >= |a| {
          assert (a + b)[want] == b[kb];
        }
      }
    }
  }

  /** Lowering `e` fails exactly at its first bad leaf, with that leaf's error. */
  predicate FailsAtFirstBad(table: map<string, string>, e: Expr) {
    var ls := Leaves(e);
    && (LowerExpr(table, e).Failure? <==> FirstBad(table, ls) < |ls|)
    && (FirstBad(table, ls) < |ls| ==> LowerExpr(table, e).error == LeafError(ls[FirstBad(table, ls)]))
  }

  /**
   * Lowering fails exactly when some leaf is bad, and the error it raises is
   * the one for the first bad leaf from the left: the left operand is
   * lowered before the right.
   */
  lemma {:induction false} LowerFailsAtFirstBadLeaf(table: map<string, string>, e: Expr)
    ensures var ls := Leaves(e);
            && (LowerExpr(table, e).Failure? <==> FirstBad(table, ls) < |ls|)
            && (FirstBad(table, ls) < |ls| ==> LowerExpr(table, e).error == LeafError(ls[FirstBad(table, ls)]))
  {
    if e.BinaryOp? || e.Condition? {
      LowerFailsAtFirstBadLeaf(table, e.left);
      LowerFailsAtFirstBadLeaf(table, e.right);
      OperationFailsAtFirstBad(table, e);
    }
  }

  /** The step of the induction: an operation fails at the first bad leaf when its operands do. */
  lemma OperationFailsAtFirstBad(table: map<string, string>, e: Expr)
    requires e.BinaryOp? || e.Condition?
    requires FailsAtFirstBad(table, e.left) && FailsAtFirstBad(table, e.right)
    ensures FailsAtFirstBad(table, e)
  {
    FirstBadAppend(table, Leaves(e.left), Leaves(e.right));
    BadLeafAt(table, Leaves(e.left), Leaves(e.right));
  }

  /** Where the first bad leaf of `a + b` sits. */
  lemma BadLeafAt(table: map<string, string>, a: seq<Expr>, b: seq<Expr>)
    ensures FirstBad(table, a) < |a| ==> (a + b)[FirstBad(table, a)] == a[FirstBad(table, a)]
    ensures FirstBad(table, b) < |b| ==> (a + b)[|a| + FirstBad(table, b)] == b[FirstBad(table, b)]
  {
  }

  // ---------------------------------------------------------------
  // Worked lowerings
  // ---------------------------------------------------------------

  /** `let x = 5 + 3; print(x);` */
  const SumProgram: Program := Program([Assignment("x", BinaryOp(Number(5), "+", Number(3))), Print(Identifier("x"))])

  /** `main` declares `x` with the parenthesised sum, then prints it. */
  lemma SumProgramLowering(ss: seq<Stmt>)
    requires ss == SumProgram.statements
    ensures GenProgram(Fresh(), Program(ss)).Success?
    ensures GenProgram(Fresh(), Program(ss)).value.output ==
              [ "#include <stdio.h>", "#include <stdlib.h>\n", "\n// Main Program", "int main() {",
                "    int x = (5 + 3);", "    printf(\"%d\\n\", x);", "return 0;", "}\n" ]
  {
    var g1 := Prologue(Fresh(), ss);
    PrologueWithoutFunctions(ss);
    var a := Nest(g1).(output := g1.output + ["    int x = (5 + 3);"], table := map["x" := IntType]);
    SumDeclares(Nest(g1));
    var b := a.(output := a.output + ["    printf(\"%d\\n\", x);"]);
    SumPrints(a);
    assert Program(ss) == Program([ss[0], ss[1]]);
    TwoStatementProgram(ss[0], ss[1], a, b);
    SumShape(g1.output);
  }

  lemma SumShape(pro: seq<string>)
    requires pro == ["#include <stdio.h>", "#include <stdlib.h>\n", "\n// Main Program", "int main() {"]
    ensures (pro + ["    int x = (5 + 3);"]) + ["    printf(\"%d\\n\", x);"] + ["return 0;", "}\n"] ==
              [ "#include <stdio.h>", "#include <stdlib.h>\n", "\n// Main Program", "int main() {",
                "    int x = (5 + 3);", "    printf(\"%d\\n\", x);", "return 0;", "}\n" ]
  {
  }

  /** The first statement of the sum program declares `x`. */
  lemma SumDeclares(g: Gen)
    requires g.table == map[] && g.indent == 1
    ensures GenStmt(g, Assignment("x", BinaryOp(Number(5), "+", Number(3)))) ==
              Success(g.(output := g.output + ["    int x = (5 + 3);"], table := map["x" := IntType]))
  {
    var sum := BinaryOp(Number(5), "+", Number(3));
    assert LowerExpr(g.table, Number(5)) == Success("5");
    assert LowerExpr(g.table, Number(3)) == Success("3");
    assert LowerExpr(g.table, sum) == Success("(5 + 3)") by {
      assert "(" + "5" + " " + "+" + " " + "3" + ")" == "(5 + 3)";
    }
    OneIndent("int " + "x" + " = " + "(5 + 3)" + ";");
    assert "    " + ("int " + "x" + " = " + "(5 + 3)" + ";") == "    int x = (5 + 3);";
    assert g.table["x" := IntType] == map["x" := IntType];
  }

  /** The second statement prints the declared `x`. */
  lemma SumPrints(g: Gen)
    requires g.table == map["x" := IntType] && g.indent == 1
    ensures GenStmt(g, Print(Identifier("x"))) ==
              Success(g.(output := g.output + ["    printf(\"%d\\n\", x);"]))
  {
    assert LowerExpr(g.table, Identifier("x")) == Success("x");
    OneIndent("printf(\"%d\\n\", " + "x" + ");");
    assert "    " + ("printf(\"%d\\n\", " + "x" + ");") == "    printf(\"%d\\n\", x);";
  }

  /** A program of two statements, neither a function: the prologue, `main` around them, nothing after. */
  lemma TwoStatementProgram(s0: Stmt, s1: Stmt, a: Gen, b: Gen)
    requires !s0.Function? && !s1.Function?
    requires GenStmt(Nest(Prologue(Fresh(), [s0, s1])), s0) == Success(a)
    requires GenStmt(a, s1) == Success(b)
    ensures GenProgram(Fresh(), Program([s0, s1])).Success?
    ensures GenProgram(Fresh(), Program([s0, s1])).value.output == b.output + ["return 0;", "}\n"]
  {
    var ss := [s0, s1];
    TwoNonFunctions(s0, s1);
    var g1 := Prologue(Fresh(), ss);
    TwoStatementBlock(Nest(g1), s0, s1, a, b);
    MainAround(g1, ss, b);
    var m := AddLine(AddLine(Dedent(b), "return 0;"), "}\n");
    ClosingLines(b);
    ProgramWithoutFunctions(Fresh(), ss, m);
  }

  lemma TwoNonFunctions(s0: Stmt, s1: Stmt)
    requires !s0.Function? && !s1.Function?
    ensures Functions([s0, s1]) == [] && NonFunctions([s0, s1]) == [s0, s1]
  {
    var ss := [s0, s1];
    assert ss[1..] == [s1] && ss[1..][1..] == [];
  }

  /** `main`'s body is the block of non-function statements, then `return 0;` and the closing brace. */
  lemma MainAround(g: Gen, ss: seq<Stmt>, b: Gen)
    requires GenBlock(Nest(g), NonFunctions(ss)) == Success(b) && b.indent > 0
    ensures GenMain(g, ss) == Success(AddLine(AddLine(Dedent(b), "return 0;"), "}\n"))
  {
  }

  lemma ClosingLines(b: Gen)
    requires b.indent == 1
    ensures AddLine(AddLine(Dedent(b), "return 0;"), "}\n").output == b.output + ["return 0;", "}\n"]
  {
    NoIndent("return 0;");
    NoIndent("}\n");
  }

  lemma TwoStatementBlock(g: Gen, s0: Stmt, s1: Stmt, a: Gen, b: Gen)
    requires GenStmt(g, s0) == Success(a) && GenStmt(a, s1) == Success(b)
    ensures GenBlock(g, [s0, s1]) == Success(b)
  {
    var ss := [s0, s1];
    assert ss[1..] == [s1] && ss[1..][1..] == [];
    assert GenBlock(a, ss[1..]) == Success(b);
  }

  /** Without functions the prologue is the two includes, the comment and `int main() {`. */
  lemma PrologueWithoutFunctions(ss: seq<Stmt>)
    requires Functions(ss) == []
    ensures Prologue(Fresh(), ss).output ==
              ["#include <stdio.h>", "#include <stdlib.h>\n", "\n// Main Program", "int main() {"]
  {
    NoIndent("#include <stdio.h>");
    NoIndent("#include <stdlib.h>\n");
    NoIndent("\n// Main Program");
    NoIndent("int main() {");
    assert ForwardDeclLines([], 0) == [];
  }

  /** No parameters give an empty list; the first parameter opens it as `int <name>`, alone when it is the only one. */
  lemma ParamListShape(params: seq<string>)
    ensures |params| == 0 ==> ParamList(params) == ""
    ensures |params| > 0 ==> "int " + params[0] <= ParamList(params)
    ensures |params| == 1 ==> ParamList(params) == "int " + params[0]
  {
    var parts := seq(|params|, i requires 0 <= i < |params| => "int " + params[i]);
    assert |params| > 0 ==> parts[0] == "int " + params[0];
  }

  /** Each further parameter adds `, int <name>` to the parameter list. */
  lemma ParamListSnoc(ps: seq<string>, p: string)
    requires |ps| > 0
    ensures ParamList(ps + [p]) == ParamList(ps) + ", int " + p
  {
    var qs := ps + [p];
    var parts := seq(|qs|, i requires 0 <= i < |qs| => "int " + qs[i]);
    JoinSplit(parts, |ps|, ", ");
    assert parts[..|ps|] == seq(|ps|, i requires 0 <= i < |ps| => "int " + ps[i]);
    assert parts[|ps|..] == ["int " + p];
  }

  /** `if (x < 1) { print(x); } else { print(0); }`, one level inside `main` with `x` declared. */
  lemma BranchLowering(g: Gen)
    requires g.table == map["x" := IntType] && g.indent == 1
    ensures GenStmt(g, If(Condition(Identifier("x"), "<", Number(1)), [Print(Identifier("x"))], [Print(Number(0))])).Success?
    ensures GenStmt(g, If(Condition(Identifier("x"), "<", Number(1)), [Print(Identifier("x"))], [Print(Number(0))])).value.output ==
              g.output + [ "    if ((x < 1)) {", "        printf(\"%d\\n\", x);", "    } else {",
                           "        printf(\"%d\\n\", 0);", "    }" ]
  {
    var c := Condition(Identifier("x"), "<", Number(1));
    var t, e := [Print(Identifier("x"))], [Print(Number(0))];
    BranchGuard(g.table);
    var g1 := AddLine(g, "if (" + "(x < 1)" + ") {");
    var a := PrintStep(Nest(g1), Identifier("x"), "x");
    OneStatementBlock(Nest(g1), Print(Identifier("x")), a);
    var g3 := AddLine(Dedent(a), "} else {");
    LowerZero(g3.table);
    var b := PrintStep(Nest(g3), Number(0), "0");
    OneStatementBlock(Nest(g3), Print(Number(0)), b);
    ElseSteps(Dedent(a), c, t, e, b);
    IfSteps(g, c, t, e, "(x < 1)", a, Dedent(b));
    var h := AddLine(Dedent(b), "}");
    assert GenStmt(g, If(c, t, e)) == Success(h);
    var l0, l1, l2 := Indent(1) + ("if (" + "(x < 1)" + ") {"), Indent(2) + ("printf(\"%d\\n\", " + "x" + ");"), Indent(1) + "} else {";
    var l3, l4 := Indent(2) + ("printf(\"%d\\n\", " + "0" + ");"), Indent(1) + "}";
    OpenedBlock(g, "if (" + "(x < 1)" + ") {", "printf(\"%d\\n\", " + "x" + ");", a);
    OpenedBlock(Dedent(a), "} else {", "printf(\"%d\\n\", " + "0" + ");", b);
    FiveLines(g.output, a.output, b.output, h.output, l0, l1, l2, l3, l4);
    BranchText([l0, l1, l2, l3, l4]);
  }

  /** The lines of `BranchLowering`, before the indentation is spelt out. */
  lemma BranchText(lines: seq<string>)
    requires lines == [ Indent(1) + ("if (" + "(x < 1)" + ") {"), Indent(2) + ("printf(\"%d\\n\", " + "x" + ");"), Indent(1) + "} else {",
                        Indent(2) + ("printf(\"%d\\n\", " + "0" + ");"), Indent(1) + "}" ]
    ensures lines == [ "    if ((x < 1)) {", "        printf(\"%d\\n\", x);", "    } else {",
                       "        printf(\"%d\\n\", 0);", "    }" ]
  {
    OneIndentLine("if (" + "(x < 1)" + ") {", "    if ((x < 1)) {");
    TwoIndentsLine("printf(\"%d\\n\", " + "x" + ");", "        printf(\"%d\\n\", x);");
    OneIndentLine("} else {", "    } else {");
    TwoIndentsLine("printf(\"%d\\n\", " + "0" + ");", "        printf(\"%d\\n\", 0);");
    OneIndentLine("}", "    }");
  }

  /** A line at the current depth followed by one a level deeper. */
  lemma OpenedBlock(g: Gen, s: string, t: string, a: Gen)
    requires a == AddLine(Nest(AddLine(g, s)), t)
    ensures a.output == g.output + [Indent(g.indent) + s, Indent(g.indent + 1) + t]
  {
  }

  lemma FiveLines(o: seq<string>, x: seq<string>, y: seq<string>, z: seq<string>, l0: string, l1: string, l2: string, l3: string, l4: string)
    requires x == o + [l0, l1] && y == x + [l2, l3] && z == y + [l4]
    ensures z == o + [l0, l1, l2, l3, l4]
  {
  }

  lemma FourLines(o: seq<string>, x: seq<string>, y: seq<string>, z: seq<string>, l0: string, l1: string, l2: string, l3: string)
    requires x == o + [l0, l1] && y == x + [l2] && z == y + [l3]
    ensures z == o + [l0, l1, l2, l3]
  {
  }

  lemma OneIndentLine(s: string, line: string)
    requires "    " + s == line
    ensures Indent(1) + s == line
  {
    OneIndent(s);
  }

  lemma TwoIndentsLine(s: string, line: string)
    requires "        " + s == line
    ensures Indent(2) + s == line
  {
    TwoIndents(s);
  }

  lemma LowerZero(table: map<string, string>)
    ensures LowerExpr(table, Number(0)) == Success("0")
  {
    assert IntToString(0) == NatToString(0) == [DigitChar(0)];
    assert DigitChar(0) == '0';
  }

  lemma LowerOne(table: map<string, string>)
    ensures LowerExpr(table, Number(1)) == Success("1")
  {
    assert IntToString(1) == NatToString(1) == [DigitChar(1)];
    assert DigitChar(1) == '1';
  }

  lemma BranchGuard(table: map<string, string>)
    requires table == map["x" := IntType]
    ensures LowerExpr(table, Condition(Identifier("x"), "<", Number(1))) == Success("(x < 1)")
  {
    assert LowerExpr(table, Identifier("x")) == Success("x");
    assert LowerExpr(table, Number(1)) == Success("1");
    assert "(" + "x" + " " + "<" + " " + "1" + ")" == "(x < 1)";
  }

  /** A print of an expression that lowers to `v` adds the one `printf` line. */
  lemma PrintStep(g: Gen, e: Expr, v: string) returns (a: Gen)
    requires LowerExpr(g.table, e) == Success(v)
    ensures GenStmt(g, Print(e)) == Success(a)
    ensures a == AddLine(g, "printf(\"%d\\n\", " + v + ");")
  {
    a := AddLine(g, "printf(\"%d\\n\", " + v + ");");
  }

  lemma OneStatementBlock(g: Gen, s: Stmt, a: Gen)
    requires GenStmt(g, s) == Success(a)
    ensures GenBlock(g, [s]) == Success(a)
  {
    assert [s][1..] == [];
  }

  /** `def f(a) { print(1); }` at the top level: header, body one level deeper, the default return, brace. */
  lemma FunctionLowering(g: Gen)
    requires g.table == map[] && g.indent == 0
    ensures GenStmt(g, Function("f", ["a"], [Print(Number(1))], None)).Success?
    ensures GenStmt(g, Function("f", ["a"], [Print(Number(1))], None)).value.output ==
              g.output + [ "\nint f(int a) {", "    printf(\"%d\\n\", 1);", "    return 0;", "}" ]
  {
    FunctionHeaderF();
    var g1 := AddLine(g, "\nint f(int a) {");
    LowerOne(g1.table);
    var a := PrintStep(Nest(g1), Number(1), "1");
    OneStatementBlock(Nest(g1), Print(Number(1)), a);
    var g3 := AddLine(a, "return 0;");
    FunctionSteps(g, "f", ["a"], [Print(Number(1))], None, a, g3);
    var h := AddLine(Dedent(g3), "}");
    assert GenStmt(g, Function("f", ["a"], [Print(Number(1))], None)) == Success(h);
    var l0, l1 := Indent(0) + "\nint f(int a) {", Indent(1) + ("printf(\"%d\\n\", " + "1" + ");");
    var l2, l3 := Indent(1) + "return 0;", Indent(0) + "}";
    OpenedBlock(g, "\nint f(int a) {", "printf(\"%d\\n\", " + "1" + ");", a);
    FourLines(g.output, a.output, g3.output, h.output, l0, l1, l2, l3);
    FunctionText([l0, l1, l2, l3]);
  }

  lemma FunctionHeaderF()
    ensures FunctionHeader("f", ["a"]) == "\nint f(int a) {"
  {
    ParamListShape(["a"]);
  }

  /** The lines of `FunctionLowering`, before the indentation is spelt out. */
  lemma FunctionText(lines: seq<string>)
    requires lines == [ Indent(0) + "\nint f(int a) {", Indent(1) + ("printf(\"%d\\n\", " + "1" + ");"), Indent(1) + "return 0;", Indent(0) + "}" ]
    ensures lines == [ "\nint f(int a) {", "    printf(\"%d\\n\", 1);", "    return 0;", "}" ]
  {
    NoIndent("\nint f(int a) {");
    OneIndentLine("printf(\"%d\\n\", " + "1" + ");", "    printf(\"%d\\n\", 1);");
    OneIndentLine("return 0;", "    return 0;");
    NoIndent("}");
  }

  lemma NoIndent(s: string)
    ensures Indent(0) + s == s
  {
    assert Indent(0) == [];
  }

  lemma OneIndent(s: string)
    ensures Indent(1) + s == "    " + s
  {
    assert Indent(1) == "    " + Indent(0);
    assert Indent(0) == [];
  }

  lemma TwoIndents(s: string)
    ensures Indent(2) + s == "        " + s
  {
    assert Indent(2) == "    " + Indent(1);
    OneIndent("");
  }

  /** `x = 0; while (x < 10) { x = x + 1; }` */
  const CountProgram: Program :=
    Program([ Assignment("x", Number(0)),
              While(Condition(Identifier("x"), "<", Number(10)), [Assignment("x", BinaryOp(Identifier("x"), "+", Number(1)))]) ])

  /**
   * The loop becomes `label_1:`, the negated guard jumping to `label_2`, the
   * body one level deeper, the jump back to `label_1`, then `label_2:`.
   */
  lemma CountProgramLowering(ss: seq<Stmt>)
    requires ss == CountProgram.statements
    ensures GenProgram(Fresh(), Program(ss)).Success?
    ensures GenProgram(Fresh(), Program(ss)).value.output ==
              [ "#include <stdio.h>", "#include <stdlib.h>\n", "\n// Main Program", "int main() {",
                "    int x = 0;",
                "    label_1:",
                "    if (!((x < 10))) goto label_2;",
                "        x = (x + 1);",
                "        goto label_1;",
                "    label_2:",
                "return 0;", "}\n" ]
  {
    var g1 := Prologue(Fresh(), ss);
    PrologueWithoutFunctions(ss);
    var a := Nest(g1).(output := g1.output + ["    int x = 0;"], table := map["x" := IntType]);
    CountDeclares(Nest(g1));
    var lines := [ "    label_1:", "    if (!((x < 10))) goto label_2;", "        x = (x + 1);",
                   "        goto label_1;", "    label_2:" ];
    var b := a.(output := a.output + lines, labels := 2);
    CountLoops(a);
    assert Program(ss) == Program([ss[0], ss[1]]);
    TwoStatementProgram(ss[0], ss[1], a, b);
    CountShape(g1.output, lines);
  }

  lemma CountShape(pro: seq<string>, lines: seq<string>)
    requires pro == ["#include <stdio.h>", "#include <stdlib.h>\n", "\n// Main Program", "int main() {"]
    requires lines == [ "    label_1:", "    if (!((x < 10))) goto label_2;", "        x = (x + 1);",
                        "        goto label_1;", "    label_2:" ]
    ensures (pro + ["    int x = 0;"]) + lines + ["return 0;", "}\n"] ==
              [ "#include <stdio.h>", "#include <stdlib.h>\n", "\n// Main Program", "int main() {",
                "    int x = 0;",
                "    label_1:",
                "    if (!((x < 10))) goto label_2;",
                "        x = (x + 1);",
                "        goto label_1;",
                "    label_2:",
                "return 0;", "}\n" ]
  {
  }

  /** `x = 0` declares `x`. */
  lemma CountDeclares(g: Gen)
    requires g.table == map[] && g.indent == 1
    ensures GenStmt(g, Assignment("x", Number(0))) ==
              Success(g.(output := g.output + ["    int x = 0;"], table := map["x" := IntType]))
  {
    assert LowerExpr(g.table, Number(0)) == Success("0") by {
      assert NatToString(0) == "0";
    }
    OneIndent("int " + "x" + " = " + "0" + ";");
    assert "    " + ("int " + "x" + " = " + "0" + ";") == "    int x = 0;";
    assert g.table["x" := IntType] == map["x" := IntType];
  }

  /** `x = x + 1` inside the loop stores to the declared `x`. */
  lemma CountIncrements(g: Gen)
    requires g.table == map["x" := IntType] && g.indent == 2
    ensures GenStmt(g, Assignment("x", BinaryOp(Identifier("x"), "+", Number(1)))) ==
              Success(g.(output := g.output + ["        x = (x + 1);"]))
  {
    assert LowerExpr(g.table, Number(1)) == Success("1") by {
      assert NatToString(1) == "1";
    }
    assert LowerExpr(g.table, Identifier("x")) == Success("x");
    assert LowerExpr(g.table, BinaryOp(Identifier("x"), "+", Number(1))) == Success("(x + 1)") by {
      assert "(" + "x" + " " + "+" + " " + "1" + ")" == "(x + 1)";
    }
    TwoIndents("x" + " = " + "(x + 1)" + ";");
    assert "        " + ("x" + " = " + "(x + 1)" + ";") == "        x = (x + 1);";
  }

  /** The loop: two labels, the negated guard, the body, the jump back. */
  lemma CountLoops(g: Gen)
    requires g.table == map["x" := IntType] && g.indent == 1 && g.labels == 0
    ensures GenStmt(g, CountProgram.statements[1]) ==
              Success(g.(output := g.output + [ "    label_1:", "    if (!((x < 10))) goto label_2;",
                                                "        x = (x + 1);", "        goto label_1;", "    label_2:" ],
                         labels := 2))
  {
    var c := Condition(Identifier("x"), "<", Number(10));
    var body := [Assignment("x", BinaryOp(Identifier("x"), "+", Number(1)))];
    assert CountProgram.statements[1] == While(c, body);
    CountGuard(g.table);
    var g4 := WhileHead(g, "(x < 10)");
    CountHead(g);
    var g5 := Nest(g4).(output := g4.output + ["        x = (x + 1);"]);
    CountBody(Nest(g4));
    WhileSteps(g, c, body, "(x < 10)", g5);
    var h := WhileTail(g, g5);
    CountTail(g, g5);
    assert h == g.(output := g.output + [ "    label_1:", "    if (!((x < 10))) goto label_2;",
                                          "        x = (x + 1);", "        goto label_1;", "    label_2:" ],
                   labels := 2);
  }

  lemma CountGuard(table: map<string, string>)
    requires table == map["x" := IntType]
    ensures LowerExpr(table, Condition(Identifier("x"), "<", Number(10))) == Success("(x < 10)")
  {
    assert LowerExpr(table, Number(10)) == Success("10") by {
      assert NatToString(10) == "10";
    }
    assert "(" + "x" + " " + "<" + " " + "10" + ")" == "(x < 10)";
  }

  lemma CountBody(g: Gen)
    requires g.table == map["x" := IntType] && g.indent == 2
    ensures GenBlock(g, [Assignment("x", BinaryOp(Identifier("x"), "+", Number(1)))]) ==
              Success(g.(output := g.output + ["        x = (x + 1);"]))
  {
    CountIncrements(g);
    assert [Assignment("x", BinaryOp(Identifier("x"), "+", Number(1)))][1..] == [];
  }

  /** The state after the two labels, the start label and the guard of a loop at `g`. */
  function WhileHead(g: Gen, cv: string): Gen {
    AddLine(AddLine(g.(labels := g.labels + 2), LabelName(g.labels + 1) + ":"),
            "if (!(" + cv + ")) goto " + LabelName(g.labels + 2) + ";")
  }

  /** The state after the jump back and the end label, from the body's result `g5`. */
  function WhileTail(g: Gen, g5: Gen): Gen
    requires g5.indent > 0
  {
    AddLine(Dedent(AddLine(g5, "goto " + LabelName(g.labels + 1) + ";")), LabelName(g.labels + 2) + ":")
  }

  /** `generate_While` as the three phases head, body, tail. */
  lemma WhileSteps(g: Gen, c: Expr, body: seq<Stmt>, cv: string, g5: Gen)
    requires LowerExpr(g.table, c) == Success(cv)
    requires GenBlock(Nest(WhileHead(g, cv)), body) == Success(g5)
    ensures g5.indent > 0
    ensures GenWhile(g, c, body) == Success(WhileTail(g, g5))
  {
    var start, end := LabelName(g.labels + 1), LabelName(g.labels + 2);
    var g2 := g.(labels := g.labels + 2);
    var g4 := AddLine(AddLine(g2, start + ":"), "if (!(" + cv + ")) goto " + end + ";");
    assert g4 == WhileHead(g, cv);
    var g6 := AddLine(g5, "goto " + start + ";");
    assert AddLine(Dedent(g6), end + ":") == WhileTail(g, g5);
  }

  /** A conditional lowers to its head, the then-block one level deeper, the else part and `}`, whenever each step succeeds. */
  lemma IfSteps(g: Gen, c: Expr, t: seq<Stmt>, e: seq<Stmt>, cv: string, g2: Gen, g5: Gen)
    requires LowerExpr(g.table, c) == Success(cv)
    requires GenBlock(Nest(AddLine(g, "if (" + cv + ") {")), t) == Success(g2)
    requires GenElse(Dedent(g2), c, t, e) == Success(g5)
    ensures GenIf(g, c, t, e) == Success(AddLine(g5, "}"))
  {
  }

  /** A non-empty else part lowers to `} else {` and the else-block one level deeper. */
  lemma ElseSteps(g: Gen, c: Expr, t: seq<Stmt>, e: seq<Stmt>, b: Gen)
    requires |e| > 0 && GenBlock(Nest(AddLine(g, "} else {")), e) == Success(b)
    ensures GenElse(g, c, t, e) == Success(Dedent(b))
  {
  }

  /** A function definition lowers to its header, the body one level deeper, the return line and `}`. */
  lemma FunctionSteps(g: Gen, name: string, params: seq<string>, body: seq<Stmt>, ret: Option<Expr>, g2: Gen, g3: Gen)
    requires GenBlock(Nest(AddLine(g, FunctionHeader(name, params))), body) == Success(g2)
    requires GenReturn(g2, ret) == Success(g3)
    ensures GenFunction(g, name, params, body, ret) == Success(AddLine(Dedent(g3), "}"))
  {
  }

  /**
   * A function definition's lines up to its return line are exactly the
   * header followed by the lowering of its body one level deeper.
   */
  lemma FunctionBody(g: Gen, name: string, params: seq<string>, body: seq<Stmt>, ret: Option<Expr>, h: Gen)
    requires GenFunction(g, name, params, body, ret) == Success(h)
    ensures var g1 := AddLine(g, FunctionHeader(name, params));
            && GenBlock(Nest(g1), body).Success?
            && |h.output| == |GenBlock(Nest(g1), body).value.output| + 2
            && h.output[..|h.output| - 2] == GenBlock(Nest(g1), body).value.output
  {
    var g1 := AddLine(g, FunctionHeader(name, params));
    var g2 := GenBlock(Nest(g1), body).value;
    var g3 := GenReturn(g2, ret).value;
    assert h == AddLine(Dedent(g3), "}");
    assert g3.output == g2.output + [g3.output[|g2.output|]];
    DropTwo(g2.output, g3.output[|g2.output|], Indent(g.indent) + "}", h.output);
  }

  lemma DropTwo(a: seq<string>, x: string, y: string, out: seq<string>)
    requires out == a + [x] + [y]
    ensures |out| == |a| + 2 && out[..|out| - 2] == a
  {
  }

  /** A non-empty else part is the `} else {` line followed by the lowering of the else-block one level deeper. */
  lemma ElseBody(g: Gen, c: Expr, t: seq<Stmt>, e: seq<Stmt>, h: Gen)
    requires GenElse(g, c, t, e) == Success(h)
    ensures |e| == 0 ==> h == g
    ensures |e| > 0 ==>
              var g1 := AddLine(g, "} else {");
              && GenBlock(Nest(g1), e).Success?
              && h.output == GenBlock(Nest(g1), e).value.output
  {
  }

  /**
   * A conditional is its head, the lowering of the then-block one level
   * deeper, the else part if the else-block is non-empty, and the closing brace.
   */
  lemma IfBody(g: Gen, c: Expr, t: seq<Stmt>, e: seq<Stmt>, h: Gen)
    requires GenIf(g, c, t, e) == Success(h)
    ensures LowerExpr(g.table, c).Success?
    ensures var g1 := AddLine(g, "if (" + LowerExpr(g.table, c).value + ") {");
            && GenBlock(Nest(g1), t).Success?
            && var g2 := GenBlock(Nest(g1), t).value;
            && g2.indent == g.indent + 1
            && (|e| == 0 ==> h.output == g2.output + [Indent(g.indent) + "}"])
            && (|e| > 0 ==>
                  var g3 := AddLine(Dedent(g2), "} else {");
                  && GenBlock(Nest(g3), e).Success?
                  && h.output == GenBlock(Nest(g3), e).value.output + [Indent(g.indent) + "}"])
  {
    var g1 := AddLine(g, "if (" + LowerExpr(g.table, c).value + ") {");
    var g2 := GenBlock(Nest(g1), t).value;
    var g5 := GenElse(Dedent(g2), c, t, e).value;
    assert h == AddLine(g5, "}");
    ElseBody(Dedent(g2), c, t, e, g5);
  }

  lemma CountHead(g: Gen)
    requires g.indent == 1 && g.labels == 0
    ensures WhileHead(g, "(x < 10)").output == g.output + ["    label_1:", "    if (!((x < 10))) goto label_2;"]
    ensures WhileHead(g, "(x < 10)").labels == 2
  {
    CountLines();
  }

  lemma CountTail(g: Gen, g5: Gen)
    requires g.labels == 0 && g5.indent == 2
    ensures WhileTail(g, g5).output == g5.output + ["        goto label_1;", "    label_2:"]
  {
    CountLines();
  }

  /** The four lines the loop of the count program adds around its body. */
  lemma CountLines()
    ensures Indent(1) + (LabelName(1) + ":") == "    label_1:"
    ensures Indent(1) + ("if (!(" + "(x < 10)" + ")) goto " + LabelName(2) + ";") == "    if (!((x < 10))) goto label_2;"
    ensures Indent(2) + ("goto " + LabelName(1) + ";") == "        goto label_1;"
    ensures Indent(1) + (LabelName(2) + ":") == "    label_2:"
  {
    CountLabelLine(1, "label_1");
    CountLabelLine(2, "label_2");
    GuardLine();
    GotoLine();
  }

  /** The label lines of the count program's loop. */
  lemma CountLabelLine(n: nat, name: string)
    requires n in {1, 2} && name == "label_" + [if n == 1 then '1' else '2']
    ensures Indent(1) + (LabelName(n) + ":") == "    " + name + ":"
  {
    FirstLabels();
    OneIndent(LabelName(n) + ":");
  }

  /** The count program's negated guard, at depth one. */
  lemma GuardLine()
    ensures Indent(1) + ("if (!(" + "(x < 10)" + ")) goto " + LabelName(2) + ";") == "    if (!((x < 10))) goto label_2;"
  {
    var t := "if (!((x < 10))) goto label_2;";
    GuardText();
    OneIndent(t);
    assert "    " + t == "    if (!((x < 10))) goto label_2;";
  }

  /** The same line before indentation. */
  lemma GuardText()
    ensures "if (!(" + "(x < 10)" + ")) goto " + LabelName(2) + ";" == "if (!((x < 10))) goto label_2;"
  {
    FirstLabels();
    assert "if (!(" + "(x < 10)" + ")) goto " == "if (!((x < 10))) goto ";
  }

  /** The jump back to the count program's loop start, at depth two. */
  lemma GotoLine()
    ensures Indent(2) + ("goto " + LabelName(1) + ";") == "        goto label_1;"
  {
    FirstLabels();
    assert "goto " + LabelName(1) + ";" == "goto label_1;";
    TwoIndents("goto label_1;");
    assert "        " + "goto label_1;" == "        goto label_1;";
  }

  /** The names of the first two labels the counter hands out. */
  lemma FirstLabels()
    ensures LabelName(1) == "label_1" && LabelName(2) == "label_2"
  {
    assert NatToString(1) == "1" && NatToString(2) == "2";
  }

}
