/**
 * Reading the generated C back line by line: which lines define a label and
 * which declare a variable. The generator never defines a label twice and
 * never declares a name twice, anywhere in a program's output, nested blocks
 * and function bodies included.
 */
module CodeGenLines {
  import opened Wrappers
  import opened Ast
  import opened Text
  import opened CodeGen
  import opened CodeGenProps

  // ---------------------------------------------------------------
  // Line readers
  // ---------------------------------------------------------------

  /** A line with its indentation removed. */
  function Dedented(line: string): string {
    if |line| > 0 && line[0] == ' ' then Dedented(line[1..]) else line
  }

  /**
   * A name as the lexer produces it needs only this much here: it is not
   * empty and holds no space, `(` or `=`.
   */
  predicate Name(x: string) {
    |x| > 0 && forall i :: 0 <= i < |x| ==> x[i] != ' ' && x[i] != '(' && x[i] != '='
  }

  /** The index of the first space, or `|s|`. */
  function FirstSpace(s: string): (i: nat)
    ensures i <= |s|
    ensures forall j :: 0 <= j < i ==> s[j] != ' '
    ensures i < |s| ==> s[i] == ' '
  {
    if |s| == 0 || s[0] == ' ' then 0 else 1 + FirstSpace(s[1..])
  }

  /** The name a line declares: the line reads `int x …` for a name `x`, at any indentation. */
  function DeclOf(line: string): Option<string> {
    var t := Dedented(line);
    if |t| >= 4 && t[..4] == "int " then
      var rest := t[4..];
      var i := FirstSpace(rest);
      if i < |rest| && Name(rest[..i]) then Some(rest[..i]) else None
    else None
  }

  /** The counter value a line defines as a label: the line reads `label_N:`, at any indentation. */
  function LabelOf(line: string): Option<nat> {
    var t := Dedented(line);
    if |t| >= 8 && t[..6] == "label_" && t[|t| - 1] == ':' && AllDigits(t[6..|t| - 1])
    then Some(ParseNat(t[6..|t| - 1]))
    else None
  }

  // ---------------------------------------------------------------
  // What each emitted line reads as
  // ---------------------------------------------------------------

  /** Removing the indentation gives back the text, when the text does not start with a space. */
  lemma {:induction false} DedentedAfter(pad: string, t: string)
    requires forall i :: 0 <= i < |pad| ==> pad[i] == ' '
    requires |t| == 0 || t[0] != ' '
    ensures Dedented(pad + t) == t
    decreases |pad|
  {
    if |pad| == 0 {
      assert pad + t == t;
    } else {
      assert (pad + t)[1..] == pad[1..] + t;
      DedentedAfter(pad[1..], t);
    }
  }

  lemma DedentedIndent(k: nat, t: string)
    requires |t| == 0 || t[0] != ' '
    ensures Dedented(Indent(k) + t) == t
  {
    DedentedAfter(Indent(k), t);
  }

  /** A line whose text neither starts with `i` nor ends with `:` is neither a declaration nor a label. */
  lemma PlainLine(k: nat, t: string)
    requires |t| > 0 && t[0] != ' ' && t[0] != 'i' && t[|t| - 1] != ':'
    ensures DeclOf(Indent(k) + t) == None && LabelOf(Indent(k) + t) == None
  {
    DedentedIndent(k, t);
  }

  /** A line opening with `if (` is neither a declaration nor a label. */
  lemma IfLine(k: nat, t: string)
    requires |t| >= 4 && t[..4] == "if (" && t[|t| - 1] != ':'
    ensures DeclOf(Indent(k) + t) == None && LabelOf(Indent(k) + t) == None
  {
    DedentedIndent(k, t);
  }

  /** `x = v;` stores into a name and declares nothing. */
  lemma StoreLine(k: nat, x: string, v: string)
    requires Name(x)
    ensures DeclOf(Indent(k) + (x + " = " + v + ";")) == None
    ensures LabelOf(Indent(k) + (x + " = " + v + ";")) == None
  {
    var t := x + " = " + v + ";";
    DedentedIndent(k, t);
    if |x| < 3 {
      assert t[|x| + 1] == '=';
    } else if |x| > 3 {
      assert t[..4][3] == x[3];
    } else if t[..4] == "int " {
      var rest := t[4..];
      assert rest[0] == '=' && rest[1] == ' ';
      assert FirstSpace(rest) == 1;
      assert rest[..1][0] == '=';
    }
  }

  /** `int x = v;` declares `x`. */
  lemma DeclLine(k: nat, x: string, v: string)
    requires Name(x)
    ensures DeclOf(Indent(k) + ("int " + x + " = " + v + ";")) == Some(x)
    ensures LabelOf(Indent(k) + ("int " + x + " = " + v + ";")) == None
  {
    var t := "int " + x + " = " + v + ";";
    DedentedIndent(k, t);
    var rest := t[4..];
    assert rest == x + (" = " + v + ";");
    assert rest[|x|] == ' ';
    assert FirstSpace(rest) == |x|;
    assert rest[..|x|] == x;
  }

  /** `label_N:` defines label `N` and declares nothing. */
  lemma LabelLine(k: nat, n: nat)
    ensures LabelOf(Indent(k) + (LabelName(n) + ":")) == Some(n)
    ensures DeclOf(Indent(k) + (LabelName(n) + ":")) == None
  {
    var t := LabelName(n) + ":";
    DedentedIndent(k, t);
    assert t == "label_" + NatToString(n) + ":";
    assert t[6..|t| - 1] == NatToString(n);
    NatToStringRoundTrip(n);
  }

  /** A name followed by `(`: whatever comes before the first space is not a name. */
  lemma NameThenParen(name: string, tail: string)
    requires Name(name) && |tail| > 0 && tail[0] == '('
    ensures var rest := name + tail;
            FirstSpace(rest) < |rest| ==> !Name(rest[..FirstSpace(rest)])
  {
    var rest := name + tail;
    var i := FirstSpace(rest);
    assert rest[|name|] == '(';
    if i < |rest| {
      assert rest[..i][|name|] == '(';
    }
  }

  /** The forward declaration of a function is not read as a variable declaration. */
  lemma ForwardDeclLine(k: nat, f: Stmt)
    requires f.Function? && Name(f.name)
    ensures DeclOf(Indent(k) + ForwardDecl(f)) == None
    ensures LabelOf(Indent(k) + ForwardDecl(f)) == None
  {
    var name, tail := f.name, "(" + ParamList(f.params) + ");";
    var t := ForwardDecl(f);
    assert t == "int " + (name + tail);
    DedentedIndent(k, t);
    assert t[4..] == name + tail;
    NameThenParen(name, tail);
  }

  /** `int main() {` opens a function, it declares no variable. */
  lemma MainLine(k: nat)
    ensures DeclOf(Indent(k) + "int main() {") == None
    ensures LabelOf(Indent(k) + "int main() {") == None
  {
    var t := "int main() {";
    DedentedIndent(k, t);
    assert t == "int " + ("main" + "() {");
    assert t[4..] == "main" + "() {";
    NameThenParen("main", "() {");
  }

  // ---------------------------------------------------------------
  // Runs of lines
  // ---------------------------------------------------------------

  /**
   * Every name declared among `lines` is absent from `before` and present in
   * `after`, and no name is declared twice.
   */
  predicate DeclsOnce(lines: seq<string>, before: set<string>, after: set<string>) {
    && (forall i :: 0 <= i < |lines| && DeclOf(lines[i]).Some? ==>
          DeclOf(lines[i]).value !in before && DeclOf(lines[i]).value in after)
    && (forall i, j :: 0 <= i < j < |lines| && DeclOf(lines[i]).Some? ==> DeclOf(lines[j]) != DeclOf(lines[i]))
  }

  /** Every label defined among `lines` is a counter value in `(lo, hi]`, and none is defined twice. */
  predicate LabelsOnce(lines: seq<string>, lo: nat, hi: nat) {
    && (forall i :: 0 <= i < |lines| && LabelOf(lines[i]).Some? ==> lo < LabelOf(lines[i]).value <= hi)
    && (forall i, j :: 0 <= i < j < |lines| && LabelOf(lines[i]).Some? ==> LabelOf(lines[j]) != LabelOf(lines[i]))
  }

  /** Declarations of new names, followed by declarations of names newer still, are still declared once. */
  lemma DeclsJoin(x: seq<string>, y: seq<string>, k0: set<string>, k1: set<string>, k2: set<string>)
    requires DeclsOnce(x, k0, k1) && DeclsOnce(y, k1, k2) && k0 <= k1 <= k2
    ensures DeclsOnce(x + y, k0, k2)
  {
    var xy := x + y;
    forall i | 0 <= i < |xy| && DeclOf(xy[i]).Some?
      ensures DeclOf(xy[i]).value !in k0 && DeclOf(xy[i]).value in k2
    {
      if i < |x| {
        assert xy[i] == x[i];
      } else {
        assert xy[i] == y[i - |x|];
      }
    }
    forall i, j | 0 <= i < j < |xy| && DeclOf(xy[i]).Some?
      ensures DeclOf(xy[j]) != DeclOf(xy[i])
    {
      if j < |x| {
        assert xy[i] == x[i] && xy[j] == x[j];
      } else if i >= |x| {
        assert xy[i] == y[i - |x|] && xy[j] == y[j - |x|];
      } else {
        assert xy[i] == x[i] && xy[j] == y[j - |x|];
      }
    }
  }

  /** Labels from one interval followed by labels from a later one are still defined once. */
  lemma LabelsJoin(x: seq<string>, y: seq<string>, lo: nat, m1: nat, m2: nat, hi: nat)
    requires LabelsOnce(x, lo, m1) && LabelsOnce(y, m2, hi) && lo <= m1 <= m2 <= hi
    ensures LabelsOnce(x + y, lo, hi)
  {
    var xy := x + y;
    forall i | 0 <= i < |xy| && LabelOf(xy[i]).Some?
      ensures lo < LabelOf(xy[i]).value <= hi
    {
      if i < |x| {
        assert xy[i] == x[i];
      } else {
        assert xy[i] == y[i - |x|];
      }
    }
    forall i, j | 0 <= i < j < |xy| && LabelOf(xy[i]).Some?
      ensures LabelOf(xy[j]) != LabelOf(xy[i])
    {
      if j < |x| {
        assert xy[i] == x[i] && xy[j] == x[j];
      } else if i >= |x| {
        assert xy[i] == y[i - |x|] && xy[j] == y[j - |x|];
      } else {
        assert xy[i] == x[i] && xy[j] == y[j - |x|];
      }
    }
  }

  /**
   * From `g` to `h` the buffer only grows, and the lines added declare only
   * names new to the table and define only labels newly counted, none twice.
   */
  predicate Unrepeated(g: Gen, h: Gen) {
    && g.output <= h.output
    && DeclsOnce(h.output[|g.output|..], g.table.Keys, h.table.Keys)
    && LabelsOnce(h.output[|g.output|..], g.labels, h.labels)
  }

  lemma UnrepeatedTrans(a: Gen, b: Gen, c: Gen)
    requires Unrepeated(a, b) && Unrepeated(b, c)
    requires a.table.Keys <= b.table.Keys <= c.table.Keys && a.labels <= b.labels <= c.labels
    ensures Unrepeated(a, c)
  {
    var x, y := b.output[|a.output|..], c.output[|b.output|..];
    assert c.output[|a.output|..] == x + y;
    DeclsJoin(x, y, a.table.Keys, b.table.Keys, c.table.Keys);
    LabelsJoin(x, y, a.labels, b.labels, b.labels, c.labels);
  }

  /** A line that neither declares nor defines a label adds nothing to repeat. */
  lemma QuietLine(g: Gen, t: string)
    requires DeclOf(Indent(g.indent) + t) == None && LabelOf(Indent(g.indent) + t) == None
    ensures Unrepeated(g, AddLine(g, t))
  {
    assert AddLine(g, t).output[|g.output|..] == [Indent(g.indent) + t];
  }

  lemma Unchanged(g: Gen)
    ensures Unrepeated(g, g)
  {
    assert g.output[|g.output|..] == [];
  }

  // ---------------------------------------------------------------
  // Statements
  // ---------------------------------------------------------------

  /** Every assignment target and function name in a statement is a name. */
  predicate NamedStmt(s: Stmt)
    decreases s, 0
  {
    match s
    case Function(name, _, body, _) => Name(name) && NamedBlock(body)
    case Assignment(x, _) => Name(x)
    case Print(_) => true
    case If(_, t, e) => NamedBlock(t) && NamedBlock(e)
    case While(_, body) => NamedBlock(body)
  }

  predicate NamedBlock(ss: seq<Stmt>)
    decreases ss, 1
  {
    |ss| == 0 || (NamedStmt(ss[0]) && NamedBlock(ss[1..]))
  }

  lemma {:induction false} StmtUnrepeated(g: Gen, s: Stmt)
    requires NamedStmt(s) && GenStmt(g, s).Success?
    ensures Unrepeated(g, GenStmt(g, s).value)
    decreases s, 2
  {
    match s
    case Function(name, params, body, ret) => FunctionUnrepeated(g, name, params, body, ret);
    case Assignment(x, e) => AssignmentUnrepeated(g, x, e);
    case Print(e) => PrintUnrepeated(g, e);
    case If(c, t, e) => IfUnrepeated(g, c, t, e);
    case While(c, body) => WhileUnrepeated(g, c, body);
  }

  lemma {:induction false} BlockUnrepeated(g: Gen, ss: seq<Stmt>)
    requires NamedBlock(ss) && GenBlock(g, ss).Success?
    ensures Unrepeated(g, GenBlock(g, ss).value)
    decreases ss, 0
  {
    if |ss| == 0 {
      Unchanged(g);
    } else {
      var g1 := GenStmt(g, ss[0]).value;
      StmtUnrepeated(g, ss[0]);
      BlockUnrepeated(g1, ss[1..]);
      UnrepeatedTrans(g, g1, GenBlock(g, ss).value);
    }
  }

  lemma AssignmentUnrepeated(g: Gen, x: string, e: Expr)
    requires Name(x) && GenAssignment(g, x, e).Success?
    ensures Unrepeated(g, GenAssignment(g, x, e).value)
  {
    var h := GenAssignment(g, x, e).value;
    var v := LowerExpr(g.table, e).value;
    assert h.output[|g.output|..] == [h.output[|g.output|]];
    if x in g.table {
      StoreLine(g.indent, x, v);
    } else {
      DeclLine(g.indent, x, v);
    }
  }

  lemma PrintUnrepeated(g: Gen, e: Expr)
    requires GenPrint(g, e).Success?
    ensures Unrepeated(g, GenPrint(g, e).value)
  {
    var t := "printf(\"%d\\n\", " + LowerExpr(g.table, e).value + ");";
    assert t[0] == 'p' && t[|t| - 1] == ';';
    PlainLine(g.indent, t);
    QuietLine(g, t);
  }

  lemma {:induction false} IfUnrepeated(g: Gen, c: Expr, t: seq<Stmt>, e: seq<Stmt>)
    requires NamedBlock(t) && NamedBlock(e) && GenIf(g, c, t, e).Success?
    ensures Unrepeated(g, GenIf(g, c, t, e).value)
    decreases If(c, t, e), 1
  {
    var cv := LowerExpr(g.table, c).value;
    var g1 := AddLine(g, "if (" + cv + ") {");
    IfSucceeds(g, c, t, e);
    var g2 := GenBlock(Nest(g1), t).value;
    var g5 := GenElse(Dedent(g2), c, t, e).value;
    IfHeadReads(g.indent, cv);
    QuietLine(g, "if (" + cv + ") {");
    BlockUnrepeated(Nest(g1), t);
    ElseUnrepeated(Dedent(g2), c, t, e);
    PlainLine(g5.indent, "}");
    QuietLine(g5, "}");
    UnrepeatedTrans(g, g1, g2);
    UnrepeatedTrans(g, g2, g5);
    UnrepeatedTrans(g, g5, AddLine(g5, "}"));
  }

  /** A conditional that lowers: its condition, then-block and else part all lower, in that order. */
  lemma IfSucceeds(g: Gen, c: Expr, t: seq<Stmt>, e: seq<Stmt>)
    requires GenIf(g, c, t, e).Success?
    ensures LowerExpr(g.table, c).Success?
    ensures var g1 := AddLine(g, "if (" + LowerExpr(g.table, c).value + ") {");
            && GenBlock(Nest(g1), t).Success?
            && GenBlock(Nest(g1), t).value.indent > 0
            && GenElse(Dedent(GenBlock(Nest(g1), t).value), c, t, e).Success?
            && GenIf(g, c, t, e).value == AddLine(GenElse(Dedent(GenBlock(Nest(g1), t).value), c, t, e).value, "}")
  {
  }

  lemma IfHeadReads(k: nat, cv: string)
    ensures DeclOf(Indent(k) + ("if (" + cv + ") {")) == None
    ensures LabelOf(Indent(k) + ("if (" + cv + ") {")) == None
  {
    var head := "if (" + cv + ") {";
    assert head[..4] == "if (" && head[|head| - 1] == '{';
    IfLine(k, head);
  }

  lemma {:induction false} ElseUnrepeated(g: Gen, c: Expr, t: seq<Stmt>, e: seq<Stmt>)
    requires NamedBlock(e) && GenElse(g, c, t, e).Success?
    ensures Unrepeated(g, GenElse(g, c, t, e).value)
    decreases If(c, t, e), 0
  {
    if |e| == 0 {
      Unchanged(g);
    } else {
      var g1 := AddLine(g, "} else {");
      PlainLine(g.indent, "} else {");
      QuietLine(g, "} else {");
      BlockUnrepeated(Nest(g1), e);
      UnrepeatedTrans(g, g1, GenBlock(Nest(g1), e).value);
    }
  }

  lemma {:induction false} FunctionUnrepeated(g: Gen, name: string, params: seq<string>, body: seq<Stmt>, ret: Option<Expr>)
    requires NamedBlock(body) && GenFunction(g, name, params, body, ret).Success?
    ensures Unrepeated(g, GenFunction(g, name, params, body, ret).value)
    decreases body, 1
  {
    var header := FunctionHeader(name, params);
    var g1 := AddLine(g, header);
    var g2 := GenBlock(Nest(g1), body).value;
    var g3 := GenReturn(g2, ret).value;
    var h := AddLine(Dedent(g3), "}");
    assert header[0] == '\n' && header[|header| - 1] == '{';
    PlainLine(g.indent, header);
    QuietLine(g, header);
    BlockUnrepeated(Nest(g1), body);
    ReturnUnrepeated(g2, ret);
    PlainLine(g.indent, "}");
    QuietLine(Dedent(g3), "}");
    UnrepeatedTrans(g, g1, g2);
    UnrepeatedTrans(g, g2, g3);
    UnrepeatedTrans(g, g3, h);
  }

  lemma ReturnUnrepeated(g: Gen, ret: Option<Expr>)
    requires GenReturn(g, ret).Success?
    ensures Unrepeated(g, GenReturn(g, ret).value)
  {
    var t := if ret.Some? then "return " + LowerExpr(g.table, ret.value).value + ";" else "return 0;";
    assert t[0] == 'r' && t[|t| - 1] == ';';
    PlainLine(g.indent, t);
    QuietLine(g, t);
  }

  lemma {:induction false} WhileUnrepeated(g: Gen, c: Expr, body: seq<Stmt>)
    requires NamedBlock(body) && GenWhile(g, c, body).Success?
    ensures Unrepeated(g, GenWhile(g, c, body).value)
    decreases body, 1
  {
    var cv := LowerExpr(g.table, c).value;
    var g4 := WhileHead(g, cv);
    WhileSucceeds(g, c, body);
    var g5 := GenBlock(Nest(g4), body).value;
    WhileSteps(g, c, body, cv, g5);
    BlockUnrepeated(Nest(g4), body);
    WhileLinesUnrepeated(g, cv, g5);
  }

  /** A loop that lowers has a body that lowers after the loop's head. */
  lemma WhileSucceeds(g: Gen, c: Expr, body: seq<Stmt>)
    requires GenWhile(g, c, body).Success?
    ensures LowerExpr(g.table, c).Success?
    ensures GenBlock(Nest(WhileHead(g, LowerExpr(g.table, c).value)), body).Success?
  {
    var cv := LowerExpr(g.table, c).value;
    var (g1, start) := NewLabel(g);
    var (g2, end) := NewLabel(g1);
    var g4 := AddLine(AddLine(g2, start + ":"), "if (!(" + cv + ")) goto " + end + ";");
    assert g4 == WhileHead(g, cv);
  }

  /** The head, a body without repeats, and the tail make a loop without repeats. */
  lemma WhileLinesUnrepeated(g: Gen, cv: string, g5: Gen)
    requires Unrepeated(WhileHead(g, cv), g5)
    requires Grows(Nest(WhileHead(g, cv)), g5) && g5.indent == g.indent + 1
    requires g.table.Keys <= g5.table.Keys && g.labels + 2 <= g5.labels
    ensures Unrepeated(g, WhileTail(g, g5))
  {
    var k, n := g.indent, g.labels;
    var g4 := WhileHead(g, cv);
    var h := WhileTail(g, g5);
    var start, end := LabelName(n + 1), LabelName(n + 2);
    var guard := "if (!(" + cv + ")) goto " + end + ";";
    var jump := "goto " + start + ";";
    var lines := g5.output[|g4.output|..];
    var l1, l2 := Indent(k) + (start + ":"), Indent(k) + guard;
    var l3, l4 := Indent(k + 1) + jump, Indent(k) + (end + ":");
    assert g4.output == g.output + [l1, l2];
    assert h.output == g5.output + [l3, l4];
    assert h.output[|g.output|..] == [l1, l2] + lines + [l3, l4];
    WhileLineReads(k, n, cv);
    WhileDecls(l1, l2, lines, l3, l4, g.table.Keys, g5.table.Keys);
    WhileLabels(l1, l2, lines, l3, l4, n, h.labels);
  }

  /** How a loop's own four lines read. */
  lemma WhileLineReads(k: nat, n: nat, cv: string)
    ensures var guard := "if (!(" + cv + ")) goto " + LabelName(n + 2) + ";";
            DeclOf(Indent(k) + guard) == None && LabelOf(Indent(k) + guard) == None
    ensures var jump := "goto " + LabelName(n + 1) + ";";
            DeclOf(Indent(k + 1) + jump) == None && LabelOf(Indent(k + 1) + jump) == None
    ensures LabelOf(Indent(k) + (LabelName(n + 1) + ":")) == Some(n + 1)
    ensures LabelOf(Indent(k) + (LabelName(n + 2) + ":")) == Some(n + 2)
    ensures DeclOf(Indent(k) + (LabelName(n + 1) + ":")) == None
    ensures DeclOf(Indent(k) + (LabelName(n + 2) + ":")) == None
  {
    var guard := "if (!(" + cv + ")) goto " + LabelName(n + 2) + ";";
    var jump := "goto " + LabelName(n + 1) + ";";
    LabelLine(k, n + 1);
    LabelLine(k, n + 2);
    assert guard[..4] == "if (" && guard[|guard| - 1] == ';';
    IfLine(k, guard);
    assert jump[0] == 'g' && jump[|jump| - 1] == ';';
    PlainLine(k + 1, jump);
  }

  /** The declarations of a loop are those of its body. */
  lemma WhileDecls(l1: string, l2: string, lines: seq<string>, l3: string, l4: string, k0: set<string>, k1: set<string>)
    requires DeclOf(l1) == None && DeclOf(l2) == None && DeclOf(l3) == None && DeclOf(l4) == None
    requires DeclsOnce(lines, k0, k1) && k0 <= k1
    ensures DeclsOnce([l1, l2] + lines + [l3, l4], k0, k1)
  {
    DeclsJoin([l1, l2], lines, k0, k0, k1);
    DeclsJoin([l1, l2] + lines, [l3, l4], k0, k1, k1);
  }

  /**
   * A loop defines its start label `n + 1` first and its end label `n + 2`
   * last; its body's labels come after both from the counter.
   */
  lemma WhileLabels(l1: string, l2: string, lines: seq<string>, l3: string, l4: string, n: nat, top: nat)
    requires LabelOf(l1) == Some(n + 1) && LabelOf(l2) == None && LabelOf(l3) == None && LabelOf(l4) == Some(n + 2)
    requires LabelsOnce(lines, n + 2, top) && n + 2 <= top
    ensures LabelsOnce([l1, l2] + lines + [l3, l4], n, top)
  {
    LabelsJoin([l1, l2], lines, n, n + 1, n + 2, top);
    var front := [l1, l2] + lines + [l3];
    LabelsJoin([l1, l2] + lines, [l3], n, top, top, top);
    forall i | 0 <= i < |front|
      ensures LabelOf(front[i]) != Some(n + 2)
    {
      if 2 <= i < |front| - 1 {
        assert front[i] == lines[i - 2];
      }
    }
    LabelsLast(front, l4, n, top, n + 2);
    assert [l1, l2] + lines + [l3, l4] == front + [l4];
  }

  /** A label defined after a run that never defines it keeps every label defined once. */
  lemma LabelsLast(x: seq<string>, line: string, lo: nat, hi: nat, m: nat)
    requires LabelsOnce(x, lo, hi) && LabelOf(line) == Some(m) && lo < m <= hi
    requires forall i :: 0 <= i < |x| ==> LabelOf(x[i]) != Some(m)
    ensures LabelsOnce(x + [line], lo, hi)
  {
    var w := x + [line];
    forall i, j | 0 <= i < j < |w| && LabelOf(w[i]).Some?
      ensures LabelOf(w[j]) != LabelOf(w[i])
    {
      assert w[i] == x[i];
      if j < |x| {
        assert w[j] == x[j];
      }
    }
    forall i | 0 <= i < |w| && LabelOf(w[i]).Some?
      ensures lo < LabelOf(w[i]).value <= hi
    {
      if i < |x| {
        assert w[i] == x[i];
      }
    }
  }

  // ---------------------------------------------------------------
  // Loops
  // ---------------------------------------------------------------

  /**
   * A loop defines its start label `n + 1` on its first line and its end
   * label `n + 2` on its last; every label defined in between belongs to a
   * nested loop and was taken later from the counter.
   */
  lemma {:induction false} WhileLabelsFresh(g: Gen, c: Expr, body: seq<Stmt>, h: Gen)
    requires NamedBlock(body) && GenWhile(g, c, body) == Success(h)
    ensures |h.output| >= |g.output| + 2
    ensures LabelOf(h.output[|g.output|]) == Some(g.labels + 1)
    ensures LabelOf(h.output[|h.output| - 1]) == Some(g.labels + 2)
    ensures forall i :: |g.output| < i < |h.output| - 1 && LabelOf(h.output[i]).Some? ==>
              g.labels + 2 < LabelOf(h.output[i]).value <= h.labels
  {
    WhileUnrepeated(g, c, body);
    LoopLabels(g, h);
  }

  /**
   * The label reading of a loop's lines, for any run whose new lines repeat
   * nothing and which opens and closes with the loop's two label lines.
   */
  lemma LoopLabels(g: Gen, h: Gen)
    requires Unrepeated(g, h) && |g.output| + 2 <= |h.output|
    requires h.output[|g.output|] == Indent(g.indent) + (LabelName(g.labels + 1) + ":")
    requires h.output[|h.output| - 1] == Indent(g.indent) + (LabelName(g.labels + 2) + ":")
    ensures LabelOf(h.output[|g.output|]) == Some(g.labels + 1)
    ensures LabelOf(h.output[|h.output| - 1]) == Some(g.labels + 2)
    ensures forall i :: |g.output| < i < |h.output| - 1 && LabelOf(h.output[i]).Some? ==>
              g.labels + 2 < LabelOf(h.output[i]).value <= h.labels
  {
    LabelLine(g.indent, g.labels + 1);
    LabelLine(g.indent, g.labels + 2);
    LabelsInside(h.output, |g.output|, g.labels, h.labels);
  }

  /**
   * When the run from `n` on opens with label `lo + 1` and closes with label
   * `lo + 2`, every label strictly inside is above `lo + 2`.
   */
  lemma LabelsInside(out: seq<string>, n: nat, lo: nat, hi: nat)
    requires n + 2 <= |out| && LabelsOnce(out[n..], lo, hi)
    requires LabelOf(out[n]) == Some(lo + 1) && LabelOf(out[|out| - 1]) == Some(lo + 2)
    ensures forall i :: n < i < |out| - 1 && LabelOf(out[i]).Some? ==> lo + 2 < LabelOf(out[i]).value <= hi
  {
    var lines := out[n..];
    assert lines[0] == out[n] && lines[|lines| - 1] == out[|out| - 1];
    forall i | n < i < |out| - 1 && LabelOf(out[i]).Some?
      ensures lo + 2 < LabelOf(out[i]).value <= hi
    {
      assert lines[i - n] == out[i];
    }
  }

  // ---------------------------------------------------------------
  // Programs
  // ---------------------------------------------------------------

  lemma {:induction false} NamedParts(ss: seq<Stmt>)
    requires NamedBlock(ss)
    ensures NamedBlock(Functions(ss)) && NamedBlock(NonFunctions(ss))
  {
    if |ss| > 0 {
      NamedParts(ss[1..]);
      assert ([ss[0]] + Functions(ss[1..]))[1..] == Functions(ss[1..]);
      assert ([ss[0]] + NonFunctions(ss[1..]))[1..] == NonFunctions(ss[1..]);
    }
  }

  lemma {:induction false} NamedAt(ss: seq<Stmt>, i: nat)
    requires NamedBlock(ss) && i < |ss|
    ensures NamedStmt(ss[i])
  {
    if i > 0 {
      NamedAt(ss[1..], i - 1);
    }
  }

  /** The prologue declares no variable and defines no label. */
  lemma PrologueUnrepeated(g: Gen, ss: seq<Stmt>)
    requires NamedBlock(ss)
    ensures Unrepeated(g, Prologue(g, ss))
  {
    var fs, k := Functions(ss), g.indent;
    var text := PrologueText(fs, k);
    PrologueTextLines(fs, k);
    NamedParts(ss);
    assert "#include <stdio.h>"[0] == '#' && "#include <stdlib.h>\n"[0] == '#';
    PlainLine(k, "#include <stdio.h>");
    PlainLine(k, "#include <stdlib.h>\n");
    PlainLine(k, "\n// Main Program");
    MainLine(k);
    forall i | 0 <= i < |text|
      ensures DeclOf(text[i]) == None && LabelOf(text[i]) == None
    {
      if 2 <= i < 2 + |fs| {
        NamedAt(fs, i - 2);
        ForwardDeclLine(k, fs[i - 2]);
      }
    }
    assert Prologue(g, ss).output[|g.output|..] == text;
  }

  /** `main` repeats nothing: its body does not, and its closing lines are quiet. */
  lemma MainUnrepeated(g: Gen, ss: seq<Stmt>)
    requires NamedBlock(NonFunctions(ss)) && GenMain(g, ss).Success?
    ensures Unrepeated(g, GenMain(g, ss).value)
  {
    var g1 := GenBlock(Nest(g), NonFunctions(ss)).value;
    var g2 := AddLine(Dedent(g1), "return 0;");
    BlockUnrepeated(Nest(g), NonFunctions(ss));
    PlainLine(g.indent, "return 0;");
    QuietLine(Dedent(g1), "return 0;");
    PlainLine(g.indent, "}\n");
    QuietLine(g2, "}\n");
    UnrepeatedTrans(g, g1, g2);
    UnrepeatedTrans(g, g2, AddLine(g2, "}\n"));
  }

  lemma ProgramUnrepeated(g: Gen, p: Program)
    requires NamedBlock(p.statements) && GenProgram(g, p).Success?
    ensures Unrepeated(g, GenProgram(g, p).value)
  {
    var ss := p.statements;
    var g1 := Prologue(g, ss);
    ProgramPhases(g, p);
    var g2 := GenMain(g1, ss).value;
    NamedParts(ss);
    PrologueUnrepeated(g, ss);
    MainUnrepeated(g1, ss);
    BlockUnrepeated(g2, Functions(ss));
    UnrepeatedTrans(g, g1, g2);
    UnrepeatedTrans(g, g2, GenProgram(g, p).value);
  }

  /**
   * In a whole translation unit no variable is declared twice, not even in
   * different blocks or functions, and every declared name is one the
   * program assigns.
   */
  lemma ProgramDeclaresOnce(p: Program, h: Gen)
    requires NamedBlock(p.statements) && GenProgram(Fresh(), p) == Success(h)
    ensures forall i :: 0 <= i < |h.output| && DeclOf(h.output[i]).Some? ==> DeclOf(h.output[i]).value in AssignedIn(p.statements)
    ensures forall i, j :: 0 <= i < j < |h.output| && DeclOf(h.output[i]).Some? ==> DeclOf(h.output[j]) != DeclOf(h.output[i])
  {
    ProgramUnrepeated(Fresh(), p);
    FromScratch(h);
  }

  /**
   * In a whole translation unit no label is defined twice, and the labels
   * are `label_1` up to `label_2m` for `m` loops.
   */
  lemma ProgramLabelsOnce(p: Program, h: Gen)
    requires NamedBlock(p.statements) && GenProgram(Fresh(), p) == Success(h)
    ensures forall i :: 0 <= i < |h.output| && LabelOf(h.output[i]).Some? ==> 0 < LabelOf(h.output[i]).value <= 2 * LoopsIn(p.statements)
    ensures forall i, j :: 0 <= i < j < |h.output| && LabelOf(h.output[i]).Some? ==> LabelOf(h.output[j]) != LabelOf(h.output[i])
  {
    ProgramUnrepeated(Fresh(), p);
    FromScratch(h);
  }

  /** A run from the fresh generator that repeats nothing, read as a whole. */
  lemma FromScratch(h: Gen)
    requires Unrepeated(Fresh(), h)
    ensures DeclsOnce(h.output, {}, h.table.Keys) && LabelsOnce(h.output, 0, h.labels)
  {
    assert h.output[0..] == h.output;
  }
}
