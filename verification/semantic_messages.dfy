/**
 * Reading the analyzer's messages back. Each of the four message formats is
 * told apart by its opening words and its closing text, and the name and
 * type names inside are recovered, so a message determines the diagnostic
 * it reports: nothing is lost in the rendering.
 */
module SemanticMessages {
  import opened Wrappers
  import opened Semantic

  predicate EndsWith(m: string, tail: string) {
    |tail| <= |m| && m[|m| - |tail|..] == tail
  }

  const UndefinedHead: string := "Undefined variable '"
  const PrintTail: string := "' in print statement."
  const AssignHead: string := "Type mismatch: '"
  const OperandHead: string := "Type mismatch in operation: "

  /**
   * Splits a trailing type name followed by `tail` off `m`, trying the four
   * type names in turn.
   */
  function ReadTy(m: string, tail: string): Option<(string, Ty)> {
    if EndsWith(m, "int" + tail) then Some((m[..|m| - |"int" + tail|], IntTy))
    else if EndsWith(m, "str" + tail) then Some((m[..|m| - |"str" + tail|], StrTy))
    else if EndsWith(m, "unknown" + tail) then Some((m[..|m| - |"unknown" + tail|], UnknownTy))
    else if EndsWith(m, "error" + tail) then Some((m[..|m| - |"error" + tail|], ErrorTy))
    else None
  }

  /** The diagnostic a message reports, if it has one of the four formats. */
  function Parse(m: string): Option<Diagnostic> {
    if OperandHead <= m then ParseOperand(m[|OperandHead|..])
    else if AssignHead <= m then ParseAssign(m[|AssignHead|..])
    else if UndefinedHead <= m then ParseUndefined(m[|UndefinedHead|..])
    else None
  }

  /** After the head: `<type> vs <type>.` */
  function ParseOperand(rest: string): Option<Diagnostic> {
    match ReadTy(rest, ".")
    case None => None
    case Some((front, r)) =>
      match ReadTy(front, " vs ")
      case Some(("", l)) => Some(OperandMismatch(l, r))
      case _ => None
  }

  /** After the head: `<name>' is <type>, but assigned <type>.` */
  function ParseAssign(rest: string): Option<Diagnostic> {
    match ReadTy(rest, ".")
    case None => None
    case Some((front, stored)) =>
      match ReadTy(front, ", but assigned ")
      case None => None
      case Some((named, declared)) =>
        if EndsWith(named, "' is ") then Some(AssignMismatch(named[..|named| - 5], declared, stored)) else None
  }

  /** After the head: `<name>' in print statement.` or `<name>'.` */
  function ParseUndefined(rest: string): Option<Diagnostic> {
    if EndsWith(rest, PrintTail) then Some(UndefinedInPrint(rest[..|rest| - |PrintTail|]))
    else if EndsWith(rest, "'.") then Some(Undefined(rest[..|rest| - 2]))
    else None
  }

  // ---------------------------------------------------------------
  // Round trip
  // ---------------------------------------------------------------

  /** Every message reads back as the diagnostic it was rendered from. */
  lemma ParseRender(d: Diagnostic)
    ensures Parse(Render(d)) == Some(d)
  {
    match d
    case Undefined(x) => ReadsUndefined(x);
    case UndefinedInPrint(x) => ReadsUndefinedInPrint(x);
    case AssignMismatch(x, declared, stored) => ReadsAssignMismatch(x, declared, stored);
    case OperandMismatch(l, r) => ReadsOperandMismatch(l, r);
  }

  lemma ReadsUndefined(x: string)
    ensures Parse(Render(Undefined(x))) == Some(Undefined(x))
  {
    var m, rest := Render(Undefined(x)), x + "'.";
    assert m == UndefinedHead + rest;
    HeadsApart(m, rest);
    UndefinedRoundTrip(x);
  }

  lemma ReadsUndefinedInPrint(x: string)
    ensures Parse(Render(UndefinedInPrint(x))) == Some(UndefinedInPrint(x))
  {
    var m, rest := Render(UndefinedInPrint(x)), x + PrintTail;
    assert m == UndefinedHead + rest;
    HeadsApart(m, rest);
    PrintRoundTrip(x);
  }

  lemma ReadsAssignMismatch(x: string, declared: Ty, stored: Ty)
    ensures Parse(Render(AssignMismatch(x, declared, stored))) == Some(AssignMismatch(x, declared, stored))
  {
    var m := Render(AssignMismatch(x, declared, stored));
    var rest := x + "' is " + TypeName(declared) + ", but assigned " + TypeName(stored) + ".";
    Regroup(AssignHead, x, "' is ", TypeName(declared), ", but assigned ", TypeName(stored), ".");
    AssignHeadAlone(m, rest);
    AssignRoundTrip(x, declared, stored);
  }

  lemma ReadsOperandMismatch(l: Ty, r: Ty)
    ensures Parse(Render(OperandMismatch(l, r))) == Some(OperandMismatch(l, r))
  {
    var m, rest := Render(OperandMismatch(l, r)), TypeName(l) + " vs " + TypeName(r) + ".";
    Regroup(OperandHead, "", TypeName(l), " vs ", TypeName(r), ".", "");
    assert OperandHead <= m && m[|OperandHead|..] == rest;
    OperandRoundTrip(l, r);
  }

  /** Two diagnostics with the same message are the same diagnostic. */
  lemma RenderInjective(d: Diagnostic, e: Diagnostic)
    ensures Render(d) == Render(e) <==> d == e
  {
    ParseRender(d);
    ParseRender(e);
  }

  /** The analyzer's message list reads back, message by message, as its diagnostics. */
  lemma ParseRendered(ds: seq<Diagnostic>)
    ensures |Rendered(ds)| == |ds|
    ensures forall i :: 0 <= i < |ds| ==> Parse(Rendered(ds)[i]) == Some(ds[i])
  {
    forall i | 0 <= i < |ds|
      ensures Parse(Rendered(ds)[i]) == Some(ds[i])
    {
      ParseRender(ds[i]);
    }
  }

  lemma Regroup(h: string, a: string, b: string, c: string, d: string, e: string, f: string)
    ensures h + a + b + c + d + e + f == h + (a + b + c + d + e + f)
  {
  }

  /** An undefined-variable message opens with neither of the mismatch heads. */
  lemma HeadsApart(m: string, rest: string)
    requires m == UndefinedHead + rest
    ensures !(OperandHead <= m) && !(AssignHead <= m) && UndefinedHead <= m && m[|UndefinedHead|..] == rest
  {
    assert m[0] == 'U';
  }

  /** An assignment mismatch does not open with the operand head: they part at the fourteenth character. */
  lemma AssignHeadAlone(m: string, rest: string)
    requires m == AssignHead + rest
    ensures !(OperandHead <= m) && AssignHead <= m && m[|AssignHead|..] == rest
  {
    assert m[13] == ':' && OperandHead[13] == ' ';
  }

  lemma UndefinedRoundTrip(x: string)
    ensures ParseUndefined(x + "'.") == Some(Undefined(x))
  {
    var rest := x + "'.";
    assert rest[|rest| - 2] == '\'' && PrintTail[|PrintTail| - 2] == 't';
    CharsDiffer(rest, PrintTail, 2);
    assert rest[|rest| - 2..] == "'.";
    assert rest[..|rest| - 2] == x;
  }

  lemma PrintRoundTrip(x: string)
    ensures ParseUndefined(x + PrintTail) == Some(UndefinedInPrint(x))
  {
    var rest := x + PrintTail;
    assert rest[|rest| - |PrintTail|..] == PrintTail;
    assert rest[..|rest| - |PrintTail|] == x;
  }

  lemma AssignRoundTrip(x: string, declared: Ty, stored: Ty)
    ensures ParseAssign(x + "' is " + TypeName(declared) + ", but assigned " + TypeName(stored) + ".")
              == Some(AssignMismatch(x, declared, stored))
  {
    var named := x + "' is ";
    var front := named + TypeName(declared) + ", but assigned ";
    assert x + "' is " + TypeName(declared) + ", but assigned " + TypeName(stored) + "." == front + TypeName(stored) + ".";
    ReadTyOf(front, stored, ".");
    ReadTyOf(named, declared, ", but assigned ");
    assert named[|named| - 5..] == "' is ";
    assert named[..|named| - 5] == x;
  }

  lemma OperandRoundTrip(l: Ty, r: Ty)
    ensures ParseOperand(TypeName(l) + " vs " + TypeName(r) + ".") == Some(OperandMismatch(l, r))
  {
    var front := TypeName(l) + " vs ";
    ReadTyOf(front, r, ".");
    assert front == "" + TypeName(l) + " vs ";
    ReadTyOf("", l, " vs ");
  }

  // ---------------------------------------------------------------
  // Type names at the end of a message
  // ---------------------------------------------------------------

  /** A type name followed by `tail` is split off exactly, whatever text precedes it. */
  lemma ReadTyOf(front: string, t: Ty, tail: string)
    ensures ReadTy(front + TypeName(t) + tail, tail) == Some((front, t))
  {
    var m := front + TypeName(t) + tail;
    assert m == front + (TypeName(t) + tail);
    assert m[|m| - |TypeName(t) + tail|..] == TypeName(t) + tail;
    assert m[..|m| - |TypeName(t) + tail|] == front;
    match t
    case IntTy =>
    case StrTy =>
      OtherName(front, t, IntTy, tail);
    case UnknownTy =>
      OtherName(front, t, IntTy, tail);
      OtherName(front, t, StrTy, tail);
    case ErrorTy =>
      OtherName(front, t, IntTy, tail);
      OtherName(front, t, StrTy, tail);
      OtherName(front, t, UnknownTy, tail);
  }

  /** A text ending in one type name and `tail` does not end in another type name and `tail`. */
  lemma OtherName(front: string, t: Ty, u: Ty, tail: string)
    requires t != u
    ensures !EndsWith(front + TypeName(t) + tail, TypeName(u) + tail)
  {
    var m := front + TypeName(t) + tail;
    var a, b := TypeName(t), TypeName(u);
    var n := b + tail;
    var j := if a[|a| - 1] != b[|b| - 1] then 1 else 2;
    assert a[|a| - j] != b[|b| - j];
    assert m[|m| - |tail| - j] == a[|a| - j];
    assert n[|n| - |tail| - j] == b[|b| - j];
    CharsDiffer(m, n, |tail| + j);
  }

  /** Texts that differ `k` characters from their ends do not end alike. */
  lemma CharsDiffer(m: string, tail: string, k: nat)
    requires 1 <= k <= |tail| && k <= |m| && m[|m| - k] != tail[|tail| - k]
    ensures !EndsWith(m, tail)
  {
    assert |tail| <= |m| ==> m[|m| - |tail|..][|tail| - k] == m[|m| - k];
  }
}
