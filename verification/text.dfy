/** Text helpers shared by the passes: indentation, joining and decimal rendering. */
module Text {

  /** The indentation unit, emitted once per nesting level. */
  const Unit: string := "    "

  /** `"    " * depth`. */
  function Indent(depth: nat): (r: string)
    ensures |r| == 4 * depth
    ensures forall i :: 0 <= i < |r| ==> r[i] == ' '
  {
    if depth == 0 then "" else Unit + Indent(depth - 1)
  }

  /** A line carries the indentation of `depth` when it begins with `Indent(depth)`. */
  predicate IndentedBy(line: string, depth: nat) {
    Indent(depth) <= line
  }

  /** Deeper indentation is still indentation at every shallower depth. */
  lemma {:induction false} IndentMonotone(d: nat, e: nat)
    requires d <= e
    ensures Indent(d) <= Indent(e)
  {
    if d < e {
      IndentMonotone(d, e - 1);
      assert Indent(e) == Indent(e - 1) + Unit;
    }
  }

  /** One more level of indentation still carries every shallower level. */
  lemma IndentNested(d: nat)
    ensures forall line :: IndentedBy(line, d + 1) ==> IndentedBy(line, d)
  {
    IndentMonotone(d, d + 1);
  }

  /** `sep.join(parts)` */
  function Join(parts: seq<string>, sep: string): string {
    if |parts| == 0 then ""
    else if |parts| == 1 then parts[0]
    else parts[0] + sep + Join(parts[1..], sep)
  }

  /** A join splits at any interior boundary into the joins of the two halves. */
  lemma {:induction false} JoinSplit(parts: seq<string>, i: nat, sep: string)
    requires 0 < i < |parts|
    ensures Join(parts, sep) == Join(parts[..i], sep) + sep + Join(parts[i..], sep)
  {
    if i == 1 {
      assert parts[..1] == [parts[0]];
    } else {
      JoinSplit(parts[1..], i - 1, sep);
      assert parts[1..][..i - 1] == parts[..i][1..];
      assert parts[1..][i - 1..] == parts[i..];
    }
  }

  /** The length of a join is the parts' lengths plus one separator between neighbours. */
  function TotalLength(parts: seq<string>): nat {
    if |parts| == 0 then 0 else |parts[0]| + TotalLength(parts[1..])
  }

  lemma {:induction false} JoinLength(parts: seq<string>, sep: string)
    requires |parts| > 0
    ensures |Join(parts, sep)| == TotalLength(parts) + (|parts| - 1) * |sep|
  {
    if |parts| > 1 {
      JoinLength(parts[1..], sep);
    }
  }

  // ---------------------------------------------------------------
  // Decimal rendering of integers, standing in for Python's `str(n)`
  // ---------------------------------------------------------------

  function DigitChar(d: nat): (c: char)
    requires d < 10
    ensures '0' <= c <= '9'
  {
    "0123456789"[d]
  }

  function DigitValue(c: char): nat
    requires '0' <= c <= '9'
  {
    (c as int - '0' as int) as nat
  }

  predicate AllDigits(s: string) {
    forall i :: 0 <= i < |s| ==> '0' <= s[i] <= '9'
  }

  /** The decimal digits of `n`, most significant first, without leading zeros. */
  function NatToString(n: nat): (s: string)
    ensures |s| > 0 && AllDigits(s)
    ensures |s| > 1 ==> s[0] != '0'
  {
    if n < 10 then [DigitChar(n)] else NatToString(n / 10) + [DigitChar(n % 10)]
  }

  /** Reads a digit string back as a number. */
  function ParseNat(s: string): nat
    requires AllDigits(s)
  {
    if |s| == 0 then 0 else 10 * ParseNat(s[..|s| - 1]) + DigitValue(s[|s| - 1])
  }

  lemma DigitRoundTrip(d: nat)
    requires d < 10
    ensures DigitValue(DigitChar(d)) == d
  {
  }

  /** Rendering a natural number is undone by parsing it. */
  lemma {:induction false} NatToStringRoundTrip(n: nat)
    ensures ParseNat(NatToString(n)) == n
  {
    var s := NatToString(n);
    DigitRoundTrip(n % 10);
    if n >= 10 {
      NatToStringRoundTrip(n / 10);
      assert s[..|s| - 1] == NatToString(n / 10);
    }
  }

  /** Distinct numbers render as distinct strings. */
  lemma NatToStringInjective(m: nat, n: nat)
    requires m != n
    ensures NatToString(m) != NatToString(n)
  {
    NatToStringRoundTrip(m);
    NatToStringRoundTrip(n);
  }

  /** `str(n)` for a Python int: a leading `-` for negatives, then the digits of `|n|`. */
  function IntToString(n: int): (s: string)
    ensures |s| > 0
    ensures n < 0 <==> s[0] == '-'
  {
    if n < 0 then "-" + NatToString(-n) else NatToString(n)
  }

  /** The shape `IntToString` produces: an optional `-` followed by at least one digit. */
  predicate Numeral(s: string) {
    if |s| > 0 && s[0] == '-' then |s| > 1 && AllDigits(s[1..]) else |s| > 0 && AllDigits(s)
  }

  function ParseInt(s: string): int
    requires Numeral(s)
  {
    if s[0] == '-' then -(ParseNat(s[1..]) as int) else ParseNat(s) as int
  }

  /** Rendering an integer is undone by parsing it, so the literal text loses nothing. */
  lemma IntToStringRoundTrip(n: int)
    ensures Numeral(IntToString(n))
    ensures ParseInt(IntToString(n)) == n
  {
    if n < 0 {
      var d := NatToString(-n);
      NatToStringRoundTrip(-n);
      assert IntToString(n) == "-" + d;
      assert ("-" + d)[1..] == d;
    } else {
      NatToStringRoundTrip(n);
    }
  }
}
