/**
 * The statement nodes of the assembler (src/ast.rs). The Rust code uses one
 * struct per statement behind `Box<dyn Statement>`; here they are the cases of
 * one closed datatype, and `my_type` / `to_string` are functions over it.
 */
module Syntax {

  /** The kinds a statement can report (`StatementType`). */
  datatype StatementType = Section | Include | If | Def | NewCharMap | CharMap | SetCharMap

  datatype Statement =
    | IncludeStatement(path: string)
    | SectionStatement(name: string, sectionType: string)
    | IfStatement
    | NewCharMapStatement(name: string)
    | CharMapStatement(value: string, number: int)
    | DefStatement(name: string, value: string)

  /** The parsed program: statements in source order. */
  datatype Ast = Ast(statements: seq<Statement>)

  /**
   * `my_type`: every statement reports its own kind, except that a CHARMAP
   * statement reports NewCharMap, so CharMap and SetCharMap are never reported.
   */
  function MyType(s: Statement): (t: StatementType)
    ensures t != CharMap && t != SetCharMap
    ensures s.CharMapStatement? ==> t == NewCharMap
    ensures s.IncludeStatement? <==> t == Include
    ensures s.SectionStatement? <==> t == Section
    ensures s.IfStatement? <==> t == If
    ensures s.DefStatement? <==> t == Def
    ensures t == NewCharMap <==> s.NewCharMapStatement? || s.CharMapStatement?
  {
    match s
    case IncludeStatement(_) => Include
    case SectionStatement(_, _) => Section
    case IfStatement => If
    case NewCharMapStatement(_) => NewCharMap
    case CharMapStatement(_, _) => NewCharMap
    case DefStatement(_, _) => Def
  }

  /** The first two characters of each rendering. */
  function Head(s: Statement): string
  {
    match s
    case IncludeStatement(_) => "IN"
    case SectionStatement(_, _) => "SE"
    case IfStatement => "IF"
    case NewCharMapStatement(_) => "Ne"
    case CharMapStatement(_, _) => "Ch"
    case DefStatement(_, _) => "DE"
  }

  /**
   * `to_string` of each statement: every rendering is at least two characters
   * long and starts with the two letters of its kind.
   */
  function ToString(s: Statement): (r: string)
    ensures |r| >= 2 && r[..2] == Head(s)
  {
    match s
    case IncludeStatement(path) => "INCLUDE " + "\"" + path + "\""
    case SectionStatement(name, _) => "SECTION " + "\"" + name + "\""
    case IfStatement => "IF "
    case NewCharMapStatement(name) => "New Char Map " + name
    case CharMapStatement(value, number) => "Char Map \"" + value + "\" " + DecimalString(number)
    case DefStatement(name, value) => "DEF \"" + name + "\" " + value
  }

  /**
   * The first two characters of a rendering tell the kind of statement: two
   * statements rendered alike there report the same `my_type`, and are both
   * CHARMAP statements or neither.
   */
  lemma RenderingShowsKind(a: Statement, b: Statement)
    requires ToString(a)[..2] == ToString(b)[..2]
    ensures MyType(a) == MyType(b)
    ensures a.CharMapStatement? <==> b.CharMapStatement?
  {
    assert Head(a)[0] == Head(b)[0] && Head(a)[1] == Head(b)[1];
  }

  /** The section type of a SECTION statement does not show in its rendering. */
  lemma SectionTypeNotRendered(name: string, t1: string, t2: string)
    ensures ToString(SectionStatement(name, t1)) == ToString(SectionStatement(name, t2))
  {
  }

  /**
   * The number of a CHARMAP statement is rendered in decimal after the quoted
   * value, and it can be read back from the rendering.
   */
  lemma {:induction false} CharMapRenderingKeepsNumber(value: string, number: int)
    ensures var r := ToString(CharMapStatement(value, number));
            var prefix := "Char Map \"" + value + "\" ";
            prefix <= r && ParseDecimal(r[|prefix|..]) == number
  {
    var prefix := "Char Map \"" + value + "\" ";
    var r := ToString(CharMapStatement(value, number));
    assert r == prefix + DecimalString(number);
    assert r[|prefix|..] == DecimalString(number);
    DecimalRoundTrip(number);
  }

  // Decimal rendering of an integer (Rust's `to_string` on a number).

  function DigitChar(d: nat): (c: char)
    requires d < 10
    ensures IsDigit(c) && DigitValue(c) == d
  {
    "0123456789"[d]
  }

  predicate IsDigit(c: char) { '0' <= c <= '9' }

  predicate AllDigits(ds: string) { forall i | 0 <= i < |ds| :: IsDigit(ds[i]) }

  function DigitValue(c: char): nat
    requires IsDigit(c)
  {
    (c as int - '0' as int) as nat
  }

  /** Decimal digits of a natural number, most significant first, without leading zeros. */
  function NatDigits(n: nat): (ds: string)
    ensures |ds| > 0
    ensures AllDigits(ds)
    ensures |ds| > 1 ==> ds[0] != '0'
    decreases n
  {
    if n < 10 then [DigitChar(n)] else NatDigits(n / 10) + [DigitChar(n % 10)]
  }

  /** `to_string` of an integer: a minus sign for negative numbers, then the digits. */
  function DecimalString(n: int): (s: string)
    ensures |s| > 0
    ensures s[0] == '-' <==> n < 0
  {
    if n < 0 then "-" + NatDigits(-n) else NatDigits(n)
  }

  /** Value of a run of decimal digits, most significant first. */
  function NatValue(ds: string): nat
    requires AllDigits(ds)
  {
    if ds == [] then 0 else NatValue(ds[..|ds| - 1]) * 10 + DigitValue(ds[|ds| - 1])
  }

  /** Reads back a decimal rendering: an optional minus sign, then digits (anything else reads as 0). */
  function ParseDecimal(s: string): int
  {
    if |s| > 0 && s[0] == '-' then
      (if AllDigits(s[1..]) then -(NatValue(s[1..]) as int) else 0)
    else if AllDigits(s) then NatValue(s)
    else 0
  }

  lemma {:induction false} NatDigitsRoundTrip(n: nat)
    ensures NatValue(NatDigits(n)) == n
    decreases n
  {
    var ds := NatDigits(n);
    if n < 10 {
      assert ds[..0] == [];
    } else {
      NatDigitsRoundTrip(n / 10);
      assert ds[..|ds| - 1] == NatDigits(n / 10);
    }
  }

  /** Reading a decimal rendering back gives the number rendered. */
  lemma DecimalRoundTrip(n: int)
    ensures ParseDecimal(DecimalString(n)) == n
  {
    if n < 0 {
      NegativeRoundTrip(n);
    } else {
      NatDigitsRoundTrip(n);
      var ds := NatDigits(n);
      assert ds[0] != '-' && IsDigit(ds[0]);
    }
  }

  /** A negative number reads back through its minus sign and its digits. */
  lemma NegativeRoundTrip(n: int)
    requires n < 0
    ensures ParseDecimal(DecimalString(n)) == n
  {
    NatDigitsRoundTrip(-n);
    ParseNegative(DecimalString(n), NatDigits(-n));
  }

  /** A minus sign followed by digits reads as the negated value of the digits. */
  lemma ParseNegative(s: string, ds: string)
    requires s == "-" + ds && AllDigits(ds)
    ensures ParseDecimal(s) == -(NatValue(ds) as int)
  {
    assert s[1..] == ds;
  }
}
