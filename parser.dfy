/**
 * The statement parser (src/parser.rs).
 *
 * The Rust `Parser` is a cursor over the token vector with the fields
 * `position`, `read_position` and `token`. Its `next_token` tests
 * `read_position` but reads `tokens[position]`, so once the parser is
 * constructed every advance from cursor `c` makes `At(ts, c)` current and
 * moves the cursor to `c + 1`: the tokens become current in order, and the
 * last token never does.
 *
 * The specification of one call of `next_statement` is `ParseStep(ts, c)`,
 * a function of the tokens and of the cursor at the call; the class methods
 * are proved equal to it, and the properties of the parser are lemmas about
 * `ParseStep` and `StatementsFrom`.
 */
module Parsing {
  import opened Wrappers
  import opened Lexing
  import opened Syntax

  datatype ParsingError = ParsingError(errorMessage: string)

  const NO_TOKEN_LEFT := ParsingError("No token left")
  const MISSING_QUOTE := ParsingError("Missing \" after include")
  const UNSUPPORTED_TOKEN := ParsingError("Unsupported token found")

  /** The token an advance from cursor `c` makes current. */
  function At(ts: seq<Token>, c: nat): (r: Option<Token>)
    ensures r.Some? <==> c + 1 < |ts|
    ensures r.Some? ==> r.value == ts[c]
  {
    if c + 1 >= |ts| then None else Some(ts[c])
  }

  /** The tokens `skip_spaces` passes over (a Tab is not one of them). */
  predicate IsBlank(t: Token)
  {
    t.tokenType == Space || t.tokenType == LineBreak
  }

  /** Every token in `[i, j)` becomes current and is blank. */
  predicate BlankBetween(ts: seq<Token>, i: nat, j: nat)
  {
    (i < j ==> j < |ts|) && forall m | i <= m < j :: IsBlank(ts[m])
  }

  // Rust's `to_lowercase` is Unicode case mapping; this model restricts it to ASCII.

  function ToLower(c: char): char
  {
    if 'A' <= c <= 'Z' then (c as int - 'A' as int + 'a' as int) as char else c
  }

  function LowerCase(s: string): (r: string)
    ensures |r| == |s|
    ensures forall i | 0 <= i < |s| :: r[i] == ToLower(s[i])
  {
    seq(|s|, i requires 0 <= i < |s| => ToLower(s[i]))
  }

  /** The token that starts an INCLUDE statement. */
  predicate IsIncludeKeyword(t: Token)
  {
    t.tokenType == Identifier && LowerCase(t.literal) == "include"
  }

  /** The in-order concatenation of the literals of `ts`. */
  function Literals(ts: seq<Token>): string
  {
    if ts == [] then "" else ts[0].literal + Literals(ts[1..])
  }

  /**
   * Where `skip_spaces` leaves the current token when it starts with the
   * cursor at `c`: the first index whose token is missing or not blank.
   */
  function FirstNonBlank(ts: seq<Token>, c: nat): (k: nat)
    ensures c <= k
    ensures c + 1 >= |ts| ==> k == c
    ensures c + 1 < |ts| ==> k < |ts|
    ensures BlankBetween(ts, c, k)
    ensures k + 1 >= |ts| || !IsBlank(ts[k])
    decreases |ts| - c
  {
    if c + 1 >= |ts| || !IsBlank(ts[c]) then c else FirstNonBlank(ts, c + 1)
  }

  /**
   * The loop of `next_string` started with the cursor at `c`: the
   * concatenated literals and the index of the token it stops at, the first
   * one that is missing or a DoubleQuote.
   */
  function ReadString(ts: seq<Token>, c: nat): (r: (string, nat))
    requires c <= |ts|
    ensures c <= r.1 <= |ts|
    ensures c + 1 >= |ts| ==> r.1 == c
    ensures c < r.1 ==> r.1 < |ts|
    ensures forall m | c <= m < r.1 :: ts[m].tokenType != DoubleQuote
    ensures r.1 + 1 >= |ts| || ts[r.1].tokenType == DoubleQuote
    ensures r.0 == Literals(ts[c..r.1])
    decreases |ts| - c
  {
    if c + 1 >= |ts| || ts[c].tokenType == DoubleQuote then
      ("", c)
    else
      var (data, j) := ReadString(ts, c + 1);
      assert ts[c..j][1..] == ts[c + 1..j];
      (ts[c].literal + data, j)
  }

  /**
   * The loop of `next_string` as it runs: the literals gathered so far,
   * `data`, in front of those still to come.
   */
  function ReadStringOnto(ts: seq<Token>, c: nat, data: string): (string, nat)
    requires c <= |ts|
    decreases |ts| - c
  {
    if c + 1 >= |ts| || ts[c].tokenType == DoubleQuote then
      (data, c)
    else
      ReadStringOnto(ts, c + 1, data + ts[c].literal)
  }

  /** Gathering onto `data` ends with `data` followed by what `ReadString` gathers, at the same stop. */
  lemma {:induction false} ReadStringOntoGathers(ts: seq<Token>, c: nat, data: string)
    requires c <= |ts|
    ensures ReadStringOnto(ts, c, data) == (data + ReadString(ts, c).0, ReadString(ts, c).1)
    decreases |ts| - c
  {
    if c + 1 >= |ts| || ts[c].tokenType == DoubleQuote {
      assert data + "" == data;
    } else {
      var lit, rest := ts[c].literal, ReadString(ts, c + 1).0;
      ReadStringOntoGathers(ts, c + 1, data + lit);
      assert (data + lit) + rest == data + (lit + rest);
    }
  }

  /**
   * The include branch of `next_statement`, the keyword being at `k`: after
   * blanks either a token that is not a DoubleQuote, which is an error, or
   * a string, which is the path; a missing token is no error.
   */
  function IncludeAfter(ts: seq<Token>, k: nat): (r: (Result<Statement, ParsingError>, nat))
    requires k + 1 < |ts|
    ensures k + 1 < r.1
    ensures r.0.Ok? ==> r.1 <= |ts| + 2 && r.0.value.IncludeStatement?
    ensures r.0.Err? ==> r.0.error == MISSING_QUOTE && r.1 < |ts|
  {
    var k2 := FirstNonBlank(ts, k + 1);
    if At(ts, k2).Some? && ts[k2].tokenType != DoubleQuote then
      (Err(MISSING_QUOTE), k2 + 1)
    else
      var path := ReadString(ts, k2 + 1);
      (Ok(IncludeStatement(path.0)), path.1 + 2)
  }

  /**
   * One call of `next_statement` with the cursor at `c`: its result and the
   * cursor after it. Only INCLUDE is parsed; the cursor always moves on, and
   * a statement leaves it at most two places past the end.
   */
  function ParseStep(ts: seq<Token>, c: nat): (r: (Result<Statement, ParsingError>, nat))
    ensures c < r.1
    ensures r.0.Ok? ==> r.1 <= |ts| + 2 && r.0.value.IncludeStatement?
    ensures r.0.Ok? ==> var k := FirstNonBlank(ts, c); k + 1 < |ts| && IsIncludeKeyword(ts[k])
    ensures r.0.Err? ==> r.0.error in {NO_TOKEN_LEFT, MISSING_QUOTE, UNSUPPORTED_TOKEN}
  {
    var k := FirstNonBlank(ts, c);
    if At(ts, k).None? then
      (Err(NO_TOKEN_LEFT), k + 1)
    else if IsIncludeKeyword(ts[k]) then
      IncludeAfter(ts, k)
    else
      (Err(UNSUPPORTED_TOKEN), k + 1)
  }

  /** The statements `parse_ast` collects from cursor `c`: every `Ok` up to the first `Err`. */
  function StatementsFrom(ts: seq<Token>, c: nat): (stmts: seq<Statement>)
    ensures forall s | s in stmts :: s.IncludeStatement?
    decreases |ts| + 2 - c
  {
    var (r, next) := ParseStep(ts, c);
    if r.Err? then [] else [r.value] + StatementsFrom(ts, next)
  }

  class Parser {
    const tokens: seq<Token>
    const tokensNumber: nat
    // current position in the tokens (the cursor)
    var position: nat
    // one past the cursor
    var readPosition: nat
    // the token under examination
    var token: Option<Token>

    ghost predicate Valid()
      reads this
    {
      tokensNumber == |tokens| && readPosition == position + 1
    }

    constructor (ts: seq<Token>)
      ensures Valid() && tokens == ts && position == 0
      ensures token == (if |ts| == 0 then None else Some(ts[0]))
    {
      tokens := ts;
      tokensNumber := |ts|;
      position := 0;
      readPosition := 0;
      token := None;
      new;
      NextToken();
    }

    /** `next_token`: tests `read_position` but reads at `position`. */
    method NextToken()
      requires position <= readPosition && tokensNumber == |tokens|
      modifies this
      ensures token == (if old(readPosition) >= tokensNumber then None else Some(tokens[old(position)]))
      ensures position == old(readPosition) && readPosition == old(readPosition) + 1
    {
      if readPosition >= tokensNumber {
        token := None;
      } else {
        token := Some(tokens[position]);
      }
      position := readPosition;
      readPosition := readPosition + 1;
    }

    /** `peek_token`: the token at `read_position`, which may be the last one. */
    function PeekToken(): (r: Option<Token>)
      reads this
      requires Valid()
      ensures r.Some? <==> position + 1 < |tokens|
      ensures r.Some? ==> r.value == tokens[position + 1]
    {
      if readPosition >= tokensNumber then None else Some(tokens[readPosition])
    }

    /** `skip_spaces`: at least one advance, then on over Space and LineBreak. */
    method SkipSpaces()
      requires Valid()
      modifies this
      ensures Valid()
      ensures position == FirstNonBlank(tokens, old(position)) + 1
      ensures token == At(tokens, position - 1)
    {
      NextToken();
      while token.Some?
        invariant Valid() && old(position) < position
        invariant token == At(tokens, position - 1)
        invariant FirstNonBlank(tokens, position - 1) == FirstNonBlank(tokens, old(position))
        decreases |tokens| - position
      {
        if !IsBlank(token.value) {
          break;
        }
        NextToken();
      }
    }

    /** `next_string`: skip the opening quote, gather literals up to a quote, skip it. */
    method NextString() returns (data: string)
      requires Valid() && position <= |tokens|
      modifies this
      ensures Valid()
      ensures data == ReadString(tokens, old(position)).0
      ensures position == ReadString(tokens, old(position)).1 + 2
      ensures token == At(tokens, position - 1)
    {
      ghost var start := position;
      NextToken();
      data := "";
      while token.Some?
        invariant Valid() && start < position <= |tokens| + 1
        invariant token == At(tokens, position - 1)
        invariant ReadStringOnto(tokens, position - 1, data) == ReadStringOnto(tokens, start, "")
        decreases |tokens| - position
      {
        if token.value.tokenType == DoubleQuote {
          break;
        }
        data := data + token.value.literal;
        NextToken();
      }
      ReadStringOntoGathers(tokens, start, "");
      assert "" + ReadString(tokens, start).0 == ReadString(tokens, start).0;
      NextToken();
    }

    /** `next_statement`: exactly one `ParseStep` of the cursor. */
    method NextStatement() returns (r: Result<Statement, ParsingError>)
      requires Valid()
      modifies this
      ensures Valid()
      ensures (r, position) == ParseStep(tokens, old(position))
      ensures token == At(tokens, position - 1)
    {
      SkipSpaces();
      if token.None? {
        return Err(NO_TOKEN_LEFT);
      }
      var t := token.value;
      if t.tokenType == Identifier && LowerCase(t.literal) == "include" {
        r := NextInclude();
        return;
      }
      return Err(UNSUPPORTED_TOKEN);
    }

    /**
     * The include branch of `next_statement`, entered with the keyword
     * current: skip blanks, reject a token that is not a DoubleQuote, read
     * the string.
     */
    method NextInclude() returns (r: Result<Statement, ParsingError>)
      requires Valid() && 0 < position < |tokens|
      modifies this
      ensures Valid()
      ensures (r, position) == IncludeAfter(tokens, old(position) - 1)
      ensures token == At(tokens, position - 1)
    {
      ghost var k := position - 1;
      SkipSpaces();
      ghost var k2 := position - 1;
      if token.Some? {
        if token.value.tokenType != DoubleQuote {
          return Err(MISSING_QUOTE);
        }
      }
      var path := NextString();
      IncludeAfterPath(tokens, k, k2, ReadString(tokens, k2 + 1));
      return Ok(IncludeStatement(path));
    }
  }

  /** `parse_ast`: always `Ok`, holding the statements up to the first error. */
  method ParseAst(tokens: seq<Token>) returns (r: Result<Ast, ParsingError>)
    ensures r == Ok(Ast(StatementsFrom(tokens, 0)))
  {
    var parser := new Parser(tokens);
    var statements := [];
    var stmt := parser.NextStatement();
    StatementsStep(tokens, 0, stmt, parser.position);
    // the statements still to be gathered, the current one first
    ghost var rest := StatementsFrom(tokens, 0);
    while stmt.Ok?
      invariant parser.Valid() && parser.tokens == tokens
      invariant stmt.Ok? ==> parser.position <= |tokens| + 2
      invariant rest == if stmt.Ok? then [stmt.value] + StatementsFrom(tokens, parser.position) else []
      invariant statements + rest == StatementsFrom(tokens, 0)
      decreases if stmt.Ok? then |tokens| + 3 - parser.position else 0
    {
      ghost var p := parser.position;
      AppendShift(statements, stmt.value, rest[1..]);
      statements := statements + [stmt.value];
      rest := rest[1..];
      stmt := parser.NextStatement();
      StatementsStep(tokens, p, stmt, parser.position);
    }
    assert statements + [] == statements;
    return Ok(Ast(statements));
  }

  // Properties of the parser.

  /** One step of `parse_ast`'s loop: an `Ok` statement heads the rest, an error ends it. */
  lemma StatementsStep(ts: seq<Token>, c: nat, r: Result<Statement, ParsingError>, next: nat)
    requires (r, next) == ParseStep(ts, c)
    ensures StatementsFrom(ts, c) == if r.Ok? then [r.value] + StatementsFrom(ts, next) else []
  {
  }

  /** `skip_spaces` stops at the first token that is missing or not blank. */
  lemma FirstNonBlankAt(ts: seq<Token>, c: nat, k: nat)
    requires c <= k && BlankBetween(ts, c, k) && (k + 1 >= |ts| || !IsBlank(ts[k]))
    ensures FirstNonBlank(ts, c) == k
  {
  }

  /** The loop of `next_string` stops at the first token that is missing or a DoubleQuote. */
  lemma {:induction false} ReadStringAt(ts: seq<Token>, c: nat, j: nat)
    requires c <= j <= |ts|
    requires c < j ==> j < |ts|
    requires forall m | c <= m < j :: ts[m].tokenType != DoubleQuote
    requires j + 1 >= |ts| || ts[j].tokenType == DoubleQuote
    ensures ReadString(ts, c) == (Literals(ts[c..j]), j)
    decreases j - c
  {
    if c + 1 < |ts| && ts[c].tokenType != DoubleQuote {
      ReadStringAt(ts, c + 1, j);
      assert ts[c..j][1..] == ts[c + 1..j];
    }
  }

  /** `next_statement` reports "No token left" exactly when only blank tokens remain before the last one. */
  lemma NoTokenLeftExactly(ts: seq<Token>, c: nat)
    ensures ParseStep(ts, c).0 == Err(NO_TOKEN_LEFT) <==> forall m | c <= m < |ts| - 1 :: IsBlank(ts[m])
  {
  }

  /** Any first non-blank token other than an INCLUDE keyword is unsupported, a Tab or a Number included. */
  lemma UnsupportedAt(ts: seq<Token>, c: nat, k: nat)
    requires c <= k && BlankBetween(ts, c, k) && k + 1 < |ts|
    requires !IsBlank(ts[k]) && !IsIncludeKeyword(ts[k])
    ensures ParseStep(ts, c) == (Err(UNSUPPORTED_TOKEN), k + 1)
  {
    FirstNonBlankAt(ts, c, k);
  }

  /** The token kinds no statement can start with. */
  lemma UnsupportedKinds(ts: seq<Token>, c: nat)
    requires c + 1 < |ts|
    requires ts[c].tokenType in {Unknown, Tab, Slash, DoubleQuote, Comma, Dot, SemiColon, Number, EOF}
    ensures ParseStep(ts, c) == (Err(UNSUPPORTED_TOKEN), c + 1)
  {
    UnsupportedAt(ts, c, c);
  }

  /** An INCLUDE keyword followed, after blanks, by a token that is not a DoubleQuote. */
  lemma MissingQuoteAt(ts: seq<Token>, c: nat, k: nat, q: nat)
    requires c <= k < q && BlankBetween(ts, c, k) && k + 1 < |ts| && IsIncludeKeyword(ts[k])
    requires BlankBetween(ts, k + 1, q) && q + 1 < |ts|
    requires !IsBlank(ts[q]) && ts[q].tokenType != DoubleQuote
    ensures ParseStep(ts, c) == (Err(MISSING_QUOTE), q + 1)
  {
    FirstNonBlankAt(ts, c, k);
    FirstNonBlankAt(ts, k + 1, q);
  }

  /**
   * An INCLUDE keyword, blanks, an opening quote at `q` and a string that
   * ends at the closing quote `j` or at the end: the path is the
   * concatenated literals strictly between, and the cursor stops two places
   * past `j`, so the token after the closing quote is passed over.
   */
  lemma IncludeAt(ts: seq<Token>, c: nat, k: nat, q: nat, j: nat)
    requires c <= k < q < j <= |ts| && BlankBetween(ts, c, k) && k + 1 < |ts| && IsIncludeKeyword(ts[k])
    requires BlankBetween(ts, k + 1, q) && q + 1 < |ts| && ts[q].tokenType == DoubleQuote
    requires q + 1 < j ==> j < |ts|
    requires forall m | q + 1 <= m < j :: ts[m].tokenType != DoubleQuote
    requires j + 1 >= |ts| || ts[j].tokenType == DoubleQuote
    ensures ParseStep(ts, c) == (Ok(IncludeStatement(Literals(ts[q + 1..j]))), j + 2)
  {
    KeywordStep(ts, c, k);
    QuotedPathAt(ts, k, q, j);
  }

  /** A cursor whose first non-blank token is the keyword hands over to the include branch. */
  lemma KeywordStep(ts: seq<Token>, c: nat, k: nat)
    requires c <= k && BlankBetween(ts, c, k) && k + 1 < |ts| && IsIncludeKeyword(ts[k])
    ensures ParseStep(ts, c) == IncludeAfter(ts, k)
  {
    FirstNonBlankAt(ts, c, k);
  }

  /** The include branch on a path between the quotes at `q` and `j`. */
  lemma QuotedPathAt(ts: seq<Token>, k: nat, q: nat, j: nat)
    requires k < q < j <= |ts| && k + 1 < |ts|
    requires BlankBetween(ts, k + 1, q) && q + 1 < |ts| && ts[q].tokenType == DoubleQuote
    requires q + 1 < j ==> j < |ts|
    requires forall m | q + 1 <= m < j :: ts[m].tokenType != DoubleQuote
    requires j + 1 >= |ts| || ts[j].tokenType == DoubleQuote
    ensures IncludeAfter(ts, k) == (Ok(IncludeStatement(Literals(ts[q + 1..j]))), j + 2)
  {
    FirstNonBlankAt(ts, k + 1, q);
    ReadStringAt(ts, q + 1, j);
    IncludeAfterPath(ts, k, q, (Literals(ts[q + 1..j]), j));
  }

  /** An INCLUDE keyword followed only by blanks is an include of the empty path, not an error. */
  lemma IncludeAtEnd(ts: seq<Token>, c: nat, k: nat)
    requires c <= k && BlankBetween(ts, c, k) && k + 1 < |ts| && IsIncludeKeyword(ts[k])
    requires BlankBetween(ts, k + 1, |ts| - 1)
    ensures ParseStep(ts, c) == (Ok(IncludeStatement("")), |ts| + 2)
  {
    FirstNonBlankAt(ts, c, k);
    FirstNonBlankAt(ts, k + 1, |ts| - 1);
  }

  /** The keyword is matched without regard to case, letter by letter. */
  lemma IncludeKeywordIgnoresCase(t: Token)
    ensures IsIncludeKeyword(t) <==>
              && t.tokenType == Identifier && |t.literal| == 7
              && forall i | 0 <= i < 7 :: t.literal[i] == "include"[i] || t.literal[i] == "INCLUDE"[i]
  {
  }

  /** `skip_spaces` depends only on the tokens up to where it stops. */
  lemma FirstNonBlankReads(ts: seq<Token>, us: seq<Token>, c: nat, k: nat)
    requires |ts| == |us| && k == FirstNonBlank(ts, c)
    requires forall m | c <= m <= k && m + 1 < |ts| :: ts[m] == us[m]
    ensures FirstNonBlank(us, c) == k
  {
    assert forall m | c <= m < k :: ts[m] == us[m];
    FirstNonBlankAt(us, c, k);
  }

  /** The loop of `next_string` depends only on the tokens up to where it stops. */
  lemma ReadStringReads(ts: seq<Token>, us: seq<Token>, c: nat, j: nat)
    requires |ts| == |us| && c <= |ts| && j == ReadString(ts, c).1
    requires forall m | c <= m <= j && m + 1 < |ts| :: ts[m] == us[m]
    ensures ReadString(us, c) == ReadString(ts, c)
  {
    assert ts[c..j] == us[c..j];
    ReadStringAt(us, c, j);
  }

  /**
   * The include branch examines the tokens after the keyword up to the
   * token it reports as not a DoubleQuote, or up to the closing quote of the
   * path, the token just before the cursor it leaves behind.
   */
  lemma IncludeAfterReads(ts: seq<Token>, us: seq<Token>, k: nat, e: nat)
    requires |ts| == |us| && k + 1 < |ts|
    requires IncludeAfter(ts, k).0.Ok? ==> Min(IncludeAfter(ts, k).1 - 1, |ts| - 1) <= e
    requires IncludeAfter(ts, k).0.Err? ==> IncludeAfter(ts, k).1 <= e
    requires forall m | k < m < e && m + 1 < |ts| :: ts[m] == us[m]
    ensures IncludeAfter(us, k) == IncludeAfter(ts, k)
  {
    var k2 := FirstNonBlank(ts, k + 1);
    if At(ts, k2).Some? && ts[k2].tokenType != DoubleQuote {
      assert IncludeAfter(ts, k) == (Err(MISSING_QUOTE), k2 + 1);
      MissingQuoteReads(ts, us, k, k2);
    } else {
      var j := ReadString(ts, k2 + 1).1;
      assert IncludeAfter(ts, k).1 == j + 2;
      PathReads(ts, us, k, k2, j);
    }
  }

  lemma MissingQuoteReads(ts: seq<Token>, us: seq<Token>, k: nat, k2: nat)
    requires |ts| == |us| && k + 1 < |ts| && k2 == FirstNonBlank(ts, k + 1)
    requires k2 + 1 < |ts| && ts[k2].tokenType != DoubleQuote
    requires forall m | k < m <= k2 :: ts[m] == us[m]
    ensures IncludeAfter(us, k) == IncludeAfter(ts, k)
  {
    FirstNonBlankReads(ts, us, k + 1, k2);
    assert FirstNonBlank(us, k + 1) == k2 && us[k2] == ts[k2];
  }

  lemma PathReads(ts: seq<Token>, us: seq<Token>, k: nat, k2: nat, j: nat)
    requires |ts| == |us| && k + 1 < |ts| && k2 == FirstNonBlank(ts, k + 1)
    requires k2 + 1 >= |ts| || ts[k2].tokenType == DoubleQuote
    requires j == ReadString(ts, k2 + 1).1
    requires forall m | k < m <= j && m + 1 < |ts| :: ts[m] == us[m]
    ensures IncludeAfter(us, k) == IncludeAfter(ts, k)
  {
    PathFacts(ts, us, k, k2, j);
    var path := ReadString(ts, k2 + 1);
    IncludeAfterPath(ts, k, k2, path);
    IncludeAfterPath(us, k, k2, path);
  }

  /** The blanks after the keyword and the token they stop at read alike in both sequences. */
  lemma BlanksAlike(ts: seq<Token>, us: seq<Token>, k: nat, k2: nat, j: nat)
    requires |ts| == |us| && k + 1 < |ts| && k2 == FirstNonBlank(ts, k + 1) && k2 < j
    requires forall m | k < m <= j && m + 1 < |ts| :: ts[m] == us[m]
    ensures k2 == FirstNonBlank(us, k + 1)
    ensures k2 + 1 < |ts| ==> us[k2] == ts[k2]
  {
    FirstNonBlankReads(ts, us, k + 1, k2);
  }

  /** The stop of the blanks, the opening quote and the string read alike in both sequences. */
  lemma PathFacts(ts: seq<Token>, us: seq<Token>, k: nat, k2: nat, j: nat)
    requires |ts| == |us| && k + 1 < |ts| && k2 == FirstNonBlank(ts, k + 1)
    requires k2 + 1 >= |ts| || ts[k2].tokenType == DoubleQuote
    requires j == ReadString(ts, k2 + 1).1
    requires forall m | k < m <= j && m + 1 < |ts| :: ts[m] == us[m]
    ensures k2 == FirstNonBlank(us, k + 1)
    ensures k2 + 1 >= |us| || us[k2].tokenType == DoubleQuote
    ensures ReadString(us, k2 + 1) == ReadString(ts, k2 + 1)
  {
    BlanksAlike(ts, us, k, k2, j);
    ReadStringReads(ts, us, k2 + 1, j);
  }

  /** The include branch when a string follows the keyword. */
  lemma IncludeAfterPath(ts: seq<Token>, k: nat, k2: nat, path: (string, nat))
    requires k + 1 < |ts| && k2 == FirstNonBlank(ts, k + 1)
    requires k2 + 1 >= |ts| || ts[k2].tokenType == DoubleQuote
    requires path == ReadString(ts, k2 + 1)
    ensures IncludeAfter(ts, k) == (Ok(IncludeStatement(path.0)), path.1 + 2)
  {
  }

  /** One call depends only on the tokens from the cursor on, the last token aside. */
  lemma ParseStepReadsOnlyAhead(ts: seq<Token>, us: seq<Token>, c: nat)
    requires |ts| == |us|
    requires forall m | c <= m < |ts| - 1 :: ts[m] == us[m]
    ensures ParseStep(ts, c) == ParseStep(us, c)
  {
    var k := FirstNonBlank(ts, c);
    FirstNonBlankReads(ts, us, c, k);
    if k + 1 < |ts| && IsIncludeKeyword(ts[k]) {
      IncludeAfterReads(ts, us, k, |ts| - 1);
    }
  }

  /**
   * An include examines the tokens from the cursor up to its closing quote,
   * the token just before the cursor it leaves behind, and no further.
   */
  lemma IncludeReadsUpToClosingQuote(ts: seq<Token>, us: seq<Token>, c: nat)
    requires |ts| == |us| && ParseStep(ts, c).0.Ok?
    requires forall m | c <= m < ParseStep(ts, c).1 - 1 && m + 1 < |ts| :: ts[m] == us[m]
    ensures ParseStep(ts, c) == ParseStep(us, c)
  {
    var k := FirstNonBlank(ts, c);
    FirstNonBlankReads(ts, us, c, k);
    IncludeAfterReads(ts, us, k, ParseStep(ts, c).1 - 1);
  }

  /** Two token sequences that agree from `c` on, the last token aside, parse alike from `c`. */
  lemma {:induction false} StatementsReadOnlyAhead(ts: seq<Token>, us: seq<Token>, c: nat)
    requires |ts| == |us|
    requires forall m | c <= m < |ts| - 1 :: ts[m] == us[m]
    ensures StatementsFrom(ts, c) == StatementsFrom(us, c)
    decreases |ts| + 2 - c
  {
    ParseStepReadsOnlyAhead(ts, us, c);
    var (r, next) := ParseStep(ts, c);
    if r.Ok? {
      StatementsReadOnlyAhead(ts, us, next);
    }
  }

  /** The last token never influences the statements: sequences that differ only there parse alike. */
  lemma LastTokenNeverExamined(ts: seq<Token>, us: seq<Token>)
    requires |ts| == |us| && ts != [] && ts[..|ts| - 1] == us[..|us| - 1]
    ensures StatementsFrom(ts, 0) == StatementsFrom(us, 0)
  {
    forall m | 0 <= m < |ts| - 1
      ensures ts[m] == us[m]
    {
      assert ts[m] == ts[..|ts| - 1][m];
    }
    StatementsReadOnlyAhead(ts, us, 0);
  }

  /**
   * After an include, the token right after the closing quote (just before
   * the cursor it leaves) can be anything: the next call advances past it
   * before looking.
   */
  lemma TokenAfterIncludeNeverExamined(ts: seq<Token>, c: nat, next: nat, t: Token)
    requires ParseStep(ts, c).0.Ok? && ParseStep(ts, c).1 == next <= |ts|
    ensures StatementsFrom(ts[next - 1 := t], c) == StatementsFrom(ts, c)
  {
    var step := ParseStep(ts, c);
    var us := ts[next - 1 := t];
    forall m | c <= m < next - 1 && m + 1 < |ts|
      ensures ts[m] == us[m]
    {
    }
    IncludeReadsUpToClosingQuote(ts, us, c);
    forall m | next <= m < |ts| - 1
      ensures ts[m] == us[m]
    {
    }
    StatementsReadOnlyAhead(ts, us, next);
    StatementsStep(ts, c, step.0, next);
    StatementsStep(us, c, step.0, next);
  }
}
