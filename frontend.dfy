/**
 * The two stages together, as src/main.rs chains them: `lex_content` on the
 * lines of a file, then `parse_ast` on the tokens.
 */
module FrontEnd {
  import opened Wrappers
  import opened Lexing
  import opened Parsing
  import opened Syntax
  import LexingTest

  /** The statements the front end yields for the lines of a file. */
  function Assemble(lines: seq<string>): seq<Statement>
  {
    StatementsFrom(Tokenize(JoinLines(lines)), 0)
  }

  /** A text that ends with a closing quote and one character that cannot continue an identifier. */
  predicate EndsQuoted(s: seq<char>)
  {
    |s| >= 2 && s[|s| - 2] == '"' && !IsIdentifierChar(s[|s| - 1])
  }

  /** The characters from `p` up to the closing quote hold no quote and no `$`. */
  predicate PlainUpToQuote(s: seq<char>, p: nat)
    requires EndsQuoted(s)
  {
    p <= |s| - 2 && forall i | p <= i < |s| - 2 :: s[i] != '"' && s[i] != '$'
  }

  /**
   * A quoted path closed by a DoubleQuote in next-to-last place: from any
   * cursor inside it, the tokens end with that closing quote and no other
   * token is a DoubleQuote, provided the path holds no quote and no `$` (a
   * number would swallow the closing quote) and the last character cannot
   * continue an identifier.
   */
  lemma {:induction false} QuotedTailShape(s: seq<char>, p: nat)
    requires EndsQuoted(s) && PlainUpToQuote(s, p)
    ensures var ts := TokensFrom(s, p);
            && |ts| > 0 && ts[|ts| - 1] == Token("\"", DoubleQuote)
            && forall i | 0 <= i < |ts| - 1 :: ts[i].tokenType != DoubleQuote
    decreases |s| - p
  {
    if p == |s| - 2 {
      SingleCharacterTokens(s, p);
      assert TokensFrom(s, p) == [Token("\"", DoubleQuote)] + TokensFrom(s, p + 1);
    } else {
      var t, next := QuotedStep(s, p);
      QuotedTailShape(s, next);
    }
  }

  /** ... and the literals of the tokens before the closing quote are the text of the path. */
  lemma {:induction false} QuotedTailLiterals(s: seq<char>, p: nat)
    requires EndsQuoted(s) && PlainUpToQuote(s, p)
    ensures var ts := TokensFrom(s, p);
            |ts| > 0 && Literals(ts[..|ts| - 1]) == s[p..|s| - 2]
    decreases |s| - p
  {
    if p == |s| - 2 {
      SingleCharacterTokens(s, p);
      assert TokensFrom(s, p) == [Token("\"", DoubleQuote)] + TokensFrom(s, p + 1);
      assert TokensFrom(s, p)[..0] == [] && s[p..p] == [];
    } else {
      var t, next := QuotedStep(s, p);
      QuotedTailLiterals(s, next);
      LiteralsStep(s, p, t, next, TokensFrom(s, p), TokensFrom(s, next));
    }
  }

  /** The literals before the closing quote, one token further back. */
  lemma LiteralsStep(s: seq<char>, p: nat, t: Token, next: nat, ts: seq<Token>, rest: seq<Token>)
    requires p <= next <= |s| - 2 && t.literal == s[p..next]
    requires ts == [t] + rest && rest != []
    requires Literals(rest[..|rest| - 1]) == s[next..|s| - 2]
    ensures Literals(ts[..|ts| - 1]) == s[p..|s| - 2]
  {
    LiteralsPrepend(t, rest);
    SliceExtend(s, p, next, |s| - 2);
  }

  /** Inside the quoted path, a token never reaches the closing quote. */
  lemma QuotedStep(s: seq<char>, p: nat) returns (t: Token, next: nat)
    requires EndsQuoted(s) && PlainUpToQuote(s, p) && p < |s| - 2
    ensures Step(s, p) == Some((t, next))
    ensures p < next <= |s| - 2 && t.tokenType != DoubleQuote && t.literal == s[p..next]
    ensures PlainUpToQuote(s, next)
    ensures TokensFrom(s, p) == [t] + TokensFrom(s, next)
  {
    t, next := Step(s, p).value.0, Step(s, p).value.1;
    if IsAlphabetic(s[p]) {
      IdentifierTokens(s, p);
    }
  }

  lemma LiteralsPrepend(t: Token, ts: seq<Token>)
    requires ts != []
    ensures Literals(([t] + ts)[..|ts|]) == t.literal + Literals(ts[..|ts| - 1])
  {
    assert ([t] + ts)[..|ts|] == [t] + ts[..|ts| - 1];
    assert ([t] + ts[..|ts| - 1])[1..] == ts[..|ts| - 1];
  }

  /** A text that starts with the INCLUDE keyword and a space. */
  predicate StartsWithInclude(s: string)
  {
    && |s| > 8
    && s[0] == 'I' && s[1] == 'N' && s[2] == 'C' && s[3] == 'L' && s[4] == 'U' && s[5] == 'D'
    && s[6] == 'E' && s[7] == ' '
  }

  lemma IncludeKeywordStep(s: string)
    requires StartsWithInclude(s)
    ensures Step(s, 0) == Some((Token("INCLUDE", Identifier), 7))
  {
    RunEndAt(s, 1, 6, IsIdentifierChar);
    LongIdentifierStep(s, 0, 6);
    assert s[0..7] == "INCLUDE";
  }

  /** The text `lex_content` builds from the single line that renders an include. */
  predicate IsIncludeLine(s: string, path: string)
  {
    && |s| == |path| + 11 && StartsWithInclude(s) && s[8] == '"'
    && s[9..9 + |path|] == path
    && s[9 + |path|] == '"' && s[10 + |path|] == '\n'
  }

  lemma IncludeLineText(path: string)
    ensures IsIncludeLine(JoinLines([ToString(IncludeStatement(path))]), path)
  {
    var s := JoinLines([ToString(IncludeStatement(path))]);
    assert [ToString(IncludeStatement(path))][..0] == [];
    assert s == "INCLUDE \"" + path + "\"\n";
    MiddleSlice("INCLUDE \"", path, "\"\n");
  }

  lemma MiddleSlice<T>(a: seq<T>, m: seq<T>, b: seq<T>)
    ensures (a + m + b)[|a|..|a| + |m|] == m
  {
  }

  /** The tokens of an include line: the keyword, a space, the opening quote, then the quoted path. */
  lemma IncludeLineTokens(s: string, path: string)
    requires IsIncludeLine(s, path)
    ensures Tokenize(s) == [Token("INCLUDE", Identifier), Token(" ", Space), Token("\"", DoubleQuote)] + TokensFrom(s, 9)
  {
    IncludeKeywordStep(s);
    SingleCharacterTokens(s, 7);
    SingleCharacterTokens(s, 8);
    assert TokensFrom(s, 7) == [Token(" ", Space)] + TokensFrom(s, 8);
    assert TokensFrom(s, 8) == [Token("\"", DoubleQuote)] + TokensFrom(s, 9);
  }

  /**
   * Rendering an include and assembling the line gives the statement back,
   * for every path without a quote and without a `$`.
   */
  lemma IncludeRoundTrip(path: string)
    requires forall i | 0 <= i < |path| :: path[i] != '"' && path[i] != '$'
    ensures Assemble([ToString(IncludeStatement(path))]) == [IncludeStatement(path)]
  {
    var s := JoinLines([ToString(IncludeStatement(path))]);
    IncludeLineText(path);
    IncludeLineTokens(s, path);
    forall i | 9 <= i < |s| - 2
      ensures s[i] != '"' && s[i] != '$'
    {
      assert s[i] == s[9..9 + |path|][i - 9];
    }
    QuotedTailShape(s, 9);
    QuotedTailLiterals(s, 9);
    assert s[9..|s| - 2] == path;
    QuotedIncludeParses(Tokenize(s), TokensFrom(s, 9), path);
  }

  /**
   * The keyword, a space, the opening quote, then tokens up to a closing
   * quote, which is the last token: one include of the literals between.
   */
  lemma QuotedIncludeParses(ts: seq<Token>, rest: seq<Token>, path: string)
    requires ts == [Token("INCLUDE", Identifier), Token(" ", Space), Token("\"", DoubleQuote)] + rest
    requires |rest| > 0 && rest[|rest| - 1] == Token("\"", DoubleQuote)
    requires forall i | 0 <= i < |rest| - 1 :: rest[i].tokenType != DoubleQuote
    requires Literals(rest[..|rest| - 1]) == path
    ensures StatementsFrom(ts, 0) == [IncludeStatement(path)]
  {
    assert ts[3..|ts| - 1] == rest[..|rest| - 1];
    IncludeKeywordIgnoresCase(ts[0]);
    IncludeAt(ts, 0, 0, 2, |ts| - 1);
    assert StatementsFrom(ts, |ts| + 1) == [];
  }

  /** The tokens of the lexer test, token by token. */
  predicate IsTestTokens(ts: seq<Token>)
  {
    && |ts| == 13
    && ts[0] == Token("INCLUDE", Identifier) && ts[1] == Token(" ", Space) && ts[2] == Token("\"", DoubleQuote)
    && ts[3] == Token("foo", Identifier) && ts[4] == Token(".", Dot) && ts[5] == Token("asm", Identifier)
    && ts[6] == Token("\"", DoubleQuote) && ts[7] == Token("\n", LineBreak) && ts[8] == Token(";", SemiColon)
  }

  lemma LiteralsOfThree(a: Token, b: Token, c: Token)
    ensures Literals([a, b, c]) == a.literal + b.literal + c.literal
  {
    assert [a, b, c][1..] == [b, c];
    assert [b, c][1..] == [c];
    assert Literals([c]) == c.literal + "";
    assert Literals([b, c]) == b.literal + c.literal;
    assert a.literal + (b.literal + c.literal) == a.literal + b.literal + c.literal;
  }

  /** The first statement of the lexer test's tokens: an include of `foo.asm`, cursor on the `;`. */
  lemma TestTokensFirstStatement(ts: seq<Token>)
    requires IsTestTokens(ts)
    ensures ParseStep(ts, 0) == (Ok(IncludeStatement("foo.asm")), 8)
  {
    IncludeKeywordIgnoresCase(ts[0]);
    IncludeAt(ts, 0, 0, 2, 6);
    assert ts[3..6] == [ts[3], ts[4], ts[5]];
    LiteralsOfThree(ts[3], ts[4], ts[5]);
    assert "foo" + "." + "asm" == "foo.asm";
  }

  /**
   * The example file of the lexer's unit test yields one include of
   * `foo.asm`: the line break after the closing quote is passed over, and
   * the `;` of the comment ends the statements with an error that
   * `parse_ast` drops.
   */
  lemma TestInputStatements()
    ensures StatementsFrom(Tokenize(LexingTest.TEST_INPUT), 0) == [IncludeStatement("foo.asm")]
  {
    LexingTest.LexingContent();
    var ts := LexingTest.TEST_TOKENS;
    assert IsTestTokens(ts);
    TestTokensFirstStatement(ts);
    UnsupportedKinds(ts, 8);
  }

  /** The text of the single line `INCLUDE foo`. */
  predicate IsUnquotedIncludeLine(s: string)
  {
    |s| == 12 && StartsWithInclude(s) && s[8] == 'f' && s[9] == 'o' && s[10] == 'o' && s[11] == '\n'
  }

  lemma UnquotedIncludeTokens(s: string)
    requires IsUnquotedIncludeLine(s)
    ensures Tokenize(s) == [Token("INCLUDE", Identifier), Token(" ", Space), Token("foo", Identifier)]
  {
    IncludeKeywordStep(s);
    SingleCharacterTokens(s, 7);
    UnquotedPathStep(s);
    var ts := [Token("INCLUDE", Identifier), Token(" ", Space), Token("foo", Identifier)];
    TokensOfSteps(s, [0, 7, 8, 11], ts);
    assert ts + [] == ts;
  }

  /** The unquoted path `foo` is one identifier, and it reaches the last token. */
  lemma UnquotedPathStep(s: string)
    requires IsUnquotedIncludeLine(s)
    ensures Step(s, 8) == Some((Token("foo", Identifier), 11))
  {
    RunEndAt(s, 9, 10, IsIdentifierChar);
    LongIdentifierStep(s, 8, 10);
    assert s[8..11] == "foo";
  }

  /**
   * An INCLUDE whose path is not quoted, alone on its line, is no error: the
   * path is the last token, which never becomes current, so the include has
   * an empty path.
   */
  lemma UnquotedIncludeAlone()
    ensures Assemble(["INCLUDE foo"]) == [IncludeStatement("")]
  {
    var s := JoinLines(["INCLUDE foo"]);
    assert ["INCLUDE foo"][..0] == [];
    assert s == "INCLUDE foo\n";
    assert IsUnquotedIncludeLine(s);
    UnquotedIncludeTokens(s);
    var ts := [Token("INCLUDE", Identifier), Token(" ", Space), Token("foo", Identifier)];
    IncludeKeywordIgnoresCase(ts[0]);
    IncludeAtEnd(ts, 0, 0);
  }
}
