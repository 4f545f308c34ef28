/**
 * The unit test of src/lexer.rs (`lexing_content`), stated on the model: the
 * tokens of its input, computed step by step.
 */
module LexingTest {
  import opened Wrappers
  import opened Lexing

  /** The input of the test: `concat!("INCLUDE \"foo.asm\"\n", "; simple comment")`. */
  const TEST_INPUT := "INCLUDE \"foo.asm\"\n" + "; simple comment"

  /** The tokens the lexer yields for the first line of the test input, its line break included. */
  const FIRST_LINE_TOKENS := [
    Token("INCLUDE", Identifier), Token(" ", Space), Token("\"", DoubleQuote),
    Token("foo", Identifier), Token(".", Dot), Token("asm", Identifier), Token("\"", DoubleQuote),
    Token("\n", LineBreak)]

  /** The tokens of the second line: the final `t` is peeked at but never read. */
  const SECOND_LINE_TOKENS := [
    Token(";", SemiColon), Token(" ", Space), Token("simple", Identifier), Token(" ", Space),
    Token("commen", Identifier)]

  /** The tokens the lexer yields for the test input. */
  const TEST_TOKENS := FIRST_LINE_TOKENS + SECOND_LINE_TOKENS

  /** The test input, character by character. */
  predicate IsTestInput(s: string)
  {
    |s| == 34
    && s[0] == 'I' && s[1] == 'N' && s[2] == 'C' && s[3] == 'L' && s[4] == 'U' && s[5] == 'D'
    && s[6] == 'E' && s[7] == ' ' && s[8] == '"' && s[9] == 'f' && s[10] == 'o' && s[11] == 'o'
    && s[12] == '.' && s[13] == 'a' && s[14] == 's' && s[15] == 'm' && s[16] == '"' && s[17] == '\n'
    && s[18] == ';' && s[19] == ' ' && s[20] == 's' && s[21] == 'i' && s[22] == 'm' && s[23] == 'p'
    && s[24] == 'l' && s[25] == 'e' && s[26] == ' ' && s[27] == 'c' && s[28] == 'o' && s[29] == 'm'
    && s[30] == 'm' && s[31] == 'e' && s[32] == 'n' && s[33] == 't'
  }

  lemma TestInputIdentifierInclude(s: string)
    requires IsTestInput(s)
    ensures Step(s, 0) == Some((Token("INCLUDE", Identifier), 7))
  {
    RunEndAt(s, 1, 6, IsIdentifierChar);
    LongIdentifierStep(s, 0, 6);
    assert s[0..7] == "INCLUDE";
  }

  lemma TestInputIdentifierFoo(s: string)
    requires IsTestInput(s)
    ensures Step(s, 9) == Some((Token("foo", Identifier), 12))
  {
    RunEndAt(s, 10, 11, IsIdentifierChar);
    LongIdentifierStep(s, 9, 11);
    assert s[9..12] == "foo";
  }

  lemma TestInputIdentifierAsm(s: string)
    requires IsTestInput(s)
    ensures Step(s, 13) == Some((Token("asm", Identifier), 16))
  {
    RunEndAt(s, 14, 15, IsIdentifierChar);
    LongIdentifierStep(s, 13, 15);
    assert s[13..16] == "asm";
  }

  lemma TestInputIdentifierSimple(s: string)
    requires IsTestInput(s)
    ensures Step(s, 20) == Some((Token("simple", Identifier), 26))
  {
    RunEndAt(s, 21, 25, IsIdentifierChar);
    LongIdentifierStep(s, 20, 25);
    assert s[20..26] == "simple";
  }

  /** The last identifier runs into the end of the input and loses its last letter. */
  lemma TestInputIdentifierComment(s: string)
    requires IsTestInput(s)
    ensures Step(s, 27) == Some((Token("commen", Identifier), 34))
  {
    RunEndAt(s, 28, 33, IsIdentifierChar);
    assert s[27..33] + [] == "commen";
  }

  lemma TestInputFirstLine(s: string)
    requires IsTestInput(s)
    ensures TokensFrom(s, 0) == FIRST_LINE_TOKENS + TokensFrom(s, 18)
  {
    TestInputIdentifierInclude(s);
    TestInputIdentifierFoo(s);
    TestInputIdentifierAsm(s);
    SingleCharacterTokens(s, 7);
    SingleCharacterTokens(s, 8);
    SingleCharacterTokens(s, 12);
    SingleCharacterTokens(s, 16);
    SingleCharacterTokens(s, 17);
    TokensOfSteps(s, [0, 7, 8, 9, 12, 13, 16, 17, 18], FIRST_LINE_TOKENS);
  }

  lemma TestInputSecondLine(s: string)
    requires IsTestInput(s)
    ensures TokensFrom(s, 18) == SECOND_LINE_TOKENS
  {
    TestInputIdentifierSimple(s);
    TestInputIdentifierComment(s);
    SingleCharacterTokens(s, 18);
    SingleCharacterTokens(s, 19);
    SingleCharacterTokens(s, 26);
    TokensOfSteps(s, [18, 19, 20, 26, 27, 34], SECOND_LINE_TOKENS);
    assert SECOND_LINE_TOKENS + [] == SECOND_LINE_TOKENS;
  }

  lemma TestInputTokens(s: string)
    requires IsTestInput(s)
    ensures Tokenize(s) == TEST_TOKENS
  {
    TestInputFirstLine(s);
    TestInputSecondLine(s);
  }

  /**
   * The test input yields 13 tokens, as the test asserts (lexer.rs:279); the
   * last one is `commen`, since the final character is never read.
   */
  lemma LexingContent()
    ensures Tokenize(TEST_INPUT) == TEST_TOKENS
    ensures |Tokenize(TEST_INPUT)| == 13 && Tokenize(TEST_INPUT)[12].literal == "commen"
  {
    var s := TEST_INPUT;
    assert IsTestInput(s);
    TestInputTokens(s);
  }
}
