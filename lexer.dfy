/**
 * The character lexer (src/lexer.rs).
 *
 * The Rust `Lexer` is a cursor with the fields `position`, `read_position`
 * and `ch`. Its `read_char` tests `read_position` but reads
 * `input[position]`, so once the lexer is constructed it behaves as a cursor
 * over `position` that reads `input[position]` only while
 * `position + 1 < |input|`: the last character never becomes `ch` and never
 * enters a token. `peek_char` looks at `input[position + 1]`, two places past
 * `ch`, and may look at the last character, which can end a scanning loop.
 *
 * The specification of one call of `retrieve_next_token` is `Step(s, p)`,
 * a function of the input and of the cursor `position` at the call; the
 * class methods are proved equal to it, and the properties of the lexer are
 * lemmas about `Step` and `TokensFrom`.
 */
module Lexing {
  import opened Wrappers

  datatype TokenType =
    | Unknown
    | Space | Tab | LineBreak
    | Slash | DoubleQuote | Comma | Dot | SemiColon
    | Number | Identifier
    | EOF

  datatype Token = Token(literal: string, tokenType: TokenType)

  datatype LexingError = LexingError

  // Character classes. Rust's `is_alphabetic` and `is_alphanumeric` are
  // Unicode classes; this model restricts them to ASCII.

  predicate IsAlphabetic(c: char) { 'a' <= c <= 'z' || 'A' <= c <= 'Z' }

  predicate IsAlphanumeric(c: char) { IsAlphabetic(c) || '0' <= c <= '9' }

  /** The characters that continue an identifier. */
  predicate IsIdentifierChar(c: char) { IsAlphanumeric(c) || c == '_' }

  predicate IsAsciiHexDigit(c: char) { '0' <= c <= '9' || 'a' <= c <= 'f' || 'A' <= c <= 'F' }

  function Min(a: int, b: int): int { if a <= b then a else b }

  /** The kind of the characters that always form a token of their own. */
  function SingleCharKind(c: char): Option<TokenType>
  {
    match c
    case '\n' => Some(LineBreak)
    case ' ' => Some(Space)
    case '\t' => Some(Tab)
    case '"' => Some(DoubleQuote)
    case '.' => Some(Dot)
    case ',' => Some(Comma)
    case '/' => Some(Slash)
    case ';' => Some(SemiColon)
    case _ => None
  }

  /**
   * Where the scanning loop of `read_identifier` / `read_number` stops when it
   * starts with the cursor at `j`: it peeks `s[j + 1]` and, while that is
   * accepted, reads one character and moves on.
   */
  function RunEnd(s: seq<char>, j: nat, accept: char -> bool): (q: nat)
    ensures j <= q
    ensures j < |s| ==> q < |s|
    ensures forall k | j < k <= q :: k < |s| && accept(s[k])
    ensures q + 1 >= |s| || !accept(s[q + 1])
    decreases |s| - j
  {
    if j + 1 >= |s| || !accept(s[j + 1]) then j else RunEnd(s, j + 1, accept)
  }

  /**
   * The literal and the next cursor of an identifier whose first character
   * is `s[p]`. The character right after `s[p]` is never tested; the loop
   * tests from `s[p + 2]` on, and only when it ran at least once is one more
   * character appended.
   */
  function IdentifierFrom(s: seq<char>, p: nat): (r: (string, nat))
    requires p + 1 < |s|
    ensures p < r.1 <= |s|
    ensures r.0 == s[p..Min(r.1, |s| - 1)]
    ensures r.1 == p + 1 <==> p + 2 >= |s| || !IsIdentifierChar(s[p + 2])
    ensures r.1 > p + 1 ==> r.1 >= p + 3 && forall k | p + 2 <= k < r.1 :: IsIdentifierChar(s[k])
    ensures r.1 > p + 1 ==> r.1 >= |s| || !IsIdentifierChar(s[r.1])
  {
    var q := RunEnd(s, p + 1, IsIdentifierChar);
    if q == p + 1 then
      ([s[p]], p + 1)
    else
      (s[p..q] + (if q + 1 < |s| then [s[q]] else []), q + 1)
  }

  /** Where `IdentifierFrom` leaves the cursor once the end of the scanning loop is known. */
  lemma IdentifierFromRun(s: seq<char>, p: nat, q: nat)
    requires p + 1 < |s| && RunEnd(s, p + 1, IsIdentifierChar) == q
    ensures IdentifierFrom(s, p).1 == if q == p + 1 then p + 1 else q + 1
    ensures IdentifierFrom(s, p).0 == if q + 1 < |s| && q > p + 1 then s[p..q + 1] else s[p..q]
  {
  }

  /**
   * The literal and the next cursor of a number introduced by the `$` at
   * `s[p]`. The character right after the `$` is never tested; the loop
   * tests from `s[p + 2]` on. After the loop one more character is appended
   * if there is one: the last one the loop accepted, or the untested one.
   */
  function NumberFrom(s: seq<char>, p: nat): (r: (string, nat))
    requires p + 1 < |s|
    ensures p + 1 < r.1 <= |s|
    ensures r.0 == s[p + 1..Min(r.1, |s| - 1)]
    ensures forall k | p + 2 <= k < r.1 :: IsAsciiHexDigit(s[k])
    ensures r.1 >= |s| || !IsAsciiHexDigit(s[r.1])
  {
    var q := RunEnd(s, p + 1, IsAsciiHexDigit);
    (s[p + 1..q] + (if q + 1 < |s| then [s[q]] else []), q + 1)
  }

  /**
   * One call of `retrieve_next_token` with the cursor at `p`: the token and
   * the cursor after it, or None once the input is exhausted. Every token is
   * a slice of the input that starts at `p` (at `p + 1` for a number, whose
   * `$` is dropped) and never reaches the last character.
   */
  function Step(s: seq<char>, p: nat): (r: Option<(Token, nat)>)
    ensures r.None? <==> p + 1 >= |s|
    ensures r.Some? ==> p < r.value.1 <= |s|
    ensures r.Some? ==>
              var start := if r.value.0.tokenType == Number then p + 1 else p;
              r.value.0.literal == s[start..Min(r.value.1, |s| - 1)]
    ensures r.Some? ==> (r.value.0.tokenType == Number <==> s[p] == '$')
    ensures r.Some? ==> (r.value.0.tokenType == DoubleQuote <==> s[p] == '"')
  {
    if p + 1 >= |s| then None
    else
      var c := s[p];
      match SingleCharKind(c)
      case Some(kind) => Some((Token([c], kind), p + 1))
      case None =>
        if c == '$' then
          var (literal, next) := NumberFrom(s, p);
          Some((Token(literal, Number), next))
        else if IsAlphabetic(c) then
          var (literal, next) := IdentifierFrom(s, p);
          Some((Token(literal, Identifier), next))
        else
          Some((Token([c], Unknown), p + 1))
  }

  /** All the tokens the lexer yields from cursor `p` until the first `Err`. */
  function TokensFrom(s: seq<char>, p: nat): (ts: seq<Token>)
    ensures p + 1 >= |s| ==> ts == []
    ensures p + 1 < |s| ==> 0 < |ts| <= |s| - 1 - p
    decreases |s| - p
  {
    match Step(s, p)
    case None => []
    case Some((t, next)) => [t] + TokensFrom(s, next)
  }

  /** The tokens of a freshly constructed lexer (its cursor starts at 0). */
  function Tokenize(s: seq<char>): (ts: seq<Token>)
    ensures |s| <= 1 ==> ts == []
    ensures |s| > 1 ==> 0 < |ts| <= |s| - 1
  {
    TokensFrom(s, 0)
  }

  /** `lex_content`'s input: every line followed by a line break. */
  function JoinLines(lines: seq<string>): (text: string)
    ensures lines == [] <==> text == []
    ensures lines != [] ==> text[|text| - 1] == '\n'
    ensures |text| >= |lines|
  {
    if lines == [] then "" else JoinLines(lines[..|lines| - 1]) + lines[|lines| - 1] + "\n"
  }

  /** The text a token stands for: its literal, with the `$` of a number put back. */
  function Spelling(t: Token): string
  {
    if t.tokenType == Number then "$" + t.literal else t.literal
  }

  function Spelled(ts: seq<Token>): string
  {
    if ts == [] then "" else Spelling(ts[0]) + Spelled(ts[1..])
  }

  class Lexer {
    const input: seq<char>
    const inputSize: nat
    // current position in input (the cursor)
    var position: nat
    // one past the cursor
    var readPosition: nat
    // the character under examination
    var ch: Option<char>

    ghost predicate Valid()
      reads this
    {
      inputSize == |input| && readPosition == position + 1
    }

    /** `ch` is the character just behind the cursor, or None past the end. */
    ghost predicate ChBehindCursor()
      reads this
    {
      1 <= position && ch == (if position < |input| then Some(input[position - 1]) else None)
    }

    constructor (c: string)
      ensures Valid() && input == c && position == 0
      ensures ch == (if |c| == 0 then None else Some(c[0]))
    {
      input := c;
      inputSize := |c|;
      position := 0;
      readPosition := 0;
      ch := None;
      new;
      ReadChar();
    }

    /** `read_char`: tests `read_position` but reads at `position`. */
    method ReadChar()
      requires position <= readPosition && inputSize == |input|
      modifies this
      ensures ch == (if old(readPosition) >= inputSize then None else Some(input[old(position)]))
      ensures position == old(readPosition) && readPosition == old(readPosition) + 1
    {
      if readPosition >= inputSize {
        ch := None;
      } else {
        ch := Some(input[position]);
      }
      position := readPosition;
      readPosition := readPosition + 1;
    }

    /** `peek_char`: the character at `read_position`, two places past `ch`. */
    function PeekChar(): (r: Option<char>)
      reads this
      requires Valid()
      ensures r.Some? <==> position + 1 < |input|
      ensures r.Some? ==> r.value == input[position + 1]
    {
      if readPosition >= inputSize then None else Some(input[readPosition])
    }

    /**
     * The scanning loop of `read_identifier` and `read_number`: while
     * `peek_char` yields an accepted character, read it and append it.
     */
    method ReadWhile(accept: char -> bool) returns (run: string)
      requires Valid() && 0 < position < |input|
      modifies this
      ensures Valid() && position < |input|
      ensures position == RunEnd(input, old(position), accept)
      ensures run == input[old(position)..position]
      ensures ch == if position == old(position) then old(ch) else Some(input[position - 1])
    {
      ghost var start, first := position, ch;
      run := "";
      while true
        invariant Valid() && start <= position < |input|
        invariant run == input[start..position]
        invariant RunEnd(input, position, accept) == RunEnd(input, start, accept)
        invariant ch == if position == start then first else Some(input[position - 1])
        decreases |input| - position
      {
        var c := PeekChar();
        if c.None? || !accept(c.value) {
          break;
        }
        ReadChar();
        SliceExtend(input, start, position - 1, position);
        run := run + [ch.value];
      }
    }

    /**
     * `read_identifier`: the character that started it, the scanned run, and
     * one more character only when the run is not empty.
     */
    method ReadIdentifier() returns (identifier: string)
      requires Valid() && 0 < position < |input| && ch == Some(input[position - 1])
      modifies this
      ensures Valid() && ChBehindCursor()
      ensures identifier == IdentifierFrom(input, old(position) - 1).0
      ensures position == IdentifierFrom(input, old(position) - 1).1
    {
      ghost var start := position - 1;
      identifier := [ch.value];
      var run := ReadWhile(IsIdentifierChar);
      var changed := run != [];
      ghost var q := position;
      SliceExtend(input, start, start + 1, q);
      identifier := identifier + run;
      IdentifierFromRun(input, start, q);
      if changed {
        ReadChar();
        if ch.Some? {
          SliceExtend(input, start, q, q + 1);
          identifier := identifier + [ch.value];
        }
      }
    }

    /** `read_number`: the scanned run of hex digits, then one more character if there is one. */
    method ReadNumber() returns (number: string)
      requires Valid() && 0 < position < |input|
      modifies this
      ensures Valid() && ChBehindCursor()
      ensures (number, position) == NumberFrom(input, old(position) - 1)
    {
      number := ReadWhile(IsAsciiHexDigit);
      ReadChar();
      if ch.Some? {
        number := number + [ch.value];
      }
    }

    /** `retrieve_next_token`: exactly one `Step` of the cursor. */
    method RetrieveNextToken() returns (r: Result<Token, LexingError>)
      requires Valid()
      modifies this
      ensures Valid() && ChBehindCursor()
      ensures Step(input, old(position)).None? ==> r == Err(LexingError) && position == old(position) + 1
      ensures Step(input, old(position)).Some? ==>
                r == Ok(Step(input, old(position)).value.0) && position == Step(input, old(position)).value.1
    {
      ReadChar();
      if ch.None? {
        return Err(LexingError);
      }
      var c := ch.value;
      match c {
        case '\n' => r := Ok(Token([c], LineBreak));
        case ' ' => r := Ok(Token([c], Space));
        case '\t' => r := Ok(Token([c], Tab));
        case '"' => r := Ok(Token([c], DoubleQuote));
        case '.' => r := Ok(Token([c], Dot));
        case ',' => r := Ok(Token([c], Comma));
        case '/' => r := Ok(Token([c], Slash));
        case ';' => r := Ok(Token([c], SemiColon));
        case '$' =>
          var literal := ReadNumber();
          r := Ok(Token(literal, Number));
        case _ =>
          if IsAlphabetic(c) {
            var identifier := ReadIdentifier();
            r := Ok(Token(identifier, Identifier));
          } else {
            r := Ok(Token([c], Unknown));
          }
      }
    }
  }

  /** The first loop of `lex_content`: each line, then a line break. */
  method ConcatLines(content: seq<string>) returns (c: string)
    ensures c == JoinLines(content)
  {
    c := "";
    for i := 0 to |content|
      invariant c == JoinLines(content[..i])
    {
      assert content[..i + 1][..i] == content[..i];
      c := c + content[i];
      c := c + "\n";
    }
    assert content[..|content|] == content;
  }

  /** `lex_content`: join the lines, then pull tokens until the first `Err`. */
  method LexContent(content: seq<string>) returns (tokens: seq<Token>)
    ensures tokens == Tokenize(JoinLines(content))
  {
    var c := ConcatLines(content);
    var lexer := new Lexer(c);
    tokens := [];
    while true
      invariant lexer.Valid() && lexer.input == c && lexer.position <= |c|
      invariant TokensOnto(c, lexer.position, tokens) == TokensOnto(c, 0, [])
      decreases |c| - lexer.position
    {
      var r := lexer.RetrieveNextToken();
      if r.Err? {
        break;
      }
      tokens := tokens + [r.value];
    }
    TokensOntoGathers(c, 0, []);
    assert [] + Tokenize(c) == Tokenize(c);
  }

  /** The loop of `lex_content` as it runs: the tokens pushed so far, `acc`, in front of those still to come. */
  function TokensOnto(s: seq<char>, p: nat, acc: seq<Token>): seq<Token>
    decreases |s| - p
  {
    match Step(s, p)
    case None => acc
    case Some((t, next)) => TokensOnto(s, next, acc + [t])
  }

  /** Pushing onto `acc` ends with `acc` followed by the tokens from `p`. */
  lemma {:induction false} TokensOntoGathers(s: seq<char>, p: nat, acc: seq<Token>)
    ensures TokensOnto(s, p, acc) == acc + TokensFrom(s, p)
    decreases |s| - p
  {
    match Step(s, p)
    case None =>
      assert acc + [] == acc;
    case Some((t, next)) =>
      TokensOntoGathers(s, next, acc + [t]);
      TokensAfterStep(s, p, t, next);
      AppendShift(acc, t, TokensFrom(s, next));
  }

  lemma AppendShift<T>(xs: seq<T>, x: T, ys: seq<T>)
    ensures (xs + [x]) + ys == xs + ([x] + ys)
  {
  }

  // Properties of the lexer.

  /** Each punctuation and white-space character is a token of its own, of a fixed kind. */
  lemma SingleCharacterTokens(s: seq<char>, p: nat)
    requires p + 1 < |s|
    ensures s[p] == '\n' ==> Step(s, p) == Some((Token("\n", LineBreak), p + 1))
    ensures s[p] == ' ' ==> Step(s, p) == Some((Token(" ", Space), p + 1))
    ensures s[p] == '\t' ==> Step(s, p) == Some((Token("\t", Tab), p + 1))
    ensures s[p] == '"' ==> Step(s, p) == Some((Token("\"", DoubleQuote), p + 1))
    ensures s[p] == '.' ==> Step(s, p) == Some((Token(".", Dot), p + 1))
    ensures s[p] == ',' ==> Step(s, p) == Some((Token(",", Comma), p + 1))
    ensures s[p] == '/' ==> Step(s, p) == Some((Token("/", Slash), p + 1))
    ensures s[p] == ';' ==> Step(s, p) == Some((Token(";", SemiColon), p + 1))
  {
  }

  /** Any other character that neither starts a number nor an identifier is an Unknown token. */
  lemma UnknownTokens(s: seq<char>, p: nat)
    requires p + 1 < |s| && SingleCharKind(s[p]).None? && s[p] != '$' && !IsAlphabetic(s[p])
    ensures Step(s, p) == Some((Token([s[p]], Unknown), p + 1))
  {
  }

  /**
   * An identifier starts with the alphabetic character that triggered it,
   * and continues over identifier characters from `s[p + 2]` on.
   */
  lemma IdentifierTokens(s: seq<char>, p: nat)
    requires p + 1 < |s| && IsAlphabetic(s[p])
    ensures var (t, next) := Step(s, p).value;
            && t.tokenType == Identifier
            && t.literal[0] == s[p]
            && (t.literal == [s[p]] <==> next == p + 1)
            && (next == p + 1 <==> p + 2 >= |s| || !IsIdentifierChar(s[p + 2]))
            && (forall k | p + 2 <= k < next :: IsIdentifierChar(s[k]))
            && (next > p + 1 ==> next >= |s| || !IsIdentifierChar(s[next]))
  {
    var (t, next) := Step(s, p).value;
    if next > p + 1 {
      assert |t.literal| >= 2;
    }
  }

  /**
   * A number's literal starts right after the `$`; its first character is
   * taken whether or not it is a hex digit, the ones after it are hex digits.
   */
  lemma NumberTokens(s: seq<char>, p: nat)
    requires p + 1 < |s| && s[p] == '$'
    ensures var (t, next) := Step(s, p).value;
            && t.tokenType == Number
            && t.literal == s[p + 1..Min(next, |s| - 1)]
            && (p + 2 < |s| ==> |t.literal| > 0 && t.literal[0] == s[p + 1])
            && (forall k | p + 2 <= k < next :: IsAsciiHexDigit(s[k]))
            && (next >= |s| || !IsAsciiHexDigit(s[next]))
  {
  }

  /** An identifier's second character is taken untested: `ab ` is two identifiers. */
  lemma ShortIdentifierExample()
    ensures Step("ab ", 0) == Some((Token("a", Identifier), 1))
    ensures Step("ab ", 1) == Some((Token("b", Identifier), 2))
  {
    var s := "ab ";
    RunEndAt(s, 1, 1, IsIdentifierChar);
    assert Step(s, 0) == Some((Token("a", Identifier), 1));
    RunEndAt(s, 2, 2, IsIdentifierChar);
  }

  /** Once the third character continues it, the identifier runs on: `abc ` is one identifier. */
  lemma LongerIdentifierExample()
    ensures Step("abc ", 0) == Some((Token("abc", Identifier), 3))
  {
    var s := "abc ";
    RunEndAt(s, 1, 2, IsIdentifierChar);
    LongIdentifierStep(s, 0, 2);
    assert s[0..3] == "abc";
  }

  /** Since the second character is not tested, `a.bc` is one identifier. */
  lemma DottedIdentifierExample()
    ensures Step("a.bc x", 0) == Some((Token("a.bc", Identifier), 4))
  {
    var s := "a.bc x";
    RunEndAt(s, 1, 3, IsIdentifierChar);
    LongIdentifierStep(s, 0, 3);
    assert s[0..4] == "a.bc";
  }

  /**
   * The character after the `$` is taken untested, and the one read after the
   * loop is the last one it accepted: `$41 xy` is the number `41`, `$z1 ` the number `z1`.
   */
  lemma NumberExamples()
    ensures Step("$41 xy", 0) == Some((Token("41", Number), 3))
    ensures Step("$z1 ", 0) == Some((Token("z1", Number), 3))
  {
    RunEndAt("$41 xy", 1, 2, IsAsciiHexDigit);
    assert "$41 xy"[1..2] + ["$41 xy"[2]] == "41";
    RunEndAt("$z1 ", 1, 2, IsAsciiHexDigit);
    assert "$z1 "[1..2] + ["$z1 "[2]] == "z1";
  }

  /** Once a call returns `Err`, every later call does too. */
  lemma ExhaustedStaysExhausted(s: seq<char>, p: nat, later: nat)
    requires Step(s, p).None? && p <= later
    ensures Step(s, later).None?
  {
  }

  /** Each token spells the slice of the input it was read from. */
  lemma StepSpelling(s: seq<char>, p: nat)
    requires p + 1 < |s|
    ensures var (t, next) := Step(s, p).value;
            Spelling(t) == s[p..Min(next, |s| - 1)]
  {
    var (t, next) := Step(s, p).value;
    var end := Min(next, |s| - 1);
    if t.tokenType == Number {
      assert s[p..end] == [s[p]] + s[p + 1..end];
    }
  }

  /**
   * The tokens spell out the input from the cursor up to, but excluding, the
   * last character (with the `$` of each number put back).
   */
  lemma {:induction false} TokensSpellInput(s: seq<char>, p: nat)
    requires p < |s|
    ensures Spelled(TokensFrom(s, p)) == s[p..|s| - 1]
    decreases |s| - p
  {
    if p + 1 < |s| {
      var step := Step(s, p).value;
      var next := step.1;
      var end := Min(next, |s| - 1);
      var rest := Spelled(TokensFrom(s, next));
      SpelledStep(s, p, step.0, next);
      if next < |s| {
        TokensSpellInput(s, next);
      } else {
        SpelledExhausted(s, next);
      }
      JoinSlices(s, p, end, |s| - 1, Spelled(TokensFrom(s, p)), rest);
    } else {
      assert s[p..|s| - 1] == [];
    }
  }

  /** Extending a slice by the slice that follows it. */
  lemma SliceExtend<T>(s: seq<T>, i: nat, j: nat, k: nat)
    requires i <= j <= k <= |s|
    ensures s[i..j] + s[j..k] == s[i..k]
    ensures j + 1 == k ==> s[i..j] + [s[j]] == s[i..k]
    ensures i + 1 == j ==> [s[i]] + s[j..k] == s[i..k]
  {
  }

  /** A slice from `i` to `j` followed by the slice from `j` to `k` is the slice from `i` to `k`. */
  lemma JoinSlices<T>(s: seq<T>, i: nat, j: nat, k: nat, x: seq<T>, rest: seq<T>)
    requires i <= j <= k <= |s| && x == s[i..j] + rest && rest == s[j..k]
    ensures x == s[i..k]
  {
    SliceExtend(s, i, j, k);
  }

  /** Past the end nothing is spelled. */
  lemma SpelledExhausted(s: seq<char>, q: nat)
    requires 0 < |s| <= q + 1
    ensures Spelled(TokensFrom(s, q)) == s[|s| - 1..|s| - 1]
  {
  }

  /** One step of the spelling: the slice of the first token, then the rest. */
  lemma SpelledStep(s: seq<char>, p: nat, t: Token, next: nat)
    requires Step(s, p) == Some((t, next))
    ensures Spelled(TokensFrom(s, p)) == s[p..Min(next, |s| - 1)] + Spelled(TokensFrom(s, next))
  {
    StepSpelling(s, p);
    TokensAfterStep(s, p, t, next);
    SpelledPrepend(t, TokensFrom(s, next));
  }

  /** A step that yields a token is followed by the tokens from where it left the cursor. */
  lemma TokensAfterStep(s: seq<char>, p: nat, t: Token, next: nat)
    requires Step(s, p) == Some((t, next))
    ensures TokensFrom(s, p) == [t] + TokensFrom(s, next)
  {
  }

  lemma ConsAppend<T>(xs: seq<T>, ys: seq<T>)
    requires xs != []
    ensures [xs[0]] + (xs[1..] + ys) == xs + ys
  {
    assert xs == [xs[0]] + xs[1..];
  }

  lemma SpelledPrepend(t: Token, ts: seq<Token>)
    ensures Spelled([t] + ts) == Spelling(t) + Spelled(ts)
  {
    assert ([t] + ts)[1..] == ts;
  }

  /**
   * `lex_content` reproduces every line and every line break between them:
   * the only character lost is the line break after the last line.
   */
  lemma LexContentDropsOnlyFinalLineBreak(content: seq<string>)
    requires content != []
    ensures var text := JoinLines(content);
            Spelled(Tokenize(text)) + "\n" == text
  {
    var text := JoinLines(content);
    TokensSpellInput(text, 0);
    assert text == text[0..|text| - 1] + "\n";
  }

  /** `RunEnd` is the first place where the loop stops. */
  lemma {:induction false} RunEndAt(s: seq<char>, j: nat, q: nat, accept: char -> bool)
    requires j <= q
    requires j == q || q < |s|
    requires forall k | j < k <= q :: accept(s[k])
    requires q + 1 >= |s| || !accept(s[q + 1])
    ensures RunEnd(s, j, accept) == q
    decreases q - j
  {
    if j < q {
      assert accept(s[j + 1]);
      RunEndAt(s, j + 1, q, accept);
    }
  }

  /** An identifier whose scanning loop ran, seen from its start. */
  lemma LongIdentifierStep(s: seq<char>, p: nat, q: nat)
    requires p + 1 < q && q + 1 < |s| && IsAlphabetic(s[p])
    requires RunEnd(s, p + 1, IsIdentifierChar) == q
    ensures Step(s, p) == Some((Token(s[p..q + 1], Identifier), q + 1))
  {
    assert s[p..q] + [s[q]] == s[p..q + 1];
  }

  /** A chain of steps yields its tokens, followed by the tokens from where the chain ends. */
  lemma {:induction false} TokensOfSteps(s: seq<char>, ps: seq<nat>, ts: seq<Token>)
    requires |ps| == |ts| + 1
    requires forall i | 0 <= i < |ts| :: Step(s, ps[i]) == Some((ts[i], ps[i + 1]))
    ensures TokensFrom(s, ps[0]) == ts + TokensFrom(s, ps[|ts|])
    decreases |ts|
  {
    if ts == [] {
      assert [] + TokensFrom(s, ps[0]) == TokensFrom(s, ps[0]);
    } else {
      var rest := TokensFrom(s, ps[|ts|]);
      TokensAfterStep(s, ps[0], ts[0], ps[1]);
      TokensOfSteps(s, ps[1..], ts[1..]);
      assert ps[1..][0] == ps[1] && ps[1..][|ts| - 1] == ps[|ts|];
      ConsAppend(ts, rest);
    }
  }
}
