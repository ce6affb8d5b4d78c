/**
 * Whole programs, from source text to parse result: the text of
 * tests/parser_test.py and a few more, lexed by `Lexing.Lex` and then parsed
 * by `Parsing.ProgramSpec`.
 *
 * Each text is described character by character (a predicate), then each
 * call of the lexer on it (one small lemma per token); the calls put
 * together give the token stream, and the parser's lemmas about that stream
 * give the program.
 */
module Programs {
  import opened Wrappers
  import opened Tokens
  import opened Ast
  import opened Lexing
  import Parsing

  // ---------------------------------------------------------------------------
  // Streams of a few tokens
  //
  // Calls that return the given tokens, each from the cursor the previous one
  // left, up to only whitespace, put the tokens in front of the final Eof. The
  // streams are built right to left, as `Lex` builds them, and only then
  // listed.

  lemma {:induction false} OneToken(s: string, c0: nat, t0: Token, c1: nat)
    requires c0 <= |s| && Scan(s, c0) == Scanned(t0, c1) && t0.kind != Eof && RunEnd(s, c1, Space) == |s|
    ensures Lex(s, c0) == [t0] + [Token(Eof, "")]
  {
    LexStep(s, c0, t0, c1);
    assert Scan(s, c1).token.kind == Eof;
  }

  lemma {:induction false} TwoTokens(s: string, c0: nat, t0: Token, c1: nat, t1: Token, c2: nat)
    requires c0 <= |s| && Scan(s, c0) == Scanned(t0, c1) && t0.kind != Eof
    requires Scan(s, c1) == Scanned(t1, c2) && t1.kind != Eof && RunEnd(s, c2, Space) == |s|
    ensures Lex(s, c0) == [t0] + ([t1] + [Token(Eof, "")])
  {
    LexStep(s, c0, t0, c1);
    OneToken(s, c1, t1, c2);
  }

  lemma {:induction false} ThreeTokens(s: string, c0: nat, t0: Token, c1: nat, t1: Token, c2: nat, t2: Token, c3: nat)
    requires c0 <= |s| && Scan(s, c0) == Scanned(t0, c1) && t0.kind != Eof
    requires Scan(s, c1) == Scanned(t1, c2) && t1.kind != Eof
    requires Scan(s, c2) == Scanned(t2, c3) && t2.kind != Eof && RunEnd(s, c3, Space) == |s|
    ensures Lex(s, c0) == [t0] + ([t1] + ([t2] + [Token(Eof, "")]))
  {
    LexStep(s, c0, t0, c1);
    TwoTokens(s, c1, t1, c2, t2, c3);
  }

  lemma {:induction false} FourTokens(s: string, c0: nat, t0: Token, c1: nat, t1: Token, c2: nat, t2: Token, c3: nat, t3: Token, c4: nat)
    requires c0 <= |s| && Scan(s, c0) == Scanned(t0, c1) && t0.kind != Eof
    requires Scan(s, c1) == Scanned(t1, c2) && t1.kind != Eof
    requires Scan(s, c2) == Scanned(t2, c3) && t2.kind != Eof
    requires Scan(s, c3) == Scanned(t3, c4) && t3.kind != Eof && RunEnd(s, c4, Space) == |s|
    ensures Lex(s, c0) == [t0] + ([t1] + ([t2] + ([t3] + [Token(Eof, "")])))
  {
    LexStep(s, c0, t0, c1);
    ThreeTokens(s, c1, t1, c2, t2, c3, t3, c4);
  }

  lemma {:induction false} FiveTokens(s: string, c0: nat, t0: Token, c1: nat, t1: Token, c2: nat, t2: Token, c3: nat, t3: Token, c4: nat,
                                      t4: Token, c5: nat)
    requires c0 <= |s| && Scan(s, c0) == Scanned(t0, c1) && t0.kind != Eof
    requires Scan(s, c1) == Scanned(t1, c2) && t1.kind != Eof
    requires Scan(s, c2) == Scanned(t2, c3) && t2.kind != Eof
    requires Scan(s, c3) == Scanned(t3, c4) && t3.kind != Eof
    requires Scan(s, c4) == Scanned(t4, c5) && t4.kind != Eof && RunEnd(s, c5, Space) == |s|
    ensures Lex(s, c0) == [t0] + ([t1] + ([t2] + ([t3] + ([t4] + [Token(Eof, "")]))))
  {
    LexStep(s, c0, t0, c1);
    FourTokens(s, c1, t1, c2, t2, c3, t3, c4, t4, c5);
  }

  lemma Listed4<T>(a: T, b: T, c: T, d: T)
    ensures [a] + ([b] + ([c] + [d])) == [a, b, c, d]
  {
  }

  lemma Listed5<T>(a: T, b: T, c: T, d: T, e: T)
    ensures [a] + ([b] + ([c] + ([d] + [e]))) == [a, b, c, d, e]
  {
  }

  lemma Listed6<T>(a: T, b: T, c: T, d: T, e: T, f: T)
    ensures [a] + ([b] + ([c] + ([d] + ([e] + [f])))) == [a, b, c, d, e, f]
  {
  }

  // ---------------------------------------------------------------------------
  // Calls of the lexer shared by the texts

  /** The text starts with the reserved word `variable` and a space. */
  predicate StartsWithVariable(s: string)
  {
    |s| > 8 && s[0] == 'v' && s[1] == 'a' && s[2] == 'r' && s[3] == 'i' && s[4] == 'a' && s[5] == 'b' && s[6] == 'l' && s[7] == 'e'
    && s[8] == ' '
  }

  lemma {:induction false} ScanVariable(s: string)
    requires StartsWithVariable(s)
    ensures Scan(s, 0) == Scanned(Token(Let, "variable"), 8)
  {
    assert RunEnd(s, 8, Letter) == 8 && RunEnd(s, 7, Letter) == 8 && RunEnd(s, 6, Letter) == 8 && RunEnd(s, 5, Letter) == 8;
    assert RunEnd(s, 4, Letter) == 8 && RunEnd(s, 3, Letter) == 8 && RunEnd(s, 2, Letter) == 8 && RunEnd(s, 1, Letter) == 8;
    assert RunEnd(s, 0, Space) == 0;
    RunScan(s, 0);
    assert s[0..8] == "variable";
    LiteralThenLookup(Let);
  }

  /** The text starts with `variable x = 5`. */
  predicate StartsWithLetX(s: string)
  {
    StartsWithVariable(s) && |s| >= 14 && s[9] == 'x' && s[10] == ' ' && s[11] == '=' && s[12] == ' ' && s[13] == '5'
  }

  lemma {:induction false} ScanX(s: string)
    requires StartsWithLetX(s)
    ensures Scan(s, 8) == Scanned(Token(Ident, "x"), 10)
  {
    assert RunEnd(s, 9, Space) == 9 && RunEnd(s, 8, Space) == 9 && RunEnd(s, 10, Letter) == 10;
    RunScan(s, 8);
    assert s[9..10] == "x" && LookupTokenType("x") == Ident;
  }

  lemma {:induction false} ScanAssign(s: string)
    requires StartsWithLetX(s)
    ensures Scan(s, 10) == Scanned(Token(Assign, "="), 12)
  {
    assert RunEnd(s, 11, Space) == 11 && RunEnd(s, 10, Space) == 11;
    OneCharToken(s, 10);
  }

  // ---------------------------------------------------------------------------
  // `variable x = 5`, the program of tests/parser_test.py

  predicate IsLetWithoutSemicolon(s: string)
  {
    StartsWithLetX(s) && |s| == 14
  }

  /** The 5 is the last character, so the end-of-input truncation leaves the integer token empty. */
  lemma {:induction false} ScanTruncatedFive(s: string)
    requires IsLetWithoutSemicolon(s)
    ensures Scan(s, 12) == Scanned(Token(Int, ""), 14)
  {
    assert RunEnd(s, 13, Space) == 13 && RunEnd(s, 12, Space) == 13 && RunEnd(s, 14, Digit) == 14;
    RunScan(s, 12);
  }

  /** `variable x = 5` lexes to `variable`, `x`, `=`, an empty integer token and Eof. */
  lemma {:induction false} LexLetWithoutSemicolon(s: string)
    requires s == "variable x = 5"
    ensures Lex(s, 0) == [Token(Let, "variable"), Token(Ident, "x"), Token(Assign, "="), Token(Int, ""), Token(Eof, "")]
  {
    assert IsLetWithoutSemicolon(s);
    ScanVariable(s);
    ScanX(s);
    ScanAssign(s);
    ScanTruncatedFive(s);
    assert RunEnd(s, 14, Space) == 14;
    FourTokens(s, 0, Token(Let, "variable"), 8, Token(Ident, "x"), 10, Token(Assign, "="), 12, Token(Int, ""), 14);
    Listed5(Token(Let, "variable"), Token(Ident, "x"), Token(Assign, "="), Token(Int, ""), Token(Eof, ""));
  }

  /**
   * `parse_program` on `variable x = 5` never returns: the let statement looks
   * for a `;` that never comes. Were the skip to stop at Eof as well, the
   * program would be the one let statement, with no value and no diagnostic.
   */
  lemma {:induction false} ParseLetWithoutSemicolon(s: string)
    requires s == "variable x = 5"
    ensures Parsing.IsTokenStream(Lex(s, 0))
    ensures Parsing.ProgramSpec(Lex(s, 0), 0, Parsing.UntilSemicolon) == Parsing.Diverges
    ensures Parsing.ProgramSpec(Lex(s, 0), 0, Parsing.UntilSemicolonOrEof) ==
              Parsing.Halts([LetStatement(Token(Let, "variable"), Identifier(Token(Ident, "x"), "x"), None)], [], 5)
  {
    LexLetWithoutSemicolon(s);
    Parsing.LexIsTokenStream(s, 0);
    Parsing.ParserTestHangs(Lex(s, 0));
  }

  // ---------------------------------------------------------------------------
  // `variable x = 5;`

  predicate IsLetStatement(s: string)
  {
    StartsWithLetX(s) && |s| == 15 && s[14] == ';'
  }

  lemma {:induction false} ScanFive(s: string)
    requires IsLetStatement(s)
    ensures Scan(s, 12) == Scanned(Token(Int, "5"), 14)
  {
    assert RunEnd(s, 13, Space) == 13 && RunEnd(s, 12, Space) == 13 && RunEnd(s, 14, Digit) == 14 && RunEnd(s, 13, Digit) == 14;
    RunScan(s, 12);
    assert s[13..14] == "5";
  }

  lemma {:induction false} ScanFinalSemicolon(s: string)
    requires IsLetStatement(s)
    ensures Scan(s, 14) == Scanned(Token(Semicolon, ";"), 15)
  {
    assert RunEnd(s, 14, Space) == 14;
    OneCharToken(s, 14);
  }

  /** `variable x = 5;` lexes to `variable`, `x`, `=`, `5`, `;` and Eof. */
  lemma {:induction false} LexLetStatement(s: string)
    requires s == "variable x = 5;"
    ensures Lex(s, 0) == [Token(Let, "variable"), Token(Ident, "x"), Token(Assign, "="), Token(Int, "5"), Token(Semicolon, ";"), Token(Eof, "")]
  {
    assert IsLetStatement(s);
    ScanVariable(s);
    ScanX(s);
    ScanAssign(s);
    ScanFive(s);
    ScanFinalSemicolon(s);
    assert RunEnd(s, 15, Space) == 15;
    FiveTokens(s, 0, Token(Let, "variable"), 8, Token(Ident, "x"), 10, Token(Assign, "="), 12, Token(Int, "5"), 14, Token(Semicolon, ";"), 15);
    Listed6(Token(Let, "variable"), Token(Ident, "x"), Token(Assign, "="), Token(Int, "5"), Token(Semicolon, ";"), Token(Eof, ""));
  }

  /** `variable x = 5;` is one let statement, without its value, and no diagnostic. */
  lemma {:induction false} ParseLetStatement(s: string)
    requires s == "variable x = 5;"
    ensures Parsing.IsTokenStream(Lex(s, 0))
    ensures Parsing.ProgramSpec(Lex(s, 0), 0, Parsing.UntilSemicolon) ==
              Parsing.Halts([LetStatement(Token(Let, "variable"), Identifier(Token(Ident, "x"), "x"), None)], [], 5)
  {
    LexLetStatement(s);
    Parsing.LexIsTokenStream(s, 0);
    Parsing.LetStatementExample(Lex(s, 0));
  }

  // ---------------------------------------------------------------------------
  // `variable 5;`

  predicate IsMissingName(s: string)
  {
    StartsWithVariable(s) && |s| == 11 && s[9] == '5' && s[10] == ';'
  }

  lemma {:induction false} ScanFiveAfterVariable(s: string)
    requires IsMissingName(s)
    ensures Scan(s, 8) == Scanned(Token(Int, "5"), 10)
  {
    assert RunEnd(s, 9, Space) == 9 && RunEnd(s, 8, Space) == 9 && RunEnd(s, 10, Digit) == 10 && RunEnd(s, 9, Digit) == 10;
    RunScan(s, 8);
    assert s[9..10] == "5";
  }

  lemma {:induction false} ScanSemicolonAfterFive(s: string)
    requires IsMissingName(s)
    ensures Scan(s, 10) == Scanned(Token(Semicolon, ";"), 11)
  {
    assert RunEnd(s, 10, Space) == 10;
    OneCharToken(s, 10);
  }

  /** `variable 5;` lexes to `variable`, `5`, `;` and Eof. */
  lemma {:induction false} LexMissingName(s: string)
    requires s == "variable 5;"
    ensures Lex(s, 0) == [Token(Let, "variable"), Token(Int, "5"), Token(Semicolon, ";"), Token(Eof, "")]
  {
    assert IsMissingName(s);
    ScanVariable(s);
    ScanFiveAfterVariable(s);
    ScanSemicolonAfterFive(s);
    assert RunEnd(s, 11, Space) == 11;
    ThreeTokens(s, 0, Token(Let, "variable"), 8, Token(Int, "5"), 10, Token(Semicolon, ";"), 11);
    Listed4(Token(Let, "variable"), Token(Int, "5"), Token(Semicolon, ";"), Token(Eof, ""));
  }

  /** `variable 5;`: the missing name is reported and the 5 becomes an expression statement. */
  lemma {:induction false} ParseMissingName(s: string)
    requires s == "variable 5;"
    ensures Parsing.IsTokenStream(Lex(s, 0))
    ensures Parsing.ProgramSpec(Lex(s, 0), 0, Parsing.UntilSemicolon) ==
              Parsing.Halts([ExpressionStatement(Token(Int, "5"), Some(IntegerLiteral(Token(Int, "5"), 5)))],
                            [Parsing.WrongToken(Ident, Int)], 3)
  {
    LexMissingName(s);
    Parsing.LexIsTokenStream(s, 0);
    Parsing.MissingName(Lex(s, 0));
  }

  // ---------------------------------------------------------------------------
  // `regresa 5; foo `

  /** The text `regresa 5; foo `, whose trailing space keeps `foo` whole. */
  predicate IsReturnThenName(s: string)
  {
    |s| == 15 && s[0] == 'r' && s[1] == 'e' && s[2] == 'g' && s[3] == 'r' && s[4] == 'e' && s[5] == 's' && s[6] == 'a'
    && s[7] == ' ' && s[8] == '5' && s[9] == ';' && s[10] == ' ' && s[11] == 'f' && s[12] == 'o' && s[13] == 'o' && s[14] == ' '
  }

  lemma {:induction false} ScanRegresa(s: string)
    requires IsReturnThenName(s)
    ensures Scan(s, 0) == Scanned(Token(Return, "regresa"), 7)
  {
    assert RunEnd(s, 7, Letter) == 7 && RunEnd(s, 6, Letter) == 7 && RunEnd(s, 5, Letter) == 7 && RunEnd(s, 4, Letter) == 7;
    assert RunEnd(s, 3, Letter) == 7 && RunEnd(s, 2, Letter) == 7 && RunEnd(s, 1, Letter) == 7;
    assert RunEnd(s, 0, Space) == 0;
    RunScan(s, 0);
    assert s[0..7] == "regresa";
    LiteralThenLookup(Return);
  }

  lemma {:induction false} ScanReturnedFive(s: string)
    requires IsReturnThenName(s)
    ensures Scan(s, 7) == Scanned(Token(Int, "5"), 9)
  {
    assert RunEnd(s, 8, Space) == 8 && RunEnd(s, 7, Space) == 8 && RunEnd(s, 9, Digit) == 9 && RunEnd(s, 8, Digit) == 9;
    RunScan(s, 7);
    assert s[8..9] == "5";
  }

  lemma {:induction false} ScanReturnSemicolon(s: string)
    requires IsReturnThenName(s)
    ensures Scan(s, 9) == Scanned(Token(Semicolon, ";"), 10)
  {
    assert RunEnd(s, 9, Space) == 9;
    OneCharToken(s, 9);
  }

  lemma {:induction false} ScanFoo(s: string)
    requires IsReturnThenName(s)
    ensures Scan(s, 10) == Scanned(Token(Ident, "foo"), 14)
  {
    assert RunEnd(s, 11, Space) == 11 && RunEnd(s, 10, Space) == 11;
    assert RunEnd(s, 14, Letter) == 14 && RunEnd(s, 13, Letter) == 14 && RunEnd(s, 12, Letter) == 14 && RunEnd(s, 11, Letter) == 14;
    RunScan(s, 10);
    assert s[11..14] == "foo" && LookupTokenType("foo") == Ident;
  }

  /** `regresa 5; foo ` lexes to `regresa`, `5`, `;`, `foo` and Eof. */
  lemma {:induction false} LexReturnThenName(s: string)
    requires s == "regresa 5; foo "
    ensures Lex(s, 0) == [Token(Return, "regresa"), Token(Int, "5"), Token(Semicolon, ";"), Token(Ident, "foo"), Token(Eof, "")]
  {
    assert IsReturnThenName(s);
    ScanRegresa(s);
    ScanReturnedFive(s);
    ScanReturnSemicolon(s);
    ScanFoo(s);
    assert RunEnd(s, 15, Space) == 15 && RunEnd(s, 14, Space) == 15;
    FourTokens(s, 0, Token(Return, "regresa"), 7, Token(Int, "5"), 9, Token(Semicolon, ";"), 10, Token(Ident, "foo"), 14);
    Listed5(Token(Return, "regresa"), Token(Int, "5"), Token(Semicolon, ";"), Token(Ident, "foo"), Token(Eof, ""));
  }

  /** `regresa 5; foo ` is a return statement without its value, then an expression statement without `;`. */
  lemma {:induction false} ParseReturnThenName(s: string)
    requires s == "regresa 5; foo "
    ensures Parsing.IsTokenStream(Lex(s, 0))
    ensures Parsing.ProgramSpec(Lex(s, 0), 0, Parsing.UntilSemicolon) ==
              Parsing.Halts([ReturnStatement(Token(Return, "regresa"), None),
                             ExpressionStatement(Token(Ident, "foo"), Some(IdentifierExpression(Identifier(Token(Ident, "foo"), "foo"))))], [], 4)
  {
    LexReturnThenName(s);
    Parsing.LexIsTokenStream(s, 0);
    Parsing.ReturnThenExpression(Lex(s, 0));
  }
}
