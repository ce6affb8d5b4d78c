/**
 * The parser (lp/parser.py): statements are read from the token stream with
 * two tokens of lookahead, diagnostics are appended to a list of messages.
 *
 * The pure part describes, over the finite token stream the lexer produces
 * (`Lexing.Lex`), what parsing one statement and a whole program yields. The
 * class `Parser` keeps the source's fields and is proved to follow it.
 */
module Parsing {
  import opened Wrappers
  import opened Tokens
  import opened Ast
  import Numerals
  import Lexing

  // ---------------------------------------------------------------------------
  // Precedence

  /** Binding powers, weakest first; expression parsing accepts one but does not use it yet. */
  datatype Precedence = Lowest | Equals | LessGreater | Sum | Product | Prefix | Call

  /** The integer value of each precedence, 1 to 7. */
  function Rank(p: Precedence): nat
  {
    match p
    case Lowest => 1
    case Equals => 2
    case LessGreater => 3
    case Sum => 4
    case Product => 5
    case Prefix => 6
    case Call => 7
  }

  /** The ranks run 1 to 7 in declaration order, so comparing ranks orders the precedences. */
  lemma RankOrder(p: Precedence, q: Precedence)
    ensures 1 <= Rank(p) <= 7
    ensures Rank(p) == Rank(q) <==> p == q
    ensures Rank(Lowest) < Rank(Equals) < Rank(LessGreater) < Rank(Sum) < Rank(Product) < Rank(Prefix) < Rank(Call)
  {
  }

  // ---------------------------------------------------------------------------
  // The token stream

  /**
   * A token stream as the lexer hands it out: it ends in Eof, and Eof occurs
   * nowhere else (after it the lexer returns Eof again forever).
   */
  predicate IsTokenStream(ts: seq<Token>)
  {
    && |ts| >= 1
    && ts[|ts| - 1].kind == Eof
    && forall j :: 0 <= j < |ts| - 1 ==> ts[j].kind != Eof
  }

  /** The token at position `n`; past the end, the final Eof again. */
  function At(ts: seq<Token>, n: nat): Token
    requires |ts| >= 1
  {
    if n < |ts| then ts[n] else ts[|ts| - 1]
  }

  /** The lexer's tokens form a token stream. */
  lemma LexIsTokenStream(s: string, c: nat)
    requires c <= |s|
    ensures IsTokenStream(Lexing.Lex(s, c))
  {
    Lexing.EofOnlyAtEnd(s, c);
  }

  /**
   * `ts` is a token stream read from `s`, and entry `k` of `cs` is where the
   * call for token `k` starts; the last entry is the end of the input.
   */
  predicate IsScanOf(s: string, ts: seq<Token>, cs: seq<nat>)
  {
    && IsTokenStream(ts) && ts[|ts| - 1] == Token(Eof, "")
    && |cs| == |ts| + 1 && cs[|ts|] == |s|
    && (forall k :: 0 <= k < |cs| ==> cs[k] <= |s|)
    && (forall k {:trigger Lexing.Scan(s, cs[k])} :: 0 <= k < |ts| ==> Lexing.Scan(s, cs[k]) == Lexing.Scanned(ts[k], cs[k + 1]))
  }

  /** Lexing from `c` gives such a stream, with the cursors of the lexer. */
  lemma LexerStream(s: string, c: nat)
    requires c <= |s|
    ensures IsScanOf(s, Lexing.Lex(s, c), Lexing.Cursors(s, c))
  {
    var ts, cs := Lexing.Lex(s, c), Lexing.Cursors(s, c);
    LexIsTokenStream(s, c);
    Lexing.CursorsInRange(s, c);
    Lexing.LexCursor(s, c, 0);
    forall k | 0 <= k < |ts|
      ensures Lexing.Scan(s, cs[k]) == Lexing.Scanned(ts[k], cs[k + 1])
    {
      Lexing.LexCursor(s, c, k);
    }
  }

  // ---------------------------------------------------------------------------
  // Diagnostics

  /** What went wrong: a peek token of the wrong kind, or an integer literal that does not parse. */
  datatype Diagnostic =
    | WrongToken(expected: TokenType, got: TokenType)
    | NotAnInteger(literal: string)

  const WrongTokenPrefix: string := "Se esperaba que el siguiente token fuera "
  const WrongTokenMiddle: string := ", pero se obtuvo "
  const NotAnIntegerPrefix: string := "No se ha podido parsear "
  const NotAnIntegerSuffix: string := " como entero."

  /** The message the parser appends to its error list. */
  function Message(d: Diagnostic): string
  {
    match d
    case WrongToken(expected, got) => WrongTokenPrefix + KindRepr(expected) + WrongTokenMiddle + KindRepr(got)
    case NotAnInteger(literal) => NotAnIntegerPrefix + literal + NotAnIntegerSuffix
  }

  /** The message for an integer where a name was expected, with the comma after the expected kind. */
  lemma WrongTokenMessageExample()
    ensures Message(WrongToken(Ident, Int)) == WrongTokenPrefix + "TokenType.IDENT" + WrongTokenMiddle + "TokenType.INT"
    ensures WrongTokenMiddle[0] == ','
  {
    assert KindRepr(Ident) == "TokenType." + "IDENT" == "TokenType.IDENT";
    assert KindRepr(Int) == "TokenType." + "INT" == "TokenType.INT";
  }

  /** The messages of a list of diagnostics, in order. */
  function Messages(ds: seq<Diagnostic>): (ms: seq<string>)
    ensures |ms| == |ds|
  {
    if ds == [] then [] else [Message(ds[0])] + Messages(ds[1..])
  }

  lemma {:induction false} MessagesAppend(a: seq<Diagnostic>, b: seq<Diagnostic>)
    ensures Messages(a + b) == Messages(a) + Messages(b)
    decreases |a|
  {
    if a != [] {
      assert (a + b)[0] == a[0] && (a + b)[1..] == a[1..] + b;
      MessagesAppend(a[1..], b);
    } else {
      assert a + b == b;
    }
  }

  /** Reporting `a` and then `b` leaves the same error list as reporting `a + b` at once. */
  lemma ReportInTurn(errors: seq<string>, a: seq<Diagnostic>, b: seq<Diagnostic>)
    ensures (errors + Messages(a)) + Messages(b) == errors + Messages(a + b)
  {
    MessagesAppend(a, b);
  }

  // ---------------------------------------------------------------------------
  // Expressions

  /** The prefix parse functions the parser registers. */
  datatype PrefixRule = IdentifierRule | IntegerRule

  /** The prefix table: identifiers and integers. The infix table is empty and has no counterpart here. */
  const PrefixRules: map<TokenType, PrefixRule> := map[Ident := IdentifierRule, Int := IntegerRule]

  /** An expression parse: the expression, if any, and the diagnostics it adds. */
  datatype Parsed = Parsed(expression: Option<Expression>, diagnostics: seq<Diagnostic>)

  /** Parsing the current token as an integer: its decimal value, or a diagnostic naming the literal. */
  function IntegerSpec(t: Token): Parsed
  {
    match Numerals.ParseInt(t.literal)
    case Some(v) => Parsed(Some(IntegerLiteral(t, v)), [])
    case None => Parsed(None, [NotAnInteger(t.literal)])
  }

  /**
   * Parsing an expression whose first token is `t`: an identifier, an
   * integer, or nothing for the kinds without a prefix rule.
   */
  function ExpressionSpec(t: Token): Parsed
  {
    if t.kind == Ident then Parsed(Some(IdentifierExpression(Identifier(t, t.literal))), [])
    else if t.kind == Int then IntegerSpec(t)
    else Parsed(None, [])
  }

  /**
   * Only Ident and Int start an expression; any other token gives no
   * expression and no diagnostic. An identifier is always parsed, and no
   * expression comes with a diagnostic.
   */
  lemma ExpressionKinds(t: Token)
    ensures ExpressionSpec(t).expression.Some? ==> t.kind == Ident || t.kind == Int
    ensures t.kind != Ident && t.kind != Int ==> ExpressionSpec(t) == Parsed(None, [])
    ensures t.kind == Ident ==> ExpressionSpec(t) == Parsed(Some(IdentifierExpression(Identifier(t, t.literal))), [])
    ensures ExpressionSpec(t).expression.Some? ==> ExpressionSpec(t).diagnostics == []
    ensures |ExpressionSpec(t).diagnostics| <= 1
  {
  }

  /**
   * An Int token parses exactly when its literal is a non-empty digit string,
   * to the literal's decimal value; otherwise one diagnostic names the literal.
   */
  lemma IntegerExpression(t: Token)
    requires t.kind == Int
    ensures ExpressionSpec(t).expression.Some? <==> t.literal != [] && Numerals.AllDigits(t.literal)
    ensures ExpressionSpec(t).expression.Some? ==>
              ExpressionSpec(t) == Parsed(Some(IntegerLiteral(t, Numerals.DecimalValue(t.literal))), [])
    ensures ExpressionSpec(t).expression.None? ==> ExpressionSpec(t).diagnostics == [NotAnInteger(t.literal)]
  {
  }

  /** A number written in decimal parses back to itself. */
  lemma IntegerRoundTrip(n: nat)
    ensures var t := Token(Int, Numerals.NatToString(n));
            ExpressionSpec(t) == Parsed(Some(IntegerLiteral(t, n)), [])
  {
    Numerals.ParseIntNatToString(n);
  }

  /** The empty Int token a lone trailing digit lexes to does not parse, and the message shows an empty literal. */
  lemma EmptyIntegerLiteral()
    ensures ExpressionSpec(Token(Int, "")) == Parsed(None, [NotAnInteger("")])
    ensures Message(NotAnInteger("")) == "No se ha podido parsear  como entero."
  {
  }

  // ---------------------------------------------------------------------------
  // Statements

  /**
   * Where the loop `while current is not ';': advance` stops when the current
   * token is at `i`: the first `;` from `i` on. None when there is none: the
   * loop then never ends, since past the end the lexer repeats Eof.
   */
  function NextSemicolon(ts: seq<Token>, i: nat): (r: Option<nat>)
    requires IsTokenStream(ts)
    ensures r.Some? ==> i <= r.value < |ts| - 1 && At(ts, r.value).kind == Semicolon
    decreases |ts| - i
  {
    if At(ts, i).kind == Semicolon then Some(i)
    else if i >= |ts| - 1 then None
    else NextSemicolon(ts, i + 1)
  }

  /** Where the same loop stops when it also ends at Eof: the first `;` or Eof from `i` on. */
  function NextSemicolonOrEof(ts: seq<Token>, i: nat): (r: nat)
    requires IsTokenStream(ts)
    ensures i <= r && (At(ts, r).kind == Semicolon || At(ts, r).kind == Eof)
    decreases |ts| - i
  {
    if At(ts, i).kind == Semicolon || At(ts, i).kind == Eof then i
    else NextSemicolonOrEof(ts, i + 1)
  }

  /** The `;` found is the first one from `i` on, and None means there is no `;` from `i` on at all. */
  lemma {:induction false} NextSemicolonIsFirst(ts: seq<Token>, i: nat)
    requires IsTokenStream(ts)
    ensures NextSemicolon(ts, i).Some? ==> forall j :: i <= j < NextSemicolon(ts, i).value ==> At(ts, j).kind != Semicolon
    ensures NextSemicolon(ts, i).None? ==> forall j :: i <= j ==> At(ts, j).kind != Semicolon
    decreases |ts| - i
  {
    if At(ts, i).kind != Semicolon && i < |ts| - 1 {
      NextSemicolonIsFirst(ts, i + 1);
    }
  }

  /** Nothing between `i` and the stop is a `;` or Eof. */
  lemma {:induction false} NextSemicolonOrEofIsFirst(ts: seq<Token>, i: nat)
    requires IsTokenStream(ts)
    ensures forall j :: i <= j < NextSemicolonOrEof(ts, i) ==> At(ts, j).kind != Semicolon && At(ts, j).kind != Eof
    decreases |ts| - i
  {
    if At(ts, i).kind != Semicolon && At(ts, i).kind != Eof {
      NextSemicolonOrEofIsFirst(ts, i + 1);
    }
  }

  /**
   * Stopping at Eof as well changes nothing where a `;` follows, and
   * otherwise stops at the end of the stream instead of looping.
   */
  lemma {:induction false} SkipAgrees(ts: seq<Token>, i: nat)
    requires IsTokenStream(ts)
    ensures NextSemicolon(ts, i).Some? ==> NextSemicolonOrEof(ts, i) == NextSemicolon(ts, i).value
    ensures NextSemicolon(ts, i).None? ==> At(ts, NextSemicolonOrEof(ts, i)).kind == Eof
    decreases |ts| - i
  {
    if At(ts, i).kind != Semicolon && At(ts, i).kind != Eof {
      SkipAgrees(ts, i + 1);
    }
  }

  /** How the skip loops of `variable` and `regresa` end: as written, at `;` only; corrected, at `;` or Eof. */
  datatype Skip = UntilSemicolon | UntilSemicolonOrEof

  /** Where a skip loop started at `i` stops; None when it never does. */
  function SkipFrom(ts: seq<Token>, i: nat, skip: Skip): (r: Option<nat>)
    requires IsTokenStream(ts)
    ensures r.Some? ==> i <= r.value
  {
    match skip
    case UntilSemicolon => NextSemicolon(ts, i)
    case UntilSemicolonOrEof => Some(NextSemicolonOrEof(ts, i))
  }

  /** One statement parse: the node, if any, the position it leaves current on, the new diagnostics; or a loop that never ends. */
  datatype Step = Step(statement: Option<Statement>, last: nat, diagnostics: seq<Diagnostic>) | Hang

  /** A `variable` statement at `n`: an identifier, `=`, then everything up to `;` is skipped. */
  function LetSpec(ts: seq<Token>, n: nat, skip: Skip): Step
    requires IsTokenStream(ts)
  {
    var name := At(ts, n + 1);
    if name.kind != Ident then Step(None, n, [WrongToken(Ident, name.kind)])
    else if At(ts, n + 2).kind != Assign then Step(None, n + 1, [WrongToken(Assign, At(ts, n + 2).kind)])
    else match SkipFrom(ts, n + 2, skip)
      case None => Hang
      case Some(m) => Step(Some(LetStatement(At(ts, n), Identifier(name, name.literal), None)), m, [])
  }

  /** A `regresa` statement at `n`: everything after it up to `;` is skipped. */
  function ReturnSpec(ts: seq<Token>, n: nat, skip: Skip): Step
    requires IsTokenStream(ts)
  {
    match SkipFrom(ts, n + 1, skip)
    case None => Hang
    case Some(m) => Step(Some(ReturnStatement(At(ts, n), None)), m, [])
  }

  /** An expression statement at `n`: one expression, then an optional `;`. */
  function ExpressionStatementSpec(ts: seq<Token>, n: nat): Step
    requires IsTokenStream(ts)
  {
    var parsed := ExpressionSpec(At(ts, n));
    var last := if At(ts, n + 1).kind == Semicolon then n + 1 else n;
    Step(Some(ExpressionStatement(At(ts, n), parsed.expression)), last, parsed.diagnostics)
  }

  /** The statement starting at `n`, chosen by the kind of its first token. */
  function StatementSpec(ts: seq<Token>, n: nat, skip: Skip): (r: Step)
    requires IsTokenStream(ts)
    ensures r.Step? ==> n <= r.last
    ensures r.Step? && skip == UntilSemicolon && At(ts, n).kind != Eof ==> r.last < |ts| - 1
  {
    var kind := At(ts, n).kind;
    if kind == Let then LetSpec(ts, n, skip)
    else if kind == Return then ReturnSpec(ts, n, skip)
    else ExpressionStatementSpec(ts, n)
  }

  /**
   * A `variable` statement succeeds exactly when an identifier and `=` follow
   * and some `;` comes later; it then ends on the first such `;` with a node
   * naming the identifier and no value. It fails, without moving past the
   * offending token, with exactly one diagnostic naming the expected and the
   * actual kind; such a failure never hangs. It hangs exactly when the name
   * and `=` are there and no `;` ever follows.
   */
  lemma LetOutcome(ts: seq<Token>, n: nat)
    requires IsTokenStream(ts)
    ensures var r := LetSpec(ts, n, UntilSemicolon);
            (r.Step? && r.statement.Some?) <==>
              At(ts, n + 1).kind == Ident && At(ts, n + 2).kind == Assign && NextSemicolon(ts, n + 2).Some?
    ensures var r := LetSpec(ts, n, UntilSemicolon);
            r.Step? && r.statement.Some? ==>
              && r.diagnostics == []
              && At(ts, r.last).kind == Semicolon
              && n + 2 <= r.last
              && (forall j :: n + 2 <= j < r.last ==> At(ts, j).kind != Semicolon)
              && r.statement.value == LetStatement(At(ts, n), Identifier(At(ts, n + 1), At(ts, n + 1).literal), None)
    ensures var r := LetSpec(ts, n, UntilSemicolon);
            r.Step? && r.statement.None? ==>
              && |r.diagnostics| == 1
              && (r.last == n || r.last == n + 1)
              && r.diagnostics[0] == WrongToken(if r.last == n then Ident else Assign, At(ts, r.last + 1).kind)
    ensures At(ts, n + 1).kind != Ident ==>
              LetSpec(ts, n, UntilSemicolon) == Step(None, n, [WrongToken(Ident, At(ts, n + 1).kind)])
    ensures At(ts, n + 1).kind == Ident && At(ts, n + 2).kind != Assign ==>
              LetSpec(ts, n, UntilSemicolon) == Step(None, n + 1, [WrongToken(Assign, At(ts, n + 2).kind)])
    ensures LetSpec(ts, n, UntilSemicolon).Hang? <==>
              At(ts, n + 1).kind == Ident && At(ts, n + 2).kind == Assign && NextSemicolon(ts, n + 2).None?
  {
    NextSemicolonIsFirst(ts, n + 2);
  }

  /** A `regresa` statement ends on the first `;` after it, when there is one, and never fails. */
  lemma ReturnOutcome(ts: seq<Token>, n: nat)
    requires IsTokenStream(ts)
    ensures ReturnSpec(ts, n, UntilSemicolon).Step? <==> NextSemicolon(ts, n + 1).Some?
    ensures var r := ReturnSpec(ts, n, UntilSemicolon);
            r.Step? ==>
              && r.statement == Some(ReturnStatement(At(ts, n), None))
              && r.diagnostics == []
              && n < r.last && At(ts, r.last).kind == Semicolon
              && (forall j :: n < j < r.last ==> At(ts, j).kind != Semicolon)
  {
    NextSemicolonIsFirst(ts, n + 1);
  }

  /**
   * An expression statement is always produced, starts at its first token and
   * consumes the `;` that follows it, if any.
   */
  lemma ExpressionStatementOutcome(ts: seq<Token>, n: nat)
    requires IsTokenStream(ts)
    ensures var r := ExpressionStatementSpec(ts, n);
            && r.Step? && r.statement.Some? && r.statement.value.ExpressionStatement?
            && r.statement.value.token == At(ts, n)
            && r.statement.value.expression == ExpressionSpec(At(ts, n)).expression
            && (r.last == n + 1 <==> At(ts, n + 1).kind == Semicolon)
            && (r.last == n || r.last == n + 1)
  {
  }

  // ---------------------------------------------------------------------------
  // Programs

  /** A whole parse: the statements and diagnostics, and where current stops; or a parse that never ends. */
  datatype Run = Halts(statements: seq<Statement>, diagnostics: seq<Diagnostic>, end: nat) | Diverges

  /** The program's statements after a statement parse: a node is appended, a None is dropped. */
  function Appended(statements: seq<Statement>, s: Option<Statement>): seq<Statement>
  {
    if s.Some? then statements + [s.value] else statements
  }

  /**
   * Parsing statements from position `n` until the current token is Eof,
   * appending each statement and its diagnostics to those gathered so far:
   * the test of the loop in `parse_program`.
   */
  function ParseFrom(ts: seq<Token>, n: nat, skip: Skip, statements: seq<Statement>, diagnostics: seq<Diagnostic>): (r: Run)
    requires IsTokenStream(ts)
    ensures r.Halts? ==> n <= r.end && At(ts, r.end).kind == Eof
    ensures r.Halts? && skip == UntilSemicolon ==> r.end == (if n < |ts| then |ts| - 1 else n)
    decreases |ts| - n, 2
  {
    if At(ts, n).kind == Eof then Halts(statements, diagnostics, n)
    else ParseNext(ts, n, skip, statements, diagnostics)
  }

  /** The body of the loop, away from Eof: the statement parse at `n`, then what follows it. */
  function ParseNext(ts: seq<Token>, n: nat, skip: Skip, statements: seq<Statement>, diagnostics: seq<Diagnostic>): (r: Run)
    requires IsTokenStream(ts) && At(ts, n).kind != Eof
    ensures r.Halts? ==> n < r.end && At(ts, r.end).kind == Eof
    ensures r.Halts? && skip == UntilSemicolon ==> r.end == |ts| - 1
    decreases |ts| - n, 1
  {
    Continue(ts, n, skip, StatementSpec(ts, n, skip), statements, diagnostics)
  }

  /**
   * After the statement parse `step` begun at `n`: a hang, or the node (if
   * any) and the diagnostics are added and the loop goes on from the token
   * after the statement's last one.
   */
  function Continue(ts: seq<Token>, n: nat, skip: Skip, step: Step, statements: seq<Statement>, diagnostics: seq<Diagnostic>): (r: Run)
    requires IsTokenStream(ts) && n < |ts|
    requires step.Step? ==> n <= step.last
    requires step.Step? && skip == UntilSemicolon ==> step.last < |ts| - 1
    ensures r.Halts? ==> n < r.end && At(ts, r.end).kind == Eof
    ensures r.Halts? && skip == UntilSemicolon ==> r.end == |ts| - 1
    decreases |ts| - n, 0
  {
    match step
    case Hang => Diverges
    case Step(statement, last, more) => ParseFrom(ts, last + 1, skip, Appended(statements, statement), diagnostics + more)
  }

  /** Parsing a program from position `n`, starting with no statements and no diagnostics. */
  function ProgramSpec(ts: seq<Token>, n: nat, skip: Skip): Run
    requires IsTokenStream(ts)
  {
    ParseFrom(ts, n, skip, [], [])
  }

  /** Away from Eof, the parse is the statement at `n` followed by the rest. */
  lemma FromStep(ts: seq<Token>, n: nat, skip: Skip, statements: seq<Statement>, diagnostics: seq<Diagnostic>)
    requires IsTokenStream(ts) && At(ts, n).kind != Eof
    ensures ParseFrom(ts, n, skip, statements, diagnostics) ==
            Continue(ts, n, skip, StatementSpec(ts, n, skip), statements, diagnostics)
  {
  }

  /**
   * After a statement parse that did not hang, the loop goes on from the
   * token after the statement's last one, with the node (if any) and the
   * diagnostics added: it comes to `rest`, what that parse comes to.
   */
  lemma ContinueAfter(ts: seq<Token>, n: nat, skip: Skip, statements: seq<Statement>, diagnostics: seq<Diagnostic>,
                      next: nat, statement: Option<Statement>, more: seq<Diagnostic>, rest: Run)
    requires IsTokenStream(ts) && n < |ts| && n < next
    requires skip == UntilSemicolon ==> next < |ts|
    requires rest == ParseFrom(ts, next, skip, Appended(statements, statement), diagnostics + more)
    ensures Continue(ts, n, skip, Step(statement, next - 1, more), statements, diagnostics) == rest
  {
    assert (next - 1) + 1 == next;
  }

  /**
   * One turn of the statement loop: the parse from `n` comes to what the
   * parse from the token after the statement comes to, with the node (if
   * any) and the statement's diagnostics added.
   */
  lemma ResumeAfter(ts: seq<Token>, n: nat, skip: Skip, statements: seq<Statement>, diagnostics: seq<Diagnostic>,
                    next: nat, statement: Option<Statement>, more: seq<Diagnostic>, rest: Run)
    requires IsTokenStream(ts) && At(ts, n).kind != Eof
    requires 1 <= next && StatementSpec(ts, n, skip) == Step(statement, next - 1, more)
    requires rest == ParseFrom(ts, next, skip, Appended(statements, statement), diagnostics + more)
    ensures ParseFrom(ts, n, skip, statements, diagnostics) == rest
  {
    assert n < |ts| && n < next && (skip == UntilSemicolon ==> next < |ts|);
    FromStep(ts, n, skip, statements, diagnostics);
    ContinueAfter(ts, n, skip, statements, diagnostics, next, statement, more, rest);
  }

  /** A parse that ends and is not at Eof does not hang on its first statement. */
  lemma ParseFromStep(ts: seq<Token>, n: nat, statements: seq<Statement>, diagnostics: seq<Diagnostic>)
    requires IsTokenStream(ts) && At(ts, n).kind != Eof && ParseFrom(ts, n, UntilSemicolon, statements, diagnostics).Halts?
    ensures StatementSpec(ts, n, UntilSemicolon).Step?
  {
    FromStep(ts, n, UntilSemicolon, statements, diagnostics);
  }

  /**
   * A parse that never ends has met a `variable` or `regresa` statement with
   * no `;` anywhere after it. So a stream without such statements, or with a
   * `;` after the last of them, is always parsed to the end.
   */
  lemma {:induction false} DivergesWithoutSemicolon(ts: seq<Token>, n: nat, statements: seq<Statement>, diagnostics: seq<Diagnostic>)
    requires IsTokenStream(ts)
    ensures ParseFrom(ts, n, UntilSemicolon, statements, diagnostics).Diverges? ==>
              exists p :: n <= p < |ts| && (ts[p].kind == Let || ts[p].kind == Return) &&
                forall j :: p <= j ==> At(ts, j).kind != Semicolon
    decreases |ts| - n
  {
    if At(ts, n).kind != Eof {
      var r := StatementSpec(ts, n, UntilSemicolon);
      if r.Hang? {
        HangWithoutSemicolon(ts, n);
      } else {
        assert n < |ts| && n <= r.last;
        DivergesWithoutSemicolon(ts, r.last + 1, Appended(statements, r.statement), diagnostics + r.diagnostics);
        DivergesAfterStep(ts, n, statements, diagnostics, r.last + 1, r.statement, r.diagnostics);
      }
    }
  }

  /** One step of the loop above: a parse that diverges from `n` diverges from the token after the statement. */
  lemma DivergesAfterStep(ts: seq<Token>, n: nat, statements: seq<Statement>, diagnostics: seq<Diagnostic>,
                          next: nat, statement: Option<Statement>, more: seq<Diagnostic>)
    requires IsTokenStream(ts) && At(ts, n).kind != Eof && n < next
    requires StatementSpec(ts, n, UntilSemicolon) == Step(statement, next - 1, more)
    requires ParseFrom(ts, next, UntilSemicolon, Appended(statements, statement), diagnostics + more).Diverges? ==>
               exists p :: next <= p < |ts| && (ts[p].kind == Let || ts[p].kind == Return) &&
                 forall j :: p <= j ==> At(ts, j).kind != Semicolon
    ensures ParseFrom(ts, n, UntilSemicolon, statements, diagnostics).Diverges? ==>
              exists p :: n <= p < |ts| && (ts[p].kind == Let || ts[p].kind == Return) &&
                forall j :: p <= j ==> At(ts, j).kind != Semicolon
  {
    var rest := ParseFrom(ts, next, UntilSemicolon, Appended(statements, statement), diagnostics + more);
    ResumeAfter(ts, n, UntilSemicolon, statements, diagnostics, next, statement, more, rest);
    if rest.Diverges? {
      var p :| next <= p < |ts| && (ts[p].kind == Let || ts[p].kind == Return) &&
               forall j :: p <= j ==> At(ts, j).kind != Semicolon;
      assert n <= p;
    }
  }

  /** A statement parse hangs only on a `variable` or `regresa` with no `;` at or after it. */
  lemma HangWithoutSemicolon(ts: seq<Token>, n: nat)
    requires IsTokenStream(ts) && StatementSpec(ts, n, UntilSemicolon).Hang?
    ensures n < |ts| && (ts[n].kind == Let || ts[n].kind == Return)
    ensures forall j :: n <= j ==> At(ts, j).kind != Semicolon
    ensures exists p :: n <= p < |ts| && (ts[p].kind == Let || ts[p].kind == Return) &&
              forall j :: p <= j ==> At(ts, j).kind != Semicolon
  {
    NextSemicolonIsFirst(ts, n + 1);
    NextSemicolonIsFirst(ts, n + 2);
    assert n <= n < |ts|;
  }

  /** Each diagnostic is a wrong token after `variable` or `=` expected, or an Int literal that is not a digit string. */
  predicate Expected(d: Diagnostic)
  {
    match d
    case WrongToken(expected, got) => (expected == Ident || expected == Assign) && got != expected
    case NotAnInteger(literal) => !(literal != [] && Numerals.AllDigits(literal))
  }

  predicate AllExpected(ds: seq<Diagnostic>)
  {
    forall i :: 0 <= i < |ds| ==> Expected(ds[i])
  }

  lemma AllExpectedAppend(a: seq<Diagnostic>, b: seq<Diagnostic>)
    requires AllExpected(a) && AllExpected(b)
    ensures AllExpected(a + b)
  {
    forall i | 0 <= i < |a + b|
      ensures Expected((a + b)[i])
    {
      if i >= |a| {
        assert (a + b)[i] == b[i - |a|];
      }
    }
  }

  /** The parser only ever complains about the name and `=` of a `variable` statement and about unreadable integers. */
  lemma {:induction false} DiagnosticsAreExpected(ts: seq<Token>, n: nat, skip: Skip, statements: seq<Statement>, diagnostics: seq<Diagnostic>)
    requires IsTokenStream(ts) && AllExpected(diagnostics)
    ensures var r := ParseFrom(ts, n, skip, statements, diagnostics);
            r.Halts? ==> AllExpected(r.diagnostics)
    decreases |ts| - n
  {
    if At(ts, n).kind != Eof {
      match StatementSpec(ts, n, skip)
      case Hang =>
        FromStep(ts, n, skip, statements, diagnostics);
      case Step(statement, last, more) =>
        assert n <= last && n < |ts|;
        StepKeepsExpected(ts, n, skip, diagnostics);
        DiagnosticsAreExpected(ts, last + 1, skip, Appended(statements, statement), diagnostics + more);
        ExpectedAfterStep(ts, n, skip, statements, diagnostics, last + 1, statement, more);
    }
  }

  /** The diagnostics gathered so far stay expected once a statement's are added. */
  lemma StepKeepsExpected(ts: seq<Token>, n: nat, skip: Skip, diagnostics: seq<Diagnostic>)
    requires IsTokenStream(ts) && AllExpected(diagnostics)
    ensures var s := StatementSpec(ts, n, skip);
            s.Step? ==> AllExpected(diagnostics + s.diagnostics)
  {
    var s := StatementSpec(ts, n, skip);
    if s.Step? {
      StatementDiagnosticsExpected(ts, n, skip);
      AllExpectedAppend(diagnostics, s.diagnostics);
    }
  }

  /** One step of the loop above: what the rest of the parse reports is what the whole parse reports. */
  lemma ExpectedAfterStep(ts: seq<Token>, n: nat, skip: Skip, statements: seq<Statement>, diagnostics: seq<Diagnostic>,
                          next: nat, statement: Option<Statement>, more: seq<Diagnostic>)
    requires IsTokenStream(ts) && At(ts, n).kind != Eof
    requires 1 <= next && StatementSpec(ts, n, skip) == Step(statement, next - 1, more)
    requires var rest := ParseFrom(ts, next, skip, Appended(statements, statement), diagnostics + more);
             rest.Halts? ==> AllExpected(rest.diagnostics)
    ensures var r := ParseFrom(ts, n, skip, statements, diagnostics);
            r.Halts? ==> AllExpected(r.diagnostics)
  {
    ResumeAfter(ts, n, skip, statements, diagnostics, next, statement, more,
                ParseFrom(ts, next, skip, Appended(statements, statement), diagnostics + more));
  }

  /** The same for one statement. */
  lemma StatementDiagnosticsExpected(ts: seq<Token>, n: nat, skip: Skip)
    requires IsTokenStream(ts)
    ensures var s := StatementSpec(ts, n, skip);
            s.Step? ==> AllExpected(s.diagnostics)
  {
    var t := At(ts, n);
    if t.kind == Int {
      IntegerExpression(t);
    } else if t.kind != Let && t.kind != Return {
      ExpressionKinds(t);
    }
  }

  /** With the skip loops also stopping at Eof, every token stream is parsed to the end. */
  lemma {:induction false} CorrectedParseHalts(ts: seq<Token>, n: nat, statements: seq<Statement>, diagnostics: seq<Diagnostic>)
    requires IsTokenStream(ts)
    ensures ParseFrom(ts, n, UntilSemicolonOrEof, statements, diagnostics).Halts?
    decreases |ts| - n
  {
    if At(ts, n).kind != Eof {
      CorrectedStatementSteps(ts, n);
      var s := StatementSpec(ts, n, UntilSemicolonOrEof);
      assert n < |ts| && n <= s.last;
      var statements', diagnostics' := Appended(statements, s.statement), diagnostics + s.diagnostics;
      CorrectedParseHalts(ts, s.last + 1, statements', diagnostics');
      ResumeAfter(ts, n, UntilSemicolonOrEof, statements, diagnostics, s.last + 1, s.statement, s.diagnostics,
                  ParseFrom(ts, s.last + 1, UntilSemicolonOrEof, statements', diagnostics'));
    }
  }

  /** With the corrected skip loops no statement parse hangs. */
  lemma CorrectedStatementSteps(ts: seq<Token>, n: nat)
    requires IsTokenStream(ts)
    ensures StatementSpec(ts, n, UntilSemicolonOrEof).Step?
  {
  }

  /** Where the parse as written ends, the corrected one gives the same statements and diagnostics. */
  lemma {:induction false} CorrectionAgrees(ts: seq<Token>, n: nat, statements: seq<Statement>, diagnostics: seq<Diagnostic>)
    requires IsTokenStream(ts)
    ensures ParseFrom(ts, n, UntilSemicolon, statements, diagnostics).Halts? ==>
              ParseFrom(ts, n, UntilSemicolonOrEof, statements, diagnostics) == ParseFrom(ts, n, UntilSemicolon, statements, diagnostics)
    decreases |ts| - n
  {
    if At(ts, n).kind != Eof {
      var s := StatementSpec(ts, n, UntilSemicolon);
      if s.Step? {
        assert n < |ts| && n <= s.last;
        StatementCorrectionAgrees(ts, n);
        CorrectionAgrees(ts, s.last + 1, Appended(statements, s.statement), diagnostics + s.diagnostics);
        AgreesAfterStep(ts, n, statements, diagnostics, s.last + 1, s.statement, s.diagnostics);
      } else {
        FromStep(ts, n, UntilSemicolon, statements, diagnostics);
      }
    }
  }

  /** One step of the loop above: both parses take the same statement, so agreeing afterwards means agreeing from `n`. */
  lemma AgreesAfterStep(ts: seq<Token>, n: nat, statements: seq<Statement>, diagnostics: seq<Diagnostic>,
                        next: nat, statement: Option<Statement>, more: seq<Diagnostic>)
    requires IsTokenStream(ts) && At(ts, n).kind != Eof && 1 <= next
    requires StatementSpec(ts, n, UntilSemicolon) == Step(statement, next - 1, more)
    requires StatementSpec(ts, n, UntilSemicolonOrEof) == Step(statement, next - 1, more)
    requires var statements', diagnostics' := Appended(statements, statement), diagnostics + more;
             ParseFrom(ts, next, UntilSemicolon, statements', diagnostics').Halts? ==>
               ParseFrom(ts, next, UntilSemicolonOrEof, statements', diagnostics') == ParseFrom(ts, next, UntilSemicolon, statements', diagnostics')
    ensures ParseFrom(ts, n, UntilSemicolon, statements, diagnostics).Halts? ==>
              ParseFrom(ts, n, UntilSemicolonOrEof, statements, diagnostics) == ParseFrom(ts, n, UntilSemicolon, statements, diagnostics)
  {
    var statements', diagnostics' := Appended(statements, statement), diagnostics + more;
    ResumeAfter(ts, n, UntilSemicolon, statements, diagnostics, next, statement, more,
                ParseFrom(ts, next, UntilSemicolon, statements', diagnostics'));
    ResumeAfter(ts, n, UntilSemicolonOrEof, statements, diagnostics, next, statement, more,
                ParseFrom(ts, next, UntilSemicolonOrEof, statements', diagnostics'));
  }

  /** The same for one statement. */
  lemma StatementCorrectionAgrees(ts: seq<Token>, n: nat)
    requires IsTokenStream(ts)
    ensures StatementSpec(ts, n, UntilSemicolon).Step? ==>
              StatementSpec(ts, n, UntilSemicolonOrEof) == StatementSpec(ts, n, UntilSemicolon)
  {
    match At(ts, n).kind
    case Let => SkipAgrees(ts, n + 2);
    case Return => SkipAgrees(ts, n + 1);
    case _ =>
  }

  // ---------------------------------------------------------------------------
  // Examples

  /** A skip loop started at `i` stops at `m` when `m` is the first `;` (or, corrected, Eof) from `i` on. */
  lemma {:induction false} FirstStop(ts: seq<Token>, i: nat, m: nat)
    requires IsTokenStream(ts) && i <= m
    requires forall j :: i <= j < m ==> At(ts, j).kind != Semicolon && At(ts, j).kind != Eof
    ensures At(ts, m).kind == Semicolon ==> NextSemicolon(ts, i) == Some(m)
    ensures At(ts, m).kind == Semicolon || At(ts, m).kind == Eof ==> NextSemicolonOrEof(ts, i) == m
    decreases m - i
  {
    if i < m {
      FirstStop(ts, i + 1, m);
    }
  }

  /**
   * The stream `variable x = 5` lexes to (the lone trailing digit is lost,
   * see Programs.LexLetWithoutSemicolon): no `;` follows the `variable`
   * statement, so the parse as written never ends, while the corrected one
   * yields the statement.
   */
  lemma {:induction false} ParserTestHangs(ts: seq<Token>)
    requires ts == [Token(Let, "variable"), Token(Ident, "x"), Token(Assign, "="), Token(Int, ""), Token(Eof, "")]
    ensures ProgramSpec(ts, 0, UntilSemicolon) == Diverges
    ensures ProgramSpec(ts, 0, UntilSemicolonOrEof) ==
              Halts([LetStatement(ts[0], Identifier(ts[1], "x"), None)], [], 5)
  {
    assert IsTokenStream(ts);
    assert At(ts, 1) == ts[1] && At(ts, 2).kind == Assign && At(ts, 3).kind == Int && At(ts, 4).kind == Eof;
    assert NextSemicolon(ts, 4) == None;
    assert NextSemicolon(ts, 2) == None;
    assert StatementSpec(ts, 0, UntilSemicolon) == Hang;
    FromStep(ts, 0, UntilSemicolon, [], []);
    FirstStop(ts, 2, 4);
    var let := LetStatement(ts[0], Identifier(ts[1], "x"), None);
    var none: seq<Diagnostic> := [];
    assert StatementSpec(ts, 0, UntilSemicolonOrEof) == Step(Some(let), 4, none);
    assert Appended([], Some(let)) == [let] && none + none == none;
    FromStep(ts, 0, UntilSemicolonOrEof, [], none);
  }

  /** The tokens of `variable x = 5;` parse to one statement and no diagnostics. */
  lemma {:induction false} LetStatementExample(ts: seq<Token>)
    requires ts == [Token(Let, "variable"), Token(Ident, "x"), Token(Assign, "="), Token(Int, "5"), Token(Semicolon, ";"), Token(Eof, "")]
    ensures ProgramSpec(ts, 0, UntilSemicolon) == Halts([LetStatement(ts[0], Identifier(ts[1], "x"), None)], [], 5)
  {
    var let := LetStatement(ts[0], Identifier(ts[1], "x"), None);
    var none: seq<Diagnostic> := [];
    LetStatementStep(ts);
    assert Appended([], Some(let)) == [let] && none + none == none;
    assert At(ts, 5).kind == Eof;
    ResumeAfter(ts, 0, UntilSemicolon, [], none, 5, Some(let), none, Halts([let], none, 5));
  }

  /** Its one statement: the name `x`, and current left on the `;`. */
  lemma LetStatementStep(ts: seq<Token>)
    requires ts == [Token(Let, "variable"), Token(Ident, "x"), Token(Assign, "="), Token(Int, "5"), Token(Semicolon, ";"), Token(Eof, "")]
    ensures IsTokenStream(ts)
    ensures StatementSpec(ts, 0, UntilSemicolon) == Step(Some(LetStatement(ts[0], Identifier(ts[1], "x"), None)), 4, [])
  {
    assert IsTokenStream(ts);
    assert At(ts, 1) == ts[1] && At(ts, 2).kind == Assign && At(ts, 3).kind == Int && At(ts, 4).kind == Semicolon;
    FirstStop(ts, 2, 4);
  }

  /**
   * The tokens of `regresa 5; foo ` (the trailing space keeps the lexer from
   * dropping the last `o`) parse to a return statement and an expression
   * statement without `;`.
   */
  lemma {:induction false} ReturnThenExpression(ts: seq<Token>)
    requires ts == [Token(Return, "regresa"), Token(Int, "5"), Token(Semicolon, ";"), Token(Ident, "foo"), Token(Eof, "")]
    ensures ProgramSpec(ts, 0, UntilSemicolon) ==
              Halts([ReturnStatement(ts[0], None), ExpressionStatement(ts[3], Some(IdentifierExpression(Identifier(ts[3], "foo"))))], [], 4)
  {
    assert IsTokenStream(ts);
    assert At(ts, 1).kind == Int && At(ts, 2).kind == Semicolon;
    FirstStop(ts, 1, 2);
    var first := ReturnStatement(ts[0], None);
    var second := ExpressionStatement(ts[3], Some(IdentifierExpression(Identifier(ts[3], "foo"))));
    assert StatementSpec(ts, 0, UntilSemicolon) == Step(Some(first), 2, []);
    assert At(ts, 3) == ts[3] && At(ts, 4).kind == Eof;
    assert StatementSpec(ts, 3, UntilSemicolon) == Step(Some(second), 3, []);
    var none: seq<Diagnostic> := [];
    assert none + none == none;
    assert Appended([], Some(first)) == [first] && Appended([first], Some(second)) == [first, second];
    FromStep(ts, 3, UntilSemicolon, [first], none);
    FromStep(ts, 0, UntilSemicolon, [], none);
  }

  /**
   * The tokens of `variable 5;`: the missing name is reported, the parse resumes at the
   * integer, which becomes an expression statement.
   */
  lemma {:induction false} MissingName(ts: seq<Token>)
    requires ts == [Token(Let, "variable"), Token(Int, "5"), Token(Semicolon, ";"), Token(Eof, "")]
    ensures ProgramSpec(ts, 0, UntilSemicolon) ==
              Halts([ExpressionStatement(ts[1], Some(IntegerLiteral(ts[1], 5)))], [WrongToken(Ident, Int)], 3)
  {
    assert IsTokenStream(ts);
    assert Numerals.ParseInt("5") == Some(5);
    var statement := ExpressionStatement(ts[1], Some(IntegerLiteral(ts[1], 5)));
    assert At(ts, 1) == ts[1] && At(ts, 2).kind == Semicolon && At(ts, 3).kind == Eof;
    assert StatementSpec(ts, 0, UntilSemicolon) == Step(None, 0, [WrongToken(Ident, Int)]);
    assert StatementSpec(ts, 1, UntilSemicolon) == Step(Some(statement), 2, []);
    var none: seq<Diagnostic> := [];
    var wrong := [WrongToken(Ident, Int)];
    assert Appended([], None) == [] && Appended([], Some(statement)) == [statement];
    assert none + wrong == wrong && wrong + none == wrong;
    FromStep(ts, 1, UntilSemicolon, [], wrong);
    FromStep(ts, 0, UntilSemicolon, [], none);
  }

  // ---------------------------------------------------------------------------
  // The parser object

  /**
   * A parser over a lexer. `tokens` is the whole stream the lexer hands out
   * from where it stood when the parser was built, `cursors` the lexer's
   * cursor before each of those calls and after the last, and `index` the
   * position of the current token in `tokens`.
   */
  class Parser {
    const lexer: Lexing.Lexer
    var currentToken: Token
    var peekToken: Token
    var errors: seq<string>
    ghost const tokens: seq<Token>
    ghost const cursors: seq<nat>
    ghost var index: nat

    /**
     * Current and peek are the tokens at `index` and `index + 1`, and the
     * lexer stands where the call for token `index + 2` starts.
     */
    ghost predicate Valid()
      reads this, lexer
    {
      && lexer.Valid()
      && IsScanOf(lexer.source, tokens, cursors)
      && currentToken == At(tokens, index)
      && peekToken == At(tokens, index + 1)
      && lexer.Cursor() == (if index + 2 < |cursors| then cursors[index + 2] else |lexer.source|)
    }

    /** Reads the first two tokens: current and peek. */
    constructor (lexer: Lexing.Lexer)
      requires lexer.Valid()
      modifies lexer
      ensures Valid()
      ensures this.lexer == lexer && tokens == Lexing.Lex(lexer.source, old(lexer.Cursor()))
      ensures index == 0 && errors == []
    {
      ghost var c := lexer.Cursor();
      ghost var ts := Lexing.Lex(lexer.source, c);
      ghost var cs := Lexing.Cursors(lexer.source, c);
      LexerStream(lexer.source, c);
      var first := lexer.NextToken();
      assert first == ts[0] && lexer.Cursor() == cs[1];
      if |ts| == 1 {
        Lexing.AtEndOfInput(lexer.source);
      }
      var second := lexer.NextToken();
      assert second == At(ts, 1) && lexer.Cursor() == (if 2 < |cs| then cs[2] else |lexer.source|);
      this.lexer := lexer;
      tokens := ts;
      cursors := cs;
      index := 0;
      currentToken := first;
      peekToken := second;
      errors := [];
    }

    /** Moves one token on: peek becomes current and the lexer supplies the new peek. */
    method AdvanceTokens()
      requires Valid()
      modifies this, lexer
      ensures Valid()
      ensures index == old(index) + 1 && currentToken == old(peekToken)
      ensures errors == old(errors)
    {
      if index + 2 >= |tokens| {
        Lexing.AtEndOfInput(lexer.source);
      }
      var token := lexer.NextToken();
      currentToken := peekToken;
      peekToken := token;
      index := index + 1;
    }

    /** Advances when peek has the expected kind; otherwise records the mismatch and stays. */
    method ExpectedToken(kind: TokenType) returns (matched: bool)
      requires Valid()
      modifies this, lexer
      ensures Valid()
      ensures matched <==> old(peekToken).kind == kind
      ensures matched ==> index == old(index) + 1 && errors == old(errors)
      ensures !matched ==> index == old(index) && errors == old(errors) + Messages([WrongToken(kind, old(peekToken).kind)])
    {
      if peekToken.kind == kind {
        AdvanceTokens();
        return true;
      }
      ExpectedTokenError(kind);
      return false;
    }

    /** Records that peek is not of the expected kind. */
    method ExpectedTokenError(kind: TokenType)
      modifies this`errors
      ensures errors == old(errors) + Messages([WrongToken(kind, peekToken.kind)])
    {
      errors := errors + [Message(WrongToken(kind, peekToken.kind))];
    }

    /** The expression at the current token, by its prefix rule. */
    method ParseExpression(precedence: Precedence) returns (expression: Option<Expression>)
      modifies this`errors
      ensures var parsed := ExpressionSpec(currentToken);
              expression == parsed.expression && errors == old(errors) + Messages(parsed.diagnostics)
    {
      if currentToken.kind !in PrefixRules {
        return None;
      }
      match PrefixRules[currentToken.kind]
      case IdentifierRule =>
        var identifier := ParseIdentifier();
        expression := Some(IdentifierExpression(identifier));
      case IntegerRule =>
        expression := ParseInteger();
    }

    /** The current token as a name. */
    method ParseIdentifier() returns (identifier: Identifier)
      ensures identifier.token == currentToken && identifier.value == currentToken.literal
    {
      identifier := Identifier(currentToken, currentToken.literal);
    }

    /** The current token as an integer, or a recorded error. */
    method ParseInteger() returns (expression: Option<Expression>)
      modifies this`errors
      ensures var parsed := IntegerSpec(currentToken);
              expression == parsed.expression && errors == old(errors) + Messages(parsed.diagnostics)
    {
      match Numerals.ParseInt(currentToken.literal)
      case Some(value) =>
        expression := Some(IntegerLiteral(currentToken, value));
      case None =>
        errors := errors + [Message(NotAnInteger(currentToken.literal))];
        expression := None;
    }

    /** An expression statement; a `;` right after it is consumed. */
    method ParseExpressionStatement() returns (statement: Option<Statement>)
      requires Valid()
      modifies this, lexer
      ensures Valid()
      ensures var r := ExpressionStatementSpec(tokens, old(index));
              r.Step? && statement == r.statement && index == r.last && errors == old(errors) + Messages(r.diagnostics)
    {
      var token := currentToken;
      var expression := ParseExpression(Lowest);
      if peekToken.kind == Semicolon {
        AdvanceTokens();
      }
      statement := Some(ExpressionStatement(token, expression));
    }

    /** A `variable` statement: the name, `=`, then a skip to the next `;`. */
    method ParseLetStatement() returns (statement: Option<Statement>)
      requires Valid() && LetSpec(tokens, index, UntilSemicolon).Step?
      modifies this, lexer
      ensures Valid()
      ensures var r := LetSpec(tokens, old(index), UntilSemicolon);
              statement == r.statement && index == r.last && errors == old(errors) + Messages(r.diagnostics)
    {
      ghost var n, name1, name2 := index, peekToken, At(tokens, index + 2);
      ghost var r := LetSpec(tokens, n, UntilSemicolon);
      var token := currentToken;
      var matched := ExpectedToken(Ident);
      if !matched {
        assert r == Step(None, n, [WrongToken(Ident, name1.kind)]);
        return None;
      }
      var name := ParseIdentifier();
      assert name == Identifier(name1, name1.literal) && peekToken == name2;
      matched := ExpectedToken(Assign);
      if !matched {
        assert r == Step(None, n + 1, [WrongToken(Assign, name2.kind)]);
        return None;
      }
      SkipToSemicolon();
      statement := Some(LetStatement(token, name, None));
    }

    /** The skip loop of `variable` and `regresa`: advances until current is `;`. */
    method SkipToSemicolon()
      requires Valid() && NextSemicolon(tokens, index).Some?
      modifies this, lexer
      ensures Valid() && index == NextSemicolon(tokens, old(index)).value && errors == old(errors)
    {
      ghost var m := NextSemicolon(tokens, index).value;
      while currentToken.kind != Semicolon
        invariant Valid() && index <= m && NextSemicolon(tokens, index) == Some(m)
        invariant errors == old(errors)
        decreases m - index
      {
        AdvanceTokens();
      }
    }

    /** A `regresa` statement: a skip to the next `;`. */
    method ParseReturnStatement() returns (statement: Option<Statement>)
      requires Valid() && ReturnSpec(tokens, index, UntilSemicolon).Step?
      modifies this, lexer
      ensures Valid()
      ensures var r := ReturnSpec(tokens, old(index), UntilSemicolon);
              statement == r.statement && index == r.last && errors == old(errors) + Messages(r.diagnostics)
    {
      var token := currentToken;
      AdvanceTokens();
      SkipToSemicolon();
      statement := Some(ReturnStatement(token, None));
    }

    /** One statement, chosen by the current token. */
    method ParseStatement() returns (statement: Option<Statement>)
      requires Valid() && StatementSpec(tokens, index, UntilSemicolon).Step?
      modifies this, lexer
      ensures Valid()
      ensures var r := StatementSpec(tokens, old(index), UntilSemicolon);
              statement == r.statement && index == r.last && errors == old(errors) + Messages(r.diagnostics)
    {
      if currentToken.kind == Let {
        statement := ParseLetStatement();
      } else if currentToken.kind == Return {
        statement := ParseReturnStatement();
      } else {
        statement := ParseExpressionStatement();
      }
    }

    /**
     * Statements until the current token is Eof. Requires that the parse as
     * written ends, which fails for a `variable` or `regresa` statement with
     * no `;` after it.
     */
    method ParseProgram() returns (program: Program)
      requires Valid() && ProgramSpec(tokens, index, UntilSemicolon).Halts?
      modifies this, lexer
      ensures Valid() && currentToken.kind == Eof
      ensures var r := ProgramSpec(tokens, old(index), UntilSemicolon);
              program.statements == r.statements && index == r.end && errors == old(errors) + Messages(r.diagnostics)
    {
      ghost var r := ProgramSpec(tokens, index, UntilSemicolon);
      var statements: seq<Statement> := [];
      ghost var diagnostics: seq<Diagnostic> := [];
      while currentToken.kind != Eof
        invariant Valid() && ParseFrom(tokens, index, UntilSemicolon, statements, diagnostics) == r
        invariant errors == old(errors) + Messages(diagnostics)
        decreases |tokens| - index
      {
        ghost var start, collected, step := index, statements, StatementSpec(tokens, index, UntilSemicolon);
        ParseFromStep(tokens, index, statements, diagnostics);
        var statement := ParseStatement();
        ReportInTurn(old(errors), diagnostics, step.diagnostics);
        if statement.Some? {
          statements := statements + [statement.value];
        }
        AdvanceTokens();
        ResumeAfter(tokens, start, UntilSemicolon, collected, diagnostics, index, statement, step.diagnostics,
                    ParseFrom(tokens, index, UntilSemicolon, Appended(collected, statement), diagnostics + step.diagnostics));
        diagnostics := diagnostics + step.diagnostics;
      }
      program := Program(statements);
    }
  }
}
