/**
 * The lexer (lp/lexer.py): a cursor over the source string that hands out one
 * token per call.
 *
 * The pure part describes what one call does when the lexer's cursor is at
 * index `c` of the source (`Scan`), and from it the tokens successive calls
 * return (`Lex`). The class `Lexer` keeps the source's three mutable fields and
 * is proved to follow `Scan` call by call.
 */
module Lexing {
  import opened Wrappers
  import opened Tokens
  import Numerals

  /** The character classes the lexer's loops run over. */
  datatype CharClass = Letter | Digit | Space

  /**
   * Letters: ASCII letters, the accented vowels á é í ó ú and Á É Í Ó Ú, ñ, Ñ
   * and the underscore, compared by code point.
   */
  predicate IsLetter(c: char)
  {
    var n := c as int;
    || 0x61 <= n <= 0x7A || 0x41 <= n <= 0x5A
    || n == 0xE1 || n == 0xE9 || n == 0xED || n == 0xF3 || n == 0xFA
    || n == 0xC1 || n == 0xC9 || n == 0xCD || n == 0xD3 || n == 0xDA
    || n == 0xF1 || n == 0xD1 || n == 0x5F
  }

  /**
   * Whitespace: space, and tab, line feed, vertical tab, form feed and carriage
   * return (code points 9 to 13).
   */
  predicate IsSpace(c: char)
  {
    var n := c as int;
    n == 0x20 || 0x09 <= n <= 0x0D
  }

  predicate InClass(c: char, k: CharClass)
  {
    match k
    case Letter => IsLetter(c)
    case Digit => Numerals.IsDigit(c)
    case Space => IsSpace(c)
  }

  /** The current character matches class `k`; the end-of-input character never does. */
  predicate Matches(ch: Option<char>, k: CharClass)
  {
    ch.Some? && InClass(ch.value, k)
  }

  /** The text of the current character: one character, or the empty string at end of input. */
  function Text(ch: Option<char>): (t: string)
    ensures |t| == if ch.Some? then 1 else 0
  {
    match ch
    case Some(c) => [c]
    case None => ""
  }

  /** The kind of the nine one-character tokens. */
  function SingleCharKind(c: char): Option<TokenType>
  {
    match c
    case '=' => Some(Assign)
    case '+' => Some(Plus)
    case '(' => Some(LParen)
    case ')' => Some(RParen)
    case '{' => Some(LBrace)
    case '}' => Some(RBrace)
    case ',' => Some(Comma)
    case ';' => Some(Semicolon)
    case '<' => Some(Lt)
    case _ => None
  }

  /** The end of the run of class `k` that starts at `i`: the first index from `i` on outside the class. */
  function RunEnd(s: string, i: nat, k: CharClass): (e: nat)
    requires i <= |s|
    ensures i <= e <= |s|
    ensures e == |s| || !InClass(s[e], k)
    decreases |s| - i
  {
    if i < |s| && InClass(s[i], k) then RunEnd(s, i + 1, k) else i
  }

  /** Everything between `i` and `RunEnd(s, i, k)` is of class `k`: the run is maximal. */
  lemma {:induction false} RunEndInClass(s: string, i: nat, k: CharClass)
    requires i <= |s|
    ensures forall j :: i <= j < RunEnd(s, i, k) ==> InClass(s[j], k)
    decreases |s| - i
  {
    if i < |s| && InClass(s[i], k) {
      RunEndInClass(s, i + 1, k);
    }
  }

  /**
   * Where the `_position` field stands once the run ending at `e` has been read:
   * on `e` itself, or, when the run reached the end of input, still on the last
   * character, because reading past the end does not move it.
   */
  function RunStop(s: string, e: nat): nat
  {
    if e < |s| then e else if |s| == 0 then 0 else |s| - 1
  }

  /** One call's result: the token and the cursor afterwards. */
  datatype Scanned = Scanned(token: Token, next: nat)

  /**
   * What `next_token` returns when the cursor is at `c` (`c == |s|` is the end
   * of input), and where it leaves the cursor.
   */
  function Scan(s: string, c: nat): (r: Scanned)
    requires c <= |s|
    ensures c <= r.next <= |s|
    ensures r.token.kind == Eof <==> RunEnd(s, c, Space) == |s|
    ensures r.token.kind == Eof ==> r == Scanned(Token(Eof, ""), |s|)
    ensures r.token.kind != Eof ==> c < r.next
  {
    var i := RunEnd(s, c, Space);
    if i == |s| then Scanned(Token(Eof, ""), |s|)
    else
      var ch := s[i];
      if SingleCharKind(ch).Some? then Scanned(Token(SingleCharKind(ch).value, [ch]), i + 1)
      else if IsLetter(ch) then
        var e := RunEnd(s, i, Letter);
        var literal := s[i..RunStop(s, e)];
        Scanned(Token(LookupTokenType(literal), literal), e)
      else if Numerals.IsDigit(ch) then
        var e := RunEnd(s, i, Digit);
        Scanned(Token(Int, s[i..RunStop(s, e)]), e)
      else Scanned(Token(Illegal, [ch]), i + 1)
  }

  /**
   * The tokens successive calls return from cursor `c`, up to and including the
   * first Eof (every later call returns that Eof again, see AtEndOfInput).
   */
  function Lex(s: string, c: nat): (ts: seq<Token>)
    requires c <= |s|
    ensures 1 <= |ts| <= |s| - c + 1
    ensures ts[|ts| - 1] == Token(Eof, "")
    decreases |s| - c
  {
    var r := Scan(s, c);
    if r.token.kind == Eof then [r.token] else [r.token] + Lex(s, r.next)
  }

  // ---------------------------------------------------------------------------
  // Properties of one call

  /** Each of `= + ( ) { } , ; <` gives one token of its kind holding that character, and the cursor moves one past it. */
  lemma {:induction false} SingleCharToken(s: string, c: nat)
    requires c <= |s|
    requires RunEnd(s, c, Space) < |s|
    requires SingleCharKind(s[RunEnd(s, c, Space)]).Some?
    ensures var i := RunEnd(s, c, Space);
            Scan(s, c) == Scanned(Token(SingleCharKind(s[i]).value, [s[i]]), i + 1)
  {
  }

  /**
   * A character that starts no run gives a one-character token: its own kind
   * when it is one of the nine, Illegal otherwise.
   */
  lemma {:induction false} OneCharToken(s: string, c: nat)
    requires c <= |s|
    requires RunEnd(s, c, Space) < |s|
    requires var ch := s[RunEnd(s, c, Space)]; SingleCharKind(ch).Some? || (!IsLetter(ch) && !Numerals.IsDigit(ch))
    ensures var i := RunEnd(s, c, Space);
            var kind := if SingleCharKind(s[i]).Some? then SingleCharKind(s[i]).value else Illegal;
            Scan(s, c) == Scanned(Token(kind, [s[i]]), i + 1)
  {
  }

  /** No letter or digit is one of the nine one-character tokens. */
  lemma RunStartsAreNotSingleChars(ch: char)
    requires IsLetter(ch) || Numerals.IsDigit(ch)
    ensures SingleCharKind(ch).None?
    ensures IsLetter(ch) ==> !Numerals.IsDigit(ch)
  {
  }

  /** A letter or a digit starts a run, whose token Scan returns. */
  lemma {:induction false} RunScan(s: string, c: nat)
    requires c <= |s|
    requires RunEnd(s, c, Space) < |s|
    requires IsLetter(s[RunEnd(s, c, Space)]) || Numerals.IsDigit(s[RunEnd(s, c, Space)])
    ensures var i := RunEnd(s, c, Space);
            var k := if IsLetter(s[i]) then Letter else Digit;
            var e := RunEnd(s, i, k);
            var literal := s[i..RunStop(s, e)];
            Scan(s, c) == Scanned(Token(if k == Letter then LookupTokenType(literal) else Int, literal), e)
  {
    RunStartsAreNotSingleChars(s[RunEnd(s, c, Space)]);
  }

  /** The table of one-character tokens, spelled out. */
  lemma SingleCharKinds()
    ensures SingleCharKind('=') == Some(Assign) && SingleCharKind('+') == Some(Plus)
    ensures SingleCharKind('(') == Some(LParen) && SingleCharKind(')') == Some(RParen)
    ensures SingleCharKind('{') == Some(LBrace) && SingleCharKind('}') == Some(RBrace)
    ensures SingleCharKind(',') == Some(Comma) && SingleCharKind(';') == Some(Semicolon)
    ensures SingleCharKind('<') == Some(Lt)
    ensures SingleCharKind('-') == None && SingleCharKind('*') == None && SingleCharKind('!') == None
    ensures SingleCharKind('>') == None && SingleCharKind('"') == None
  {
  }

  /**
   * A character that is neither whitespace, one of the nine, a letter nor a
   * digit gives an Illegal token holding just that character, and conversely an
   * Illegal token always holds one such character.
   */
  lemma {:induction false} IllegalToken(s: string, c: nat)
    requires c <= |s|
    ensures var i := RunEnd(s, c, Space);
            Scan(s, c).token.kind == Illegal <==>
              i < |s| && SingleCharKind(s[i]).None? && !IsLetter(s[i]) && !Numerals.IsDigit(s[i])
    ensures var i := RunEnd(s, c, Space);
            Scan(s, c).token.kind == Illegal ==> Scan(s, c) == Scanned(Token(Illegal, [s[i]]), i + 1)
  {
    var i := RunEnd(s, c, Space);
    if i < |s| && SingleCharKind(s[i]).None? && IsLetter(s[i]) {
      var literal := s[i..RunStop(s, RunEnd(s, i, Letter))];
      assert LookupTokenType(literal) != Illegal;
    }
  }

  /** No token holds whitespace: leading whitespace is skipped and no run contains any. */
  lemma {:induction false} NoWhitespaceInTokens(s: string, c: nat)
    requires c <= |s|
    ensures forall j :: 0 <= j < |Scan(s, c).token.literal| ==> !IsSpace(Scan(s, c).token.literal[j])
  {
    var i := RunEnd(s, c, Space);
    if i < |s| && (IsLetter(s[i]) || Numerals.IsDigit(s[i])) {
      RunToken(s, c);
      var k := if IsLetter(s[i]) then Letter else Digit;
      var literal := Scan(s, c).token.literal;
      forall j | 0 <= j < |literal|
        ensures !IsSpace(literal[j])
      {
        assert InClass(literal[j], k);
      }
    } else if i < |s| {
      OneCharToken(s, c);
    }
  }

  /**
   * A letter run gives the kind its literal looks up to, a digit run gives Int;
   * the literal holds only characters of the run's class, and the cursor ends
   * on the first character outside the run (or at the end of input).
   */
  lemma {:induction false} RunToken(s: string, c: nat)
    requires c <= |s|
    requires RunEnd(s, c, Space) < |s|
    requires IsLetter(s[RunEnd(s, c, Space)]) || Numerals.IsDigit(s[RunEnd(s, c, Space)])
    ensures var i := RunEnd(s, c, Space);
            var k := if IsLetter(s[i]) then Letter else Digit;
            var r := Scan(s, c);
            && r.next == RunEnd(s, i, k)
            && (r.next == |s| || !InClass(s[r.next], k))
            && (forall j :: 0 <= j < |r.token.literal| ==> InClass(r.token.literal[j], k))
            && r.token.kind == (if k == Letter then LookupTokenType(r.token.literal) else Int)
  {
    var i := RunEnd(s, c, Space);
    var k := if IsLetter(s[i]) then Letter else Digit;
    RunScan(s, c);
    RunLiteralInClass(s, i, k);
  }

  /** The text a run started at `i` is returned as holds only characters of the run's class. */
  lemma {:induction false} RunLiteralInClass(s: string, i: nat, k: CharClass)
    requires i < |s| && InClass(s[i], k)
    ensures i <= RunStop(s, RunEnd(s, i, k)) <= RunEnd(s, i, k)
    ensures var literal := s[i..RunStop(s, RunEnd(s, i, k))];
            forall j :: 0 <= j < |literal| ==> InClass(literal[j], k)
  {
    var e := RunEnd(s, i, k);
    RunEndInClass(s, i, k);
    var literal := s[i..RunStop(s, e)];
    forall j | 0 <= j < |literal|
      ensures InClass(literal[j], k)
    {
      assert literal[j] == s[i + j] && i <= i + j < e;
    }
  }

  /**
   * A run that stops before the end of input is returned whole; a run that
   * reaches the end of input is returned without its last character, so a
   * one-character run at the end comes back empty.
   */
  lemma {:induction false} RunTruncatedAtEnd(s: string, c: nat)
    requires c <= |s|
    requires RunEnd(s, c, Space) < |s|
    requires IsLetter(s[RunEnd(s, c, Space)]) || Numerals.IsDigit(s[RunEnd(s, c, Space)])
    ensures var i := RunEnd(s, c, Space);
            var r := Scan(s, c);
            && (r.next < |s| ==> r.token.literal == s[i..r.next])
            && (r.next == |s| ==> r.token.literal == s[i..|s| - 1])
            && (r.next == |s| && i == |s| - 1 ==> r.token.literal == "")
  {
    var i := RunEnd(s, c, Space);
    assert SingleCharKind(s[i]).None?;
    assert IsLetter(s[i]) ==> !Numerals.IsDigit(s[i]);
  }

  /** Examples of the truncation: a lone `5` lexes as an empty Int, `x` as an empty identifier. */
  lemma {:induction false} TruncationExamples(five: string, x: string)
    requires five == "5" && x == "x"
    ensures Scan(five, 0) == Scanned(Token(Int, ""), 1)
    ensures Scan(x, 0) == Scanned(Token(Ident, ""), 1)
  {
    assert RunEnd(five, 1, Digit) == 1;
    assert RunEnd(five, 0, Space) == 0;
    RunScan(five, 0);
    assert RunEnd(x, 1, Letter) == 1;
    assert RunEnd(x, 0, Space) == 0;
    RunScan(x, 0);
    assert x[0..0] == "";
    LookupIsExact();
  }

  /** A run that reaches the end of input loses its last character: `abc` alone lexes as `ab`. */
  lemma {:induction false} RunAtEndExample(abc: string)
    requires abc == "abc"
    ensures Scan(abc, 0) == Scanned(Token(Ident, "ab"), 3)
  {
    assert RunEnd(abc, 3, Letter) == 3;
    assert RunEnd(abc, 2, Letter) == 3;
    assert RunEnd(abc, 1, Letter) == 3;
    assert RunEnd(abc, 0, Space) == 0;
    RunScan(abc, 0);
    assert abc[0..2] == "ab";
    assert LookupTokenType("ab") == Ident;
  }

  /** A run followed by more input is returned whole: `abc ` lexes as `abc`. */
  lemma {:induction false} WholeRunExample(abcSpace: string)
    requires abcSpace == "abc "
    ensures Scan(abcSpace, 0) == Scanned(Token(Ident, "abc"), 3)
  {
    assert RunEnd(abcSpace, 3, Letter) == 3;
    assert RunEnd(abcSpace, 2, Letter) == 3;
    assert RunEnd(abcSpace, 1, Letter) == 3;
    assert RunEnd(abcSpace, 0, Space) == 0;
    RunScan(abcSpace, 0);
    assert abcSpace[0..3] == "abc";
    assert LookupTokenType("abc") == Ident;
  }

  // ---------------------------------------------------------------------------
  // Properties of the token stream

  /** At the end of input the lexer answers Eof and leaves the cursor where it is, call after call. */
  lemma {:induction false} AtEndOfInput(s: string)
    ensures Scan(s, |s|) == Scanned(Token(Eof, ""), |s|)
    ensures Lex(s, |s|) == [Token(Eof, "")]
  {
  }

  /** Eof ends the stream and occurs nowhere before its end. */
  lemma {:induction false} EofOnlyAtEnd(s: string, c: nat)
    requires c <= |s|
    ensures forall k :: 0 <= k < |Lex(s, c)| - 1 ==> Lex(s, c)[k].kind != Eof
    decreases |s| - c
  {
    var r := Scan(s, c);
    if r.token.kind != Eof {
      EofOnlyAtEnd(s, r.next);
      var tail := Lex(s, r.next);
      assert Lex(s, c) == [r.token] + tail;
      forall k | 0 <= k < |Lex(s, c)| - 1
        ensures Lex(s, c)[k].kind != Eof
      {
        if k > 0 {
          assert Lex(s, c)[k] == tail[k - 1];
        }
      }
    }
  }

  /**
   * The cursor before each call from `c`, up to the call that returns Eof,
   * followed by the cursor after that call (the end of input).
   */
  function Cursors(s: string, c: nat): (cs: seq<nat>)
    requires c <= |s|
    ensures |cs| >= 2 && cs[0] == c && cs[|cs| - 1] == |s|
    decreases |s| - c
  {
    var r := Scan(s, c);
    if r.token.kind == Eof then [c, |s|] else [c] + Cursors(s, r.next)
  }

  /**
   * There is one cursor more than tokens; call `k` from `c` starts at cursor
   * `k`, returns token `k` of the stream and leaves the cursor at entry `k + 1`.
   */
  lemma {:induction false} LexCursor(s: string, c: nat, k: nat)
    requires c <= |s|
    ensures |Cursors(s, c)| == |Lex(s, c)| + 1
    ensures k < |Lex(s, c)| ==>
              && Cursors(s, c)[k] <= |s|
              && Scan(s, Cursors(s, c)[k]) == Scanned(Lex(s, c)[k], Cursors(s, c)[k + 1])
    decreases |s| - c
  {
    var r := Scan(s, c);
    if r.token.kind != Eof {
      var cs, ts := Cursors(s, r.next), Lex(s, r.next);
      LexCursor(s, r.next, if k > 0 then k - 1 else 0);
      assert Cursors(s, c) == [c] + cs;
      assert Lex(s, c) == [r.token] + ts;
      if 0 < k < |Lex(s, c)| {
        assert Cursors(s, c)[k] == cs[k - 1] && Cursors(s, c)[k + 1] == cs[k] && Lex(s, c)[k] == ts[k - 1];
      }
    }
  }

  /**
   * Conversely, calls that return the non-Eof tokens `ts` one after the
   * other, the cursor moving through `cs` until only whitespace is left, lex
   * to `ts` followed by Eof.
   */
  lemma {:induction false} LexFromScans(s: string, cs: seq<nat>, ts: seq<Token>)
    requires |cs| == |ts| + 1
    requires forall j :: 0 <= j < |cs| ==> cs[j] <= |s|
    requires RunEnd(s, cs[|ts|], Space) == |s|
    requires forall j :: 0 <= j < |ts| ==> Scan(s, cs[j]) == Scanned(ts[j], cs[j + 1]) && ts[j].kind != Eof
    ensures Lex(s, cs[0]) == ts + [Token(Eof, "")]
  {
    LexFromScansAt(s, cs, ts, 0);
    assert ts[0..] == ts;
  }

  /** The same, from the `k`-th call on. */
  lemma {:induction false} LexFromScansAt(s: string, cs: seq<nat>, ts: seq<Token>, k: nat)
    requires |cs| == |ts| + 1 && k <= |ts|
    requires forall j :: 0 <= j < |cs| ==> cs[j] <= |s|
    requires RunEnd(s, cs[|ts|], Space) == |s|
    requires forall j :: 0 <= j < |ts| ==> Scan(s, cs[j]) == Scanned(ts[j], cs[j + 1]) && ts[j].kind != Eof
    ensures Lex(s, cs[k]) == ts[k..] + [Token(Eof, "")]
    decreases |ts| - k
  {
    if k == |ts| {
      assert Scan(s, cs[k]).token.kind == Eof;
      assert ts[k..] == [];
    } else {
      LexFromScansAt(s, cs, ts, k + 1);
      LexStep(s, cs[k], ts[k], cs[k + 1]);
      FrontThenRest(ts, k, Token(Eof, ""));
    }
  }

  /** Element `k` of `xs` followed by the rest of `xs` and `y`. */
  lemma FrontThenRest<T>(xs: seq<T>, k: nat, y: T)
    requires k < |xs|
    ensures xs[k..] + [y] == [xs[k]] + (xs[k + 1..] + [y])
  {
  }

  /** A call that returns a token other than Eof puts it in front of the tokens the later calls return. */
  lemma {:induction false} LexStep(s: string, c: nat, t: Token, next: nat)
    requires c <= |s| && Scan(s, c) == Scanned(t, next) && t.kind != Eof
    ensures next <= |s| && Lex(s, c) == [t] + Lex(s, next)
  {
  }

  /** Every cursor lies within the input. */
  lemma {:induction false} CursorsInRange(s: string, c: nat)
    requires c <= |s|
    ensures forall k :: 0 <= k < |Cursors(s, c)| ==> c <= Cursors(s, c)[k] <= |s|
    decreases |s| - c
  {
    var r := Scan(s, c);
    if r.token.kind != Eof {
      CursorsInRange(s, r.next);
      assert Cursors(s, c) == [c] + Cursors(s, r.next);
    }
  }

  /** A character of no class that is not one of the nine, met at the cursor, comes back alone as an Illegal token. */
  lemma {:induction false} IllegalAt(s: string, c: nat)
    requires c < |s|
    requires !IsSpace(s[c]) && !IsLetter(s[c]) && !Numerals.IsDigit(s[c]) && SingleCharKind(s[c]).None?
    ensures Scan(s, c) == Scanned(Token(Illegal, [s[c]]), c + 1)
  {
    assert RunEnd(s, c, Space) == c;
    OneCharToken(s, c);
  }

  /**
   * The lexer's own test: `¡¿@` lexes as three Illegal tokens, one per
   * character, and then Eof.
   */
  lemma {:induction false} IllegalCharactersExample(s: string)
    requires s == "¡¿@"
    ensures Scan(s, 0) == Scanned(Token(Illegal, "¡"), 1)
    ensures Scan(s, 1) == Scanned(Token(Illegal, "¿"), 2)
    ensures Scan(s, 2) == Scanned(Token(Illegal, "@"), 3)
    ensures Scan(s, 3) == Scanned(Token(Eof, ""), 3)
  {
    assert s[0] == '¡' && s[1] == '¿' && s[2] == '@' && |s| == 3;
    IllegalAt(s, 0);
    IllegalAt(s, 1);
    IllegalAt(s, 2);
    AtEndOfInput(s);
  }

  // ---------------------------------------------------------------------------
  // The lexer object

  class Lexer {
    const source: string
    var character: Option<char>
    var position: nat
    var readPosition: nat

    /**
     * The cursor invariant: the current character is the one at `position`,
     * `readPosition` is one past it; at end of input the current character is
     * empty, `readPosition` is the length and `position` stays on the last index.
     */
    ghost predicate Valid()
      reads this
    {
      match character
      case Some(ch) =>
        position < |source| && ch == source[position] && readPosition == position + 1
      case None =>
        readPosition == |source| && position == (if |source| == 0 then 0 else |source| - 1)
    }

    /** The index of the current character, `|source|` at end of input. */
    ghost function Cursor(): (c: nat)
      reads this
      requires Valid()
      ensures c <= |source|
      ensures character == (if c < |source| then Some(source[c]) else None)
    {
      if character.Some? then position else |source|
    }

    constructor (source: string)
      ensures Valid() && this.source == source && Cursor() == 0
    {
      this.source := source;
      character := None;
      readPosition := 0;
      position := 0;
      new;
      ReadCharacter();
    }

    method ReadCharacter()
      requires readPosition <= |source|
      requires position < readPosition || readPosition == 0
      modifies this
      ensures old(readPosition) >= |source| ==>
                character == None && position == old(position) && readPosition == old(readPosition)
      ensures old(readPosition) < |source| ==>
                && character == Some(source[old(readPosition)])
                && position == old(readPosition)
                && readPosition == old(readPosition) + 1
      ensures old(Valid()) ==> Valid() && Cursor() == if old(Cursor()) < |source| then old(Cursor()) + 1 else |source|
      ensures old(readPosition) == 0 && old(position) == 0 ==> Valid() && Cursor() == 0
    {
      if readPosition >= |source| {
        character := None;
      } else {
        character := Some(source[readPosition]);
        position := readPosition;
        readPosition := readPosition + 1;
      }
    }

    method SkipWhitespace()
      requires Valid()
      modifies this
      ensures Valid() && Cursor() == RunEnd(source, old(Cursor()), Space)
    {
      ghost var target := RunEnd(source, Cursor(), Space);
      while Matches(character, Space)
        invariant Valid()
        invariant old(Cursor()) <= Cursor() <= target
        invariant RunEnd(source, Cursor(), Space) == target
        decreases |source| - Cursor()
      {
        ReadCharacter();
      }
    }

    method ReadIdentifier() returns (literal: string)
      requires Valid() && Matches(character, Letter)
      modifies this
      ensures Valid()
      ensures Cursor() == RunEnd(source, old(Cursor()), Letter)
      ensures literal == source[old(Cursor())..RunStop(source, Cursor())]
    {
      var initialPosition := position;
      ghost var target := RunEnd(source, Cursor(), Letter);
      while Matches(character, Letter)
        invariant Valid()
        invariant initialPosition < Cursor() <= target || (Cursor() == initialPosition && character.Some?)
        invariant RunEnd(source, Cursor(), Letter) == target
        decreases |source| - Cursor()
      {
        ReadCharacter();
      }
      literal := source[initialPosition..position];
    }

    method ReadNumber() returns (literal: string)
      requires Valid() && Matches(character, Digit)
      modifies this
      ensures Valid()
      ensures Cursor() == RunEnd(source, old(Cursor()), Digit)
      ensures literal == source[old(Cursor())..RunStop(source, Cursor())]
    {
      var initialPosition := position;
      ghost var target := RunEnd(source, Cursor(), Digit);
      while Matches(character, Digit)
        invariant Valid()
        invariant initialPosition < Cursor() <= target || (Cursor() == initialPosition && character.Some?)
        invariant RunEnd(source, Cursor(), Digit) == target
        decreases |source| - Cursor()
      {
        ReadCharacter();
      }
      literal := source[initialPosition..position];
    }

    /** Returns the next token; the token and the new cursor are exactly what `Scan` prescribes. */
    method NextToken() returns (token: Token)
      requires Valid()
      modifies this
      ensures Valid()
      ensures Scanned(token, Cursor()) == Scan(source, old(Cursor()))
    {
      SkipWhitespace();

      if character == Some('=') {
        token := Token(Assign, Text(character));
      } else if character == Some('+') {
        token := Token(Plus, Text(character));
      } else if character == None {
        token := Token(Eof, Text(character));
      } else if character == Some('(') {
        token := Token(LParen, Text(character));
      } else if character == Some(')') {
        token := Token(RParen, Text(character));
      } else if character == Some('{') {
        token := Token(LBrace, Text(character));
      } else if character == Some('}') {
        token := Token(RBrace, Text(character));
      } else if character == Some(',') {
        token := Token(Comma, Text(character));
      } else if character == Some(';') {
        token := Token(Semicolon, Text(character));
      } else if Matches(character, Letter) {
        RunScan(source, old(Cursor()));
        var literal := ReadIdentifier();
        var kind := LookupTokenType(literal);
        return Token(kind, literal);
      } else if Matches(character, Digit) {
        RunScan(source, old(Cursor()));
        var literal := ReadNumber();
        return Token(Int, literal);
      } else if character == Some('<') {
        token := Token(Lt, Text(character));
      } else {
        token := Token(Illegal, Text(character));
      }

      if character.Some? {
        OneCharToken(source, old(Cursor()));
      }
      ReadCharacter();
    }
  }
}
