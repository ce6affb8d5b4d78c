/**
 * Token model of the interpreter (lp/token.py): the closed set of token kinds,
 * the immutable (kind, literal) pair, its textual rendering, and the keyword
 * lookup that turns an identifier-shaped literal into a keyword kind.
 */
module Tokens {
  import opened Wrappers

  /** The token kinds, one constructor per enumeration member. */
  datatype TokenType =
    | Assign | Comma | Division | Else | Eof | Eq | False | Function | Gt
    | GreaterOrEq | Ident | If | Illegal | Int | LBrace | Let | LParen
    | LessOrEq | Lt | Minus | Mod | Multiplication | Negation | NotEq | Plus
    | RBrace | RParen | Return | Semicolon | True | String

  /** A token is an immutable pair compared structurally. */
  datatype Token = Token(kind: TokenType, literal: string)

  /** The enumeration member's name as the source spells it (including ASSING and the other originals). */
  function KindName(k: TokenType): string
  {
    match k
    case Assign => "ASSING"
    case Comma => "COMMA"
    case Division => "DIVISION"
    case Else => "ELSE"
    case Eof => "EOF"
    case Eq => "EQ"
    case False => "FALSE"
    case Function => "FUNCTION"
    case Gt => "GT"
    case GreaterOrEq => "G_OR_EQ"
    case Ident => "IDENT"
    case If => "IF"
    case Illegal => "ILLEGAL"
    case Int => "INT"
    case LBrace => "LBRACE"
    case Let => "LET"
    case LParen => "LPAREN"
    case LessOrEq => "L_OR_EQ"
    case Lt => "LT"
    case Minus => "MINUS"
    case Mod => "MOD"
    case Multiplication => "MULTIPLICATION"
    case Negation => "NEGATION"
    case NotEq => "NOT_EQ"
    case Plus => "PLUS"
    case RBrace => "RBRACE"
    case RParen => "RPAREN"
    case Return => "RETURN"
    case Semicolon => "SEMICOLON"
    case True => "TRUE"
    case String => "STRING"
  }

  /** How a kind prints inside a formatted string: the class name, a dot, the member name. */
  function KindRepr(k: TokenType): string
  {
    KindClassPrefix + KindName(k)
  }

  const KindClassPrefix: string := "TokenType."

  /** Reverse of KindName: the kind whose member name is `name`, if any (dispatching on the first letter). */
  function KindFromName(name: string): Option<TokenType>
  {
    if name == [] then None
    else match name[0]
      case 'A' =>
        if name == "ASSING" then Some(Assign)
        else None
      case 'C' =>
        if name == "COMMA" then Some(Comma)
        else None
      case 'D' =>
        if name == "DIVISION" then Some(Division)
        else None
      case 'E' =>
        if name == "ELSE" then Some(Else)
        else if name == "EOF" then Some(Eof)
        else if name == "EQ" then Some(Eq)
        else None
      case 'F' =>
        if name == "FALSE" then Some(False)
        else if name == "FUNCTION" then Some(Function)
        else None
      case 'G' =>
        if name == "GT" then Some(Gt)
        else if name == "G_OR_EQ" then Some(GreaterOrEq)
        else None
      case 'I' =>
        if name == "IDENT" then Some(Ident)
        else if name == "IF" then Some(If)
        else if name == "ILLEGAL" then Some(Illegal)
        else if name == "INT" then Some(Int)
        else None
      case 'L' =>
        if name == "LBRACE" then Some(LBrace)
        else if name == "LET" then Some(Let)
        else if name == "LPAREN" then Some(LParen)
        else if name == "L_OR_EQ" then Some(LessOrEq)
        else if name == "LT" then Some(Lt)
        else None
      case 'M' =>
        if name == "MINUS" then Some(Minus)
        else if name == "MOD" then Some(Mod)
        else if name == "MULTIPLICATION" then Some(Multiplication)
        else None
      case 'N' =>
        if name == "NEGATION" then Some(Negation)
        else if name == "NOT_EQ" then Some(NotEq)
        else None
      case 'P' =>
        if name == "PLUS" then Some(Plus)
        else None
      case 'R' =>
        if name == "RBRACE" then Some(RBrace)
        else if name == "RPAREN" then Some(RParen)
        else if name == "RETURN" then Some(Return)
        else None
      case 'S' =>
        if name == "SEMICOLON" then Some(Semicolon)
        else if name == "STRING" then Some(String)
        else None
      case 'T' =>
        if name == "TRUE" then Some(True)
        else None
      case _ => None
  }

  /** Member names are upper-case words joined by underscores: never a comma. */
  lemma KindNameHasNoComma(k: TokenType)
    ensures ',' !in KindName(k)
  {
  }

  /** Every kind is recovered from its member name, so distinct kinds have distinct names. */
  lemma KindNameRoundTrip(k: TokenType)
    ensures KindFromName(KindName(k)) == Some(k)
  {
  }

  /** The rendering of a token: `Type: <kind>, Literal: <literal>`. */
  function TokenString(t: Token): string
  {
    "Type: " + KindRepr(t.kind) + ", Literal: " + t.literal
  }

  const RenderedPrefix: string := "Type: " + KindClassPrefix
  const LiteralSeparator: string := ", Literal: "

  /** The index of the first `c` in `s`, or `|s|` when there is none. */
  function IndexOf(s: string, c: char): (n: nat)
    ensures n <= |s|
    ensures n < |s| ==> s[n] == c
    ensures forall j :: 0 <= j < n ==> s[j] != c
  {
    if s == [] then 0
    else if s[0] == c then 0
    else 1 + IndexOf(s[1..], c)
  }

  /**
   * Reads a rendered token back. The member name ends at the first comma,
   * since no member name contains one.
   */
  function ParseTokenString(text: string): Option<Token>
  {
    if |text| < |RenderedPrefix| || text[..|RenderedPrefix|] != RenderedPrefix then None
    else
      var rest := text[|RenderedPrefix|..];
      var n := IndexOf(rest, ',');
      match KindFromName(rest[..n])
      case None => None
      case Some(k) =>
        var tail := rest[n..];
        if |tail| < |LiteralSeparator| || tail[..|LiteralSeparator|] != LiteralSeparator then None
        else Some(Token(k, tail[|LiteralSeparator|..]))
  }

  /** The rendering loses nothing: kind and literal are read back from it. */
  lemma {:induction false} TokenStringRoundTrip(t: Token)
    ensures ParseTokenString(TokenString(t)) == Some(t)
  {
    KindNameHasNoComma(t.kind);
    KindNameRoundTrip(t.kind);
    ParseRendered(KindName(t.kind), t.kind, t.literal);
  }

  lemma {:induction false} ParseRendered(name: string, k: TokenType, literal: string)
    requires ',' !in name && KindFromName(name) == Some(k) && KindName(k) == name
    ensures ParseTokenString(TokenString(Token(k, literal))) == Some(Token(k, literal))
  {
    RenderedSplit(k, name, literal);
    ReadBackAfterName(name, literal);
    SeparatorSplit(literal);
  }

  lemma {:induction false} RenderedSplit(k: TokenType, name: string, literal: string)
    requires KindName(k) == name
    ensures var text := TokenString(Token(k, literal));
            && |text| >= |RenderedPrefix|
            && text[..|RenderedPrefix|] == RenderedPrefix
            && text[|RenderedPrefix|..] == name + LiteralSeparator + literal
  {
    var text := TokenString(Token(k, literal));
    var rest := name + LiteralSeparator + literal;
    Regroup("Type: ", KindClassPrefix, name, LiteralSeparator, literal);
    assert text == RenderedPrefix + rest;
    PrefixSplit(RenderedPrefix, rest);
  }

  /** Concatenation regrouped: the first two pieces and the last three. */
  lemma {:induction false} Regroup(a: string, b: string, c: string, d: string, e: string)
    ensures a + (b + c) + d + e == (a + b) + (c + d + e)
  {
  }

  /** A concatenation splits back into its two parts. */
  lemma {:induction false} PrefixSplit(p: string, q: string)
    ensures (p + q)[..|p|] == p && (p + q)[|p|..] == q
  {
  }

  lemma {:induction false} SeparatorSplit(literal: string)
    ensures var tail := LiteralSeparator + literal;
            && tail[..|LiteralSeparator|] == LiteralSeparator
            && tail[|LiteralSeparator|..] == literal
  {
  }

  lemma {:induction false} ReadBackAfterName(name: string, literal: string)
    requires ',' !in name
    ensures var rest := name + LiteralSeparator + literal;
            && IndexOf(rest, ',') == |name|
            && rest[..|name|] == name
            && rest[|name|..] == LiteralSeparator + literal
  {
    var rest := name + LiteralSeparator + literal;
    assert rest[|name|] == ',';
    assert forall j :: 0 <= j < |name| ==> rest[j] == name[j];
    assert rest[..|name|] == name;
  }

  /** Two tokens render alike exactly when they are equal. */
  lemma {:induction false} TokenStringInjective(t1: Token, t2: Token)
    ensures TokenString(t1) == TokenString(t2) <==> t1 == t2
  {
    if TokenString(t1) == TokenString(t2) {
      TokenStringRoundTrip(t1);
      TokenStringRoundTrip(t2);
    }
  }

  /** Token equality is structural: same kind and same literal. */
  lemma TokenEquality(t1: Token, t2: Token)
    ensures t1 == t2 <==> t1.kind == t2.kind && t1.literal == t2.literal
  {
  }

  /** The reserved words and the kinds they stand for, in the order of the source's dictionary. */
  const KeywordEntries: seq<(string, TokenType)> :=
    [ ("falso", False)
    , ("procedimiento", Function)
    , ("regresa", Return)
    , ("si", If)
    , ("si_no", Else)
    , ("variable", Let)
    , ("verdadero", True) ]

  predicate IsKeywordKind(k: TokenType)
  {
    k in {False, Function, Return, If, Else, Let, True}
  }

  /** The kind `literal` is paired with in `entries` from index `j` on, if any: a dictionary lookup. */
  function Find(entries: seq<(string, TokenType)>, literal: string, j: nat): (k: Option<TokenType>)
    ensures k.Some? ==> (literal, k.value) in entries
    decreases |entries| - j
  {
    if j >= |entries| then None
    else if entries[j].0 == literal then Some(entries[j].1)
    else Find(entries, literal, j + 1)
  }

  /** The kind of an identifier-shaped literal: its keyword kind, or Ident. */
  function LookupTokenType(literal: string): (k: TokenType)
    ensures k != Ident ==> (literal, k) in KeywordEntries
  {
    match Find(KeywordEntries, literal, 0)
    case Some(kind) => kind
    case None => Ident
  }

  /** The reserved word of a keyword kind (the inverse of the keyword table). */
  function KeywordLiteral(k: TokenType): (w: Option<string>)
    ensures w.Some? <==> IsKeywordKind(k)
  {
    match k
    case False => Some("falso")
    case Function => Some("procedimiento")
    case Return => Some("regresa")
    case If => Some("si")
    case Else => Some("si_no")
    case Let => Some("variable")
    case True => Some("verdadero")
    case _ => None
  }

  /** No reserved word is listed twice. */
  lemma KeywordsDistinct()
    ensures forall i, j :: 0 <= i < j < |KeywordEntries| ==> KeywordEntries[i].0 != KeywordEntries[j].0
  {
  }

  /** A lookup from `from` finds the first entry from there on whose key is `literal`. */
  lemma {:induction false} FindFirst(entries: seq<(string, TokenType)>, from: nat, j: nat, literal: string)
    requires from <= j < |entries| && entries[j].0 == literal
    requires forall i :: from <= i < j ==> entries[i].0 != literal
    ensures Find(entries, literal, from) == Some(entries[j].1)
    decreases j - from
  {
    if from < j {
      FindFirst(entries, from + 1, j, literal);
    }
  }

  /** Each reserved word maps to its own kind. */
  lemma KeywordTable()
    ensures forall j :: 0 <= j < |KeywordEntries| ==> LookupTokenType(KeywordEntries[j].0) == KeywordEntries[j].1
  {
    KeywordsDistinct();
    forall j | 0 <= j < |KeywordEntries| ensures LookupTokenType(KeywordEntries[j].0) == KeywordEntries[j].1 {
      FindFirst(KeywordEntries, 0, j, KeywordEntries[j].0);
    }
  }

  /** Lookup is exact and case-sensitive: near misses and the empty literal are identifiers. */
  lemma LookupIsExact()
    ensures LookupTokenType("") == Ident
    ensures LookupTokenType("Variable") == Ident
    ensures LookupTokenType("verdadero_") == Ident
    ensures LookupTokenType("SI") == Ident
  {
  }

  /** Every keyword kind in the table comes with the word KeywordLiteral gives it. */
  lemma {:induction false} EntriesAgreeWithKeywordLiteral(literal: string, k: TokenType)
    requires (literal, k) in KeywordEntries
    ensures IsKeywordKind(k) && KeywordLiteral(k) == Some(literal)
  {
    var j :| 0 <= j < |KeywordEntries| && KeywordEntries[j] == (literal, k);
    assert j < 7;
  }

  /** A literal that looks up to a keyword kind is that kind's reserved word. */
  lemma {:induction false} LookupThenLiteral(literal: string)
    ensures LookupTokenType(literal) != Ident ==> KeywordLiteral(LookupTokenType(literal)) == Some(literal)
  {
    if LookupTokenType(literal) != Ident {
      EntriesAgreeWithKeywordLiteral(literal, LookupTokenType(literal));
    }
  }

  /** The reserved word of a keyword kind looks up to that kind. */
  lemma LiteralThenLookup(k: TokenType)
    ensures KeywordLiteral(k).Some? ==> LookupTokenType(KeywordLiteral(k).value) == k
  {
    KeywordTable();
    var j := match k
      case False => 0 case Function => 1 case Return => 2 case If => 3
      case Else => 4 case Let => 5 case True => 6 case _ => 7;
    if j < 7 {
      assert KeywordEntries[j] == (KeywordLiteral(k).value, k);
    }
  }

  /** Distinct reserved words give distinct kinds. */
  lemma {:induction false} KeywordsInjective(a: string, b: string)
    requires LookupTokenType(a) != Ident
    ensures LookupTokenType(a) == LookupTokenType(b) ==> a == b
  {
    LookupThenLiteral(a);
    LookupThenLiteral(b);
  }
}
