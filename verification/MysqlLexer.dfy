/**
 * How MySQL reads a statement (sections 9.1, 9.2 and 9.7 of the MySQL 8.0 Reference Manual, in the default SQL mode),
 * and texts laid out in pieces that are read back one by one.
 */
module MysqlLexer {
  import opened SqlPrinters
  import opened Text

  datatype Lexeme =
    | Name(name: string)
    | Literal(value: string)
    | Numeral(digits: string)
    | Word(word: string)
    | Symbol(symbol: char)

  datatype Part = Part(text: string, rest: string)

  predicate IsWordChar(c: char) { IsLetter(c) || IsDigit(c) || c == '_' || c == '$' || c >= '\U{0080}' }

  /** The rest of a backquoted name, after its opening backquote; a doubled backquote stands for one. */
  function ReadName(s: string): (r: Option<Part>)
    ensures r.Some? ==> |r.value.rest| < |s|
  {
    if s == "" then None
    else if s[0] == '`' && |s| > 1 && s[1] == '`' then
      match ReadName(s[2..]) case None => None case Some(p) => Some(Part(['`'] + p.text, p.rest))
    else if s[0] == '`' then Some(Part("", s[1..]))
    else
      match ReadName(s[1..]) case None => None case Some(p) => Some(Part([s[0]] + p.text, p.rest))
  }

  /** The character that a backslash sequence stands for. */
  function Unescaped(c: char): string {
    match c
    case '0' => "\0"
    case 'b' => "\U{0008}"
    case 'n' => "\n"
    case 'r' => "\r"
    case 't' => "\t"
    case 'Z' => "\U{001A}"
    case '%' => "\\%"
    case '_' => "\\_"
    case _ => [c]
  }

  /** The rest of a quoted string, after its opening quote. */
  function ReadLiteral(s: string, quote: char): (r: Option<Part>)
    ensures r.Some? ==> |r.value.rest| < |s|
  {
    if s == "" then None
    else if s[0] == '\\' then
      if |s| == 1 then None
      else
        match ReadLiteral(s[2..], quote) case None => None case Some(p) => Some(Part(Unescaped(s[1]) + p.text, p.rest))
    else if s[0] == quote && |s| > 1 && s[1] == quote then
      match ReadLiteral(s[2..], quote) case None => None case Some(p) => Some(Part([quote] + p.text, p.rest))
    else if s[0] == quote then Some(Part("", s[1..]))
    else
      match ReadLiteral(s[1..], quote) case None => None case Some(p) => Some(Part([s[0]] + p.text, p.rest))
  }

  function DigitsEnd(s: string, i: nat): (e: nat)
    requires i <= |s|
    ensures i <= e <= |s|
    decreases |s| - i
  {
    if i < |s| && IsDigit(s[i]) then DigitsEnd(s, i + 1) else i
  }

  /** Where the whole part and the fraction of a number end. */
  function FractionEnd(s: string): (e: nat)
    requires s != "" && IsDigit(s[0])
    ensures 0 < e <= |s|
  {
    var whole := DigitsEnd(s, 1);
    if whole < |s| && s[whole] == '.' then DigitsEnd(s, whole + 1) else whole
  }

  /** Where the exponent ends, when one starts right after the fraction. */
  function ExponentEnd(s: string, fraction: nat): (e: nat)
    requires fraction <= |s|
    ensures fraction <= e <= |s|
  {
    if fraction < |s| && (s[fraction] == 'e' || s[fraction] == 'E') then
      var sign := if fraction + 1 < |s| && (s[fraction + 1] == '+' || s[fraction + 1] == '-') then 1 else 0;
      var first := fraction + 1 + sign;
      if first < |s| && IsDigit(s[first]) then DigitsEnd(s, first) else fraction
    else fraction
  }

  /** Digits with an optional fraction and exponent. */
  function NumberEnd(s: string): (e: nat)
    requires s != "" && IsDigit(s[0])
    ensures 0 < e <= |s|
  {
    ExponentEnd(s, FractionEnd(s))
  }

  function WordEnd(s: string): (e: nat)
    ensures e <= |s|
    ensures s != "" && IsWordChar(s[0]) ==> e > 0
  {
    if s != "" && IsWordChar(s[0]) then 1 + WordEnd(s[1..]) else 0
  }

  /** What follows the end of the line. */
  function AfterLine(s: string): (rest: string)
    ensures |rest| <= |s|
  {
    if s == "" then "" else if s[0] == '\n' then s[1..] else AfterLine(s[1..])
  }

  function AfterBlock(s: string): (rest: Option<string>)
    ensures rest.Some? ==> |rest.value| < |s|
  {
    if |s| < 2 then None else if s[0] == '*' && s[1] == '/' then Some(s[2..]) else AfterBlock(s[1..])
  }

  predicate IsBlank(c: char) { '\t' <= c <= '\r' || c == ' ' }

  function Followed(first: seq<Lexeme>, rest: Option<seq<Lexeme>>): Option<seq<Lexeme>> {
    match rest case None => None case Some(lexemes) => Some(first + lexemes)
  }

  /** A comment whose content servers execute: all of them, or those from the version on that it starts with. */
  predicate StartsExecuted(s: string) { |s| > 2 && s[0] == '/' && s[1] == '*' && s[2] == '!' }

  /**
   * The lexemes of a text; `None` when a quote or a block comment stays open, or when a comment is executed. Hints are
   * comments too: they change nothing of what is read, and are hints only after the first word of a statement.
   */
  function Lex(s: string): Option<seq<Lexeme>>
    decreases |s|
  {
    if s == "" then Some([])
    else if IsBlank(s[0]) then Lex(s[1..])
    else if s[0] == '#' then Lex(AfterLine(s[1..]))
    else if s[0] == '-' && |s| > 1 && s[1] == '-' && (|s| == 2 || s[2] <= ' ') then Lex(AfterLine(s[2..]))
    else if StartsExecuted(s) then None
    else if s[0] == '/' && |s| > 1 && s[1] == '*' then
      match AfterBlock(s[2..]) case None => None case Some(rest) => Lex(rest)
    else if s[0] == '`' then
      match ReadName(s[1..]) case None => None case Some(p) => Followed([Name(p.text)], Lex(p.rest))
    else if s[0] == '\'' || s[0] == '"' then
      match ReadLiteral(s[1..], s[0]) case None => None case Some(p) => Followed([Literal(p.text)], Lex(p.rest))
    else if IsDigit(s[0]) then Followed([Numeral(s[..NumberEnd(s)])], Lex(s[NumberEnd(s)..]))
    else if IsWordChar(s[0]) then Followed([Word(s[..WordEnd(s)])], Lex(s[WordEnd(s)..]))
    else Followed([Symbol(s[0])], Lex(s[1..]))
  }

  /** An unsigned number, read as one numeral to its end. */
  predicate IsNumberText(s: string) { s != "" && IsDigit(s[0]) && NumberEnd(s) == |s| }

  // ---- Pieces ----

  datatype Piece =
    | Quoted(identifier: string)
    | Text(value: string)
    | Number(negative: bool, digits: string)
    | Keyword(word: string)
    | Mark(mark: char)
    | Blank(blank: char)
    | Remark(remark: string)

  predicate IsKeyword(word: string) {
    word != "" && IsLetter(word[0]) && forall c <- word :: IsLetter(c) || c == '_'
  }

  /** The pieces that the printers emit. */
  predicate Fine(p: Piece) {
    match p
    case Number(_, digits) => IsNumberText(digits)
    case Keyword(word) => IsKeyword(word)
    case Mark(c) => c in {'.', ',', '(', ')', '=', '?', ';'}
    case Blank(c) => IsBlank(c)
    case Remark(text) => '\n' !in text
    case _ => true
  }

  function PieceText(p: Piece): string {
    match p
    case Quoted(name) => QuoteIdentifier(name)
    case Text(value) => QuoteLiteral(value)
    case Number(negative, digits) => (if negative then "-" else "") + digits
    case Keyword(word) => word
    case Mark(c) => [c]
    case Blank(c) => [c]
    case Remark(text) => "-- " + text + "\n"
  }

  function PieceLexemes(p: Piece): seq<Lexeme> {
    match p
    case Quoted(name) => [Name(name)]
    case Text(value) => [Literal(value)]
    case Number(negative, digits) => (if negative then [Symbol('-')] else []) + [Numeral(digits)]
    case Keyword(word) => [Word(word)]
    case Mark(c) => [Symbol(c)]
    case Blank(_) => []
    case Remark(_) => []
  }

  /** A piece that ends by itself, whatever comes next. A placeholder does not, as a value will take its place. */
  predicate Closed(p: Piece) { (p.Mark? && p.mark != '?') || p.Blank? || p.Remark? }

  /** Whether one piece may directly follow another. */
  predicate Joinable(p: Piece, q: Piece) {
    || Closed(p) || q.Blank?
    || (q.Mark? && q.mark != '?' && (q.mark == '.' ==> p.Quoted?))
  }

  predicate WellSpaced(pieces: seq<Piece>) {
    && (forall p <- pieces :: Fine(p))
    && forall i :: 0 <= i < |pieces| - 1 ==> Joinable(pieces[i], pieces[i + 1])
  }

  function Flat(pieces: seq<Piece>): string {
    if pieces == [] then "" else PieceText(pieces[0]) + Flat(pieces[1..])
  }

  function Lexemes(pieces: seq<Piece>): seq<Lexeme> {
    if pieces == [] then [] else PieceLexemes(pieces[0]) + Lexemes(pieces[1..])
  }

  // ---- Reading the pieces back ----

  lemma {:induction false} NameReadBack(name: string, rest: string)
    requires rest == "" || rest[0] != '`'
    ensures ReadName(Doubled(name, '`') + "`" + rest) == Some(Part(name, rest))
  {
    var s := Doubled(name, '`') + "`" + rest;
    if name == "" {
      assert s == "`" + rest;
    } else {
      NameReadBack(name[1..], rest);
      var tail := Doubled(name[1..], '`') + "`" + rest;
      if name[0] == '`' {
        assert s == ['`', '`'] + tail;
        assert s[2..] == tail;
      } else {
        assert s == [name[0]] + tail;
        assert s[1..] == tail;
      }
      assert [name[0]] + name[1..] == name;
    }
  }

  lemma LiteralAtBackslash(s: string)
    requires |s| > 1 && s[0] == '\\' && (s[1] == '\\' || s[1] == '\'')
    ensures ReadLiteral(s, '\'')
         == match ReadLiteral(s[2..], '\'') case None => None case Some(p) => Some(Part([s[1]] + p.text, p.rest))
  {
    hide Unescaped;
    SpecialsStand(s[1]);
  }

  lemma SpecialsStand(c: char)
    requires c == '\\' || c == '\''
    ensures Unescaped(c) == [c]
  {
  }

  lemma LiteralAtPlain(s: string)
    requires s != "" && s[0] != '\\' && s[0] != '\''
    ensures ReadLiteral(s, '\'')
         == match ReadLiteral(s[1..], '\'') case None => None case Some(p) => Some(Part([s[0]] + p.text, p.rest))
  {
  }

  lemma LiteralStep(c: char, tail: string)
    ensures ReadLiteral((if c == '\\' then "\\\\" else if c == '\'' then "\\'" else [c]) + tail, '\'')
         == match ReadLiteral(tail, '\'') case None => None case Some(p) => Some(Part([c] + p.text, p.rest))
  {
    hide ReadLiteral;
    if c == '\\' || c == '\'' {
      var s := ['\\', c] + tail;
      assert s[2..] == tail;
      LiteralAtBackslash(s);
    } else {
      var s := [c] + tail;
      assert s[1..] == tail;
      LiteralAtPlain(s);
    }
  }

  lemma LiteralCloses(rest: string)
    requires rest == "" || rest[0] != '\''
    ensures ReadLiteral("'" + rest, '\'') == Some(Part("", rest))
  {
    hide Unescaped;
    var s := "'" + rest;
    assert s[1..] == rest;
  }

  lemma {:induction false} LiteralReadBack(value: string, rest: string)
    requires rest == "" || rest[0] != '\''
    ensures ReadLiteral(EscapeLiteral(value) + "'" + rest, '\'') == Some(Part(value, rest))
  {
    hide ReadLiteral;
    var s := EscapeLiteral(value) + "'" + rest;
    if value == "" {
      assert s == "'" + rest;
      LiteralCloses(rest);
    } else {
      var c := value[0];
      LiteralReadBack(value[1..], rest);
      var tail := EscapeLiteral(value[1..]) + "'" + rest;
      LiteralStep(c, tail);
      assert s == (if c == '\\' then "\\\\" else if c == '\'' then "\\'" else [c]) + tail;
      assert [c] + value[1..] == value;
    }
  }

  lemma {:induction false} DigitsEndIn(s: string, t: string, i: nat)
    requires i <= |s|
    requires t == "" || !IsDigit(t[0])
    ensures DigitsEnd(s + t, i) == DigitsEnd(s, i)
    decreases |s| - i
  {
    if i < |s| && IsDigit(s[i]) {
      DigitsEndIn(s, t, i + 1);
    }
  }

  lemma FractionReadBack(s: string, t: string)
    requires s != "" && IsDigit(s[0])
    requires t == "" || (!IsWordChar(t[0]) && t[0] != '.')
    ensures FractionEnd(s + t) == FractionEnd(s)
  {
    var whole := DigitsEnd(s, 1);
    DigitsEndIn(s, t, 1);
    if whole < |s| {
      DigitsEndIn(s, t, whole + 1);
      hide DigitsEnd;
    }
  }

  lemma ExponentReadBack(s: string, t: string, fraction: nat)
    requires fraction <= |s| && ExponentEnd(s, fraction) == |s|
    requires t == "" || (!IsWordChar(t[0]) && t[0] != '.')
    ensures ExponentEnd(s + t, fraction) == |s|
  {
    if fraction < |s| {
      var sign := if fraction + 1 < |s| && (s[fraction + 1] == '+' || s[fraction + 1] == '-') then 1 else 0;
      DigitsEndIn(s, t, fraction + 1 + sign);
      hide DigitsEnd;
    }
  }

  lemma NumberReadBack(s: string, t: string)
    requires IsNumberText(s)
    requires t == "" || (!IsWordChar(t[0]) && t[0] != '.')
    ensures NumberEnd(s + t) == |s|
  {
    hide FractionEnd, ExponentEnd;
    FractionReadBack(s, t);
    ExponentReadBack(s, t, FractionEnd(s));
  }

  lemma {:induction false} WordReadBack(w: string, t: string)
    requires forall c <- w :: IsWordChar(c)
    requires t == "" || !IsWordChar(t[0])
    ensures WordEnd(w + t) == |w|
  {
    if w == "" {
      assert w + t == t;
    } else {
      assert (w + t)[1..] == w[1..] + t;
      WordReadBack(w[1..], t);
    }
  }

  lemma {:induction false} RemarkSkipped(remark: string, t: string)
    requires '\n' !in remark
    ensures AfterLine(remark + "\n" + t) == t
  {
    var s := remark + "\n" + t;
    if remark == "" {
      assert s == "\n" + t;
    } else {
      assert s[1..] == remark[1..] + "\n" + t;
      RemarkSkipped(remark[1..], t);
    }
  }

  /** What may directly follow a piece for it to end where it was printed. */
  predicate EndsBefore(p: Piece, t: string) {
    || Closed(p)
    || t == ""
    || (!IsWordChar(t[0]) && t[0] != '`' && t[0] != '\'' && (t[0] == '.' ==> p.Quoted?))
  }

  lemma LexAtBackquote(s: string)
    requires s != "" && s[0] == '`'
    ensures Lex(s) == match ReadName(s[1..]) case None => None case Some(p) => Followed([Name(p.text)], Lex(p.rest))
  {
    hide ReadName, ReadLiteral, NumberEnd, WordEnd, AfterLine, AfterBlock, Followed;
  }

  lemma LexAtQuote(s: string)
    requires s != "" && s[0] == '\''
    ensures Lex(s)
         == match ReadLiteral(s[1..], '\'') case None => None case Some(p) => Followed([Literal(p.text)], Lex(p.rest))
  {
    hide ReadName, ReadLiteral, NumberEnd, WordEnd, AfterLine, AfterBlock, Followed;
  }

  lemma LexAtMinus(s: string)
    requires |s| > 1 && s[0] == '-' && s[1] != '-'
    ensures Lex(s) == Followed([Symbol('-')], Lex(s[1..]))
  {
    hide ReadName, ReadLiteral, NumberEnd, WordEnd, AfterLine, AfterBlock, Followed;
  }

  lemma LexQuoted(name: string, t: string)
    requires t == "" || t[0] != '`'
    ensures Lex(QuoteIdentifier(name) + t) == Followed([Name(name)], Lex(t))
  {
    hide Doubled, ReadName, Lex;
    var s := QuoteIdentifier(name) + t;
    LexAtBackquote(s);
    NameReadBack(name, t);
    assert s[1..] == Doubled(name, '`') + "`" + t;
  }

  lemma LexText(value: string, t: string)
    requires t == "" || t[0] != '\''
    ensures Lex(QuoteLiteral(value) + t) == Followed([Literal(value)], Lex(t))
  {
    hide EscapeLiteral, ReadLiteral, Lex;
    var s := QuoteLiteral(value) + t;
    LexAtQuote(s);
    LiteralReadBack(value, t);
    assert s[1..] == EscapeLiteral(value) + "'" + t;
  }

  lemma LexDigits(digits: string, t: string)
    requires IsNumberText(digits)
    requires t == "" || (!IsWordChar(t[0]) && t[0] != '.')
    ensures Lex(digits + t) == Followed([Numeral(digits)], Lex(t))
  {
    NumberReadBack(digits, t);
    assert (digits + t)[..|digits|] == digits && (digits + t)[|digits|..] == t;
    hide NumberEnd;
  }

  lemma LexNegative(digits: string, t: string)
    requires IsNumberText(digits)
    requires t == "" || (!IsWordChar(t[0]) && t[0] != '.')
    ensures Lex("-" + digits + t) == Followed([Symbol('-'), Numeral(digits)], Lex(t))
  {
    hide NumberEnd, Lex, IsWordChar;
    LexDigits(digits, t);
    var s := "-" + digits + t;
    assert s[0] == '-' && s[1] == digits[0];
    assert s[1..] == digits + t;
    LexAtMinus(s);
    if Lex(t).Some? {
      assert [Symbol('-')] + ([Numeral(digits)] + Lex(t).value) == [Symbol('-'), Numeral(digits)] + Lex(t).value;
    }
  }

  lemma LexNumber(negative: bool, digits: string, t: string)
    requires IsNumberText(digits)
    requires t == "" || (!IsWordChar(t[0]) && t[0] != '.')
    ensures Lex(PieceText(Number(negative, digits)) + t)
         == Followed(PieceLexemes(Number(negative, digits)), Lex(t))
  {
    hide NumberEnd, Lex, IsWordChar, Followed, IsNumberText;
    if negative {
      LexNegative(digits, t);
      assert PieceLexemes(Number(negative, digits)) == [Symbol('-'), Numeral(digits)];
    } else {
      LexDigits(digits, t);
      assert PieceText(Number(negative, digits)) == digits;
      assert PieceLexemes(Number(negative, digits)) == [Numeral(digits)];
    }
  }

  lemma LexKeyword(word: string, t: string)
    requires IsKeyword(word)
    requires t == "" || !IsWordChar(t[0])
    ensures Lex(word + t) == Followed([Word(word)], Lex(t))
  {
    WordReadBack(word, t);
    assert word[0] in word;
    assert (word + t)[..|word|] == word && (word + t)[|word|..] == t;
    hide WordEnd;
  }

  lemma LexRemark(remark: string, t: string)
    requires '\n' !in remark
    ensures Lex("-- " + remark + "\n" + t) == Lex(t)
  {
    var s := "-- " + remark + "\n" + t;
    assert s[2..] == (" " + remark) + "\n" + t;
    RemarkSkipped(" " + remark, t);
    hide AfterLine;
  }

  /** A piece followed by something it ends before is read as printed, and reading goes on right after it. */
  lemma LexPiece(p: Piece, t: string)
    requires Fine(p) && EndsBefore(p, t)
    ensures Lex(PieceText(p) + t) == Followed(PieceLexemes(p), Lex(t))
  {
    match p
    case Quoted(name) => LexQuoted(name, t);
    case Text(value) => LexText(value, t);
    case Number(negative, digits) => LexNumber(negative, digits, t);
    case Keyword(word) => LexKeyword(word, t);
    case Mark(c) =>
      assert ([c] + t)[1..] == t;
    case Blank(c) =>
      assert ([c] + t)[1..] == t;
      if Lex(t).Some? {
        assert [] + Lex(t).value == Lex(t).value;
      }
    case Remark(text) =>
      LexRemark(text, t);
      if Lex(t).Some? {
        assert [] + Lex(t).value == Lex(t).value;
      }
  }

  lemma PieceEnds(pieces: seq<Piece>)
    requires WellSpaced(pieces) && pieces != []
    ensures Fine(pieces[0]) && WellSpaced(pieces[1..]) && EndsBefore(pieces[0], Flat(pieces[1..]))
  {
    hide NumberEnd, Doubled, EscapeLiteral;
    var rest := pieces[1..];
    if rest != [] {
      assert Flat(rest) == PieceText(rest[0]) + Flat(rest[1..]);
      assert rest[0] == pieces[1] && Fine(pieces[1]);
      assert WellSpaced(rest) by {
        forall i | 0 <= i < |rest| - 1
          ensures Joinable(rest[i], rest[i + 1])
        {
          assert rest[i] == pieces[i + 1] && rest[i + 1] == pieces[i + 2];
        }
      }
      if !Closed(pieces[0]) {
        assert PieceText(rest[0])[0] == Flat(rest)[0];
      }
    }
  }

  /** Well spaced pieces are read back piece by piece. */
  lemma {:induction false} LexPieces(pieces: seq<Piece>)
    requires WellSpaced(pieces)
    ensures Lex(Flat(pieces)) == Some(Lexemes(pieces))
  {
    if pieces != [] {
      hide Lex;
      var rest := pieces[1..];
      LexPieces(rest);
      PieceEnds(pieces);
      LexPiece(pieces[0], Flat(rest));
    } else {
      assert Flat(pieces) == "";
    }
  }

  // ---- Putting pieces together ----

  /** Two laid out texts may be put side by side. */
  predicate Meet(a: seq<Piece>, b: seq<Piece>) { a == [] || b == [] || Joinable(a[|a| - 1], b[0]) }

  lemma Glue(a: seq<Piece>, b: seq<Piece>)
    requires WellSpaced(a) && WellSpaced(b) && Meet(a, b)
    ensures WellSpaced(a + b)
  {
    hide Fine, Joinable;
    var both := a + b;
    forall p | p in both
      ensures Fine(p)
    {
      assert p in a || p in b;
    }
    forall i | 0 <= i < |both| - 1
      ensures Joinable(both[i], both[i + 1])
    {
      if i < |a| - 1 {
        assert both[i] == a[i] && both[i + 1] == a[i + 1];
      } else if i >= |a| {
        assert both[i] == b[i - |a|] && both[i + 1] == b[i + 1 - |a|];
      }
    }
  }

  lemma {:induction false} FlatOfTwo(a: seq<Piece>, b: seq<Piece>)
    ensures Flat(a + b) == Flat(a) + Flat(b)
    ensures Lexemes(a + b) == Lexemes(a) + Lexemes(b)
  {
    hide PieceText, PieceLexemes;
    if a == [] {
      assert a + b == b;
    } else {
      assert (a + b)[1..] == a[1..] + b;
      FlatOfTwo(a[1..], b);
    }
  }

  // ---- Texts with their pieces and lexemes ----

  /** A text that is laid out in pieces and read as some lexemes. */
  ghost predicate Reads(pieces: seq<Piece>, text: string, lexemes: seq<Lexeme>) {
    WellSpaced(pieces) && Flat(pieces) == text && Lexemes(pieces) == lexemes
  }

  lemma ReadsOn(
    a: seq<Piece>, s: string, x: seq<Lexeme>, b: seq<Piece>, t: string, y: seq<Lexeme>)
    requires Reads(a, s, x) && Reads(b, t, y) && Meet(a, b)
    ensures Reads(a + b, s + t, x + y)
  {
    Glue(a, b);
    FlatOfTwo(a, b);
    hide Flat, Lexemes, WellSpaced, Meet;
  }

  lemma ReadsOne(p: Piece)
    requires Fine(p)
    ensures Reads([p], PieceText(p), PieceLexemes(p))
  {
    hide PieceText, PieceLexemes, Fine;
    assert [p][1..] == [];
    assert Flat([p]) == PieceText(p);
    assert Lexemes([p]) == PieceLexemes(p);
    assert WellSpaced([p]);
  }

  lemma ReadsBack(pieces: seq<Piece>, text: string, lexemes: seq<Lexeme>)
    requires Reads(pieces, text, lexemes)
    ensures Lex(text) == Some(lexemes)
  {
    hide Lex, WellSpaced, Flat, Lexemes;
    LexPieces(pieces);
  }

  lemma NothingReads()
    ensures Reads([], "", [])
  {
  }

  // ---- Numerals ----

  lemma {:induction false} AllDigitsEnd(s: string, i: nat)
    requires i <= |s| && forall c <- s :: IsDigit(c)
    ensures DigitsEnd(s, i) == |s|
    decreases |s| - i
  {
    if i < |s| { AllDigitsEnd(s, i + 1); }
  }

  lemma DecimalIsNumber(n: nat)
    ensures IsNumberText(Decimal(n))
  {
    AllDigitsEnd(Decimal(n), 1);
    hide Decimal;
  }
}
