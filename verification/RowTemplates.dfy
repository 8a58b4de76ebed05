/** The shown statements, read by the server, are the executed templates with their parameters in place. */
module RowTemplates {
  import opened JsonValues
  import opened Text
  import opened SqlPrinters
  import opened MysqlLexer
  import opened RowStatements

  // ---- Templates in pieces ----

  /** Names, words, marks and blanks: what the builders put together. */
  ghost predicate Template(pieces: seq<Piece>) {
    WellSpaced(pieces) && forall p <- pieces :: p.Quoted? || p.Keyword? || p.Mark? || p.Blank?
  }

  function Slots(pieces: seq<Piece>): nat {
    if pieces == [] then 0 else (if pieces[0] == Mark('?') then 1 else 0) + Slots(pieces[1..])
  }

  /** No name holds a question mark. */
  predicate Unmarked(pieces: seq<Piece>) { forall p <- pieces :: p.Quoted? ==> '?' !in p.identifier }

  function ParamPiece(param: Param): Piece {
    match param
    case NullParam => Keyword("NULL")
    case BytesParam(text) => Piece.Text(text)
    case IntParam(n) => Number(n < 0, if n < 0 then Decimal(-n) else Decimal(n))
    case UIntParam(n) => Number(false, Decimal(n))
    case DoubleParam(negative, digits) => Number(negative, digits)
  }

  /** A floating point parameter prints as an unsigned number after its sign. */
  predicate ParamFine(param: Param) { param.DoubleParam? ==> IsNumberText(param.digits) }

  function Filled(pieces: seq<Piece>, params: seq<Param>): (r: seq<Piece>)
    requires Slots(pieces) == |params|
    ensures |r| == |pieces|
  {
    if pieces == [] then []
    else if pieces[0] == Mark('?') then [ParamPiece(params[0])] + Filled(pieces[1..], params[1..])
    else [pieces[0]] + Filled(pieces[1..], params)
  }

  /** Lexemes with the i-th placeholder replaced by what the i-th parameter reads as. */
  function Bound(lexemes: seq<Lexeme>, params: seq<Param>): seq<Lexeme> {
    if lexemes == [] then []
    else if lexemes[0] == Symbol('?') && params != [] then
      PieceLexemes(ParamPiece(params[0])) + Bound(lexemes[1..], params[1..])
    else [lexemes[0]] + Bound(lexemes[1..], params)
  }

  // ---- Parameters as pieces ----

  lemma ParamPieceFine(param: Param)
    requires ParamFine(param)
    ensures Fine(ParamPiece(param)) && PieceText(ParamPiece(param)) == ParamText(param)
    ensures var p := ParamPiece(param); !p.Mark? && !p.Blank? && !p.Quoted? && !Closed(p)
  {
    match param
    case IntParam(n) => DecimalIsNumber(if n < 0 then -n else n);
    case UIntParam(n) => DecimalIsNumber(n);
    case _ =>
  }

  // ---- Counting question marks ----

  lemma {:induction false} CountOfTwo(a: string, b: string, c: char)
    ensures CountOf(a + b, c) == CountOf(a, c) + CountOf(b, c)
  {
    if a == "" {
      assert a + b == b;
    } else {
      assert (a + b)[1..] == a[1..] + b;
      CountOfTwo(a[1..], b, c);
    }
  }

  lemma {:induction false} NoneToCount(s: string, c: char)
    ensures CountOf(s, c) == 0 <==> c !in s
  {
    if s != "" {
      NoneToCount(s[1..], c);
      assert s == [s[0]] + s[1..];
    }
  }

  lemma {:induction false} DoubledCount(s: string, q: char, c: char)
    requires q != c
    ensures CountOf(Doubled(s, q), c) == CountOf(s, c)
  {
    if s != "" {
      DoubledCount(s[1..], q, c);
      var head := if s[0] == q then [q, q] else [s[0]];
      assert Doubled(s, q) == head + Doubled(s[1..], q);
      CountOfTwo(head, Doubled(s[1..], q), c);
      assert head[1..] == if s[0] == q then [q] else [];
      assert [q][1..] == [];
      hide Doubled;
    }
  }

  lemma QuotedCount(name: string)
    ensures CountOf(QuoteIdentifier(name), '?') == CountOf(name, '?')
  {
    var text := Doubled(name, '`');
    DoubledCount(name, '`', '?');
    CountOfTwo("`" + text, "`", '?');
    CountOfTwo("`", text, '?');
    assert CountOf("`", '?') == 0;
    hide Doubled, CountOf;
  }

  lemma PieceCount(p: Piece)
    requires Fine(p) && (p.Quoted? || p.Keyword? || p.Mark? || p.Blank?)
    ensures CountOf(PieceText(p), '?')
         == if p == Mark('?') then 1 else if p.Quoted? then CountOf(p.identifier, '?') else 0
  {
    match p
    case Quoted(name) => QuotedCount(name);
    case Keyword(word) => NoneToCount(word, '?');
    case Mark(c) => assert [c][1..] == [];
    case Blank(c) => assert [c][1..] == [];
    case _ =>
  }

  /** The question marks of a template are its placeholders and those inside names. */
  lemma {:induction false} TemplateCount(pieces: seq<Piece>)
    requires Template(pieces)
    ensures CountOf(Flat(pieces), '?') >= Slots(pieces)
    ensures CountOf(Flat(pieces), '?') == Slots(pieces) <==> Unmarked(pieces)
  {
    if pieces != [] {
      var p, rest := pieces[0], pieces[1..];
      PieceEnds(pieces);
      assert forall q <- rest :: q in pieces;
      assert pieces == [p] + rest;
      TemplateCount(rest);
      PieceCount(p);
      CountOfTwo(PieceText(p), Flat(rest), '?');
      if p.Quoted? { NoneToCount(p.identifier, '?'); }
      hide CountOf, PieceText, WellSpaced, Fine;
      assert Unmarked(pieces) <==> Unmarked(rest) && (p.Quoted? ==> '?' !in p.identifier);
    }
  }

  // ---- Rendering a template ----

  lemma SubstitutedStep(c: char, s: string, params: seq<Param>)
    requires c != '?' && CountOf(s, '?') <= |params|
    ensures CountOf([c] + s, '?') == CountOf(s, '?')
    ensures Substituted([c] + s, params) == [c] + Substituted(s, params)
  {
    hide ParamText;
    assert ([c] + s)[1..] == s;
  }

  lemma {:induction false} SubstitutedPlain(a: string, b: string, params: seq<Param>)
    requires '?' !in a && CountOf(b, '?') <= |params|
    ensures CountOf(a + b, '?') == CountOf(b, '?')
    ensures Substituted(a + b, params) == a + Substituted(b, params)
  {
    hide Substituted, CountOf;
    if a == "" {
      assert a + b == b;
      assert "" + Substituted(b, params) == Substituted(b, params);
    } else {
      var c, rest := a[0], a[1..] + b;
      SubstitutedPlain(a[1..], b, params);
      SubstitutedStep(c, rest, params);
      assert a + b == [c] + rest;
      assert [c] + (a[1..] + Substituted(b, params)) == a + Substituted(b, params);
    }
  }

  lemma {:induction false} SubstitutedTemplate(pieces: seq<Piece>, params: seq<Param>)
    requires Template(pieces) && Unmarked(pieces) && Slots(pieces) == |params|
    requires forall param <- params :: ParamFine(param)
    ensures CountOf(Flat(pieces), '?') == |params|
    ensures Substituted(Flat(pieces), params) == Flat(Filled(pieces, params))
  {
    TemplateCount(pieces);
    if pieces != [] {
      var p, rest := pieces[0], pieces[1..];
      PieceEnds(pieces);
      assert forall q <- rest :: q in pieces;
      PieceCount(p);
      TemplateCount(rest);
      if p == Mark('?') {
        SubstitutedTemplate(rest, params[1..]);
        ParamPieceFine(params[0]);
        assert (['?'] + Flat(rest))[1..] == Flat(rest);
        FilledSlot(pieces, params);
        hide CountOf, WellSpaced, Filled, ParamText;
      } else {
        SubstitutedTemplate(rest, params);
        if p.Quoted? { NoneToCount(p.identifier, '?'); }
        NoneToCount(PieceText(p), '?');
        SubstitutedPlain(PieceText(p), Flat(rest), params);
        FilledOther(pieces, params);
        hide CountOf, WellSpaced, Filled, PieceText, Substituted;
      }
    }
  }

  lemma FilledSlot(pieces: seq<Piece>, params: seq<Param>)
    requires Slots(pieces) == |params| && pieces != [] && pieces[0] == Mark('?')
    ensures Flat(Filled(pieces, params)) == PieceText(ParamPiece(params[0])) + Flat(Filled(pieces[1..], params[1..]))
  {
    hide PieceText, ParamPiece;
    assert Filled(pieces, params)[1..] == Filled(pieces[1..], params[1..]);
  }

  lemma FilledOther(pieces: seq<Piece>, params: seq<Param>)
    requires Slots(pieces) == |params| && pieces != [] && pieces[0] != Mark('?')
    ensures Flat(Filled(pieces, params)) == PieceText(pieces[0]) + Flat(Filled(pieces[1..], params))
  {
    hide PieceText, ParamPiece;
    assert Filled(pieces, params)[1..] == Filled(pieces[1..], params);
  }

  /** Each filled piece is the template's, or a value in the place of a placeholder. */
  lemma {:induction false} FilledAt(pieces: seq<Piece>, params: seq<Param>, i: nat)
    requires Slots(pieces) == |params| && i < |pieces|
    ensures if pieces[i] == Mark('?') then exists param <- params :: Filled(pieces, params)[i] == ParamPiece(param)
            else Filled(pieces, params)[i] == pieces[i]
  {
    hide ParamPiece;
    if i > 0 {
      var later := if pieces[0] == Mark('?') then params[1..] else params;
      FilledAt(pieces[1..], later, i - 1);
      assert forall param <- later :: param in params;
    } else if pieces[0] == Mark('?') {
      assert params[0] in params;
    }
  }

  lemma FilledSpacing(pieces: seq<Piece>, params: seq<Param>)
    requires WellSpaced(pieces) && Slots(pieces) == |params|
    requires forall param <- params :: ParamFine(param)
    ensures WellSpaced(Filled(pieces, params))
  {
    var filled := Filled(pieces, params);
    forall i | 0 <= i < |pieces|
      ensures Fine(filled[i])
      ensures filled[i] == pieces[i] || (pieces[i] == Mark('?') && !Closed(filled[i]) && !filled[i].Quoted?
                                         && !filled[i].Blank? && !filled[i].Mark?)
    {
      FilledAt(pieces, params, i);
      if pieces[i] == Mark('?') {
        var param :| param in params && filled[i] == ParamPiece(param);
        ParamPieceFine(param);
      }
      hide Filled, ParamPiece;
    }
    hide Filled, Fine, ParamPiece, Slots;
  }

  lemma BoundSlot(rest: seq<Lexeme>, params: seq<Param>)
    requires params != []
    ensures Bound([Symbol('?')] + rest, params) == PieceLexemes(ParamPiece(params[0])) + Bound(rest, params[1..])
  {
    hide PieceLexemes, ParamPiece;
    assert ([Symbol('?')] + rest)[1..] == rest;
  }

  lemma BoundOther(lexeme: Lexeme, rest: seq<Lexeme>, params: seq<Param>)
    requires lexeme != Symbol('?')
    ensures Bound([lexeme] + rest, params) == [lexeme] + Bound(rest, params)
  {
    hide PieceLexemes, ParamPiece;
    assert ([lexeme] + rest)[1..] == rest;
  }

  lemma LexemesFilled(pieces: seq<Piece>, params: seq<Param>)
    requires Slots(pieces) == |params| && pieces != []
    ensures Lexemes(pieces) == PieceLexemes(pieces[0]) + Lexemes(pieces[1..])
    ensures Lexemes(Filled(pieces, params))
         == if pieces[0] == Mark('?') then
              PieceLexemes(ParamPiece(params[0])) + Lexemes(Filled(pieces[1..], params[1..]))
            else PieceLexemes(pieces[0]) + Lexemes(Filled(pieces[1..], params))
  {
    hide PieceLexemes, ParamPiece;
    var filled := Filled(pieces, params);
    assert filled[1..]
        == if pieces[0] == Mark('?') then Filled(pieces[1..], params[1..]) else Filled(pieces[1..], params);
  }

  lemma TemplateRest(pieces: seq<Piece>)
    requires Template(pieces) && pieces != []
    ensures Template(pieces[1..])
    ensures Slots(pieces) == (if pieces[0] == Mark('?') then 1 else 0) + Slots(pieces[1..])
    ensures var p := pieces[0];
      if p.Blank? then PieceLexemes(p) == []
      else |PieceLexemes(p)| == 1 && (PieceLexemes(p)[0] == Symbol('?') <==> p == Mark('?'))
  {
    PieceEnds(pieces);
    assert forall q <- pieces[1..] :: q in pieces;
    assert pieces[0] in pieces;
    hide WellSpaced;
  }

  lemma {:induction false} BoundTemplate(pieces: seq<Piece>, params: seq<Param>)
    requires Template(pieces) && Slots(pieces) == |params|
    ensures Bound(Lexemes(pieces), params) == Lexemes(Filled(pieces, params))
  {
    hide *;
    NothingBound();
    if pieces == [] {
      assert params == [];
    } else {
      var p, rest := pieces[0], pieces[1..];
      TemplateRest(pieces);
      LexemesFilled(pieces, params);
      if p == Mark('?') {
        BoundTemplate(rest, params[1..]);
        assert PieceLexemes(p) == [Symbol('?')];
        BoundSlot(Lexemes(rest), params);
      } else {
        BoundTemplate(rest, params);
        if p.Blank? {
          assert [] + Lexemes(rest) == Lexemes(rest);
          assert [] + Lexemes(Filled(rest, params)) == Lexemes(Filled(rest, params));
        } else {
          assert PieceLexemes(p) == [PieceLexemes(p)[0]];
          BoundOther(PieceLexemes(p)[0], Lexemes(rest), params);
        }
      }
    }
  }

  lemma NothingBound()
    ensures Slots([]) == 0 && Bound(Lexemes([]), []) == Lexemes(Filled([], []))
  {
  }

  /** Statements made of template pieces, with one parameter for each placeholder. */
  ghost predicate MadeOf(statement: Statement, pieces: seq<Piece>) {
    && Template(pieces)
    && statement.text == Flat(pieces)
    && Slots(pieces) == |statement.params|
    && forall param <- statement.params :: ParamFine(param)
  }

  /**
   * A statement renders exactly when none of its names holds a question mark; the server then reads the rendered text
   * as the template's lexemes with the i-th placeholder replaced by the i-th value, whatever the values hold.
   */
  lemma TemplateReadsBack(statement: Statement, pieces: seq<Piece>)
    requires MadeOf(statement, pieces)
    ensures Rendered(statement).Some? <==> Unmarked(pieces)
    ensures Rendered(statement).Some? ==>
      var template := Lex(statement.text);
      template.Some? && Lex(Rendered(statement).value) == Some(Bound(template.value, statement.params))
  {
    var params := statement.params;
    TemplateCount(pieces);
    if Unmarked(pieces) {
      SubstitutedTemplate(pieces, params);
      FilledSpacing(pieces, params);
      LexPieces(pieces);
      LexPieces(Filled(pieces, params));
      BoundTemplate(pieces, params);
    }
    hide Flat, Lex, Filled, CountOf, Substituted, Slots, Template, Bound, Lexemes, Unmarked;
  }

  // ---- The builders' statements in pieces ----

  /** Pieces of a template with their text, their placeholders and whether their names are free of question marks. */
  ghost predicate Lays(pieces: seq<Piece>, text: string, slots: nat, unmarked: bool) {
    Template(pieces) && Flat(pieces) == text && Slots(pieces) == slots && (Unmarked(pieces) <==> unmarked)
  }

  lemma {:induction false} SlotsOfTwo(a: seq<Piece>, b: seq<Piece>)
    ensures Slots(a + b) == Slots(a) + Slots(b)
  {
    if a == [] {
      assert a + b == b;
    } else {
      assert (a + b)[1..] == a[1..] + b;
      SlotsOfTwo(a[1..], b);
    }
  }

  lemma LaysOn(a: seq<Piece>, s: string, m: nat, x: bool, b: seq<Piece>, t: string, n: nat, y: bool)
    requires Lays(a, s, m, x) && Lays(b, t, n, y) && Meet(a, b)
    ensures Lays(a + b, s + t, m + n, x && y)
  {
    Glue(a, b);
    FlatOfTwo(a, b);
    SlotsOfTwo(a, b);
    hide Flat, Slots, WellSpaced, Meet;
    assert Unmarked(a + b) <==> Unmarked(a) && Unmarked(b) by {
      assert forall p :: p in a + b <==> p in a || p in b;
    }
  }

  lemma LaysOne(p: Piece)
    requires Fine(p) && (p.Quoted? || p.Keyword? || p.Mark? || p.Blank?)
    ensures Lays([p], PieceText(p), if p == Mark('?') then 1 else 0, p.Quoted? ==> '?' !in p.identifier)
  {
    hide PieceText, Fine;
    assert [p][1..] == [];
    assert Flat([p]) == PieceText(p) + Flat([p][1..]);
    assert PieceText(p) + "" == PieceText(p);
    assert p in [p];
    assert WellSpaced([p]);
    assert Template([p]);
    assert Slots([p]) == if p == Mark('?') then 1 else 0;
    assert Flat([p]) == PieceText(p);
    assert Unmarked([p]) <==> (p.Quoted? ==> '?' !in p.identifier);
  }

  /** Pieces laid one by one after some others. */
  lemma LaysNext(a: seq<Piece>, s: string, m: nat, x: bool, p: Piece)
    requires Lays(a, s, m, x) && (a == [] || Joinable(a[|a| - 1], p))
    requires Fine(p) && (p.Quoted? || p.Keyword? || p.Mark? || p.Blank?)
    ensures Lays(a + [p], s + PieceText(p), m + if p == Mark('?') then 1 else 0,
              x && (p.Quoted? ==> '?' !in p.identifier))
  {
    LaysOne(p);
    LaysOn(a, s, m, x, [p], PieceText(p), if p == Mark('?') then 1 else 0, p.Quoted? ==> '?' !in p.identifier);
    hide Lays, PieceText, Fine;
  }

  function TablePieces(database: string, table: string): seq<Piece> {
    [Quoted(database)] + [Mark('.')] + [Quoted(table)]
  }

  lemma LaysTable(database: string, table: string)
    ensures Lays(TablePieces(database, table), TableText(database, table), 0, '?' !in database && '?' !in table)
    ensures TablePieces(database, table)[0].Quoted? && TablePieces(database, table)[2].Quoted?
  {
    hide QuoteIdentifier, Lays;
    var name, dot, x := QuoteIdentifier(database), [Quoted(database)] + [Mark('.')], '?' !in database;
    LaysOne(Quoted(database));
    LaysNext([Quoted(database)], name, 0, x, Mark('.'));
    LaysNext(dot, name + ".", 0, x, Quoted(table));
    assert PieceText(Mark('.')) == ".";
  }

  function ConditionPieces(name: string): seq<Piece> {
    [Quoted(name)] + [Blank(' '), Mark('='), Blank(' ')] + [Mark('?')]
  }

  lemma LaysEquals()
    ensures Lays([Blank(' '), Mark('='), Blank(' ')], " = ", 0, true)
  {
  }

  lemma LaysCondition(name: string)
    ensures Lays(ConditionPieces(name), QuoteIdentifier(name) + " = ?", 1, '?' !in name)
  {
    hide QuoteIdentifier, Lays;
    var text, x := QuoteIdentifier(name), '?' !in name;
    LaysOne(Quoted(name));
    LaysEquals();
    LaysOn([Quoted(name)], text, 0, x, [Blank(' '), Mark('='), Blank(' ')], " = ", 0, true);
    LaysNext([Quoted(name)] + [Blank(' '), Mark('='), Blank(' ')], text + " = ", 0, x, Mark('?'));
    assert text + " = " + "?" == text + " = ?";
    assert PieceText(Mark('?')) == "?";
  }

  /** Which parts a list consists of: conditions, names or placeholders. */
  datatype PartKind = ConditionPart | NamePart | SlotPart

  function PartPieces(kind: PartKind, name: string): (r: seq<Piece>)
    ensures r != []
  {
    match kind
    case ConditionPart => ConditionPieces(name)
    case NamePart => [Quoted(name)]
    case SlotPart => [Mark('?')]
  }

  function PartText(kind: PartKind, name: string): string {
    match kind
    case ConditionPart => QuoteIdentifier(name) + " = ?"
    case NamePart => QuoteIdentifier(name)
    case SlotPart => "?"
  }

  function PartTexts(kind: PartKind, names: seq<string>): seq<string> {
    if names == [] then [] else [PartText(kind, names[0])] + PartTexts(kind, names[1..])
  }

  function ListPieces(kind: PartKind, names: seq<string>, separator: seq<Piece>): seq<Piece> {
    if names == [] then []
    else if |names| == 1 then PartPieces(kind, names[0])
    else PartPieces(kind, names[0]) + separator + ListPieces(kind, names[1..], separator)
  }

  predicate NamesUnmarked(names: seq<string>) { forall name <- names :: '?' !in name }

  lemma LaysPart(kind: PartKind, name: string)
    ensures Lays(PartPieces(kind, name), PartText(kind, name), if kind.NamePart? then 0 else 1,
              kind.SlotPart? || '?' !in name)
  {
    hide Lays, QuoteIdentifier, ConditionPieces;
    match kind
    case ConditionPart => LaysCondition(name);
    case NamePart => LaysOne(Quoted(name));
    case SlotPart => LaysOne(Mark('?'));
      assert PieceText(Mark('?')) == "?";
  }

  /** A separator that fits between parts of any kind. */
  ghost predicate Separates(separator: seq<Piece>, text: string) {
    && Lays(separator, text, 0, true)
    && separator != [] && separator[|separator| - 1] == Blank(' ')
    && (separator[0] == Blank(' ') || separator[0] == Mark(','))
  }

  lemma UnmarkedStep(names: seq<string>)
    requires names != []
    ensures NamesUnmarked(names) <==> '?' !in names[0] && NamesUnmarked(names[1..])
  {
    assert names == [names[0]] + names[1..];
  }

  lemma ListStep(kind: PartKind, names: seq<string>, separator: seq<Piece>, text: string)
    requires names != []
    ensures var part, rest := PartPieces(kind, names[0]), names[1..];
      && ListPieces(kind, names, separator)
         == (if |names| == 1 then part else part + separator + ListPieces(kind, rest, separator))
      && Join(PartTexts(kind, names), text)
         == (if |names| == 1 then PartText(kind, names[0])
             else PartText(kind, names[0]) + text + Join(PartTexts(kind, rest), text))
  {
    hide PartText, PartPieces;
    assert PartTexts(kind, names)[1..] == PartTexts(kind, names[1..]);
  }

  lemma PartEnds(kind: PartKind, name: string)
    ensures var part := PartPieces(kind, name);
      part != [] && (part[0].Quoted? || part[0] == Mark('?'))
      && (part[|part| - 1].Quoted? || part[|part| - 1] == Mark('?'))
  {
  }

  lemma {:induction false} LaysList(kind: PartKind, names: seq<string>, separator: seq<Piece>, text: string)
    requires names != [] && Separates(separator, text)
    ensures Lays(ListPieces(kind, names, separator), Join(PartTexts(kind, names), text),
              if kind.NamePart? then 0 else |names|, kind.SlotPart? || NamesUnmarked(names))
    ensures var list := ListPieces(kind, names, separator);
      list != [] && (list[0].Quoted? || list[0] == Mark('?'))
      && (list[|list| - 1].Quoted? || list[|list| - 1] == Mark('?'))
  {
    hide Lays, PartText, PartTexts, PartPieces, ListPieces, NamesUnmarked, Join;
    LaysPart(kind, names[0]);
    PartEnds(kind, names[0]);
    ListStep(kind, names, separator, text);
    UnmarkedStep(names);
    var part, x := PartPieces(kind, names[0]), kind.SlotPart? || '?' !in names[0];
    var n, rest := if kind.NamePart? then 0 else 1, names[1..];
    if |names| == 1 {
      NoNamesUnmarked(rest);
    } else {
      LaysList(kind, rest, separator, text);
      LaysOn(part, PartText(kind, names[0]), n, x, separator, text, 0, true);
      LaysOn(part + separator, PartText(kind, names[0]) + text, n, x,
        ListPieces(kind, rest, separator), Join(PartTexts(kind, rest), text),
        if kind.NamePart? then 0 else |rest|, kind.SlotPart? || NamesUnmarked(rest));
    }
  }

  lemma NoNamesUnmarked(names: seq<string>)
    requires names == []
    ensures NamesUnmarked(names)
  {
  }

  lemma {:induction false} ConditionTexts(names: seq<string>)
    ensures PartTexts(ConditionPart, names) == Conditions(names)
  {
    if names != [] { ConditionTexts(names[1..]); }
  }

  lemma {:induction false} NameTexts(names: seq<string>)
    ensures PartTexts(NamePart, names) == QuotedNames(names)
  {
    if names != [] { NameTexts(names[1..]); }
  }

  lemma {:induction false} SlotTexts(names: seq<string>)
    ensures PartTexts(SlotPart, names) == Placeholders(|names|)
  {
    if names != [] { SlotTexts(names[1..]); }
  }

  lemma LaysDeleteFrom()
    ensures Lays([Keyword("DELETE"), Blank(' '), Keyword("FROM"), Blank(' ')], "DELETE FROM ", 0, true)
  {
  }

  lemma LaysUpdate()
    ensures Lays([Keyword("UPDATE"), Blank(' ')], "UPDATE ", 0, true)
  {
  }

  lemma LaysInsertInto()
    ensures Lays([Keyword("INSERT"), Blank(' '), Keyword("INTO"), Blank(' ')], "INSERT INTO ", 0, true)
  {
  }

  lemma LaysWhere()
    ensures Lays([Blank(' '), Keyword("WHERE"), Blank(' ')], " WHERE ", 0, true)
  {
  }

  lemma LaysSet()
    ensures Lays([Blank(' '), Keyword("SET"), Blank(' ')], " SET ", 0, true)
  {
  }

  lemma SeparatesAnd()
    ensures Separates([Blank(' '), Keyword("AND"), Blank(' ')], " AND ")
  {
  }

  lemma SeparatesComma()
    ensures Separates([Mark(','), Blank(' ')], ", ")
  {
  }

  lemma LaysValues()
    ensures Lays(
              [Mark(')'), Blank(' '), Keyword("VALUES"), Blank(' '), Mark('(')], ") VALUES (", 0, true)
  {
    var a, b, c := [Mark(')'), Blank(' ')], [Keyword("VALUES")], [Blank(' '), Mark('(')];
    assert Lays(a, ") ", 0, true);
    LaysOne(Keyword("VALUES"));
    LaysOpen();
    hide Lays;
    assert PieceText(Keyword("VALUES")) == "VALUES";
    LaysOn(a, ") ", 0, true, b, "VALUES", 0, true);
    LaysOn(a + b, ") VALUES", 0, true, c, " (", 0, true);
    assert a + b + c == [Mark(')'), Blank(' '), Keyword("VALUES"), Blank(' '), Mark('(')];
  }

  lemma LaysOpen()
    ensures Lays([Blank(' '), Mark('(')], " (", 0, true)
  {
  }

  const AndPieces := [Blank(' '), Keyword("AND"), Blank(' ')]
  const CommaPieces := [Mark(','), Blank(' ')]

  function DeletePieces(database: string, table: string, keys: seq<string>): seq<Piece> {
    [Keyword("DELETE"), Blank(' '), Keyword("FROM"), Blank(' ')] + TablePieces(database, table)
    + [Blank(' '), Keyword("WHERE"), Blank(' ')] + ListPieces(ConditionPart, keys, AndPieces)
  }

  lemma DeleteLays(database: string, table: string, keys: seq<string>)
    requires keys != []
    ensures Lays(DeletePieces(database, table, keys),
              "DELETE FROM " + TableText(database, table) + " WHERE " + Join(Conditions(keys), " AND "),
              |keys|, '?' !in database && '?' !in table && NamesUnmarked(keys))
  {
    hide Lays, TableText, Join, Conditions, TablePieces, ListPieces, NamesUnmarked, PartTexts;
    var a, b := [Keyword("DELETE"), Blank(' '), Keyword("FROM"), Blank(' ')], TablePieces(database, table);
    var c, d := [Blank(' '), Keyword("WHERE"), Blank(' ')], ListPieces(ConditionPart, keys, AndPieces);
    var x := '?' !in database && '?' !in table;
    var s, t := TableText(database, table), Join(Conditions(keys), " AND ");
    LaysDeleteFrom();
    LaysTable(database, table);
    LaysWhere();
    SeparatesAnd();
    LaysList(ConditionPart, keys, AndPieces, " AND ");
    ConditionTexts(keys);
    LaysOn(a, "DELETE FROM ", 0, true, b, s, 0, x);
    LaysOn(a + b, "DELETE FROM " + s, 0, x, c, " WHERE ", 0, true);
    LaysOn(a + b + c, "DELETE FROM " + s + " WHERE ", 0, x, d, t, |keys|, NamesUnmarked(keys));
  }

  function UpdatePieces(database: string, table: string, names: seq<string>, keys: seq<string>): seq<Piece> {
    [Keyword("UPDATE"), Blank(' ')] + TablePieces(database, table) + [Blank(' '), Keyword("SET"), Blank(' ')]
    + ListPieces(ConditionPart, names, CommaPieces) + [Blank(' '), Keyword("WHERE"), Blank(' ')]
    + ListPieces(ConditionPart, keys, AndPieces)
  }

  /** `UPDATE` with its table and assignments, up to the condition. */
  lemma UpdateStartLays(database: string, table: string, names: seq<string>)
    requires names != []
    ensures
      var list := ListPieces(ConditionPart, names, CommaPieces);
      && Lays([Keyword("UPDATE"), Blank(' ')] + TablePieces(database, table) + [Blank(' '), Keyword("SET"), Blank(' ')]
              + list + [Blank(' '), Keyword("WHERE"), Blank(' ')],
           "UPDATE " + TableText(database, table) + " SET " + Join(Conditions(names), ", ") + " WHERE ",
           |names|, '?' !in database && '?' !in table && NamesUnmarked(names))
  {
    hide Lays, TableText, Join, Conditions, TablePieces, ListPieces, NamesUnmarked, PartTexts;
    var a, b := [Keyword("UPDATE"), Blank(' ')], TablePieces(database, table);
    var c, d := [Blank(' '), Keyword("SET"), Blank(' ')], ListPieces(ConditionPart, names, CommaPieces);
    var x, y := '?' !in database && '?' !in table, NamesUnmarked(names);
    var s, t := TableText(database, table), Join(Conditions(names), ", ");
    LaysUpdate();
    LaysTable(database, table);
    LaysSet();
    SeparatesComma();
    LaysWhere();
    LaysList(ConditionPart, names, CommaPieces, ", ");
    ConditionTexts(names);
    LaysOn(a, "UPDATE ", 0, true, b, s, 0, x);
    LaysOn(a + b, "UPDATE " + s, 0, x, c, " SET ", 0, true);
    LaysOn(a + b + c, "UPDATE " + s + " SET ", 0, x, d, t, |names|, y);
    LaysOn(a + b + c + d, "UPDATE " + s + " SET " + t, |names|, x && y,
      [Blank(' '), Keyword("WHERE"), Blank(' ')], " WHERE ", 0, true);
  }

  lemma UpdateLays(database: string, table: string, names: seq<string>, keys: seq<string>)
    requires names != [] && keys != []
    ensures Lays(UpdatePieces(database, table, names, keys),
              "UPDATE " + TableText(database, table) + " SET " + Join(Conditions(names), ", ")
              + " WHERE " + Join(Conditions(keys), " AND "),
              |names| + |keys|, '?' !in database && '?' !in table && NamesUnmarked(names) && NamesUnmarked(keys))
  {
    hide Lays, TableText, Join, Conditions, TablePieces, ListPieces, NamesUnmarked, PartTexts;
    UpdateStartLays(database, table, names);
    SeparatesAnd();
    LaysList(ConditionPart, keys, AndPieces, " AND ");
    ConditionTexts(keys);
    var start := [Keyword("UPDATE"), Blank(' ')] + TablePieces(database, table)
      + [Blank(' '), Keyword("SET"), Blank(' ')] + ListPieces(ConditionPart, names, CommaPieces)
      + [Blank(' '), Keyword("WHERE"), Blank(' ')];
    var text := "UPDATE " + TableText(database, table) + " SET " + Join(Conditions(names), ", ") + " WHERE ";
    LaysOn(start, text, |names|, '?' !in database && '?' !in table && NamesUnmarked(names),
      ListPieces(ConditionPart, keys, AndPieces), Join(Conditions(keys), " AND "), |keys|, NamesUnmarked(keys));
  }

  function InsertPieces(database: string, table: string, names: seq<string>): seq<Piece> {
    [Keyword("INSERT"), Blank(' '), Keyword("INTO"), Blank(' ')] + TablePieces(database, table)
    + [Blank(' '), Mark('(')] + ListPieces(NamePart, names, CommaPieces)
    + [Mark(')'), Blank(' '), Keyword("VALUES"), Blank(' '), Mark('(')] + ListPieces(SlotPart, names, CommaPieces)
    + [Mark(')')]
  }

  /** The opening of both forms of the insert statement. */
  lemma InsertStartLays(database: string, table: string)
    ensures Lays([Keyword("INSERT"), Blank(' '), Keyword("INTO"), Blank(' ')] + TablePieces(database, table)
                 + [Blank(' '), Mark('(')],
              "INSERT INTO " + TableText(database, table) + " (", 0, '?' !in database && '?' !in table)
  {
    hide Lays, TableText, TablePieces;
    var a := [Keyword("INSERT"), Blank(' '), Keyword("INTO"), Blank(' ')];
    var b := TablePieces(database, table);
    var s, x := TableText(database, table), '?' !in database && '?' !in table;
    LaysInsertInto();
    LaysTable(database, table);
    LaysOpen();
    LaysOn(a, "INSERT INTO ", 0, true, b, s, 0, x);
    LaysOn(a + b, "INSERT INTO " + s, 0, x, [Blank(' '), Mark('(')], " (", 0, true);
  }

  /** `INSERT` with its table and names, up to the values. */
  lemma InsertNamesLay(database: string, table: string, names: seq<string>)
    requires names != []
    ensures Lays([Keyword("INSERT"), Blank(' '), Keyword("INTO"), Blank(' ')] + TablePieces(database, table)
                 + [Blank(' '), Mark('(')] + ListPieces(NamePart, names, CommaPieces)
                 + [Mark(')'), Blank(' '), Keyword("VALUES"), Blank(' '), Mark('(')],
              "INSERT INTO " + TableText(database, table) + " (" + Join(QuotedNames(names), ", ") + ") VALUES (",
              0, '?' !in database && '?' !in table && NamesUnmarked(names))
  {
    hide Lays, TableText, Join, QuotedNames, TablePieces, ListPieces, NamesUnmarked, PartTexts;
    var a := [Keyword("INSERT"), Blank(' '), Keyword("INTO"), Blank(' ')] + TablePieces(database, table)
      + [Blank(' '), Mark('(')];
    var b := ListPieces(NamePart, names, CommaPieces);
    var c := [Mark(')'), Blank(' '), Keyword("VALUES"), Blank(' '), Mark('(')];
    var x, y := '?' !in database && '?' !in table, NamesUnmarked(names);
    var s, t := "INSERT INTO " + TableText(database, table) + " (", Join(QuotedNames(names), ", ");
    InsertStartLays(database, table);
    SeparatesComma();
    LaysList(NamePart, names, CommaPieces, ", ");
    NameTexts(names);
    LaysValues();
    LaysOn(a, s, 0, x, b, t, 0, y);
    LaysOn(a + b, s + t, 0, x && y, c, ") VALUES (", 0, true);
  }

  lemma InsertLays(database: string, table: string, names: seq<string>)
    requires names != []
    ensures Lays(InsertPieces(database, table, names),
              "INSERT INTO " + TableText(database, table) + " (" + Join(QuotedNames(names), ", ") + ") VALUES ("
              + Join(Placeholders(|names|), ", ") + ")",
              |names|, '?' !in database && '?' !in table && NamesUnmarked(names))
  {
    hide Lays, TableText, Join, QuotedNames, Placeholders, TablePieces, ListPieces, NamesUnmarked, PartTexts;
    InsertNamesLay(database, table, names);
    SeparatesComma();
    LaysList(SlotPart, names, CommaPieces, ", ");
    SlotTexts(names);
    var start := [Keyword("INSERT"), Blank(' '), Keyword("INTO"), Blank(' ')] + TablePieces(database, table)
      + [Blank(' '), Mark('(')] + ListPieces(NamePart, names, CommaPieces)
      + [Mark(')'), Blank(' '), Keyword("VALUES"), Blank(' '), Mark('(')];
    var text := "INSERT INTO " + TableText(database, table) + " (" + Join(QuotedNames(names), ", ") + ") VALUES (";
    var d, u := ListPieces(SlotPart, names, CommaPieces), Join(Placeholders(|names|), ", ");
    var x := '?' !in database && '?' !in table && NamesUnmarked(names);
    LaysOn(start, text, 0, x, d, u, |names|, true);
    LaysNext(start + d, text + u, |names|, x, Mark(')'));
    assert PieceText(Mark(')')) == ")";
  }

  function EmptyInsertPieces(database: string, table: string): seq<Piece> {
    [Keyword("INSERT"), Blank(' '), Keyword("INTO"), Blank(' ')] + TablePieces(database, table)
    + [Blank(' '), Mark('(')] + [Mark(')'), Blank(' '), Keyword("VALUES"), Blank(' '), Mark('(')] + [Mark(')')]
  }

  lemma EmptyInsertLays(database: string, table: string)
    ensures Lays(EmptyInsertPieces(database, table), "INSERT INTO " + TableText(database, table) + " () VALUES ()", 0,
              '?' !in database && '?' !in table)
  {
    hide Lays, TableText, TablePieces;
    var a := [Keyword("INSERT"), Blank(' '), Keyword("INTO"), Blank(' ')] + TablePieces(database, table)
      + [Blank(' '), Mark('(')];
    var c := [Mark(')'), Blank(' '), Keyword("VALUES"), Blank(' '), Mark('(')];
    var x, s := '?' !in database && '?' !in table, "INSERT INTO " + TableText(database, table);
    InsertStartLays(database, table);
    LaysValues();
    LaysOn(a, s + " (", 0, x, c, ") VALUES (", 0, true);
    LaysNext(a + c, s + " (" + ") VALUES (", 0, x, Mark(')'));
    assert PieceText(Mark(')')) == ")";
    assert s + " (" + ") VALUES (" + ")" == s + " () VALUES ()";
  }

  // ---- What is shown is what is executed ----

  /** Numbers in the values print as unsigned numbers after their sign. */
  ghost predicate Printable(values: Record) {
    forall name <- values :: values[name].Real? ==> IsNumberText(values[name].digits)
  }

  ghost predicate ChangePrintable(change: Change) {
    match change
    case DeleteRow(rowKey) => Printable(rowKey)
    case UpdateRow(update) => Printable(update.row_key) && Printable(update.values)
    case InsertRow(values) => Printable(values)
  }

  /** The names that a change's statement mentions, besides database and table. */
  function NamesIn(columns: seq<Column>, change: Change): seq<string> {
    match change
    case DeleteRow(_) => KeyNames(columns)
    case UpdateRow(update) => SetColumns(columns, update.values) + KeyNames(columns)
    case InsertRow(values) => InsertColumns(columns, values)
  }

  predicate ChangeUnmarked(payload: Payload, columns: seq<Column>, change: Change) {
    '?' !in payload.database && '?' !in payload.table && NamesUnmarked(NamesIn(columns, change))
  }

  lemma ParamsAreFine(names: seq<string>, values: Record)
    requires Printable(values) && ParamsFor(names, values).Some?
    ensures forall param <- ParamsFor(names, values).value :: ParamFine(param)
  {
    var params := ParamsFor(names, values).value;
    forall i | 0 <= i < |params|
      ensures ParamFine(params[i])
    {
      assert names[i] in values && ToParam(values[names[i]]) == Some(params[i]);
    }
  }

  /** Every statement of the plan is a template with one placeholder for each parameter. */
  lemma BuiltIsTemplate(payload: Payload, columns: seq<Column>, change: Change)
    returns (pieces: seq<Piece>)
    requires ChangePrintable(change)
    requires Build(payload, columns, change).Some? && Build(payload, columns, change).value.text != ""
    ensures MadeOf(Build(payload, columns, change).value, pieces)
    ensures Unmarked(pieces) <==> ChangeUnmarked(payload, columns, change)
  {
    var database, table, keys := payload.database, payload.table, KeyNames(columns);
    hide Flat, Slots, Template, Unmarked, TableText, Join, Conditions, QuotedNames, Placeholders, IsNumberText,
      ParamFine, ParamsFor, KeyNames, SetColumns, InsertColumns, DeletePieces, UpdatePieces, InsertPieces,
      EmptyInsertPieces;
    match change
    case DeleteRow(rowKey) =>
      pieces := DeletePieces(database, table, keys);
      ParamsAreFine(keys, rowKey);
      DeleteLays(database, table, keys);
    case UpdateRow(update) =>
      var names := SetColumns(columns, update.values);
      pieces := UpdatePieces(database, table, names, keys);
      ParamsAreFine(names, update.values);
      ParamsAreFine(keys, update.row_key);
      UpdateLays(database, table, names, keys);
      assert NamesUnmarked(names + keys) <==> NamesUnmarked(names) && NamesUnmarked(keys) by {
        assert forall name :: name in names + keys <==> name in names || name in keys;
      }
    case InsertRow(values) =>
      var names := InsertColumns(columns, values);
      if names == [] {
        pieces := EmptyInsertPieces(database, table);
        EmptyInsertLays(database, table);
      } else {
        pieces := InsertPieces(database, table, names);
        ParamsAreFine(names, values);
        InsertLays(database, table, names);
      }
  }

  /** The server reads the text as the statement's template with the parameters in place. */
  ghost predicate ReadsAs(text: string, statement: Statement) {
    Lex(statement.text).Some? && Lex(text) == Some(Bound(Lex(statement.text).value, statement.params))
  }

  /** A change that can be shown: it can be built, and no name in its statement holds a question mark. */
  ghost predicate Showable(payload: Payload, columns: seq<Column>, change: Change) {
    var built := Build(payload, columns, change);
    built.Some? && (built.value.text == "" || ChangeUnmarked(payload, columns, change))
  }

  ghost predicate AllReadAs(texts: seq<string>, statements: seq<Statement>) {
    |texts| == |statements| && forall i :: 0 <= i < |texts| ==> ReadsAs(texts[i], statements[i])
  }

  lemma OneShown(payload: Payload, columns: seq<Column>, change: Change)
    requires ChangePrintable(change)
    ensures var built := Build(payload, columns, change);
      built.Some? && built.value.text != "" ==>
        && (Rendered(built.value).Some? <==> ChangeUnmarked(payload, columns, change))
        && (Rendered(built.value).Some? ==> ReadsAs(Rendered(built.value).value, built.value))
  {
    var built := Build(payload, columns, change);
    if built.Some? && built.value.text != "" {
      var pieces := BuiltIsTemplate(payload, columns, change);
      TemplateReadsBack(built.value, pieces);
    }
    hide *;
  }

  lemma LastShown(payload: Payload, columns: seq<Column>, change: Change, before: Option<seq<string>>)
    requires ChangePrintable(change)
    ensures Shown(before, Build(payload, columns, change)).Some? <==> before.Some? && Showable(payload, columns, change)
  {
    OneShown(payload, columns, change);
    hide Build, Rendered, ReadsAs, ChangeUnmarked, ChangePrintable;
  }

  lemma LastReadAs(payload: Payload, columns: seq<Column>, change: Change, before: seq<string>, plan: seq<Statement>)
    requires ChangePrintable(change) && AllReadAs(before, plan) && Showable(payload, columns, change)
    ensures var s := Build(payload, columns, change).value;
      && Shown(Some(before), Some(s)).Some?
      && AllReadAs(Shown(Some(before), Some(s)).value, if s.text == "" then plan else plan + [s])
  {
    OneShown(payload, columns, change);
    hide Build, Rendered, ReadsAs, ChangeUnmarked, ChangePrintable;
  }

  lemma LastOf<T>(items: seq<T>)
    requires items != []
    ensures forall item :: item in items <==> item in items[..|items| - 1] || item == items[|items| - 1]
    ensures items[..|items| - 1 + 1] == items
  {
    assert items == items[..|items| - 1] + [items[|items| - 1]];
  }

  /** The preview exists exactly when every change can be shown. */
  lemma {:induction false} PreviewExists(payload: Payload, columns: seq<Column>, changes: seq<Change>)
    requires forall change <- changes :: ChangePrintable(change)
    ensures Preview(payload, columns, changes).Some? <==> forall change <- changes :: Showable(payload, columns, change)
  {
    if changes == [] {
      EmptyPreview(payload, columns);
    } else {
      hide *;
      var n := |changes| - 1;
      LastOf(changes);
      PreviewExists(payload, columns, changes[..n]);
      PreviewStep(payload, columns, changes, n);
      LastShown(payload, columns, changes[n], Preview(payload, columns, changes[..n]));
    }
  }

  /**
   * What the preview shows is what the apply loops execute: one text for each executed statement, in order, each read
   * by the server as that statement with its parameters in place.
   */
  lemma {:induction false} ShownIsExecuted(payload: Payload, columns: seq<Column>, changes: seq<Change>)
    requires forall change <- changes :: ChangePrintable(change)
    requires Preview(payload, columns, changes).Some?
    ensures Plan(payload, columns, changes).Some?
    ensures AllReadAs(Preview(payload, columns, changes).value, Plan(payload, columns, changes).value)
  {
    if changes == [] {
      EmptyPreview(payload, columns);
      EmptyPlan(payload, columns);
    } else {
      hide *;
      var n := |changes| - 1;
      LastOf(changes);
      PreviewExists(payload, columns, changes);
      PreviewExists(payload, columns, changes[..n]);
      ShownIsExecuted(payload, columns, changes[..n]);
      PreviewStep(payload, columns, changes, n);
      PlanGoesOn(payload, columns, changes, n);
      LastReadAs(payload, columns, changes[n], Preview(payload, columns, changes[..n]).value,
        Plan(payload, columns, changes[..n]).value);
    }
  }

  // ---- Reported rows ----

  /** The change runs a statement if it can be built: it is no update without columns. */
  predicate Runs(columns: seq<Column>, change: Change) {
    change.UpdateRow? ==> SetColumns(columns, change.update.values) != []
  }

  ghost predicate AllRun(columns: seq<Column>, changes: seq<Change>) {
    forall change <- changes :: Runs(columns, change)
  }

  lemma AllRunOn(columns: seq<Column>, changes: seq<Change>)
    requires changes != []
    ensures AllRun(columns, changes)
       <==> AllRun(columns, changes[..|changes| - 1]) && Runs(columns, changes[|changes| - 1])
  {
    hide Runs;
    assert changes == changes[..|changes| - 1] + [changes[|changes| - 1]];
  }

  lemma LastPlanned(payload: Payload, columns: seq<Column>, changes: seq<Change>)
    requires changes != [] && Plan(payload, columns, changes).Some?
    ensures
      var rest, last := changes[..|changes| - 1], changes[|changes| - 1];
      && Plan(payload, columns, rest).Some?
      && |Plan(payload, columns, changes).value|
         == |Plan(payload, columns, rest).value| + if Runs(columns, last) then 1 else 0
  {
    hide Plan, Build, SetColumns;
    var n := |changes| - 1;
    assert changes[..n + 1] == changes;
    PlanStep(payload, columns, changes, n);
    EmptyOnlyWithoutColumns(payload, columns, changes[n]);
  }

  lemma {:induction false} PlanLength(payload: Payload, columns: seq<Column>, changes: seq<Change>)
    requires Plan(payload, columns, changes).Some?
    ensures |Plan(payload, columns, changes).value| <= |changes|
    ensures |Plan(payload, columns, changes).value| == |changes| <==> AllRun(columns, changes)
  {
    if changes != [] {
      hide Plan, Runs, AllRun;
      LastPlanned(payload, columns, changes);
      AllRunOn(columns, changes);
      PlanLength(payload, columns, changes[..|changes| - 1]);
    }
  }

  lemma EmptyOnlyWithoutColumns(payload: Payload, columns: seq<Column>, change: Change)
    ensures var built := Build(payload, columns, change);
      built.Some? ==> (built.value.text == "" <==> change.UpdateRow? && SetColumns(columns, change.update.values) == [])
  {
    match change
    case DeleteRow(rowKey) => DeleteHasText(payload.database, payload.table, KeyNames(columns), rowKey);
    case InsertRow(values) => InsertHasText(payload.database, payload.table, columns, values);
    case UpdateRow(update) =>
      hide Join, Conditions, ParamsFor, WhereClause, SetColumns, TableText;
  }

  /** The affected rows that are reported count every change, also an update that sets no column and runs nothing. */
  lemma ReportedRowsAreStatements(payload: Payload, columns: seq<Column>)
    requires Plan(payload, columns, ChangesOf(payload)).Some?
    ensures |Plan(payload, columns, ChangesOf(payload)).value| == |ChangesOf(payload)|
        <==> forall update <- payload.updated :: SetColumns(columns, update.values) != []
  {
    var changes := ChangesOf(payload);
    PlanLength(payload, columns, changes);
    hide Plan, SetColumns;
    forall i | 0 <= i < |payload.updated|
      ensures UpdateRow(payload.updated[i]) in changes
    {
      assert changes[|payload.deleted| + i] == UpdateRow(payload.updated[i]);
    }
    forall change | change in changes && change.UpdateRow?
      ensures change.update in payload.updated
    {
    }
  }
}
