/** What the server reads in a rendered row statement: each value stands beside the column that it was given for. */
module RowMeaning {
  import opened JsonValues
  import opened MysqlLexer
  import opened RowStatements
  import opened RowTemplates
  import opened SqlLists
  import opened SqlPrinters
  import opened Text

  // ---- What the statements should say ----

  function NumberLexemes(n: int): seq<Lexeme> {
    if n < 0 then [Symbol('-'), Numeral(Decimal(-n))] else [Numeral(Decimal(n))]
  }

  /** A value in a statement: flags are the numbers 1 and 0, other JSON is its text. */
  function ValueLexemes(value: Json): seq<Lexeme> {
    match value
    case Null => [Word("NULL")]
    case Bool(flag) => NumberLexemes(if flag then 1 else 0)
    case Integer(n) => NumberLexemes(n)
    case Real(negative, digits) => if negative then [Symbol('-'), Numeral(digits)] else [Numeral(digits)]
    case Str(text) => [Literal(text)]
    case Nested(json) => [Literal(json)]
  }

  function ValueOf(values: Record, name: string): Json { if name in values then values[name] else Null }

  /** `name = value` for each name, with a separator between each two. */
  function Equalities(names: seq<string>, values: Record, separator: seq<Lexeme>): seq<Lexeme> {
    if names == [] then []
    else
      [Name(names[0]), Symbol('=')] + ValueLexemes(ValueOf(values, names[0]))
      + if |names| == 1 then [] else separator + Equalities(names[1..], values, separator)
  }

  function ValueList(names: seq<string>, values: Record): seq<Lexeme> {
    if names == [] then []
    else
      ValueLexemes(ValueOf(values, names[0]))
      + if |names| == 1 then [] else [Symbol(',')] + ValueList(names[1..], values)
  }

  function TableLexemes(database: string, table: string): seq<Lexeme> {
    [Name(database), Symbol('.'), Name(table)]
  }

  function DeleteSays(database: string, table: string, keys: seq<string>, rowKey: Record): seq<Lexeme> {
    [Word("DELETE"), Word("FROM")] + TableLexemes(database, table) + [Word("WHERE")]
    + Equalities(keys, rowKey, [Word("AND")])
  }

  function UpdateSays(database: string, table: string, names: seq<string>, keys: seq<string>, update: Update)
    : seq<Lexeme>
  {
    [Word("UPDATE")] + TableLexemes(database, table) + [Word("SET")]
    + Equalities(names, update.values, [Symbol(',')]) + [Word("WHERE")]
    + Equalities(keys, update.row_key, [Word("AND")])
  }

  function InsertSays(database: string, table: string, names: seq<string>, values: Record): seq<Lexeme> {
    [Word("INSERT"), Word("INTO")] + TableLexemes(database, table) + [Symbol('(')] + NameLexemes(names)
    + [Symbol(')'), Word("VALUES"), Symbol('(')] + ValueList(names, values) + [Symbol(')')]
  }

  // ---- Filling templates part by part ----

  lemma FilledCons(p: Piece, rest: seq<Piece>, params: seq<Param>)
    requires Slots([p] + rest) == |params|
    ensures Slots([p] + rest) == (if p == Mark('?') then 1 else 0) + Slots(rest)
    ensures Filled([p] + rest, params)
         == if p == Mark('?') then [ParamPiece(params[0])] + Filled(rest, params[1..]) else [p] + Filled(rest, params)
  {
    hide ParamPiece;
    assert ([p] + rest)[1..] == rest;
  }

  lemma NothingFilled()
    ensures Slots([]) == 0 && Filled([], []) == []
  {
  }

  lemma {:induction false} FilledInTwo(a: seq<Piece>, b: seq<Piece>, params: seq<Param>)
    requires Slots(a) + Slots(b) == |params|
    ensures Slots(a + b) == |params|
    ensures Filled(a + b, params) == Filled(a, params[..Slots(a)]) + Filled(b, params[Slots(a)..])
  {
    hide *;
    NothingFilled();
    SlotsOfTwo(a, b);
    if a == [] {
      assert a + b == b;
      assert params[..0] == [] && params[0..] == params;
      assert [] + Filled(b, params) == Filled(b, params);
    } else {
      var p, rest, n := a[0], a[1..], Slots(a);
      assert a == [p] + rest && a + b == [p] + (rest + b);
      FilledCons(p, rest, params[..n]);
      FilledCons(p, rest + b, params);
      SlotsOfTwo(rest, b);
      if p == Mark('?') {
        FilledInTwo(rest, b, params[1..]);
        assert params[1..][..n - 1] == params[..n][1..] && params[1..][n - 1..] == params[n..];
        assert params[..n][0] == params[0];
        PieceInFront(ParamPiece(params[0]), Filled(rest, params[..n][1..]), Filled(b, params[n..]));
      } else {
        FilledInTwo(rest, b, params);
        PieceInFront(p, Filled(rest, params[..n]), Filled(b, params[n..]));
      }
    }
  }

  lemma PieceInFront(p: Piece, a: seq<Piece>, b: seq<Piece>)
    ensures [p] + (a + b) == [p] + a + b
  {
  }

  /** What filled pieces read as. */
  function Said(pieces: seq<Piece>, params: seq<Param>): seq<Lexeme>
    requires Slots(pieces) == |params|
  {
    Lexemes(Filled(pieces, params))
  }

  lemma SaidInTwo(a: seq<Piece>, b: seq<Piece>, params: seq<Param>)
    requires Slots(a) + Slots(b) == |params|
    ensures Slots(a + b) == |params|
    ensures Said(a + b, params) == Said(a, params[..Slots(a)]) + Said(b, params[Slots(a)..])
  {
    FilledInTwo(a, b, params);
    FlatOfTwo(Filled(a, params[..Slots(a)]), Filled(b, params[Slots(a)..]));
    hide Lexemes, Filled;
  }

  lemma {:induction false} FilledWithNothing(a: seq<Piece>)
    requires Slots(a) == 0
    ensures Filled(a, []) == a
  {
    hide ParamPiece;
    if a != [] { FilledWithNothing(a[1..]); }
  }

  /** Pieces without placeholders, then others. */
  lemma SaidAfter(a: seq<Piece>, b: seq<Piece>, params: seq<Param>)
    requires Slots(a) == 0 && Slots(b) == |params|
    ensures Slots(a + b) == |params|
    ensures Said(a + b, params) == Lexemes(a) + Said(b, params)
  {
    SaidInTwo(a, b, params);
    FilledWithNothing(a);
    assert params[..0] == [] && params[0..] == params;
    hide Filled, Lexemes;
  }

  /** Pieces, then others without placeholders. */
  lemma SaidBefore(a: seq<Piece>, b: seq<Piece>, params: seq<Param>)
    requires Slots(a) == |params| && Slots(b) == 0
    ensures Slots(a + b) == |params|
    ensures Said(a + b, params) == Said(a, params) + Lexemes(b)
  {
    SaidInTwo(a, b, params);
    FilledWithNothing(b);
    assert params[..|params|] == params && params[|params|..] == [];
    hide Filled, Lexemes;
  }

  // ---- Values ----

  lemma ParamSays(value: Json)
    requires ToParam(value).Some?
    ensures PieceLexemes(ParamPiece(ToParam(value).value)) == ValueLexemes(value)
  {
    hide Decimal;
    match value
    case Integer(n) => assert [Symbol('-')] + [Numeral(Decimal(if n < 0 then -n else n))]
                           == [Symbol('-'), Numeral(Decimal(if n < 0 then -n else n))];
    case Real(negative, digits) => assert [Symbol('-')] + [Numeral(digits)] == [Symbol('-'), Numeral(digits)];
    case _ =>
  }

  lemma SlotSays(param: Param)
    ensures Slots([Mark('?')]) == 1 && Said([Mark('?')], [param]) == PieceLexemes(ParamPiece(param))
  {
    hide ParamPiece, PieceLexemes;
    assert [Mark('?')][1..] == [] && [param][1..] == [];
    var filled := Filled([Mark('?')], [param]);
    assert filled == [ParamPiece(param)];
    assert filled[1..] == [];
    assert Lexemes(filled) == PieceLexemes(ParamPiece(param)) + [];
  }

  lemma ConditionStarts(name: string)
    ensures var start := [Quoted(name)] + [Blank(' '), Mark('='), Blank(' ')];
      Slots(start) == 0 && Lexemes(start) == [Name(name), Symbol('=')]
  {
    SlotsOfTwo([Quoted(name)], [Blank(' '), Mark('='), Blank(' ')]);
    FlatOfTwo([Quoted(name)], [Blank(' '), Mark('='), Blank(' ')]);
    OneQuoted(name);
    assert Slots([Blank(' '), Mark('='), Blank(' ')]) == 0;
    assert Lexemes([Blank(' '), Mark('='), Blank(' ')]) == [Symbol('=')];
  }

  lemma OneQuoted(name: string)
    ensures Slots([Quoted(name)]) == 0 && Lexemes([Quoted(name)]) == [Name(name)]
  {
    assert [Quoted(name)][1..] == [];
  }

  lemma PartSays(kind: PartKind, name: string, param: Param)
    requires !kind.NamePart?
    ensures Slots(PartPieces(kind, name)) == 1
    ensures Said(PartPieces(kind, name), [param])
         == (if kind.ConditionPart? then [Name(name), Symbol('=')] else []) + PieceLexemes(ParamPiece(param))
  {
    hide ParamPiece, PieceLexemes, Said, Slots, Lexemes;
    SlotSays(param);
    if kind.ConditionPart? {
      ConditionStarts(name);
      SaidAfter([Quoted(name)] + [Blank(' '), Mark('='), Blank(' ')], [Mark('?')], [param]);
    } else {
      assert [] + PieceLexemes(ParamPiece(param)) == PieceLexemes(ParamPiece(param));
    }
  }

  /** A list of conditions or placeholders says the values of its names. */
  lemma {:induction false} ListSays(
    kind: PartKind, names: seq<string>, values: Record, separator: seq<Piece>, text: string)
    requires !kind.NamePart? && names != [] && Separates(separator, text)
    requires kind.SlotPart? ==> Lexemes(separator) == [Symbol(',')]
    requires ParamsFor(names, values).Some?
    ensures Slots(ListPieces(kind, names, separator)) == |ParamsFor(names, values).value|
    ensures Said(ListPieces(kind, names, separator), ParamsFor(names, values).value)
         == if kind.ConditionPart? then Equalities(names, values, Lexemes(separator)) else ValueList(names, values)
  {
    hide ParamPiece, PieceLexemes, Said, Slots, Lexemes, Separates, ToParam, ValueLexemes, PartPieces;
    var params := ParamsFor(names, values).value;
    var part := PartPieces(kind, names[0]);
    PartSays(kind, names[0], params[0]);
    ParamSays(values[names[0]]);
    if |names| == 1 {
      assert params == [params[0]];
      NothingMore(kind, names, values, separator);
    } else {
      ListSays(kind, names[1..], values, separator, text);
      var rest := ListPieces(kind, names[1..], separator);
      var more := ParamsFor(names[1..], values).value;
      assert params == [params[0]] + more;
      SeparatorIsPlain(separator, text);
      SaidBefore(part, separator, [params[0]]);
      assert params[..1] == [params[0]] && params[1..] == more;
      SlotsOfTwo(part, separator);
      SaidInTwo(part + separator, rest, params);
      OneMore(kind, names, values, separator);
    }
  }

  lemma SeparatorIsPlain(separator: seq<Piece>, text: string)
    requires Separates(separator, text)
    ensures Slots(separator) == 0
  {
  }

  lemma NothingMore(kind: PartKind, names: seq<string>, values: Record, separator: seq<Piece>)
    requires |names| == 1 && names[0] in values
    ensures Equalities(names, values, Lexemes(separator))
         == [Name(names[0]), Symbol('=')] + ValueLexemes(values[names[0]])
    ensures ValueList(names, values) == [] + ValueLexemes(values[names[0]])
  {
    hide ValueLexemes, Lexemes;
  }

  lemma OneMore(kind: PartKind, names: seq<string>, values: Record, separator: seq<Piece>)
    requires |names| > 1 && names[0] in values
    ensures Equalities(names, values, Lexemes(separator))
         == [Name(names[0]), Symbol('=')] + ValueLexemes(values[names[0]]) + Lexemes(separator)
            + Equalities(names[1..], values, Lexemes(separator))
    ensures ValueList(names, values)
         == [] + ValueLexemes(values[names[0]]) + [Symbol(',')] + ValueList(names[1..], values)
  {
    hide ValueLexemes, Lexemes;
  }

  // ---- The statements ----

  /** A template renders to its filled pieces, and is read as what they say. */
  lemma RenderedSays(statement: Statement, pieces: seq<Piece>)
    requires MadeOf(statement, pieces) && Rendered(statement).Some?
    ensures Lex(Rendered(statement).value) == Some(Said(pieces, statement.params))
  {
    TemplateReadsBack(statement, pieces);
    SubstitutedTemplate(pieces, statement.params);
    FilledSpacing(pieces, statement.params);
    LexPieces(Filled(pieces, statement.params));
    hide Lex, Flat, Substituted, CountOf, Filled, Lexemes, Template, Slots;
  }

  lemma TableSays(database: string, table: string)
    ensures Slots(TablePieces(database, table)) == 0
    ensures Lexemes(TablePieces(database, table)) == TableLexemes(database, table)
  {
    OneQuoted(database);
    OneQuoted(table);
    assert Slots([Mark('.')]) == 0 && Lexemes([Mark('.')]) == [Symbol('.')];
    SlotsOfTwo([Quoted(database)], [Mark('.')]);
    FlatOfTwo([Quoted(database)], [Mark('.')]);
    SlotsOfTwo([Quoted(database)] + [Mark('.')], [Quoted(table)]);
    FlatOfTwo([Quoted(database)] + [Mark('.')], [Quoted(table)]);
    hide Slots, Lexemes;
  }

  lemma FixedParts()
    ensures Slots([Keyword("DELETE"), Blank(' '), Keyword("FROM"), Blank(' ')]) == 0
    ensures Lexemes([Keyword("DELETE"), Blank(' '), Keyword("FROM"), Blank(' ')]) == [Word("DELETE"), Word("FROM")]
    ensures Slots([Keyword("UPDATE"), Blank(' ')]) == 0
    ensures Lexemes([Keyword("UPDATE"), Blank(' ')]) == [Word("UPDATE")]
    ensures Slots([Keyword("INSERT"), Blank(' '), Keyword("INTO"), Blank(' ')]) == 0
    ensures Lexemes([Keyword("INSERT"), Blank(' '), Keyword("INTO"), Blank(' ')]) == [Word("INSERT"), Word("INTO")]
    ensures Slots([Blank(' '), Keyword("WHERE"), Blank(' ')]) == 0
    ensures Lexemes([Blank(' '), Keyword("WHERE"), Blank(' ')]) == [Word("WHERE")]
    ensures Slots([Blank(' '), Keyword("SET"), Blank(' ')]) == 0
    ensures Lexemes([Blank(' '), Keyword("SET"), Blank(' ')]) == [Word("SET")]
  {
  }

  lemma FixedMarks()
    ensures Lexemes(AndPieces) == [Word("AND")] && Lexemes(CommaPieces) == [Symbol(',')]
    ensures Slots([Blank(' '), Mark('(')]) == 0 && Lexemes([Blank(' '), Mark('(')]) == [Symbol('(')]
    ensures Slots([Mark(')'), Blank(' '), Keyword("VALUES"), Blank(' '), Mark('(')]) == 0
    ensures Lexemes([Mark(')'), Blank(' '), Keyword("VALUES"), Blank(' '), Mark('(')])
         == [Symbol(')'), Word("VALUES"), Symbol('(')]
    ensures Slots([Mark(')')]) == 0 && Lexemes([Mark(')')]) == [Symbol(')')]
  {
  }

  // ---- Deletes ----

  lemma DeletePiecesSay(database: string, table: string, keys: seq<string>, rowKey: Record)
    requires keys != [] && ParamsFor(keys, rowKey).Some?
    ensures Slots(DeletePieces(database, table, keys)) == |ParamsFor(keys, rowKey).value|
    ensures Said(DeletePieces(database, table, keys), ParamsFor(keys, rowKey).value)
         == DeleteSays(database, table, keys, rowKey)
  {
    hide Said, Slots, Lexemes, TablePieces, ListPieces, Equalities, TableLexemes, ParamsFor, Separates;
    SeparatesAnd();
    FixedParts();
    FixedMarks();
    TableSays(database, table);
    ListSays(ConditionPart, keys, rowKey, AndPieces, " AND ");
    var a, b := [Keyword("DELETE"), Blank(' '), Keyword("FROM"), Blank(' ')], TablePieces(database, table);
    var c, d := [Blank(' '), Keyword("WHERE"), Blank(' ')], ListPieces(ConditionPart, keys, AndPieces);
    SlotsOfTwo(a, b);
    FlatOfTwo(a, b);
    SlotsOfTwo(a + b, c);
    FlatOfTwo(a + b, c);
    SaidAfter(a + b + c, d, ParamsFor(keys, rowKey).value);
  }

  lemma DeleteMadeOf(payload: Payload, keys: seq<string>, rowKey: Record)
    requires Printable(rowKey) && BuildDelete(payload.database, payload.table, keys, rowKey).Some?
    ensures keys != [] && ParamsFor(keys, rowKey).Some?
    ensures var statement := BuildDelete(payload.database, payload.table, keys, rowKey).value;
      && statement.params == ParamsFor(keys, rowKey).value
      && MadeOf(statement, DeletePieces(payload.database, payload.table, keys))
  {
    hide Flat, Slots, Template, Unmarked, TableText, Join, Conditions, IsNumberText, ParamFine, ParamsFor, DeletePieces;
    ParamsAreFine(keys, rowKey);
    DeleteLays(payload.database, payload.table, keys);
  }

  /** A rendered delete is read as one on the table where each key column has its own value. */
  lemma DeleteIsRead(payload: Payload, keys: seq<string>, rowKey: Record)
    requires Printable(rowKey)
    requires var built := BuildDelete(payload.database, payload.table, keys, rowKey);
      built.Some? && Rendered(built.value).Some?
    ensures var built := BuildDelete(payload.database, payload.table, keys, rowKey);
      Lex(Rendered(built.value).value) == Some(DeleteSays(payload.database, payload.table, keys, rowKey))
  {
    hide *;
    DeleteMadeOf(payload, keys, rowKey);
    DeletePiecesSay(payload.database, payload.table, keys, rowKey);
    RenderedSays(BuildDelete(payload.database, payload.table, keys, rowKey).value,
      DeletePieces(payload.database, payload.table, keys));
  }

  // ---- Updates ----

  lemma UpdatePiecesSay(database: string, table: string, names: seq<string>, keys: seq<string>, update: Update)
    requires names != [] && keys != []
    requires ParamsFor(names, update.values).Some? && ParamsFor(keys, update.row_key).Some?
    ensures var params := ParamsFor(names, update.values).value + ParamsFor(keys, update.row_key).value;
      && Slots(UpdatePieces(database, table, names, keys)) == |params|
      && Said(UpdatePieces(database, table, names, keys), params) == UpdateSays(database, table, names, keys, update)
  {
    hide Said, Slots, Lexemes, TablePieces, ListPieces, Equalities, TableLexemes, ParamsFor, Separates;
    SeparatesAnd();
    SeparatesComma();
    FixedParts();
    FixedMarks();
    TableSays(database, table);
    ListSays(ConditionPart, names, update.values, CommaPieces, ", ");
    ListSays(ConditionPart, keys, update.row_key, AndPieces, " AND ");
    var a, b := [Keyword("UPDATE"), Blank(' ')], TablePieces(database, table);
    var c, d := [Blank(' '), Keyword("SET"), Blank(' ')], ListPieces(ConditionPart, names, CommaPieces);
    var e, f := [Blank(' '), Keyword("WHERE"), Blank(' ')], ListPieces(ConditionPart, keys, AndPieces);
    var first, second := ParamsFor(names, update.values).value, ParamsFor(keys, update.row_key).value;
    SlotsOfTwo(a, b);
    FlatOfTwo(a, b);
    SlotsOfTwo(a + b, c);
    FlatOfTwo(a + b, c);
    SaidAfter(a + b + c, d, first);
    SaidBefore(a + b + c + d, e, first);
    assert (first + second)[..|first|] == first && (first + second)[|first|..] == second;
    SaidInTwo(a + b + c + d + e, f, first + second);
  }

  lemma UpdateMadeOf(payload: Payload, columns: seq<Column>, keys: seq<string>, update: Update)
    requires Printable(update.values) && Printable(update.row_key)
    requires SetColumns(columns, update.values) != []
    requires BuildUpdate(payload.database, payload.table, columns, keys, update).Some?
    ensures var names := SetColumns(columns, update.values);
      && keys != [] && ParamsFor(names, update.values).Some? && ParamsFor(keys, update.row_key).Some?
      && var statement := BuildUpdate(payload.database, payload.table, columns, keys, update).value;
      && statement.params == ParamsFor(names, update.values).value + ParamsFor(keys, update.row_key).value
      && MadeOf(statement, UpdatePieces(payload.database, payload.table, names, keys))
  {
    hide Flat, Slots, Template, Unmarked, TableText, Join, Conditions, IsNumberText, ParamFine, ParamsFor, UpdatePieces,
      SetColumns;
    var names := SetColumns(columns, update.values);
    ParamsAreFine(names, update.values);
    ParamsAreFine(keys, update.row_key);
    UpdateLays(payload.database, payload.table, names, keys);
  }

  /** A rendered update is read as one that sets each column to its own value where each key column has its own. */
  lemma UpdateIsRead(payload: Payload, columns: seq<Column>, keys: seq<string>, update: Update)
    requires Printable(update.values) && Printable(update.row_key) && SetColumns(columns, update.values) != []
    requires var built := BuildUpdate(payload.database, payload.table, columns, keys, update);
      built.Some? && Rendered(built.value).Some?
    ensures var built := BuildUpdate(payload.database, payload.table, columns, keys, update);
      Lex(Rendered(built.value).value)
      == Some(UpdateSays(payload.database, payload.table, SetColumns(columns, update.values), keys, update))
  {
    hide *;
    UpdateMadeOf(payload, columns, keys, update);
    var names := SetColumns(columns, update.values);
    UpdatePiecesSay(payload.database, payload.table, names, keys, update);
    RenderedSays(BuildUpdate(payload.database, payload.table, columns, keys, update).value,
      UpdatePieces(payload.database, payload.table, names, keys));
  }

  // ---- Inserts ----

  lemma {:induction false} NamesSay(names: seq<string>)
    requires names != []
    ensures Slots(ListPieces(NamePart, names, CommaPieces)) == 0
    ensures Lexemes(ListPieces(NamePart, names, CommaPieces)) == NameLexemes(names)
  {
    hide Slots, Lexemes;
    OneQuoted(names[0]);
    if |names| > 1 {
      FixedMarks();
      SeparatesComma();
      SeparatorIsPlain(CommaPieces, ", ");
      NamesSay(names[1..]);
      var part, rest := [Quoted(names[0])], ListPieces(NamePart, names[1..], CommaPieces);
      SlotsOfTwo(part, CommaPieces);
      FlatOfTwo(part, CommaPieces);
      SlotsOfTwo(part + CommaPieces, rest);
      FlatOfTwo(part + CommaPieces, rest);
    }
  }

  lemma InsertPiecesSay(database: string, table: string, names: seq<string>, values: Record)
    requires names != [] && ParamsFor(names, values).Some?
    ensures Slots(InsertPieces(database, table, names)) == |ParamsFor(names, values).value|
    ensures Said(InsertPieces(database, table, names), ParamsFor(names, values).value)
         == InsertSays(database, table, names, values)
  {
    hide Said, Slots, Lexemes, TablePieces, ListPieces, ValueList, NameLexemes, TableLexemes, ParamsFor, Separates;
    SeparatesComma();
    FixedParts();
    FixedMarks();
    TableSays(database, table);
    NamesSay(names);
    ListSays(SlotPart, names, values, CommaPieces, ", ");
    var a, b := [Keyword("INSERT"), Blank(' '), Keyword("INTO"), Blank(' ')], TablePieces(database, table);
    var c, d := [Blank(' '), Mark('(')], ListPieces(NamePart, names, CommaPieces);
    var e := [Mark(')'), Blank(' '), Keyword("VALUES"), Blank(' '), Mark('(')];
    var f, g := ListPieces(SlotPart, names, CommaPieces), [Mark(')')];
    var params := ParamsFor(names, values).value;
    SlotsOfTwo(a, b);
    FlatOfTwo(a, b);
    SlotsOfTwo(a + b, c);
    FlatOfTwo(a + b, c);
    SlotsOfTwo(a + b + c, d);
    FlatOfTwo(a + b + c, d);
    SlotsOfTwo(a + b + c + d, e);
    FlatOfTwo(a + b + c + d, e);
    SaidAfter(a + b + c + d + e, f, params);
    SaidBefore(a + b + c + d + e + f, g, params);
  }

  lemma InsertMadeOf(payload: Payload, columns: seq<Column>, values: Record)
    requires Printable(values) && InsertColumns(columns, values) != []
    requires BuildInsert(payload.database, payload.table, columns, values).Some?
    ensures var names := InsertColumns(columns, values);
      && ParamsFor(names, values).Some?
      && var statement := BuildInsert(payload.database, payload.table, columns, values).value;
      && statement.params == ParamsFor(names, values).value
      && MadeOf(statement, InsertPieces(payload.database, payload.table, names))
  {
    hide Flat, Slots, Template, Unmarked, TableText, Join, QuotedNames, Placeholders, IsNumberText, ParamFine,
      ParamsFor, InsertPieces, InsertColumns;
    var names := InsertColumns(columns, values);
    ParamsAreFine(names, values);
    InsertLays(payload.database, payload.table, names);
  }

  /** A rendered insert is read as one that gives each column its own value. */
  lemma InsertIsRead(payload: Payload, columns: seq<Column>, values: Record)
    requires Printable(values) && InsertColumns(columns, values) != []
    requires var built := BuildInsert(payload.database, payload.table, columns, values);
      built.Some? && Rendered(built.value).Some?
    ensures var built := BuildInsert(payload.database, payload.table, columns, values);
      Lex(Rendered(built.value).value)
      == Some(InsertSays(payload.database, payload.table, InsertColumns(columns, values), values))
  {
    hide *;
    InsertMadeOf(payload, columns, values);
    var names := InsertColumns(columns, values);
    InsertPiecesSay(payload.database, payload.table, names, values);
    RenderedSays(BuildInsert(payload.database, payload.table, columns, values).value,
      InsertPieces(payload.database, payload.table, names));
  }

  // ---- Which columns are named ----

  /** An update sets exactly the table's columns that it has a value for. */
  lemma {:induction false} SetColumnsAre(columns: seq<Column>, values: Record, name: string)
    ensures name in SetColumns(columns, values) <==> name in values && exists c <- columns :: c.name == name
  {
    if columns != [] {
      SetColumnsAre(columns[1..], values, name);
      assert columns == [columns[0]] + columns[1..];
    }
  }

  /** An insert leaves out columns without a value, and automatic ones whose value is null. */
  lemma {:induction false} InsertColumnsAre(columns: seq<Column>, values: Record, name: string)
    ensures name in InsertColumns(columns, values)
        <==> name in values && exists c <- columns :: c.name == name && !(c.auto_increment && values[name] == Null)
  {
    if columns != [] {
      InsertColumnsAre(columns[1..], values, name);
      assert columns == [columns[0]] + columns[1..];
    }
  }
}
