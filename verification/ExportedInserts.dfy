/** The exported INSERT text parses back to every row, exactly once and in order. */
module ExportedInserts {
  import opened MysqlLexer
  import opened SqlExport
  import opened SqlLists
  import opened SqlPrinters
  import opened Text

  // ---- The values that a reader should get ----

  function NumberOf(n: int): Scalar { NumberScalar(n < 0, if n < 0 then Decimal(-n) else Decimal(n)) }

  /** The value of a cell for the reader: flags are the numbers 1 and 0, other JSON is its text. */
  function ScalarOf(cell: Cell): Scalar
    requires cell.Plain?
  {
    if cell.value.None? then NullScalar
    else
      match cell.value.value
      case Null => NullScalar
      case Bool(flag) => NumberScalar(false, if flag then "1" else "0")
      case Integer(n) => NumberOf(n)
      case Real(negative, digits) => NumberScalar(negative, digits)
      case Str(text) => TextScalar(text)
      case Nested(json) => TextScalar(json)
  }

  /** Any JSON value, a fractional number being written as an unsigned number after its sign. */
  predicate Readable(cell: Cell) {
    cell.Plain? && (cell.value.Some? && cell.value.value.Real? ==> IsNumberText(cell.value.value.digits))
  }

  ghost predicate ReadableRow(row: Row, names: seq<string>) { forall name <- names :: Readable(CellAt(row, name)) }

  ghost predicate ReadableRows(rows: seq<Row>, names: seq<string>) { forall row <- rows :: ReadableRow(row, names) }

  function ScalarsOf(row: Row, names: seq<string>): (r: seq<Scalar>)
    requires ReadableRow(row, names)
    ensures |r| == |names| && forall i :: 0 <= i < |names| ==> r[i] == ScalarOf(CellAt(row, names[i]))
  {
    if names == [] then [] else [ScalarOf(CellAt(row, names[0]))] + ScalarsOf(row, names[1..])
  }

  function RowsOf(rows: seq<Row>, names: seq<string>): (r: seq<seq<Scalar>>)
    requires ReadableRows(rows, names)
    ensures |r| == |rows| && forall i :: 0 <= i < |rows| ==> r[i] == ScalarsOf(rows[i], names)
  {
    if rows == [] then [] else [ScalarsOf(rows[0], names)] + RowsOf(rows[1..], names)
  }

  function InsertsOf(database: string, table: string, names: seq<string>, rows: seq<Row>): seq<Insert>
    requires ReadableRows(rows, names)
  {
    if rows == [] then []
    else
      var n := if |rows| < CHUNK then |rows| else CHUNK;
      [Insert(database, table, names, RowsOf(rows[..n], names))] + InsertsOf(database, table, names, rows[n..])
  }

  // ---- Parsing what is printed ----

  function ScalarLexemes(scalar: Scalar): seq<Lexeme> {
    match scalar
    case NullScalar => [Word("NULL")]
    case NumberScalar(negative, digits) => (if negative then [Symbol('-')] else []) + [Numeral(digits)]
    case TextScalar(text) => [Literal(text)]
  }

  function ScalarsLexemes(scalars: seq<Scalar>): seq<Lexeme> {
    if scalars == [] then []
    else if |scalars| == 1 then ScalarLexemes(scalars[0])
    else ScalarLexemes(scalars[0]) + [Symbol(',')] + ScalarsLexemes(scalars[1..])
  }

  function RowsLexemes(rows: seq<seq<Scalar>>): seq<Lexeme> {
    if rows == [] then []
    else
      [Symbol('(')] + ScalarsLexemes(rows[0]) + [Symbol(')')]
      + (if |rows| == 1 then [Symbol(';')] else [Symbol(',')]) + RowsLexemes(rows[1..])
  }

  function LineLexemes(database: string, table: string, names: seq<string>): seq<Lexeme> {
    [Word("INSERT"), Word("INTO"), Name(database), Symbol('.'), Name(table), Symbol('(')] + NameLexemes(names)
    + [Symbol(')'), Word("VALUES")]
  }

  function InsertsLexemes(inserts: seq<Insert>): seq<Lexeme> {
    if inserts == [] then []
    else
      LineLexemes(inserts[0].database, inserts[0].table, inserts[0].columns) + RowsLexemes(inserts[0].rows)
      + InsertsLexemes(inserts[1..])
  }

  lemma ScalarParses(scalar: Scalar, rest: seq<Lexeme>)
    ensures ParseScalar(ScalarLexemes(scalar) + rest) == Some(Parse(scalar, rest))
  {
    var s := ScalarLexemes(scalar) + rest;
    if scalar.NumberScalar? && scalar.negative {
      assert s[2..] == rest;
    } else {
      assert s[1..] == rest;
    }
  }

  lemma ScalarAt(s: seq<Lexeme>, scalar: Scalar, rest: seq<Lexeme>)
    requires ParseScalar(s) == Some(Parse(scalar, rest))
    ensures ParseScalars(s)
         == if rest != [] && rest[0] == Symbol(',') then
              match ParseScalars(rest[1..])
              case None => None
              case Some(more) => Some(Parse([scalar] + more.value, more.rest))
            else Some(Parse([scalar], rest))
  {
    hide ParseScalar;
  }

  lemma ScalarsLexemesStep(scalars: seq<Scalar>, rest: seq<Lexeme>)
    requires scalars != []
    ensures ScalarsLexemes(scalars) + rest
         == ScalarLexemes(scalars[0])
            + if |scalars| == 1 then rest else [Symbol(',')] + (ScalarsLexemes(scalars[1..]) + rest)
  {
    hide ScalarLexemes;
    ScalarsUnfold(scalars);
    hide ScalarsLexemes;
    if |scalars| > 1 {
      Reassociate(ScalarLexemes(scalars[0]), [Symbol(',')], ScalarsLexemes(scalars[1..]), rest);
    }
  }

  lemma ScalarsUnfold(scalars: seq<Scalar>)
    requires scalars != []
    ensures ScalarsLexemes(scalars)
         == if |scalars| == 1 then ScalarLexemes(scalars[0])
            else ScalarLexemes(scalars[0]) + [Symbol(',')] + ScalarsLexemes(scalars[1..])
  {
    hide ScalarLexemes;
  }

  lemma {:induction false} ScalarsParse(scalars: seq<Scalar>, rest: seq<Lexeme>)
    requires scalars != [] && (rest == [] || rest[0] != Symbol(','))
    ensures ParseScalars(ScalarsLexemes(scalars) + rest) == Some(Parse(scalars, rest))
  {
    hide *;
    ScalarsLexemesStep(scalars, rest);
    if |scalars| == 1 {
      LastScalarParses(scalars[0], rest);
      assert [scalars[0]] == scalars;
    } else {
      ScalarsParse(scalars[1..], rest);
      NextScalarParses(scalars[0], ScalarsLexemes(scalars[1..]) + rest, scalars[1..], rest);
      assert [scalars[0]] + scalars[1..] == scalars;
    }
  }

  lemma LastScalarParses(scalar: Scalar, rest: seq<Lexeme>)
    requires rest == [] || rest[0] != Symbol(',')
    ensures ParseScalars(ScalarLexemes(scalar) + rest) == Some(Parse([scalar], rest))
  {
    hide *;
    ScalarParses(scalar, rest);
    ScalarAt(ScalarLexemes(scalar) + rest, scalar, rest);
  }

  lemma NextScalarParses(scalar: Scalar, tail: seq<Lexeme>, more: seq<Scalar>, rest: seq<Lexeme>)
    requires ParseScalars(tail) == Some(Parse(more, rest))
    ensures ParseScalars(ScalarLexemes(scalar) + ([Symbol(',')] + tail)) == Some(Parse([scalar] + more, rest))
  {
    hide *;
    ScalarParses(scalar, [Symbol(',')] + tail);
    ScalarAt(ScalarLexemes(scalar) + ([Symbol(',')] + tail), scalar, [Symbol(',')] + tail);
    assert ([Symbol(',')] + tail)[1..] == tail;
  }

  lemma RowAt(s: seq<Lexeme>, row: seq<Scalar>, after: seq<Lexeme>)
    requires s != [] && s[0] == Symbol('(') && ParseScalars(s[1..]) == Some(Parse(row, after))
    requires |after| >= 2 && after[0] == Symbol(')')
    ensures ParseRows(s)
         == if after[1] != Symbol(',') then Some(Parse([row], after[1..]))
            else
              match ParseRows(after[2..])
              case None => None
              case Some(more) => Some(Parse([row] + more.value, more.rest))
  {
    hide ParseScalars;
  }

  /** One row and what follows it. */
  lemma RowParses(row: seq<Scalar>, rest: seq<Lexeme>)
    requires row != [] && rest != []
    ensures ParseRows([Symbol('(')] + ScalarsLexemes(row) + [Symbol(')')] + rest)
         == if rest[0] != Symbol(',') then Some(Parse([row], rest))
            else
              match ParseRows(rest[1..])
              case None => None
              case Some(more) => Some(Parse([row] + more.value, more.rest))
  {
    hide *;
    var after := [Symbol(')')] + rest;
    var s := [Symbol('(')] + ScalarsLexemes(row) + [Symbol(')')] + rest;
    ScalarsParse(row, after);
    assert s[1..] == ScalarsLexemes(row) + after;
    RowAt(s, row, after);
    assert after[1..] == rest && after[2..] == rest[1..];
  }

  lemma Reassociate(a: seq<Lexeme>, b: seq<Lexeme>, c: seq<Lexeme>, d: seq<Lexeme>)
    ensures a + b + c + d == a + (b + (c + d))
  {
  }

  lemma RowsLexemesUnfold(rows: seq<seq<Scalar>>)
    requires rows != []
    ensures RowsLexemes(rows)
         == [Symbol('(')] + ScalarsLexemes(rows[0]) + [Symbol(')')]
            + (if |rows| == 1 then [Symbol(';')] else [Symbol(',')]) + RowsLexemes(rows[1..])
  {
    hide ScalarsLexemes;
  }

  lemma RowsLexemesStep(rows: seq<seq<Scalar>>, rest: seq<Lexeme>)
    requires rows != []
    ensures RowsLexemes(rows) + rest
         == [Symbol('(')] + ScalarsLexemes(rows[0]) + [Symbol(')')]
            + if |rows| == 1 then [Symbol(';')] + rest else [Symbol(',')] + (RowsLexemes(rows[1..]) + rest)
  {
    hide *;
    var row := [Symbol('(')] + ScalarsLexemes(rows[0]) + [Symbol(')')];
    var end := if |rows| == 1 then [Symbol(';')] else [Symbol(',')];
    RowsLexemesUnfold(rows);
    Reassociate(row, end, RowsLexemes(rows[1..]), rest);
    if |rows| == 1 {
      NoRowsNoLexemes();
      assert rows[1..] == [];
      assert [] + rest == rest;
    }
  }

  lemma NoRowsNoLexemes()
    ensures RowsLexemes([]) == []
  {
  }

  lemma {:induction false} RowsParse(rows: seq<seq<Scalar>>, rest: seq<Lexeme>)
    requires rows != [] && forall row <- rows :: row != []
    ensures ParseRows(RowsLexemes(rows) + rest) == Some(Parse(rows, [Symbol(';')] + rest))
  {
    hide ScalarsLexemes, ParseRows, RowsLexemes;
    RowsLexemesStep(rows, rest);
    assert rows[0] in rows;
    assert [rows[0]] + rows[1..] == rows;
    if |rows| == 1 {
      RowParses(rows[0], [Symbol(';')] + rest);
      assert [rows[0]] == rows;
    } else {
      var tail := RowsLexemes(rows[1..]) + rest;
      assert forall row <- rows[1..] :: row in rows;
      RowsParse(rows[1..], rest);
      RowParses(rows[0], [Symbol(',')] + tail);
      assert ([Symbol(',')] + tail)[1..] == tail;
    }
  }

  lemma InsertParses(insert: Insert, rest: seq<Lexeme>)
    requires insert.columns != [] && insert.rows != [] && forall row <- insert.rows :: row != []
    ensures ParseInsert(LineLexemes(insert.database, insert.table, insert.columns) + RowsLexemes(insert.rows) + rest)
         == Some(Parse(insert, rest))
  {
    hide NameLexemes, RowsLexemes, ParseNames, ParseRows;
    var body := RowsLexemes(insert.rows) + rest;
    var s := LineLexemes(insert.database, insert.table, insert.columns) + RowsLexemes(insert.rows) + rest;
    NamesParse(insert.columns, [Symbol(')'), Word("VALUES")] + body);
    RowsParse(insert.rows, rest);
    assert s[6..] == NameLexemes(insert.columns) + ([Symbol(')'), Word("VALUES")] + body);
    assert ([Symbol(')'), Word("VALUES")] + body)[2..] == body;
    assert ([Symbol(';')] + rest)[1..] == rest;
  }

  ghost predicate Proper(insert: Insert) {
    insert.columns != [] && insert.rows != [] && forall row <- insert.rows :: row != []
  }

  lemma InsertsParseOn(s: seq<Lexeme>, first: Insert, rest: seq<Lexeme>, more: seq<Insert>)
    requires s != [] && ParseInsert(s) == Some(Parse(first, rest)) && ParseInserts(rest) == Some(more)
    ensures ParseInserts(s) == Some([first] + more)
  {
    hide ParseInsert;
  }

  lemma LineIsNotEmpty(insert: Insert)
    ensures LineLexemes(insert.database, insert.table, insert.columns) != []
  {
  }

  lemma InsertsLexemesStep(inserts: seq<Insert>)
    requires inserts != []
    ensures InsertsLexemes(inserts)
         == LineLexemes(inserts[0].database, inserts[0].table, inserts[0].columns) + RowsLexemes(inserts[0].rows)
            + InsertsLexemes(inserts[1..])
  {
  }

  lemma ProperParts(insert: Insert)
    requires Proper(insert)
    ensures insert.columns != [] && insert.rows != [] && forall row <- insert.rows :: row != []
  {
  }

  /** The parser undoes the printer's lexemes. */
  lemma {:induction false} InsertsParse(inserts: seq<Insert>)
    requires forall insert <- inserts :: Proper(insert)
    ensures ParseInserts(InsertsLexemes(inserts)) == Some(inserts)
  {
    hide *;
    if inserts == [] {
      NothingParses();
    } else {
      var first, rest := inserts[0], inserts[1..];
      assert forall insert <- rest :: insert in inserts;
      InsertsLexemesStep(inserts);
      InsertsParse(rest);
      ProperParts(first);
      InsertParses(first, InsertsLexemes(rest));
      LineIsNotEmpty(first);
      InsertsParseOn(InsertsLexemes(inserts), first, InsertsLexemes(rest), rest);
      assert [first] + rest == inserts;
    }
  }

  lemma NothingParses()
    ensures InsertsLexemes([]) == [] && ParseInserts([]) == Some([])
  {
  }

  // ---- The printed text in pieces ----

  function ScalarText(scalar: Scalar): string {
    match scalar
    case NullScalar => "NULL"
    case NumberScalar(negative, digits) => (if negative then "-" else "") + digits
    case TextScalar(text) => QuoteLiteral(text)
  }

  function ScalarPiece(scalar: Scalar): Piece {
    match scalar
    case NullScalar => Keyword("NULL")
    case NumberScalar(negative, digits) => Number(negative, digits)
    case TextScalar(text) => Piece.Text(text)
  }

  lemma ScalarPieceFine(scalar: Scalar)
    requires scalar.NumberScalar? ==> IsNumberText(scalar.digits)
    ensures Fine(ScalarPiece(scalar))
    ensures PieceText(ScalarPiece(scalar)) == ScalarText(scalar)
    ensures PieceLexemes(ScalarPiece(scalar)) == ScalarLexemes(scalar)
    ensures var p := ScalarPiece(scalar); p.Keyword? || p.Number? || p.Text?
  {
    hide IsNumberText, QuoteLiteral;
  }

  lemma CellText(cell: Cell)
    requires cell.Plain?
    ensures RenderSqlLiteral(cell) == ScalarText(ScalarOf(cell))
  {
    hide Decimal, QuoteLiteral;
    assert forall s: string :: "" + s == s;
  }

  lemma CellNumber(cell: Cell)
    requires Readable(cell) && ScalarOf(cell).NumberScalar?
    ensures IsNumberText(ScalarOf(cell).digits)
  {
    hide Decimal, IsNumberText;
    match cell.value.value
    case Bool(flag) => DigitsAreNumbers();
    case Integer(n) => DecimalIsNumber(if n < 0 then -n else n);
    case Real(_, _) =>
  }

  lemma DigitsAreNumbers()
    ensures IsNumberText("1") && IsNumberText("0")
  {
    AllDigitsEnd("1", 1);
    AllDigitsEnd("0", 1);
  }

  // ---- The layout of the text ----

  lemma {:induction false} LiteralsRead(row: Row, names: seq<string>) returns (pieces: seq<Piece>)
    requires names != [] && ReadableRow(row, names)
    ensures Reads(pieces, Join(Literals(row, names), ", "), ScalarsLexemes(ScalarsOf(row, names)))
    ensures pieces != [] && !pieces[|pieces| - 1].Remark? && !pieces[0].Remark?
  {
    hide Reads, CellAt, ScalarLexemes, ScalarPiece, ScalarText, RenderSqlLiteral, IsNumberText;
    var cell := CellAt(row, names[0]);
    assert Readable(cell);
    if ScalarOf(cell).NumberScalar? { CellNumber(cell); }
    hide ScalarOf;
    CellText(cell);
    ScalarPieceFine(ScalarOf(cell));
    pieces := [ScalarPiece(ScalarOf(cell))];
    ReadsOne(ScalarPiece(ScalarOf(cell)));
    if |names| == 1 {
      assert Literals(row, names) == [RenderSqlLiteral(cell)];
      assert ScalarsOf(row, names) == [ScalarOf(cell)];
    } else {
      var rest := LiteralsRead(row, names[1..]);
      var comma := [Mark(','), Blank(' ')];
      CommaReads();
      ReadsOn(pieces, RenderSqlLiteral(cell), ScalarLexemes(ScalarOf(cell)), comma, ", ", [Symbol(',')]);
      ReadsOn(pieces + comma, RenderSqlLiteral(cell) + ", ", ScalarLexemes(ScalarOf(cell)) + [Symbol(',')],
        rest, Join(Literals(row, names[1..]), ", "), ScalarsLexemes(ScalarsOf(row, names[1..])));
      assert Literals(row, names)[1..] == Literals(row, names[1..]);
      assert ScalarsOf(row, names)[1..] == ScalarsOf(row, names[1..]);
      pieces := pieces + comma + rest;
    }
  }

  lemma RowOpens()
    ensures Reads([Blank(' '), Blank(' '), Mark('(')], "  (", [Symbol('(')])
  {
  }

  lemma RowEnds(last: bool)
    ensures Reads([Mark(if last then ';' else ','), Blank('\n')] + (if last then [Blank('\n')] else []),
              if last then ";\n\n" else ",\n", if last then [Symbol(';')] else [Symbol(',')])
  {
    if last {
      assert Reads([Mark(';'), Blank('\n'), Blank('\n')], ";\n\n", [Symbol(';')]);
      assert [Mark(';'), Blank('\n')] + [Blank('\n')] == [Mark(';'), Blank('\n'), Blank('\n')];
    } else {
      assert Reads([Mark(','), Blank('\n')], ",\n", [Symbol(',')]);
      assert [Mark(','), Blank('\n')] + [] == [Mark(','), Blank('\n')];
    }
  }

  lemma CloseReads()
    ensures Reads([Mark(')')], ")", [Symbol(')')])
  {
  }

  /** One row with its parentheses and what ends it. */
  lemma RowReads(row: Row, names: seq<string>, last: bool) returns (pieces: seq<Piece>)
    requires names != [] && ReadableRow(row, names)
    ensures Reads(pieces, RowText(row, names) + (if last then ";\n\n" else ",\n"),
              [Symbol('(')] + ScalarsLexemes(ScalarsOf(row, names)) + [Symbol(')')]
              + (if last then [Symbol(';')] else [Symbol(',')]))
    ensures pieces != [] && pieces[0].Blank? && pieces[|pieces| - 1].Blank?
  {
    hide Reads, ScalarsLexemes, Literals, Join;
    var literals := LiteralsRead(row, names);
    var text, lexemes := Join(Literals(row, names), ", "), ScalarsLexemes(ScalarsOf(row, names));
    var start := [Blank(' '), Blank(' '), Mark('(')];
    var end := [Mark(if last then ';' else ','), Blank('\n')] + (if last then [Blank('\n')] else []);
    RowOpens();
    RowEnds(last);
    CloseReads();
    ReadsOn(start, "  (", [Symbol('(')], literals, text, lexemes);
    ReadsOn(start + literals, "  (" + text, [Symbol('(')] + lexemes, [Mark(')')], ")", [Symbol(')')]);
    ReadsOn(start + literals + [Mark(')')], "  (" + text + ")", [Symbol('(')] + lexemes + [Symbol(')')],
      end, if last then ";\n\n" else ",\n", if last then [Symbol(';')] else [Symbol(',')]);
    pieces := start + literals + [Mark(')')] + end;
  }

  lemma {:induction false} RowsRead(rows: seq<Row>, names: seq<string>) returns (pieces: seq<Piece>)
    requires names != [] && ReadableRows(rows, names)
    ensures Reads(pieces, RowsText(rows, names), RowsLexemes(RowsOf(rows, names)))
    ensures pieces != [] ==> pieces[0].Blank? && pieces[|pieces| - 1].Blank?
  {
    hide Reads, ScalarsLexemes, RowText, ReadableRow;
    if rows == [] {
      NothingReads();
      pieces := [];
    } else {
      assert rows[0] in rows;
      var row := RowReads(rows[0], names, |rows| == 1);
      assert forall r <- rows[1..] :: r in rows;
      var rest := RowsRead(rows[1..], names);
      RowsUnfold(rows, names);
      ReadsOn(
        row, RowText(rows[0], names) + (if |rows| == 1 then ";\n\n" else ",\n"),
        [Symbol('(')] + ScalarsLexemes(ScalarsOf(rows[0], names)) + [Symbol(')')]
        + (if |rows| == 1 then [Symbol(';')] else [Symbol(',')]),
        rest, RowsText(rows[1..], names), RowsLexemes(RowsOf(rows[1..], names)));
      pieces := row + rest;
    }
  }

  lemma RowsUnfold(rows: seq<Row>, names: seq<string>)
    requires rows != [] && ReadableRows(rows, names)
    ensures ReadableRows(rows[1..], names) && ReadableRow(rows[0], names)
    ensures RowsText(rows, names)
         == RowText(rows[0], names) + (if |rows| == 1 then ";\n\n" else ",\n") + RowsText(rows[1..], names)
    ensures RowsLexemes(RowsOf(rows, names))
         == [Symbol('(')] + ScalarsLexemes(ScalarsOf(rows[0], names)) + [Symbol(')')]
            + (if |rows| == 1 then [Symbol(';')] else [Symbol(',')]) + RowsLexemes(RowsOf(rows[1..], names))
  {
    hide RowText, ScalarsLexemes, ReadableRow, RowsLexemes;
    assert RowsOf(rows, names)[1..] == RowsOf(rows[1..], names);
    RowsLexemesUnfold(RowsOf(rows, names));
  }

  lemma InsertOpens()
    ensures Reads([Keyword("INSERT"), Blank(' '), Keyword("INTO"), Blank(' ')], "INSERT INTO ",
              [Word("INSERT"), Word("INTO")])
  {
  }

  lemma ListOpens()
    ensures Reads([Blank(' '), Mark('(')], " (", [Symbol('(')])
  {
  }

  lemma ListCloses()
    ensures Reads([Mark(')'), Blank(' '), Keyword("VALUES"), Blank('\n')], ") VALUES\n", [Symbol(')'), Word("VALUES")])
  {
    assert Fine(Keyword("VALUES")) && Fine(Mark(')')) && Fine(Blank(' ')) && Fine(Blank('\n'));
  }

  lemma LineReads(database: string, table: string, names: seq<string>) returns (pieces: seq<Piece>)
    requires names != []
    ensures Reads(pieces, InsertLine(database, table, names), LineLexemes(database, table, names))
    ensures pieces != [] && pieces[0].Keyword? && pieces[|pieces| - 1].Blank?
  {
    hide Reads, TableText, Join, QuotedNames, NameLexemes;
    var a, c := [Keyword("INSERT"), Blank(' '), Keyword("INTO"), Blank(' ')], [Blank(' '), Mark('(')];
    var e := [Mark(')'), Blank(' '), Keyword("VALUES"), Blank('\n')];
    var b := TableReads(database, table);
    var d := NamesRead(names);
    var s, t := "INSERT INTO " + TableText(database, table), Join(QuotedNames(names), ", ");
    var x := [Word("INSERT"), Word("INTO")] + [Name(database), Symbol('.'), Name(table)];
    InsertOpens();
    ListOpens();
    ListCloses();
    ReadsOn(a, "INSERT INTO ", [Word("INSERT"), Word("INTO")],
      b, TableText(database, table), [Name(database), Symbol('.'), Name(table)]);
    ReadsOn(a + b, s, x, c, " (", [Symbol('(')]);
    ReadsOn(a + b + c, s + " (", x + [Symbol('(')], d, t, NameLexemes(names));
    ReadsOn(a + b + c + d, s + " (" + t, x + [Symbol('(')] + NameLexemes(names),
      e, ") VALUES\n", [Symbol(')'), Word("VALUES")]);
    pieces := a + b + c + d + e;
    assert x + [Symbol('(')]
        == [Word("INSERT"), Word("INTO"), Name(database), Symbol('.'), Name(table), Symbol('(')];
  }

  lemma BodyUnfold(database: string, table: string, names: seq<string>, rows: seq<Row>, n: nat)
    requires rows != [] && n == (if |rows| < CHUNK then |rows| else CHUNK) && ReadableRows(rows, names)
    ensures ReadableRows(rows[..n], names) && ReadableRows(rows[n..], names)
    ensures BodyText(database, table, names, rows)
         == InsertLine(database, table, names) + RowsText(rows[..n], names)
            + BodyText(database, table, names, rows[n..])
    ensures InsertsLexemes(InsertsOf(database, table, names, rows))
         == LineLexemes(database, table, names) + RowsLexemes(RowsOf(rows[..n], names))
            + InsertsLexemes(InsertsOf(database, table, names, rows[n..]))
  {
    hide ReadableRow, RowsText, InsertLine, LineLexemes, RowsLexemes, InsertsLexemes;
    assert forall row <- rows[..n] :: row in rows;
    assert forall row <- rows[n..] :: row in rows;
    var inserts := InsertsOf(database, table, names, rows);
    InsertsLexemesStep(inserts);
    assert inserts[1..] == InsertsOf(database, table, names, rows[n..]);
  }

  lemma {:induction false} BodyReads(database: string, table: string, names: seq<string>, rows: seq<Row>)
    returns (pieces: seq<Piece>)
    requires names != [] && ReadableRows(rows, names)
    ensures Reads(pieces, BodyText(database, table, names, rows),
              InsertsLexemes(InsertsOf(database, table, names, rows)))
    ensures pieces != [] ==> pieces[0].Keyword? && pieces[|pieces| - 1].Blank?
    decreases |rows|
  {
    if rows == [] {
      NothingReads();
      pieces := [];
    } else {
      var n := if |rows| < CHUNK then |rows| else CHUNK;
      BodyUnfold(database, table, names, rows, n);
      var line := LineReads(database, table, names);
      var body := RowsRead(rows[..n], names);
      var rest := BodyReads(database, table, names, rows[n..]);
      hide Reads, BodyText, InsertLine, RowsText, LineLexemes, RowsLexemes, InsertsLexemes, RowsOf, InsertsOf,
        ReadableRows;
      ReadsOn(line, InsertLine(database, table, names), LineLexemes(database, table, names),
        body, RowsText(rows[..n], names), RowsLexemes(RowsOf(rows[..n], names)));
      ReadsOn(
        line + body, InsertLine(database, table, names) + RowsText(rows[..n], names),
        LineLexemes(database, table, names) + RowsLexemes(RowsOf(rows[..n], names)),
        rest, BodyText(database, table, names, rows[n..]),
        InsertsLexemes(InsertsOf(database, table, names, rows[n..])));
      pieces := line + body + rest;
    }
  }

  lemma {:induction false} InsertsAreProper(database: string, table: string, names: seq<string>, rows: seq<Row>)
    requires names != [] && ReadableRows(rows, names)
    ensures forall insert <- InsertsOf(database, table, names, rows) :: Proper(insert)
    decreases |rows|
  {
    if rows != [] {
      var n := if |rows| < CHUNK then |rows| else CHUNK;
      assert forall row <- rows[n..] :: row in rows;
      assert forall row <- rows[..n] :: row in rows;
      InsertsAreProper(database, table, names, rows[n..]);
    }
  }

  /** The exported statements parse back to themselves, whatever the names and values hold. */
  lemma BodyParsesBack(database: string, table: string, names: seq<string>, rows: seq<Row>)
    requires names != [] && ReadableRows(rows, names)
    ensures var lexemes := Lex(BodyText(database, table, names, rows));
      lexemes.Some? && ParseInserts(lexemes.value) == Some(InsertsOf(database, table, names, rows))
  {
    var pieces := BodyReads(database, table, names, rows);
    LexPieces(pieces);
    InsertsAreProper(database, table, names, rows);
    InsertsParse(InsertsOf(database, table, names, rows));
    hide Lex, ParseInserts, BodyText, InsertsOf, InsertsLexemes, Lexemes, Flat, WellSpaced;
  }

  function AllRows(inserts: seq<Insert>): seq<seq<Scalar>> {
    if inserts == [] then [] else inserts[0].rows + AllRows(inserts[1..])
  }

  lemma {:induction false} RowsInTwo(rows: seq<Row>, names: seq<string>, n: nat)
    requires n <= |rows| && ReadableRows(rows, names)
    ensures ReadableRows(rows[..n], names) && ReadableRows(rows[n..], names)
    ensures RowsOf(rows, names) == RowsOf(rows[..n], names) + RowsOf(rows[n..], names)
  {
    hide ReadableRow, ScalarsOf;
    assert forall row <- rows[..n] :: row in rows;
    assert forall row <- rows[n..] :: row in rows;
  }

  lemma InsertsUnfold(database: string, table: string, names: seq<string>, rows: seq<Row>, n: nat)
    requires rows != [] && n == (if |rows| < CHUNK then |rows| else CHUNK) && ReadableRows(rows, names)
    ensures ReadableRows(rows[..n], names) && ReadableRows(rows[n..], names)
    ensures InsertsOf(database, table, names, rows)
         == [Insert(database, table, names, RowsOf(rows[..n], names))] + InsertsOf(database, table, names, rows[n..])
    ensures RowsOf(rows, names) == RowsOf(rows[..n], names) + RowsOf(rows[n..], names)
  {
    RowsInTwo(rows, names, n);
    hide ReadableRows, RowsOf;
  }

  /** The number of statements: as few as 200 rows each allow. */
  lemma {:induction false} InsertCount(database: string, table: string, names: seq<string>, rows: seq<Row>)
    requires ReadableRows(rows, names)
    ensures |InsertsOf(database, table, names, rows)| == (|rows| + 199) / 200
    ensures forall insert <- InsertsOf(database, table, names, rows) ::
      insert.database == database && insert.table == table && insert.columns == names && 1 <= |insert.rows| <= 200
    decreases |rows|
  {
    if rows != [] {
      var n := if |rows| < CHUNK then |rows| else CHUNK;
      InsertsUnfold(database, table, names, rows, n);
      InsertCount(database, table, names, rows[n..]);
      assert ReadableRows(rows[..n], names) && |RowsOf(rows[..n], names)| == n;
      hide InsertsOf, ReadableRows, RowsOf;
    }
  }

  /** Together the statements hold every row once and in order. */
  lemma {:induction false} InsertsHoldAllRows(database: string, table: string, names: seq<string>, rows: seq<Row>)
    requires ReadableRows(rows, names)
    ensures AllRows(InsertsOf(database, table, names, rows)) == RowsOf(rows, names)
    decreases |rows|
  {
    if rows != [] {
      var n := if |rows| < CHUNK then |rows| else CHUNK;
      InsertsUnfold(database, table, names, rows, n);
      InsertsHoldAllRows(database, table, names, rows[n..]);
      var inserts := InsertsOf(database, table, names, rows);
      assert inserts[1..] == InsertsOf(database, table, names, rows[n..]);
      hide InsertsOf, ReadableRows, RowsOf;
    }
  }
}
