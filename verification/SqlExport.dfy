/** Exporting table rows as INSERT statements, and reading the exported text back. */
module SqlExport {
  import opened JsonValues
  import opened MysqlLexer
  import opened SqlLists
  import opened SqlPrinters
  import opened Text

  /** A cell: a JSON value if the row has one, or a bit or binary value whose literal is taken as it is. */
  datatype Cell = Plain(value: Option<Json>) | BitOrHex(literal: string)

  type Row = map<string, Cell>

  const CHUNK := 200

  function CellAt(row: Row, name: string): (cell: Cell)
    ensures if name in row then cell == row[name] else cell == Plain(None)
  {
    if name in row then row[name] else Plain(None)
  }

  function RenderSqlLiteral(cell: Cell): string {
    match cell
    case BitOrHex(literal) => literal
    case Plain(None) => "NULL"
    case Plain(Some(value)) =>
      match value
      case Null => "NULL"
      case Bool(flag) => if flag then "1" else "0"
      case Integer(n) => if n < 0 then "-" + Decimal(-n) else Decimal(n)
      case Real(negative, digits) => (if negative then "-" else "") + digits
      case Str(text) => QuoteLiteral(text)
      case Nested(json) => QuoteLiteral(json)
  }

  function Literals(row: Row, names: seq<string>): seq<string> {
    if names == [] then [] else [RenderSqlLiteral(CellAt(row, names[0]))] + Literals(row, names[1..])
  }

  function InsertLine(database: string, table: string, names: seq<string>): string {
    "INSERT INTO " + TableText(database, table) + " (" + Join(QuotedNames(names), ", ") + ") VALUES\n"
  }

  function RowText(row: Row, names: seq<string>): string { "  (" + Join(Literals(row, names), ", ") + ")" }

  /** The rows of one statement. */
  function RowsText(rows: seq<Row>, names: seq<string>): string {
    if rows == [] then ""
    else RowText(rows[0], names) + (if |rows| == 1 then ";\n\n" else ",\n") + RowsText(rows[1..], names)
  }

  /** The statements, each with up to 200 rows. */
  function BodyText(database: string, table: string, names: seq<string>, rows: seq<Row>): string {
    if rows == [] then ""
    else
      var n := if |rows| < CHUNK then |rows| else CHUNK;
      InsertLine(database, table, names) + RowsText(rows[..n], names) + BodyText(database, table, names, rows[n..])
  }

  function Title(): string { "ZSZC SQL Client 表数据导出" }

  function EmptyNote(): string { "当前范围没有可导出的数据行" }

  function HeaderText(database: string, table: string, count: nat): string {
    "-- " + Title() + "\n" + "-- source: " + TableText(database, table) + "\n"
    + "-- rows: " + Decimal(count) + "\n\n"
  }

  function ExportText(database: string, table: string, names: seq<string>, rows: seq<Row>): string {
    HeaderText(database, table, |rows|)
    + if names == [] || rows == [] then "-- " + EmptyNote() + "\n" else BodyText(database, table, names, rows)
  }

  method AppendRows(before: string, rows: seq<Row>, names: seq<string>) returns (output: string)
    ensures output == before + RowsText(rows, names)
  {
    hide RowText;
    output := before;
    for k := 0 to |rows|
      invariant output + RowsText(rows[k..], names) == before + RowsText(rows, names)
    {
      ghost var rest := RowsText(rows[k + 1..], names);
      assert rows[k..][1..] == rows[k + 1..];
      var end := if k + 1 == |rows| then ";\n\n" else ",\n";
      assert output + (RowText(rows[k], names) + end + rest) == output + RowText(rows[k], names) + end + rest;
      output := output + RowText(rows[k], names) + end;
    }
    assert rows[|rows|..] == [];
  }

  /** Every export starts with its title, its source and the number of its rows, each in a comment of its own. */
  lemma ExportIsHeaded(database: string, table: string, names: seq<string>, rows: seq<Row>)
    ensures
      var title, source := "-- ZSZC SQL Client 表数据导出\n-- source: ", TableText(database, table);
      title + source + "\n-- rows: " + Decimal(|rows|) + "\n\n" <= ExportText(database, table, names, rows)
  {
    hide *;
    HeaderIsFirst(database, table, names, rows);
    HeaderSays(database, table, |rows|);
  }

  lemma HeaderSays(database: string, table: string, count: nat)
    ensures HeaderText(database, table, count)
         == "-- ZSZC SQL Client 表数据导出\n-- source: " + TableText(database, table) + "\n-- rows: "
            + Decimal(count) + "\n\n"
  {
    TitleSays();
    Regrouped("-- " + Title() + "\n", "-- source: ", TableText(database, table), "\n", "-- rows: ", Decimal(count));
    hide TableText, Decimal, Title;
  }

  lemma TitleSays()
    ensures "-- " + Title() + "\n" + "-- source: " == "-- ZSZC SQL Client 表数据导出\n-- source: "
    ensures "\n" + "-- rows: " == "\n-- rows: "
  {
  }

  lemma Regrouped(a: string, b: string, c: string, d: string, e: string, f: string)
    ensures a + b + c + d + e + f == (a + b) + c + (d + e) + f
  {
    assert c + (d + e) == c + d + e;
  }

  lemma HeaderIsFirst(database: string, table: string, names: seq<string>, rows: seq<Row>)
    ensures HeaderText(database, table, |rows|) <= ExportText(database, table, names, rows)
  {
    hide HeaderText, BodyText, EmptyNote;
  }

  method BuildTableDataSqlText(database: string, table: string, names: seq<string>, rows: seq<Row>)
    returns (output: string)
    ensures output == ExportText(database, table, names, rows)
  {
    hide RowsText, InsertLine, HeaderText, EmptyNote;
    output := HeaderText(database, table, |rows|);
    if names == [] || rows == [] {
      return output + ("-- " + EmptyNote() + "\n");
    }
    ghost var header := output;
    var start := 0;
    while start < |rows|
      invariant 0 <= start <= |rows|
      invariant output + BodyText(database, table, names, rows[start..])
             == header + BodyText(database, table, names, rows)
    {
      var end := if start + CHUNK < |rows| then start + CHUNK else |rows|;
      ghost var n := end - start;
      ghost var line := InsertLine(database, table, names);
      ghost var rest := BodyText(database, table, names, rows[end..]);
      assert rows[start..][..n] == rows[start..end] && rows[start..][n..] == rows[end..];
      assert output + (line + RowsText(rows[start..end], names) + rest)
          == output + line + RowsText(rows[start..end], names) + rest;
      output := output + InsertLine(database, table, names);
      output := AppendRows(output, rows[start..end], names);
      start := end;
    }
    assert rows[|rows|..] == [];
  }

  // ---- Reading statements back ----

  datatype Scalar = NullScalar | NumberScalar(negative: bool, digits: string) | TextScalar(text: string)

  datatype Insert = Insert(database: string, table: string, columns: seq<string>, rows: seq<seq<Scalar>>)

  function ParseScalar(s: seq<Lexeme>): (r: Option<Parse<Scalar>>)
    ensures r.Some? ==> |r.value.rest| < |s|
  {
    if s == [] then None
    else
      match s[0]
      case Word(w) => if w == "NULL" then Some(Parse(NullScalar, s[1..])) else None
      case Literal(text) => Some(Parse(TextScalar(text), s[1..]))
      case Numeral(digits) => Some(Parse(NumberScalar(false, digits), s[1..]))
      case Symbol(c) =>
        if c == '-' && |s| > 1 && s[1].Numeral? then Some(Parse(NumberScalar(true, s[1].digits), s[2..])) else None
      case _ => None
  }

  /** Values with a comma between each two. */
  function ParseScalars(s: seq<Lexeme>): (r: Option<Parse<seq<Scalar>>>)
    ensures r.Some? ==> |r.value.rest| < |s|
    decreases |s|
  {
    match ParseScalar(s)
    case None => None
    case Some(first) =>
      if first.rest != [] && first.rest[0] == Symbol(',') then
        match ParseScalars(first.rest[1..])
        case None => None
        case Some(more) => Some(Parse([first.value] + more.value, more.rest))
      else Some(Parse([first.value], first.rest))
  }

  /** Rows in parentheses with a comma between each two. */
  function ParseRows(s: seq<Lexeme>): (r: Option<Parse<seq<seq<Scalar>>>>)
    ensures r.Some? ==> |r.value.rest| < |s|
    decreases |s|
  {
    if s == [] || s[0] != Symbol('(') then None
    else
      match ParseScalars(s[1..])
      case None => None
      case Some(first) =>
        if first.rest == [] || first.rest[0] != Symbol(')') then None
        else if |first.rest| > 1 && first.rest[1] == Symbol(',') then
          match ParseRows(first.rest[2..])
          case None => None
          case Some(more) => Some(Parse([first.value] + more.value, more.rest))
        else Some(Parse([first.value], first.rest[1..]))
  }

  predicate StartsInsert(s: seq<Lexeme>) {
    && |s| >= 6 && s[0] == Word("INSERT") && s[1] == Word("INTO") && s[2].Name? && s[3] == Symbol('.') && s[4].Name?
    && s[5] == Symbol('(')
  }

  function ParseInsert(s: seq<Lexeme>): (r: Option<Parse<Insert>>)
    ensures r.Some? ==> |r.value.rest| < |s|
  {
    if !StartsInsert(s) then None
    else
      match ParseNames(s[6..])
      case None => None
      case Some(names) =>
        if |names.rest| < 2 || names.rest[0] != Symbol(')') || names.rest[1] != Word("VALUES") then None
        else
          match ParseRows(names.rest[2..])
          case None => None
          case Some(rows) =>
            if rows.rest == [] || rows.rest[0] != Symbol(';') then None
            else Some(Parse(Insert(s[2].name, s[4].name, names.value, rows.value), rows.rest[1..]))
  }

  /** INSERT statements one after another; `None` when the text is anything else. */
  function ParseInserts(s: seq<Lexeme>): Option<seq<Insert>>
    decreases |s|
  {
    if s == [] then Some([])
    else
      match ParseInsert(s)
      case None => None
      case Some(first) =>
        match ParseInserts(first.rest)
        case None => None
        case Some(more) => Some([first.value] + more)
  }
}
