/** The comments around exported statements: when the names in them leave the whole text readable. */
module ExportComments {
  import opened ExportedInserts
  import opened MysqlLexer
  import opened SqlExport
  import opened SqlPrinters
  import opened Text

  // ---- What blanks and comments a text begins with ----

  /** A text without its first blanks and comments, unless one of these comments stays open or is executed. */
  datatype Leading = Rest(text: string) | OpenComment | ExecutedCode

  function Lead(s: string): (r: Leading)
    ensures r.Rest? ==> |r.text| <= |s|
    decreases |s|
  {
    if s == "" then Rest("")
    else if IsBlank(s[0]) then Lead(s[1..])
    else if s[0] == '#' then Lead(AfterLine(s[1..]))
    else if s[0] == '-' && |s| > 1 && s[1] == '-' && (|s| == 2 || s[2] <= ' ') then Lead(AfterLine(s[2..]))
    else if StartsExecuted(s) then ExecutedCode
    else if s[0] == '/' && |s| > 1 && s[1] == '*' then
      match AfterBlock(s[2..]) case None => OpenComment case Some(rest) => Lead(rest)
    else Rest(s)
  }

  lemma LexLeads(s: string)
    ensures Lex(s) == match Lead(s) case Rest(t) => Lex(t) case _ => None
    decreases |s|
  {
    hide ReadName, ReadLiteral, NumberEnd, WordEnd, AfterLine, AfterBlock, Followed;
    if s != "" {
      if IsBlank(s[0]) { LexLeads(s[1..]); }
      else if s[0] == '#' { LexLeads(AfterLine(s[1..])); }
      else if s[0] == '-' && |s| > 1 && s[1] == '-' && (|s| == 2 || s[2] <= ' ') { LexLeads(AfterLine(s[2..])); }
      else if StartsExecuted(s) { }
      else if s[0] == '/' && |s| > 1 && s[1] == '*' && AfterBlock(s[2..]).Some? { LexLeads(AfterBlock(s[2..]).value); }
    }
  }

  /** What is left begins with a lexeme, if it can be read at all. */
  lemma {:induction false} LeadIsLexeme(s: string)
    requires Lead(s).Rest? && Lead(s).text != ""
    ensures var t := Lead(s).text; Lead(t) == Rest(t) && (Lex(t).Some? ==> Lex(t).value != [])
    decreases |s|
  {
    hide ReadName, ReadLiteral, NumberEnd, WordEnd, AfterLine, AfterBlock;
    if IsBlank(s[0]) { LeadIsLexeme(s[1..]); }
    else if s[0] == '#' { LeadIsLexeme(AfterLine(s[1..])); }
    else if s[0] == '-' && |s| > 1 && s[1] == '-' && (|s| == 2 || s[2] <= ' ') { LeadIsLexeme(AfterLine(s[2..])); }
    else if s[0] == '/' && |s| > 1 && s[1] == '*' { LeadIsLexeme(AfterBlock(s[2..]).value); }
  }

  // ---- Lines followed by more text ----

  predicate Ended(s: string) { s == "" || s[|s| - 1] == '\n' }

  lemma {:induction false} AfterLineAcross(s: string, more: string)
    requires s != "" && Ended(s)
    ensures Ended(AfterLine(s)) && AfterLine(s + more) == AfterLine(s) + more
  {
    assert (s + more)[1..] == s[1..] + more;
    if s[0] != '\n' {
      AfterLineAcross(s[1..], more);
    }
  }

  lemma {:induction false} AfterBlockAcross(s: string, more: string)
    requires Ended(s)
    ensures AfterBlock(s).Some? ==>
      Ended(AfterBlock(s).value) && AfterBlock(s + more) == Some(AfterBlock(s).value + more)
    ensures AfterBlock(s).None? ==> AfterBlock(s + more) == AfterBlock(more)
  {
    if s == "" {
      assert s + more == more;
    } else {
      assert (s + more)[1..] == s[1..] + more;
      if |s| >= 2 {
        assert (s + more)[2..] == s[2..] + more;
        if !(s[0] == '*' && s[1] == '/') { AfterBlockAcross(s[1..], more); }
      } else {
        assert s[1..] + more == more;
      }
    }
  }

  lemma {:induction false} NoBlockEnd(s: string)
    requires '*' !in s
    ensures AfterBlock(s).None?
  {
    if |s| >= 2 {
      assert s[0] in s;
      NoBlockEnd(s[1..]);
    }
  }

  /** Whole lines are skipped in the same way whatever follows them; what follows may close an open comment. */
  lemma {:induction false} LeadAcross(s: string, more: string)
    requires Ended(s)
    ensures
      match Lead(s)
      case Rest(t) => Ended(t) && Lead(s + more) == if t == "" then Lead(more) else Rest(t + more)
      case OpenComment =>
        Lead(s + more) == (match AfterBlock(more) case None => OpenComment case Some(rest) => Lead(rest))
      case ExecutedCode => Lead(s + more) == ExecutedCode
    decreases |s|
  {
    hide AfterLine, AfterBlock;
    var both := s + more;
    if s == "" {
      assert both == more;
    } else {
      assert both[1..] == s[1..] + more;
      if IsBlank(s[0]) {
        LeadAcross(s[1..], more);
      } else {
        assert both[2..] == s[2..] + more;
        if s[0] == '#' {
          AfterLineAcross(s[1..], more);
          LeadAcross(AfterLine(s[1..]), more);
        } else if s[0] == '-' && s[1] == '-' && s[2] <= ' ' {
          AfterLineAcross(s[2..], more);
          LeadAcross(AfterLine(s[2..]), more);
        } else if StartsExecuted(s) {
          assert StartsExecuted(both);
        } else if s[0] == '/' && s[1] == '*' {
          AfterBlockAcross(s[2..], more);
          if AfterBlock(s[2..]).Some? { LeadAcross(AfterBlock(s[2..]).value, more); }
        }
      }
    }
  }

  lemma {:induction false} WordEndAcross(s: string, more: string)
    requires s != "" && Ended(s)
    ensures WordEnd(s + more) == WordEnd(s)
  {
    assert (s + more)[1..] == s[1..] + more;
    if IsWordChar(s[0]) {
      WordEndAcross(s[1..], more);
    }
  }

  /** A text that starts with anything but the word INSERT is no list of statements. */
  lemma OtherStartFails(s: string, more: string)
    requires s != "" && Ended(s) && Lead(s) == Rest(s) && s[..WordEnd(s)] != "INSERT"
    ensures Lex(s + more).Some? ==> ParseInserts(Lex(s + more).value).None?
  {
    hide ReadName, ReadLiteral, NumberEnd, WordEnd, AfterLine, AfterBlock, Lead, ParseInsert;
    WordEndAcross(s, more);
    LeadAcross(s, more);
    var both := s + more;
    NoLead(both);
    assert both[..WordEnd(both)] == s[..WordEnd(s)];
    if Lex(both).Some? {
      StartOf(both);
      OtherStart(Lex(both).value);
    }
  }

  lemma NoLead(s: string)
    requires s != "" && Lead(s) == Rest(s)
    ensures !IsBlank(s[0]) && s[0] != '#'
    ensures !(s[0] == '-' && |s| > 1 && s[1] == '-' && (|s| == 2 || s[2] <= ' '))
    ensures !(s[0] == '/' && |s| > 1 && s[1] == '*')
  {
    hide AfterLine, AfterBlock;
  }

  /** How a lexeme is read from a text that begins with one. */
  function FirstLexeme(s: string): Option<(Lexeme, string)>
    requires s != ""
  {
    if s[0] == '`' then
      match ReadName(s[1..]) case None => None case Some(p) => Some((Name(p.text), p.rest))
    else if s[0] == '\'' || s[0] == '"' then
      match ReadLiteral(s[1..], s[0]) case None => None case Some(p) => Some((Literal(p.text), p.rest))
    else if IsDigit(s[0]) then Some((Numeral(s[..NumberEnd(s)]), s[NumberEnd(s)..]))
    else if IsWordChar(s[0]) then Some((Word(s[..WordEnd(s)]), s[WordEnd(s)..]))
    else Some((Symbol(s[0]), s[1..]))
  }

  lemma LexFirst(s: string)
    requires s != "" && !IsBlank(s[0]) && s[0] != '#'
    requires !(s[0] == '-' && |s| > 1 && s[1] == '-' && (|s| == 2 || s[2] <= ' '))
    requires !(s[0] == '/' && |s| > 1 && s[1] == '*')
    ensures Lex(s)
         == match FirstLexeme(s) case None => None case Some(first) => Followed([first.0], Lex(first.1))
  {
    hide ReadName, ReadLiteral, NumberEnd, WordEnd, AfterLine, AfterBlock, Followed;
  }

  lemma StartOf(s: string)
    requires s != "" && Lex(s).Some? && !IsBlank(s[0]) && s[0] != '#'
    requires !(s[0] == '-' && |s| > 1 && s[1] == '-' && (|s| == 2 || s[2] <= ' '))
    requires !(s[0] == '/' && |s| > 1 && s[1] == '*')
    requires s[..WordEnd(s)] != "INSERT"
    ensures Lex(s).value != [] && Lex(s).value[0] != Word("INSERT")
  {
    hide Lex, ReadName, ReadLiteral, NumberEnd, WordEnd;
    LexFirst(s);
  }

  lemma OtherStart(lexemes: seq<Lexeme>)
    requires lexemes != [] && lexemes[0] != Word("INSERT")
    ensures ParseInserts(lexemes).None?
  {
  }

  // ---- The first comments of an export ----

  lemma NotesAreLines()
    ensures '\n' !in Title() && '\n' !in EmptyNote() && '*' !in EmptyNote()
  {
  }

  /** The names in the comment, from their first line break on. */
  function LaterLines(database: string, table: string): string { AfterLine(TableText(database, table)) + "\n" }

  /** The names have no line break, or the lines after it hold only blanks and whole comments, none of them executed. */
  predicate CommentHolds(database: string, table: string) {
    '\n' !in TableText(database, table) || Lead(LaterLines(database, table)) == Rest("")
  }

  lemma {:induction false} LineInTwo(s: string) returns (first: string)
    requires '\n' in s
    ensures '\n' !in first && s == first + "\n" + AfterLine(s)
  {
    if s[0] == '\n' {
      first := "";
    } else {
      first := LineInTwo(s[1..]);
      first := [s[0]] + first;
    }
  }

  function CountLine(count: nat): string { "-- rows: " + Decimal(count) + "\n\n" }

  lemma CountLineSkipped(count: nat, more: string)
    ensures Lex(CountLine(count) + more) == Lex(more)
    ensures '*' !in CountLine(count)
  {
    DecimalHasDigits(count);
    hide Decimal;
    var note := "rows: " + Decimal(count);
    assert CountLine(count) + more == "-- " + note + "\n" + ("\n" + more);
    LexRemark(note, "\n" + more);
    assert ("\n" + more)[1..] == more;
  }

  lemma DecimalHasDigits(n: nat)
    ensures '*' !in Decimal(n) && '\n' !in Decimal(n)
  {
    DecimalValue(n);
  }

  /** The comments are skipped up to the first line break in a name. */
  lemma HeaderSkipped(database: string, table: string, count: nat, more: string)
    ensures '\n' !in TableText(database, table) ==> Lex(HeaderText(database, table, count) + more) == Lex(more)
    ensures '\n' in TableText(database, table) ==>
      Lex(HeaderText(database, table, count) + more)
      == Lex(LaterLines(database, table) + (CountLine(count) + more))
  {
    NotesAreLines();
    CountLineSkipped(count, more);
    hide TableText, Title, Lex, Decimal;
    var names := TableText(database, table);
    var rest := CountLine(count) + more;
    HeaderInLines(Title(), names, CountLine(count), more);
    assert HeaderText(database, table, count)
        == "-- " + Title() + "\n" + "-- source: " + names + "\n" + CountLine(count);
    LexRemark(Title(), "-- " + ("source: " + names) + "\n" + rest);
    if '\n' in names {
      var first := LineInTwo(names);
      var later := AfterLine(names) + "\n" + rest;
      BrokenLine(first, AfterLine(names), rest);
      LexRemark("source: " + first, later);
      assert later == LaterLines(database, table) + rest;
    } else {
      LexRemark("source: " + names, rest);
    }
  }

  lemma BrokenLine(first: string, later: string, rest: string)
    ensures "-- " + ("source: " + (first + "\n" + later)) + "\n" + rest
         == "-- " + ("source: " + first) + "\n" + (later + "\n" + rest)
  {
  }

  lemma HeaderInLines(title: string, names: string, count: string, more: string)
    ensures "-- " + title + "\n" + "-- source: " + names + "\n" + count + more
         == "-- " + title + "\n" + ("-- " + ("source: " + names) + "\n" + (count + more))
  {
    assert "-- source: " + names == "-- " + ("source: " + names);
  }

  // ---- When the whole text parses back ----

  ghost predicate ParsesBack(database: string, table: string, names: seq<string>, rows: seq<Row>) {
    ReadableRows(rows, names) &&
    var lexemes := Lex(ExportText(database, table, names, rows));
    && lexemes.Some?
    && ParseInserts(lexemes.value) == Some(if names == [] then [] else InsertsOf(database, table, names, rows))
  }

  function AfterHeader(database: string, table: string, names: seq<string>, rows: seq<Row>): string {
    if names == [] || rows == [] then "-- " + EmptyNote() + "\n" else BodyText(database, table, names, rows)
  }

  lemma RestParsesBack(database: string, table: string, names: seq<string>, rows: seq<Row>)
    requires ReadableRows(rows, names)
    ensures
      var lexemes := Lex(AfterHeader(database, table, names, rows));
      && lexemes.Some?
      && ParseInserts(lexemes.value) == Some(if names == [] then [] else InsertsOf(database, table, names, rows))
  {
    hide Lex, ParseInserts, BodyText, InsertsOf, EmptyNote;
    if names == [] || rows == [] {
      NoteIsNothing();
      if rows == [] { NoRowsNoInserts(database, table, names); }
    } else {
      BodyParsesBack(database, table, names, rows);
    }
  }

  lemma NoteIsNothing()
    ensures Lex("-- " + EmptyNote() + "\n") == Some([]) && ParseInserts([]) == Some([])
  {
    NotesAreLines();
    hide EmptyNote;
    LexRemark(EmptyNote(), "");
    assert "-- " + EmptyNote() + "\n" + "" == "-- " + EmptyNote() + "\n";
  }

  lemma NoRowsNoInserts(database: string, table: string, names: seq<string>)
    ensures ReadableRows([], names) && InsertsOf(database, table, names, []) == []
  {
  }

  lemma LaterLinesEnd(database: string, table: string)
    ensures Ended(LaterLines(database, table))
  {
    hide TableText;
  }

  /**
   * The whole exported text, comments included, parses back: to nothing when there is nothing to export, and otherwise
   * to statements that hold every row once and in order; provided that the names do not break out of their comment.
   */
  lemma ExportParsesBack(database: string, table: string, names: seq<string>, rows: seq<Row>)
    requires CommentHolds(database, table) && ReadableRows(rows, names)
    ensures ParsesBack(database, table, names, rows)
  {
    hide Lex, ParseInserts, HeaderText, TableText, BodyText, InsertsOf, ReadableRows, EmptyNote, LaterLines, Lead;
    var more := AfterHeader(database, table, names, rows);
    HeaderSkipped(database, table, |rows|, more);
    RestParsesBack(database, table, names, rows);
    if '\n' in TableText(database, table) {
      LaterLinesEnd(database, table);
      SkippedLines(LaterLines(database, table), CountLine(|rows|) + more);
      CountLineSkipped(|rows|, more);
    }
  }

  lemma SkippedLines(s: string, more: string)
    requires Ended(s) && Lead(s) == Rest("")
    ensures Lex(s + more) == Lex(more)
  {
    hide Lex, Lead;
    LeadAcross(s, more);
    LexLeads(s + more);
    LexLeads(more);
  }

  /** Other lines are not read as nothing. */
  lemma StrayLines(s: string, more: string)
    requires Ended(s) && Lead(s) != Rest("") && '*' !in more
    ensures Lex(s + more) != Some([])
  {
    hide Lex, Lead;
    LeadAcross(s, more);
    LexLeads(s + more);
    NoBlockEnd(more);
    if Lead(s).Rest? { LeadIsLexeme(s + more); }
  }

  lemma OnlyNothingIsNoInsert(lexemes: seq<Lexeme>)
    ensures ParseInserts(lexemes) == Some([]) ==> lexemes == []
  {
    hide ParseInsert;
  }

  /** When there is nothing to export, the text reads back exactly when the names do not break out of their comment. */
  lemma NothingParsesBackExactly(database: string, table: string, names: seq<string>, rows: seq<Row>)
    requires (names == [] || rows == []) && ReadableRows(rows, names)
    ensures ParsesBack(database, table, names, rows) <==> CommentHolds(database, table)
  {
    hide Lex, ParseInserts, HeaderText, TableText, BodyText, InsertsOf, ReadableRows, EmptyNote, LaterLines, Lead,
      CountLine;
    if CommentHolds(database, table) {
      ExportParsesBack(database, table, names, rows);
    } else {
      var more := AfterHeader(database, table, names, rows);
      HeaderSkipped(database, table, |rows|, more);
      LaterLinesEnd(database, table);
      CountLineSkipped(|rows|, more);
      NotesAreLines();
      StrayLines(LaterLines(database, table), CountLine(|rows|) + more);
      NoRowsNoInserts(database, table, names);
      if Lex(ExportText(database, table, names, rows)).Some? {
        OnlyNothingIsNoInsert(Lex(ExportText(database, table, names, rows)).value);
      }
    }
  }

  /** Every export of a table parses back exactly when its names do not break out of their comment. */
  lemma AllParseBackExactly(database: string, table: string)
    ensures (forall names, rows :: ReadableRows(rows, names) ==> ParsesBack(database, table, names, rows))
       <==> CommentHolds(database, table)
  {
    hide ParsesBack, CommentHolds, ReadableRows, InsertsOf;
    if CommentHolds(database, table) {
      forall names, rows | ReadableRows(rows, names)
        ensures ParsesBack(database, table, names, rows)
      {
        ExportParsesBack(database, table, names, rows);
      }
    } else {
      NoRowsNoInserts(database, table, []);
      NothingParsesBackExactly(database, table, [], []);
    }
  }

  /** Whatever is exported, it does not parse back when the later lines of the names start with another word. */
  lemma StrayTextFails(database: string, table: string, names: seq<string>, rows: seq<Row>)
    requires '\n' in TableText(database, table)
    requires var stray := Lead(LaterLines(database, table));
      stray.Rest? && stray.text != "" && stray.text[..WordEnd(stray.text)] != "INSERT"
    ensures !ParsesBack(database, table, names, rows)
  {
    hide Lex, ParseInserts, HeaderText, TableText, BodyText, InsertsOf, ReadableRows, EmptyNote, LaterLines, Lead,
      CountLine, WordEnd;
    var more := AfterHeader(database, table, names, rows);
    var lines, rest := LaterLines(database, table), CountLine(|rows|) + more;
    HeaderSkipped(database, table, |rows|, more);
    LaterLinesEnd(database, table);
    LeadAcross(lines, rest);
    LexLeads(lines + rest);
    LeadIsLexeme(lines);
    OtherStartFails(Lead(lines).text, rest);
  }

  /** Nor does it when these lines hold a comment that the server executes. */
  lemma ExecutedCommentFails(database: string, table: string, names: seq<string>, rows: seq<Row>)
    requires '\n' in TableText(database, table) && Lead(LaterLines(database, table)) == ExecutedCode
    ensures !ParsesBack(database, table, names, rows)
  {
    hide Lex, ParseInserts, HeaderText, TableText, BodyText, InsertsOf, ReadableRows, EmptyNote, LaterLines, Lead,
      CountLine;
    var more := AfterHeader(database, table, names, rows);
    var lines, rest := LaterLines(database, table), CountLine(|rows|) + more;
    HeaderSkipped(database, table, |rows|, more);
    LaterLinesEnd(database, table);
    LeadAcross(lines, rest);
    LexLeads(lines + rest);
  }

  /**
   * When these lines leave a comment open, an export is read from the first end of a comment in what follows them, and
   * parses back exactly when the rest after it does; so it never does when there is none.
   */
  lemma OpenCommentExactly(database: string, table: string, names: seq<string>, rows: seq<Row>)
    requires '\n' in TableText(database, table) && Lead(LaterLines(database, table)) == OpenComment
    requires ReadableRows(rows, names)
    ensures
      var rest := AfterBlock(CountLine(|rows|) + AfterHeader(database, table, names, rows));
      ParsesBack(database, table, names, rows)
      <==> rest.Some? && Lex(rest.value).Some?
           && ParseInserts(Lex(rest.value).value)
              == Some(if names == [] then [] else InsertsOf(database, table, names, rows))
    ensures '*' !in AfterHeader(database, table, names, rows) ==> !ParsesBack(database, table, names, rows)
  {
    hide Lex, ParseInserts, HeaderText, TableText, BodyText, InsertsOf, ReadableRows, EmptyNote, LaterLines, Lead,
      CountLine, AfterBlock;
    var more := AfterHeader(database, table, names, rows);
    var lines, rest := LaterLines(database, table), CountLine(|rows|) + more;
    HeaderSkipped(database, table, |rows|, more);
    LaterLinesEnd(database, table);
    LeadAcross(lines, rest);
    LexLeads(lines + rest);
    if AfterBlock(rest).Some? { LexLeads(AfterBlock(rest).value); }
    CountLineSkipped(|rows|, more);
    if '*' !in more { NoBlockEnd(rest); }
  }

  // ---- Names that fail, and names that do not ----

  lemma {:induction false} DoubledParts(a: string, b: string, q: char)
    ensures Doubled(a + b, q) == Doubled(a, q) + Doubled(b, q)
  {
    if a == "" {
      assert a + b == b;
    } else {
      assert (a + b)[1..] == a[1..] + b;
      DoubledParts(a[1..], b, q);
    }
  }

  lemma {:induction false} DoubledMembers(s: string, q: char, c: char)
    requires c !in s && c != q
    ensures c !in Doubled(s, q)
  {
    if s != "" {
      DoubledMembers(s[1..], q, c);
    }
  }

  lemma {:induction false} AfterFirstLine(first: string, later: string)
    requires '\n' !in first
    ensures AfterLine(first + "\n" + later) == later
  {
    RemarkSkipped(first, later);
  }

  lemma DoubledInTwo(first: string, later: string)
    requires '\n' !in first
    ensures Doubled(first + "\n" + later, '`') == Doubled(first, '`') + "\n" + Doubled(later, '`')
    ensures '\n' !in Doubled(first, '`')
  {
    DoubledMembers(first, '`', '\n');
    DoubledParts(first + "\n", later, '`');
    DoubledParts(first, "\n", '`');
    assert Doubled("\n", '`') == "\n";
  }

  lemma QuotedInTwo(first: string, later: string, table: string)
    ensures "`" + (first + "\n" + later) + "`" + "." + table == ("`" + first) + "\n" + (later + "`." + table)
  {
  }

  lemma BrokenInTwo(first: string, later: string, table: string)
    requires '\n' !in first
    ensures '\n' in TableText(first + "\n" + later, table)
    ensures LaterLines(first + "\n" + later, table) == Doubled(later, '`') + "`." + QuoteIdentifier(table) + "\n"
  {
    DoubledInTwo(first, later);
    QuotedInTwo(Doubled(first, '`'), Doubled(later, '`'), QuoteIdentifier(table));
    var start, rest := "`" + Doubled(first, '`'), Doubled(later, '`') + "`." + QuoteIdentifier(table);
    assert TableText(first + "\n" + later, table) == start + "\n" + rest;
    hide *;
    assert (start + "\n" + rest)[|start|] == '\n';
    AfterFirstLine(start, rest);
    LaterLinesAre(first + "\n" + later, table);
  }

  lemma LaterLinesAre(database: string, table: string)
    ensures LaterLines(database, table) == AfterLine(TableText(database, table)) + "\n"
  {
  }

  /** A database name whose second line starts with a letter other than I makes every export unreadable. */
  lemma BrokenNamesFail(first: string, later: string, table: string, names: seq<string>, rows: seq<Row>)
    requires '\n' !in first && later != "" && IsLetter(later[0]) && later[0] != 'I'
    ensures !ParsesBack(first + "\n" + later, table, names, rows)
  {
    hide ParsesBack, QuoteIdentifier, TableText, LaterLines, WordEnd;
    BrokenInTwo(first, later, table);
    var lines := LaterLines(first + "\n" + later, table);
    assert lines[0] == later[0];
    LetterLeads(lines);
    StrayTextFails(first + "\n" + later, table, names, rows);
  }

  /** So does a database name whose second line starts with a comment that is executed, whatever it holds. */
  lemma ExecutedNamesFail(first: string, code: string, table: string, names: seq<string>, rows: seq<Row>)
    requires '\n' !in first
    ensures !ParsesBack(first + "\n" + ("/*!" + code), table, names, rows)
  {
    hide ParsesBack, QuoteIdentifier, TableText, LaterLines, Doubled;
    BrokenInTwo(first, "/*!" + code, table);
    var lines := LaterLines(first + "\n" + ("/*!" + code), table);
    MarkStays(code);
    assert lines[0] == '/' && lines[1] == '*' && lines[2] == '!';
    ExecutedLeads(lines);
    ExecutedCommentFails(first + "\n" + ("/*!" + code), table, names, rows);
  }

  lemma MarkStays(s: string)
    ensures Doubled("/*!" + s, '`') == "/*!" + Doubled(s, '`')
  {
    DoubledParts("/*!", s, '`');
    assert "/*!"[1..] == "*!" && "*!"[1..] == "!" && "!"[1..] == "";
    assert Doubled("!", '`') == "!";
    assert Doubled("*!", '`') == "*!";
  }

  lemma ExecutedLeads(s: string)
    requires StartsExecuted(s)
    ensures Lead(s) == ExecutedCode
  {
  }

  lemma LetterWord(s: string)
    requires s != "" && IsWordChar(s[0]) && s[0] != 'I'
    ensures s[..WordEnd(s)] != "INSERT"
  {
    assert s[..WordEnd(s)][0] == s[0];
    hide WordEnd;
  }

  lemma LetterLeads(s: string)
    requires s != "" && IsLetter(s[0]) && s[0] != 'I'
    ensures Lead(s) == Rest(s) && s[..WordEnd(s)] != "INSERT"
  {
    hide AfterLine, AfterBlock;
    assert IsWordChar(s[0]);
    LetterWord(s);
  }

  /** A database name whose other lines begin as comments does no harm. */
  lemma RemarkedNamesHold(first: string, later: string, table: string)
    requires '\n' !in first && '\n' !in later && '\n' !in table
    ensures CommentHolds(first + "\n" + ("-- " + later), table)
  {
    hide TableText, LaterLines, Lead, Doubled;
    BrokenInTwo(first, "-- " + later, table);
    DashesStay(later);
    DoubledMembers(later, '`', '\n');
    DoubledMembers(table, '`', '\n');
    var remark := Doubled(later, '`') + "`." + QuoteIdentifier(table);
    RemarkLine(remark);
    assert LaterLines(first + "\n" + ("-- " + later), table) == "-- " + remark + "\n";
  }

  lemma DashesStay(s: string)
    ensures Doubled("-- " + s, '`') == "-- " + Doubled(s, '`')
  {
    DoubledParts("-- ", s, '`');
    assert "-- "[1..] == "- " && "- "[1..] == " " && " "[1..] == "";
    assert Doubled(" ", '`') == " ";
    assert Doubled("- ", '`') == "- ";
  }

  lemma RemarkLine(remark: string)
    requires '\n' !in remark
    ensures Lead("-- " + remark + "\n") == Rest("")
  {
    var s := "-- " + remark + "\n";
    assert s[2..] == (" " + remark) + "\n" + "";
    RemarkSkipped(" " + remark, "");
  }
}
