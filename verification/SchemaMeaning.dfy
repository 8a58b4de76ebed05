/** What the designer's clauses say of the drafted columns, in terms of the columns' own attributes. */
module SchemaMeaning {
  import opened AlterStatements
  import opened MysqlLexer
  import opened SchemaApply
  import opened SchemaDiff
  import opened Selections
  import opened SqlPrinters
  import opened Text
  import TypeDetails

  // ---- One column ----

  /** A default: a keyword in capitals, a number of a numeric type as it is, or quoted text that reads as the value. */
  ghost predicate DefaultSays(text: string, data_type: string, value: string) {
    var raw := Trim(value);
    if Upper(raw) in {"NULL", "CURRENT_TIMESTAMP", "CURRENT_TIMESTAMP()"} then text == Upper(raw)
    else if data_type in NumericTypes && IsFloatText(raw) then text == raw
    else Lex(text) == Some([Literal(raw)])
  }

  /** A type: its trimmed name in small letters, and then what is read as length and scale; no scale without length. */
  ghost predicate TypeSays(text: string, column: Column) {
    var name := Lower(Trim(column.data_type));
    && name <= text && (column.length.None? ==> text == name)
    && (TypeDetails.TypeWidths(column) ==>
          TypeDetails.DetailsOf(text[|name|..])
          == TypeDetails.Details("", column.length, if column.length.Some? then column.scale else None))
  }

  ghost predicate Describes(d: Definition, column: Column) {
    && d.auto_increment == column.auto_increment
    && (d.not_null <==> column.primary_key || !column.nullable)
    && d.comment == Trim(column.comment)
    && (d.default_text.Some? <==> column.default_value.Some?)
    && (column.default_value.Some? ==>
          DefaultSays(d.default_text.value, column.data_type, column.default_value.value))
    && TypeSays(d.type_text, column)
  }

  lemma DefaultIsSaid(data_type: string, value: string)
    ensures DefaultSays(RenderDefault(data_type, value), data_type, value)
  {
    LiteralAlone(Trim(value));
    hide Trim, Upper, IsFloatText, QuoteLiteral, Lex;
  }

  lemma LiteralAlone(raw: string)
    ensures Lex(QuoteLiteral(raw)) == Some([Literal(raw)])
  {
    LexText(raw, "");
    assert QuoteLiteral(raw) + "" == QuoteLiteral(raw);
    assert Lex("") == Some([]) && [Literal(raw)] + [] == [Literal(raw)];
  }

  lemma TypeIsSaid(column: Column)
    ensures TypeSays(TypeText(column), column)
  {
    hide Lower, Trim, TypeDetails.DetailsOf, Decimal;
    TypeDetails.TextIsNormal(column);
    hide TypeText;
    if TypeDetails.TypeWidths(column) {
      TypeDetails.DetailsWritten("", column.length, column.scale);
      var args := TypeDetails.ArgsText(column.length, column.scale);
      assert "" + args == args;
    }
  }

  /** What is written for a column says its type, nullability, default, automatic mark and comment. */
  lemma DefinitionSays(column: Column)
    ensures Describes(DefinitionOf(column), column)
  {
    TypeIsSaid(column);
    if column.default_value.Some? { DefaultIsSaid(column.data_type, column.default_value.value); }
    hide TypeSays, DefaultSays, TypeText, RenderDefault, Trim;
  }

  // ---- The clauses ----

  function ColumnNames(columns: seq<Column>): (names: seq<string>)
    ensures |names| == |columns| && forall i :: 0 <= i < |columns| ==> names[i] == columns[i].name
  {
    seq(|columns|, i requires 0 <= i < |columns| => columns[i].name)
  }

  function KeyMarks(columns: seq<Column>): (marks: seq<bool>)
    ensures |marks| == |columns| && forall i :: 0 <= i < |columns| ==> marks[i] == columns[i].primary_key
  {
    seq(|columns|, i requires 0 <= i < |columns| => columns[i].primary_key)
  }

  ghost predicate Has(columns: seq<Column>, name: string) { exists column <- columns :: column.name == name }

  ghost predicate IsLast(columns: seq<Column>, name: string, c: Column) {
    exists i :: 0 <= i < |columns| && columns[i] == c && c.name == name && !Has(columns[i + 1..], name)
  }

  /** The last current column of this name differs from the draft only in being in the key. */
  ghost predicate Unchanged(current: seq<Column>, d: Column) {
    exists c :: IsLast(current, d.name, c) && c.(primary_key := d.primary_key) == d
  }

  ghost function DropMarks(current: seq<Column>, draft: seq<Column>): (marks: seq<bool>)
    ensures |marks| == |current| && forall i :: 0 <= i < |current| ==> marks[i] == !Has(draft, current[i].name)
  {
    seq(|current|, i requires 0 <= i < |current| => !Has(draft, current[i].name))
  }

  ghost function ChangeMarks(current: seq<Column>, draft: seq<Column>): (marks: seq<bool>)
    ensures |marks| == |draft| && forall i :: 0 <= i < |draft| ==> marks[i] == !Unchanged(current, draft[i])
  {
    seq(|draft|, i requires 0 <= i < |draft| => !Unchanged(current, draft[i]))
  }

  /** A current column is modified and another one added, under the trimmed name and with the drafted attributes. */
  ghost predicate ChangeSays(clause: Clause, current: seq<Column>, d: Column) {
    && (if Has(current, d.name) then clause.ModifyColumn? else clause.AddColumn?)
    && clause.name == Trim(d.name) && Describes(clause.definition, d)
  }

  /** The key is left alone when it stays the same; else the old one is dropped and the new one added. */
  function KeySays(was: seq<string>, now: seq<string>): seq<Clause> {
    if was == now then []
    else if was == [] then [AddPrimaryKey(now)]
    else if now == [] then [DropPrimaryKey]
    else [DropPrimaryKey, AddPrimaryKey(now)]
  }

  /** What is promised of the clauses: drops, changes and the key, each exactly where needed, once and in order. */
  ghost predicate ClausesSay(
    current: seq<Column>, draft: seq<Column>, clauses: seq<Clause>, drops: seq<string>, changed: seq<Column>,
    was: seq<string>, now: seq<string>)
  {
    && Picks(ColumnNames(current), DropMarks(current, draft), drops)
    && Picks(draft, ChangeMarks(current, draft), changed)
    && Picks(ColumnNames(current), KeyMarks(current), was)
    && Picks(ColumnNames(draft), KeyMarks(draft), now)
    && |drops| + |changed| <= |clauses|
    && (forall i :: 0 <= i < |drops| ==> clauses[i] == DropColumn(drops[i]))
    && (forall i :: 0 <= i < |changed| ==> ChangeSays(clauses[|drops| + i], current, changed[i]))
    && clauses[|drops| + |changed|..] == KeySays(was, now)
  }

  lemma {:induction false} KeyIsPicked(columns: seq<Column>)
    ensures Picks(ColumnNames(columns), KeyMarks(columns), KeyOf(columns))
  {
    hide Picks;
    if columns == [] {
      PicksNone<string>();
    } else {
      var rest, last := columns[..|columns| - 1], columns[|columns| - 1];
      KeyIsPicked(rest);
      PicksLast(ColumnNames(rest), KeyMarks(rest), KeyOf(rest), last.name, last.primary_key);
      assert ColumnNames(columns) == ColumnNames(rest) + [last.name];
      assert KeyMarks(columns) == KeyMarks(rest) + [last.primary_key];
      assert KeyOf(rest) + [] == KeyOf(rest);
    }
  }

  lemma NamesAreHad(columns: seq<Column>, name: string)
    ensures name in Names(columns) <==> Has(columns, name)
  {
  }

  lemma LastStays(columns: seq<Column>, name: string, c: Column, last: Column)
    requires IsLast(columns, name, c) && last.name != name
    ensures IsLast(columns + [last], name, c)
  {
    var i :| 0 <= i < |columns| && columns[i] == c && !Has(columns[i + 1..], name);
    assert (columns + [last])[i + 1..] == columns[i + 1..] + [last];
    assert (columns + [last])[i] == c;
  }

  lemma LastIsLast(columns: seq<Column>, last: Column)
    ensures IsLast(columns + [last], last.name, last)
  {
    assert (columns + [last])[|columns| + 1..] == [] && (columns + [last])[|columns|] == last;
  }

  lemma {:induction false} ByNameIsLast(columns: seq<Column>, name: string)
    ensures name in ByName(columns) <==> Has(columns, name)
    ensures name in ByName(columns) ==> IsLast(columns, name, ByName(columns)[name])
  {
    NamesAreHad(columns, name);
    if columns != [] {
      var n := |columns| - 1;
      ByNameIsLast(columns[..n], name);
      LastIsLast(columns[..n], columns[n]);
      if name != columns[n].name && name in ByName(columns[..n]) {
        LastStays(columns[..n], name, ByName(columns[..n])[name], columns[n]);
      }
      assert columns == columns[..n] + [columns[n]];
      hide IsLast, Has, Names;
    }
  }

  lemma LastIsOne(columns: seq<Column>, name: string, c: Column, d: Column)
    requires IsLast(columns, name, c) && IsLast(columns, name, d)
    ensures c == d
  {
    var i :| 0 <= i < |columns| && columns[i] == c && !Has(columns[i + 1..], name);
    var j :| 0 <= j < |columns| && columns[j] == d && !Has(columns[j + 1..], name);
    HasLater(columns, name, i, j);
    HasLater(columns, name, j, i);
  }

  lemma HasLater(columns: seq<Column>, name: string, i: int, j: int)
    requires 0 <= i < |columns| && 0 <= j < |columns| && columns[j].name == name
    ensures i < j ==> Has(columns[i + 1..], name)
  {
    if i < j { assert columns[i + 1..][j - i - 1] == columns[j]; }
  }

  lemma UnchangedIs(current: seq<Column>, d: Column)
    ensures Unchanged(current, d) <==> d.name in ByName(current) && !Changed(ByName(current)[d.name], d)
  {
    ByNameIsLast(current, d.name);
    hide IsLast, Changed;
    if Unchanged(current, d) {
      var c :| IsLast(current, d.name, c) && c.(primary_key := d.primary_key) == d;
      assert Has(current, d.name) by { LastIsThere(current, d.name, c); }
      LastIsOne(current, d.name, c, ByName(current)[d.name]);
    }
  }

  lemma LastIsThere(columns: seq<Column>, name: string, c: Column)
    requires IsLast(columns, name, c)
    ensures Has(columns, name)
  {
  }

  lemma {:induction false} DropsAre(current: seq<Column>, draft: seq<Column>) returns (drops: seq<string>)
    ensures Picks(ColumnNames(current), DropMarks(current, draft), drops)
    ensures |Drops(current, Names(draft))| == |drops|
    ensures forall i :: 0 <= i < |drops| ==> Drops(current, Names(draft))[i] == DropColumn(drops[i])
  {
    hide Picks, Has, Names;
    if current == [] {
      drops := [];
      PicksNone<string>();
    } else {
      var rest, last := current[..|current| - 1], current[|current| - 1];
      var before := DropsAre(rest, draft);
      NamesAreHad(draft, last.name);
      drops := if Has(draft, last.name) then before else before + [last.name];
      PicksLast(ColumnNames(rest), DropMarks(rest, draft), before, last.name, !Has(draft, last.name));
      assert ColumnNames(current) == ColumnNames(rest) + [last.name];
      assert DropMarks(current, draft) == DropMarks(rest, draft) + [!Has(draft, last.name)];
    }
  }

  lemma ChangeIs(current: seq<Column>, d: Column)
    ensures var change := ChangeOf(ByName(current), d);
      if Unchanged(current, d) then change == [] else |change| == 1 && ChangeSays(change[0], current, d)
  {
    UnchangedIs(current, d);
    ByNameIsLast(current, d.name);
    DefinitionSays(d);
    hide Unchanged, IsLast, Changed, Describes, DefinitionOf, Trim, ByName, Has;
  }

  lemma {:induction false} ChangesAre(current: seq<Column>, draft: seq<Column>) returns (changed: seq<Column>)
    ensures Picks(draft, ChangeMarks(current, draft), changed)
    ensures |Changes(ByName(current), draft)| == |changed|
    ensures forall i :: 0 <= i < |changed| ==>
      ChangeSays(Changes(ByName(current), draft)[i], current, changed[i])
  {
    hide Picks, Unchanged, ChangeSays, ByName, ChangeOf;
    if draft == [] {
      changed := [];
      PicksNone<Column>();
    } else {
      var rest, last := draft[..|draft| - 1], draft[|draft| - 1];
      var before := ChangesAre(current, rest);
      ChangeIs(current, last);
      changed := if Unchanged(current, last) then before else before + [last];
      PicksLast(rest, ChangeMarks(current, rest), before, last, !Unchanged(current, last));
      assert draft == rest + [last];
      assert ChangeMarks(current, draft) == ChangeMarks(current, rest) + [!Unchanged(current, last)];
    }
  }

  /** Exactly the promised clauses are emitted, for all columns. */
  lemma ClausesAreSaid(current: seq<Column>, draft: seq<Column>)
    ensures exists drops, changed, was, now ::
      ClausesSay(current, draft, AlterClauses(current, draft), drops, changed, was, now)
  {
    hide Drops, Changes, KeyOf, ByName, Names, Picks, ChangeSays;
    var drops := DropsAre(current, draft);
    var changed := ChangesAre(current, draft);
    KeyIsPicked(current);
    KeyIsPicked(draft);
    var was, now := KeyOf(current), KeyOf(draft);
    var a, b := Drops(current, Names(draft)), Changes(ByName(current), draft);
    var clauses := AlterClauses(current, draft);
    assert KeyChanges(was, now) == KeySays(was, now);
    assert clauses == a + b + KeySays(was, now);
    assert clauses[|a| + |b|..] == KeySays(was, now);
    assert ClausesSay(current, draft, clauses, drops, changed, was, now);
  }

  /**
   * What the server reads from the emitted text, for plain columns: the table, and exactly the promised clauses with
   * the drafted attributes.
   */
  lemma EmittedTextSays(database: string, table: string, current: seq<Column>, draft: seq<Column>)
    requires forall d <- draft :: PlainColumn(d)
    requires AlterClauses(current, draft) != []
    ensures
      var lexemes := Lex(AlterText(database, table, AlterClauses(current, draft)));
      && lexemes.Some? && ParseAlter(lexemes.value).Some?
      && var read := ParseAlter(lexemes.value).value;
      && read.database == database && read.table == table
      && exists drops, changed, was, now :: ClausesSay(current, draft, read.clauses, drops, changed, was, now)
  {
    EmittedIsRead(database, table, current, draft);
    ClausesAreSaid(current, draft);
    hide *;
  }

  /** No statement is emitted exactly when the names, the attributes of each and the keys already agree. */
  lemma NothingToAlter(current: seq<Column>, draft: seq<Column>)
    ensures AlterClauses(current, draft) == []
        <==> && (forall c <- current :: Has(draft, c.name)) && (forall d <- draft :: Unchanged(current, d))
             && exists key :: Picks(ColumnNames(current), KeyMarks(current), key)
                              && Picks(ColumnNames(draft), KeyMarks(draft), key)
  {
    KeyIsPicked(current);
    KeyIsPicked(draft);
    NoDrops(current, Names(draft));
    NoChanges(ByName(current), draft);
    hide Drops, Changes, KeyOf, ByName, Picks, Changed, Unchanged, Has;
    forall d | d in draft
      ensures Unchanged(current, d) <==> d.name in ByName(current) && !Changed(ByName(current)[d.name], d)
    {
      UnchangedIs(current, d);
    }
    forall c | c in current
      ensures c.name in Names(draft) <==> Has(draft, c.name)
    {
      NamesAreHad(draft, c.name);
    }
    forall key | Picks(ColumnNames(current), KeyMarks(current), key) && Picks(ColumnNames(draft), KeyMarks(draft), key)
      ensures KeyOf(current) == KeyOf(draft)
    {
      PicksOnce(ColumnNames(current), KeyMarks(current), key, KeyOf(current));
      PicksOnce(ColumnNames(draft), KeyMarks(draft), key, KeyOf(draft));
    }
  }

  // ---- The drafted table ----

  /** A table with exactly these columns, each as it is described, and with their key in order. */
  ghost predicate IsTableOf(table: Table, columns: seq<Column>) {
    && (forall name: string :: name in table.columns <==> Has(columns, name))
    && (forall c <- columns :: c.name in table.columns && Describes(table.columns[c.name], c))
    && Picks(ColumnNames(columns), KeyMarks(columns), table.key)
  }

  lemma TableIsDescribed(columns: seq<Column>)
    requires DistinctNames(columns)
    ensures IsTableOf(TableOf(columns), columns)
  {
    KeyIsPicked(columns);
    hide Describes, DefinitionOf, Picks, KeyOf, DistinctNames;
    forall name: string
      ensures name in TableOf(columns).columns <==> Has(columns, name)
    {
      NamesAreHad(columns, name);
    }
    forall c | c in columns
      ensures c.name in TableOf(columns).columns && Describes(TableOf(columns).columns[c.name], c)
    {
      var i :| 0 <= i < |columns| && columns[i] == c;
      Named(columns, i);
      DefinitionSays(c);
    }
  }

  /**
   * The emitted clauses turn the current table into the one that the draft describes, each name as it is stored, and
   * the statement fails as a whole exactly when some clause mentions a column by an untrimmed name.
   */
  lemma DraftIsReached(current: seq<Column>, draft: seq<Column>)
    requires Existing(current) && ValidDraft(draft)
    ensures
      var now := Stored(Names(current), draft);
      && IsTableOf(TableOf(current), current) && IsTableOf(TableOf(now), now)
      && ApplyAll(TableOf(current), KeyOf(current) != [], AlterClauses(current, draft))
         == if Addressable(current, draft) then Some(TableOf(now)) else None
  {
    TableIsDescribed(current);
    StoredApart(Names(current), draft);
    TableIsDescribed(Stored(Names(current), draft));
    AlterReachesDraft(current, draft);
    hide *;
  }
}
