/** What the server reads of a whole change: which rows and columns each statement names, with whose values. */
module RowChanges {
  import opened JsonValues
  import opened MysqlLexer
  import opened RowMeaning
  import opened RowStatements
  import opened RowTemplates
  import opened Selections
  import opened SqlPrinters
  import opened Text

  // ---- Which columns ----

  function NamesOf(columns: seq<Column>): (names: seq<string>)
    ensures |names| == |columns| && forall i :: 0 <= i < |columns| ==> names[i] == columns[i].name
  {
    seq(|columns|, i requires 0 <= i < |columns| => columns[i].name)
  }

  function KeyMarks(columns: seq<Column>): (marks: seq<bool>)
    ensures |marks| == |columns| && forall i :: 0 <= i < |columns| ==> marks[i] == columns[i].primary_key
  {
    seq(|columns|, i requires 0 <= i < |columns| => columns[i].primary_key)
  }

  /** An update sets the columns that it has a value for. */
  function SetMarks(columns: seq<Column>, values: Record): (marks: seq<bool>)
    ensures |marks| == |columns|
    ensures forall i :: 0 <= i < |columns| ==> (marks[i] <==> columns[i].name in values)
  {
    seq(|columns|, i requires 0 <= i < |columns| => columns[i].name in values)
  }

  /** An insert leaves automatic columns without a value or with a null to the server. */
  function InsertMarks(columns: seq<Column>, values: Record): (marks: seq<bool>)
    ensures |marks| == |columns|
    ensures forall i :: 0 <= i < |columns| ==>
      (marks[i] <==> && columns[i].name in values
                     && (values[columns[i].name] == Null ==> !columns[i].auto_increment))
  {
    seq(|columns|, i requires 0 <= i < |columns| =>
      columns[i].name in values && !(columns[i].auto_increment && values[columns[i].name] == Null))
  }

  lemma {:induction false} KeysArePicked(columns: seq<Column>)
    ensures Picks(NamesOf(columns), KeyMarks(columns), KeyNames(columns))
  {
    hide Picks, NamesOf, KeyMarks;
    if columns == [] {
      PicksNone<string>();
    } else {
      var first, rest := columns[0], columns[1..];
      KeysArePicked(rest);
      PicksFirst(NamesOf(rest), KeyMarks(rest), KeyNames(rest), first.name, first.primary_key);
      assert NamesOf(columns) == [first.name] + NamesOf(rest);
      assert KeyMarks(columns) == [first.primary_key] + KeyMarks(rest);
      assert [] + KeyNames(rest) == KeyNames(rest);
    }
  }

  lemma {:induction false} SetColumnsArePicked(columns: seq<Column>, values: Record)
    ensures Picks(NamesOf(columns), SetMarks(columns, values), SetColumns(columns, values))
  {
    hide Picks, NamesOf, SetMarks;
    if columns == [] {
      PicksNone<string>();
    } else {
      var first, rest := columns[0], columns[1..];
      var there := first.name in values;
      SetColumnsArePicked(rest, values);
      PicksFirst(NamesOf(rest), SetMarks(rest, values), SetColumns(rest, values), first.name, there);
      assert NamesOf(columns) == [first.name] + NamesOf(rest);
      assert SetMarks(columns, values) == [there] + SetMarks(rest, values);
      assert [] + SetColumns(rest, values) == SetColumns(rest, values);
    }
  }

  lemma {:induction false} InsertColumnsArePicked(columns: seq<Column>, values: Record)
    ensures Picks(NamesOf(columns), InsertMarks(columns, values), InsertColumns(columns, values))
  {
    hide Picks, NamesOf, InsertMarks;
    if columns == [] {
      PicksNone<string>();
    } else {
      var first, rest := columns[0], columns[1..];
      var there := first.name in values && (values[first.name] == Null ==> !first.auto_increment);
      InsertColumnsArePicked(rest, values);
      PicksFirst(NamesOf(rest), InsertMarks(rest, values), InsertColumns(rest, values), first.name, there);
      assert NamesOf(columns) == [first.name] + NamesOf(rest);
      assert InsertMarks(columns, values) == [there] + InsertMarks(rest, values);
      assert [] + InsertColumns(rest, values) == InsertColumns(rest, values);
    }
  }

  // ---- When a change can be built ----

  /** The values that a statement can carry: all but integers beyond 64 bits. */
  predicate Storable(value: Json) {
    value.Integer? ==> -0x8000_0000_0000_0000 <= value.number < 0x1_0000_0000_0000_0000
  }

  /** The row key is not empty and has a storable value for each key column, and there is one. */
  ghost predicate FindsRow(columns: seq<Column>, rowKey: Record) {
    && (exists column <- columns :: column.primary_key) && rowKey != map[]
    && forall column <- columns :: column.primary_key ==> column.name in rowKey && Storable(rowKey[column.name])
  }

  ghost predicate Buildable(columns: seq<Column>, change: Change) {
    match change
    case DeleteRow(rowKey) => FindsRow(columns, rowKey)
    case UpdateRow(Update(rowKey, values)) =>
      (exists column <- columns :: column.name in values) ==>
        && FindsRow(columns, rowKey)
        && forall column <- columns :: column.name in values ==> Storable(values[column.name])
    case InsertRow(values) => forall column <- columns :: column.name in values ==> Storable(values[column.name])
  }

  lemma {:induction false} ParamsExist(names: seq<string>, values: Record)
    ensures ParamsFor(names, values).Some? <==> forall name <- names :: name in values && Storable(values[name])
  {
    if names != [] {
      ParamsExist(names[1..], values);
      assert names == [names[0]] + names[1..];
    }
  }

  lemma RowIsFound(columns: seq<Column>, rowKey: Record)
    ensures FindsRow(columns, rowKey)
       <==> WhereClause(KeyNames(columns), rowKey).Some? && ParamsFor(KeyNames(columns), rowKey).Some?
  {
    var keys := KeyNames(columns);
    ParamsExist(keys, rowKey);
    forall name: string
      ensures name in keys <==> exists column <- columns :: column.name == name && column.primary_key
    {
      KeyNamesAre(columns, name);
    }
    hide KeyNames, ParamsFor;
    assert keys != [] ==> keys[0] in keys;
  }

  lemma SetColumnsAreStorable(columns: seq<Column>, values: Record)
    ensures SetColumns(columns, values) == [] <==> !exists column <- columns :: column.name in values
    ensures ParamsFor(SetColumns(columns, values), values).Some?
       <==> forall column <- columns :: column.name in values ==> Storable(values[column.name])
  {
    var names := SetColumns(columns, values);
    ParamsExist(names, values);
    forall name: string
      ensures name in names <==> name in values && exists c <- columns :: c.name == name
    {
      SetColumnsAre(columns, values, name);
    }
    hide SetColumns, ParamsFor;
    assert names != [] ==> names[0] in names;
  }

  lemma InsertColumnsAreStorable(columns: seq<Column>, values: Record)
    ensures ParamsFor(InsertColumns(columns, values), values).Some?
       <==> forall column <- columns :: column.name in values ==> Storable(values[column.name])
  {
    var names := InsertColumns(columns, values);
    ParamsExist(names, values);
    forall name: string
      ensures name in names
         <==> name in values && exists c <- columns :: c.name == name && !(c.auto_increment && values[name] == Null)
    {
      InsertColumnsAre(columns, values, name);
    }
    hide InsertColumns, ParamsFor;
  }

  /** A change can be built exactly when its row can be found and its values can be stored. */
  lemma BuildableExactly(payload: Payload, columns: seq<Column>, change: Change)
    ensures Build(payload, columns, change).Some? <==> Buildable(columns, change)
  {
    match change
    case DeleteRow(rowKey) => RowIsFound(columns, rowKey); hide *;
    case UpdateRow(update) =>
      SetColumnsAreStorable(columns, update.values);
      RowIsFound(columns, update.row_key);
    case InsertRow(values) =>
      InsertColumnsAreStorable(columns, values);
  }

  // ---- What is read ----

  ghost predicate DeleteReads(payload: Payload, columns: seq<Column>, rowKey: Record, text: string) {
    exists keys ::
      && Picks(NamesOf(columns), KeyMarks(columns), keys) && keys != []
      && Lex(text) == Some(DeleteSays(payload.database, payload.table, keys, rowKey))
  }

  ghost predicate UpdateReads(payload: Payload, columns: seq<Column>, update: Update, text: string) {
    exists names, keys ::
      && Picks(NamesOf(columns), SetMarks(columns, update.values), names) && names != []
      && Picks(NamesOf(columns), KeyMarks(columns), keys) && keys != []
      && Lex(text) == Some(UpdateSays(payload.database, payload.table, names, keys, update))
  }

  ghost predicate InsertReads(payload: Payload, columns: seq<Column>, values: Record, text: string) {
    exists names ::
      && Picks(NamesOf(columns), InsertMarks(columns, values), names)
      && Lex(text) == Some(InsertSays(payload.database, payload.table, names, values))
  }

  /** An insert without columns is read as one with two empty lists. */
  lemma EmptyInsertIsRead(payload: Payload, columns: seq<Column>, values: Record)
    requires InsertColumns(columns, values) == []
    requires var built := BuildInsert(payload.database, payload.table, columns, values);
      built.Some? && Rendered(built.value).Some?
    ensures var built := BuildInsert(payload.database, payload.table, columns, values);
      Lex(Rendered(built.value).value) == Some(InsertSays(payload.database, payload.table, [], values))
  {
    var statement := BuildInsert(payload.database, payload.table, columns, values).value;
    var pieces := EmptyInsertPieces(payload.database, payload.table);
    hide BuildInsert, Flat, Template, TableText, Lex, Rendered;
    EmptyInsertLays(payload.database, payload.table);
    RenderedSays(statement, pieces);
    EmptyPiecesSay(payload.database, payload.table);
    FilledWithNothing(pieces);
  }

  lemma EmptyPiecesSay(database: string, table: string)
    ensures Slots(EmptyInsertPieces(database, table)) == 0
    ensures Lexemes(EmptyInsertPieces(database, table)) == InsertSays(database, table, [], map[])
  {
    hide Slots, Lexemes, TablePieces, TableLexemes;
    FixedParts();
    FixedMarks();
    TableSays(database, table);
    var a, b := [Keyword("INSERT"), Blank(' '), Keyword("INTO"), Blank(' ')], TablePieces(database, table);
    var c, e := [Blank(' '), Mark('(')], [Mark(')'), Blank(' '), Keyword("VALUES"), Blank(' '), Mark('(')];
    SlotsOfTwo(a, b);
    FlatOfTwo(a, b);
    SlotsOfTwo(a + b, c);
    FlatOfTwo(a + b, c);
    SlotsOfTwo(a + b + c, e);
    FlatOfTwo(a + b + c, e);
    SlotsOfTwo(a + b + c + e, [Mark(')')]);
    FlatOfTwo(a + b + c + e, [Mark(')')]);
  }

  lemma DeleteIsShown(payload: Payload, columns: seq<Column>, rowKey: Record)
    requires Printable(rowKey)
    requires var built := Build(payload, columns, DeleteRow(rowKey)); built.Some? && Rendered(built.value).Some?
    ensures DeleteReads(payload, columns, rowKey, Rendered(Build(payload, columns, DeleteRow(rowKey)).value).value)
  {
    DeleteIsRead(payload, KeyNames(columns), rowKey);
    KeysArePicked(columns);
    DeleteMadeOf(payload, KeyNames(columns), rowKey);
    hide BuildDelete, Picks, Lex, Rendered, DeleteSays, KeyNames;
  }

  lemma UpdateIsShown(payload: Payload, columns: seq<Column>, update: Update)
    requires Printable(update.values) && Printable(update.row_key) && SetColumns(columns, update.values) != []
    requires var built := Build(payload, columns, UpdateRow(update)); built.Some? && Rendered(built.value).Some?
    ensures UpdateReads(payload, columns, update, Rendered(Build(payload, columns, UpdateRow(update)).value).value)
  {
    UpdateIsRead(payload, columns, KeyNames(columns), update);
    KeysArePicked(columns);
    SetColumnsArePicked(columns, update.values);
    UpdateMadeOf(payload, columns, KeyNames(columns), update);
    hide BuildUpdate, Picks, Lex, Rendered, UpdateSays, KeyNames, SetColumns;
  }

  lemma InsertIsShown(payload: Payload, columns: seq<Column>, values: Record)
    requires Printable(values)
    requires var built := Build(payload, columns, InsertRow(values)); built.Some? && Rendered(built.value).Some?
    ensures InsertReads(payload, columns, values, Rendered(Build(payload, columns, InsertRow(values)).value).value)
  {
    InsertColumnsArePicked(columns, values);
    if InsertColumns(columns, values) == [] {
      EmptyInsertIsRead(payload, columns, values);
    } else {
      InsertIsRead(payload, columns, values);
    }
    hide BuildInsert, Picks, Lex, Rendered, InsertSays, InsertColumns;
  }

  // ---- The whole preview ----

  /** Updates that set no column show nothing. */
  function UpdateMarks(columns: seq<Column>, updates: seq<Update>): (marks: seq<bool>)
    ensures |marks| == |updates|
    ensures forall i :: 0 <= i < |updates| ==> (marks[i] <==> exists c <- columns :: c.name in updates[i].values)
  {
    seq(|updates|, i requires 0 <= i < |updates| => exists c <- columns :: c.name in updates[i].values)
  }

  ghost predicate AllPrintable(payload: Payload) {
    && (forall rowKey <- payload.deleted :: Printable(rowKey))
    && (forall update <- payload.updated :: Printable(update.row_key) && Printable(update.values))
    && (forall values <- payload.inserted :: Printable(values))
  }

  /** The texts of the first changes: `d` deletes, the updates among the first `u` that set columns, `n` inserts. */
  ghost predicate Shows(
    payload: Payload, columns: seq<Column>, d: nat, u: nat, n: nat, setting: seq<Update>, texts: seq<string>)
    requires d <= |payload.deleted| && u <= |payload.updated| && n <= |payload.inserted|
  {
    && |texts| == d + |setting| + n
    && Picks(payload.updated[..u], UpdateMarks(columns, payload.updated[..u]), setting)
    && (forall i :: 0 <= i < d ==> DeleteReads(payload, columns, payload.deleted[i], texts[i]))
    && (forall i :: 0 <= i < |setting| ==> UpdateReads(payload, columns, setting[i], texts[d + i]))
    && (forall i :: 0 <= i < n ==> InsertReads(payload, columns, payload.inserted[i], texts[d + |setting| + i]))
  }

  lemma PreviewGoesOn(payload: Payload, columns: seq<Column>, changes: seq<Change>, k: nat)
    requires k < |changes| && Preview(payload, columns, changes).Some?
    ensures var before, built := Preview(payload, columns, changes[..k]), Build(payload, columns, changes[k]);
      && before.Some? && built.Some? && (built.value.text != "" ==> Rendered(built.value).Some?)
      && Preview(payload, columns, changes[..k + 1])
         == Some(if built.value.text == "" then before.value else before.value + [Rendered(built.value).value])
  {
    hide Build, Rendered, Preview;
    if Preview(payload, columns, changes[..k + 1]).None? { StuckPreview(payload, columns, changes, k + 1); }
    PreviewStep(payload, columns, changes, k);
  }

  /** What is shown of the first changes. */
  function FirstShown(payload: Payload, columns: seq<Column>, n: nat): Option<seq<string>>
    requires n <= |payload.deleted| + |payload.updated| + |payload.inserted|
  {
    Preview(payload, columns, ChangesOf(payload)[..n])
  }

  lemma {:induction false} DeletesAreShown(payload: Payload, columns: seq<Column>, k: nat)
    requires k <= |payload.deleted| && AllPrintable(payload)
    requires Preview(payload, columns, ChangesOf(payload)).Some?
    ensures var shown := FirstShown(payload, columns, k);
      shown.Some? && Shows(payload, columns, k, 0, 0, [], shown.value)
  {
    hide Preview, Build, DeleteReads, UpdateReads, InsertReads, Picks, Rendered, Printable;
    if k == 0 {
      EmptyPreview(payload, columns);
      PicksNone<Update>();
      assert payload.updated[..0] == [] && UpdateMarks(columns, []) == [];
    } else {
      DeletesAreShown(payload, columns, k - 1);
      var changes := ChangesOf(payload);
      PreviewGoesOn(payload, columns, changes, k - 1);
      assert changes[k - 1] == DeleteRow(payload.deleted[k - 1]);
      DeleteShows(payload, columns, payload.deleted[k - 1]);
    }
  }

  lemma DeleteShows(payload: Payload, columns: seq<Column>, rowKey: Record)
    requires Printable(rowKey)
    requires var built := Build(payload, columns, DeleteRow(rowKey));
      built.Some? && (built.value.text != "" ==> Rendered(built.value).Some?)
    ensures var built := Build(payload, columns, DeleteRow(rowKey));
      built.value.text != "" && DeleteReads(payload, columns, rowKey, Rendered(built.value).value)
  {
    hide BuildDelete, Rendered, DeleteReads;
    DeleteHasText(payload.database, payload.table, KeyNames(columns), rowKey);
    DeleteIsShown(payload, columns, rowKey);
  }

  lemma UpdateShows(payload: Payload, columns: seq<Column>, update: Update)
    requires Printable(update.values) && Printable(update.row_key)
    requires var built := Build(payload, columns, UpdateRow(update));
      built.Some? && (built.value.text != "" ==> Rendered(built.value).Some?)
    ensures var built := Build(payload, columns, UpdateRow(update));
      if exists c <- columns :: c.name in update.values then
        built.value.text != "" && UpdateReads(payload, columns, update, Rendered(built.value).value)
      else built.value.text == ""
  {
    SetColumnsAreStorable(columns, update.values);
    if SetColumns(columns, update.values) != [] {
      UpdateHasText(payload, columns, update);
      UpdateIsShown(payload, columns, update);
    }
    hide Rendered, UpdateReads, SetColumns, ParamsFor;
  }

  lemma UpdateHasText(payload: Payload, columns: seq<Column>, update: Update)
    requires SetColumns(columns, update.values) != [] && Build(payload, columns, UpdateRow(update)).Some?
    ensures Build(payload, columns, UpdateRow(update)).value.text != ""
  {
    hide Join, Conditions, ParamsFor, SetColumns, KeyNames, TableText;
  }

  lemma InsertShows(payload: Payload, columns: seq<Column>, values: Record)
    requires Printable(values)
    requires var built := Build(payload, columns, InsertRow(values));
      built.Some? && (built.value.text != "" ==> Rendered(built.value).Some?)
    ensures var built := Build(payload, columns, InsertRow(values));
      built.value.text != "" && InsertReads(payload, columns, values, Rendered(built.value).value)
  {
    hide BuildInsert, Rendered, InsertReads;
    InsertHasText(payload.database, payload.table, columns, values);
    InsertIsShown(payload, columns, values);
  }

  lemma {:induction false} UpdatesAreShown(payload: Payload, columns: seq<Column>, k: nat)
    returns (setting: seq<Update>)
    requires k <= |payload.updated| && AllPrintable(payload)
    requires Preview(payload, columns, ChangesOf(payload)).Some?
    ensures var d := |payload.deleted|; var shown := FirstShown(payload, columns, d + k);
      shown.Some? && Shows(payload, columns, d, k, 0, setting, shown.value)
  {
    hide Preview, Build, DeleteReads, UpdateReads, InsertReads, Picks, Rendered, Printable;
    var d := |payload.deleted|;
    if k == 0 {
      setting := [];
      DeletesAreShown(payload, columns, d);
    } else {
      var before := UpdatesAreShown(payload, columns, k - 1);
      var changes := ChangesOf(payload);
      PreviewGoesOn(payload, columns, changes, d + k - 1);
      var update := payload.updated[k - 1];
      assert changes[d + k - 1] == UpdateRow(update);
      UpdateShows(payload, columns, update);
      var sets := exists c <- columns :: c.name in update.values;
      setting := if sets then before + [update] else before;
      PicksLast(payload.updated[..k - 1], UpdateMarks(columns, payload.updated[..k - 1]), before, update, sets);
      assert payload.updated[..k] == payload.updated[..k - 1] + [update];
      assert UpdateMarks(columns, payload.updated[..k]) == UpdateMarks(columns, payload.updated[..k - 1]) + [sets];
    }
  }

  lemma {:induction false} InsertsAreShown(payload: Payload, columns: seq<Column>, k: nat)
    returns (setting: seq<Update>)
    requires k <= |payload.inserted| && AllPrintable(payload)
    requires Preview(payload, columns, ChangesOf(payload)).Some?
    ensures
      var d, u := |payload.deleted|, |payload.updated|;
      var shown := FirstShown(payload, columns, d + u + k);
      shown.Some? && Shows(payload, columns, d, u, k, setting, shown.value)
  {
    hide Preview, Build, DeleteReads, UpdateReads, InsertReads, Picks, Rendered, Printable;
    var d, u := |payload.deleted|, |payload.updated|;
    if k == 0 {
      setting := UpdatesAreShown(payload, columns, u);
    } else {
      setting := InsertsAreShown(payload, columns, k - 1);
      var changes := ChangesOf(payload);
      PreviewGoesOn(payload, columns, changes, d + u + k - 1);
      assert changes[d + u + k - 1] == InsertRow(payload.inserted[k - 1]);
      InsertShows(payload, columns, payload.inserted[k - 1]);
    }
  }

  /**
   * What is shown, and so what is executed: first one delete for each deleted row, then one update for each updated row
   * that sets a column, then one insert for each inserted row, in their order. Each is read as naming the table,
   * deletes and updates exactly the primary key columns in their order, each with the row key's value, and updates and
   * inserts exactly the columns that they give a value to.
   */
  lemma ShownStatements(payload: Payload, columns: seq<Column>)
    requires AllPrintable(payload) && Preview(payload, columns, ChangesOf(payload)).Some?
    ensures exists setting ::
      Shows(payload, columns, |payload.deleted|, |payload.updated|, |payload.inserted|, setting,
        Preview(payload, columns, ChangesOf(payload)).value)
  {
    hide Preview, Shows;
    var setting := InsertsAreShown(payload, columns, |payload.inserted|);
    var changes := ChangesOf(payload);
    assert changes[..|changes|] == changes;
  }
}
