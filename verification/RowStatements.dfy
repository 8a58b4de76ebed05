/** Deleting, updating and inserting rows: the statements that are executed and the ones that are shown before. */
module RowStatements {
  import opened JsonValues
  import opened Text
  import opened SqlPrinters

  /** A parameter of a prepared statement. */
  datatype Param =
    | NullParam
    | BytesParam(text: string)
    | IntParam(number: int)
    | UIntParam(unsigned: nat)
    | DoubleParam(negative: bool, digits: string)

  datatype Statement = Statement(text: string, params: seq<Param>)

  datatype Column = Column(name: string, primary_key: bool, auto_increment: bool)

  datatype Update = Update(row_key: Record, values: Record)

  datatype Payload = Payload(
    database: string, table: string, deleted: seq<Record>, updated: seq<Update>, inserted: seq<Record>)

  // ---- Parameters ----

  function ToParam(value: Json): Option<Param> {
    match value
    case Null => Some(NullParam)
    case Bool(flag) => Some(IntParam(if flag then 1 else 0))
    case Integer(n) =>
      if -0x8000_0000_0000_0000 <= n < 0x8000_0000_0000_0000 then Some(IntParam(n))
      else if 0 <= n < 0x1_0000_0000_0000_0000 then Some(UIntParam(n))
      else None
    case Real(negative, digits) => Some(DoubleParam(negative, digits))
    case Str(text) => Some(BytesParam(text))
    case Nested(json) => Some(BytesParam(json))
  }

  function ParamText(param: Param): string {
    match param
    case NullParam => "NULL"
    case BytesParam(text) => QuoteLiteral(text)
    case IntParam(n) => if n < 0 then "-" + Decimal(-n) else Decimal(n)
    case UIntParam(n) => Decimal(n)
    case DoubleParam(negative, digits) => (if negative then "-" else "") + digits
  }

  /** The parameters for some columns, in their order; `None` when a value is missing. */
  function ParamsFor(names: seq<string>, values: Record): (r: Option<seq<Param>>)
    ensures r.Some? ==> |r.value| == |names|
    ensures r.Some? ==> forall i :: 0 <= i < |names| ==>
      names[i] in values && ToParam(values[names[i]]) == Some(r.value[i])
  {
    if names == [] then Some([])
    else if names[0] !in values || ToParam(values[names[0]]).None? then None
    else
      match ParamsFor(names[1..], values)
      case None => None
      case Some(rest) => Some([ToParam(values[names[0]]).value] + rest)
  }

  // ---- The three builders ----

  function Conditions(names: seq<string>): seq<string> {
    if names == [] then [] else [QuoteIdentifier(names[0]) + " = ?"] + Conditions(names[1..])
  }

  function Placeholders(n: nat): seq<string> { if n == 0 then [] else ["?"] + Placeholders(n - 1) }

  function WhereClause(keys: seq<string>, rowKey: Record): Option<string> {
    if keys == [] || rowKey == map[] || exists key <- keys :: key !in rowKey then None
    else Some(Join(Conditions(keys), " AND "))
  }

  function BuildDelete(database: string, table: string, keys: seq<string>, rowKey: Record): Option<Statement> {
    match WhereClause(keys, rowKey)
    case None => None
    case Some(condition) =>
      match ParamsFor(keys, rowKey)
      case None => None
      case Some(params) =>
        Some(Statement("DELETE FROM " + TableText(database, table) + " WHERE " + condition, params))
  }

  function SetColumns(columns: seq<Column>, values: Record): seq<string> {
    if columns == [] then []
    else (if columns[0].name in values then [columns[0].name] else []) + SetColumns(columns[1..], values)
  }

  /** An update that sets no column of the table is the empty statement. */
  function BuildUpdate(database: string, table: string, columns: seq<Column>, keys: seq<string>, update: Update)
    : Option<Statement>
  {
    var names := SetColumns(columns, update.values);
    if names == [] then Some(Statement("", []))
    else
      match ParamsFor(names, update.values)
      case None => None
      case Some(params) =>
        match WhereClause(keys, update.row_key)
        case None => None
        case Some(condition) =>
          match ParamsFor(keys, update.row_key)
          case None => None
          case Some(keyParams) =>
            Some(Statement(
              "UPDATE " + TableText(database, table) + " SET " + Join(Conditions(names), ", ") + " WHERE " + condition,
              params + keyParams))
  }

  function InsertColumns(columns: seq<Column>, values: Record): seq<string> {
    if columns == [] then []
    else
      var c := columns[0];
      (if c.name in values && !(c.auto_increment && values[c.name] == Null) then [c.name] else [])
      + InsertColumns(columns[1..], values)
  }

  function BuildInsert(database: string, table: string, columns: seq<Column>, values: Record): Option<Statement> {
    var names := InsertColumns(columns, values);
    if names == [] then Some(Statement("INSERT INTO " + TableText(database, table) + " () VALUES ()", []))
    else
      match ParamsFor(names, values)
      case None => None
      case Some(params) =>
        Some(Statement(
          "INSERT INTO " + TableText(database, table) + " (" + Join(QuotedNames(names), ", ") + ") VALUES ("
          + Join(Placeholders(|names|), ", ") + ")",
          params))
  }

  // ---- Rendering ----

  function CountOf(s: string, c: char): nat {
    if s == "" then 0 else (if s[0] == c then 1 else 0) + CountOf(s[1..], c)
  }

  /** The text with its i-th question mark replaced by the i-th parameter. */
  function Substituted(s: string, params: seq<Param>): string
    requires CountOf(s, '?') <= |params|
  {
    if s == "" then ""
    else if s[0] == '?' then ParamText(params[0]) + Substituted(s[1..], params[1..])
    else [s[0]] + Substituted(s[1..], params)
  }

  function Rendered(statement: Statement): Option<string> {
    if CountOf(statement.text, '?') == |statement.params| then Some(Substituted(statement.text, statement.params))
    else None
  }

  function Split(s: string, c: char): (parts: seq<string>)
    ensures |parts| == CountOf(s, c) + 1
  {
    if s == "" then [""]
    else
      var rest := Split(s[1..], c);
      if s[0] == c then [""] + rest else [[s[0]] + rest[0]] + rest[1..]
  }

  /** What the loop still has to write: parameter and part in turn. */
  function Woven(parts: seq<string>, params: seq<Param>): string
    requires |parts| == |params|
  {
    if parts == [] then "" else ParamText(params[0]) + parts[0] + Woven(parts[1..], params[1..])
  }

  lemma {:induction false} WovenIsSubstituted(s: string, params: seq<Param>)
    requires CountOf(s, '?') == |params|
    ensures Split(s, '?')[0] + Woven(Split(s, '?')[1..], params) == Substituted(s, params)
  {
    hide ParamText;
    if s != "" {
      var rest := Split(s[1..], '?');
      if s[0] == '?' {
        WovenIsSubstituted(s[1..], params[1..]);
        assert Split(s, '?')[1..] == rest;
        assert ParamText(params[0]) + (rest[0] + Woven(rest[1..], params[1..]))
            == ParamText(params[0]) + rest[0] + Woven(rest[1..], params[1..]);
      } else {
        WovenIsSubstituted(s[1..], params);
        assert Split(s, '?')[1..] == rest[1..];
        assert [s[0]] + (rest[0] + Woven(rest[1..], params)) == [s[0]] + rest[0] + Woven(rest[1..], params);
      }
    }
  }

  lemma {:induction false} NothingToSubstitute(s: string)
    requires CountOf(s, '?') == 0
    ensures Substituted(s, []) == s
  {
    if s != "" { NothingToSubstitute(s[1..]); }
  }

  method RenderStatementWithParams(statement: Statement) returns (r: Option<string>)
    ensures r == Rendered(statement)
  {
    hide ParamText, Split;
    var text, params := statement.text, statement.params;
    if CountOf(text, '?') != |params| {
      return None;
    }
    if params == [] {
      NothingToSubstitute(text);
      return Some(text);
    }
    var parts := Split(text, '?');
    var rendered := parts[0];
    for k := 0 to |params|
      invariant rendered + Woven(parts[k + 1..], params[k..]) == parts[0] + Woven(parts[1..], params)
    {
      ghost var rest := Woven(parts[k + 2..], params[k + 1..]);
      assert parts[k + 1..][1..] == parts[k + 2..] && params[k..][1..] == params[k + 1..];
      assert rendered + (ParamText(params[k]) + parts[k + 1] + rest)
          == rendered + ParamText(params[k]) + parts[k + 1] + rest;
      rendered := rendered + ParamText(params[k]) + parts[k + 1];
    }
    assert rendered + Woven(parts[|params| + 1..], params[|params|..]) == rendered;
    WovenIsSubstituted(text, params);
    r := Some(rendered);
  }

  // ---- The whole change ----

  function KeyNames(columns: seq<Column>): seq<string> {
    if columns == [] then []
    else (if columns[0].primary_key then [columns[0].name] else []) + KeyNames(columns[1..])
  }

  lemma {:induction false} KeyNamesAre(columns: seq<Column>, name: string)
    ensures name in KeyNames(columns) <==> exists column <- columns :: column.name == name && column.primary_key
  {
    if columns != [] {
      KeyNamesAre(columns[1..], name);
      assert columns == [columns[0]] + columns[1..];
    }
  }

  lemma KeyExists(columns: seq<Column>)
    ensures KeyNames(columns) != [] <==> exists column <- columns :: column.primary_key
  {
    var keys := KeyNames(columns);
    if keys != [] { KeyNamesAre(columns, keys[0]); }
    forall column | column in columns && column.primary_key
      ensures keys != []
    {
      KeyNamesAre(columns, column.name);
    }
  }

  datatype Change = DeleteRow(row_key: Record) | UpdateRow(update: Update) | InsertRow(values: Record)

  /** The changes in the order in which they are made: deletes, updates, inserts. */
  function ChangesOf(payload: Payload): seq<Change> {
    seq(|payload.deleted|, i requires 0 <= i < |payload.deleted| => DeleteRow(payload.deleted[i]))
    + seq(|payload.updated|, i requires 0 <= i < |payload.updated| => UpdateRow(payload.updated[i]))
    + seq(|payload.inserted|, i requires 0 <= i < |payload.inserted| => InsertRow(payload.inserted[i]))
  }

  function Build(payload: Payload, columns: seq<Column>, change: Change): Option<Statement> {
    match change
    case DeleteRow(rowKey) => BuildDelete(payload.database, payload.table, KeyNames(columns), rowKey)
    case UpdateRow(update) => BuildUpdate(payload.database, payload.table, columns, KeyNames(columns), update)
    case InsertRow(values) => BuildInsert(payload.database, payload.table, columns, values)
  }

  /** The statements that the changes stand for; empty ones are left out. */
  function Plan(payload: Payload, columns: seq<Column>, changes: seq<Change>): Option<seq<Statement>> {
    if changes == [] then Some([])
    else
      match Plan(payload, columns, changes[..|changes| - 1])
      case None => None
      case Some(rest) =>
        match Build(payload, columns, changes[|changes| - 1])
        case None => None
        case Some(s) => Some(if s.text == "" then rest else rest + [s])
  }

  function RenderAll(statements: seq<Statement>): Option<seq<string>> {
    if statements == [] then Some([])
    else
      match RenderAll(statements[..|statements| - 1])
      case None => None
      case Some(rest) =>
        match Rendered(statements[|statements| - 1])
        case None => None
        case Some(text) => Some(rest + [text])
  }

  /** What is shown: every statement of the plan, rendered. */
  function Preview(payload: Payload, columns: seq<Column>, changes: seq<Change>): Option<seq<string>> {
    match Plan(payload, columns, changes) case None => None case Some(plan) => RenderAll(plan)
  }

  lemma {:induction false} StuckPreview(payload: Payload, columns: seq<Column>, changes: seq<Change>, k: nat)
    requires k <= |changes| && Preview(payload, columns, changes[..k]).None?
    ensures Preview(payload, columns, changes).None?
    decreases |changes|
  {
    hide Build, Rendered;
    if k < |changes| {
      var most := changes[..|changes| - 1];
      assert most[..k] == changes[..k];
      StuckPreview(payload, columns, most, k);
      PreviewStep(payload, columns, changes, |changes| - 1);
      assert changes[..|changes| - 1 + 1] == changes;
    } else {
      assert changes[..k] == changes;
    }
  }

  lemma PlanStep(payload: Payload, columns: seq<Column>, changes: seq<Change>, k: nat)
    requires k < |changes|
    ensures Plan(payload, columns, changes[..k + 1])
         == match Plan(payload, columns, changes[..k])
            case None => None
            case Some(rest) =>
              match Build(payload, columns, changes[k])
              case None => None
              case Some(s) => Some(if s.text == "" then rest else rest + [s])
  {
    hide Build;
    assert changes[..k + 1][..k] == changes[..k];
  }

  /** What one more change adds to what is shown. */
  function Shown(before: Option<seq<string>>, built: Option<Statement>): Option<seq<string>> {
    match before
    case None => None
    case Some(texts) =>
      match built
      case None => None
      case Some(s) =>
        if s.text == "" then Some(texts)
        else match Rendered(s) case None => None case Some(text) => Some(texts + [text])
  }

  lemma PreviewStep(payload: Payload, columns: seq<Column>, changes: seq<Change>, k: nat)
    requires k < |changes|
    ensures Preview(payload, columns, changes[..k + 1])
         == Shown(Preview(payload, columns, changes[..k]), Build(payload, columns, changes[k]))
  {
    hide Build, Rendered, Plan;
    PlanStep(payload, columns, changes, k);
    var before, built := Plan(payload, columns, changes[..k]), Build(payload, columns, changes[k]);
    if before.Some? && built.Some? && built.value.text != "" {
      assert (before.value + [built.value])[..|before.value|] == before.value;
    }
  }

  lemma DeleteHasText(database: string, table: string, keys: seq<string>, rowKey: Record)
    ensures var built := BuildDelete(database, table, keys, rowKey);
      built.Some? ==> built.value.text != ""
  {
    hide Join, Conditions, ParamsFor;
  }

  lemma InsertHasText(database: string, table: string, columns: seq<Column>, values: Record)
    ensures var built := BuildInsert(database, table, columns, values);
      built.Some? ==> built.value.text != ""
  {
    hide Join, QuotedNames, ParamsFor;
  }

  /** One statement of the preview: its text, or nothing when it cannot be built or rendered. */
  method ShowStatement(before: seq<string>, built: Option<Statement>) returns (r: Option<seq<string>>)
    ensures r == Shown(Some(before), built)
  {
    if built.None? {
      return None;
    }
    if built.value.text == "" {
      return Some(before);
    }
    var text := RenderStatementWithParams(built.value);
    if text.None? {
      return None;
    }
    r := Some(before + [text.value]);
  }

  method PreviewDataStatements(payload: Payload, columns: seq<Column>) returns (r: Option<seq<string>>)
    ensures r == Preview(payload, columns, ChangesOf(payload))
  {
    hide Preview, BuildDelete, BuildUpdate, BuildInsert, Shown;
    ghost var changes := ChangesOf(payload);
    var keys := KeyNames(columns);
    var shown: Option<seq<string>> := Some([]);
    EmptyPreview(payload, columns);
    for k := 0 to |payload.deleted|
      invariant shown.Some? && shown == Preview(payload, columns, changes[..k])
    {
      PreviewStep(payload, columns, changes, k);
      shown := ShowStatement(shown.value, BuildDelete(payload.database, payload.table, keys, payload.deleted[k]));
      if shown.None? {
        StuckPreview(payload, columns, changes, k + 1);
        return None;
      }
    }
    for k := 0 to |payload.updated|
      invariant shown.Some? && shown == Preview(payload, columns, changes[..|payload.deleted| + k])
    {
      PreviewStep(payload, columns, changes, |payload.deleted| + k);
      shown := ShowStatement(
        shown.value, BuildUpdate(payload.database, payload.table, columns, keys, payload.updated[k]));
      if shown.None? {
        StuckPreview(payload, columns, changes, |payload.deleted| + k + 1);
        return None;
      }
    }
    for k := 0 to |payload.inserted|
      invariant shown.Some?
      invariant shown == Preview(payload, columns, changes[..|payload.deleted| + |payload.updated| + k])
    {
      PreviewStep(payload, columns, changes, |payload.deleted| + |payload.updated| + k);
      shown := ShowStatement(shown.value, BuildInsert(payload.database, payload.table, columns, payload.inserted[k]));
      if shown.None? {
        StuckPreview(payload, columns, changes, |payload.deleted| + |payload.updated| + k + 1);
        return None;
      }
    }
    assert changes[..|changes|] == changes;
    r := shown;
  }

  lemma EmptyPreview(payload: Payload, columns: seq<Column>)
    ensures ChangesOf(payload)[..0] == [] && Preview(payload, columns, []) == Some([])
  {
  }

  lemma ChangesInTurn(payload: Payload, columns: seq<Column>)
    ensures var changes := ChangesOf(payload);
      var d, u, n := |payload.deleted|, |payload.updated|, |payload.inserted|;
      && |changes| == d + u + n
      && (forall k :: 0 <= k < d ==>
            Build(payload, columns, changes[k])
            == BuildDelete(payload.database, payload.table, KeyNames(columns), payload.deleted[k]))
      && (forall k :: 0 <= k < u ==>
            Build(payload, columns, changes[d + k])
            == BuildUpdate(payload.database, payload.table, columns, KeyNames(columns), payload.updated[k]))
      && (forall k :: 0 <= k < n ==>
            Build(payload, columns, changes[d + u + k])
            == BuildInsert(payload.database, payload.table, columns, payload.inserted[k]))
  {
    hide BuildDelete, BuildUpdate, BuildInsert, KeyNames;
  }

  /** A database server as the editor sees it: the statements committed so far. */
  class Server {
    var committed: seq<Statement>

    constructor ()
      ensures committed == []
    {
      committed := [];
    }

    /**
     * Runs the changes in one transaction in which the server carries out `accepted` statements before it rejects one.
     * Either everything that was shown is committed, statement by statement, or nothing is.
     */
    method ApplyTableDataChanges(payload: Payload, columns: seq<Column>, accepted: nat, commits: bool)
      returns (r: Option<seq<string>>, affected: nat)
      modifies this
      ensures r.Some? <==>
        && (exists column <- columns :: column.primary_key)
        && Preview(payload, columns, ChangesOf(payload)).Some?
        && |Plan(payload, columns, ChangesOf(payload)).value| <= accepted && commits
      ensures r.Some? ==>
        && r == Preview(payload, columns, ChangesOf(payload))
        && committed == old(committed) + Plan(payload, columns, ChangesOf(payload)).value
        && affected == |payload.deleted| + |payload.updated| + |payload.inserted|
      ensures r.None? ==> committed == old(committed)
    {
      hide *;
      KeyExists(columns);
      ChangesInTurn(payload, columns);
      ghost var changes := ChangesOf(payload);
      var keys := KeyNames(columns);
      affected := 0;
      if keys == [] {
        return None, 0;
      }
      var statements := PreviewDataStatements(payload, columns);
      if statements.None? {
        return None, 0;
      }
      var transaction: seq<Statement> := [];
      EmptyPlan(payload, columns);
      for k := 0 to |payload.deleted|
        invariant Plan(payload, columns, changes[..k]) == Some(transaction)
        invariant |transaction| <= accepted
        invariant committed == old(committed)
      {
        PlanGoesOn(payload, columns, changes, k);
        DeleteHasText(payload.database, payload.table, keys, payload.deleted[k]);
        var built := BuildDelete(payload.database, payload.table, keys, payload.deleted[k]);
        if |transaction| == accepted {
          return None, 0;
        }
        transaction := transaction + [built.value];
      }
      for k := 0 to |payload.updated|
        invariant Plan(payload, columns, changes[..|payload.deleted| + k]) == Some(transaction)
        invariant |transaction| <= accepted && committed == old(committed)
      {
        PlanGoesOn(payload, columns, changes, |payload.deleted| + k);
        var built := BuildUpdate(payload.database, payload.table, columns, keys, payload.updated[k]);
        if built.value.text != "" {
          if |transaction| == accepted {
            return None, 0;
          }
          transaction := transaction + [built.value];
        }
      }
      for k := 0 to |payload.inserted|
        invariant Plan(payload, columns, changes[..|payload.deleted| + |payload.updated| + k]) == Some(transaction)
        invariant |transaction| <= accepted && committed == old(committed)
      {
        PlanGoesOn(payload, columns, changes, |payload.deleted| + |payload.updated| + k);
        InsertHasText(payload.database, payload.table, columns, payload.inserted[k]);
        var built := BuildInsert(payload.database, payload.table, columns, payload.inserted[k]);
        if |transaction| == accepted {
          return None, 0;
        }
        transaction := transaction + [built.value];
      }
      assert changes[..|changes|] == changes;
      if !commits {
        return None, 0;
      }
      committed := committed + transaction;
      r := statements;
      affected := |payload.deleted| + |payload.updated| + |payload.inserted|;
    }
  }

  lemma EmptyPlan(payload: Payload, columns: seq<Column>)
    ensures ChangesOf(payload)[..0] == [] && Plan(payload, columns, []) == Some([])
  {
  }

  lemma {:induction false} PlanGrows(payload: Payload, columns: seq<Column>, changes: seq<Change>, k: nat)
    requires k <= |changes| && Plan(payload, columns, changes).Some?
    ensures Plan(payload, columns, changes[..k]).Some?
    ensures |Plan(payload, columns, changes[..k]).value| <= |Plan(payload, columns, changes).value|
    decreases |changes|
  {
    hide Build;
    if k < |changes| {
      assert changes[..|changes| - 1][..k] == changes[..k];
      PlanGrows(payload, columns, changes[..|changes| - 1], k);
    } else {
      assert changes[..k] == changes;
    }
  }

  /** Once the preview is there, every change can be built, and its statement is the next of the plan. */
  lemma PlanGoesOn(payload: Payload, columns: seq<Column>, changes: seq<Change>, k: nat)
    requires k < |changes| && Preview(payload, columns, changes).Some?
    ensures Plan(payload, columns, changes).Some? && Build(payload, columns, changes[k]).Some?
    ensures Plan(payload, columns, changes[..k]).Some? && Plan(payload, columns, changes[..k + 1]).Some?
    ensures |Plan(payload, columns, changes[..k + 1]).value| <= |Plan(payload, columns, changes).value|
    ensures var s := Build(payload, columns, changes[k]).value;
      var before := Plan(payload, columns, changes[..k]).value;
      Plan(payload, columns, changes[..k + 1]).value == if s.text == "" then before else before + [s]
  {
    PlanGrows(payload, columns, changes, k);
    PlanGrows(payload, columns, changes, k + 1);
    PlanStep(payload, columns, changes, k);
    hide Build, Plan;
  }
}
