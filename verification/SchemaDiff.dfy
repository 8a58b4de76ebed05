/** The table designer's compiler from two column lists to one ALTER TABLE statement. */
module SchemaDiff {
  import opened SqlPrinters
  import opened Text

  datatype Column = Column(
    name: string,
    data_type: string,
    length: Option<nat>,
    scale: Option<nat>,
    nullable: bool,
    primary_key: bool,
    auto_increment: bool,
    default_value: Option<string>,
    comment: string)

  /** What a column definition says after the name, in the normal form in which it is written out. */
  datatype Definition = Definition(
    type_text: string, not_null: bool, default_text: Option<string>, auto_increment: bool, comment: string)

  datatype Clause =
    | DropColumn(name: string)
    | ModifyColumn(name: string, definition: Definition)
    | AddColumn(name: string, definition: Definition)
    | DropPrimaryKey
    | AddPrimaryKey(names: seq<string>)

  // ---- Column definitions ----

  function Upper(s: string): (upper: string)
    ensures |upper| == |s|
    ensures forall i :: 0 <= i < |s| ==>
      upper[i] == if 'a' <= s[i] <= 'z' then (s[i] as int - 32) as char else s[i]
  {
    if s == "" then ""
    else [if 'a' <= s[0] <= 'z' then (s[0] as int - 32) as char else s[0]] + Upper(s[1..])
  }

  const NumericTypes: set<string> := {
    "int", "integer", "tinyint", "smallint", "mediumint", "bigint", "decimal", "numeric", "float", "double", "real"
  }

  predicate DigitsWithPoint(s: string, points: nat) {
    if s == "" then true
    else if s[0] == '.' then points > 0 && DigitsWithPoint(s[1..], points - 1)
    else IsDigit(s[0]) && DigitsWithPoint(s[1..], points)
  }

  function WithoutSign(s: string): string {
    if s != "" && (s[0] == '+' || s[0] == '-') then s[1..] else s
  }

  function ExponentMark(s: string): (i: nat)
    ensures i <= |s|
  {
    if s == "" || s[0] == 'e' || s[0] == 'E' then 0 else 1 + ExponentMark(s[1..])
  }

  /** The texts that Rust's `parse::<f64>` accepts. */
  predicate IsFloatText(s: string) {
    var body := WithoutSign(s);
    var mark := ExponentMark(body);
    var mantissa := body[..mark];
    || Upper(body) in {"INF", "INFINITY", "NAN"}
    || (&& DigitsWithPoint(mantissa, 1)
        && (exists c <- mantissa :: IsDigit(c))
        && (mark == |body| ||
            var exponent := WithoutSign(body[mark + 1..]);
            exponent != "" && AllDigits(exponent)))
  }

  function RenderDefault(data_type: string, value: string): string {
    var raw := Trim(value);
    var upper := Upper(raw);
    if upper == "NULL" then "NULL"
    else if upper == "CURRENT_TIMESTAMP" || upper == "CURRENT_TIMESTAMP()" then upper
    else if data_type in NumericTypes && IsFloatText(raw) then raw
    else QuoteLiteral(raw)
  }

  function TypeText(column: Column): string {
    var base := Lower(Trim(column.data_type));
    if column.length.Some? && column.scale.Some? then
      base + "(" + Decimal(column.length.value) + "," + Decimal(column.scale.value) + ")"
    else if column.length.Some? then base + "(" + Decimal(column.length.value) + ")"
    else base
  }

  function DefinitionOf(column: Column): Definition {
    Definition(
      TypeText(column),
      column.primary_key || !column.nullable,
      if column.default_value.Some? then Some(RenderDefault(column.data_type, column.default_value.value)) else None,
      column.auto_increment,
      Trim(column.comment))
  }

  function DefinitionText(name: string, d: Definition): string {
    QuoteIdentifier(name) + " " + d.type_text
    + (if d.not_null then " NOT NULL" else " NULL")
    + (if d.default_text.Some? then " DEFAULT " + d.default_text.value else "")
    + (if d.auto_increment then " AUTO_INCREMENT" else "")
    + (if d.comment != "" then " COMMENT " + QuoteLiteral(d.comment) else "")
  }

  function ClauseText(clause: Clause): string {
    match clause
    case DropColumn(name) => "DROP COLUMN " + QuoteIdentifier(name)
    case ModifyColumn(name, d) => "MODIFY COLUMN " + DefinitionText(name, d)
    case AddColumn(name, d) => "ADD COLUMN " + DefinitionText(name, d)
    case DropPrimaryKey => "DROP PRIMARY KEY"
    case AddPrimaryKey(names) => "ADD PRIMARY KEY (" + Join(QuotedNames(names), ", ") + ")"
  }

  function ClauseTexts(clauses: seq<Clause>): seq<string> {
    if clauses == [] then [] else ClauseTexts(clauses[..|clauses| - 1]) + [ClauseText(clauses[|clauses| - 1])]
  }

  function AlterText(database: string, table: string, clauses: seq<Clause>): string {
    "ALTER TABLE " + TableText(database, table) + " " + Join(ClauseTexts(clauses), ", ")
  }

  // ---- The diff ----

  function Names(columns: seq<Column>): set<string> { set column <- columns :: column.name }

  /** Columns by name; of two with one name the later counts. */
  function ByName(columns: seq<Column>): (m: map<string, Column>)
    ensures m.Keys == Names(columns)
    ensures forall name :: name in m ==> m[name] in columns && m[name].name == name
  {
    if columns == [] then map[]
    else
      var last := columns[|columns| - 1];
      assert columns == columns[..|columns| - 1] + [last];
      ByName(columns[..|columns| - 1])[last.name := last]
  }

  /** Whether the columns differ in anything but their names and being in the key. */
  predicate Changed(current: Column, draft: Column): (changed: bool)
    ensures changed <==> current.(name := draft.name, primary_key := draft.primary_key) != draft
  {
    || current.data_type != draft.data_type
    || current.length != draft.length
    || current.scale != draft.scale
    || current.nullable != draft.nullable
    || current.auto_increment != draft.auto_increment
    || current.default_value != draft.default_value
    || current.comment != draft.comment
  }

  function KeyOf(columns: seq<Column>): seq<string> {
    if columns == [] then []
    else
      var last := columns[|columns| - 1];
      KeyOf(columns[..|columns| - 1]) + (if last.primary_key then [last.name] else [])
  }

  function Drops(columns: seq<Column>, kept: set<string>): seq<Clause> {
    if columns == [] then []
    else
      var last := columns[|columns| - 1];
      Drops(columns[..|columns| - 1], kept) + (if last.name in kept then [] else [DropColumn(last.name)])
  }

  function ChangeOf(current: map<string, Column>, draft: Column): seq<Clause> {
    if draft.name in current then
      if Changed(current[draft.name], draft) then [ModifyColumn(Trim(draft.name), DefinitionOf(draft))] else []
    else [AddColumn(Trim(draft.name), DefinitionOf(draft))]
  }

  function Changes(current: map<string, Column>, draft: seq<Column>): seq<Clause> {
    if draft == [] then []
    else Changes(current, draft[..|draft| - 1]) + ChangeOf(current, draft[|draft| - 1])
  }

  function KeyChanges(current: seq<string>, draft: seq<string>): seq<Clause> {
    if current == draft then []
    else (if current != [] then [DropPrimaryKey] else []) + (if draft != [] then [AddPrimaryKey(draft)] else [])
  }

  function AlterClauses(current: seq<Column>, draft: seq<Column>): seq<Clause> {
    Drops(current, Names(draft)) + Changes(ByName(current), draft) + KeyChanges(KeyOf(current), KeyOf(draft))
  }

  // ---- The loops ----

  /** The designer's checks: some column, no blank name or type, no two names equal after trimming. */
  ghost predicate ValidDraft(columns: seq<Column>) {
    && columns != []
    && (forall column <- columns :: Trim(column.name) != "" && Trim(column.data_type) != "")
    && forall i, j :: 0 <= i < j < |columns| ==> Trim(columns[i].name) != Trim(columns[j].name)
  }

  method ValidateDraftColumns(columns: seq<Column>) returns (ok: bool)
    ensures ok <==> ValidDraft(columns)
  {
    hide Trim;
    if columns == [] {
      return false;
    }
    var names: set<string> := {};
    for k := 0 to |columns|
      invariant names == set i | 0 <= i < k :: Trim(columns[i].name)
      invariant forall i :: 0 <= i < k ==> Trim(columns[i].name) != "" && Trim(columns[i].data_type) != ""
      invariant forall i, j :: 0 <= i < j < k ==> Trim(columns[i].name) != Trim(columns[j].name)
    {
      var name := Trim(columns[k].name);
      if name == "" || Trim(columns[k].data_type) == "" {
        assert columns[k] in columns;
        return false;
      }
      if name in names {
        return false;
      }
      names := names + {name};
    }
    ok := true;
  }

  lemma DropsStep(columns: seq<Column>, k: nat, kept: set<string>)
    requires k < |columns|
    ensures Drops(columns[..k + 1], kept)
         == Drops(columns[..k], kept) + if columns[k].name in kept then [] else [DropColumn(columns[k].name)]
  {
    assert columns[..k + 1][..k] == columns[..k];
  }

  lemma ChangesStep(current: map<string, Column>, draft: seq<Column>, k: nat)
    requires k < |draft|
    ensures Changes(current, draft[..k + 1]) == Changes(current, draft[..k]) + ChangeOf(current, draft[k])
  {
    hide ChangeOf;
    assert draft[..k + 1][..k] == draft[..k];
  }

  method BuildAlterTableStatements(database: string, table: string, current: seq<Column>, draft: seq<Column>)
    returns (r: Result<seq<string>>)
    ensures r.Ok? <==> ValidDraft(draft)
    ensures r.Ok? ==>
      var clauses := AlterClauses(current, draft);
      r.value == if clauses == [] then [] else [AlterText(database, table, clauses)]
  {
    hide DefinitionOf, Changed, ByName, KeyOf, Trim, AlterText, ValidDraft;
    var valid := ValidateDraftColumns(draft);
    if !valid {
      return Err("invalid draft");
    }
    var current_map, draft_map := ByName(current), ByName(draft);
    var clauses: seq<Clause> := [];
    for k := 0 to |current|
      invariant clauses == Drops(current[..k], Names(draft))
    {
      DropsStep(current, k, Names(draft));
      if current[k].name !in draft_map {
        clauses := clauses + [DropColumn(current[k].name)];
      }
    }
    assert current[..|current|] == current;
    ghost var drops := clauses;
    for k := 0 to |draft|
      invariant clauses == drops + Changes(current_map, draft[..k])
    {
      ChangesStep(current_map, draft, k);
      var column := draft[k];
      if column.name in current_map {
        if Changed(current_map[column.name], column) {
          clauses := clauses + [ModifyColumn(Trim(column.name), DefinitionOf(column))];
        }
      } else {
        clauses := clauses + [AddColumn(Trim(column.name), DefinitionOf(column))];
      }
    }
    assert draft[..|draft|] == draft;
    var current_keys, draft_keys := KeyOf(current), KeyOf(draft);
    if current_keys != draft_keys {
      if current_keys != [] {
        clauses := clauses + [DropPrimaryKey];
      }
      if draft_keys != [] {
        clauses := clauses + [AddPrimaryKey(draft_keys)];
      }
    }
    assert clauses == AlterClauses(current, draft);
    if clauses == [] {
      return Ok([]);
    }
    r := Ok([AlterText(database, table, clauses)]);
  }
}
