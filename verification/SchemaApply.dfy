/** What a list of ALTER clauses does to a table, and the proof that the emitted ones reach the draft. */
module SchemaApply {
  import opened Text
  import opened SchemaDiff

  /** A table: its columns by stored name (their order is not modelled) and its primary key in order. */
  datatype Table = Table(columns: map<string, Definition>, key: seq<string>)

  function Remaining(key: seq<string>, gone: set<string>): seq<string> {
    if key == [] then []
    else
      var rest := Remaining(key[..|key| - 1], gone);
      if key[|key| - 1] in gone then rest else rest + [key[|key| - 1]]
  }

  predicate Distinct(names: seq<string>) {
    forall i, j :: 0 <= i < j < |names| ==> names[i] != names[j]
  }

  /**
   * One clause. A dropped column leaves the key too; a modified column has to exist and an added one must not; the key
   * can be dropped when the altered table had one, and a new key makes its columns NOT NULL.
   */
  function Apply(table: Table, hadKey: bool, clause: Clause): Option<Table> {
    match clause
    case DropColumn(name) =>
      if name in table.columns then Some(Table(table.columns - {name}, Remaining(table.key, {name}))) else None
    case ModifyColumn(name, d) =>
      if name in table.columns then Some(Table(table.columns[name := d], table.key)) else None
    case AddColumn(name, d) =>
      if name in table.columns then None else Some(Table(table.columns[name := d], table.key))
    case DropPrimaryKey =>
      if hadKey then Some(Table(table.columns, [])) else None
    case AddPrimaryKey(names) =>
      if table.key == [] && names != [] && Distinct(names) && (forall name <- names :: name in table.columns) then
        Some(Table(Required(table.columns, names), names))
      else None
  }

  function Required(columns: map<string, Definition>, names: seq<string>): map<string, Definition> {
    map name | name in columns :: if name in names then columns[name].(not_null := true) else columns[name]
  }

  /** All clauses in turn; one that cannot be applied fails the whole statement. */
  function ApplyAll(table: Table, hadKey: bool, clauses: seq<Clause>): Option<Table> {
    if clauses == [] then Some(table)
    else
      match ApplyAll(table, hadKey, clauses[..|clauses| - 1])
      case None => None
      case Some(t) => Apply(t, hadKey, clauses[|clauses| - 1])
  }

  lemma {:induction false} ApplyInTwo(table: Table, hadKey: bool, first: seq<Clause>, second: seq<Clause>)
    ensures ApplyAll(table, hadKey, first + second)
         == match ApplyAll(table, hadKey, first) case None => None case Some(t) => ApplyAll(t, hadKey, second)
  {
    hide Apply;
    if second == [] {
      assert first + second == first;
    } else {
      assert (first + second)[..|first + second| - 1] == first + second[..|second| - 1];
      ApplyInTwo(table, hadKey, first, second[..|second| - 1]);
    }
  }

  lemma ApplyOne(table: Table, hadKey: bool, first: seq<Clause>, last: Clause)
    ensures ApplyAll(table, hadKey, first + [last])
         == match ApplyAll(table, hadKey, first) case None => None case Some(t) => Apply(t, hadKey, last)
  {
    hide Apply;
    assert (first + [last])[..|first|] == first;
  }

  lemma ApplyFirst(table: Table, hadKey: bool, clause: Clause)
    ensures ApplyAll(table, hadKey, [clause]) == Apply(table, hadKey, clause)
  {
    hide Apply;
    assert [clause][..0] == [];
  }

  function Definitions(columns: seq<Column>): (m: map<string, Definition>)
    ensures m.Keys == Names(columns)
  {
    var named := ByName(columns);
    map name | name in named :: DefinitionOf(named[name])
  }

  /** The table that a column list describes. */
  function TableOf(columns: seq<Column>): Table { Table(Definitions(columns), KeyOf(columns)) }

  predicate DistinctNames(columns: seq<Column>) {
    forall i, j :: 0 <= i < j < |columns| ==> columns[i].name != columns[j].name
  }

  /** Column lists of existing tables: distinct names, and key columns are never nullable. */
  ghost predicate Existing(columns: seq<Column>) {
    && DistinctNames(columns)
    && forall column <- columns :: column.primary_key ==> !column.nullable
  }

  predicate Trimmed(name: string) { Trim(name) == name }

  /** The name a draft column has afterwards: an existing one keeps its own, a new one is trimmed. */
  function StoredName(current: set<string>, column: Column): string {
    if column.name in current then column.name else Trim(column.name)
  }

  function Stored(current: set<string>, draft: seq<Column>): seq<Column> {
    if draft == [] then []
    else
      var last := draft[|draft| - 1];
      Stored(current, draft[..|draft| - 1]) + [last.(name := StoredName(current, last))]
  }

  /** Every column that a clause mentions by an untrimmed name is mentioned the way it is stored. */
  ghost predicate Addressable(current: seq<Column>, draft: seq<Column>) {
    forall d <- draft :: !Trimmed(d.name) ==>
      if d.name in Names(current) then !Changed(ByName(current)[d.name], d) else !d.primary_key
  }

  // ---- Facts about names and keys ----

  lemma {:induction false} Named(columns: seq<Column>, i: nat)
    requires DistinctNames(columns) && i < |columns|
    ensures columns[i].name in ByName(columns) && ByName(columns)[columns[i].name] == columns[i]
  {
    if i < |columns| - 1 {
      Named(columns[..|columns| - 1], i);
    }
  }

  lemma {:induction false} InKey(columns: seq<Column>, name: string)
    ensures name in KeyOf(columns) <==> exists column <- columns :: column.name == name && column.primary_key
  {
    if columns != [] {
      InKey(columns[..|columns| - 1], name);
      assert columns == columns[..|columns| - 1] + [columns[|columns| - 1]];
    }
  }

  lemma {:induction false} KeyIsDistinct(columns: seq<Column>)
    requires DistinctNames(columns)
    ensures Distinct(KeyOf(columns))
  {
    if columns != [] {
      var rest := columns[..|columns| - 1];
      KeyIsDistinct(rest);
      InKey(rest, columns[|columns| - 1].name);
    }
  }

  lemma {:induction false} NothingGone(key: seq<string>, gone: set<string>)
    requires forall name <- key :: name !in gone
    ensures Remaining(key, gone) == key
  {
    if key != [] {
      NothingGone(key[..|key| - 1], gone);
      assert key == key[..|key| - 1] + [key[|key| - 1]];
    }
  }

  lemma {:induction false} GoneInTwo(key: seq<string>, a: set<string>, b: set<string>)
    ensures Remaining(Remaining(key, a), b) == Remaining(key, a + b)
  {
    if key != [] {
      GoneInTwo(key[..|key| - 1], a, b);
    }
  }

  // ---- First the drops ----

  lemma DropOne(
    table: Table, hadKey: bool, columns: map<string, Definition>, key: seq<string>, gone: set<string>,
    name: string)
    requires table == Table(columns - gone, Remaining(key, gone))
    requires name in columns && name !in gone
    ensures Apply(table, hadKey, DropColumn(name))
         == Some(Table(columns - (gone + {name}), Remaining(key, gone + {name})))
  {
    GoneInTwo(key, gone, {name});
    assert columns - gone - {name} == columns - (gone + {name});
  }

  lemma NamesStep(columns: seq<Column>, k: nat)
    requires k < |columns| && DistinctNames(columns)
    ensures Names(columns[..k + 1]) == Names(columns[..k]) + {columns[k].name}
    ensures columns[k].name !in Names(columns[..k])
    ensures columns[k].name in Names(columns)
  {
    assert columns[..k + 1] == columns[..k] + [columns[k]];
  }

  lemma DropNone(current: seq<Column>, kept: set<string>, hadKey: bool)
    ensures Drops([], kept) == [] && Names([]) - kept == {}
    ensures ApplyAll(TableOf(current), hadKey, []) == Some(TableOf(current))
    ensures TableOf(current) == Table(Definitions(current) - {}, Remaining(KeyOf(current), {}))
  {
    hide KeyOf, Definitions;
    NothingGone(KeyOf(current), {});
    assert Definitions(current) - {} == Definitions(current);
  }

  lemma {:induction false} DropsApply(current: seq<Column>, k: nat, kept: set<string>, hadKey: bool)
    requires k <= |current| && DistinctNames(current)
    ensures var gone := Names(current[..k]) - kept;
      ApplyAll(TableOf(current), hadKey, Drops(current[..k], kept))
      == Some(Table(Definitions(current) - gone, Remaining(KeyOf(current), gone)))
  {
    hide *;
    if k == 0 {
      DropNone(current, kept, hadKey);
      assert current[..0] == [];
    } else {
      DropsApply(current, k - 1, kept, hadKey);
      DropsStep(current, k - 1, kept);
      NamesStep(current, k - 1);
      var name := current[k - 1].name;
      var gone := Names(current[..k - 1]) - kept;
      var before := Drops(current[..k - 1], kept);
      if name !in kept {
        ApplyOne(TableOf(current), hadKey, before, DropColumn(name));
        DropOne(Table(Definitions(current) - gone, Remaining(KeyOf(current), gone)), hadKey,
          Definitions(current), KeyOf(current), gone, name);
        assert Names(current[..k]) - kept == gone + {name};
      } else {
        assert Names(current[..k]) - kept == gone;
        assert before + [] == before;
      }
    }
  }

  // ---- Then the modified and added columns ----

  /** The definition of a kept column once the first `k` draft columns are through. */
  function DefinitionAt(was: Column, draft: Column, done: bool): Definition {
    if done && Changed(was, draft) then DefinitionOf(draft) else DefinitionOf(was)
  }

  ghost predicate Staged(
    columns: map<string, Definition>, current: map<string, Column>, draft: seq<Column>, k: nat)
    requires k <= |draft|
  {
    && (forall i :: 0 <= i < |draft| && draft[i].name in current ==>
          && draft[i].name in columns
          && columns[draft[i].name] == DefinitionAt(current[draft[i].name], draft[i], i < k))
    && (forall i :: 0 <= i < k && draft[i].name !in current ==>
          Trim(draft[i].name) in columns && columns[Trim(draft[i].name)] == DefinitionOf(draft[i]))
    && (forall name <- columns ::
          exists i :: 0 <= i < |draft| && name == StoredName(current.Keys, draft[i])
                      && (draft[i].name in current || i < k))
  }

  /** No clause for the first `k` draft columns modifies a column under another name than the stored one. */
  ghost predicate Reachable(current: map<string, Column>, draft: seq<Column>, k: nat)
    requires k <= |draft|
  {
    forall i :: 0 <= i < k && draft[i].name in current && Changed(current[draft[i].name], draft[i]) ==>
      Trimmed(draft[i].name)
  }

  /** Two draft columns never meet under one stored or trimmed name. */
  lemma Apart(current: set<string>, draft: seq<Column>, i: nat, j: nat)
    requires ValidDraft(draft) && i < |draft| && j < |draft| && i != j
    ensures Trim(draft[j].name) != StoredName(current, draft[i])
    ensures StoredName(current, draft[j]) != StoredName(current, draft[i])
  {
    TrimTwice(draft[i].name);
    TrimTwice(draft[j].name);
    hide Trim;
  }

  lemma StageStarts(cols: map<string, Definition>, current: seq<Column>, draft: seq<Column>)
    requires DistinctNames(current)
    requires cols == Definitions(current) - (Names(current) - Names(draft))
    ensures Staged(cols, ByName(current), draft, 0)
  {
    hide DefinitionOf, Trim, Changed;
  }

  /** The column under which draft column `k` will be stored is touched by no other draft column. */
  ghost predicate Alone(current: set<string>, draft: seq<Column>, k: nat)
    requires k < |draft|
  {
    forall i :: 0 <= i < |draft| && i != k ==>
      && StoredName(current, draft[k]) != StoredName(current, draft[i])
      && Trim(draft[k].name) != StoredName(current, draft[i])
  }

  lemma StageSet(
    cols: map<string, Definition>, current: map<string, Column>, draft: seq<Column>, k: nat)
    requires k < |draft| && Staged(cols, current, draft, k) && Alone(current.Keys, draft, k)
    requires draft[k].name in current ==> Changed(current[draft[k].name], draft[k])
    ensures Staged(cols[StoredName(current.Keys, draft[k]) := DefinitionOf(draft[k])], current, draft, k + 1)
  {
    hide DefinitionOf, Trim, Changed;
    var name := StoredName(current.Keys, draft[k]);
    var grown := cols[name := DefinitionOf(draft[k])];
    forall i | 0 <= i < |draft| && i != k
      ensures StoredName(current.Keys, draft[i]) != name
    {
    }
  }

  lemma StageKept(
    cols: map<string, Definition>, current: map<string, Column>, draft: seq<Column>, k: nat)
    requires k < |draft| && Staged(cols, current, draft, k)
    requires draft[k].name in current && !Changed(current[draft[k].name], draft[k])
    ensures Staged(cols, current, draft, k + 1)
  {
    hide DefinitionOf, Trim, Changed;
  }

  lemma StageNames(
    cols: map<string, Definition>, current: map<string, Column>, draft: seq<Column>, k: nat)
    requires k < |draft| && Staged(cols, current, draft, k) && Alone(current.Keys, draft, k)
    ensures Trim(draft[k].name) in cols <==> draft[k].name in current && Trimmed(draft[k].name)
  {
    hide DefinitionOf, Trim, Changed;
    var trimmed := Trim(draft[k].name);
    if trimmed in cols {
      var i :| 0 <= i < |draft| && trimmed == StoredName(current.Keys, draft[i])
               && (draft[i].name in current || i < k);
      assert i == k;
    }
  }

  lemma StageGrows(
    cols: map<string, Definition>, current: map<string, Column>, draft: seq<Column>, k: nat, key: seq<string>,
    hadKey: bool)
    requires ValidDraft(draft) && k < |draft| && Staged(cols, current, draft, k)
    ensures match ApplyAll(Table(cols, key), hadKey, ChangeOf(current, draft[k]))
            case Some(t) =>
              && Staged(t.columns, current, draft, k + 1) && t.key == key
              && (draft[k].name in current && Changed(current[draft[k].name], draft[k]) ==> Trimmed(draft[k].name))
            case None =>
              draft[k].name in current && Changed(current[draft[k].name], draft[k]) && !Trimmed(draft[k].name)
  {
    var d := draft[k];
    assert Alone(current.Keys, draft, k) by {
      forall i | 0 <= i < |draft| && i != k
        ensures Trim(d.name) != StoredName(current.Keys, draft[i])
        ensures StoredName(current.Keys, d) != StoredName(current.Keys, draft[i])
      {
        Apart(current.Keys, draft, i, k);
      }
    }
    StageNames(cols, current, draft, k);
    if d.name in current && !Changed(current[d.name], d) {
      StageKept(cols, current, draft, k);
    } else {
      StageSet(cols, current, draft, k);
      hide DefinitionOf, Trim, Changed, ValidDraft, Staged, Alone;
      var change := ChangeOf(current, d);
      assert change[..0] == [];
      assert ApplyAll(Table(cols, key), hadKey, change) == Apply(Table(cols, key), hadKey, change[0]);
    }
  }

  lemma {:induction false} ChangesApply(
    cols: map<string, Definition>, current: map<string, Column>, draft: seq<Column>, k: nat, key: seq<string>,
    hadKey: bool)
    requires ValidDraft(draft) && k <= |draft| && Staged(cols, current, draft, 0)
    ensures match ApplyAll(Table(cols, key), hadKey, Changes(current, draft[..k]))
            case Some(t) => Staged(t.columns, current, draft, k) && t.key == key && Reachable(current, draft, k)
            case None => !Reachable(current, draft, k)
  {
    hide DefinitionOf, Trim, Changed, ValidDraft, Staged, Apply, ChangeOf;
    if k > 0 {
      ChangesApply(cols, current, draft, k - 1, key, hadKey);
      ChangesStep(current, draft, k - 1);
      ApplyInTwo(Table(cols, key), hadKey, Changes(current, draft[..k - 1]), ChangeOf(current, draft[k - 1]));
      var before := ApplyAll(Table(cols, key), hadKey, Changes(current, draft[..k - 1]));
      if before.Some? {
        StageGrows(before.value.columns, current, draft, k - 1, key, hadKey);
      }
    }
  }

  // ---- Then the key, and the whole ----

  lemma {:induction false} StoredOnes(current: set<string>, draft: seq<Column>)
    ensures |Stored(current, draft)| == |draft|
    ensures forall i :: 0 <= i < |draft| ==>
      Stored(current, draft)[i] == draft[i].(name := StoredName(current, draft[i]))
  {
    hide Trim;
    if draft != [] {
      StoredOnes(current, draft[..|draft| - 1]);
    }
  }

  lemma StoredApart(current: set<string>, draft: seq<Column>)
    requires ValidDraft(draft)
    ensures DistinctNames(Stored(current, draft))
  {
    var stored := Stored(current, draft);
    StoredOnes(current, draft);
    hide Stored, StoredName, ValidDraft;
    forall a, b | 0 <= a < b < |stored|
      ensures stored[a].name != stored[b].name
    {
      Apart(current, draft, a, b);
    }
  }

  lemma NameDoesNotDefine(column: Column, name: string)
    ensures DefinitionOf(column.(name := name)) == DefinitionOf(column)
  {
    hide Trim, Lower, RenderDefault, Decimal;
  }

  /** The draft's table has one column for each draft column, under its stored name. */
  lemma TargetColumn(current: set<string>, draft: seq<Column>, i: nat)
    requires ValidDraft(draft) && i < |draft|
    ensures var target := Definitions(Stored(current, draft)); var name := StoredName(current, draft[i]);
      name in target && target[name] == DefinitionOf(draft[i])
  {
    StoredOnes(current, draft);
    StoredApart(current, draft);
    Named(Stored(current, draft), i);
    NameDoesNotDefine(draft[i], StoredName(current, draft[i]));
    hide Trim, DefinitionOf, ValidDraft, Stored, DistinctNames, StoredName;
  }

  lemma TargetNames(current: set<string>, draft: seq<Column>, name: string)
    requires name in Definitions(Stored(current, draft))
    ensures exists i :: 0 <= i < |draft| && name == StoredName(current, draft[i])
  {
    StoredOnes(current, draft);
    hide Trim, DefinitionOf;
  }

  /** An unchanged column keeps its definition, up to the NOT NULL that being in a key implies. */
  lemma SameUpToKey(was: Column, draft: Column)
    requires !Changed(was, draft) && (was.primary_key ==> !was.nullable)
    ensures DefinitionOf(draft)
         == DefinitionOf(was).(not_null := draft.primary_key || DefinitionOf(was).not_null)
  {
    hide Trim, Lower, RenderDefault, Decimal;
  }

  /** With the key still to be set, every column has its final definition up to the NOT NULL of the new key. */
  lemma NearTarget(
    cols: map<string, Definition>, current: seq<Column>, draft: seq<Column>, i: nat)
    requires Existing(current) && ValidDraft(draft) && i < |draft|
    requires Staged(cols, ByName(current), draft, |draft|)
    ensures var name := StoredName(Names(current), draft[i]);
      && name in cols
      && DefinitionOf(draft[i]) == cols[name].(not_null := draft[i].primary_key || cols[name].not_null)
      && (KeyOf(current) == KeyOf(draft) ==> DefinitionOf(draft[i]) == cols[name])
  {
    var d := draft[i];
    var named := ByName(current);
    assert DefinitionOf(d).not_null == (d.primary_key || !d.nullable) by {
      hide Trim, Lower, RenderDefault, Decimal;
    }
    if d.name in named && !Changed(named[d.name], d) {
      var was := named[d.name];
      assert was in current;
      SameUpToKey(was, d);
      InKey(current, d.name);
      InKey(draft, d.name);
      assert DefinitionOf(was).not_null == (was.primary_key || !was.nullable) by {
        hide Trim, Lower, RenderDefault, Decimal;
      }
      if KeyOf(current) == KeyOf(draft) && d.primary_key {
        assert d in draft;
        var c :| c in current && c.name == d.name && c.primary_key;
        assert c == was;
      }
    }
  }

  /** A draft name is in the table exactly when it is the stored one. */
  lemma NameInTable(cols: map<string, Definition>, current: seq<Column>, draft: seq<Column>, i: nat)
    requires ValidDraft(draft) && i < |draft|
    requires Staged(cols, ByName(current), draft, |draft|)
    ensures draft[i].name in cols <==> draft[i].name in Names(current) || Trimmed(draft[i].name)
  {
    hide Trim, DefinitionOf, Changed, ByName, DefinitionAt, ValidDraft;
    var name := draft[i].name;
    if name in cols {
      var j :| 0 <= j < |draft| && name == StoredName(ByName(current).Keys, draft[j]);
      TrimTwice(draft[j].name);
      OneOfEachTrim(draft, i, j);
    }
  }

  lemma OneOfEachTrim(draft: seq<Column>, i: nat, j: nat)
    requires ValidDraft(draft) && i < |draft| && j < |draft| && Trim(draft[i].name) == Trim(draft[j].name)
    ensures i == j
  {
    hide Trim;
  }

  lemma {:induction false} KeyUnderStoredNames(current: set<string>, draft: seq<Column>)
    requires forall d <- draft :: d.primary_key ==> d.name in current || Trimmed(d.name)
    ensures KeyOf(Stored(current, draft)) == KeyOf(draft)
  {
    hide Trim;
    if draft != [] {
      KeyUnderStoredNames(current, draft[..|draft| - 1]);
      var stored := Stored(current, draft);
      assert stored[..|stored| - 1] == Stored(current, draft[..|draft| - 1]);
    }
  }

  /** Every key column of the draft is written under its stored name. */
  ghost predicate KeyNamed(current: seq<Column>, draft: seq<Column>) {
    forall d <- draft :: d.primary_key ==> d.name in Names(current) || Trimmed(d.name)
  }

  lemma SameKeyNamed(current: seq<Column>, draft: seq<Column>)
    requires KeyOf(current) == KeyOf(draft)
    ensures KeyNamed(current, draft)
    ensures Remaining(KeyOf(current), Names(current) - Names(draft)) == KeyOf(draft)
  {
    forall d | d in draft && d.primary_key
      ensures d.name in Names(current)
    {
      InKey(draft, d.name);
      InKey(current, d.name);
    }
    forall name | name in KeyOf(draft)
      ensures name in Names(draft)
    {
      InKey(draft, name);
    }
    NothingGone(KeyOf(current), Names(current) - Names(draft));
  }

  lemma ColumnReached(cols: map<string, Definition>, current: seq<Column>, draft: seq<Column>, i: nat)
    requires Existing(current) && ValidDraft(draft) && i < |draft|
    requires Staged(cols, ByName(current), draft, |draft|) && KeyNamed(current, draft)
    ensures var name := StoredName(Names(current), draft[i]); var target := Definitions(Stored(Names(current), draft));
      && name in cols && name in target
      && (KeyOf(current) == KeyOf(draft) ==> cols[name] == target[name])
      && Required(cols, KeyOf(draft))[name] == target[name]
  {
    hide DefinitionOf, Trim, ByName, KeyOf, Changed, ValidDraft, Existing, Definitions, Stored, Staged;
    NearTarget(cols, current, draft, i);
    TargetColumn(Names(current), draft, i);
    InKey(draft, StoredName(Names(current), draft[i]));
    KeyColumnOf(current, draft, i);
  }

  lemma KeyColumnOf(current: seq<Column>, draft: seq<Column>, i: nat)
    requires ValidDraft(draft) && i < |draft| && KeyNamed(current, draft)
    ensures StoredName(Names(current), draft[i]) in KeyOf(draft) <==> draft[i].primary_key
  {
    var name := StoredName(Names(current), draft[i]);
    InKey(draft, name);
    TrimTwice(draft[i].name);
    if name in KeyOf(draft) {
      var d :| d in draft && d.name == name && d.primary_key;
      assert Trim(d.name) == Trim(draft[i].name);
    }
  }

  lemma ColumnMeets(cols: map<string, Definition>, current: seq<Column>, draft: seq<Column>, name: string)
    requires Existing(current) && ValidDraft(draft)
    requires Staged(cols, ByName(current), draft, |draft|) && KeyNamed(current, draft)
    requires name in cols || name in Definitions(Stored(Names(current), draft))
    ensures var target := Definitions(Stored(Names(current), draft));
      && name in cols && name in target
      && (KeyOf(current) == KeyOf(draft) ==> cols[name] == target[name])
      && Required(cols, KeyOf(draft))[name] == target[name]
  {
    hide DefinitionOf, Trim, KeyOf, Changed, ValidDraft, Existing, Definitions, Stored, StoredName, Required;
    if name !in cols {
      TargetNames(Names(current), draft, name);
    }
    var i :| 0 <= i < |draft| && name == StoredName(Names(current), draft[i]);
    ColumnReached(cols, current, draft, i);
  }

  /** Once the key is as drafted, the columns are too. */
  lemma ColumnsReached(cols: map<string, Definition>, current: seq<Column>, draft: seq<Column>)
    requires Existing(current) && ValidDraft(draft)
    requires Staged(cols, ByName(current), draft, |draft|) && KeyNamed(current, draft)
    ensures KeyOf(current) == KeyOf(draft) ==> cols == Definitions(Stored(Names(current), draft))
    ensures Required(cols, KeyOf(draft)) == Definitions(Stored(Names(current), draft))
  {
    hide *;
    var target := Definitions(Stored(Names(current), draft));
    RequiredKeys(cols, KeyOf(draft));
    forall name | name in cols || name in target
      ensures && name in cols && name in target
              && (KeyOf(current) == KeyOf(draft) ==> cols[name] == target[name])
              && Required(cols, KeyOf(draft))[name] == target[name]
    {
      ColumnMeets(cols, current, draft, name);
    }
  }

  lemma RequiredKeys(cols: map<string, Definition>, names: seq<string>)
    ensures Required(cols, names).Keys == cols.Keys
  {
  }

  lemma DraftIsDistinct(draft: seq<Column>)
    requires ValidDraft(draft)
    ensures DistinctNames(draft)
  {
    hide Trim;
  }

  lemma KeyClauses(cols: map<string, Definition>, key: seq<string>, was: seq<string>, names: seq<string>)
    requires Distinct(names) && (was == [] ==> key == [])
    ensures ApplyAll(Table(cols, key), was != [], KeyChanges(was, names))
         == if was == names then Some(Table(cols, key))
            else if forall name <- names :: name in cols then Some(Table(Required(cols, names), names))
            else None
  {
    var table := Table(cols, key);
    assert Required(cols, []) == cols;
    assert ApplyAll(table, was != [], []) == Some(table);
    hide ApplyAll, Required;
    ApplyFirst(table, true, DropPrimaryKey);
    ApplyFirst(table, false, AddPrimaryKey(names));
    ApplyOne(table, true, [DropPrimaryKey], AddPrimaryKey(names));
    assert [DropPrimaryKey] + [] == [DropPrimaryKey];
    assert [] + [AddPrimaryKey(names)] == [AddPrimaryKey(names)];
  }

  /** The key clauses reach the draft's table exactly when the new key names its columns as they are stored. */
  lemma KeyApplies(cols: map<string, Definition>, current: seq<Column>, draft: seq<Column>)
    requires Existing(current) && ValidDraft(draft) && Staged(cols, ByName(current), draft, |draft|)
    ensures var key := Remaining(KeyOf(current), Names(current) - Names(draft));
      ApplyAll(Table(cols, key), KeyOf(current) != [], KeyChanges(KeyOf(current), KeyOf(draft)))
      == if KeyNamed(current, draft) then Some(TableOf(Stored(Names(current), draft))) else None
  {
    var names := KeyOf(draft);
    if KeyNamed(current, draft) {
      ColumnsReached(cols, current, draft);
      KeyUnderStoredNames(Names(current), draft);
    }
    if KeyOf(current) == names {
      SameKeyNamed(current, draft);
    }
    DraftIsDistinct(draft);
    KeyIsDistinct(draft);
    KeyNamesPresent(cols, current, draft);
    hide Trim, DefinitionOf, ByName, ValidDraft, Existing, Staged, KeyNamed, Definitions, Stored;
    KeyClauses(cols, Remaining(KeyOf(current), Names(current) - Names(draft)), KeyOf(current), names);
  }

  lemma KeyNamesPresent(cols: map<string, Definition>, current: seq<Column>, draft: seq<Column>)
    requires ValidDraft(draft) && Staged(cols, ByName(current), draft, |draft|)
    ensures (forall name <- KeyOf(draft) :: name in cols) <==> KeyNamed(current, draft)
  {
    forall i | 0 <= i < |draft|
      ensures draft[i].name in cols <==> draft[i].name in Names(current) || Trimmed(draft[i].name)
      ensures draft[i].primary_key ==> draft[i].name in KeyOf(draft)
    {
      NameInTable(cols, current, draft, i);
      InKey(draft, draft[i].name);
    }
    hide Trim, ByName, KeyOf, Staged, ValidDraft, Names;
    forall name | name in KeyOf(draft)
      ensures exists d <- draft :: d.name == name && d.primary_key
    {
      InKey(draft, name);
    }
  }

  lemma AddressableParts(current: seq<Column>, draft: seq<Column>)
    ensures Addressable(current, draft) <==> Reachable(ByName(current), draft, |draft|) && KeyNamed(current, draft)
  {
    hide Trim, ByName, Changed;
  }

  /**
   * The emitted clauses turn the current table into the drafted one, key order and all, and the statement fails as a
   * whole exactly when some clause mentions a column by an untrimmed name.
   */
  lemma AlterReachesDraft(current: seq<Column>, draft: seq<Column>)
    requires Existing(current) && ValidDraft(draft)
    ensures ApplyAll(TableOf(current), KeyOf(current) != [], AlterClauses(current, draft))
         == if Addressable(current, draft) then Some(TableOf(Stored(Names(current), draft))) else None
  {
    var hadKey := KeyOf(current) != [];
    var gone := Names(current) - Names(draft);
    var cols := Definitions(current) - gone;
    var key := Remaining(KeyOf(current), gone);
    var named := ByName(current);
    var drops := Drops(current, Names(draft));
    var changes := Changes(named, draft);
    assert current[..|current|] == current && draft[..|draft|] == draft;
    assert DistinctNames(current);
    DropsApply(current, |current|, Names(draft), hadKey);
    StageStarts(cols, current, draft);
    ChangesApply(cols, named, draft, |draft|, key, hadKey);
    ApplyInTwo(TableOf(current), hadKey, drops, changes);
    ApplyInTwo(TableOf(current), hadKey, drops + changes, KeyChanges(KeyOf(current), KeyOf(draft)));
    AddressableParts(current, draft);
    var staged := ApplyAll(Table(cols, key), hadKey, changes);
    if staged.Some? {
      KeyApplies(staged.value.columns, current, draft);
    }
    assert AlterClauses(current, draft) == drops + changes + KeyChanges(KeyOf(current), KeyOf(draft));
    hide *;
  }

  /** With trimmed names, as the designer shows them, the draft is always reached as it stands. */
  lemma TrimmedDraftIsReached(current: seq<Column>, draft: seq<Column>)
    requires Existing(current) && ValidDraft(draft)
    requires forall d <- draft :: Trimmed(d.name)
    ensures ApplyAll(TableOf(current), KeyOf(current) != [], AlterClauses(current, draft)) == Some(TableOf(draft))
  {
    AlterReachesDraft(current, draft);
    StoredAsDrafted(Names(current), draft);
    hide AlterClauses, ApplyAll, TableOf, Stored, KeyOf, Trim, Existing, ValidDraft, Changed, ByName;
  }

  lemma StoredAsDrafted(current: set<string>, draft: seq<Column>)
    requires forall d <- draft :: Trimmed(d.name)
    ensures Stored(current, draft) == draft
  {
    hide Trim;
    StoredOnes(current, draft);
    hide Stored;
    assert forall i :: 0 <= i < |draft| ==> draft[i] in draft;
  }

  lemma {:induction false} NoDrops(columns: seq<Column>, kept: set<string>)
    ensures Drops(columns, kept) == [] <==> Names(columns) <= kept
  {
    if columns != [] {
      var rest := columns[..|columns| - 1];
      NoDrops(rest, kept);
      assert columns == rest + [columns[|columns| - 1]];
      assert Names(columns) == Names(rest) + {columns[|columns| - 1].name};
    }
  }

  lemma {:induction false} NoChanges(current: map<string, Column>, draft: seq<Column>)
    ensures Changes(current, draft) == []
        <==> forall d <- draft :: d.name in current && !Changed(current[d.name], d)
  {
    hide Changed, Trim, DefinitionOf;
    if draft != [] {
      var rest := draft[..|draft| - 1];
      NoChanges(current, rest);
      assert draft == rest + [draft[|draft| - 1]];
    }
  }
}
