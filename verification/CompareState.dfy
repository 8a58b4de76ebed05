/** What the comparison view remembers: a bounded cache of detail pages, and which differences are selected. */
module CompareState {

  datatype DetailType = InsertDetail | UpdateDetail | DeleteDetail

  // ---- The detail cache ----

  /** One cached list: rows for inserts and deletes, updates for updates. */
  datatype Detail<R, U> = Detail(
    row_columns: seq<string>, row_items: seq<R>, update_items: seq<U>, total: nat, fetched: nat, has_more: bool,
    loading: bool, loaded: bool, error: string)

  datatype TablePages<R, U> = TablePages(insert: Detail<R, U>, update: Detail<R, U>, delete: Detail<R, U>) {
    function Slot(kind: DetailType): Detail<R, U> {
      match kind
      case InsertDetail => insert
      case UpdateDetail => update
      case DeleteDetail => delete
    }
  }

  datatype Page<R, U> = Page(
    row_columns: seq<string>, row_items: seq<R>, update_items: seq<U>, total: nat, has_more: bool)

  const LIMIT := 300

  function EmptyDetail<R, U>(): Detail<R, U> { Detail([], [], [], 0, 0, false, false, false, "") }

  /** The last items, at most as many as the cache holds. */
  function Limited<T>(items: seq<T>): seq<T> { if |items| <= LIMIT then items else items[|items| - LIMIT..] }

  function SlotOf<R, U>(pages: map<string, TablePages<R, U>>, key: string, kind: DetailType): Detail<R, U> {
    if key in pages then pages[key].Slot(kind) else EmptyDetail()
  }

  function NextDetail<R, U>(current: Detail<R, U>, kind: DetailType, page: Page<R, U>, reset: bool): Detail<R, U> {
    Detail(
      page.row_columns,
      if kind.UpdateDetail? then [] else Limited((if reset then [] else current.row_items) + page.row_items),
      if kind.UpdateDetail? then Limited((if reset then [] else current.update_items) + page.update_items) else [],
      page.total,
      (if reset then 0 else current.fetched)
      + (if kind.UpdateDetail? then |page.update_items| else |page.row_items|),
      page.has_more, false, true, "")
  }

  function BuildPrunedPages<R, U>(
    previous: map<string, TablePages<R, U>>, key: string, kind: DetailType, page: Page<R, U>, reset: bool)
    : map<string, TablePages<R, U>>
  {
    var next := NextDetail(SlotOf(previous, key, kind), kind, page, reset);
    map[key := TablePages(
      if kind.InsertDetail? then next else EmptyDetail(),
      if kind.UpdateDetail? then next else EmptyDetail(),
      if kind.DeleteDetail? then next else EmptyDetail())]
  }

  /** One loaded page. */
  datatype Fetch<R, U> = Fetch(key: string, kind: DetailType, page: Page<R, U>, reset: bool)

  function Cached<R, U>(fetches: seq<Fetch<R, U>>): map<string, TablePages<R, U>> {
    if fetches == [] then map[]
    else
      var f := fetches[|fetches| - 1];
      BuildPrunedPages(Cached(fetches[..|fetches| - 1]), f.key, f.kind, f.page, f.reset)
  }

  /** Rows of all pages of one list since it was last reset or another list was loaded. */
  function RowLog<R, U>(fetches: seq<Fetch<R, U>>, key: string, kind: DetailType): seq<R> {
    if fetches == [] then []
    else
      var f := fetches[|fetches| - 1];
      if f.key != key || f.kind != kind || kind.UpdateDetail? then []
      else (if f.reset then [] else RowLog(fetches[..|fetches| - 1], key, kind)) + f.page.row_items
  }

  function UpdateLog<R, U>(fetches: seq<Fetch<R, U>>, key: string, kind: DetailType): seq<U> {
    if fetches == [] then []
    else
      var f := fetches[|fetches| - 1];
      if f.key != key || f.kind != kind || !kind.UpdateDetail? then []
      else (if f.reset then [] else UpdateLog(fetches[..|fetches| - 1], key, kind)) + f.page.update_items
  }

  lemma LimitedTwice<T>(log: seq<T>, more: seq<T>)
    ensures Limited(Limited(log) + more) == Limited(log + more)
  {
  }

  lemma {:induction false} CacheIsLimited<R, U>(fetches: seq<Fetch<R, U>>, key: string, kind: DetailType)
    ensures var slot := SlotOf(Cached(fetches), key, kind);
      var rows, updates := RowLog(fetches, key, kind), UpdateLog(fetches, key, kind);
      && slot.row_items == Limited(rows)
      && slot.update_items == Limited(updates)
      && slot.fetched == |rows| + |updates|
  {
    if fetches != [] {
      var rest, f := fetches[..|fetches| - 1], fetches[|fetches| - 1];
      CacheIsLimited(rest, key, kind);
      LimitedTwice(RowLog(rest, key, kind), f.page.row_items);
      LimitedTwice(UpdateLog(rest, key, kind), f.page.update_items);
      hide Limited;
      assert RowLog(rest, key, kind) == [] || UpdateLog(rest, key, kind) == [];
    }
  }

  ghost predicate LastItems<T>(last: seq<T>, all: seq<T>) {
    |last| == (if |all| <= 300 then |all| else 300) && last == all[|all| - |last|..]
  }

  /**
   * After any pages have been loaded, each list holds the last 300 items of its unbounded log and knows the log's
   * length; of all lists of all tables only the one loaded last holds anything, and it knows what its last page said.
   */
  lemma CacheIsTailOfLog<R, U>(fetches: seq<Fetch<R, U>>, key: string, kind: DetailType)
    ensures var slot := SlotOf(Cached(fetches), key, kind);
      var rows, updates := RowLog(fetches, key, kind), UpdateLog(fetches, key, kind);
      && LastItems(slot.row_items, rows) && LastItems(slot.update_items, updates)
      && slot.fetched == |rows| + |updates|
    ensures fetches != [] ==>
      var f := fetches[|fetches| - 1];
      && Cached(fetches).Keys == {f.key}
      && (kind != f.kind ==> SlotOf(Cached(fetches), f.key, kind) == EmptyDetail())
      && (kind == f.kind ==> ToldBy(SlotOf(Cached(fetches), f.key, kind), f.page))
  {
    CacheIsLimited(fetches, key, kind);
    hide Cached, RowLog, UpdateLog;
    if fetches != [] { LastPageTells(fetches, kind); }
  }

  /** What a list knows of its last page. */
  predicate ToldBy<R, U>(slot: Detail<R, U>, page: Page<R, U>) {
    && slot.row_columns == page.row_columns && slot.total == page.total && slot.has_more == page.has_more
    && slot.loaded && !slot.loading && slot.error == ""
  }

  lemma LastPageTells<R, U>(fetches: seq<Fetch<R, U>>, kind: DetailType)
    requires fetches != []
    ensures
      var f := fetches[|fetches| - 1];
      && Cached(fetches).Keys == {f.key}
      && (kind != f.kind ==> SlotOf(Cached(fetches), f.key, kind) == EmptyDetail())
      && (kind == f.kind ==> ToldBy(SlotOf(Cached(fetches), f.key, kind), f.page))
  {
    hide Limited;
  }

  // ---- Selection ----

  datatype Selection = Selection(
    table_enabled: bool, insert_enabled: bool, update_enabled: bool, delete_enabled: bool,
    excluded_inserts: seq<string>, excluded_updates: seq<string>, excluded_deletes: seq<string>)

  datatype TableResult = TableResult(
    source_table: string, target_table: string, insert_count: nat, update_count: nat, delete_count: nat)

  function TableKey(item: TableResult): string { item.source_table + "__" + item.target_table }

  function NewSelection(): Selection { Selection(true, true, true, true, [], [], []) }

  function SelectionOf(selections: map<string, Selection>, item: TableResult): (selection: Selection)
    ensures
      var key := item.source_table + "__" + item.target_table;
      if key in selections then selection == selections[key]
      else
        && selection.table_enabled && selection.insert_enabled && selection.update_enabled && selection.delete_enabled
        && selection.excluded_inserts == selection.excluded_updates == selection.excluded_deletes == []
  {
    if TableKey(item) in selections then selections[TableKey(item)] else NewSelection()
  }

  function Total(item: TableResult, kind: DetailType): (total: nat)
    ensures kind == InsertDetail ==> total == item.insert_count
    ensures kind == UpdateDetail ==> total == item.update_count
    ensures kind == DeleteDetail ==> total == item.delete_count
  {
    match kind
    case InsertDetail => item.insert_count
    case UpdateDetail => item.update_count
    case DeleteDetail => item.delete_count
  }

  function Excluded(selection: Selection, kind: DetailType): (excluded: seq<string>)
    ensures kind == InsertDetail ==> excluded == selection.excluded_inserts
    ensures kind == UpdateDetail ==> excluded == selection.excluded_updates
    ensures kind == DeleteDetail ==> excluded == selection.excluded_deletes
  {
    match kind
    case InsertDetail => selection.excluded_inserts
    case UpdateDetail => selection.excluded_updates
    case DeleteDetail => selection.excluded_deletes
  }

  predicate ActionEnabled(selection: Selection, kind: DetailType): (enabled: bool)
    ensures enabled ==> selection.table_enabled
    ensures kind == InsertDetail && selection.table_enabled ==> enabled == selection.insert_enabled
    ensures kind == UpdateDetail && selection.table_enabled ==> enabled == selection.update_enabled
    ensures kind == DeleteDetail && selection.table_enabled ==> enabled == selection.delete_enabled
  {
    selection.table_enabled
    && match kind
       case InsertDetail => selection.insert_enabled
       case UpdateDetail => selection.update_enabled
       case DeleteDetail => selection.delete_enabled
  }

  datatype Stats = Stats(selected: nat, total: nat, checked: bool, indeterminate: bool)

  function ActionStats(item: TableResult, selections: map<string, Selection>, kind: DetailType): Stats {
    var selection := SelectionOf(selections, item);
    var total := Total(item, kind);
    if !ActionEnabled(selection, kind) then Stats(0, total, false, false)
    else
      var excluded := |Excluded(selection, kind)|;
      var selected := if excluded <= total then total - excluded else 0;
      Stats(selected, total, total > 0 && selected == total, 0 < selected < total)
  }

  function SelectedTotal(item: TableResult, selections: map<string, Selection>): nat {
    ActionStats(item, selections, InsertDetail).selected + ActionStats(item, selections, UpdateDetail).selected
    + ActionStats(item, selections, DeleteDetail).selected
  }

  /** Whether a difference is shown as selected. */
  predicate IsSelected(item: TableResult, selections: map<string, Selection>, kind: DetailType, signature: string) {
    var selection := SelectionOf(selections, item);
    ActionEnabled(selection, kind) && signature !in Excluded(selection, kind)
  }

  /** The items of a list, each once, in the order in which they come first. */
  function Distinct(items: seq<string>): (r: seq<string>)
    ensures forall s :: s in r <==> s in items
    ensures forall i, j :: 0 <= i < j < |r| ==> r[i] != r[j]
  {
    if items == [] then []
    else
      var rest, last := Distinct(items[..|items| - 1]), items[|items| - 1];
      assert items == items[..|items| - 1] + [last];
      if last in rest then rest else rest + [last]
  }

  function Dropped(items: seq<string>, signature: string): (r: seq<string>)
    requires forall i, j :: 0 <= i < j < |items| ==> items[i] != items[j]
    ensures forall s :: s in r <==> s in items && s != signature
    ensures forall i, j :: 0 <= i < j < |r| ==> r[i] != r[j]
  {
    if items == [] then []
    else
      var rest, last := Dropped(items[..|items| - 1], signature), items[|items| - 1];
      assert items == items[..|items| - 1] + [last];
      assert last !in items[..|items| - 1];
      assert forall j :: 0 <= j < |rest| ==> rest[j] in rest;
      if last == signature then rest else rest + [last]
  }

  /** A signature excluded or, when it is checked, included again; the result has no duplicates. */
  function ToggleExcluded(signatures: seq<string>, signature: string, checked: bool): (r: seq<string>)
    ensures forall s :: s in r <==> if s == signature then !checked else s in signatures
    ensures forall i, j :: 0 <= i < j < |r| ==> r[i] != r[j]
  {
    var next := Distinct(signatures);
    if checked then Dropped(next, signature) else if signature in next then next else next + [signature]
  }

  datatype Toggle = Toggle(signature: string, checked: bool)

  /** The excluded signatures after some toggles. */
  function Toggled(toggles: seq<Toggle>): seq<string> {
    if toggles == [] then []
    else
      var t := toggles[|toggles| - 1];
      ToggleExcluded(Toggled(toggles[..|toggles| - 1]), t.signature, t.checked)
  }

  datatype TableSelection = TableSelection(
    source_table: string, target_table: string, table_enabled: bool, insert_enabled: bool, update_enabled: bool,
    delete_enabled: bool, excluded_inserts: seq<string>, excluded_updates: seq<string>, excluded_deletes: seq<string>)

  function ExportedSelection(item: TableResult, selections: map<string, Selection>): TableSelection {
    var selection := SelectionOf(selections, item);
    TableSelection(
      item.source_table, item.target_table, SelectedTotal(item, selections) > 0,
      ActionStats(item, selections, InsertDetail).selected > 0,
      ActionStats(item, selections, UpdateDetail).selected > 0,
      ActionStats(item, selections, DeleteDetail).selected > 0,
      selection.excluded_inserts, selection.excluded_updates, selection.excluded_deletes)
  }

  /** Whether the exported selection asks for a difference. */
  predicate Asks(exported: TableSelection, kind: DetailType, signature: string) {
    exported.table_enabled
    && match kind
       case InsertDetail => exported.insert_enabled && signature !in exported.excluded_inserts
       case UpdateDetail => exported.update_enabled && signature !in exported.excluded_updates
       case DeleteDetail => exported.delete_enabled && signature !in exported.excluded_deletes
  }

  // ---- Counting ----

  /** How many of the signatures are in a list. */
  function Hits(signatures: seq<string>, list: seq<string>): nat {
    if signatures == [] then 0
    else Hits(signatures[..|signatures| - 1], list) + if signatures[|signatures| - 1] in list then 1 else 0
  }

  /** How many differences are shown as selected. */
  function ShownCount(
    item: TableResult, selections: map<string, Selection>, kind: DetailType, signatures: seq<string>): nat
  {
    if signatures == [] then 0
    else
      ShownCount(item, selections, kind, signatures[..|signatures| - 1])
      + if IsSelected(item, selections, kind, signatures[|signatures| - 1]) then 1 else 0
  }

  lemma {:induction false} ShownAreTheRest(
    item: TableResult, selections: map<string, Selection>, kind: DetailType, signatures: seq<string>)
    ensures ShownCount(item, selections, kind, signatures)
         == if ActionEnabled(SelectionOf(selections, item), kind)
            then |signatures| - Hits(signatures, Excluded(SelectionOf(selections, item), kind)) else 0
  {
    hide SelectionOf, ActionEnabled, Excluded;
    if signatures != [] {
      ShownAreTheRest(item, selections, kind, signatures[..|signatures| - 1]);
    }
  }

  lemma {:induction false} HitsWithOneMore(signatures: seq<string>, list: seq<string>, s: string)
    requires s !in list
    ensures Hits(signatures, list + [s]) == Hits(signatures, list) + multiset(signatures)[s]
  {
    if signatures != [] {
      var rest := signatures[..|signatures| - 1];
      HitsWithOneMore(rest, list, s);
      assert signatures == rest + [signatures[|signatures| - 1]];
    }
  }

  lemma {:induction false} NoHits(signatures: seq<string>)
    ensures Hits(signatures, []) == 0
  {
    if signatures != [] { NoHits(signatures[..|signatures| - 1]); }
  }

  /** Distinct members of a list are hit at least once each, and exactly once each when no one occurs twice. */
  lemma {:induction false} HitsOfMembers(signatures: seq<string>, list: seq<string>)
    requires forall s <- list :: s in signatures
    requires forall i, j :: 0 <= i < j < |list| ==> list[i] != list[j]
    ensures Hits(signatures, list) >= |list|
    ensures Hits(signatures, list) == |list| <==> forall s <- list :: multiset(signatures)[s] == 1
  {
    if list == [] {
      NoHits(signatures);
    } else {
      var rest, last := list[..|list| - 1], list[|list| - 1];
      assert list == rest + [last];
      HitsOfMembers(signatures, rest);
      HitsWithOneMore(signatures, rest, last);
      assert last in signatures;
      assert multiset(signatures)[last] >= 1;
    }
  }

  /** Exclusions that only toggles on the table's own signatures have made. */
  ghost predicate ToggledFrom(selection: Selection, kind: DetailType, signatures: seq<string>) {
    exists toggles: seq<Toggle> ::
      (forall t <- toggles :: t.signature in signatures) && Excluded(selection, kind) == Toggled(toggles)
  }

  lemma {:induction false} ToggledAreMembers(toggles: seq<Toggle>, signatures: seq<string>)
    requires forall t <- toggles :: t.signature in signatures
    ensures forall s <- Toggled(toggles) :: s in signatures
    ensures forall i, j :: 0 <= i < j < |Toggled(toggles)| ==> Toggled(toggles)[i] != Toggled(toggles)[j]
  {
    if toggles != [] {
      ToggledAreMembers(toggles[..|toggles| - 1], signatures);
      assert toggles[|toggles| - 1] in toggles;
    }
  }

  /** The toggle at `k` is the last one of the signature, and unchecks it. */
  ghost predicate UnchecksLast(toggles: seq<Toggle>, s: string, k: nat) {
    k < |toggles| && toggles[k] == Toggle(s, false) && forall j :: k < j < |toggles| ==> toggles[j].signature != s
  }

  lemma UnchecksLastOn(toggles: seq<Toggle>, s: string, k: nat)
    requires toggles != []
    ensures
      var rest, t := toggles[..|toggles| - 1], toggles[|toggles| - 1];
      UnchecksLast(toggles, s, k)
      <==> if k == |rest| then t == Toggle(s, false) else UnchecksLast(rest, s, k) && t.signature != s
  {
    var rest := toggles[..|toggles| - 1];
    assert forall j :: 0 <= j < |rest| ==> rest[j] == toggles[j];
  }

  lemma LastIsWithin(toggles: seq<Toggle>, s: string, k: nat)
    requires UnchecksLast(toggles, s, k)
    ensures k < |toggles|
  {
  }

  /** What a signature's last toggle says decides, and one that was never toggled is included. */
  lemma {:induction false} LastToggleDecides(toggles: seq<Toggle>, s: string)
    ensures s in Toggled(toggles) <==> exists k :: UnchecksLast(toggles, s, k)
  {
    if toggles != [] {
      var rest, t := toggles[..|toggles| - 1], toggles[|toggles| - 1];
      LastToggleDecides(rest, s);
      forall k: nat
        ensures UnchecksLast(toggles, s, k)
           <==> if k == |rest| then t == Toggle(s, false) else UnchecksLast(rest, s, k) && t.signature != s
      {
        UnchecksLastOn(toggles, s, k);
      }
      hide UnchecksLast;
      if t == Toggle(s, false) { assert UnchecksLast(toggles, s, |rest|); }
      if k :| UnchecksLast(rest, s, k) {
        LastIsWithin(rest, s, k);
        assert t.signature != s ==> UnchecksLast(toggles, s, k);
      }
    }
  }

  /**
   * The selected count of an enabled action is the number of differences shown as selected exactly when every excluded
   * signature belongs to one difference only, as it does when rows are compared by key.
   */
  lemma CountIsShown(
    item: TableResult, selections: map<string, Selection>, kind: DetailType, signatures: seq<string>)
    requires |signatures| == Total(item, kind)
    requires ToggledFrom(SelectionOf(selections, item), kind, signatures)
    ensures var selection := SelectionOf(selections, item);
      ActionStats(item, selections, kind).selected == ShownCount(item, selections, kind, signatures)
      <==> (ActionEnabled(selection, kind) ==>
              forall s <- Excluded(selection, kind) :: multiset(signatures)[s] == 1)
  {
    var selection := SelectionOf(selections, item);
    var toggles: seq<Toggle> :|
      (forall t <- toggles :: t.signature in signatures) && Excluded(selection, kind) == Toggled(toggles);
    ToggledAreMembers(toggles, signatures);
    HitsOfMembers(signatures, Excluded(selection, kind));
    ShownAreTheRest(item, selections, kind, signatures);
    hide Toggled, SelectionOf, Excluded, ActionEnabled, Hits, ShownCount;
  }

  /** What is exported asks for exactly the differences that are shown as selected. */
  lemma ExportAsksForShown(
    item: TableResult, selections: map<string, Selection>, kind: DetailType, signatures: seq<string>, s: string)
    requires |signatures| == Total(item, kind) && s in signatures
    requires ToggledFrom(SelectionOf(selections, item), kind, signatures)
    ensures Asks(ExportedSelection(item, selections), kind, s) <==> IsSelected(item, selections, kind, s)
    ensures ExportedSelection(item, selections).source_table == item.source_table
    ensures ExportedSelection(item, selections).target_table == item.target_table
  {
    var selection := SelectionOf(selections, item);
    var toggles: seq<Toggle> :|
      (forall t <- toggles :: t.signature in signatures) && Excluded(selection, kind) == Toggled(toggles);
    ToggledAreMembers(toggles, signatures);
    HitsOfMembers(signatures, Excluded(selection, kind));
    if s !in Excluded(selection, kind) { SomeIsMissed(signatures, Excluded(selection, kind), s); }
    hide Toggled, Hits, TableKey;
  }

  lemma {:induction false} ShownCountBounds(
    item: TableResult, selections: map<string, Selection>, kind: DetailType, signatures: seq<string>)
    ensures var n := ShownCount(item, selections, kind, signatures);
      && n <= |signatures|
      && (n == |signatures| <==> forall s <- signatures :: IsSelected(item, selections, kind, s))
      && (n == 0 <==> forall s <- signatures :: !IsSelected(item, selections, kind, s))
  {
    hide IsSelected;
    if signatures != [] {
      ShownCountBounds(item, selections, kind, signatures[..|signatures| - 1]);
      assert signatures == signatures[..|signatures| - 1] + [signatures[|signatures| - 1]];
    }
  }

  /**
   * When every excluded signature belongs to one difference only, the box of an action is checked exactly when there
   * are differences and all are shown as selected, and half checked exactly when some are and some are not.
   */
  lemma BoxTellsShown(
    item: TableResult, selections: map<string, Selection>, kind: DetailType, signatures: seq<string>)
    requires |signatures| == Total(item, kind)
    requires ToggledFrom(SelectionOf(selections, item), kind, signatures)
    requires forall s <- Excluded(SelectionOf(selections, item), kind) :: multiset(signatures)[s] == 1
    ensures var stats := ActionStats(item, selections, kind);
      && stats.total == |signatures|
      && (stats.checked <==> signatures != [] && forall s <- signatures :: IsSelected(item, selections, kind, s))
      && (stats.indeterminate <==>
            && (exists s <- signatures :: IsSelected(item, selections, kind, s))
            && exists s <- signatures :: !IsSelected(item, selections, kind, s))
  {
    CountIsShown(item, selections, kind, signatures);
    ShownCountBounds(item, selections, kind, signatures);
    hide IsSelected, SelectionOf, Excluded, ActionEnabled, ShownCount, ToggledFrom;
  }

  lemma {:induction false} HitsAreMembers(signatures: seq<string>, list: seq<string>)
    ensures Hits(signatures, list) <= |signatures|
    ensures Hits(signatures, list) == |signatures| <==> forall s <- signatures :: s in list
  {
    if signatures != [] {
      HitsAreMembers(signatures[..|signatures| - 1], list);
      assert signatures == signatures[..|signatures| - 1] + [signatures[|signatures| - 1]];
    }
  }

  lemma SomeIsMissed(signatures: seq<string>, list: seq<string>, s: string)
    requires s in signatures && s !in list
    ensures Hits(signatures, list) < |signatures|
  {
    HitsAreMembers(signatures, list);
  }
}
