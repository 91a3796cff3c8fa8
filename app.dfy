/** src/ui/app.rs: the viewer's state and the operations the key bindings call,
    which move the selection, show and hide the filter panel, and apply or clear an
    SQL filter. */
module Ui {
  import opened Wrappers
  import opened Strings
  import opened Errors
  import opened Models
  import opened Schema
  import opened Database

  datatype ViewMode = AllLogs | Filtered

  /** Which part of the screen receives the keys. */
  datatype Focus = LogList | FilterInput | FilterPresets

  /** The lines of a fresh `TextArea::default()`: one empty line. */
  const EmptyInput: seq<string> := [""]

  // ---------------------------------------------------------------------------
  // The state as a value
  // ---------------------------------------------------------------------------

  /** The fields of `App` that the modelled operations read or write. */
  datatype View = View(
    allLogs: seq<JsonLog>,
    filteredLogs: seq<JsonLog>,
    fieldSchema: seq<(string, FieldType)>,
    selectedIndex: nat,
    viewMode: ViewMode,
    activeFilter: Option<string>,
    filterInput: seq<string>,
    showFilterPanel: bool,
    filterError: Option<string>,
    focus: Focus)

  /** `current_logs`: the list on screen. */
  function Current(v: View): (r: seq<JsonLog>)
    ensures v.viewMode == AllLogs ==> r == v.allLogs
    ensures v.viewMode == Filtered ==> r == v.filteredLogs
  {
    match v.viewMode
    case AllLogs => v.allLogs
    case Filtered => v.filteredLogs
  }

  /** `selected_log`: the entry of the list on screen at the selection, if any. */
  function Selected(v: View): (r: Option<JsonLog>)
    ensures r.Some? <==> v.selectedIndex < |Current(v)|
    ensures r.Some? ==> r.value == Current(v)[v.selectedIndex]
  {
    var logs := Current(v);
    if v.selectedIndex < |logs| then Some(logs[v.selectedIndex]) else None
  }

  /** The selection points into the list on screen, or is 0 (the only position an
      empty list can hold). */
  predicate InBounds(v: View) {
    v.selectedIndex == 0 || v.selectedIndex < |Current(v)|
  }

  /** Whenever there is something to select, the selection shows an entry. */
  lemma InBoundsSelects(v: View)
    requires InBounds(v) && Current(v) != []
    ensures Selected(v) == Some(Current(v)[v.selectedIndex])
  {
  }

  /** The state `App::new` builds around the records loaded and the schema read. */
  function Initial(allLogs: seq<JsonLog>, fieldSchema: seq<(string, FieldType)>): (v: View)
    ensures Current(v) == allLogs && v.selectedIndex == 0 && InBounds(v)
    ensures v.activeFilter == None && v.filterError == None && v.filteredLogs == []
    ensures v.filterInput == EmptyInput && !v.showFilterPanel && v.focus == LogList
    ensures v.fieldSchema == fieldSchema
  {
    View(allLogs, [], fieldSchema, 0, AllLogs, None, EmptyInput, false, None, LogList)
  }

  // ---------------------------------------------------------------------------
  // Moving the selection
  // ---------------------------------------------------------------------------

  /** `(index + step).min(len - 1)` on a non-empty list; an empty list keeps the
      index. The result is the smaller of the two bounds, and on a non-empty list
      it is a position of the list. */
  function StepDown(index: nat, step: nat, len: nat): (r: nat)
    ensures len == 0 ==> r == index
    ensures len > 0 ==> r < len && r <= index + step && (r == index + step || r == len - 1)
    ensures index < len ==> index <= r
  {
    if len == 0 then index
    else if index + step <= len - 1 then index + step
    else len - 1
  }

  /** `index.saturating_sub(step)`: the index moves back by `step` but not below 0. */
  function StepUp(index: nat, step: nat): (r: nat)
    ensures r <= index && index <= r + step
    ensures r == 0 || r + step == index
  {
    if index >= step then index - step else 0
  }

  /** The down moves clamp to the last entry and the up moves stop at the first. */
  lemma {:induction false} StepsStayInBounds(v: View, step: nat)
    ensures InBounds(v) ==> InBounds(v.(selectedIndex := StepDown(v.selectedIndex, step, |Current(v)|)))
    ensures InBounds(v) ==> InBounds(v.(selectedIndex := StepUp(v.selectedIndex, step)))
    ensures Current(v) != [] ==> InBounds(v.(selectedIndex := |Current(v)| - 1))
  {
    var len := |Current(v)|;
    var down := v.(selectedIndex := StepDown(v.selectedIndex, step, len));
    var up := v.(selectedIndex := StepUp(v.selectedIndex, step));
    assert Current(down) == Current(v) && Current(up) == Current(v);
    if InBounds(v) && v.selectedIndex != 0 {
      assert StepUp(v.selectedIndex, step) < len;
    }
  }

  /** Moving down by `a` and then by `b` lands where one move by `a + b` does. */
  lemma StepDownAdds(index: nat, a: nat, b: nat, len: nat)
    ensures StepDown(StepDown(index, a, len), b, len) == StepDown(index, a + b, len)
  {
  }

  /** Moving up by `a` and then by `b` lands where one move by `a + b` does. */
  lemma StepUpAdds(index: nat, a: nat, b: nat)
    ensures StepUp(StepUp(index, a), b) == StepUp(index, a + b)
  {
  }

  // ---------------------------------------------------------------------------
  // The filter panel
  // ---------------------------------------------------------------------------

  /** `toggle_filter_panel`: the panel flips; a shown panel takes the keys on its
      preset list, a hidden one hands them back to the list. */
  function PanelToggled(v: View): (w: View)
    ensures w.showFilterPanel == !v.showFilterPanel
    ensures w.focus == (if w.showFilterPanel then FilterPresets else LogList)
    ensures w == v.(showFilterPanel := w.showFilterPanel, focus := w.focus)
  {
    var shown := !v.showFilterPanel;
    v.(showFilterPanel := shown, focus := if shown then FilterPresets else LogList)
  }

  /** Toggling twice restores the panel and leaves the keys where a toggle puts them. */
  lemma ToggleTwice(v: View)
    ensures PanelToggled(PanelToggled(v)).showFilterPanel == v.showFilterPanel
    ensures PanelToggled(PanelToggled(v)) == PanelToggled(PanelToggled(PanelToggled(PanelToggled(v))))
  {
  }

  // ---------------------------------------------------------------------------
  // Filtering
  // ---------------------------------------------------------------------------

  /** The filter text: the input's lines joined without a separator and trimmed. */
  function FilterText(input: seq<string>): (t: string)
    ensures t == [] <==> AllWhitespace(Join(input, ""))
  {
    Trim(Join(input, ""))
  }

  /** A preset's filter text is the preset itself, trimmed. */
  lemma PresetFilterText(f: string)
    ensures FilterText([f]) == Trim(f)
  {
  }

  /** Whitespace around a preset does not change the filter it applies. */
  lemma PresetIgnoresPadding(w1: string, f: string, w2: string)
    requires AllWhitespace(w1) && AllWhitespace(w2)
    ensures FilterText([w1 + f + w2]) == FilterText([f])
  {
    TrimIgnoresPadding(w1, f, w2);
  }

  /** `clear_filter`: back to every record with the selection on the first one,
      no filter, no error and an empty input. Neither list of records changes. */
  function Cleared(v: View): (w: View)
    ensures w.viewMode == AllLogs && Current(w) == v.allLogs && w.selectedIndex == 0 && InBounds(w)
    ensures w.activeFilter == None && w.filterError == None && w.filterInput == EmptyInput
    ensures w.allLogs == v.allLogs && w.filteredLogs == v.filteredLogs && w.fieldSchema == v.fieldSchema
    ensures w.showFilterPanel == v.showFilterPanel && w.focus == v.focus
  {
    v.(activeFilter := None, viewMode := AllLogs, selectedIndex := 0, filterError := None,
       filterInput := EmptyInput)
  }

  /** Clearing twice is clearing once. */
  lemma ClearIdempotent(v: View)
    ensures Cleared(Cleared(v)) == Cleared(v)
  {
  }

  /** `apply_filter`, given what `query_logs` returns for the filter text and how a
      report is displayed. */
  function FilterApplied(v: View, outcome: Result<seq<JsonLog>, Report>, describe: Report -> string): (r: (View, Result<Unit, Report>))
    ensures r.1.Ok? <==> FilterText(v.filterInput) == [] || outcome.Ok?
    ensures r.1.Err? ==> r.1.error == outcome.error && r.0.filterError.Some?
  {
    var text := FilterText(v.filterInput);
    if text == [] then (Cleared(v), Ok(Unit))
    else match outcome
      case Ok(logs) =>
        (v.(filteredLogs := logs, activeFilter := Some(text), viewMode := Filtered, selectedIndex := 0,
            filterError := None, showFilterPanel := false, focus := LogList), Ok(Unit))
      case Err(e) =>
        (v.(filterError := Some("SQL Error: " + describe(e))), Err(e))
  }

  /** An empty filter text clears the filter; results replace the filtered list and
      are shown from their first entry with the panel closed and the keys on the
      list; an error only sets the message under the input and is passed on. The
      selection stays in bounds in every case. */
  lemma FilterAppliedEffect(v: View, outcome: Result<seq<JsonLog>, Report>, describe: Report -> string)
    ensures var r := FilterApplied(v, outcome, describe);
            FilterText(v.filterInput) == [] ==> r == (Cleared(v), Ok(Unit))
    ensures var (w, r) := FilterApplied(v, outcome, describe);
            FilterText(v.filterInput) != [] && outcome.Ok? ==>
              r == Ok(Unit) && w.viewMode == Filtered && Current(w) == outcome.value
              && w.selectedIndex == 0 && w.activeFilter == Some(FilterText(v.filterInput))
              && w.filterError == None && !w.showFilterPanel && w.focus == LogList
              && w.allLogs == v.allLogs && w.fieldSchema == v.fieldSchema && w.filterInput == v.filterInput
    ensures var r := FilterApplied(v, outcome, describe);
            FilterText(v.filterInput) != [] && outcome.Err? ==>
              r == (v.(filterError := Some("SQL Error: " + describe(outcome.error))), Err(outcome.error))
    ensures InBounds(v) ==> InBounds(FilterApplied(v, outcome, describe).0)
  {
  }

  /** A failing filter leaves the last good results on screen, the selection where
      it was and the active filter as it was. */
  lemma FailedFilterKeepsResults(v: View, outcome: Result<seq<JsonLog>, Report>, describe: Report -> string)
    requires FilterText(v.filterInput) != [] && outcome.Err?
    ensures var w := FilterApplied(v, outcome, describe).0;
            Current(w) == Current(v) && Selected(w) == Selected(v) && w.activeFilter == v.activeFilter
            && w.filteredLogs == v.filteredLogs && w.viewMode == v.viewMode
  {
    var w := FilterApplied(v, outcome, describe).0;
    assert w == v.(filterError := w.filterError);
  }

  /** Applying a filter that succeeded once more, with the same results, changes nothing. */
  lemma ReapplyIsStable(v: View, logs: seq<JsonLog>, describe: Report -> string)
    requires FilterText(v.filterInput) != []
    ensures var w := FilterApplied(v, Ok(logs), describe).0;
            FilterApplied(w, Ok(logs), describe) == (w, Ok(Unit))
  {
  }

  /** The records loaded at start-up are never touched by filtering. */
  lemma FilteringKeepsAllLogs(v: View, outcome: Result<seq<JsonLog>, Report>, describe: Report -> string)
    ensures FilterApplied(v, outcome, describe).0.allLogs == v.allLogs
    ensures Cleared(v).allLogs == v.allLogs
  {
  }

  /** What `query_logs` returns for a filter text, on a table whose connection
      sees `visible` and answers queries with `answer`. */
  function FilterQuery(table: string, visible: seq<Store.Statement>, answer: Store.Answer, text: string): Result<seq<JsonLog>, Report> {
    var sql := SelectSql(table, Some(text));
    QueryOutcome(sql, answer(visible, sql))
  }

  // ---------------------------------------------------------------------------
  // The application
  // ---------------------------------------------------------------------------

  /** `App`. The formatting of a report for the error line (`rootcause`'s
      `Display`) is not part of this model and is given as `describe`. */
  class App {
    const db: LogDatabase
    const describe: Report -> string
    var allLogs: seq<JsonLog>
    var filteredLogs: seq<JsonLog>
    var fieldSchema: seq<(string, FieldType)>
    var selectedIndex: nat
    var viewMode: ViewMode
    var activeFilter: Option<string>
    /** The lines of the filter `TextArea`. */
    var filterInput: seq<string>
    var showFilterPanel: bool
    var filterError: Option<string>
    var focus: Focus

    function Snapshot(): View
      reads this
    {
      View(allLogs, filteredLogs, fieldSchema, selectedIndex, viewMode, activeFilter,
           filterInput, showFilterPanel, filterError, focus)
    }

    /** The selection stays on the list on screen. */
    predicate Valid()
      reads this
    {
      InBounds(Snapshot())
    }

    constructor (db: LogDatabase, allLogs: seq<JsonLog>, fieldSchema: seq<(string, FieldType)>, describe: Report -> string)
      ensures Snapshot() == Initial(allLogs, fieldSchema) && Valid()
      ensures this.db == db && this.describe == describe
    {
      this.db := db;
      this.describe := describe;
      this.allLogs := allLogs;
      filteredLogs := [];
      this.fieldSchema := fieldSchema;
      selectedIndex := 0;
      viewMode := AllLogs;
      activeFilter := None;
      filterInput := EmptyInput;
      showFilterPanel := false;
      filterError := None;
      focus := LogList;
    }

    /** `App::new`: read the schema of the table, or fail with the note
        "Failed to get database schema". */
    static method New(db: LogDatabase, allLogs: seq<JsonLog>, describe: Report -> string) returns (r: Result<App, Report>)
      ensures var sql := "PRAGMA table_info(" + db.tableName + ")";
              var schema := SchemaOutcome(sql, db.conn.answer(db.conn.Visible(), sql));
              (schema.Err? ==> r == Err(AttachTo(schema.error, "Failed to get database schema")))
              && (schema.Ok? ==>
                    r.Ok? && fresh(r.value) && r.value.db == db && r.value.describe == describe
                    && r.value.Snapshot() == Initial(allLogs, schema.value))
    {
      var schema := db.GetSchema();
      if schema.Err? {
        r := Err(AttachTo(schema.error, "Failed to get database schema"));
        return;
      }
      var app := new App(db, allLogs, schema.value, describe);
      r := Ok(app);
    }

    /** `current_logs`. */
    function CurrentLogs(): (r: seq<JsonLog>)
      reads this
      ensures r == Current(Snapshot())
    {
      match viewMode
      case AllLogs => allLogs
      case Filtered => filteredLogs
    }

    /** `selected_log`. */
    function SelectedLog(): (r: Option<JsonLog>)
      reads this
      ensures r == Selected(Snapshot())
    {
      var logs := CurrentLogs();
      if selectedIndex < |logs| then Some(logs[selectedIndex]) else None
    }

    /** `move_down`. */
    method MoveDown()
      modifies this
      ensures Snapshot() == old(Snapshot()).(selectedIndex := StepDown(old(selectedIndex), 1, |old(CurrentLogs())|))
      ensures old(Valid()) ==> Valid()
    {
      StepsStayInBounds(Snapshot(), 1);
      var len := |CurrentLogs()|;
      if len > 0 {
        selectedIndex := if selectedIndex + 1 <= len - 1 then selectedIndex + 1 else len - 1;
      }
    }

    /** `move_up`. */
    method MoveUp()
      modifies this
      ensures Snapshot() == old(Snapshot()).(selectedIndex := StepUp(old(selectedIndex), 1))
      ensures old(Valid()) ==> Valid()
    {
      StepsStayInBounds(Snapshot(), 1);
      if selectedIndex > 0 {
        selectedIndex := selectedIndex - 1;
      }
    }

    /** `jump_to_first`. */
    method JumpToFirst()
      modifies this
      ensures Snapshot() == old(Snapshot()).(selectedIndex := 0) && Valid()
    {
      selectedIndex := 0;
    }

    /** `jump_to_last`: the last entry of a non-empty list; an empty list keeps the index. */
    method JumpToLast()
      modifies this
      ensures old(CurrentLogs()) != [] ==> Snapshot() == old(Snapshot()).(selectedIndex := |old(CurrentLogs())| - 1)
      ensures old(CurrentLogs()) == [] ==> Snapshot() == old(Snapshot())
      ensures old(Valid()) ==> Valid()
    {
      StepsStayInBounds(Snapshot(), 0);
      var len := |CurrentLogs()|;
      if len > 0 {
        selectedIndex := len - 1;
      }
    }

    /** `scroll_down_half_page`. */
    method ScrollDownHalfPage(pageHeight: nat)
      modifies this
      ensures Snapshot() == old(Snapshot()).(selectedIndex := StepDown(old(selectedIndex), pageHeight / 2, |old(CurrentLogs())|))
      ensures old(Valid()) ==> Valid()
    {
      StepsStayInBounds(Snapshot(), pageHeight / 2);
      var len := |CurrentLogs()|;
      if len > 0 {
        var halfPage := pageHeight / 2;
        selectedIndex := if selectedIndex + halfPage <= len - 1 then selectedIndex + halfPage else len - 1;
      }
    }

    /** `scroll_up_half_page`. */
    method ScrollUpHalfPage(pageHeight: nat)
      modifies this
      ensures Snapshot() == old(Snapshot()).(selectedIndex := StepUp(old(selectedIndex), pageHeight / 2))
      ensures old(Valid()) ==> Valid()
    {
      StepsStayInBounds(Snapshot(), pageHeight / 2);
      var halfPage := pageHeight / 2;
      selectedIndex := if selectedIndex >= halfPage then selectedIndex - halfPage else 0;
    }

    /** `scroll_down_page`. */
    method ScrollDownPage(pageHeight: nat)
      modifies this
      ensures Snapshot() == old(Snapshot()).(selectedIndex := StepDown(old(selectedIndex), pageHeight, |old(CurrentLogs())|))
      ensures old(Valid()) ==> Valid()
    {
      StepsStayInBounds(Snapshot(), pageHeight);
      var len := |CurrentLogs()|;
      if len > 0 {
        selectedIndex := if selectedIndex + pageHeight <= len - 1 then selectedIndex + pageHeight else len - 1;
      }
    }

    /** `scroll_up_page`. */
    method ScrollUpPage(pageHeight: nat)
      modifies this
      ensures Snapshot() == old(Snapshot()).(selectedIndex := StepUp(old(selectedIndex), pageHeight))
      ensures old(Valid()) ==> Valid()
    {
      StepsStayInBounds(Snapshot(), pageHeight);
      selectedIndex := if selectedIndex >= pageHeight then selectedIndex - pageHeight else 0;
    }

    /** `toggle_filter_panel`. */
    method ToggleFilterPanel()
      modifies this
      ensures Snapshot() == PanelToggled(old(Snapshot()))
      ensures old(Valid()) ==> Valid()
    {
      showFilterPanel := !showFilterPanel;
      if showFilterPanel {
        focus := FilterPresets;
      } else {
        focus := LogList;
      }
    }

    /** `focus_filter`: the panel opens with the keys on the input. */
    method FocusFilter()
      modifies this
      ensures Snapshot() == old(Snapshot()).(focus := FilterInput, showFilterPanel := true)
      ensures old(Valid()) ==> Valid()
    {
      focus := FilterInput;
      showFilterPanel := true;
    }

    /** `focus_log_list`: the panel closes and the keys go back to the list. */
    method FocusLogList()
      modifies this
      ensures Snapshot() == old(Snapshot()).(focus := LogList, showFilterPanel := false)
      ensures old(Valid()) ==> Valid()
    {
      focus := LogList;
      showFilterPanel := false;
    }

    /** `clear_filter`. */
    method ClearFilter()
      modifies this
      ensures Snapshot() == Cleared(old(Snapshot())) && Valid()
    {
      activeFilter := None;
      viewMode := AllLogs;
      selectedIndex := 0;
      filterError := None;
      filterInput := EmptyInput;
    }

    /** `apply_filter`: run the trimmed text of the input as the WHERE clause of
        `query_logs`. */
    method ApplyFilter() returns (r: Result<Unit, Report>)
      modifies this
      ensures (Snapshot(), r) == FilterApplied(old(Snapshot()), FilterQuery(db.tableName, db.conn.Visible(), db.conn.answer, FilterText(old(filterInput))), describe)
      ensures old(Valid()) ==> Valid()
    {
      ghost var before := Snapshot();
      var text := Trim(Join(filterInput, ""));
      if text == [] {
        ClearFilter();
        r := Ok(Unit);
        return;
      }
      var result := db.QueryLogs(Some(text));
      assert text == FilterText(before.filterInput) && result == FilterQuery(db.tableName, db.conn.Visible(), db.conn.answer, text);
      match result {
        case Ok(logs) =>
          ShowResults(text, logs);
          r := Ok(Unit);
        case Err(e) =>
          filterError := Some("SQL Error: " + describe(e));
          r := Err(e);
      }
      FilterAppliedEffect(before, result, describe);
    }

    /** The success branch of `apply_filter`: the results replace the filtered
        list and are shown from their first entry. */
    method ShowResults(text: string, logs: seq<JsonLog>)
      modifies this
      ensures Snapshot() == old(Snapshot()).(filteredLogs := logs, activeFilter := Some(text), viewMode := Filtered,
                                             selectedIndex := 0, filterError := None, showFilterPanel := false,
                                             focus := LogList)
    {
      filteredLogs := logs;
      activeFilter := Some(text);
      viewMode := Filtered;
      selectedIndex := 0;
      filterError := None;
      showFilterPanel := false;
      focus := LogList;
    }

    /** `apply_preset_filter`: the input becomes the preset, which is then applied. */
    method ApplyPresetFilter(filter: string) returns (r: Result<Unit, Report>)
      modifies this
      ensures var input := old(Snapshot()).(filterInput := [filter]);
              (Snapshot(), r) == FilterApplied(input, FilterQuery(db.tableName, db.conn.Visible(), db.conn.answer, Trim(filter)), describe)
      ensures old(Valid()) ==> Valid()
    {
      ghost var input := Snapshot().(filterInput := [filter]);
      ghost var wasValid := Valid();
      filterInput := [filter];
      assert Snapshot() == input && Current(input) == Current(old(Snapshot()));
      assert Valid() == wasValid;
      r := ApplyFilter();
      PresetFilterText(filter);
    }
  }
}
