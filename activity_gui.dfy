/**
 * The activity window's logic (app/gui/activity.py): the table model that
 * holds the activity rows, the refresh scheduler of the controller (one
 * optional refresh task, one optional refresh timer), reselecting the
 * previously selected backend after a refresh, the window title and the
 * query text pane.
 *
 * Qt widgets and the asyncio loop are not modelled; what they do to the
 * model is given as parameters (a fetch's outcome) or recorded as state
 * (the row-change notices a table model emits, the handles it cancels).
 */
module ActivityGui {
  import opened Wrappers
  import opened Activity

  // ---------------------------------------------------------------------
  // Table model
  // ---------------------------------------------------------------------

  /** A cell's value, before any display formatting. */
  datatype Datum = Null | Text(text: string) | Integer(number: int) | Time(at: Timestamp)

  function TextDatum(o: Option<string>): Datum
  {
    if o.Some? then Text(o.value) else Null
  }

  function IntegerDatum(o: Option<int>): Datum
  {
    if o.Some? then Integer(o.value) else Null
  }

  function TimeDatum(o: Option<Timestamp>): Datum
  {
    if o.Some? then Time(o.value) else Null
  }

  /** The value of field number `column` of a row, in `ActivityRow._fields` order. */
  function FieldDatum(row: ActivityRow, column: nat): (d: Datum)
    requires column < |ActivityFields|
    ensures ActivityFields[column] == "application_name" ==> d == TextDatum(row.applicationName)
    ensures ActivityFields[column] == "backend_start" ==> d == Time(row.backendStart)
    ensures ActivityFields[column] == "client_addr" ==> d == TextDatum(row.clientAddr)
    ensures ActivityFields[column] == "client_hostname" ==> d == TextDatum(row.clientHostname)
    ensures ActivityFields[column] == "client_port" ==> d == IntegerDatum(row.clientPort)
    ensures ActivityFields[column] == "datname" ==> d == Text(row.datname)
    ensures ActivityFields[column] == "pid" ==> d == Integer(row.pid)
    ensures ActivityFields[column] == "query_start" ==> d == Time(row.queryStart)
    ensures ActivityFields[column] == "state" ==> d == TextDatum(row.state)
    ensures ActivityFields[column] == "state_change" ==> d == TimeDatum(row.stateChange)
    ensures ActivityFields[column] == "usename" ==> d == Text(row.usename)
    ensures ActivityFields[column] == "wait_event" ==> d == TextDatum(row.waitEvent)
    ensures ActivityFields[column] == "xact_start" ==> d == TimeDatum(row.xactStart)
  {
    match column
    case 0 => TextDatum(row.applicationName)
    case 1 => Time(row.backendStart)
    case 2 => TextDatum(row.clientAddr)
    case 3 => TextDatum(row.clientHostname)
    case 4 => IntegerDatum(row.clientPort)
    case 5 => Text(row.datname)
    case 6 => Integer(row.pid)
    case 7 => Time(row.queryStart)
    case 8 => TextDatum(row.state)
    case 9 => TimeDatum(row.stateChange)
    case 10 => Text(row.usename)
    case 11 => TextDatum(row.waitEvent)
    case 12 => TimeDatum(row.xactStart)
  }

  /** The header title of each column: the field's `ACTIVITY_HEADER` entry, or the field name. */
  function ColumnTitles(): (titles: seq<string>)
    ensures |titles| == |ActivityFields|
    ensures forall i :: 0 <= i < |titles| ==>
      titles[i] == (if ActivityFields[i] in ActivityHeader then ActivityHeader[ActivityFields[i]] else ActivityFields[i])
  {
    seq(|ActivityFields|, i requires 0 <= i < |ActivityFields| =>
      if ActivityFields[i] in ActivityHeader then ActivityHeader[ActivityFields[i]] else ActivityFields[i])
  }

  /** Every field has a header entry, so no column falls back to its raw field name. */
  lemma ColumnTitlesFromHeader()
    ensures forall i :: 0 <= i < |ActivityFields| ==> ActivityFields[i] in ActivityHeader
    ensures forall i :: 0 <= i < |ActivityFields| ==> ColumnTitles()[i] == ActivityHeader[ActivityFields[i]]
    ensures ColumnTitles()[6] == "PID"
  {
    forall i | 0 <= i < |ActivityFields|
      ensures ActivityFields[i] in ActivityHeader
    {
      assert ActivityFields[i] in ActivityHeader.Keys by {
        assert ActivityHeader.Keys == {
          "pid", "application_name", "datname", "backend_start", "client_addr",
          "client_hostname", "client_port", "query_start", "state", "state_change",
          "usename", "wait_event", "xact_start"};
      }
    }
  }

  /** `Qt.Orientation` of a header. */
  datatype Orientation = Horizontal | Vertical

  /** A Qt item data role: the display role, or any other. */
  datatype Role = DisplayRole | OtherRole(code: int)

  /**
   * A row-change notice a table model emits to its views: the rows
   * `first` to `last`, both included, are about to be removed or inserted.
   */
  datatype RowNotice = RemoveRows(first: int, last: int) | InsertRows(first: int, last: int)

  /** The number of rows an inclusive range names. */
  function RowsNamed(n: RowNotice): int
  {
    n.last - n.first + 1
  }

  /** The notice names rows that exist: `0 <= first <= last < count`. */
  predicate Fits(n: RowNotice, count: int)
  {
    0 <= n.first <= n.last < count
  }

  /**
   * The notices `set_data` emits as written: it passes the row count as
   * the last row of both ranges.
   */
  function SetDataNoticesAsWritten(oldCount: nat, newCount: nat): seq<RowNotice>
  {
    [RemoveRows(0, oldCount), InsertRows(0, newCount)]
  }

  /** As written, both notices name one row more than is removed or inserted, and neither fits. */
  lemma SetDataNoticesAsWrittenOverreach(oldCount: nat, newCount: nat)
    ensures var ns := SetDataNoticesAsWritten(oldCount, newCount);
      && RowsNamed(ns[0]) == oldCount + 1 && !Fits(ns[0], oldCount)
      && RowsNamed(ns[1]) == newCount + 1 && !Fits(ns[1], newCount)
  {
  }

  /** Replacing two rows by none: as written, the removal names rows 0 to 2, three rows. */
  lemma SetDataNoticesAsWrittenExample()
    ensures SetDataNoticesAsWritten(2, 0) == [RemoveRows(0, 2), InsertRows(0, 0)]
    ensures RowsNamed(SetDataNoticesAsWritten(2, 0)[0]) == 3
    ensures RowsNamed(SetDataNoticesAsWritten(2, 0)[1]) == 1
  {
  }

  /**
   * The notices `set_data` is meant to emit: the removal of every old row
   * and the insertion of every new one, as inclusive ranges, with no
   * notice for an empty range (Qt requires `first <= last`).
   */
  function SetDataNotices(oldCount: nat, newCount: nat): seq<RowNotice>
  {
    (if oldCount == 0 then [] else [RemoveRows(0, oldCount - 1)]) +
    (if newCount == 0 then [] else [InsertRows(0, newCount - 1)])
  }

  /**
   * The corrected notices fit the rows they talk about and name exactly
   * the rows removed and inserted: removals before insertions, at most
   * one of each, and one of a kind exactly when there are rows of it.
   */
  lemma SetDataNoticesExact(oldCount: nat, newCount: nat)
    ensures var ns := SetDataNotices(oldCount, newCount);
      && |ns| == (if oldCount == 0 then 0 else 1) + (if newCount == 0 then 0 else 1)
      && (forall i :: 0 <= i < |ns| && ns[i].RemoveRows? ==> Fits(ns[i], oldCount) && RowsNamed(ns[i]) == oldCount)
      && (forall i :: 0 <= i < |ns| && ns[i].InsertRows? ==> Fits(ns[i], newCount) && RowsNamed(ns[i]) == newCount)
      && (forall i, j :: 0 <= i < j < |ns| ==> ns[i].RemoveRows? && ns[j].InsertRows?)
      && ((exists i :: 0 <= i < |ns| && ns[i].RemoveRows?) <==> oldCount > 0)
      && ((exists i :: 0 <= i < |ns| && ns[i].InsertRows?) <==> newCount > 0)
  {
    var ns := SetDataNotices(oldCount, newCount);
    if oldCount > 0 {
      assert ns[0].RemoveRows?;
    }
    if newCount > 0 {
      assert ns[|ns| - 1].InsertRows?;
    }
  }

  /**
   * `ActivityTableModel`: the rows shown in the activity table. The column
   * fields and titles are fixed at construction; `notices` records the
   * row-change notices emitted so far.
   */
  class ActivityTableModel {
    const columnFields: seq<string>
    const columnTitles: seq<string>
    var data: seq<ActivityRow>
    var notices: seq<RowNotice>

    ghost predicate Valid()
      reads this
    {
      columnFields == ActivityFields && columnTitles == ColumnTitles()
    }

    constructor ()
      ensures Valid() && data == [] && notices == []
    {
      columnFields := ActivityFields;
      columnTitles := ColumnTitles();
      data := [];
      notices := [];
    }

    /** `columnCount`: one column per `ActivityRow` field. */
    method ColumnCount() returns (n: nat)
      requires Valid()
      ensures n == |ActivityFields| == 13
    {
      n := |columnTitles|;
    }

    /** `rowCount`: one row per activity row held. */
    method RowCount() returns (n: nat)
      ensures n == |data|
    {
      n := |data|;
    }

    /** `get_data`: the rows held, as last set. */
    method GetData() returns (rows: seq<ActivityRow>)
      ensures rows == data
    {
      rows := data;
    }

    /** `get_fields`: the field name behind each column. */
    method GetFields() returns (fields: seq<string>)
      requires Valid()
      ensures fields == ActivityFields
    {
      fields := columnFields;
    }

    /**
     * `headerData`: the column's title for the horizontal header's display
     * role, nothing otherwise, whatever the section. Qt asks the horizontal
     * header only about existing columns; the vertical header asks about
     * every row.
     */
    method HeaderData(column: nat, orientation: Orientation, role: Role) returns (r: Option<string>)
      requires Valid()
      requires orientation == Horizontal && role == DisplayRole ==> column < |ActivityFields|
      ensures r.Some? <==> orientation == Horizontal && role == DisplayRole
      ensures r.Some? ==> ActivityFields[column] in ActivityHeader && r.value == ActivityHeader[ActivityFields[column]]
    {
      ColumnTitlesFromHeader();
      if orientation == Horizontal && role == DisplayRole {
        r := Some(columnTitles[column]);
      } else {
        r := None;
      }
    }

    /**
     * `data`: for the display role, the value of the field behind the
     * column in the given row; nothing for other roles. Qt only asks about
     * existing cells.
     */
    method Data(row: nat, column: nat, role: Role) returns (r: Option<Datum>)
      requires column < |ActivityFields| && row < |data|
      ensures r.Some? <==> role == DisplayRole
      ensures r.Some? ==> r.value == FieldDatum(data[row], column)
    {
      if role == DisplayRole {
        r := Some(FieldDatum(data[row], column));
      } else {
        r := None;
      }
    }

    /**
     * `set_data`: replace the rows wholesale, announcing the removal of the
     * old rows and then the insertion of the new ones.
     */
    method SetData(rows: seq<ActivityRow>)
      requires Valid()
      modifies this
      ensures Valid()
      ensures data == rows
      ensures notices == old(notices) + SetDataNotices(|old(data)|, |rows|)
    {
      if |data| > 0 {
        notices := notices + [RemoveRows(0, |data| - 1)];
      }
      data := [];
      if |rows| > 0 {
        notices := notices + [InsertRows(0, |rows| - 1)];
      }
      data := rows;
    }
  }

  // ---------------------------------------------------------------------
  // Reselecting, title and query text
  // ---------------------------------------------------------------------

  /**
   * The reselect loop of `__populate_table`: the index of the first row
   * whose pid is `pid`, or nothing when no row has it.
   */
  method FindRowOfPid(rows: seq<ActivityRow>, pid: int) returns (r: Option<nat>)
    ensures r.Some? ==> r.value < |rows| && rows[r.value].pid == pid
    ensures r.Some? ==> forall j :: 0 <= j < r.value ==> rows[j].pid != pid
    ensures r.None? <==> forall j :: 0 <= j < |rows| ==> rows[j].pid != pid
  {
    for i := 0 to |rows|
      invariant forall j :: 0 <= j < i ==> rows[j].pid != pid
    {
      if rows[i].pid == pid {
        return Some(i);
      }
    }
    return None;
  }

  /** The parts of a title that Python's `filter(None, ...)` keeps: present and non-empty. */
  function Truthy(parts: seq<Option<string>>): (r: seq<string>)
    ensures forall i :: 0 <= i < |r| ==> r[i] != ""
    ensures |r| <= |parts|
  {
    if parts == [] then []
    else if parts[0].Some? && parts[0].value != "" then [parts[0].value] + Truthy(parts[1..])
    else Truthy(parts[1..])
  }

  /** `sep.join(parts)`. */
  function Join(sep: string, parts: seq<string>): string
  {
    if parts == [] then ""
    else if |parts| == 1 then parts[0]
    else parts[0] + sep + Join(sep, parts[1..])
  }

  /** The separator between the parts of the window title. */
  const TitleSeparator := " - "

  /** The window title `__set_title` builds from an optional prefix and the base title. */
  function Title(prefix: Option<string>, base: string): (title: string)
    ensures prefix.None? || prefix.value == "" ==> title == base
    ensures prefix.Some? ==> prefix.value <= title
  {
    var parts := [prefix, Some(base)];
    assert parts[1..] == [Some(base)] && [Some(base)][1..] == [];
    assert Truthy([Some(base)]) == (if base != "" then [base] else []);
    Join(TitleSeparator, Truthy(parts))
  }

  /**
   * The title is the base title alone without a (non-empty) prefix, the
   * prefix alone when the base title is empty, and otherwise the prefix, a
   * spaced dash and the base title.
   */
  lemma TitleCases(prefix: Option<string>, base: string)
    ensures (prefix.None? || prefix.value == "") ==> Title(prefix, base) == base
    ensures prefix.Some? && prefix.value != "" && base == "" ==> Title(prefix, base) == prefix.value
    ensures prefix.Some? && prefix.value != "" && base != "" ==>
      Title(prefix, base) == prefix.value + " - " + base
  {
    var parts := [prefix, Some(base)];
    var tail := Truthy([Some(base)]);
    assert parts[1..] == [Some(base)];
    assert [Some(base)][1..] == [];
    assert tail == (if base != "" then [base] else []);
    if prefix.Some? && prefix.value != "" {
      assert Truthy(parts) == [prefix.value] + tail;
      if base != "" {
        assert Truthy(parts) == [prefix.value, base];
        assert Truthy(parts)[1..] == [base];
        assert Join(TitleSeparator, [base]) == base;
      } else {
        assert Truthy(parts) == [prefix.value];
      }
    } else {
      assert Truthy(parts) == tail;
    }
  }

  /** The text the query pane shows for a backend: its query, or "" for a NULL query. */
  function DisplayedQuery(query: Option<string>): (text: string)
    ensures query.Some? ==> text == query.value
    ensures query.None? ==> text == ""
  {
    if query.Some? then query.value else ""
  }

  // ---------------------------------------------------------------------
  // Controller
  // ---------------------------------------------------------------------

  /** An asyncio task or timer handle, by creation order. */
  type Handle = nat

  /**
   * `ActivityController`, restricted to its refresh scheduler, its table
   * and its selection, the query pane and the window title.
   *
   * A refresh is either running as a task or scheduled as a timer, never
   * both; `liveTasks` and `liveTimers` are the handles the event loop may
   * still act on (created, neither cancelled nor finished), and the
   * controller always knows each of them.
   */
  class ActivityController {
    var refreshTask: Option<Handle>
    var refreshTimer: Option<Handle>
    /** The next handle the event loop hands out. */
    var nextHandle: Handle
    /** The tasks whose `cancel()` was called. */
    var cancelledTasks: set<Handle>
    /** The timers whose `cancel()` was called. */
    var cancelledTimers: set<Handle>
    ghost var liveTasks: set<Handle>
    ghost var liveTimers: set<Handle>
    const table: ActivityTableModel
    /** The selected row of the table, by its index in the table's rows. */
    var selection: Option<nat>
    var queryText: string
    /** How many times the query pane's text was set. */
    var queryTextWrites: nat
    var title: string
    const baseTitle: string

    ghost predicate Valid()
      reads this, table
    {
      && liveTasks == OptionSet(refreshTask)
      && liveTimers == OptionSet(refreshTimer)
      && !(refreshTask.Some? && refreshTimer.Some?)
      && (forall h :: h in liveTasks ==> h < nextHandle)
      && (forall h :: h in liveTimers ==> h < nextHandle)
      && (forall h :: h in cancelledTasks ==> h < nextHandle)
      && (forall h :: h in cancelledTimers ==> h < nextHandle)
      && liveTasks !! cancelledTasks
      && liveTimers !! cancelledTimers
      && table.Valid()
      && (selection.Some? ==> selection.value < |table.data|)
    }

    /** The controller of a window whose title was `baseTitle` when it opened. */
    constructor (baseTitle: string)
      ensures Valid() && fresh(table)
      ensures refreshTask.None? && refreshTimer.None? && selection.None?
      ensures table.data == [] && queryText == "" && title == baseTitle && this.baseTitle == baseTitle
    {
      refreshTask := None;
      refreshTimer := None;
      nextHandle := 0;
      cancelledTasks := {};
      cancelledTimers := {};
      liveTasks := {};
      liveTimers := {};
      table := new ActivityTableModel();
      selection := None;
      queryText := "";
      queryTextWrites := 0;
      title := baseTitle;
      this.baseTitle := baseTitle;
    }

    /** `__cancel_refresh_task`: forget the task and cancel it, if there was one. */
    method CancelRefreshTask()
      requires Valid()
      modifies this`refreshTask, this`cancelledTasks, this`liveTasks
      ensures Valid()
      ensures refreshTask.None? && liveTasks == {}
      ensures cancelledTasks == old(cancelledTasks) + OptionSet(old(refreshTask))
    {
      var task := refreshTask;
      refreshTask := None;
      if task.Some? {
        cancelledTasks := cancelledTasks + {task.value};
        liveTasks := liveTasks - {task.value};
      }
    }

    /** `__cancel_refresh_timer`: forget the timer and cancel it, if there was one. */
    method CancelRefreshTimer()
      requires Valid()
      modifies this`refreshTimer, this`cancelledTimers, this`liveTimers
      ensures Valid()
      ensures refreshTimer.None? && liveTimers == {}
      ensures cancelledTimers == old(cancelledTimers) + OptionSet(old(refreshTimer))
    {
      var timer := refreshTimer;
      refreshTimer := None;
      if timer.Some? {
        cancelledTimers := cancelledTimers + {timer.value};
        liveTimers := liveTimers - {timer.value};
      }
    }

    /** `__stop_refresh`: cancel the timer, then the task; afterwards neither exists. */
    method StopRefresh()
      requires Valid()
      modifies this`refreshTask, this`cancelledTasks, this`liveTasks
      modifies this`refreshTimer, this`cancelledTimers, this`liveTimers
      ensures Valid()
      ensures refreshTask.None? && refreshTimer.None? && liveTasks == {} && liveTimers == {}
      ensures cancelledTasks == old(cancelledTasks) + OptionSet(old(refreshTask))
      ensures cancelledTimers == old(cancelledTimers) + OptionSet(old(refreshTimer))
    {
      CancelRefreshTimer();
      CancelRefreshTask();
    }

    /**
     * `__start_refresh_task`: unless a task already runs, create one. Its
     * callers have made sure no timer is pending.
     */
    method StartRefreshTask()
      requires Valid() && refreshTimer.None?
      modifies this`refreshTask, this`liveTasks, this`nextHandle
      ensures Valid()
      ensures old(refreshTask).Some? ==> refreshTask == old(refreshTask) && nextHandle == old(nextHandle)
      ensures old(refreshTask).None? ==>
        && refreshTask == Some(old(nextHandle)) && nextHandle == old(nextHandle) + 1
        && old(nextHandle) !in old(cancelledTasks)
    {
      if refreshTask.Some? {
        return;
      }
      refreshTask := Some(nextHandle);
      liveTasks := liveTasks + {nextHandle};
      nextHandle := nextHandle + 1;
    }

    /**
     * `__start_refresh_timer`: unless a timer is already pending, arm one.
     * Its callers have made sure no task runs.
     */
    method StartRefreshTimer()
      requires Valid() && refreshTask.None?
      modifies this`refreshTimer, this`liveTimers, this`nextHandle
      ensures Valid()
      ensures old(refreshTimer).Some? ==> refreshTimer == old(refreshTimer) && nextHandle == old(nextHandle)
      ensures old(refreshTimer).None? ==>
        && refreshTimer == Some(old(nextHandle)) && nextHandle == old(nextHandle) + 1
        && old(nextHandle) !in old(cancelledTimers)
    {
      if refreshTimer.Some? {
        return;
      }
      refreshTimer := Some(nextHandle);
      liveTimers := liveTimers + {nextHandle};
      nextHandle := nextHandle + 1;
    }

    /**
     * `__start_refresh`: nothing while a task runs. Otherwise a delayed
     * refresh arms the timer (unless one is pending), and an immediate one
     * cancels any pending timer and starts a task.
     */
    method StartRefresh(delay: bool)
      requires Valid()
      modifies this`refreshTask, this`liveTasks, this`refreshTimer, this`cancelledTimers, this`liveTimers, this`nextHandle
      ensures Valid()
      ensures old(refreshTask).Some? ==> unchanged(this)
      ensures old(refreshTask).None? && delay ==>
        && refreshTask.None? && cancelledTimers == old(cancelledTimers)
        && (old(refreshTimer).Some? ==> refreshTimer == old(refreshTimer))
        && (old(refreshTimer).None? ==> refreshTimer == Some(old(nextHandle)))
      ensures old(refreshTask).None? && !delay ==>
        && refreshTimer.None? && refreshTask == Some(old(nextHandle))
        && cancelledTimers == old(cancelledTimers) + OptionSet(old(refreshTimer))
    {
      if refreshTask.Some? {
        return;
      }
      if delay {
        StartRefreshTimer();
      } else {
        CancelRefreshTimer();
        StartRefreshTask();
      }
    }

    /**
     * `__on_refresh_timer_done`: the event loop runs a timer that was
     * armed and not cancelled, which is the pending one. It is cleared and
     * a task starts.
     */
    method OnRefreshTimerDone(timer: Handle)
      requires Valid() && timer in liveTimers
      modifies this`refreshTimer, this`liveTimers, this`refreshTask, this`liveTasks, this`nextHandle
      ensures Valid()
      ensures old(refreshTimer) == Some(timer)
      ensures refreshTimer.None? && refreshTask == Some(old(nextHandle))
    {
      refreshTimer := None;
      liveTimers := liveTimers - {timer};
      StartRefreshTask();
    }

    /** The pid of the selected row, if a row is selected (`__get_selected_pid`). */
    function SelectedPid(): (pid: Option<int>)
      requires Valid()
      reads this, table
      ensures pid.Some? <==> selection.Some?
      ensures pid.Some? ==> pid.value == table.data[selection.value].pid
    {
      if selection.Some? then Some(table.data[selection.value].pid) else None
    }

    /**
     * `__populate_table`: replace the table's rows and reselect the first
     * row with the pid that was selected; if none has it, or nothing was
     * selected, nothing is selected.
     */
    method PopulateTable(rows: seq<ActivityRow>)
      requires Valid()
      modifies this`selection, table
      ensures Valid()
      ensures table.data == rows
      ensures table.notices == old(table.notices) + SetDataNotices(|old(table.data)|, |rows|)
      ensures old(SelectedPid()).None? ==> selection.None?
      ensures old(SelectedPid()).Some? ==>
        var pid := old(SelectedPid()).value;
        && (selection.Some? ==> rows[selection.value].pid == pid && forall j :: 0 <= j < selection.value ==> rows[j].pid != pid)
        && (selection.None? <==> forall j :: 0 <= j < |rows| ==> rows[j].pid != pid)
    {
      var pid := SelectedPid();
      table.SetData(rows);
      if pid.Some? {
        selection := FindRowOfPid(rows, pid.value);
      } else {
        selection := None;
      }
    }

    /**
     * The end of a refresh task (`__refresh_activity`), given what its fetch
     * did. A task that was cancelled stops at its `await` with
     * `CancelledError`, which the `except Exception` does not catch:
     * nothing changes. Otherwise the task, which is the running one, is
     * cleared; a failed fetch stops there, and a successful one fills the
     * table and arms the timer for the next refresh.
     */
    method OnRefreshTaskDone(task: Handle, fetched: Result<seq<ActivityRow>, ManagerError>)
      requires Valid() && (task in liveTasks || task in cancelledTasks)
      modifies this, table
      ensures Valid()
      ensures task in old(cancelledTasks) ==> unchanged(this) && unchanged(table)
      ensures task !in old(cancelledTasks) ==>
        && old(refreshTask) == Some(task) && old(refreshTimer).None?
        && refreshTask.None? && liveTasks == {}
        && cancelledTasks == old(cancelledTasks) && cancelledTimers == old(cancelledTimers)
      ensures task !in old(cancelledTasks) && fetched.Err? ==>
        refreshTimer.None? && table.data == old(table.data) && selection == old(selection)
      ensures task !in old(cancelledTasks) && fetched.Err? ==> table.notices == old(table.notices)
      ensures task !in old(cancelledTasks) && fetched.Ok? ==>
        && table.data == fetched.value && refreshTimer == Some(old(nextHandle))
        && table.notices == old(table.notices) + SetDataNotices(|old(table.data)|, |fetched.value|)
      ensures task !in old(cancelledTasks) && fetched.Ok? && old(SelectedPid()).None? ==> selection.None?
      ensures task !in old(cancelledTasks) && fetched.Ok? && old(SelectedPid()).Some? ==>
        var pid := old(SelectedPid()).value;
        var rows := fetched.value;
        && (selection.Some? ==> rows[selection.value].pid == pid && forall j :: 0 <= j < selection.value ==> rows[j].pid != pid)
        && (selection.None? <==> forall j :: 0 <= j < |rows| ==> rows[j].pid != pid)
      ensures queryText == old(queryText) && queryTextWrites == old(queryTextWrites) && title == old(title)
    {
      if task in cancelledTasks {
        return;
      }
      refreshTask := None;
      liveTasks := {};
      if fetched.Ok? {
        PopulateTable(fetched.value);
        StartRefresh(true);
      }
    }

    /** `__set_title`: the window title for an optional prefix. */
    method SetTitle(prefix: Option<string>)
      modifies this`title
      ensures title == Title(prefix, baseTitle)
    {
      title := Title(prefix, baseTitle);
    }

    /**
     * `__update_query_text`, given what `fetch_query` did for the selected
     * pid: a failed fetch changes nothing; otherwise the pane shows the
     * query ("" for NULL), and its text is only set when it differs.
     */
    method UpdateQueryText(fetched: Result<Option<string>, ManagerError>)
      modifies this`queryText, this`queryTextWrites
      ensures fetched.Err? ==> queryText == old(queryText) && queryTextWrites == old(queryTextWrites)
      ensures fetched.Ok? ==> queryText == DisplayedQuery(fetched.value)
      ensures fetched.Ok? ==>
        queryTextWrites == old(queryTextWrites) + (if DisplayedQuery(fetched.value) == old(queryText) then 0 else 1)
    {
      if fetched.Err? {
        return;
      }
      var query := DisplayedQuery(fetched.value);
      if query != queryText {
        queryText := query;
        queryTextWrites := queryTextWrites + 1;
      }
    }
  }
}
