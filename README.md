# pg-activity-qt: the activity-polling engine in Dafny

This project models the core of pg-activity-qt, a desktop monitor that shows
the backends of a PostgreSQL server (the rows of `pg_stat_activity`) and
refreshes them periodically. It covers three source files.

- `app/activity.py` is the query layer. It holds one connection per
  `PostgresActivityManager`. When it connects, it parses the server's
  `server_version` reply into a tuple of at most two integers. From that
  tuple it picks one of three SQL dialects for the activity query: 9.1 and
  below, 9.2 to 9.5, and 9.6 and above. The same tuple picks one of two
  dialects for the per-backend query text. Each dialect normalises the view's
  columns with `CASE`/`nullif` into one `ActivityRow` shape. The model is in
  `version.dfy` and `activity.dfy`.
- `app/threads.py` runs a blocking function off the main thread.
  `Worker.run` emits its outcome once, and each `WorkerFuture` that
  `make_future` connected receives it. A future calls its registered result
  or error callbacks in registration order, including callbacks registered
  after the outcome arrived. A callback that raises is logged and does not
  stop the others. The model is in `threads.dfy`.
- `app/gui/activity.py` is the activity window. The model covers four parts,
  all in `activity_gui.dfy`:
  - the refresh scheduler, which has at most one refresh task and at most
    one refresh timer, never both at once, and ignores cancelled tasks;
  - the table model that holds the rows;
  - reselecting the previously selected backend after a refresh;
  - the window title and the query text pane.

Shared `Option`/`Result` types are in `wrappers.dfy`.

SQL `NULL` is modelled as `Option`. The server's view is a `StatView` value
with one of three column shapes: `wait_event`, `waiting`, or `procpid` with
`current_query`. A query whose columns the view does not have fails with
`UndefinedColumn`. The network, the clock, asyncio and Qt do not appear in
the model. What they deliver is a parameter:
- the handshake's outcome;
- the `SHOW server_version` reply;
- the view's rows;
- what the worker's function did;
- a fetch's outcome.

Four behaviours of the code shape the model:
- **`fetch_query` for a pid no row has.** `fetchone()` returns `None`, so
  `row.query` raises `AttributeError`. `PostgresActivityManager.FetchQuery`
  returns `Err(NoSuchBackend(pid))`.
- **Setting a future's outcome twice.** Nothing stops a second
  `set_result`/`set_error`: it overwrites the stored value and calls only the
  callbacks still pending. `WorkerFuture.SetResult` and `WorkerFuture.SetError`
  state this.
- **The version's shape.** `__get_version` keeps up to two components: a
  reply without a dot gives a one-element tuple, which Python compares as
  less than any longer tuple with the same first element.
- **Errors from `close`.** `close` clears the connection field and then awaits
  `conn.close()` with no handler, so an error from it propagates. The model's
  `Close` cannot fail (see Left out).

## Model

| member | source | states |
|---|---|---|
| Version.ParseInt | app/activity.py:316 | `int()` on a version component accepts exactly an optional sign followed by decimal digits; an unsigned literal's value is its decimal value |
| Version.VersionParts | app/activity.py:315 | the first component is the version token up to its first dot (all of it when it has none); the second, present exactly when the token has a dot, is the text after that dot up to the next dot or the end; no component contains a space or a dot |
| Version.ParseParts | app/activity.py:316 | the tuple is produced exactly when every component parses, has one integer per component in order, and otherwise reports the first component `int()` refuses, every earlier one having parsed |
| Version.ParseVersion | app/activity.py:301-317 | a parsed version has one or two components, two exactly when the version token has a dot, and parsing succeeds exactly when every component is an integer literal |
| Version.MajorMinorRoundTrip | app/activity.py:315-316 | any reply `"<major>.<minor>"` followed by nothing, a further `.component` or a space-separated suffix parses to `(major, minor)` |
| Version.MajorOnlyRoundTrip | app/activity.py:315-316 | a reply `"<major>"` followed by nothing or a space-separated suffix parses to the one-element tuple `(major,)` |
| Version.DebianVersionExample | app/activity.py:315-316 | the reply `"12.4 (Debian 12.4-1)"` parses to `(12, 4)` |
| Version.PatchVersionExample | app/activity.py:315-316 | the reply `"9.6.3"` keeps only the first two components: `(9, 6)` |
| Version.MajorOnlyExample | app/activity.py:315-316 | the reply `"10"` parses to `(10,)` |
| Version.BetaVersionExample | app/activity.py:315-316 | the pre-release reply `"10beta1"` makes `int()` raise on the component `"10beta1"` |
| Version.NonIntegerMajorRaises | app/activity.py:315-316 | whenever the first component is not an integer literal, parsing fails and names that component |
| Version.LessIrreflexive | app/activity.py:136-141 | Python's tuple `<` is irreflexive |
| Version.LessTransitive | app/activity.py:136-141 | Python's tuple `<` (lexicographic, a proper prefix is smaller) is transitive |
| Version.LessTotal | app/activity.py:136-141 | any two versions are equal or ordered one way or the other |
| Version.AtLeastTransitive | app/activity.py:136-141 | tuple `>=` is transitive |
| Version.Less | app/activity.py:136-138 | Python's tuple `<`: nothing is less than the empty tuple, and a proper prefix is less than the longer tuple |
| Version.AtLeast | app/activity.py:136-138 | Python's tuple `>=` holds exactly when the tuples are equal or the right one is less |
| Version.LessAsymmetric | app/activity.py:136-138 | no two tuples are each less than the other |
| Activity.ActivityDialect | app/activity.py:129-141 | two-component versions from 9.6 up take the modern dialect, from 9.2 up to 9.5 the middle one, below 9.2 the legacy one; a one-component version is modern above 9 and legacy otherwise |
| Activity.AtLeastRelease | app/activity.py:136-138 | `version >= (major, minor)` unfolded for one- and two-component versions and the empty tuple |
| Activity.QueryDialectOf | app/activity.py:243-255 | the `state`/`query` columns are used from 9.2 up (or a one-component version above 9), `current_query` below |
| Activity.QueryDialectAgrees | app/activity.py:136-138 | the query-text dialect is the legacy one exactly when the activity dialect is legacy |
| Activity.ActivityDialectMonotonic | app/activity.py:129-141 | a newer version never selects an older activity dialect |
| Activity.NullIfEmpty | app/activity.py:156 | `nullif(client_hostname, '')` is NULL exactly for NULL or the empty string, and is the hostname otherwise |
| Activity.WaitingEvent | app/activity.py:164-166 | `CASE WHEN waiting THEN 'Waiting' END` is `'Waiting'` exactly when `waiting` is true, NULL for false and NULL |
| Activity.LegacyState | app/activity.py:219-231 | the 9.1 state is `'active'` exactly when `current_query` does not start with `<IDLE>`, one of the three idle states for the three idle markers, and the raw text for any other `<IDLE>`-prefixed text |
| Activity.StateQueryText | app/activity.py:269-272 | from 9.2 the query text is returned exactly when `state = 'active'`, and is NULL otherwise |
| Activity.CurrentQueryText | app/activity.py:291-294 | up to 9.1 an `<IDLE>`-prefixed `current_query` yields NULL, and any other text, NULL included, is returned unchanged |
| Activity.QueryTextOnlyWhenActive | app/activity.py:219-231 | in both dialects a query text is shown exactly for backends whose state is `'active'` |
| Activity.ModernRow | app/activity.py:173-199 | a 9.6+ row keeps `state`, `state_change` and `wait_event`, normalises the hostname with `nullif`, and copies the other eight selected columns unchanged |
| Activity.MidRow | app/activity.py:143-171 | a 9.2–9.5 row derives `wait_event` from `waiting`, normalises the hostname, and copies the pid, state, state change and the other eight selected columns unchanged |
| Activity.LegacyRow | app/activity.py:201-241 | a 9.1 row takes its pid from `procpid`, derives its state from `current_query`, has no `state_change`, derives `wait_event` from `waiting`, keeps the hostname as is, and copies the other eight selected columns unchanged |
| Activity.DialectActivity | app/activity.py:143-241 | a dialect's query succeeds exactly when the view has its columns, fails with an undefined column otherwise, and maps every view row, in order, through that dialect's row mapping |
| Activity.HostnameNormalisation | app/activity.py:156 | from 9.2 no activity row has an empty hostname |
| Activity.LegacyRowsHaveStateNoStateChange | app/activity.py:219-233 | every 9.1 row has a state and no state change |
| Activity.QueryRows | app/activity.py:257-299 | each query-text dialect succeeds exactly on the views that have its columns and maps every backend to its pid and its query text |
| Activity.FetchOne | app/activity.py:276-277 | `fetchone()` returns the first row with the pid, and nothing exactly when no row has it |
| Activity.PostgresActivityManager.constructor | app/activity.py:55-79 | a new manager holds its parameters, no connection, no version, and has opened nothing |
| Activity.PostgresActivityManager.Close | app/activity.py:98-105 | the connection is cleared and, if there was one, closed once; closing twice closes once |
| Activity.ConnectLive | app/activity.py:107-122 | after `connect` exactly the new connection is live when the handshake succeeds, and none when it fails, whatever was live before |
| Activity.PostgresActivityManager.Open | app/activity.py:107-122 | an existing connection is closed first; a refused handshake leaves no connection and reports the failure; otherwise a new connection announcing `PostgreSQL Activity` is opened and recorded |
| Activity.PostgresActivityManager.Connect | app/activity.py:107-127 | the history and the connection are those of `Open`; after a refused handshake the version is unchanged; otherwise the version is replaced by the parsed reply, or kept, with the error reported, when `int()` raises |
| Activity.PostgresActivityManager.FetchActivity | app/activity.py:129-141 | without a version the comparison raises; without a connection the cursor raises; otherwise the result is the activity of the dialect the version selects |
| Activity.PostgresActivityManager.FetchQuery | app/activity.py:243-299 | the same errors first; then the query text of the first backend with the pid, and the error of `row.query` on `None` when no backend has it |
| Threads.CallResultCallbacks | app/threads.py:157-167 | the callbacks are called front first, each once with the result, and exactly the ones that raise are logged, in order |
| Threads.CallErrorCallbacks | app/threads.py:145-155 | the callbacks are called front first, each once with the error, and exactly the ones that raise are logged, in order |
| Threads.DrainResultCallbacks | app/threads.py:157-167 | calling a pending list with a result adds exactly that list to the callbacks called with a result, and none to those called with an error |
| Threads.DrainErrorCallbacks | app/threads.py:145-155 | calling a pending list with an error adds exactly that list to the callbacks called with an error, and none to those called with a result |
| Threads.WorkerFuture.constructor | app/threads.py:84-114 | a new future has neither outcome, no callbacks and has called nothing |
| Threads.WorkerFuture.AddErrorCallback | app/threads.py:116-129 | the callback is registered; if an error is set it is called at once, alone, with that error; otherwise it waits; every registered callback is called once or pending |
| Threads.WorkerFuture.AddResultCallback | app/threads.py:131-143 | the callback is registered; if the result is set it is called at once, alone, with that result; otherwise it waits |
| Threads.WorkerFuture.InvokeErrorCallbacks | app/threads.py:145-155 | with an error set, every pending error callback is called once, in order, and none remains pending |
| Threads.WorkerFuture.InvokeResultCallbacks | app/threads.py:157-167 | with the result set, every pending result callback is called once, in order, and none remains pending |
| Threads.WorkerFuture.SetError | app/threads.py:169-176 | the error is stored and the pending error callbacks are called with it in registration order; a second call overwrites it and calls nothing new; the result side is untouched |
| Threads.WorkerFuture.SetResult | app/threads.py:178-186 | the result is stored and the pending result callbacks are called with it in registration order; a second call overwrites it and calls nothing new; the error side is untouched |
| Threads.RunSignal | app/threads.py:61-75 | `run` emits a result exactly when the function returned, carrying its value, and otherwise an error carrying the exception and its traceback |
| Threads.Worker.constructor | app/threads.py:32-48 | a new worker has no future connected to its signals |
| Threads.Worker.MakeFuture | app/threads.py:50-59 | a fresh, empty future is connected to the worker's signals |
| Threads.Deliver | app/threads.py:57-58 | a result signal reaches `set_result` and an error signal reaches `set_error`, with the effect each promises on the future |
| Threads.Worker.Run | app/threads.py:61-75 | every connected future receives the one emitted signal: its outcome is set and its pending callbacks on that side are called once in order, the other side unchanged |
| ActivityGui.FieldDatum | app/gui/activity.py:717-722 | the datum in each of the 13 columns is the row's field at that position of `ActivityRow._fields`, NULL as no value |
| ActivityGui.ColumnTitles | app/gui/activity.py:680-683 | one title per field, in field order, taken from `ACTIVITY_HEADER` with the field name as fallback |
| ActivityGui.ColumnTitlesFromHeader | app/gui/activity.py:680-683 | every field has a header entry, so every title comes from `ACTIVITY_HEADER` |
| ActivityGui.SetDataNoticesAsWrittenOverreach | app/gui/activity.py:778-783 | as written, each inclusive range names one row more than exists and never fits the table |
| ActivityGui.SetDataNoticesAsWrittenExample | app/gui/activity.py:778 | replacing two rows by none announces the removal of three rows and the insertion of one |
| ActivityGui.SetDataNoticesExact | app/gui/activity.py:771-785 | the corrected notices remove exactly the old rows and insert exactly the new ones, each range inside the table, removal first, and none for an empty side |
| ActivityGui.ActivityTableModel.constructor | app/gui/activity.py:666-692 | a new table model has the `ActivityRow` fields as columns, their titles, and no rows |
| ActivityGui.ActivityTableModel.ColumnCount | app/gui/activity.py:694-702 | there are 13 columns, one per `ActivityRow` field |
| ActivityGui.ActivityTableModel.RowCount | app/gui/activity.py:761-769 | the row count is the number of rows held |
| ActivityGui.ActivityTableModel.GetData | app/gui/activity.py:724-730 | returns the rows last set |
| ActivityGui.ActivityTableModel.GetFields | app/gui/activity.py:732-739 | returns the `ActivityRow` field names in order |
| ActivityGui.ActivityTableModel.HeaderData | app/gui/activity.py:741-759 | a title is returned exactly for the horizontal header's display role, and it is the field's `ACTIVITY_HEADER` entry; any other request gets nothing, whatever the section |
| ActivityGui.ActivityTableModel.Data | app/gui/activity.py:704-722 | a datum is returned exactly for the display role, and it is the row's field for the column |
| ActivityGui.ActivityTableModel.SetData | app/gui/activity.py:771-785 | the rows are replaced wholesale and the corrected removal and insertion notices are emitted |
| ActivityGui.FindRowOfPid | app/gui/activity.py:537-545 | finds the first row with the selected pid, or none exactly when no row has it |
| ActivityGui.Title | app/gui/activity.py:581-582 | without a non-empty prefix the title is the base title; a prefix starts the title |
| ActivityGui.TitleCases | app/gui/activity.py:574-585 | the title is the base title alone without a prefix, the prefix alone with an empty base title, and `prefix - base` otherwise |
| ActivityGui.DisplayedQuery | app/gui/activity.py:649-651 | a NULL query text is shown as the empty string, any other text as is |
| ActivityGui.ActivityController.constructor | app/gui/activity.py:126-193 | no refresh task or timer, an empty table, nothing selected and the base title shown |
| ActivityGui.ActivityController.CancelRefreshTask | app/gui/activity.py:195-202 | the task is forgotten and cancelled if there was one; nothing happens otherwise |
| ActivityGui.ActivityController.CancelRefreshTimer | app/gui/activity.py:204-211 | the timer is forgotten and cancelled if there was one; nothing happens otherwise |
| ActivityGui.ActivityController.StopRefresh | app/gui/activity.py:634-640 | afterwards neither a task nor a timer exists, and whatever existed was cancelled |
| ActivityGui.ActivityController.StartRefreshTask | app/gui/activity.py:608-616 | while a task exists nothing changes; otherwise exactly one new task starts |
| ActivityGui.ActivityController.StartRefreshTimer | app/gui/activity.py:618-632 | while a timer is pending nothing changes; otherwise exactly one new timer is armed |
| ActivityGui.ActivityController.StartRefresh | app/gui/activity.py:587-606 | nothing while a task runs; a delayed refresh arms at most one timer; an immediate one cancels any pending timer and starts a task |
| ActivityGui.ActivityController.OnRefreshTimerDone | app/gui/activity.py:431-441 | the firing timer is the pending one; it is cleared and exactly one task starts |
| ActivityGui.ActivityController.SelectedPid | app/gui/activity.py:278-295 | a pid is known exactly when a row is selected, and it is the selected row's pid |
| ActivityGui.ActivityController.PopulateTable | app/gui/activity.py:521-545 | the rows are replaced and the first row with the previously selected pid is selected; if no row has it, or nothing was selected, nothing is selected |
| ActivityGui.ActivityController.OnRefreshTaskDone | app/gui/activity.py:547-572 | a cancelled task changes nothing; otherwise the running task is cleared; a failed fetch arms nothing and leaves the table, its notices and the selection; a successful one fills the table with its notices, reselects the first row with the previously selected pid (or nothing) and arms exactly one timer; the query pane and the title are untouched |
| ActivityGui.ActivityController.SetTitle | app/gui/activity.py:574-585 | the window title is the join of the prefix and the base title |
| ActivityGui.ActivityController.UpdateQueryText | app/gui/activity.py:642-656 | a failed fetch changes nothing; otherwise the pane shows the query, or "" for NULL, and is only written when the text differs |

## Findings

| source | as written | input that shows it | evidently intended | confidence | as-written member | corrected member |
|---|---|---|---|---|---|---|
| app/gui/activity.py:778 and app/gui/activity.py:783 | `set_data` passes `len(self.__data)` and `len(data)` as the last row of `beginRemoveRows`/`beginInsertRows`, whose range includes its last row | two rows replaced by none: the removal announces rows 0 to 2 (three rows) and the insertion announces row 0 of an empty table | announce rows 0 to count−1, and nothing for an empty side | high (Qt documents the range as inclusive); not executed | ActivityGui.SetDataNoticesAsWrittenOverreach | ActivityGui.SetDataNoticesExact |

## Left out

- Sockets, SQL execution, Qt widgets, signals across threads and the asyncio loop are not modelled. Their outcomes are parameters, or recorded state such as notices, cancelled handles and the call log.
- `ORDER BY backend_start`: the activity rows keep the view's row order. The model assumes the server returns that order.
- `cancel_backend` and `terminate_backend` (app/activity.py:81-96 and app/activity.py:319-334): each is a single `SELECT` whose boolean is returned unchanged. They have no logic to model.
- `PostgresActivityManager.Close`: it cannot fail here. In the source, an error raised by `conn.close()` propagates after the connection field has already been cleared.
- `ParseInt`: it accepts only an optional sign and ASCII digits. Python's `int()` also allows surrounding whitespace, underscores between digits and other Unicode decimal digits. The contract gives the value of unsigned literals only, which is the form versions have.
- `ActivityTableModel.Data`: timestamps are returned as values, without the `strftime` formatting. It requires an existing row and column, as Qt asks only about existing cells. An out-of-range index raising `IndexError` (or a negative one counting from the end) is not modelled.
- `Worker.Run`: signals to each connected future are delivered immediately, in connection order. Qt's queued delivery to the receiving thread, and the thread pool running the worker, are not modelled. The worker's function is a parameter giving its outcome.
- `WorkerFuture`: callbacks are opaque. A callback that registers more callbacks, or sets the future while it is being drained, is not modelled. The drain works on the pending list as it stood.
- `ActivityTableModel.SetData`: it emits the corrected notices of `SetDataNotices` (see Findings). As written, `set_data` emits `SetDataNoticesAsWritten`: a removal of rows 0 to the old count and an insertion of rows 0 to the new count, both inclusive. `ActivityController.PopulateTable` and `ActivityController.OnRefreshTaskDone` inherit the corrected notices.
- `ActivityController.SelectedPid`: the selection is held as a row index of the table model. The sorting proxy's index mapping and multi-row selections are not modelled.
- The window's action handlers are not modelled:
  - connect (app/gui/activity.py:306-346), which calls `StopRefresh`, clears the table and the query pane, resets the title, reconnects and then sets the title and calls `StartRefresh`, and disconnect (app/gui/activity.py:348-362), which does the same up to the reconnection and closes the connection instead;
  - refresh, cancel, kill and selection changed;
  - `run()` window setup;
  - enabling and disabling actions.
- Logging, app/gui/connect.py, app/gui/util.py and app/main.py are not part of this model.
