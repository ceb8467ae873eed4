/**
 * The PostgreSQL activity manager (app/activity.py): the activity rows, the
 * three SQL dialects of `pg_stat_activity` and the manager that owns one
 * connection and the server version detected on it.
 *
 * The database itself is not modelled: a query's input is the content of
 * `pg_stat_activity` as the server would give it, one of three shapes
 * (`StatView`), and the model computes what the dialect's SELECT list
 * (its `CASE` and `nullif` expressions) makes of each row.
 */
module Activity {
  import opened Wrappers
  import opened Version

  /** A `timestamp with time zone` value; the model only carries it. */
  type Timestamp = int

  /** Identity of one live database connection (a new `aiopg.Connection` object). */
  type ConnId = nat

  /** The parameters of one connection attempt (`PostgresConnectionParams`). */
  datatype ConnectionParams = ConnectionParams(
    database: string,
    host: string,
    password: string,
    port: int,
    user: string)

  /** One backend process as the activity table shows it (`ActivityRow`). */
  datatype ActivityRow = ActivityRow(
    applicationName: Option<string>,
    backendStart: Timestamp,
    clientAddr: Option<string>,
    clientHostname: Option<string>,
    clientPort: Option<int>,
    datname: string,
    pid: int,
    queryStart: Timestamp,
    state: Option<string>,
    stateChange: Option<Timestamp>,
    usename: string,
    waitEvent: Option<string>,
    xactStart: Option<Timestamp>)

  /** The field names of `ActivityRow`, in declaration order (`ActivityRow._fields`). */
  const ActivityFields: seq<string> := [
    "application_name", "backend_start", "client_addr", "client_hostname",
    "client_port", "datname", "pid", "query_start", "state", "state_change",
    "usename", "wait_event", "xact_start"]

  /** Column header of each activity field (`ACTIVITY_HEADER`). */
  const ActivityHeader: map<string, string> := map[
    "pid" := "PID",
    "application_name" := "Application",
    "datname" := "Database",
    "backend_start" := "Backend Start",
    "client_addr" := "Client Address",
    "client_hostname" := "Client Host",
    "client_port" := "Client Port",
    "query_start" := "Query Start",
    "state" := "State",
    "state_change" := "State Change",
    "usename" := "User Name",
    "wait_event" := "Wait Event",
    "xact_start" := "Transaction Start"]

  /** The `application_name` every connection announces to the server. */
  const AppName := "PostgreSQL Activity"

  /** The marker a 9.1-or-earlier server puts in `current_query` for an idle backend. */
  const IdleMarker := "<IDLE>"

  // ---------------------------------------------------------------------
  // The server's pg_stat_activity, in each of its three shapes
  // ---------------------------------------------------------------------

  /** A row of `pg_stat_activity` on a 9.6-or-later server (the columns read). */
  datatype ModernStatRow = ModernStatRow(
    applicationName: Option<string>,
    backendStart: Timestamp,
    clientAddr: Option<string>,
    clientHostname: Option<string>,
    clientPort: Option<int>,
    datname: string,
    pid: int,
    query: Option<string>,
    queryStart: Timestamp,
    state: Option<string>,
    stateChange: Option<Timestamp>,
    usename: string,
    waitEvent: Option<string>,
    xactStart: Option<Timestamp>)

  /** A row of `pg_stat_activity` on a 9.2 to 9.5 server: a `waiting` flag, no `wait_event`. */
  datatype MidStatRow = MidStatRow(
    applicationName: Option<string>,
    backendStart: Timestamp,
    clientAddr: Option<string>,
    clientHostname: Option<string>,
    clientPort: Option<int>,
    datname: string,
    pid: int,
    query: Option<string>,
    queryStart: Timestamp,
    state: Option<string>,
    stateChange: Option<Timestamp>,
    usename: string,
    waiting: Option<bool>,
    xactStart: Option<Timestamp>)

  /**
   * A row of `pg_stat_activity` on a 9.1-or-earlier server: `procpid` instead
   * of `pid`, `current_query` instead of `state` and `query`, no `state_change`.
   */
  datatype LegacyStatRow = LegacyStatRow(
    applicationName: Option<string>,
    backendStart: Timestamp,
    clientAddr: Option<string>,
    clientHostname: Option<string>,
    clientPort: Option<int>,
    currentQuery: Option<string>,
    datname: string,
    procpid: int,
    queryStart: Timestamp,
    usename: string,
    waiting: Option<bool>,
    xactStart: Option<Timestamp>)

  /** The content of `pg_stat_activity`, in the shape of the server's release. */
  datatype StatView =
    | ModernView(modernRows: seq<ModernStatRow>)
    | MidView(midRows: seq<MidStatRow>)
    | LegacyView(legacyRows: seq<LegacyStatRow>)

  /** What the manager's operations raise. */
  datatype ManagerError =
    | NoVersion                         // `None >= (9, 6)`: no version was ever detected (TypeError)
    | NoConnection                      // `None.cursor()`: the connection was closed (AttributeError)
    | UndefinedColumn                   // the dialect names a column the server's view lacks
    | NoSuchBackend(pid: int)           // `fetchone()` gave None and `row.query` raised (AttributeError)
    | ConnectFailed(reason: string)     // `aiopg.connect` raised
    | BadVersion(error: ParseError)     // `int()` raised on the server_version reply

  // ---------------------------------------------------------------------
  // Version dispatch
  // ---------------------------------------------------------------------

  /** The three `fetch_activity` queries. */
  datatype Dialect = Legacy | Mid | Modern

  /** The two `fetch_query` queries: by `state` (9.2 on) or by `current_query` (up to 9.1). */
  datatype QueryDialect = StateQuery | CurrentQuery

  /** Rank of a dialect, oldest first. */
  function DialectRank(d: Dialect): nat
  {
    match d
    case Legacy => 0
    case Mid => 1
    case Modern => 2
  }

  /** The query `fetch_activity` runs for a detected version (`app/activity.py:136-141`). */
  function ActivityDialect(version: seq<int>): (d: Dialect)
    ensures |version| == 2 ==>
      (d == Modern <==> version[0] > 9 || (version[0] == 9 && version[1] >= 6))
    ensures |version| == 2 ==>
      (d == Legacy <==> version[0] < 9 || (version[0] == 9 && version[1] < 2))
    ensures |version| == 1 ==> (d == Modern <==> version[0] > 9) && (d == Legacy <==> version[0] <= 9)
    ensures version == [] ==> d == Legacy
  {
    AtLeastRelease(version, 9, 6);
    AtLeastRelease(version, 9, 2);
    if AtLeast(version, [9, 6]) then Modern
    else if AtLeast(version, [9, 2]) then Mid
    else Legacy
  }

  /** `version >= (major, minor)` for the one- and two-number versions a server reports. */
  lemma AtLeastRelease(version: seq<int>, major: int, minor: int)
    ensures |version| == 2 ==>
      (AtLeast(version, [major, minor]) <==> version[0] > major || (version[0] == major && version[1] >= minor))
    ensures |version| == 1 ==> (AtLeast(version, [major, minor]) <==> version[0] > major)
    ensures version == [] ==> !AtLeast(version, [major, minor])
  {
    var release := [major, minor];
    if |version| >= 1 && version[0] == major {
      assert Less(version, release) == Less(version[1..], [minor]);
      if |version| == 1 {
        assert version[1..] == [];
        assert Less([], [minor]);
      } else if |version| == 2 {
        var rest := version[1..];
        assert rest == [version[1]];
        assert rest[1..] == [] && [minor][1..] == [];
        assert Less(rest, [minor]) == (version[1] < minor);
      }
    }
  }

  /** The query `fetch_query` runs for a detected version (`app/activity.py:252-255`). */
  function QueryDialectOf(version: seq<int>): (d: QueryDialect)
    ensures |version| == 2 ==> (d == StateQuery <==> version[0] > 9 || (version[0] == 9 && version[1] >= 2))
    ensures |version| == 1 ==> (d == StateQuery <==> version[0] > 9)
  {
    AtLeastRelease(version, 9, 2);
    if AtLeast(version, [9, 2]) then StateQuery else CurrentQuery
  }

  /** `fetch_query` and `fetch_activity` agree on which servers are 9.1 or earlier. */
  lemma QueryDialectAgrees(version: seq<int>)
    ensures QueryDialectOf(version) == CurrentQuery <==> ActivityDialect(version) == Legacy
  {
    if AtLeast(version, [9, 6]) {
      AtLeastRelease([9, 6], 9, 2);
      AtLeastTransitive(version, [9, 6], [9, 2]);
    }
  }

  /** A later server never gets an older activity dialect than an earlier one. */
  lemma ActivityDialectMonotonic(older: seq<int>, newer: seq<int>)
    requires AtLeast(newer, older)
    ensures DialectRank(ActivityDialect(older)) <= DialectRank(ActivityDialect(newer))
  {
    if AtLeast(older, [9, 6]) {
      AtLeastTransitive(newer, older, [9, 6]);
    }
    if AtLeast(older, [9, 2]) {
      AtLeastTransitive(newer, older, [9, 2]);
      if !AtLeast(newer, [9, 6]) {
        assert !AtLeast(older, [9, 6]) by {
          if AtLeast(older, [9, 6]) { AtLeastTransitive(newer, older, [9, 6]); }
        }
      }
    }
  }

  // ---------------------------------------------------------------------
  // The SELECT lists' CASE and nullif expressions
  // ---------------------------------------------------------------------

  /** `nullif(client_hostname, '')`. */
  function NullIfEmpty(hostname: Option<string>): (r: Option<string>)
    ensures r.None? <==> hostname.None? || hostname == Some("")
    ensures r.Some? ==> r == hostname && r.value != ""
  {
    if hostname == Some("") then None else hostname
  }

  /** `CASE WHEN waiting THEN 'Waiting' END`; a NULL flag is not true. */
  function WaitingEvent(waiting: Option<bool>): (r: Option<string>)
    ensures r.Some? <==> waiting == Some(true)
    ensures r.Some? ==> r.value == "Waiting"
  {
    if waiting == Some(true) then Some("Waiting") else None
  }

  /** The three `current_query` texts of an idle backend that have a 9.2 state name. */
  const IdleMarkers: set<string> := {"<IDLE>", "<IDLE> in transaction", "<IDLE> in transaction (aborted)"}

  /** `current_query` starts with the idle marker, as `LIKE` tests it (never for NULL). */
  predicate IdlePrefixed(currentQuery: Option<string>)
  {
    currentQuery.Some? && IdleMarker <= currentQuery.value
  }

  /**
   * The `state` the 9.1-or-earlier query synthesises from `current_query`
   * (`app/activity.py:219-231`): the three idle markers become the 9.2
   * state names, another `<IDLE>`-prefixed text passes through, and every
   * other query, NULL included, is `active`.
   */
  function LegacyState(currentQuery: Option<string>): (r: string)
    ensures r == "active" <==> !IdlePrefixed(currentQuery)
    ensures currentQuery == Some("<IDLE>") ==> r == "idle"
    ensures currentQuery == Some("<IDLE> in transaction") ==> r == "idle in transaction"
    ensures currentQuery == Some("<IDLE> in transaction (aborted)") ==> r == "idle in transaction (aborted)"
    ensures IdlePrefixed(currentQuery) && currentQuery.value !in IdleMarkers ==> r == currentQuery.value
  {
    if currentQuery == Some("<IDLE>") then "idle"
    else if currentQuery == Some("<IDLE> in transaction") then "idle in transaction"
    else if currentQuery == Some("<IDLE> in transaction (aborted)") then "idle in transaction (aborted)"
    else if IdlePrefixed(currentQuery) then
      assert currentQuery.value[0] == '<' != "active"[0];
      currentQuery.value
    else "active"
  }

  /** `CASE WHEN state = 'active' THEN query ELSE NULL END` (`app/activity.py:269-272`). */
  function StateQueryText(state: Option<string>, query: Option<string>): (r: Option<string>)
    ensures r.Some? ==> state == Some("active") && r == query
    ensures state == Some("active") ==> r == query
  {
    if state == Some("active") then query else None
  }

  /**
   * The 9.1 query text: NULL when `current_query` starts with the idle marker, else `current_query`
   * (`app/activity.py:291-294`).
   */
  function CurrentQueryText(currentQuery: Option<string>): (r: Option<string>)
    ensures r.Some? ==> r == currentQuery && !(IdleMarker <= r.value)
    ensures IdlePrefixed(currentQuery) ==> r.None?
    ensures !IdlePrefixed(currentQuery) ==> r == currentQuery
  {
    if IdlePrefixed(currentQuery) then None else currentQuery
  }

  /**
   * In both dialects the query text is shown exactly for the backends whose
   * state, as the activity table shows it, is `active`.
   */
  lemma QueryTextOnlyWhenActive(currentQuery: Option<string>, state: Option<string>, query: Option<string>)
    ensures CurrentQueryText(currentQuery).Some? ==> LegacyState(currentQuery) == "active"
    ensures LegacyState(currentQuery) == "active" ==> CurrentQueryText(currentQuery) == currentQuery
    ensures StateQueryText(state, query).Some? ==> state == Some("active")
    ensures state == Some("active") ==> StateQueryText(state, query) == query
  {
  }

  /** A row of the 9.6-or-later query (`app/activity.py:182-195`). */
  function ModernRow(s: ModernStatRow): (r: ActivityRow)
    ensures r.pid == s.pid && r.state == s.state && r.stateChange == s.stateChange
    ensures r.waitEvent == s.waitEvent
    ensures r.clientHostname == NullIfEmpty(s.clientHostname)
    ensures r.applicationName == s.applicationName && r.backendStart == s.backendStart
    ensures r.clientAddr == s.clientAddr && r.clientPort == s.clientPort && r.datname == s.datname
    ensures r.queryStart == s.queryStart && r.usename == s.usename && r.xactStart == s.xactStart
  {
    ActivityRow(s.applicationName, s.backendStart, s.clientAddr, NullIfEmpty(s.clientHostname),
      s.clientPort, s.datname, s.pid, s.queryStart, s.state, s.stateChange, s.usename,
      s.waitEvent, s.xactStart)
  }

  /** A row of the 9.2 to 9.5 query (`app/activity.py:152-167`). */
  function MidRow(s: MidStatRow): (r: ActivityRow)
    ensures r.pid == s.pid && r.state == s.state && r.stateChange == s.stateChange
    ensures r.waitEvent == Some("Waiting") <==> s.waiting == Some(true)
    ensures r.waitEvent.None? <==> s.waiting != Some(true)
    ensures r.clientHostname == NullIfEmpty(s.clientHostname)
    ensures r.applicationName == s.applicationName && r.backendStart == s.backendStart
    ensures r.clientAddr == s.clientAddr && r.clientPort == s.clientPort && r.datname == s.datname
    ensures r.queryStart == s.queryStart && r.usename == s.usename && r.xactStart == s.xactStart
  {
    ActivityRow(s.applicationName, s.backendStart, s.clientAddr, NullIfEmpty(s.clientHostname),
      s.clientPort, s.datname, s.pid, s.queryStart, s.state, s.stateChange, s.usename,
      WaitingEvent(s.waiting), s.xactStart)
  }

  /** A row of the 9.1-or-earlier query (`app/activity.py:210-237`). */
  function LegacyRow(s: LegacyStatRow): (r: ActivityRow)
    ensures r.pid == s.procpid
    ensures r.state == Some(LegacyState(s.currentQuery))
    ensures r.stateChange.None?
    ensures r.waitEvent == Some("Waiting") <==> s.waiting == Some(true)
    ensures r.waitEvent.None? <==> s.waiting != Some(true)
    ensures r.clientHostname == s.clientHostname
    ensures r.applicationName == s.applicationName && r.backendStart == s.backendStart
    ensures r.clientAddr == s.clientAddr && r.clientPort == s.clientPort && r.datname == s.datname
    ensures r.queryStart == s.queryStart && r.usename == s.usename && r.xactStart == s.xactStart
  {
    ActivityRow(s.applicationName, s.backendStart, s.clientAddr, s.clientHostname,
      s.clientPort, s.datname, s.procpid, s.queryStart, Some(LegacyState(s.currentQuery)), None,
      s.usename, WaitingEvent(s.waiting), s.xactStart)
  }

  /** Whether a dialect's activity query names only columns the view has. */
  predicate ActivityColumnsExist(d: Dialect, view: StatView)
  {
    match d
    case Modern => view.ModernView?
    case Mid => view.MidView?
    case Legacy => view.LegacyView?
  }

  /** A query's rows: one result row per view row, in the view's order. */
  function MapRows<T, U>(rows: seq<T>, f: T -> U): (r: seq<U>)
    ensures |r| == |rows| && forall i :: 0 <= i < |r| ==> r[i] == f(rows[i])
  {
    seq(|rows|, i requires 0 <= i < |rows| => f(rows[i]))
  }

  /**
   * The rows one activity query returns (`__fetch_activity_ge_96`,
   * `__fetch_activity_ge_92`, `__fetch_activity_le_91`): one activity row per
   * row of the view, in the view's order, or the error of a column the
   * server does not have.
   */
  function DialectActivity(d: Dialect, view: StatView): (r: Result<seq<ActivityRow>, ManagerError>)
    ensures r.Ok? <==> ActivityColumnsExist(d, view)
    ensures r.Err? ==> r.error == UndefinedColumn
    ensures r.Ok? && d == Modern ==>
      |r.value| == |view.modernRows| && forall i :: 0 <= i < |r.value| ==> r.value[i] == ModernRow(view.modernRows[i])
    ensures r.Ok? && d == Mid ==>
      |r.value| == |view.midRows| && forall i :: 0 <= i < |r.value| ==> r.value[i] == MidRow(view.midRows[i])
    ensures r.Ok? && d == Legacy ==>
      |r.value| == |view.legacyRows| && forall i :: 0 <= i < |r.value| ==> r.value[i] == LegacyRow(view.legacyRows[i])
  {
    match view
    case ModernView(rows) => if d == Modern then Ok(MapRows(rows, ModernRow)) else Err(UndefinedColumn)
    case MidView(rows) => if d == Mid then Ok(MapRows(rows, MidRow)) else Err(UndefinedColumn)
    case LegacyView(rows) => if d == Legacy then Ok(MapRows(rows, LegacyRow)) else Err(UndefinedColumn)
  }

  /** No 9.2-or-later activity row carries an empty host name; a 9.1 one may. */
  lemma HostnameNormalisation(d: Dialect, view: StatView)
    requires DialectActivity(d, view).Ok?
    ensures d != Legacy ==> forall row :: row in DialectActivity(d, view).value ==> row.clientHostname != Some("")
  {
  }

  /** A 9.1-or-earlier activity row always has a state and never a state change. */
  lemma LegacyRowsHaveStateNoStateChange(view: StatView)
    requires DialectActivity(Legacy, view).Ok?
    ensures forall row :: row in DialectActivity(Legacy, view).value ==> row.state.Some? && row.stateChange.None?
  {
  }

  /** One row of the `fetch_query` result: the backend's pid and its `query` column. */
  datatype QueryRow = QueryRow(pid: int, query: Option<string>)

  /** The 9.2-or-later `fetch_query` row of a 9.6-or-later backend. */
  function ModernQueryRow(s: ModernStatRow): QueryRow
  {
    QueryRow(s.pid, StateQueryText(s.state, s.query))
  }

  /** The 9.2-or-later `fetch_query` row of a 9.2 to 9.5 backend. */
  function MidQueryRow(s: MidStatRow): QueryRow
  {
    QueryRow(s.pid, StateQueryText(s.state, s.query))
  }

  /** The 9.1-or-earlier `fetch_query` row of a backend. */
  function LegacyQueryRow(s: LegacyStatRow): QueryRow
  {
    QueryRow(s.procpid, CurrentQueryText(s.currentQuery))
  }

  /**
   * The rows of a `fetch_query` SELECT before its WHERE clause, or the error
   * of a column the server does not have.
   */
  function QueryRows(d: QueryDialect, view: StatView): (r: Result<seq<QueryRow>, ManagerError>)
    ensures r.Ok? <==> (d == StateQuery <==> !view.LegacyView?)
    ensures r.Err? ==> r.error == UndefinedColumn
    ensures r.Ok? && view.ModernView? ==> (
      && |r.value| == |view.modernRows|
      && forall i :: 0 <= i < |r.value| ==>
           r.value[i] == QueryRow(view.modernRows[i].pid, StateQueryText(view.modernRows[i].state, view.modernRows[i].query)))
    ensures r.Ok? && view.MidView? ==> (
      && |r.value| == |view.midRows|
      && forall i :: 0 <= i < |r.value| ==>
           r.value[i] == QueryRow(view.midRows[i].pid, StateQueryText(view.midRows[i].state, view.midRows[i].query)))
    ensures r.Ok? && view.LegacyView? ==> (
      && |r.value| == |view.legacyRows|
      && forall i :: 0 <= i < |r.value| ==>
           r.value[i] == QueryRow(view.legacyRows[i].procpid, CurrentQueryText(view.legacyRows[i].currentQuery)))
  {
    match view
    case ModernView(rows) => if d == StateQuery then Ok(MapRows(rows, ModernQueryRow)) else Err(UndefinedColumn)
    case MidView(rows) => if d == StateQuery then Ok(MapRows(rows, MidQueryRow)) else Err(UndefinedColumn)
    case LegacyView(rows) => if d == StateQuery then Err(UndefinedColumn) else Ok(MapRows(rows, LegacyQueryRow))
  }

  /**
   * The `WHERE` clause on the pid followed by `fetchone()`: the first row for the
   * pid, or None when the backend is not there.
   */
  function FetchOne(rows: seq<QueryRow>, pid: int): (r: Option<QueryRow>)
    ensures r.Some? ==> r.value in rows && r.value.pid == pid
    ensures r.None? <==> forall i :: 0 <= i < |rows| ==> rows[i].pid != pid
    ensures r.Some? ==> exists i :: (0 <= i < |rows| && rows[i] == r.value &&
      forall j :: 0 <= j < i ==> rows[j].pid != pid)
  {
    if rows == [] then None
    else if rows[0].pid == pid then Some(rows[0])
    else
      var rest := FetchOne(rows[1..], pid);
      assert rest.Some? ==> exists i :: (0 <= i < |rows| && rows[i] == rest.value &&
        forall j :: 0 <= j < i ==> rows[j].pid != pid) by {
        if rest.Some? {
          var k :| 0 <= k < |rows[1..]| && rows[1..][k] == rest.value &&
            forall j :: 0 <= j < k ==> rows[1..][j].pid != pid;
          assert rows[k + 1] == rest.value;
          assert forall j :: 0 <= j < k + 1 ==> rows[j].pid != pid by {
            forall j | 0 <= j < k + 1 ensures rows[j].pid != pid {
              if j > 0 { assert rows[j] == rows[1..][j - 1]; }
            }
          }
        }
      }
      rest
  }

  // ---------------------------------------------------------------------
  // The manager
  // ---------------------------------------------------------------------

  /** What the manager does to the outside world: connections opened and closed. */
  datatype ConnEvent =
    | Opened(conn: ConnId, params: ConnectionParams, applicationName: string)
    | Closed(conn: ConnId)

  /** The connections an event history leaves open. */
  function Live(events: seq<ConnEvent>): set<ConnId>
  {
    if events == [] then {}
    else
      var before := Live(events[..|events| - 1]);
      match events[|events| - 1]
      case Opened(c, _, _) => before + {c}
      case Closed(c) => before - {c}
  }

  /** At no point of the history were two connections open at once. */
  ghost predicate NeverTwoLive(events: seq<ConnEvent>)
  {
    forall k :: 0 <= k <= |events| ==> |Live(events[..k])| <= 1
  }

  /** Extending a history that never had two live connections keeps it so, if its end has at most one. */
  lemma NeverTwoLiveExtend(events: seq<ConnEvent>, e: ConnEvent)
    requires NeverTwoLive(events)
    requires |Live(events + [e])| <= 1
    ensures NeverTwoLive(events + [e])
  {
    var ext := events + [e];
    forall k | 0 <= k <= |ext| ensures |Live(ext[..k])| <= 1 {
      if k <= |events| {
        assert ext[..k] == events[..k];
      } else {
        assert ext[..k] == ext;
      }
    }
  }

  /** Opening a fresh connection when none is live leaves exactly that one live. */
  lemma OpenFresh(events: seq<ConnEvent>, e: ConnEvent, nextConn: ConnId)
    requires e.Opened? && e.conn == nextConn
    requires Live(events) == {} && NeverTwoLive(events)
    requires forall i :: 0 <= i < |events| ==> events[i].conn < nextConn
    ensures Live(events + [e]) == {nextConn}
    ensures NeverTwoLive(events + [e])
    ensures forall i :: 0 <= i < |events + [e]| ==> (events + [e])[i].conn < nextConn + 1
  {
    assert (events + [e])[..|events|] == events;
    NeverTwoLiveExtend(events, e);
  }

  /** The result of `connect`. */
  datatype Handshake = Accepted | Refused(reason: string)

  /** The event `close` records for the connection it finds, if any. */
  function ClosingEvents(connection: Option<ConnId>): seq<ConnEvent>
  {
    if connection.Some? then [Closed(connection.value)] else []
  }

  /**
   * The history after `connect`: the current connection, if any, is closed,
   * then a new one is opened with identity `nextConn` when the handshake is
   * accepted.
   */
  function ConnectEvents(events: seq<ConnEvent>, connection: Option<ConnId>, nextConn: ConnId,
                         params: ConnectionParams, handshake: Handshake): seq<ConnEvent>
  {
    events + ClosingEvents(connection) + (if handshake.Accepted? then [Opened(nextConn, params, AppName)] else [])
  }

  /**
   * After `connect` exactly the new connection is live when the handshake
   * was accepted, and none when it was refused, whatever was live before.
   */
  lemma ConnectLive(events: seq<ConnEvent>, connection: Option<ConnId>, nextConn: ConnId,
                    params: ConnectionParams, handshake: Handshake)
    requires Live(events) == OptionSet(connection)
    ensures Live(ConnectEvents(events, connection, nextConn, params, handshake))
      == if handshake.Accepted? then {nextConn} else {}
  {
    var closed := events + ClosingEvents(connection);
    assert Live(closed) == {} by {
      if connection.Some? {
        assert closed[..|closed| - 1] == events;
      } else {
        assert closed == events;
      }
    }
    if handshake.Accepted? {
      var reopened := closed + [Opened(nextConn, params, AppName)];
      assert reopened[..|reopened| - 1] == closed;
    } else {
      assert ConnectEvents(events, connection, nextConn, params, handshake) == closed;
    }
  }

  /**
   * `PostgresActivityManager`: at most one connection, and the version
   * detected on the last connection whose version query succeeded.
   */
  class PostgresActivityManager {
    const params: ConnectionParams
    var connection: Option<ConnId>
    var version: Option<seq<int>>
    /** Identity the next opened connection gets. */
    var nextConn: ConnId
    /** Every connection opened and closed, in order. */
    var events: seq<ConnEvent>

    ghost predicate Valid()
      reads this
    {
      && Live(events) == OptionSet(connection)
      && (forall i :: 0 <= i < |events| ==> events[i].conn < nextConn)
      && (connection.Some? ==> connection.value < nextConn)
      && NeverTwoLive(events)
    }

    constructor (params: ConnectionParams)
      ensures Valid()
      ensures this.params == params && connection.None? && version.None? && events == []
    {
      this.params := params;
      connection := None;
      version := None;
      nextConn := 0;
      events := [];
    }

    /**
     * `close`: swap the connection out, then close it; a manager without a
     * connection is left alone, so closing twice closes once.
     */
    method Close()
      requires Valid()
      modifies this`connection, this`events
      ensures Valid()
      ensures connection.None? && version == old(version) && nextConn == old(nextConn)
      ensures events == old(events) + (if old(connection).Some? then [Closed(old(connection).value)] else [])
    {
      var conn := connection;
      connection := None;
      if conn.Some? {
        events := events + [Closed(conn.value)];
        assert Live(events) == Live(old(events)) - {conn.value};
        NeverTwoLiveExtend(old(events), Closed(conn.value));
      }
    }

    /**
     * The first half of `connect`: close any connection, then open a new
     * one announcing `AppName`. `handshake` is the outcome of the network
     * and authentication exchange; a failed one leaves no connection.
     */
    method Open(handshake: Handshake) returns (r: Result<(), ManagerError>)
      requires Valid()
      modifies this`connection, this`events, this`nextConn
      ensures Valid()
      ensures events == ConnectEvents(old(events), old(connection), old(nextConn), params, handshake)
      ensures handshake.Refused? ==> r == Err(ConnectFailed(handshake.reason)) && connection.None?
      ensures handshake.Accepted? ==> r == Ok(()) && connection == Some(old(nextConn))
    {
      ghost var closed := old(events) + ClosingEvents(connection);
      if connection.Some? {
        Close();
      } else {
        assert events == closed;
      }
      if handshake.Refused? {
        assert closed == ConnectEvents(old(events), old(connection), old(nextConn), params, handshake);
        return Err(ConnectFailed(handshake.reason));
      }
      var conn := nextConn;
      var openEvent := Opened(conn, params, AppName);
      OpenFresh(events, openEvent, conn);
      events := events + [openEvent];
      nextConn := nextConn + 1;
      connection := Some(conn);
      r := Ok(());
    }

    /**
     * `connect`: open a new connection (`Open`), then ask its version.
     * `serverVersion` is the reply to `SHOW server_version`. A failed
     * handshake leaves no connection and the version as it was; a reply
     * `int()` refuses leaves the new connection open and the version as it
     * was.
     */
    method Connect(handshake: Handshake, serverVersion: string) returns (r: Result<(), ManagerError>)
      requires Valid()
      modifies this`connection, this`events, this`nextConn, this`version
      ensures Valid()
      ensures events == ConnectEvents(old(events), old(connection), old(nextConn), params, handshake)
      ensures handshake.Refused? ==>
        r == Err(ConnectFailed(handshake.reason)) && connection.None? && version == old(version)
      ensures handshake.Accepted? ==> connection == Some(old(nextConn))
      ensures handshake.Accepted? && ParseVersion(serverVersion).Ok? ==>
        r == Ok(()) && version == Some(ParseVersion(serverVersion).value)
      ensures handshake.Accepted? && ParseVersion(serverVersion).Err? ==>
        r == Err(BadVersion(ParseVersion(serverVersion).error)) && version == old(version)
    {
      r := Open(handshake);
      if r.Err? {
        return;
      }
      var parsed := ParseVersion(serverVersion);
      if parsed.Ok? {
        version := Some(parsed.value);
      } else {
        r := Err(BadVersion(parsed.error));
      }
    }

    /**
     * `fetch_activity`: run the query of the detected version's dialect
     * against the server's view.
     */
    method FetchActivity(view: StatView) returns (r: Result<seq<ActivityRow>, ManagerError>)
      ensures version.None? ==> r == Err(NoVersion)
      ensures version.Some? && connection.None? ==> r == Err(NoConnection)
      ensures version.Some? && connection.Some? ==> r == DialectActivity(ActivityDialect(version.value), view)
      ensures r.Ok? ==> ActivityColumnsExist(ActivityDialect(version.value), view)
    {
      if version.None? {
        return Err(NoVersion);
      }
      var dialect := ActivityDialect(version.value);
      if connection.None? {
        return Err(NoConnection);
      }
      r := DialectActivity(dialect, view);
    }

    /**
     * `fetch_query`: the query text of backend `pid` when it is active, None
     * when it is not, and the AttributeError of `row.query` when no backend
     * has that pid.
     */
    method FetchQuery(pid: int, view: StatView) returns (r: Result<Option<string>, ManagerError>)
      ensures version.None? ==> r == Err(NoVersion)
      ensures version.Some? && connection.None? ==> r == Err(NoConnection)
      ensures version.Some? && connection.Some? && QueryRows(QueryDialectOf(version.value), view).Err? ==>
        r == Err(QueryRows(QueryDialectOf(version.value), view).error)
      ensures version.Some? && connection.Some? && QueryRows(QueryDialectOf(version.value), view).Ok? ==>
        var found := FetchOne(QueryRows(QueryDialectOf(version.value), view).value, pid);
        r == if found.None? then Err(NoSuchBackend(pid)) else Ok(found.value.query)
    {
      if version.None? {
        return Err(NoVersion);
      }
      var dialect := QueryDialectOf(version.value);
      if connection.None? {
        return Err(NoConnection);
      }
      match QueryRows(dialect, view)
      case Err(e) =>
        r := Err(e);
      case Ok(rows) =>
        match FetchOne(rows, pid)
        case None =>
          r := Err(NoSuchBackend(pid));
        case Some(row) =>
          r := Ok(row.query);
    }
  }
}
