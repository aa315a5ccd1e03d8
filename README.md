# Connection lifecycle of AbstractDbWrapper, in Dafny

This project models the core of a small C# database access layer. The core is the abstract
base class `AbstractDbWrapper`, and the model covers:

- the connection state (`Closed`/`Open`);
- the idle timer `_timer`: null, running, stopped, closed by its own elapsed handler, or disposed;
- the `KeepAlive`, `EnableErrorLog` and `TimeoutPeriodMs` settings;
- the calls made to the error-logging delegate;
- the try/catch/finally envelope shared by every data operation: lazy-open, run the command,
  read the rows or take the affected count, report what was caught, and run the keep-alive
  check in the finally block.

The model has five files:

- `db.dfy` (module `Db`): the values exchanged with the driver and with the caller.
  - `Failure` names each place that throws.
  - `Outcome` says whether a statement ended normally or threw. `Completion` says whether an
    operation returned a value or raised an exception to its caller.
  - `Driver` says whether the next `Open` and `Close` succeed.
  - `Command` holds the SQL text and its bound parameters.
  - `ReaderOutcome` is the rows a reader yields and whether `Read` throws at the end.
    `NonQueryOutcome` is the affected count or a failure.
- `lifecycle.dfy` (module `Lifecycle`): the wrapper state as a value (`Wrapper`) and one
  function per lifecycle step. `Envelope` is the shared operation envelope. The lemmas cover
  the keep-alive policy, error-log gating, idempotent close, and the quirks of the
  lifecycle code listed below.
- `operations.dfy` (module `Operations`): the `SelectOne` and `SelectList` reading loops as
  functions (`ReadOne`, `Collect`), and the parameters `Insert` binds for an item
  (`ParamsForInsert`). Each data operation is written as the envelope around its body.
- `trace.dfy` (module `Trace`): any sequence of calls, setter assignments and timer events
  (`Replay`), with the invariants every such history keeps.
- `wrapper.dfy` (module `DbWrapper`): the class `AbstractDbWrapper`.
  - Its fields are updated in place by imperative methods, one per source method.
  - Each method is proved to produce exactly the state and result that the matching
    `Lifecycle` or `Operations` function gives.
  - `ReadOneRow` and `ReadRows` are the two `while (reader.Read())` loops, proved against
    `ReadOne` and `Collect`.

The driver is foreign code, so its behaviour is given as inputs:

- whether `Open` and `Close` succeed;
- a function from a command to what `ExecuteReader` or `ExecuteNonQuery` does;
- a row delegate `decode: R -> Option<T>`, where `None` means the delegate threw.

Whatever `default(T)` is, it is passed in as `dflt`. Exceptions become values: a statement
ends `Normal` or `Threw(f)`, and an operation `Returned(v)` or `Raised(f)`. An exception
thrown inside a `finally` block replaces the operation's result.

## Timer behaviour assumed

`System.Timers.Timer` is not part of this model. Its documented behaviour is taken as given:

- The constructor throws when the interval is not positive or is larger than `Int32.MaxValue`.
- `Stop` never throws.
- `Close` only stops the timer, so a later `Start` runs it again.
- `Start` on a disposed timer throws `ObjectDisposedException`.

Dereferencing a null `_timer` throws `NullReferenceException` (`NullTimer` in the model).

## Quirks of the code

The model reproduces these behaviours of `src/AbstractDbWrapper.cs` as they are written.

- **SelectOne with two or more rows.** The loop assigns `result` from the first row
  (:221) before the second iteration throws (:219), and `result` is returned after the
  catch (:242). So the first row's decoded value is returned and the second row is reported.
  In the same way, with at most one row, a `Read` that throws (:216) is reported and the
  value read so far is still returned (`Operations.SelectOneByRowCount`).
- **SelectList keeps what it has read.** When `Read` or the row delegate throws part-way,
  the rows already added are returned (:257-259, :279) (`Operations.SelectListAllRows`,
  `Operations.SelectListStopsAtDecodeFailure`).
- **Exceptions that reach the caller.**
  - `Insert(string)` and `Update(string)` call `LazyOpenConnection` before their `try`
    (:403, :433). An `Open` failure, or an exception from the timer, escapes. It is not
    reported and the keep-alive check does not run (`Lifecycle.OpenOutsideTryEscapes`).
  - `ResetTimer` dereferences `_timer` without a null check (:154). `_timer` is created
    only when `LazyOpenConnection` opens a Closed connection in keep-alive mode (:566-578).
    So in keep-alive mode `NullReferenceException` escapes from the `finally` block
    whenever `_timer` is still null:
    - when the first `Open` fails in an overload that opens inside its `try`
      (`Lifecycle.FirstOpenFailureRaisesNullTimer`);
    - after a public `OpenDbConnection()` made before any operation, which opens without
      creating the timer (`Lifecycle.ExplicitOpenLeavesTimerNull`). Each operation made
      while the connection stays open raises it, and no timer exists to close the
      connection. Only `CloseDbConnection`, `Dispose` or turning `KeepAlive` off closes it
      (`Lifecycle.OpenWithoutTimerRaises`);
    - on first use, when `Open` succeeds but `TimeoutPeriodMs` is not a valid timer
      interval, so `InitTimer` throws. The connection is left open
      (`Lifecycle.InvalidIntervalRaises`). Once a timer exists the period is not read
      again (:571-573).
  - When a timer already exists, `Dispose` disposes it (:609), so the next keep-alive
    operation never runs its body. `ObjectDisposedException` from `ResetTimer` reaches the
    caller whenever the open is inside the `try` or the driver lets the disposed connection
    open again (`Lifecycle.UseAfterDisposeRaises`). If no timer existed yet,
    `_timer?.Dispose()` does nothing, and the next keep-alive operation creates one as on
    first use.
- **No open at construction.** The constructors only build the connection object (:62).
  Nothing opens it until the first operation (`DbWrapper.AbstractDbWrapper.constructor`,
  `Trace.ReplayStaysClosedUntilUsed`).
- **Affected-row counts.** `ExecuteNonQuery` returns whatever the driver reports, `-1`
  included, and the model passes it through unchanged (`Operations.NonQueryCount`).

## Model

| member | source | states |
|---|---|---|
| `DbWrapper.AbstractDbWrapper.constructor` | src/AbstractDbWrapper.cs:50-63 | stores the server settings; KeepAlive is false, TimeoutPeriodMs is two minutes, error logging is off, the connection is Closed (not opened), there is no timer and nothing has been reported |
| `DbWrapper.AbstractDbWrapper.WithKeepAlive` | src/AbstractDbWrapper.cs:65-79 | as the first constructor, with KeepAlive as given |
| `DbWrapper.AbstractDbWrapper.WithTimeout` | src/AbstractDbWrapper.cs:81-95 | as the first constructor, with KeepAlive and TimeoutPeriodMs as given |
| `DbWrapper.AbstractDbWrapper.AddParamsForInsert` | src/AbstractDbWrapper.cs:99-109 | the loop binds exactly `ParamsForInsert(properties)` |
| `Operations.ParamsForInsert` | src/AbstractDbWrapper.cs:99-109 | at most one parameter per property; with no excluded property, exactly one per property in order; with all excluded, none |
| `Operations.ParamsForInsertConcat` | src/AbstractDbWrapper.cs:103-108 | binding is property by property in order: the parameters of `a + b` are those of `a` followed by those of `b` |
| `Operations.ParamsForInsertMembers` | src/AbstractDbWrapper.cs:103-107 | every property without the exclusion attribute is bound, and every bound parameter comes from such a property |
| `DbWrapper.AbstractDbWrapper.PerformErrorLogging` | src/AbstractDbWrapper.cs:112-116 | the delegate receives the failure once if EnableErrorLog is set, and nothing otherwise |
| `DbWrapper.AbstractDbWrapper.InitTimer` | src/AbstractDbWrapper.cs:119-126 | succeeds exactly when the interval is valid, and then there is one more timer and it is running; otherwise `_timer` is not assigned |
| `DbWrapper.AbstractDbWrapper.CloseConnection` | src/AbstractDbWrapper.cs:129-133 | the elapsed handler, enabled only while the timer runs: the timer is closed but stays in `_timer`, then the connection is closed as CloseDbConnection does |
| `Lifecycle.CloseConnection` | src/AbstractDbWrapper.cs:129-133 | after the handler the timer is closed, no timer is created, the connection is Closed unless Close throws, and at most one timer still exists |
| `DbWrapper.AbstractDbWrapper.ResetTimer` | src/AbstractDbWrapper.cs:152-156 | succeeds, leaving the timer running, exactly when `_timer` is neither null nor disposed; otherwise it throws |
| `DbWrapper.AbstractDbWrapper.StopTimer` | src/AbstractDbWrapper.cs:158-161 | throws only on a null `_timer`; afterwards no timer runs |
| `DbWrapper.AbstractDbWrapper.IsOpen` | src/AbstractDbWrapper.cs:164-167 | true exactly when the connection state is Open |
| `DbWrapper.AbstractDbWrapper.OpenDbConnection` | src/AbstractDbWrapper.cs:169-183 | changes the state exactly as `Lifecycle.OpenDbConnection` says |
| `Lifecycle.OpenDbConnection` | src/AbstractDbWrapper.cs:169-183 | Open regardless of state; the connection is Open if it succeeds; a failure is reported (if enabled) and never thrown; the timer is untouched |
| `DbWrapper.AbstractDbWrapper.CloseDbConnection` | src/AbstractDbWrapper.cs:185-202 | changes the state exactly as `Lifecycle.CloseDbConnection` says |
| `Lifecycle.CloseDbConnection` | src/AbstractDbWrapper.cs:185-202 | a Closed connection is left unchanged; an Open one becomes Closed unless Close throws, which is reported (if enabled) and never thrown |
| `Lifecycle.CloseIdempotent` | src/AbstractDbWrapper.cs:185-202 | once closed, CloseDbConnection again changes nothing and the elapsed handler changes only the timer, to closed; disposing twice equals disposing once |
| `DbWrapper.AbstractDbWrapper.SelectOne` | src/AbstractDbWrapper.cs:204-243 | the new state and the result are exactly `Operations.SelectOne` |
| `DbWrapper.ReadOneRow` | src/AbstractDbWrapper.cs:214-224 | the `while (reader.Read())` loop leaves exactly the value and failure of `ReadOne` |
| `Operations.ReadOne` | src/AbstractDbWrapper.cs:214-224 | the value is the first row's decoded value if it decodes, else the default; MultipleRows is raised exactly when a second row follows a decoded first row; a first row that fails to decode ends it with DecodeFailed, and otherwise, with at most one row, a throwing Read ends it with ReadFailed; the loop ends cleanly exactly with at most one decodable row and a reader that ends normally |
| `Operations.SelectOne` | src/AbstractDbWrapper.cs:204-243 | only the default or the first row's decoded value is ever returned; reports are only appended; at most one timer |
| `Operations.SelectOneByRowCount` | src/AbstractDbWrapper.cs:214-242 | when no lifecycle step fails: 0 rows give the default and 1 row its decoded value, with a Read that throws at the end reported once as ReadFailed and the value still returned; 2 or more rows give the first row's decoded value plus one MultipleRows report |
| `DbWrapper.AbstractDbWrapper.SelectList` | src/AbstractDbWrapper.cs:245-280 | the new state and the result are exactly `Operations.SelectList` for the query without parameters |
| `DbWrapper.AbstractDbWrapper.SelectListWithParameters` | src/AbstractDbWrapper.cs:282-319 | the same for the query with the given parameters bound |
| `DbWrapper.ReadRows` | src/AbstractDbWrapper.cs:255-261 | the append loop leaves exactly the list and failure of `ReadAll` |
| `Operations.Collect` | src/AbstractDbWrapper.cs:257-260 | the list is the decoded leading rows in reader order; it stops short only at a row that fails to decode; otherwise it ends as the reader ends |
| `Operations.CollectCharacterized` | src/AbstractDbWrapper.cs:257-260 | Collect's contract determines its result uniquely |
| `Operations.SelectList` | src/AbstractDbWrapper.cs:245-280 | what is returned is always decoded leading rows of the reader, or empty when ExecuteReader throws; reports are only appended |
| `Operations.SelectListAllRows` | src/AbstractDbWrapper.cs:245-280 | when no lifecycle step fails and every row decodes: one value per row, in row order; if Read throws after the last row those values are still returned and ReadFailed is reported once, otherwise nothing is reported |
| `Operations.SelectListStopsAtDecodeFailure` | src/AbstractDbWrapper.cs:257-279 | in a call where no lifecycle step fails, when row k is the first that fails to decode, the k rows before it are returned decoded and the failure is reported once |
| `DbWrapper.AbstractDbWrapper.InsertItem` | src/AbstractDbWrapper.cs:328-358 | `Operations.NonQuery` with the open inside the try, on the command carrying `ParamsForInsert` of the item's properties |
| `DbWrapper.AbstractDbWrapper.InsertWithParameters` | src/AbstractDbWrapper.cs:363-392 | `Operations.NonQuery` with the open inside the try and the given parameters |
| `DbWrapper.AbstractDbWrapper.Insert` | src/AbstractDbWrapper.cs:400-428 | `Operations.NonQuery` with the open outside the try |
| `DbWrapper.AbstractDbWrapper.Update` | src/AbstractDbWrapper.cs:430-459 | `Operations.NonQuery` with the open outside the try |
| `DbWrapper.AbstractDbWrapper.UpdateWithParameters` | src/AbstractDbWrapper.cs:464-493 | `Operations.NonQuery` with the open inside the try and the given parameters |
| `DbWrapper.AbstractDbWrapper.Delete` | src/AbstractDbWrapper.cs:495-524 | `Operations.NonQuery` with the open inside the try |
| `DbWrapper.AbstractDbWrapper.DeleteWithParameters` | src/AbstractDbWrapper.cs:529-559 | `Operations.NonQuery` with the open inside the try and the given parameters |
| `Operations.NonQuery` | src/AbstractDbWrapper.cs:363-392 | the count returned is the driver's or 0, and 0 whenever ExecuteNonQuery throws; reports are only appended |
| `Operations.NonQueryCount` | src/AbstractDbWrapper.cs:363-392 | when no lifecycle step fails: the driver's count on success; 0 plus one ExecuteFailed report when execution throws |
| `Lifecycle.Envelope` | src/AbstractDbWrapper.cs:495-524 | the body runs exactly when lazy-open succeeds; reports are only appended, at most two per call, and none when logging is off; at most one timer |
| `Lifecycle.HealthyEnvelope` | src/AbstractDbWrapper.cs:226-241 | when no lifecycle step fails, the body runs, nothing escapes, the body's failure is reported once, and afterwards the connection is Open with a running timer in keep-alive mode and Closed with no running timer otherwise |
| `Lifecycle.ReporterGating` | src/AbstractDbWrapper.cs:112-116 | with logging off a failing operation calls the delegate zero times; with it on, in a call where no lifecycle step fails, exactly once, with that failure |
| `DbWrapper.AbstractDbWrapper.LazyOpenConnection` | src/AbstractDbWrapper.cs:564-582 | the new state and the outcome are exactly `Lifecycle.LazyOpenConnection`, and at most one timer exists |
| `Lifecycle.LazyOpenConnection` | src/AbstractDbWrapper.cs:564-582 | an Open connection is left as it is; a Closed one becomes Open unless Open throws; in keep-alive mode the first use creates the timer and later uses restart the same one; without keep-alive the timer is untouched; nothing is reported |
| `Lifecycle.ElapsedTimerIsRestarted` | src/AbstractDbWrapper.cs:564-582 | when the handler's Close and the next Open succeed: after the elapsed handler, the next operation reopens the connection and restarts the closed timer, which is still in `_timer`; no second timer is created |
| `Lifecycle.FirstOpenFailureRaisesNullTimer` | src/AbstractDbWrapper.cs:152-156 | in keep-alive mode, in an overload that opens inside its try, a failed first Open is reported, and then the keep-alive check dereferences the null timer and raises NullTimer |
| `Lifecycle.ExplicitOpenLeavesTimerNull` | src/AbstractDbWrapper.cs:169-173 | in keep-alive mode, an explicit open before any operation leaves the connection Open and `_timer` null; the next operation then runs its body, raises NullTimer and leaves the connection Open |
| `Lifecycle.OpenWithoutTimerRaises` | src/AbstractDbWrapper.cs:588-594 | in keep-alive mode, an operation on an Open connection with a null `_timer` runs its body, raises NullTimer and leaves the same situation (Open, null timer), so each operation made while it lasts raises NullTimer |
| `Lifecycle.InvalidIntervalRaises` | src/AbstractDbWrapper.cs:119-126 | in keep-alive mode, on first use (no timer yet) when Open succeeds, an invalid idle period leaves the connection Open with no timer; opened outside the try, InvalidInterval escapes; inside, it is reported and NullTimer escapes |
| `Lifecycle.UseAfterDisposeRaises` | src/AbstractDbWrapper.cs:604-611 | after Dispose of a wrapper whose timer exists, a keep-alive operation never runs its body; the connection is Open afterwards exactly when the driver lets the disposed connection open; TimerDisposed is raised whenever the open is inside the try or succeeds |
| `Lifecycle.OpenOutsideTryEscapes` | src/AbstractDbWrapper.cs:400-428 | opening outside the try lets an Open failure escape unreported and skips the keep-alive check; opening inside reports it and, without keep-alive, returns normally |
| `DbWrapper.AbstractDbWrapper.PerformKeepAliveCheck` | src/AbstractDbWrapper.cs:588-601 | the new state and the outcome are exactly `Lifecycle.PerformKeepAliveCheck`, and at most one timer exists |
| `Lifecycle.PerformKeepAliveCheck` | src/AbstractDbWrapper.cs:588-601 | keep-alive leaves the connection alone and restarts the timer, which throws on a null or disposed timer; otherwise nothing is thrown, no timer runs, and the connection is Closed unless Close throws |
| `Lifecycle.NonKeepAliveLeavesClosed` | src/AbstractDbWrapper.cs:588-601 | without keep-alive, an operation whose Close succeeds leaves the connection Closed and, when it returns normally, no timer running |
| `Lifecycle.NonKeepAliveOnlyOpenEscapes` | src/AbstractDbWrapper.cs:400-428 | without keep-alive, whatever the driver does, the only exception that escapes an operation is an Open failure in an overload that opens outside its try |
| `Lifecycle.KeepAliveClosesOnlyWhenIdle` | src/AbstractDbWrapper.cs:129-133 | in keep-alive mode, an operation on an Open connection whose timer is running, and whose Close succeeds when the timer elapses, keeps it Open with the timer running; when that timer then elapses, the handler closes the connection the operation left |
| `DbWrapper.AbstractDbWrapper.DisposeManaged` | src/AbstractDbWrapper.cs:604-611 | with `disposing` set, the state becomes `Lifecycle.Dispose`; otherwise it is unchanged |
| `DbWrapper.AbstractDbWrapper.Dispose` | src/AbstractDbWrapper.cs:613-617 | the connection is Closed and no timer runs |
| `Lifecycle.Dispose` | src/AbstractDbWrapper.cs:604-611 | the connection is Closed, an existing timer becomes Disposed (so it can never be started again) and a null timer stays null; nothing else changes |
| `Trace.ReplayKeepsOneTimer` | src/AbstractDbWrapper.cs:569-579 | over any history of calls, setter assignments and timer events, at most one timer is ever created |
| `Trace.ReplayOnlyAppendsReports` | src/AbstractDbWrapper.cs:112-116 | over any history, the delegate's earlier reports stay in place and new ones are only appended |
| `Trace.ReplaySilentWithoutErrorLog` | src/AbstractDbWrapper.cs:112-116 | while error logging stays off, no history calls the delegate |
| `Trace.ReplayStaysClosedUntilUsed` | src/AbstractDbWrapper.cs:564-568 | a closed wrapper stays closed until an operation or OpenDbConnection tries to open it |
| `Trace.ReplayNeverLeavesOpen` | src/AbstractDbWrapper.cs:588-601 | over any history with keep-alive off, every Close succeeding and no explicit OpenDbConnection, a Closed connection is Closed after every call |

## Left out

- The database drivers (`DbConnection.Open`/`Close`, `ExecuteReader`, `DbDataReader.Read`,
  `ExecuteNonQuery`) are foreign code. Their results are inputs to the model.
  - A failed `Close` is assumed to leave the connection state as it was.
  - `Open` on a connection that is already open, and use after `Dispose`, behave as the
    driver input says.
- The engine adapters `InitConnectionString`, `InitDbConnection`, `CreateDbCommand` and
  `CreateSqlParameter` are left out, and so are the three engine files
  (`src/PgsqlDbWrapper.cs`, `src/OracleWrapper.cs`, `src/MysqlDbWrapper.cs`). They only format
  a connection string and call the engine's client library. The connection string is
  therefore not part of the model.
- The idle timer's thread and wall-clock time are left out. The `Elapsed` event is an
  explicit step, `CloseConnection`, allowed only while the timer runs. A race between that
  thread and an operation in progress cannot be expressed in this sequential model.
- Reflection in `AddParamsForInsert` is replaced by a given list of properties. Each property
  has a name, a value, and whether it carries the exclusion attribute. Reading a property is
  assumed not to throw.
- The default delegate's console output is left out. `ErrorLoggingDelegate` can be replaced,
  but the model records only that a call happened and with which failure. The delegate is
  assumed to return normally.
- Throwing `Dispose` calls are left out. These are the `using` blocks disposing the command
  and the reader, and `DbConnection.Dispose`.
- Connection states other than `Closed` and `Open` are left out. `ConnectionState` also
  has `Broken`, `Connecting`, `Executing` and `Fetching`. `LazyOpenConnection` opens only
  when the state is `Closed` (:566), and `CloseDbConnection` closes only when it is `Open`
  (:189). So a `Broken` connection would be neither reopened nor closed, and the model
  cannot express that.
- The three `catch` clauses (`SqlException`, `DbException`, `Exception`) all do the same
  thing, so they are modelled as one.
- `GC.SuppressFinalize` is left out. `Dispose(false)` is modelled as doing nothing, as in
  the code.
- Integer widths are not modelled. `Port`, `TimeoutPeriodMs` and the affected count are
  unbounded integers. The code does no arithmetic on them, so nothing wraps.
