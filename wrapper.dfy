/** The wrapper object: one connection, one optional idle timer and the settings, updated in
    place by the lifecycle methods and by every data operation. Each method is proved to
    change the state exactly as the matching function of Lifecycle or Operations says, so
    the properties proved there hold of the object. */
module DbWrapper {
  import opened Db
  import opened Lifecycle
  import Operations

  class AbstractDbWrapper {
    var serverUrl: string
    var username: string
    var password: string
    var dbName: string
    var port: int
    var keepAlive: bool
    /** Milliseconds to wait after an operation before an open connection is closed. */
    var timeoutPeriodMs: int
    var enableErrorLog: bool
    /** `_connection.State`. */
    var conn: Connection
    /** `_timer`. */
    var timer: Timer
    /** The failures handed to ErrorLoggingDelegate, oldest first. */
    var reported: seq<Failure>
    /** How many timers InitTimer has created. */
    ghost var timersCreated: nat

    ghost function Model(): Wrapper
      reads this
    {
      Wrapper(conn, timer, keepAlive, enableErrorLog, timeoutPeriodMs, reported, timersCreated)
    }

    ghost predicate Valid()
      reads this
    {
      Lifecycle.Valid(Model())
    }

    /** The constructor builds the connection object but does not open it; keep-alive is off
        and the idle period is two minutes. */
    constructor (serverUrl: string, username: string, password: string, dbName: string, port: int)
      ensures Valid()
      ensures this.serverUrl == serverUrl && this.username == username &&
              this.password == password && this.dbName == dbName && this.port == port
      ensures conn == Closed && timer == NoTimer && reported == []
      ensures !keepAlive && timeoutPeriodMs == DefaultTimeoutPeriodMs && !enableErrorLog
    {
      this.serverUrl, this.username, this.password, this.dbName, this.port :=
        serverUrl, username, password, dbName, port;
      keepAlive := false;
      timeoutPeriodMs := DefaultTimeoutPeriodMs;
      enableErrorLog := false;
      conn, timer, reported := Closed, NoTimer, [];
      timersCreated := 0;
    }

    /** As the first constructor, with the keep-alive flag given. */
    constructor WithKeepAlive(serverUrl: string, username: string, password: string, dbName: string,
                              port: int, keepAlive: bool)
      ensures Valid()
      ensures this.serverUrl == serverUrl && this.username == username &&
              this.password == password && this.dbName == dbName && this.port == port
      ensures conn == Closed && timer == NoTimer && reported == []
      ensures this.keepAlive == keepAlive && timeoutPeriodMs == DefaultTimeoutPeriodMs && !enableErrorLog
    {
      this.serverUrl, this.username, this.password, this.dbName, this.port :=
        serverUrl, username, password, dbName, port;
      this.keepAlive := keepAlive;
      timeoutPeriodMs := DefaultTimeoutPeriodMs;
      enableErrorLog := false;
      conn, timer, reported := Closed, NoTimer, [];
      timersCreated := 0;
    }

    /** As the first constructor, with the keep-alive flag and the idle period given. */
    constructor WithTimeout(serverUrl: string, username: string, password: string, dbName: string,
                            port: int, keepAlive: bool, timeOutMs: int)
      ensures Valid()
      ensures this.serverUrl == serverUrl && this.username == username &&
              this.password == password && this.dbName == dbName && this.port == port
      ensures conn == Closed && timer == NoTimer && reported == []
      ensures this.keepAlive == keepAlive && timeoutPeriodMs == timeOutMs && !enableErrorLog
    {
      this.serverUrl, this.username, this.password, this.dbName, this.port :=
        serverUrl, username, password, dbName, port;
      this.keepAlive := keepAlive;
      timeoutPeriodMs := timeOutMs;
      enableErrorLog := false;
      conn, timer, reported := Closed, NoTimer, [];
      timersCreated := 0;
    }

    /** Binds one parameter per property without the exclusion attribute, in order. */
    method AddParamsForInsert<V>(properties: seq<Property<V>>) returns (parameters: seq<Parameter<V>>)
      ensures parameters == Operations.ParamsForInsert(properties)
    {
      parameters := [];
      for i := 0 to |properties|
        invariant parameters == Operations.ParamsForInsert(properties[..i])
      {
        var prop := properties[i];
        assert properties[..i + 1] == properties[..i] + [prop];
        Operations.ParamsForInsertConcat(properties[..i], [prop]);
        assert [prop][1..] == [];
        if !prop.excluded {
          parameters := parameters + [Parameter(prop.name, prop.value)];
        }
      }
      assert properties[..|properties|] == properties;
    }

    /** Calls the delegate with `f` only when error logging is enabled. */
    method PerformErrorLogging(f: Failure)
      modifies this`reported
      ensures reported == old(reported) + (if enableErrorLog then [f] else [])
      ensures Model() == Lifecycle.PerformErrorLogging(old(Model()), f)
    {
      if enableErrorLog {
        reported := reported + [f];
      }
    }

    /** Creates and starts the timer; the Timer constructor rejects an interval that is not
        positive or exceeds Int32.MaxValue, and then `_timer` is not assigned. */
    method InitTimer() returns (o: Outcome)
      modifies this`timer, this`timersCreated
      ensures o.Normal? <==> ValidInterval(timeoutPeriodMs)
      ensures o.Normal? ==> timer == Running && timersCreated == old(timersCreated) + 1
      ensures (Model(), o) == Lifecycle.InitTimer(old(Model()))
    {
      if ValidInterval(timeoutPeriodMs) {
        timer := Running;
        timersCreated := timersCreated + 1;
        o := Normal;
      } else {
        o := Threw(InvalidInterval);
      }
    }

    /** The Elapsed handler: closes the timer, leaving it in `_timer`, then the connection. */
    method CloseConnection(d: Driver)
      requires Valid() && timer == Running
      modifies this`timer, this`conn, this`reported
      ensures Valid() && timer == TimerClosed
      ensures Model() == Lifecycle.CloseConnection(old(Model()), d)
    {
      timer := TimerClosed;
      CloseDbConnection(d);
    }

    /** Stop then Start on `_timer`; null and a disposed timer throw. */
    method ResetTimer() returns (o: Outcome)
      modifies this`timer
      ensures o.Normal? <==> old(timer) != NoTimer && old(timer) != Disposed
      ensures o.Normal? ==> timer == Running
      ensures (Model(), o) == Lifecycle.ResetTimer(old(Model()))
    {
      match timer
      case NoTimer => o := Threw(NullTimer);
      case Disposed => o := Threw(TimerDisposed);
      case _ =>
        timer := Running;
        o := Normal;
    }

    /** Stop on `_timer`; null throws. */
    method StopTimer() returns (o: Outcome)
      modifies this`timer
      ensures o.Normal? <==> old(timer) != NoTimer
      ensures timer != Running
      ensures (Model(), o) == Lifecycle.StopTimer(old(Model()))
    {
      match timer
      case NoTimer => o := Threw(NullTimer);
      case Running =>
        timer := Stopped;
        o := Normal;
      case _ => o := Normal;
    }

    function IsOpen(): (open: bool)
      reads this
      ensures open <==> Model().conn.Open?
    {
      conn == Open
    }

    method OpenDbConnection(d: Driver)
      modifies this`conn, this`reported
      ensures Model() == Lifecycle.OpenDbConnection(old(Model()), d)
    {
      if d.openSucceeds {
        conn := Open;
      } else {
        PerformErrorLogging(OpenFailed);
      }
    }

    method CloseDbConnection(d: Driver)
      modifies this`conn, this`reported
      ensures Model() == Lifecycle.CloseDbConnection(old(Model()), d)
    {
      if conn == Open {
        if d.closeSucceeds {
          conn := Closed;
        } else {
          PerformErrorLogging(CloseFailed);
        }
      }
    }

    /** Opens the connection only if it is closed, then starts or restarts the timer in
        keep-alive mode. */
    method LazyOpenConnection(d: Driver) returns (o: Outcome)
      requires Valid()
      modifies this`conn, this`timer, this`timersCreated
      ensures Valid()
      ensures (Model(), o) == Lifecycle.LazyOpenConnection(old(Model()), d)
    {
      o := Normal;
      if conn == Closed {
        if !d.openSucceeds {
          o := Threw(OpenFailed);
          return;
        }
        conn := Open;
        if keepAlive {
          if timer != NoTimer {
            o := ResetTimer();
          } else {
            // First operation: create the timer.
            o := InitTimer();
          }
        }
      }
    }

    /** Restarts the timer in keep-alive mode; otherwise stops any timer and closes. */
    method PerformKeepAliveCheck(d: Driver) returns (o: Outcome)
      requires Valid()
      modifies this`conn, this`timer, this`reported
      ensures Valid()
      ensures (Model(), o) == Lifecycle.PerformKeepAliveCheck(old(Model()), d)
    {
      if keepAlive {
        o := ResetTimer();
      } else {
        if timer != NoTimer {
          var stopped := StopTimer();
        }
        CloseDbConnection(d);
        o := Normal;
      }
    }

    /** Dispose(disposing): with `disposing` set, disposes the connection (closing it) and
        the timer, if any. */
    method DisposeManaged(disposing: bool)
      modifies this`conn, this`timer
      ensures Model() == if disposing then Lifecycle.Dispose(old(Model())) else old(Model())
    {
      if disposing {
        conn := Closed;
        if timer != NoTimer {
          timer := Disposed;
        }
      }
    }

    method Dispose()
      requires Valid()
      modifies this`conn, this`timer
      ensures Valid() && conn == Closed && timer != Running
      ensures Model() == Lifecycle.Dispose(old(Model()))
    {
      DisposeManaged(true);
    }

    /** The shared end of every envelope: report what was caught, then the keep-alive check
        of the finally block, whose exception escapes if it throws. */
    method Finish<T>(caught: Option<Failure>, result: T, d: Driver) returns (c: Completion<T>)
      requires Valid()
      modifies this`conn, this`timer, this`reported
      ensures Valid()
      ensures var logged := if caught.Some? then Lifecycle.PerformErrorLogging(old(Model()), caught.value)
                            else old(Model());
              var (checked, k) := Lifecycle.PerformKeepAliveCheck(logged, d);
              Model() == checked && c == (if k.Threw? then Raised(k.failure) else Returned(result))
    {
      if caught.Some? {
        PerformErrorLogging(caught.value);
      }
      var k := PerformKeepAliveCheck(d);
      c := if k.Threw? then Raised(k.failure) else Returned(result);
    }

    /** SelectOne: at most one row is expected; a second row throws inside the loop after
        `result` already holds the first row's value. */
    method SelectOne<R, T, V>(queryStr: string, decode: R -> Option<T>, dflt: T,
                              executeReader: Command<V> -> ReaderOutcome<R>, d: Driver)
      returns (c: Completion<T>)
      requires Valid()
      modifies this`conn, this`timer, this`reported, this`timersCreated
      ensures Valid()
      ensures (Model(), c) ==
              Operations.SelectOne(old(Model()), d, Command(queryStr, []), executeReader, decode, dflt)
    {
      var result := dflt;
      var caught: Option<Failure> := None;
      var o := LazyOpenConnection(d);
      if o.Threw? {
        caught := Some(o.failure);
      } else {
        result, caught := ReadOneRow(executeReader(Command(queryStr, [])), decode, dflt);
      }
      c := Finish(caught, result, d);
    }

    /** The body shared by both SelectList overloads. */
    method ReadList<R, T, V>(cmd: Command<V>, decode: R -> Option<T>,
                             executeReader: Command<V> -> ReaderOutcome<R>, d: Driver)
      returns (c: Completion<seq<T>>)
      requires Valid()
      modifies this`conn, this`timer, this`reported, this`timersCreated
      ensures Valid()
      ensures (Model(), c) == Operations.SelectList(old(Model()), d, cmd, executeReader, decode)
    {
      var result: seq<T> := [];
      var caught: Option<Failure> := None;
      var o := LazyOpenConnection(d);
      if o.Threw? {
        caught := Some(o.failure);
      } else {
        result, caught := ReadRows(executeReader(cmd), decode);
      }
      c := Finish(caught, result, d);
    }

    method SelectList<R, T, V>(queryStr: string, decode: R -> Option<T>,
                               executeReader: Command<V> -> ReaderOutcome<R>, d: Driver)
      returns (c: Completion<seq<T>>)
      requires Valid()
      modifies this`conn, this`timer, this`reported, this`timersCreated
      ensures Valid()
      ensures (Model(), c) ==
              Operations.SelectList(old(Model()), d, Command(queryStr, []), executeReader, decode)
    {
      c := ReadList(Command(queryStr, []), decode, executeReader, d);
    }

    method SelectListWithParameters<R, T, V>(queryStr: string, decode: R -> Option<T>,
                                             parameters: seq<Parameter<V>>,
                                             executeReader: Command<V> -> ReaderOutcome<R>, d: Driver)
      returns (c: Completion<seq<T>>)
      requires Valid()
      modifies this`conn, this`timer, this`reported, this`timersCreated
      ensures Valid()
      ensures (Model(), c) ==
              Operations.SelectList(old(Model()), d, Command(queryStr, parameters), executeReader, decode)
    {
      c := ReadList(Command(queryStr, parameters), decode, executeReader, d);
    }

    /** The body shared by Insert, Update and Delete: ExecuteNonQuery's count, or 0 if it
        throws. With `openInsideTry` false an Open failure escapes before the try. */
    method RunNonQuery<V>(cmd: Command<V>, execute: Command<V> -> NonQueryOutcome, d: Driver,
                          openInsideTry: bool)
      returns (c: Completion<int>)
      requires Valid()
      modifies this`conn, this`timer, this`reported, this`timersCreated
      ensures Valid()
      ensures (Model(), c) == Operations.NonQuery(old(Model()), d, openInsideTry, cmd, execute)
    {
      var recordAffected := 0;
      var o := LazyOpenConnection(d);
      if o.Threw? && !openInsideTry {
        return Raised(o.failure);
      }
      var caught: Option<Failure> := None;
      if o.Threw? {
        caught := Some(o.failure);
      } else {
        match execute(cmd)
        case ExecuteNonQueryFailed =>
          caught := Some(ExecuteFailed);
        case Affected(count) =>
          recordAffected := count;
      }
      c := Finish(caught, recordAffected, d);
    }

    /** Insert(queryStr, itemToInsert): the item's properties become the parameters. */
    method InsertItem<V>(queryStr: string, properties: seq<Property<V>>,
                         execute: Command<V> -> NonQueryOutcome, d: Driver)
      returns (c: Completion<int>)
      requires Valid()
      modifies this`conn, this`timer, this`reported, this`timersCreated
      ensures Valid()
      ensures (Model(), c) == Operations.NonQuery(old(Model()), d, true,
                                Command(queryStr, Operations.ParamsForInsert(properties)), execute)
    {
      var parameters := AddParamsForInsert(properties);
      c := RunNonQuery(Command(queryStr, parameters), execute, d, true);
    }

    method InsertWithParameters<V>(queryStr: string, parameters: seq<Parameter<V>>,
                                   execute: Command<V> -> NonQueryOutcome, d: Driver)
      returns (c: Completion<int>)
      requires Valid()
      modifies this`conn, this`timer, this`reported, this`timersCreated
      ensures Valid()
      ensures (Model(), c) ==
              Operations.NonQuery(old(Model()), d, true, Command(queryStr, parameters), execute)
    {
      c := RunNonQuery(Command(queryStr, parameters), execute, d, true);
    }

    /** Insert(queryStr): opens before its try. */
    method Insert<V>(queryStr: string, execute: Command<V> -> NonQueryOutcome, d: Driver)
      returns (c: Completion<int>)
      requires Valid()
      modifies this`conn, this`timer, this`reported, this`timersCreated
      ensures Valid()
      ensures (Model(), c) == Operations.NonQuery(old(Model()), d, false, Command(queryStr, []), execute)
    {
      c := RunNonQuery(Command(queryStr, []), execute, d, false);
    }

    /** Update(queryStr): opens before its try. */
    method Update<V>(queryStr: string, execute: Command<V> -> NonQueryOutcome, d: Driver)
      returns (c: Completion<int>)
      requires Valid()
      modifies this`conn, this`timer, this`reported, this`timersCreated
      ensures Valid()
      ensures (Model(), c) == Operations.NonQuery(old(Model()), d, false, Command(queryStr, []), execute)
    {
      c := RunNonQuery(Command(queryStr, []), execute, d, false);
    }

    method UpdateWithParameters<V>(queryStr: string, parameters: seq<Parameter<V>>,
                                   execute: Command<V> -> NonQueryOutcome, d: Driver)
      returns (c: Completion<int>)
      requires Valid()
      modifies this`conn, this`timer, this`reported, this`timersCreated
      ensures Valid()
      ensures (Model(), c) ==
              Operations.NonQuery(old(Model()), d, true, Command(queryStr, parameters), execute)
    {
      c := RunNonQuery(Command(queryStr, parameters), execute, d, true);
    }

    method Delete<V>(queryStr: string, execute: Command<V> -> NonQueryOutcome, d: Driver)
      returns (c: Completion<int>)
      requires Valid()
      modifies this`conn, this`timer, this`reported, this`timersCreated
      ensures Valid()
      ensures (Model(), c) == Operations.NonQuery(old(Model()), d, true, Command(queryStr, []), execute)
    {
      c := RunNonQuery(Command(queryStr, []), execute, d, true);
    }

    method DeleteWithParameters<V>(queryStr: string, parameters: seq<Parameter<V>>,
                                   execute: Command<V> -> NonQueryOutcome, d: Driver)
      returns (c: Completion<int>)
      requires Valid()
      modifies this`conn, this`timer, this`reported, this`timersCreated
      ensures Valid()
      ensures (Model(), c) ==
              Operations.NonQuery(old(Model()), d, true, Command(queryStr, parameters), execute)
    {
      c := RunNonQuery(Command(queryStr, parameters), execute, d, true);
    }
  }

  /** SelectOne's `while (reader.Read())` loop: the first row is decoded into `result`;
      reading a second row throws, leaving `result` as it is. */
  method ReadOneRow<R, T>(reader: ReaderOutcome<R>, decode: R -> Option<T>, dflt: T)
    returns (result: T, caught: Option<Failure>)
    ensures (result, caught) == Operations.ReadOne(reader, decode, dflt)
  {
    result, caught := dflt, None;
    match reader
    case ExecuteReaderFailed =>
      caught := Some(ExecuteFailed);
    case Reader(rows, faultAtEnd) =>
      var i := 0;
      var hasMultipleRows := false;
      var reading := true;
      while reading
        invariant i <= |rows| && i <= 1
        invariant hasMultipleRows <==> i == 1
        invariant i == 1 ==> decode(rows[0]).Some? && result == decode(rows[0]).value
        invariant i == 0 ==> result == dflt
        invariant reading ==> caught == None
        invariant !reading ==> (result, caught) == Operations.ReadOne(reader, decode, dflt)
        decreases |rows| - i + (if reading then 1 else 0)
      {
        // reader.Read()
        if i == |rows| {
          if faultAtEnd {
            caught := Some(ReadFailed);
          }
          reading := false;
        } else if hasMultipleRows {
          caught := Some(MultipleRows);
          reading := false;
        } else {
          match decode(rows[i])
          case None =>
            caught := Some(DecodeFailed);
            reading := false;
          case Some(v) =>
            result := v;
            hasMultipleRows := true;
            i := i + 1;
        }
      }
  }

  /** SelectList's `while (reader.Read()) result.Add(decode(reader))` loop: every row read
      is decoded and appended until the reader ends or something throws. */
  method ReadRows<R, T>(reader: ReaderOutcome<R>, decode: R -> Option<T>)
    returns (result: seq<T>, caught: Option<Failure>)
    ensures (result, caught) == Operations.ReadAll(reader, decode)
  {
    result, caught := [], None;
    match reader
    case ExecuteReaderFailed =>
      caught := Some(ExecuteFailed);
    case Reader(rows, faultAtEnd) =>
      var i := 0;
      var reading := true;
      while reading
        invariant i <= |rows| && |result| == i
        invariant forall j :: 0 <= j < i ==> decode(rows[j]) == Some(result[j])
        invariant reading ==> caught == None
        invariant !reading && i < |rows| ==> decode(rows[i]).None? && caught == Some(DecodeFailed)
        invariant !reading && i == |rows| ==> caught == (if faultAtEnd then Some(ReadFailed) else None)
        decreases |rows| - i + (if reading then 1 else 0)
      {
        // reader.Read()
        if i == |rows| {
          if faultAtEnd {
            caught := Some(ReadFailed);
          }
          reading := false;
        } else {
          match decode(rows[i])
          case None =>
            caught := Some(DecodeFailed);
            reading := false;
          case Some(v) =>
            result := result + [v];
            i := i + 1;
        }
      }
      Operations.CollectCharacterized(rows, faultAtEnd, decode, result, caught);
  }
}
