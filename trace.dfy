/** Whole histories of a wrapper: any sequence of public calls, setter assignments and timer
    events, and the invariants every such history keeps. */
module Trace {
  import opened Db
  import opened Lifecycle

  /** One thing that can happen to a wrapper between two others. */
  datatype Call =
    | OpenDb(d: Driver)                                        // OpenDbConnection()
    | CloseDb(d: Driver)                                       // CloseDbConnection()
    | TimerElapsed(d: Driver)                                  // the timer's Elapsed event
    | Operation(d: Driver, openInsideTry: bool, body: Option<Failure>)  // any data operation
    | SetKeepAlive(on: bool)                                   // KeepAlive = on
    | SetErrorLog(on: bool)                                    // EnableErrorLog = on
    | SetTimeout(ms: int)                                      // TimeoutPeriodMs = ms
    | DisposeWrapper                                           // Dispose()

  function Step(w: Wrapper, c: Call): Wrapper {
    match c
    case OpenDb(d) => OpenDbConnection(w, d)
    case CloseDb(d) => CloseDbConnection(w, d)
    case TimerElapsed(d) => if w.timer == Running then CloseConnection(w, d) else w
    case Operation(d, openInsideTry, body) => Envelope(w, d, openInsideTry, body).state
    case SetKeepAlive(on) => w.(keepAlive := on)
    case SetErrorLog(on) => w.(enableErrorLog := on)
    case SetTimeout(ms) => w.(timeoutPeriodMs := ms)
    case DisposeWrapper => Dispose(w)
  }

  /** The state after `calls`, in order. */
  function Replay(w: Wrapper, calls: seq<Call>): Wrapper
    decreases |calls|
  {
    if calls == [] then w else Replay(Step(w, calls[0]), calls[1..])
  }

  /** No history creates a second timer: `_timer` is assigned at most once. */
  lemma {:induction false} ReplayKeepsOneTimer(w: Wrapper, calls: seq<Call>)
    requires Valid(w)
    ensures Valid(Replay(w, calls)) && Replay(w, calls).timersCreated <= 1
    decreases |calls|
  {
    if calls != [] {
      ReplayKeepsOneTimer(Step(w, calls[0]), calls[1..]);
    }
  }

  /** Reports are never withdrawn: every history only appends to what the delegate received. */
  lemma {:induction false} ReplayOnlyAppendsReports(w: Wrapper, calls: seq<Call>)
    ensures w.reported <= Replay(w, calls).reported
    decreases |calls|
  {
    if calls != [] {
      var next := Step(w, calls[0]);
      ReplayOnlyAppendsReports(next, calls[1..]);
    }
  }

  /** While error logging stays disabled the delegate is never called, whatever fails. */
  lemma {:induction false} ReplaySilentWithoutErrorLog(w: Wrapper, calls: seq<Call>)
    requires !w.enableErrorLog && SetErrorLog(true) !in calls
    ensures Replay(w, calls).reported == w.reported
    decreases |calls|
  {
    if calls != [] {
      assert calls[0] != SetErrorLog(true);
      assert SetErrorLog(true) !in calls[1..];
      ReplaySilentWithoutErrorLog(Step(w, calls[0]), calls[1..]);
    }
  }

  /** Calls that never try to open the connection. */
  predicate OpensNothing(c: Call) {
    !c.OpenDb? && !c.Operation?
  }

  /** The connection is opened lazily: a closed wrapper stays closed until an operation or
      an explicit OpenDbConnection tries to open it. */
  lemma {:induction false} ReplayStaysClosedUntilUsed(w: Wrapper, calls: seq<Call>)
    requires w.conn.Closed?
    requires forall i :: 0 <= i < |calls| ==> OpensNothing(calls[i])
    ensures Replay(w, calls).conn.Closed?
    decreases |calls|
  {
    if calls != [] {
      assert OpensNothing(calls[0]);
      ReplayStaysClosedUntilUsed(Step(w, calls[0]), calls[1..]);
    }
  }

  /** Calls that keep keep-alive off, never open explicitly, and whose Close succeeds. */
  predicate ClosesCleanly(c: Call) {
    match c
    case OpenDb(_) => false
    case CloseDb(d) => d.closeSucceeds
    case TimerElapsed(d) => d.closeSucceeds
    case Operation(d, _, _) => d.closeSucceeds
    case SetKeepAlive(on) => !on
    case _ => true
  }

  /** Without keep-alive no connection is ever left open between calls: a closed wrapper is
      closed again after every operation of the history. */
  lemma {:induction false} ReplayNeverLeavesOpen(w: Wrapper, calls: seq<Call>)
    requires !w.keepAlive && w.conn.Closed?
    requires forall i :: 0 <= i < |calls| ==> ClosesCleanly(calls[i])
    ensures Replay(w, calls).conn.Closed? && !Replay(w, calls).keepAlive
    decreases |calls|
  {
    if calls != [] {
      var c := calls[0];
      assert ClosesCleanly(c);
      if c.Operation? {
        NonKeepAliveLeavesClosed(w, c.d, c.openInsideTry, c.body);
      }
      ReplayNeverLeavesOpen(Step(w, c), calls[1..]);
    }
  }
}
