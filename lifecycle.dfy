/** The connection lifecycle of one wrapper as values: the connection state, the idle
    timer, the two flags and the reports handed to the error-logging delegate, and the
    functions that say how each lifecycle step changes them. The class in wrapper.dfy
    performs these steps in place and is proved to agree with them. */
module Lifecycle {
  import opened Db

  /** `_connection.State`. */
  datatype Connection = Closed | Open

  /** `_timer`: null, or a System.Timers.Timer that is running, stopped, closed by its
      own elapsed handler, or disposed. */
  datatype Timer = NoTimer | Running | Stopped | TimerClosed | Disposed

  const MillisecondsInMinute: int := 60000
  /** Default idle period: two minutes. */
  const DefaultTimeoutPeriodMs: int := 2 * MillisecondsInMinute
  /** The largest interval a System.Timers.Timer accepts (Int32.MaxValue). */
  const MaxTimerInterval: int := 0x7FFF_FFFF

  /** The observable state of a wrapper. `reported` lists the failures handed to the
      error-logging delegate, oldest first; `timersCreated` counts InitTimer calls. */
  datatype Wrapper = Wrapper(
    conn: Connection,
    timer: Timer,
    keepAlive: bool,
    enableErrorLog: bool,
    timeoutPeriodMs: int,
    reported: seq<Failure>,
    timersCreated: nat)

  /** At most one timer is ever created, and `_timer` is null exactly until it is. */
  predicate Valid(w: Wrapper) {
    w.timersCreated <= 1 && (w.timer == NoTimer <==> w.timersCreated == 0)
  }

  /** The settings no lifecycle step changes. */
  predicate SameSettings(a: Wrapper, b: Wrapper) {
    a.keepAlive == b.keepAlive && a.enableErrorLog == b.enableErrorLog &&
    a.timeoutPeriodMs == b.timeoutPeriodMs
  }

  predicate ValidInterval(ms: int) {
    0 < ms <= MaxTimerInterval
  }

  /** The reports one more failure adds: one when logging is enabled, none otherwise. */
  function Logged(w: Wrapper, f: Failure): seq<Failure> {
    if w.enableErrorLog then [f] else []
  }

  /** PerformErrorLogging: the delegate is called once with `f` if logging is enabled. */
  function PerformErrorLogging(w: Wrapper, f: Failure): Wrapper {
    w.(reported := w.reported + Logged(w, f))
  }

  /** InitTimer: a new timer with interval TimeoutPeriodMs, started. */
  function InitTimer(w: Wrapper): (Wrapper, Outcome) {
    if ValidInterval(w.timeoutPeriodMs) then
      (w.(timer := Running, timersCreated := w.timersCreated + 1), Normal)
    else
      (w, Threw(InvalidInterval))
  }

  /** ResetTimer: Stop then Start on `_timer`, with no null check. */
  function ResetTimer(w: Wrapper): (Wrapper, Outcome) {
    match w.timer
    case NoTimer => (w, Threw(NullTimer))
    case Disposed => (w, Threw(TimerDisposed))
    case _ => (w.(timer := Running), Normal)
  }

  /** StopTimer: Stop on `_timer`, with no null check. */
  function StopTimer(w: Wrapper): (Wrapper, Outcome) {
    match w.timer
    case NoTimer => (w, Threw(NullTimer))
    case Running => (w.(timer := Stopped), Normal)
    case _ => (w, Normal)
  }

  /** OpenDbConnection: Open, whatever the state; a failure is reported, never thrown. */
  function OpenDbConnection(w: Wrapper, d: Driver): (r: Wrapper)
    ensures r.conn == (if d.openSucceeds then Open else w.conn)
    ensures r.reported == w.reported + (if d.openSucceeds then [] else Logged(w, OpenFailed))
    ensures r.timer == w.timer && r.timersCreated == w.timersCreated && SameSettings(w, r)
  {
    if d.openSucceeds then w.(conn := Open) else PerformErrorLogging(w, OpenFailed)
  }

  /** CloseDbConnection: closes only an Open connection; a failure is reported, never thrown. */
  function CloseDbConnection(w: Wrapper, d: Driver): (r: Wrapper)
    ensures r.conn.Closed? <==> w.conn.Closed? || d.closeSucceeds
    ensures w.conn.Closed? ==> r == w
    ensures r.reported == w.reported +
              (if w.conn.Open? && !d.closeSucceeds then Logged(w, CloseFailed) else [])
    ensures r.timer == w.timer && r.timersCreated == w.timersCreated && SameSettings(w, r)
  {
    if w.conn.Open? then
      if d.closeSucceeds then w.(conn := Closed) else PerformErrorLogging(w, CloseFailed)
    else
      w
  }

  /** The timer's Elapsed handler: it closes the timer (without clearing `_timer`) and then
      the connection. The event fires only while the timer runs. */
  function CloseConnection(w: Wrapper, d: Driver): (r: Wrapper)
    requires w.timer == Running
    ensures r.timer == TimerClosed && r.timersCreated == w.timersCreated
    ensures r.conn.Closed? <==> w.conn.Closed? || d.closeSucceeds
    ensures Valid(w) ==> Valid(r)
  {
    CloseDbConnection(w.(timer := TimerClosed), d)
  }

  /** LazyOpenConnection: opens a Closed connection; in keep-alive mode it then restarts
      the existing timer or, on first use, creates one. */
  function LazyOpenConnection(w: Wrapper, d: Driver): (r: (Wrapper, Outcome))
    ensures Valid(w) ==> Valid(r.0)
    ensures SameSettings(w, r.0) && r.0.reported == w.reported
    // An open connection is left exactly as it is.
    ensures w.conn.Open? ==> r == (w, Normal)
    // A closed connection is opened unless Open throws.
    ensures w.conn.Closed? ==> (r.0.conn.Open? <==> d.openSucceeds)
    ensures r.1 == Threw(OpenFailed) <==> w.conn.Closed? && !d.openSucceeds
    // Keep-alive: the first use creates the timer, later uses restart the same one.
    ensures w.conn.Closed? && d.openSucceeds && w.keepAlive && r.1.Normal? ==>
              r.0.timer == Running
    ensures w.conn.Closed? && d.openSucceeds && w.keepAlive && w.timer == NoTimer ==>
              (r.1.Normal? <==> ValidInterval(w.timeoutPeriodMs))
    ensures w.conn.Closed? && d.openSucceeds && w.keepAlive && w.timer != NoTimer ==>
              r.0.timersCreated == w.timersCreated && (r.1.Normal? <==> w.timer != Disposed)
    // Without keep-alive the timer is not touched.
    ensures !w.keepAlive ==> r.0.timer == w.timer && r.0.timersCreated == w.timersCreated
    ensures !w.keepAlive && w.conn.Closed? && d.openSucceeds ==> r.1 == Normal
  {
    if w.conn.Open? then (w, Normal)
    else if !d.openSucceeds then (w, Threw(OpenFailed))
    else
      var afterOpen := w.(conn := Open);
      if !w.keepAlive then (afterOpen, Normal)
      else if w.timer != NoTimer then ResetTimer(afterOpen)
      else InitTimer(afterOpen)
  }

  /** PerformKeepAliveCheck: in keep-alive mode restart the timer (no null check);
      otherwise stop any timer and close the connection. */
  function PerformKeepAliveCheck(w: Wrapper, d: Driver): (r: (Wrapper, Outcome))
    ensures Valid(w) ==> Valid(r.0)
    ensures SameSettings(w, r.0) && r.0.timersCreated == w.timersCreated
    // Keep-alive: the connection is left alone and the timer restarted, if there is one
    // that can still be started.
    ensures w.keepAlive ==> r.0.conn == w.conn && r.0.reported == w.reported
    ensures w.keepAlive ==> (r.1.Normal? <==> w.timer != NoTimer && w.timer != Disposed)
    ensures w.keepAlive && r.1.Normal? ==> r.0.timer == Running
    ensures w.keepAlive && w.timer == NoTimer ==> r.1 == Threw(NullTimer)
    // Otherwise: nothing is thrown, no timer runs, and the connection is closed
    // unless Close throws.
    ensures !w.keepAlive ==> r.1 == Normal && r.0.timer != Running
    ensures !w.keepAlive ==> (r.0.timer == NoTimer <==> w.timer == NoTimer)
    ensures !w.keepAlive ==> (r.0.conn.Closed? <==> w.conn.Closed? || d.closeSucceeds)
    ensures !w.keepAlive ==>
              r.0.reported == w.reported +
                (if w.conn.Open? && !d.closeSucceeds then Logged(w, CloseFailed) else [])
  {
    if w.keepAlive then ResetTimer(w)
    else
      var stopped := if w.timer != NoTimer then StopTimer(w).0 else w;
      (CloseDbConnection(stopped, d), Normal)
  }

  /** Dispose(true): disposes the connection (which closes it) and any timer. */
  function Dispose(w: Wrapper): (r: Wrapper)
    ensures r.conn.Closed? && r.timer != Running
    ensures (r.timer == NoTimer <==> w.timer == NoTimer) && r.timersCreated == w.timersCreated
    // An existing timer is disposed, so it can never be started again.
    ensures w.timer != NoTimer ==> r.timer == Disposed
    ensures r.reported == w.reported && SameSettings(w, r)
  {
    w.(conn := Closed, timer := if w.timer == NoTimer then NoTimer else Disposed)
  }

  /** The state after the envelope every data operation shares, whether the body (build the
      command, execute it, read the result) ran, and how the whole call ends. */
  datatype Run = Run(state: Wrapper, bodyRan: bool, outcome: Outcome)

  /** The envelope: lazy-open (inside or outside the try), the body failing with `body` if it
      fails, every caught failure reported, and the keep-alive check in the finally block,
      whose exception, if any, is what escapes. */
  function Envelope(w: Wrapper, d: Driver, openInsideTry: bool, body: Option<Failure>): (r: Run)
    ensures Valid(w) ==> Valid(r.state)
    ensures SameSettings(w, r.state)
    ensures r.bodyRan <==> LazyOpenConnection(w, d).1.Normal?
    // Reports are only ever appended, at most one per caught failure plus one for Close.
    ensures w.reported <= r.state.reported && |r.state.reported| <= |w.reported| + 2
    ensures !w.enableErrorLog ==> r.state.reported == w.reported
  {
    var (afterOpen, o) := LazyOpenConnection(w, d);
    if o.Threw? && !openInsideTry then Run(afterOpen, false, o)
    else
      var caught := if o.Threw? then Some(o.failure) else body;
      var logged := if caught.Some? then PerformErrorLogging(afterOpen, caught.value) else afterOpen;
      var (checked, k) := PerformKeepAliveCheck(logged, d);
      Run(checked, o.Normal?, k)
  }

  /** A call in which nothing in the lifecycle fails: Open and Close succeed and, in keep-alive
      mode, the timer can be created or restarted. */
  predicate Healthy(w: Wrapper, d: Driver) {
    (w.conn.Closed? ==> d.openSucceeds) && d.closeSucceeds &&
    (w.keepAlive ==> w.timer != Disposed &&
                     (w.timer == NoTimer ==> w.conn.Closed? && ValidInterval(w.timeoutPeriodMs)))
  }

  /** With nothing in the lifecycle failing, the body runs, nothing escapes, the body's own
      failure is reported exactly once (if logging is on), and the connection is left open
      with a running timer in keep-alive mode and closed otherwise. */
  lemma HealthyEnvelope(w: Wrapper, d: Driver, openInsideTry: bool, body: Option<Failure>)
    requires Healthy(w, d)
    ensures var r := Envelope(w, d, openInsideTry, body);
      && r.bodyRan && r.outcome == Normal
      && r.state.conn == (if w.keepAlive then Open else Closed)
      && (r.state.timer == Running <==> w.keepAlive)
      && r.state.reported == w.reported + (if body.Some? then Logged(w, body.value) else [])
  {
  }

  /** Without keep-alive, an operation whose Close succeeds leaves the connection closed and,
      when it returns normally, no timer running. */
  lemma NonKeepAliveLeavesClosed(w: Wrapper, d: Driver, openInsideTry: bool, body: Option<Failure>)
    requires !w.keepAlive && d.closeSucceeds
    ensures var r := Envelope(w, d, openInsideTry, body);
      && r.state.conn.Closed?
      && (r.outcome.Normal? ==> r.state.timer != Running)
  {
    var (afterOpen, o) := LazyOpenConnection(w, d);
    if o.Threw? {
      assert afterOpen == w;
    }
  }

  /** Without keep-alive, whatever the driver does, the only exception that escapes an
      operation is an Open failure from an overload that opens outside its try. */
  lemma NonKeepAliveOnlyOpenEscapes(w: Wrapper, d: Driver, openInsideTry: bool, body: Option<Failure>)
    requires !w.keepAlive
    ensures var r := Envelope(w, d, openInsideTry, body);
      r.outcome.Threw? ==> !openInsideTry && r.outcome.failure == OpenFailed && w.conn.Closed?
  {
  }

  /** With error logging off, the delegate is never called; with it on, a failing body in an
      otherwise healthy call calls it exactly once, with that failure. */
  lemma ReporterGating(w: Wrapper, d: Driver, openInsideTry: bool, f: Failure)
    ensures !w.enableErrorLog ==> Envelope(w, d, openInsideTry, Some(f)).state.reported == w.reported
    ensures w.enableErrorLog && Healthy(w, d) ==>
              Envelope(w, d, openInsideTry, Some(f)).state.reported == w.reported + [f]
  {
    if w.enableErrorLog && Healthy(w, d) {
      HealthyEnvelope(w, d, openInsideTry, Some(f));
    }
  }

  /** Once the connection is closed, closing again by CloseDbConnection changes nothing, and
      the elapsed handler changes only the timer (to closed); disposing twice is the same as
      disposing once. */
  lemma CloseIdempotent(w: Wrapper, d: Driver, d2: Driver)
    requires d.closeSucceeds
    ensures var once := CloseDbConnection(w, d);
      && once.conn.Closed?
      && CloseDbConnection(once, d2) == once
      && (once.timer == Running ==> CloseConnection(once, d2) == once.(timer := TimerClosed))
    ensures Dispose(Dispose(w)) == Dispose(w)
  {
  }

  /** Keep-alive: an operation that finds the connection open keeps it open and restarts the
      timer; when the timer then elapses the connection is closed. */
  lemma KeepAliveClosesOnlyWhenIdle(w: Wrapper, d: Driver, openInsideTry: bool, body: Option<Failure>)
    requires Valid(w) && w.keepAlive && w.conn.Open? && w.timer == Running && d.closeSucceeds
    ensures var r := Envelope(w, d, openInsideTry, body);
      && r.outcome == Normal && r.state.conn.Open? && r.state.timer == Running
      && r.state.timersCreated == 1
      && CloseConnection(r.state, d).conn.Closed?
  {
    HealthyEnvelope(w, d, openInsideTry, body);
  }

  /** The elapsed handler leaves the closed timer in `_timer`; the next operation reopens the
      connection and restarts that same timer rather than creating a second one. */
  lemma ElapsedTimerIsRestarted(w: Wrapper, d: Driver, d2: Driver, openInsideTry: bool, body: Option<Failure>)
    requires Valid(w) && w.keepAlive && w.timer == Running && d.closeSucceeds && d2.openSucceeds
    ensures var idle := CloseConnection(w, d);
      && idle.conn.Closed? && idle.timer == TimerClosed
      && var r := Envelope(idle, d2, openInsideTry, body);
      && r.bodyRan && r.state.conn.Open? && r.state.timer == Running
      && r.state.timersCreated == 1
      && (d2.closeSucceeds ==> r.outcome == Normal)
  {
    var idle := CloseConnection(w, d);
    assert LazyOpenConnection(idle, d2).0.timer == Running;
  }

  /** In keep-alive mode, an Open failure on first use leaves `_timer` null, so the keep-alive
      check in the finally block dereferences null: the operation raises NullTimer to its
      caller after reporting the Open failure. */
  lemma FirstOpenFailureRaisesNullTimer(w: Wrapper, d: Driver, body: Option<Failure>)
    requires w.keepAlive && w.conn.Closed? && w.timer == NoTimer && !d.openSucceeds
    ensures var r := Envelope(w, d, true, body);
      && !r.bodyRan && r.outcome == Threw(NullTimer)
      && r.state.conn.Closed? && r.state.timer == NoTimer
      && r.state.reported == w.reported + Logged(w, OpenFailed)
  {
  }

  /** An overload that opens outside its try lets an Open failure escape unreported and skips
      the keep-alive check; one that opens inside reports it and, without keep-alive, returns
      normally. */
  lemma OpenOutsideTryEscapes(w: Wrapper, d: Driver, body: Option<Failure>)
    requires w.conn.Closed? && !d.openSucceeds
    ensures Envelope(w, d, false, body) == Run(w, false, Threw(OpenFailed))
    ensures !w.keepAlive ==>
      var inside := Envelope(w, d, true, body);
      && inside.outcome == Normal && !inside.bodyRan
      && inside.state.reported == w.reported + Logged(w, OpenFailed)
  {
  }

  /** In keep-alive mode, an explicit OpenDbConnection before any operation opens the
      connection without creating the timer; the next operation then finds it open, skips
      InitTimer, and raises NullTimer from the keep-alive check. */
  lemma ExplicitOpenLeavesTimerNull(w: Wrapper, d: Driver, d2: Driver, openInsideTry: bool,
                                    body: Option<Failure>)
    requires w.keepAlive && w.timer == NoTimer && d.openSucceeds
    ensures var explicit := OpenDbConnection(w, d);
      && explicit.conn.Open? && explicit.timer == NoTimer
      && var r := Envelope(explicit, d2, openInsideTry, body);
      && r.bodyRan && r.outcome == Threw(NullTimer)
      && r.state.conn.Open? && r.state.timer == NoTimer
  {
  }

  /** In keep-alive mode, an open connection with no timer stays in that state: an operation
      runs its body, raises NullTimer and leaves the connection open with `_timer` null, so
      each operation made while this lasts raises NullTimer. Only CloseDbConnection, Dispose
      or turning KeepAlive off closes the connection. */
  lemma OpenWithoutTimerRaises(w: Wrapper, d: Driver, openInsideTry: bool, body: Option<Failure>)
    requires w.keepAlive && w.conn.Open? && w.timer == NoTimer
    ensures var r := Envelope(w, d, openInsideTry, body);
      && r.bodyRan && r.outcome == Threw(NullTimer)
      && r.state.keepAlive && r.state.conn.Open? && r.state.timer == NoTimer
  {
  }

  /** In keep-alive mode, an idle period the timer refuses makes InitTimer throw on first use:
      the connection is left open; an overload that opens outside its try lets that exception
      escape, and one that opens inside reports it and then raises NullTimer from the
      keep-alive check. */
  lemma InvalidIntervalRaises(w: Wrapper, d: Driver, body: Option<Failure>)
    requires w.keepAlive && w.conn.Closed? && w.timer == NoTimer && d.openSucceeds
    requires !ValidInterval(w.timeoutPeriodMs)
    ensures var outside := Envelope(w, d, false, body);
      && !outside.bodyRan && outside.outcome == Threw(InvalidInterval)
      && outside.state.conn.Open? && outside.state.timer == NoTimer
    ensures var inside := Envelope(w, d, true, body);
      && !inside.bodyRan && inside.outcome == Threw(NullTimer)
      && inside.state.conn.Open? && inside.state.timer == NoTimer
      && inside.state.reported == w.reported + Logged(w, InvalidInterval)
  {
  }

  /** After Dispose of a wrapper whose timer exists, an operation in keep-alive mode never runs
      its body: the connection is open afterwards exactly when the driver lets the disposed
      connection open, and the disposed timer cannot be restarted, so TimerDisposed is raised
      whenever the open is inside the try or succeeds. */
  lemma UseAfterDisposeRaises(w: Wrapper, d: Driver, openInsideTry: bool, body: Option<Failure>)
    requires Valid(w) && w.keepAlive && w.timer != NoTimer
    ensures var r := Envelope(Dispose(w), d, openInsideTry, body);
      && !r.bodyRan && r.state.timer == Disposed
      && (r.state.conn.Open? <==> d.openSucceeds)
      && (openInsideTry || d.openSucceeds ==> r.outcome == Threw(TimerDisposed))
  {
  }
}
