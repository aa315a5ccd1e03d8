/** The values the wrapper exchanges with the database driver and with its caller.
    The driver (connection, command, data reader) is foreign code: the model receives
    what it does as inputs of these types. */
module Db {

  datatype Option<T> = None | Some(value: T)

  /** What was thrown, named by the place that throws it. */
  datatype Failure =
    | OpenFailed        // DbConnection.Open threw
    | CloseFailed       // DbConnection.Close threw
    | ExecuteFailed     // creating or executing the command threw
    | ReadFailed        // DbDataReader.Read threw
    | DecodeFailed      // the caller's row delegate threw
    | MultipleRows      // SelectOne met a second row
    | InvalidInterval   // new Timer(TimeoutPeriodMs) rejected the interval
    | NullTimer         // _timer was dereferenced while it was null
    | TimerDisposed     // a disposed timer was started again

  /** How a statement ends: normally, or by throwing. */
  datatype Outcome = Normal | Threw(failure: Failure)

  /** What a public operation hands its caller: a value, or an exception that escapes it. */
  datatype Completion<T> = Returned(value: T) | Raised(failure: Failure)

  /** Whether the next DbConnection.Open and DbConnection.Close calls succeed. */
  datatype Driver = Driver(openSucceeds: bool, closeSucceeds: bool)

  /** A named parameter bound to a command (CreateSqlParameter). */
  datatype Parameter<V> = Parameter(name: string, value: V)

  /** A command as the driver receives it: the SQL text and its bound parameters. */
  datatype Command<V> = Command(text: string, parameters: seq<Parameter<V>>)

  /** What ExecuteReader gives: a failure, or a reader that yields `rows` and then either
      reports the end normally or throws from Read (`faultAtEnd`). */
  datatype ReaderOutcome<R> = ExecuteReaderFailed | Reader(rows: seq<R>, faultAtEnd: bool)

  /** What ExecuteNonQuery gives: a failure, or the affected-row count the driver reports. */
  datatype NonQueryOutcome = ExecuteNonQueryFailed | Affected(count: int)

  /** A public property of an item handed to Insert: its name, its value, and whether it
      carries the exclusion attribute. */
  datatype Property<V> = Property(name: string, value: V, excluded: bool)
}
