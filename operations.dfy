/** The data operations as values: what the row loops of SelectOne and SelectList produce,
    which parameters Insert binds for an item, and each operation as the shared envelope
    around its body. */
module Operations {
  import opened Db
  import opened Lifecycle

  /** The `while (reader.Read())` loop of SelectOne: the value it leaves in `result` and the
      failure, if any, that ends it. The first row is decoded; a second row is a failure,
      but `result` already holds the first row's value. */
  function ReadOne<R, T>(reader: ReaderOutcome<R>, decode: R -> Option<T>, dflt: T): (r: (T, Option<Failure>))
    ensures reader.ExecuteReaderFailed? ==> r == (dflt, Some(ExecuteFailed))
    // The value is the default unless the first row decodes, and then it is that row's value.
    ensures reader.Reader? && |reader.rows| > 0 && decode(reader.rows[0]).Some? ==>
              r.0 == decode(reader.rows[0]).value
    ensures !(reader.Reader? && |reader.rows| > 0 && decode(reader.rows[0]).Some?) ==> r.0 == dflt
    // A second row is reported as such once the first has decoded.
    ensures r.1 == Some(MultipleRows) <==>
              reader.Reader? && |reader.rows| >= 2 && decode(reader.rows[0]).Some?
    // A first row that fails to decode ends the loop with the delegate's failure.
    ensures reader.Reader? && |reader.rows| > 0 && decode(reader.rows[0]).None? ==>
              r.1 == Some(DecodeFailed)
    // Otherwise, with at most one row, a reader that throws ends it with its failure.
    ensures reader.Reader? && reader.faultAtEnd && |reader.rows| <= 1 &&
            (|reader.rows| == 1 ==> decode(reader.rows[0]).Some?) ==>
              r.1 == Some(ReadFailed)
    // The loop ends cleanly exactly when there is at most one row, it decodes, and the
    // reader ends without throwing.
    ensures r.1 == None <==>
              reader.Reader? && |reader.rows| <= 1 && !reader.faultAtEnd &&
              (|reader.rows| == 1 ==> decode(reader.rows[0]).Some?)
  {
    match reader
    case ExecuteReaderFailed => (dflt, Some(ExecuteFailed))
    case Reader(rows, faultAtEnd) =>
      if |rows| == 0 then (dflt, if faultAtEnd then Some(ReadFailed) else None)
      else match decode(rows[0])
        case None => (dflt, Some(DecodeFailed))
        case Some(v) =>
          if |rows| >= 2 then (v, Some(MultipleRows))
          else (v, if faultAtEnd then Some(ReadFailed) else None)
  }

  /** `values` are the decoded leading rows of `rows`, in reader order. */
  ghost predicate IsDecodedPrefix<R, T>(values: seq<T>, rows: seq<R>, decode: R -> Option<T>) {
    |values| <= |rows| && forall i :: 0 <= i < |values| ==> decode(rows[i]) == Some(values[i])
  }

  /** The `while (reader.Read()) result.Add(decode(reader))` loop of SelectList over a reader
      that yields `rows`: the list it builds and the failure, if any, that ends it. */
  function Collect<R, T>(rows: seq<R>, faultAtEnd: bool, decode: R -> Option<T>): (r: (seq<T>, Option<Failure>))
    ensures IsDecodedPrefix(r.0, rows, decode)
    // It stops short only at a row that fails to decode ...
    ensures |r.0| < |rows| ==> decode(rows[|r.0|]).None? && r.1 == Some(DecodeFailed)
    // ... and otherwise ends as the reader ends.
    ensures |r.0| == |rows| ==> r.1 == (if faultAtEnd then Some(ReadFailed) else None)
    decreases |rows|
  {
    if rows == [] then ([], if faultAtEnd then Some(ReadFailed) else None)
    else match decode(rows[0])
      case None => ([], Some(DecodeFailed))
      case Some(v) =>
        var rest := Collect(rows[1..], faultAtEnd, decode);
        ([v] + rest.0, rest.1)
  }

  /** Collect's contract determines its result: any list and failure that meet it are
      what the loop produces. */
  lemma CollectCharacterized<R, T>(rows: seq<R>, faultAtEnd: bool, decode: R -> Option<T>,
                                   values: seq<T>, failure: Option<Failure>)
    requires IsDecodedPrefix(values, rows, decode)
    requires |values| < |rows| ==> decode(rows[|values|]).None? && failure == Some(DecodeFailed)
    requires |values| == |rows| ==> failure == (if faultAtEnd then Some(ReadFailed) else None)
    ensures Collect(rows, faultAtEnd, decode) == (values, failure)
  {
    var c := Collect(rows, faultAtEnd, decode);
    assert |c.0| == |values|;
    forall i | 0 <= i < |values| ensures c.0[i] == values[i] {
      assert decode(rows[i]) == Some(c.0[i]);
    }
    assert c.0 == values;
  }

  /** SelectList's body: execute the reader, then collect its rows. */
  function ReadAll<R, T>(reader: ReaderOutcome<R>, decode: R -> Option<T>): (seq<T>, Option<Failure>) {
    match reader
    case ExecuteReaderFailed => ([], Some(ExecuteFailed))
    case Reader(rows, faultAtEnd) => Collect(rows, faultAtEnd, decode)
  }

  /** The parameter CreateSqlParameter builds for one property. */
  function Bind<V>(p: Property<V>): Parameter<V> {
    Parameter(p.name, p.value)
  }

  /** AddParamsForInsert: one parameter per property without the exclusion attribute,
      in property order. */
  function ParamsForInsert<V>(props: seq<Property<V>>): (ps: seq<Parameter<V>>)
    ensures |ps| <= |props|
    ensures (forall i :: 0 <= i < |props| ==> !props[i].excluded) ==>
              |ps| == |props| && forall i :: 0 <= i < |props| ==> ps[i] == Bind(props[i])
    ensures (forall i :: 0 <= i < |props| ==> props[i].excluded) ==> ps == []
    decreases |props|
  {
    if props == [] then []
    else (if props[0].excluded then [] else [Bind(props[0])]) + ParamsForInsert(props[1..])
  }

  /** Binding is done property by property: the parameters of a concatenation are the
      parameters of each part, in order. */
  lemma {:induction false} ParamsForInsertConcat<V>(a: seq<Property<V>>, b: seq<Property<V>>)
    ensures ParamsForInsert(a + b) == ParamsForInsert(a) + ParamsForInsert(b)
    decreases |a|
  {
    if a == [] {
      assert a + b == b;
    } else {
      assert (a + b)[1..] == a[1..] + b;
      ParamsForInsertConcat(a[1..], b);
    }
  }

  /** Every property without the exclusion attribute is bound, and every bound parameter
      comes from such a property. */
  lemma {:induction false} ParamsForInsertMembers<V>(props: seq<Property<V>>)
    ensures forall i :: 0 <= i < |props| && !props[i].excluded ==> Bind(props[i]) in ParamsForInsert(props)
    ensures forall p :: p in ParamsForInsert(props) ==>
              exists i :: 0 <= i < |props| && !props[i].excluded && p == Bind(props[i])
    decreases |props|
  {
    if props != [] {
      var rest := props[1..];
      ParamsForInsertMembers(rest);
      forall i | 0 <= i < |props| && !props[i].excluded
        ensures Bind(props[i]) in ParamsForInsert(props)
      {
        if i > 0 {
          assert props[i] == rest[i - 1];
        }
      }
      forall p | p in ParamsForInsert(props)
        ensures exists i :: 0 <= i < |props| && !props[i].excluded && p == Bind(props[i])
      {
        if p in ParamsForInsert(rest) {
          var j :| 0 <= j < |rest| && !rest[j].excluded && p == Bind(rest[j]);
          assert props[j + 1] == rest[j];
        } else {
          assert !props[0].excluded && p == Bind(props[0]);
        }
      }
    }
  }

  /** How a public operation ends, given the envelope's run and the value its `result`
      variable holds when the finally block completes. */
  function Complete<T>(run: Run, value: T): Completion<T> {
    if run.outcome.Threw? then Raised(run.outcome.failure) else Returned(value)
  }

  /** SelectOne: the envelope (open inside the try) around the single-row loop. */
  function SelectOne<R, T, V>(w: Wrapper, d: Driver, cmd: Command<V>,
                              executeReader: Command<V> -> ReaderOutcome<R>,
                              decode: R -> Option<T>, dflt: T): (r: (Wrapper, Completion<T>))
    ensures Valid(w) ==> Valid(r.0)
    ensures w.reported <= r.0.reported
    // Only the default or the first row's decoded value is ever returned.
    ensures r.1.Returned? ==>
              r.1.value == dflt ||
              (executeReader(cmd).Reader? && |executeReader(cmd).rows| > 0 &&
               decode(executeReader(cmd).rows[0]) == Some(r.1.value))
  {
    var read := ReadOne(executeReader(cmd), decode, dflt);
    var run := Envelope(w, d, true, read.1);
    (run.state, Complete(run, if run.bodyRan then read.0 else dflt))
  }

  /** SelectList, with or without parameters: the envelope (open inside the try) around the
      row-collecting loop; the list built so far is returned even when the loop fails. */
  function SelectList<R, T, V>(w: Wrapper, d: Driver, cmd: Command<V>,
                               executeReader: Command<V> -> ReaderOutcome<R>,
                               decode: R -> Option<T>): (r: (Wrapper, Completion<seq<T>>))
    ensures Valid(w) ==> Valid(r.0)
    ensures w.reported <= r.0.reported
    // What is returned is always the decoded leading rows of what the reader yields.
    ensures r.1.Returned? && executeReader(cmd).ExecuteReaderFailed? ==> r.1.value == []
    ensures r.1.Returned? && executeReader(cmd).Reader? ==>
              IsDecodedPrefix(r.1.value, executeReader(cmd).rows, decode)
  {
    var read := ReadAll(executeReader(cmd), decode);
    var run := Envelope(w, d, true, read.1);
    (run.state, Complete(run, if run.bodyRan then read.0 else []))
  }

  /** Insert, Update and Delete: the envelope around ExecuteNonQuery. `openInsideTry` is
      false for Insert(string) and Update(string), which open before their try. */
  function NonQuery<V>(w: Wrapper, d: Driver, openInsideTry: bool, cmd: Command<V>,
                       execute: Command<V> -> NonQueryOutcome): (r: (Wrapper, Completion<int>))
    ensures Valid(w) ==> Valid(r.0)
    ensures w.reported <= r.0.reported
    // The count returned is the driver's, or 0 when the statement did not complete.
    ensures r.1.Returned? ==> r.1.value == 0 || execute(cmd) == Affected(r.1.value)
    ensures r.1.Returned? && execute(cmd).ExecuteNonQueryFailed? ==> r.1.value == 0
  {
    var outcome := execute(cmd);
    var run := Envelope(w, d, openInsideTry,
                        if outcome.ExecuteNonQueryFailed? then Some(ExecuteFailed) else None);
    (run.state, Complete(run, if run.bodyRan && outcome.Affected? then outcome.count else 0))
  }

  /** SelectOne by row count, in a call where nothing in the lifecycle fails: no row gives the
      default; one row gives its decoded value; two or more give the FIRST row's decoded value
      and one MultipleRows report. With at most one row, a Read that throws at the end is
      reported once and the value is still returned. */
  lemma SelectOneByRowCount<R, T, V>(w: Wrapper, d: Driver, cmd: Command<V>,
                                     executeReader: Command<V> -> ReaderOutcome<R>,
                                     decode: R -> Option<T>, dflt: T, rows: seq<R>,
                                     faultAtEnd: bool)
    requires Healthy(w, d)
    requires executeReader(cmd) == Reader(rows, faultAtEnd)
    requires |rows| > 0 ==> decode(rows[0]).Some?
    ensures var r := SelectOne(w, d, cmd, executeReader, decode, dflt);
      && (|rows| == 0 ==> r.1 == Returned(dflt))
      && (|rows| == 1 ==> r.1 == Returned(decode(rows[0]).value))
      && (|rows| <= 1 ==>
            r.0.reported == w.reported + (if faultAtEnd then Logged(w, ReadFailed) else []))
      && (|rows| >= 2 ==> r.1 == Returned(decode(rows[0]).value) &&
                          r.0.reported == w.reported + Logged(w, MultipleRows))
  {
    HealthyEnvelope(w, d, true, ReadOne(executeReader(cmd), decode, dflt).1);
  }

  /** SelectList, in a call where nothing in the lifecycle fails, over a reader that yields
      `rows`, all of which decode: exactly one value per row, in row order. If Read throws
      after the last row, the rows already read are still returned and the failure is
      reported once; otherwise nothing is reported. */
  lemma SelectListAllRows<R, T, V>(w: Wrapper, d: Driver, cmd: Command<V>,
                                   executeReader: Command<V> -> ReaderOutcome<R>,
                                   decode: R -> Option<T>, rows: seq<R>, faultAtEnd: bool)
    requires Healthy(w, d)
    requires executeReader(cmd) == Reader(rows, faultAtEnd)
    requires forall i :: 0 <= i < |rows| ==> decode(rows[i]).Some?
    ensures var r := SelectList(w, d, cmd, executeReader, decode);
      && r.1.Returned? && |r.1.value| == |rows|
      && (forall i :: 0 <= i < |rows| ==> r.1.value[i] == decode(rows[i]).value)
      && r.0.reported == w.reported + (if faultAtEnd then Logged(w, ReadFailed) else [])
  {
    HealthyEnvelope(w, d, true, Collect(rows, faultAtEnd, decode).1);
  }

  /** SelectList where the row at index k is the first that fails to decode: the k rows
      before it are returned, decoded, and the failure is reported once. */
  lemma SelectListStopsAtDecodeFailure<R, T, V>(w: Wrapper, d: Driver, cmd: Command<V>,
                                                executeReader: Command<V> -> ReaderOutcome<R>,
                                                decode: R -> Option<T>, rows: seq<R>,
                                                faultAtEnd: bool, k: nat)
    requires Healthy(w, d)
    requires executeReader(cmd) == Reader(rows, faultAtEnd)
    requires k < |rows| && decode(rows[k]).None?
    requires forall i :: 0 <= i < k ==> decode(rows[i]).Some?
    ensures var r := SelectList(w, d, cmd, executeReader, decode);
      && r.1.Returned? && |r.1.value| == k
      && (forall i :: 0 <= i < k ==> r.1.value[i] == decode(rows[i]).value)
      && r.0.reported == w.reported + Logged(w, DecodeFailed)
  {
    HealthyEnvelope(w, d, true, Collect(rows, faultAtEnd, decode).1);
  }

  /** Insert, Update and Delete, in a call where nothing in the lifecycle fails: the driver's
      count when the statement completes; 0 and one ExecuteFailed report when it throws. */
  lemma NonQueryCount<V>(w: Wrapper, d: Driver, openInsideTry: bool, cmd: Command<V>,
                         execute: Command<V> -> NonQueryOutcome)
    requires Healthy(w, d)
    ensures var r := NonQuery(w, d, openInsideTry, cmd, execute);
      && (execute(cmd).Affected? ==>
            r.1 == Returned(execute(cmd).count) && r.0.reported == w.reported)
      && (execute(cmd).ExecuteNonQueryFailed? ==>
            r.1 == Returned(0) && r.0.reported == w.reported + Logged(w, ExecuteFailed))
  {
    var outcome := execute(cmd);
    HealthyEnvelope(w, d, openInsideTry,
                    if outcome.ExecuteNonQueryFailed? then Some(ExecuteFailed) else None);
  }
}
