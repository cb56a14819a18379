/** `_get_future_output`: what a finished unit of a thread-pool batch reports. */
module Utils {
  import opened Wrappers
  import opened Errors
  import opened Batch

  /** How a submitted unit finished: it returned a value or raised. */
  datatype Outcome<T> = Returned(value: T) | Raised(error: Error)

  /** What the batch records for a unit: its value, or the `repr` of what it raised. */
  datatype Captured<T> = Value(value: T) | Description(text: string)

  /** `future.result()`, with an `Exception` turned into its `repr`; anything that
      is not an `Exception` (a bare `BaseException`) propagates. */
  function GetFutureOutput<T>(o: Outcome<T>): (r: Result<Captured<T>, Error>)
    ensures r.Failure? <==> o.Raised? && !o.error.isException
    ensures o.Returned? ==> r == Success(Value(o.value))
    ensures o.Raised? && o.error.isException ==> r == Success(Description(Repr(o.error)))
  {
    match o
    case Returned(v) => Success(Value(v))
    case Raised(e) => if e.isException then Success(Description(Repr(e))) else Failure(e)
  }

  /** The unit's value and a captured exception are told apart by their constructor,
      and a description names the exception's class first. */
  lemma CapturedDescribes<T>(o: Outcome<T>)
    requires o.Raised? && o.error.isException
    ensures GetFutureOutput(o).Success? && GetFutureOutput(o).value.Description?
    ensures var text := GetFutureOutput(o).value.text;
            |text| > |o.error.cls| && text[..|o.error.cls|] == o.error.cls
  {
  }

  /** `1 / 0` in a unit is reported as `ZeroDivisionError('division by zero')`. */
  lemma ZeroDivisionReported(m: string)
    requires m == "division by zero"
    ensures GetFutureOutput<int>(Raised(Builtin("ZeroDivisionError", m)))
            == Success(Description("ZeroDivisionError('" + m + "')"))
  {
    forall i | 0 <= i < |m| ensures Plain(m[i], '\'') {
    }
    AllPlainMeaning(m, '\'');
    PlainReported("ZeroDivisionError", m);
    assert "ZeroDivisionError" + "('" == "ZeroDivisionError('";
  }

  /** An exception whose message needs no escape is reported as its class, then the
      message in single quotes, in parentheses. */
  lemma PlainReported(cls: string, message: string)
    requires cls != "ClientError"
    requires AllPlain(message, '\'')
    ensures GetFutureOutput<int>(Raised(Builtin(cls, message))) == Success(Description(cls + "('" + message + "')"))
  {
    QuotePlain(message);
    assert cls + "(" + ("'" + message + "'") + ")" == cls + "('" + message + "')";
  }

  /** For each unit, whether it returned. */
  function Succeeded<T>(os: seq<Outcome<T>>): (r: seq<bool>)
    ensures |r| == |os| && forall i :: 0 <= i < |os| ==> r[i] == os[i].Returned?
  {
    seq(|os|, i requires 0 <= i < |os| => os[i].Returned?)
  }

  /** One more unit adds one to the count of units that returned exactly when it returned. */
  lemma CountStep<T>(outcomes: seq<Outcome<T>>, o: Outcome<T>)
    ensures Count(Succeeded(outcomes + [o])) == Count(Succeeded(outcomes)) + if o.Returned? then 1 else 0
  {
    CountAppend(Succeeded(outcomes), [o.Returned?]);
    assert Succeeded(outcomes + [o]) == Succeeded(outcomes) + [o.Returned?];
  }

  /** One row of a batch's output: two identifiers of the unit and its captured outcome. */
  type Report<T> = (string, string, Captured<T>)

  /** The captured outcome a batch reports for a unit whose exception, if any, is an
      `Exception`: any other would propagate out of the batch instead. */
  function Capture<T>(o: Outcome<T>): (c: Captured<T>)
    requires o.Raised? ==> o.error.isException
    ensures c.Value? <==> o.Returned?
  {
    GetFutureOutput(o).value
  }

  /** The identifier pairs of the rows. */
  function Pairs<T>(rows: seq<Report<T>>): (r: seq<(string, string)>)
    ensures |r| == |rows| && forall i :: 0 <= i < |rows| ==> r[i] == (rows[i].0, rows[i].1)
  {
    seq(|rows|, i requires 0 <= i < |rows| => (rows[i].0, rows[i].1))
  }

  /** For each row, whether it reports a value rather than an exception. */
  function Delivered<T>(rows: seq<Report<T>>): (r: seq<bool>)
    ensures |r| == |rows| && forall i :: 0 <= i < |rows| ==> r[i] == rows[i].2.Value?
  {
    seq(|rows|, i requires 0 <= i < |rows| => rows[i].2.Value?)
  }

  /** Rows that capture the outcomes one by one report a value exactly where a unit returned. */
  lemma DeliveredSucceeded<T>(rows: seq<Report<T>>, os: seq<Outcome<T>>)
    requires |rows| == |os| && forall i :: 0 <= i < |os| && os[i].Raised? ==> os[i].error.isException
    requires forall i :: 0 <= i < |rows| ==> rows[i].2 == Capture(os[i])
    ensures Delivered(rows) == Succeeded(os)
  {
  }

  /** Rearranging the rows in completion order keeps the number that report a value. */
  lemma DeliveredReorder<T>(rows: seq<Report<T>>, order: seq<nat>)
    requires IsCompletionOrder(order, |rows|)
    ensures InRange(order, |rows|) && Count(Delivered(Reorder(rows, order))) == Count(Delivered(rows))
  {
    CountReorder(Delivered(rows), order);
    assert Delivered(Reorder(rows, order)) == Reorder(Delivered(rows), order);
  }
}
