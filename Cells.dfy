/**
 * The values the pipeline moves around: JSON values as `json.load` produces them,
 * which are also the cells of the pandas frames and of the DuckDB tables built from them.
 */
module Cells {

  /** A calendar date and time of day, compared lexicographically (one fixed time zone). */
  datatype DateTime = DateTime(year: int, month: int, day: int, hour: int, minute: int, second: int)

  /** `a` is no later than `b`. */
  predicate NotAfter(a: DateTime, b: DateTime) {
    if a.year != b.year then a.year < b.year
    else if a.month != b.month then a.month < b.month
    else if a.day != b.day then a.day < b.day
    else if a.hour != b.hour then a.hour < b.hour
    else if a.minute != b.minute then a.minute < b.minute
    else a.second <= b.second
  }

  /** Midnight at the start of the given day: what a `'YYYY-MM-DD'` literal denotes as a timestamp. */
  function Midnight(year: int, month: int, day: int): DateTime {
    DateTime(year, month, day, 0, 0, 0)
  }

  /**
   * A cell. `NaN` is the float NaN that pandas uses for a missing key and that JSON may spell
   * out; `Null` is Python's `None` (JSON `null`, SQL `NULL`); `Timestamp` only appears in the
   * database, as the result of parsing a time string.
   */
  datatype Value =
    | Null
    | NaN
    | Bool(b: bool)
    | Num(n: real)
    | Str(s: string)
    | Arr(items: seq<Value>)
    | Obj(fields: map<string, Value>)
    | Timestamp(at: DateTime)

  /** A JSON object, a Python dict with string keys, a table row. */
  type Object = map<string, Value>

  /** Every key that occurs in some element of `objs`: the columns pandas builds a frame with. */
  function Columns(objs: seq<Object>): (cols: set<string>)
    ensures forall i, k :: 0 <= i < |objs| && k in objs[i] ==> k in cols
    ensures forall k :: k in cols ==> exists i :: 0 <= i < |objs| && k in objs[i]
  {
    if objs == [] then {}
    else
      var rest := Columns(objs[1..]);
      assert forall i, k :: 1 <= i < |objs| && k in objs[i] ==> k in objs[1..][i - 1];
      objs[0].Keys + rest
  }
}
