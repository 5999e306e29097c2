/** The defensive helpers: guarded cell access, division with a default,
    a rate check that also bounds the total, and an employee lookup by
    name.  Each returns its default instead of raising. */
module SafeAccess {
  import opened Wrappers
  import Text
  import Numbers
  import Dicts
  import Tables

  /** A loosely typed argument, as the helpers receive it. */
  datatype Value = Number(x: real) | Textual(s: string) | Nothing

  /** `float(v)`: numbers pass, text must read as a decimal, and `None`
      is a type error. */
  function ToFloat(v: Value): (r: Option<real>)
    ensures v.Number? ==> r == Some(v.x)
    ensures v.Nothing? ==> r == None
    ensures v.Textual? ==> r == Numbers.ParseDecimal(v.s)
  {
    match v
    case Number(x) => Some(x)
    case Textual(s) => Numbers.ParseDecimal(s)
    case Nothing => None
  }

  /** `safe_division`: the quotient, or the default for a zero or
      unreadable operand. */
  function SafeDivision(numerator: Value, denominator: Value, default: real): (r: real)
    ensures ToFloat(numerator).None? || ToFloat(denominator).None? ==> r == default
    ensures ToFloat(denominator) == Some(0.0) ==> r == default
    ensures ToFloat(numerator).Some? && ToFloat(denominator).Some? && ToFloat(denominator).value != 0.0 ==>
      r * ToFloat(denominator).value == ToFloat(numerator).value
  {
    match (ToFloat(numerator), ToFloat(denominator))
    case (Some(n), Some(d)) => if d == 0.0 then default else QuotientTimes(n, d); n / d
    case _ => default
  }

  lemma QuotientTimes(n: real, d: real)
    requires d != 0.0
    ensures (n / d) * d == n
  {
  }

  // ---- rates ---------------------------------------------------------------------

  /** The problems the rate check reports, in its order. */
  datatype RateProblem = NoRates | NegativeRate(key: string) | RateOver100(key: string)
                       | InvalidRate(key: string) | TotalOver100(total: real)

  /** The problems of the listed rates and the total of the readable ones
      (negative and oversized rates are added in too). */
  function RateProblems(keys: seq<string>, rates: map<string, Value>): (r: (seq<RateProblem>, real))
    requires forall k :: k in keys ==> k in rates
    ensures r.0 == [] <==> forall k :: k in keys ==> ToFloat(rates[k]).Some? && 0.0 <= ToFloat(rates[k]).value <= 100.0
    ensures r.1 == ReadableTotal(keys, rates)
    ensures forall p :: p in r.0 ==> !p.NoRates? && !p.TotalOver100?
  {
    if keys == [] then ([], 0.0)
    else
      var k := keys[0];
      var rest := RateProblems(keys[1..], rates);
      assert forall x :: x in keys ==> x == k || x in keys[1..];
      match ToFloat(rates[k])
      case None => ([InvalidRate(k)] + rest.0, rest.1)
      case Some(x) =>
        ((if x < 0.0 then [NegativeRate(k)] else if x > 100.0 then [RateOver100(k)] else []) + rest.0, x + rest.1)
  }

  /** The sum of the rates that read as numbers. */
  function ReadableTotal(keys: seq<string>, rates: map<string, Value>): real
    requires forall k :: k in keys ==> k in rates
  {
    if keys == [] then 0.0
    else (match ToFloat(rates[keys[0]]) case Some(x) => x case None => 0.0) + ReadableTotal(keys[1..], rates)
  }

  /** `validate_commission_rates` of the fixes module: no rates is an
      error; otherwise the rates are valid exactly when each reads as a
      number in [0, 100] and together they come to at most 100. */
  function ValidateRates(rates: Dicts.Dict<Value>): (r: (bool, seq<RateProblem>))
    requires rates.Valid()
    ensures rates.entries == map[] ==> r == (false, [NoRates])
    ensures rates.entries != map[] ==>
      (r.0 <==> (forall k :: k in rates.entries ==>
                   ToFloat(rates.entries[k]).Some? && 0.0 <= ToFloat(rates.entries[k]).value <= 100.0)
                && ReadableTotal(rates.order, rates.entries) <= 100.0)
    ensures r.0 <==> r.1 == []
  {
    if rates.entries == map[] then (false, [NoRates])
    else
      var (problems, total) := RateProblems(rates.order, rates.entries);
      var all := problems + (if total > 100.0 then [TotalOver100(total)] else []);
      (all == [], all)
  }

  // ---- frames ----------------------------------------------------------------------

  /** What an access yields: one cell, a whole row, or the default. */
  datatype Access = CellAt(cell: Tables.Cell) | RowAt(row: Tables.Row) | Default

  /** `safe_dataframe_access`: the default for a missing or empty frame,
      an index outside the rows, or an unknown column; without a column (or
      with an empty name, which Python reads as false) the whole row. */
  function SafeFrameAccess(f: Option<Tables.Frame>, index: int, column: Option<string>): (r: Access)
    ensures r.Default? <==> f.None? || Tables.Empty(f.value) || !(0 <= index < |f.value.rows|)
                            || (column.Some? && column.value != "" && column.value !in f.value.columns)
    ensures r.RowAt? ==> f.Some? && 0 <= index < |f.value.rows| && r.row == f.value.rows[index]
                         && (column.None? || column.value == "")
    ensures r.CellAt? ==> f.Some? && 0 <= index < |f.value.rows| && column.Some? && column.value in f.value.columns
                          && r.cell == Tables.Get(f.value.rows[index], column.value)
  {
    if f.None? || Tables.Empty(f.value) then Default
    else if index >= |f.value.rows| || index < 0 then Default
    else if column.Some? && column.value != "" then
      if column.value !in f.value.columns then Default
      else CellAt(Tables.Get(f.value.rows[index], column.value))
    else RowAt(f.value.rows[index])
  }

  const NameColumn := "Name"

  predicate NamedIn(row: Tables.Row, name: string) {
    Tables.Get(row, NameColumn) == Tables.Str(name)
  }

  /** The index of the first row named `name`. */
  function FirstNamed(rows: seq<Tables.Row>, name: string): (r: Option<nat>)
    ensures r.Some? ==> r.value < |rows| && NamedIn(rows[r.value], name)
                        && forall j :: 0 <= j < r.value ==> !NamedIn(rows[j], name)
    ensures r.None? ==> forall j :: 0 <= j < |rows| ==> !NamedIn(rows[j], name)
  {
    if rows == [] then None
    else if NamedIn(rows[0], name) then Some(0)
    else match FirstNamed(rows[1..], name)
      case None => None
      case Some(k) => Some(k + 1)
  }

  /** `safe_employee_lookup`: the first row whose name is the stripped
      query; nothing for missing data, a frame without a Name column, a
      blank query or no match. */
  function SafeEmployeeLookup(name: string, f: Option<Tables.Frame>): (r: Option<Tables.Row>)
    ensures f.None? || Tables.Empty(f.value) || NameColumn !in f.value.columns || Text.Strip(name) == "" ==> r.None?
    ensures r.Some? ==> exists i :: 0 <= i < |f.value.rows| && f.value.rows[i] == r.value
                                   && NamedIn(r.value, Text.Strip(name))
                                   && forall j :: 0 <= j < i ==> !NamedIn(f.value.rows[j], Text.Strip(name))
    ensures r.None? && f.Some? && !Tables.Empty(f.value) && NameColumn in f.value.columns && Text.Strip(name) != "" ==>
      forall row :: row in f.value.rows ==> !NamedIn(row, Text.Strip(name))
  {
    if f.None? || Tables.Empty(f.value) || NameColumn !in f.value.columns then None
    else
      var clean := Text.Strip(name);
      if clean == "" then None
      else match FirstNamed(f.value.rows, clean)
        case None => None
        case Some(i) => Some(f.value.rows[i])
  }

  /** Rows that differ only after the first match do not change the
      lookup. */
  lemma LookupIgnoresLaterRows(name: string, columns: seq<string>, rows: seq<Tables.Row>, more: seq<Tables.Row>)
    requires rows != [] && Text.Strip(name) != "" && exists j :: 0 <= j < |rows| && NamedIn(rows[j], Text.Strip(name))
    ensures SafeEmployeeLookup(name, Some(Tables.Frame(columns, rows + more)))
            == SafeEmployeeLookup(name, Some(Tables.Frame(columns, rows)))
  {
    var clean := Text.Strip(name);
    var j :| 0 <= j < |rows| && NamedIn(rows[j], clean);
    assert FirstNamed(rows, clean).Some?;
    FirstNamedPrefix(rows, more, clean);
  }

  lemma {:induction false} FirstNamedPrefix(rows: seq<Tables.Row>, more: seq<Tables.Row>, name: string)
    requires FirstNamed(rows, name).Some?
    ensures FirstNamed(rows + more, name) == FirstNamed(rows, name)
  {
    if !NamedIn(rows[0], name) {
      assert (rows + more)[1..] == rows[1..] + more;
      FirstNamedPrefix(rows[1..], more, name);
    }
  }
}
