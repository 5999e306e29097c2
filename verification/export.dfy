/** Exports of commission data: CSV text in the form Python's `csv`
    writer produces with its default dialect (comma separators, `"` quotes
    only where needed, "\r\n" line ends), the payroll export and the
    business-unit report.  Values reach the CSV writer as text already;
    `None` is written as an empty field. */
module Export {
  import opened Wrappers
  import Dicts

  const Crlf := "\r\n"

  // ---- writing ---------------------------------------------------------------------------

  predicate Special(c: char) {
    c == ',' || c == '"' || c == '\r' || c == '\n'
  }

  /** A field that must be quoted: it holds a separator, a quote or a line
      break. */
  predicate NeedsQuotes(f: string) {
    exists i :: 0 <= i < |f| && Special(f[i])
  }

  /** Quotes inside a quoted field are doubled. */
  function Escape(f: string): string {
    if f == [] then [] else (if f[0] == '"' then "\"\"" else [f[0]]) + Escape(f[1..])
  }

  function Quoted(f: string): string {
    "\"" + Escape(f) + "\""
  }

  /** One field as written; a record whose only field is empty writes it
      as `""` so that the line is not blank. */
  function FieldText(f: string, alone: bool): string {
    if NeedsQuotes(f) || (alone && f == []) then Quoted(f) else f
  }

  function Joined(fields: seq<string>): string {
    if fields == [] then []
    else if |fields| == 1 then FieldText(fields[0], false)
    else FieldText(fields[0], false) + "," + Joined(fields[1..])
  }

  /** One record with its line end. */
  function RecordText(fields: seq<string>): string {
    (if |fields| == 1 then FieldText(fields[0], true) else Joined(fields)) + Crlf
  }

  function Lines(records: seq<seq<string>>): string {
    if records == [] then [] else RecordText(records[0]) + Lines(records[1..])
  }

  // ---- reading back ----------------------------------------------------------------------

  /** The rest of a quoted field after its opening quote: the field and the
      text after its closing quote. */
  function ReadQuoted(s: string): (r: (string, string))
    ensures |r.1| <= |s|
  {
    if s == [] then ([], [])
    else if s[0] == '"' then
      if |s| > 1 && s[1] == '"' then
        var t := ReadQuoted(s[2..]);
        (['"'] + t.0, t.1)
      else ([], s[1..])
    else
      var t := ReadQuoted(s[1..]);
      ([s[0]] + t.0, t.1)
  }

  /** An unquoted field runs up to the next separator or carriage return. */
  function ReadPlain(s: string): (r: (string, string))
    ensures |r.1| <= |s|
  {
    if s == [] || s[0] == ',' || s[0] == '\r' then ([], s)
    else
      var t := ReadPlain(s[1..]);
      ([s[0]] + t.0, t.1)
  }

  function ReadField(s: string): (r: (string, string))
    ensures |r.1| <= |s|
  {
    if s != [] && s[0] == '"' then ReadQuoted(s[1..]) else ReadPlain(s)
  }

  /** One record: its fields and the text after its line end. */
  function ReadRecord(s: string): (r: (seq<string>, string))
    ensures |r.1| <= |s|
    decreases |s|
  {
    var f := ReadField(s);
    if f.1 != [] && f.1[0] == ',' then
      var t := ReadRecord(f.1[1..]);
      ([f.0] + t.0, t.1)
    else if |f.1| >= 2 && f.1[..2] == Crlf then ([f.0], f.1[2..])
    else ([f.0], f.1)
  }

  /** The records of a CSV text. */
  function ReadCsv(s: string): seq<seq<string>>
    decreases |s|
  {
    if s == [] then []
    else
      var r := ReadRecord(s);
      if |r.1| < |s| then [r.0] + ReadCsv(r.1) else [r.0]
  }

  /** A quoted field reads back as it was. */
  lemma {:induction false} ReadEscaped(f: string, tail: string)
    requires tail == [] || tail[0] != '"'
    ensures ReadQuoted(Escape(f) + "\"" + tail) == (f, tail)
  {
    var s := Escape(f) + "\"" + tail;
    if f == [] {
      assert s == "\"" + tail;
    } else {
      ReadEscaped(f[1..], tail);
      if f[0] == '"' {
        assert s == "\"\"" + (Escape(f[1..]) + "\"" + tail);
        assert s[2..] == Escape(f[1..]) + "\"" + tail;
      } else {
        assert s == [f[0]] + (Escape(f[1..]) + "\"" + tail);
        assert s[1..] == Escape(f[1..]) + "\"" + tail;
      }
      assert f == [f[0]] + f[1..];
    }
  }

  lemma {:induction false} ReadUnquoted(f: string, tail: string)
    requires !NeedsQuotes(f)
    requires tail == [] || tail[0] == ',' || tail[0] == '\r'
    ensures ReadPlain(f + tail) == (f, tail)
  {
    if f != [] {
      assert !Special(f[0]);
      assert !NeedsQuotes(f[1..]) by {
        forall i | 0 <= i < |f[1..]| ensures !Special(f[1..][i]) {
          assert f[1..][i] == f[i + 1];
        }
      }
      ReadUnquoted(f[1..], tail);
      assert (f + tail)[1..] == f[1..] + tail;
      assert f == [f[0]] + f[1..];
    } else {
      assert f + tail == tail;
    }
  }

  /** Every written field reads back as it was, up to what follows it. */
  lemma FieldReads(f: string, alone: bool, tail: string)
    requires tail == [] || tail[0] == ',' || tail[0] == '\r'
    ensures ReadField(FieldText(f, alone) + tail) == (f, tail)
  {
    if NeedsQuotes(f) || (alone && f == []) {
      ReadEscaped(f, tail);
      assert (Quoted(f) + tail)[1..] == Escape(f) + "\"" + tail;
    } else {
      ReadUnquoted(f, tail);
      if f != [] {
        assert !Special(f[0]);
      } else {
        assert f + tail == tail;
      }
    }
  }

  /** A field followed by a line end closes the record. */
  lemma RecordEnds(s: string, f: string, more: string)
    requires ReadField(s) == (f, Crlf + more)
    ensures ReadRecord(s) == ([f], more)
  {
    assert (Crlf + more)[0] == '\r' && (Crlf + more)[..2] == Crlf && (Crlf + more)[2..] == more;
  }

  /** A field followed by a separator starts the rest of the record. */
  lemma RecordGoesOn(s: string, f: string, t: string)
    requires ReadField(s) == (f, "," + t)
    ensures ReadRecord(s) == ([f] + ReadRecord(t).0, ReadRecord(t).1)
  {
    assert ("," + t)[1..] == t;
  }

  lemma {:induction false} JoinedReads(fields: seq<string>, more: string)
    requires |fields| >= 1
    ensures ReadRecord(Joined(fields) + Crlf + more) == (fields, more)
  {
    if |fields| == 1 {
      FieldReads(fields[0], false, Crlf + more);
      assert Joined(fields) + Crlf + more == FieldText(fields[0], false) + (Crlf + more);
      RecordEnds(Joined(fields) + Crlf + more, fields[0], more);
      assert fields == [fields[0]];
    } else {
      var t := Joined(fields[1..]) + Crlf + more;
      FieldReads(fields[0], false, "," + t);
      assert Joined(fields) + Crlf + more == FieldText(fields[0], false) + ("," + t);
      RecordGoesOn(Joined(fields) + Crlf + more, fields[0], t);
      JoinedReads(fields[1..], more);
      assert fields == [fields[0]] + fields[1..];
    }
  }

  /** A written record reads back as the same fields. */
  lemma RecordReads(fields: seq<string>, more: string)
    requires |fields| >= 1
    ensures ReadRecord(RecordText(fields) + more) == (fields, more)
  {
    if |fields| == 1 {
      FieldReads(fields[0], true, Crlf + more);
      assert RecordText(fields) + more == FieldText(fields[0], true) + (Crlf + more);
      RecordEnds(RecordText(fields) + more, fields[0], more);
      assert fields == [fields[0]];
    } else {
      JoinedReads(fields, more);
      assert RecordText(fields) + more == Joined(fields) + Crlf + more;
    }
  }

  /** A record that consumes text is followed by the records of the rest. */
  lemma CsvGoesOn(s: string, rec: seq<string>, rest: string)
    requires s != [] && ReadRecord(s) == (rec, rest) && |rest| < |s|
    ensures ReadCsv(s) == [rec] + ReadCsv(rest)
  {
  }

  /** Written records read back as the same records, provided none of them
      is empty. */
  lemma {:induction false} CsvReads(records: seq<seq<string>>)
    requires forall i :: 0 <= i < |records| ==> |records[i]| >= 1
    ensures ReadCsv(Lines(records)) == records
  {
    if records != [] {
      var rest := Lines(records[1..]);
      RecordReads(records[0], rest);
      assert Lines(records) == RecordText(records[0]) + rest;
      assert |RecordText(records[0])| >= 2;
      CsvGoesOn(Lines(records), records[0], rest);
      CsvReads(records[1..]);
      assert records == [records[0]] + records[1..];
    }
  }

  // ---- export_to_csv ---------------------------------------------------------------------

  /** A data row: a dict from column name to text, `None` for no value. */
  type Item = Dicts.Dict<Option<string>>

  /** A row holding a key the header does not name. */
  predicate Extra(row: Item, header: seq<string>) {
    exists k :: k in row.entries && k !in header
  }

  /** The fields of one row under the header: missing keys and `None`
      values are empty. */
  function Values(row: Item, header: seq<string>): (r: seq<string>)
    ensures |r| == |header|
  {
    seq(|header|, i requires 0 <= i < |header| =>
      if header[i] in row.entries && row.entries[header[i]].Some? then row.entries[header[i]].value else "")
  }

  function Records(data: seq<Item>, header: seq<string>): (r: seq<seq<string>>)
    ensures |r| == |data|
    ensures forall i :: 0 <= i < |data| ==> r[i] == Values(data[i], header)
  {
    seq(|data|, i requires 0 <= i < |data| => Values(data[i], header))
  }

  const ExtraFields := "dict contains fields not in fieldnames"

  /** `export_to_csv`: nothing for no rows; otherwise the header (the keys
      of the first row, in order) and one record per row.  A row with a key
      outside the header is an error. */
  function ExportToCsv(data: seq<Item>): (r: Result<string>)
    ensures data == [] ==> r == Ok("")
    ensures data != [] ==> (r.Err? <==> exists i :: 0 <= i < |data| && Extra(data[i], data[0].order))
    ensures r.Err? ==> r.error == ExtraFields
    ensures r.Ok? && data != [] && data[0].order != [] ==>
              ReadCsv(r.value) == [data[0].order] + Records(data, data[0].order)
  {
    if data == [] then Ok("")
    else if exists i :: 0 <= i < |data| && Extra(data[i], data[0].order) then Err(ExtraFields)
    else
      var header := data[0].order;
      var records := [header] + Records(data, header);
      assert header != [] ==> ReadCsv(Lines(records)) == records by {
        if header != [] {
          CsvReads(records);
        }
      }
      Ok(Lines(records))
  }

  // ---- payroll export --------------------------------------------------------------------

  /** One item of commission data; every key may be missing. */
  datatype PayItem = PayItem(employeeId: Option<string>, employeeName: Option<string>,
                             regularHours: Option<real>, otHours: Option<real>, dtHours: Option<real>,
                             hourlyRate: Option<real>, laborCost: Option<real>, commissionAmount: Option<real>,
                             department: Option<string>, isHelper: Option<bool>)

  datatype PayrollRow = PayrollRow(employeeId: string, employeeName: string, periodStart: string, periodEnd: string,
                                   regularHours: real, otHours: real, dtHours: real, hourlyRate: real,
                                   laborCost: real, commission: real, totalEarnings: real,
                                   department: string, helper: string, status: string)

  predicate IsHelper(item: PayItem) {
    item.isHelper.GetOr(false)
  }

  /** The commission a payroll row pays: none to a helper. */
  function PaidCommission(item: PayItem): real {
    if IsHelper(item) then 0.0 else item.commissionAmount.GetOr(0.0)
  }

  function PayrollRowOf(item: PayItem, start: string, end: string): (r: PayrollRow)
    ensures IsHelper(item) ==> r.commission == 0.0 && r.totalEarnings == r.laborCost
    ensures r.totalEarnings == r.laborCost + r.commission
    ensures r.helper == (if IsHelper(item) then "Yes" else "No") && r.status == "Approved"
    ensures r.periodStart == start && r.periodEnd == end
  {
    PayrollRow(item.employeeId.GetOr(""), item.employeeName.GetOr(""), start, end,
               item.regularHours.GetOr(0.0), item.otHours.GetOr(0.0), item.dtHours.GetOr(0.0),
               item.hourlyRate.GetOr(0.0), item.laborCost.GetOr(0.0), PaidCommission(item),
               item.laborCost.GetOr(0.0) + PaidCommission(item), item.department.GetOr(""),
               if IsHelper(item) then "Yes" else "No", "Approved")
  }

  /** `generate_payroll_export`: one row per item, in order. */
  function PayrollExport(items: seq<PayItem>, start: string, end: string): (r: seq<PayrollRow>)
    ensures |r| == |items|
    ensures forall i :: 0 <= i < |items| ==> r[i] == PayrollRowOf(items[i], start, end)
  {
    seq(|items|, i requires 0 <= i < |items| => PayrollRowOf(items[i], start, end))
  }

  function Earnings(rows: seq<PayrollRow>): real {
    if rows == [] then 0.0 else Earnings(rows[..|rows| - 1]) + rows[|rows| - 1].totalEarnings
  }

  function LaborTotal(items: seq<PayItem>): real {
    if items == [] then 0.0 else LaborTotal(items[..|items| - 1]) + items[|items| - 1].laborCost.GetOr(0.0)
  }

  /** The commission of the items that are not helpers. */
  function CommissionTotal(items: seq<PayItem>): real {
    if items == [] then 0.0 else CommissionTotal(items[..|items| - 1]) + PaidCommission(items[|items| - 1])
  }

  /** The payroll pays out exactly the labour cost of every item plus the
      commission of every item that is not a helper. */
  lemma {:induction false} PayrollConserves(items: seq<PayItem>, start: string, end: string)
    ensures Earnings(PayrollExport(items, start, end)) == LaborTotal(items) + CommissionTotal(items)
  {
    if items != [] {
      var n := |items| - 1;
      PayrollConserves(items[..n], start, end);
      assert PayrollExport(items, start, end)[..n] == PayrollExport(items[..n], start, end);
    }
  }

  // ---- business-unit report --------------------------------------------------------------

  datatype UnitItem = UnitItem(name: string, category: Option<string>, revenue: real, commissionRate: real,
                               totalCommission: real, profitAfterCommission: real, employeesPaid: int)

  datatype UnitReportRow = UnitReportRow(unit: string, category: string, revenue: real, commissionRate: real,
                                         totalCommission: real, profitAfterCommission: real,
                                         employeesPaid: int, commissionPercent: real)

  /** The share of revenue paid as commission, in percent; 0 without
      positive revenue. */
  function CommissionPercent(total: real, revenue: real): (p: real)
    ensures revenue > 0.0 ==> p * revenue == total * 100.0
    ensures revenue > 0.0 ==> (p <= 100.0 <==> total <= revenue) && (p >= 0.0 <==> total >= 0.0)
    ensures revenue <= 0.0 ==> p == 0.0
  {
    if revenue > 0.0 then total / revenue * 100.0 else 0.0
  }

  /** `generate_business_unit_report`: one row per unit, in order; the
      category defaults to "N/A". */
  function UnitReport(units: seq<UnitItem>): (r: seq<UnitReportRow>)
    ensures |r| == |units|
    ensures forall i :: 0 <= i < |units| ==>
              r[i].unit == units[i].name && r[i].revenue == units[i].revenue
              && r[i].totalCommission == units[i].totalCommission
              && r[i].category == units[i].category.GetOr("N/A")
              && r[i].commissionPercent == CommissionPercent(units[i].totalCommission, units[i].revenue)
  {
    seq(|units|, i requires 0 <= i < |units| =>
      var u := units[i];
      UnitReportRow(u.name, u.category.GetOr("N/A"), u.revenue, u.commissionRate, u.totalCommission,
                    u.profitAfterCommission, u.employeesPaid,
                    CommissionPercent(u.totalCommission, u.revenue)))
  }
}
