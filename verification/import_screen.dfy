/** The data-management page: sorting uploaded files into kinds by name,
    combining the results of several processed timesheets, listing the
    records a bulk delete would remove, and setting one kind of commission
    rate on every business unit at once. */
module ImportScreen {
  import opened Wrappers
  import Text
  import Seqs
  import Dicts
  import Grouping
  import EmployeeModel
  import UnitModel

  // ---- file kinds -------------------------------------------------------------------------

  datatype Category = TimesheetFile | RevenueFile | EmployeeFile | OtherFile

  predicate Mentions(name: string, word: string) {
    Text.Contains(Text.Lower(name), word)
  }

  /** The kind a file name announces, the first matching rule winning:
      time sheets ("timesheet", "time", "hours"), then revenue ("revenue",
      "sales", "income"), then staff ("employee", "staff", "worker"). */
  function CategoryOf(name: string): (c: Category)
    ensures c == TimesheetFile <==> Mentions(name, "timesheet") || Mentions(name, "time") || Mentions(name, "hours")
    ensures c == RevenueFile <==>
              (c != TimesheetFile && (Mentions(name, "revenue") || Mentions(name, "sales") || Mentions(name, "income")))
    ensures c == EmployeeFile <==>
              (c != TimesheetFile && c != RevenueFile
               && (Mentions(name, "employee") || Mentions(name, "staff") || Mentions(name, "worker")))
  {
    if Mentions(name, "timesheet") || Mentions(name, "time") || Mentions(name, "hours") then TimesheetFile
    else if Mentions(name, "revenue") || Mentions(name, "sales") || Mentions(name, "income") then RevenueFile
    else if Mentions(name, "employee") || Mentions(name, "staff") || Mentions(name, "worker") then EmployeeFile
    else OtherFile
  }

  /** The files of one kind, in upload order. */
  function OfCategory(names: seq<string>, c: Category): (r: seq<string>)
    ensures forall x :: x in r ==> x in names && CategoryOf(x) == c
    ensures forall i :: 0 <= i < |names| && CategoryOf(names[i]) == c ==> names[i] in r
  {
    if names == [] then []
    else (if CategoryOf(names[0]) == c then [names[0]] else []) + OfCategory(names[1..], c)
  }

  datatype Categories = Categories(timesheet: seq<string>, revenue: seq<string>, employee: seq<string>,
                                   other: seq<string>)

  /** `categorize_import_files`. */
  function Categorize(names: seq<string>): (r: Categories)
    ensures r.timesheet == OfCategory(names, TimesheetFile) && r.revenue == OfCategory(names, RevenueFile)
    ensures r.employee == OfCategory(names, EmployeeFile) && r.other == OfCategory(names, OtherFile)
    ensures multiset(r.timesheet + r.revenue + r.employee + r.other) == multiset(names)
  {
    PartitionCounts(names);
    Categories(OfCategory(names, TimesheetFile), OfCategory(names, RevenueFile),
               OfCategory(names, EmployeeFile), OfCategory(names, OtherFile))
  }

  /** Every file lands in exactly one of the four lists. */
  lemma PartitionCounts(names: seq<string>)
    ensures multiset(OfCategory(names, TimesheetFile) + OfCategory(names, RevenueFile)
                     + OfCategory(names, EmployeeFile) + OfCategory(names, OtherFile)) == multiset(names)
  {
    var all := OfCategory(names, TimesheetFile) + OfCategory(names, RevenueFile)
               + OfCategory(names, EmployeeFile) + OfCategory(names, OtherFile);
    forall x ensures multiset(all)[x] == multiset(names)[x] {
      OfCategoryCount(names, TimesheetFile, x);
      OfCategoryCount(names, RevenueFile, x);
      OfCategoryCount(names, EmployeeFile, x);
      OfCategoryCount(names, OtherFile, x);
    }
  }

  /** A file name occurs in its own kind's list as often as it was
      uploaded, and in no other list. */
  lemma {:induction false} OfCategoryCount(names: seq<string>, c: Category, x: string)
    ensures multiset(OfCategory(names, c))[x] == if CategoryOf(x) == c then multiset(names)[x] else 0
  {
    if names != [] {
      OfCategoryCount(names[1..], c, x);
      assert names == [names[0]] + names[1..];
    }
  }

  // ---- several timesheets combined ------------------------------------------------------------

  /** One row of a processed timesheet. */
  datatype HourRow = HourRow(name: string, regular: real, overtime: real, doubleTime: real, total: real)

  function Concat(files: seq<seq<HourRow>>): (rows: seq<HourRow>) {
    if files == [] then [] else Concat(files[..|files| - 1]) + files[|files| - 1]
  }

  function NamesOf(rows: seq<HourRow>): (r: seq<string>)
    ensures |r| == |rows| && forall i :: 0 <= i < |rows| ==> r[i] == rows[i].name
  {
    seq(|rows|, i requires 0 <= i < |rows| => rows[i].name)
  }

  datatype Kind = Regular | Overtime | DoubleTime

  function HoursOf(row: HourRow, k: Kind): real {
    match k
    case Regular => row.regular
    case Overtime => row.overtime
    case DoubleTime => row.doubleTime
  }

  function KindValues(rows: seq<HourRow>, k: Kind): (r: seq<real>)
    ensures |r| == |rows| && forall i :: 0 <= i < |rows| ==> r[i] == HoursOf(rows[i], k)
  {
    seq(|rows|, i requires 0 <= i < |rows| => HoursOf(rows[i], k))
  }

  /** The combined row of one employee. */
  function Combined(rows: seq<HourRow>, name: string): (r: HourRow)
    ensures r.name == name
    ensures forall k :: HoursOf(r, k) == Grouping.SumFor(NamesOf(rows), KindValues(rows, k), name)
    ensures r.total == r.regular + r.overtime + r.doubleTime
  {
    var names := NamesOf(rows);
    var reg := Grouping.SumFor(names, KindValues(rows, Regular), name);
    var ot := Grouping.SumFor(names, KindValues(rows, Overtime), name);
    var dt := Grouping.SumFor(names, KindValues(rows, DoubleTime), name);
    HourRow(name, reg, ot, dt, reg + ot + dt)
  }

  /** The combined results: nothing without processed files, a single
      file as it is, and several files summed per employee name (names in
      ascending order) with the total recomputed. */
  function CombineTimesheets(files: seq<seq<HourRow>>): (r: Option<seq<HourRow>>)
    ensures r.None? <==> files == []
    ensures |files| == 1 ==> r == Some(files[0])
    ensures |files| > 1 ==>
              var rows := Concat(files);
              var keys := Grouping.Keys(NamesOf(rows));
              |r.value| == |keys|
              && forall i :: 0 <= i < |keys| ==> r.value[i] == Combined(rows, keys[i])
  {
    if files == [] then None
    else if |files| == 1 then Some(files[0])
    else
      var rows := Concat(files);
      var keys := Grouping.Keys(NamesOf(rows));
      Some(seq(|keys|, i requires 0 <= i < |keys| => Combined(rows, keys[i])))
  }

  /** Sum of one kind of hours over a list of rows. */
  function KindTotal(rows: seq<HourRow>, k: Kind): real {
    Grouping.Total(KindValues(rows, k))
  }

  /** The hours of the combined rows of `keys` added together. */
  function CombinedTotal(rows: seq<HourRow>, keys: seq<string>, k: Kind): real {
    if keys == [] then 0.0
    else CombinedTotal(rows, keys[..|keys| - 1], k) + HoursOf(Combined(rows, keys[|keys| - 1]), k)
  }

  lemma {:induction false} CombinedTotalIsSumOver(rows: seq<HourRow>, keys: seq<string>, k: Kind)
    ensures CombinedTotal(rows, keys, k) == Grouping.SumOver(keys, NamesOf(rows), KindValues(rows, k))
  {
    if keys != [] {
      CombinedTotalIsSumOver(rows, keys[..|keys| - 1], k);
    }
  }

  /** Combining several timesheets loses and invents no hours: each kind
      of hours over the combined rows adds up to the same kind over all
      rows of all files. */
  lemma CombiningConserves(files: seq<seq<HourRow>>, k: Kind)
    requires |files| > 1
    ensures var rows := Concat(files);
            CombinedTotal(rows, Grouping.Keys(NamesOf(rows)), k) == KindTotal(rows, k)
  {
    var rows := Concat(files);
    CombinedTotalIsSumOver(rows, Grouping.Keys(NamesOf(rows)), k);
    Grouping.GroupsConserve(NamesOf(rows), KindValues(rows, k));
  }

  // ---- bulk delete ------------------------------------------------------------------------

  /** What a bulk delete would remove. */
  datatype Items = EmployeeItems(employees: seq<EmployeeModel.Employee>) | UnitItems(units: seq<UnitModel.BusinessUnit>)
                 | NoItems

  /** The inactive employees, in the order the calculator holds them. */
  function Inactive(order: seq<string>, entries: map<string, EmployeeModel.Employee>): (r: seq<EmployeeModel.Employee>)
    requires forall k :: k in order ==> k in entries
    ensures forall e :: e in r <==> exists i :: 0 <= i < |order| && entries[order[i]] == e && !e.isActive
  {
    if order == [] then []
    else
      var e := entries[order[0]];
      var rest := Inactive(order[1..], entries);
      assert forall x :: x in rest <==> exists i :: 1 <= i < |order| && entries[order[i]] == x && !x.isActive by {
        forall x | x in rest ensures exists i :: 1 <= i < |order| && entries[order[i]] == x && !x.isActive {
          var j :| 0 <= j < |order[1..]| && entries[order[1..][j]] == x && !x.isActive;
          assert order[j + 1] == order[1..][j];
        }
        forall x | exists i :: 1 <= i < |order| && entries[order[i]] == x && !x.isActive ensures x in rest {
          var i :| 1 <= i < |order| && entries[order[i]] == x && !x.isActive;
          assert order[1..][i - 1] == order[i];
        }
      }
      (if !e.isActive then [e] else []) + rest
  }

  /** The units without revenue, in the order the calculator holds them. */
  function ZeroRevenue(order: seq<string>, entries: map<string, UnitModel.BusinessUnit>): (r: seq<UnitModel.BusinessUnit>)
    requires forall k :: k in order ==> k in entries
    ensures forall u :: u in r <==> exists i :: 0 <= i < |order| && entries[order[i]] == u && u.revenue == 0.0
  {
    if order == [] then []
    else
      var u := entries[order[0]];
      var rest := ZeroRevenue(order[1..], entries);
      assert forall x :: x in rest <==> exists i :: 1 <= i < |order| && entries[order[i]] == x && x.revenue == 0.0 by {
        forall x | x in rest ensures exists i :: 1 <= i < |order| && entries[order[i]] == x && x.revenue == 0.0 {
          var j :| 0 <= j < |order[1..]| && entries[order[1..][j]] == x && x.revenue == 0.0;
          assert order[j + 1] == order[1..][j];
        }
        forall x | exists i :: 1 <= i < |order| && entries[order[i]] == x && x.revenue == 0.0 ensures x in rest {
          var i :| 1 <= i < |order| && entries[order[i]] == x && x.revenue == 0.0;
          assert order[1..][i - 1] == order[i];
        }
      }
      (if u.revenue == 0.0 then [u] else []) + rest
  }

  /** `get_items_for_deletion`: the inactive employees, the units without
      revenue, or nothing for any other target. */
  function ItemsForDeletion(target: string, employees: Dicts.Dict<EmployeeModel.Employee>,
                            units: Dicts.Dict<UnitModel.BusinessUnit>): (r: Items)
    requires employees.Valid() && units.Valid()
    ensures target == "Inactive Employees" ==>
              r.EmployeeItems? && forall e :: e in r.employees <==> e in employees.entries.Values && !e.isActive
    ensures target == "Zero Revenue Units" ==>
              r.UnitItems? && forall u :: u in r.units <==> u in units.entries.Values && u.revenue == 0.0
    ensures target != "Inactive Employees" && target != "Zero Revenue Units" ==> r == NoItems
  {
    if target == "Inactive Employees" then
      var r := Inactive(employees.order, employees.entries);
      assert forall e :: e in employees.entries.Values ==> exists i :: 0 <= i < |employees.order| && employees.entries[employees.order[i]] == e by {
        forall e | e in employees.entries.Values
          ensures exists i :: 0 <= i < |employees.order| && employees.entries[employees.order[i]] == e
        {
          var k :| k in employees.entries && employees.entries[k] == e;
          var i :| 0 <= i < |employees.order| && employees.order[i] == k;
        }
      }
      EmployeeItems(r)
    else if target == "Zero Revenue Units" then
      var r := ZeroRevenue(units.order, units.entries);
      assert forall u :: u in units.entries.Values ==> exists i :: 0 <= i < |units.order| && units.entries[units.order[i]] == u by {
        forall u | u in units.entries.Values
          ensures exists i :: 0 <= i < |units.order| && units.entries[units.order[i]] == u
        {
          var k :| k in units.entries && units.entries[k] == u;
          var i :| 0 <= i < |units.order| && units.order[i] == k;
        }
      }
      UnitItems(r)
    else NoItems
  }

  // ---- bulk rate change -------------------------------------------------------------------

  /** A unit with the three commission rates the rate screens set. */
  datatype RatedUnit = RatedUnit(name: string, leadGenRate: real, salesRate: real, workDoneRate: real, revenue: real)

  datatype RateField = LeadGenRate | SalesRate | WorkDoneRate

  /** The rate a rate-type choice on the screen names. */
  function FieldOf(rateType: string): (r: Option<RateField>)
    ensures r == Some(LeadGenRate) <==> rateType == "Lead Generation Rate"
    ensures r == Some(SalesRate) <==> rateType == "Sales Commission Rate"
    ensures r == Some(WorkDoneRate) <==> rateType == "Work Done Rate"
  {
    if rateType == "Lead Generation Rate" then Some(LeadGenRate)
    else if rateType == "Sales Commission Rate" then Some(SalesRate)
    else if rateType == "Work Done Rate" then Some(WorkDoneRate)
    else None
  }

  function RateOf(u: RatedUnit, f: RateField): real {
    match f
    case LeadGenRate => u.leadGenRate
    case SalesRate => u.salesRate
    case WorkDoneRate => u.workDoneRate
  }

  function SetRate(u: RatedUnit, f: RateField, rate: real): (r: RatedUnit)
    ensures RateOf(r, f) == rate
    ensures forall g :: g != f ==> RateOf(r, g) == RateOf(u, g)
    ensures r.name == u.name && r.revenue == u.revenue
  {
    match f
    case LeadGenRate => u.(leadGenRate := rate)
    case SalesRate => u.(salesRate := rate)
    case WorkDoneRate => u.(workDoneRate := rate)
  }

  /** `apply_bulk_single_rate`: the named rate set on every unit, and the
      number of units updated; an unknown rate type changes nothing. */
  function ApplyBulkSingleRate(units: seq<RatedUnit>, rateType: string, rate: real): (r: (seq<RatedUnit>, nat))
    ensures FieldOf(rateType).None? ==> r == (units, 0)
    ensures FieldOf(rateType).Some? ==>
              |r.0| == |units| && r.1 == |units|
              && forall i :: 0 <= i < |units| ==>
                   RateOf(r.0[i], FieldOf(rateType).value) == rate
                   && (forall g :: g != FieldOf(rateType).value ==> RateOf(r.0[i], g) == RateOf(units[i], g))
                   && r.0[i].name == units[i].name && r.0[i].revenue == units[i].revenue
  {
    match FieldOf(rateType)
    case None => (units, 0)
    case Some(f) => (seq(|units|, i requires 0 <= i < |units| => SetRate(units[i], f, rate)), |units|)
  }

  /** Setting the same rate twice is setting it once. */
  lemma BulkRateIdempotent(units: seq<RatedUnit>, rateType: string, rate: real)
    ensures ApplyBulkSingleRate(ApplyBulkSingleRate(units, rateType, rate).0, rateType, rate)
            == ApplyBulkSingleRate(units, rateType, rate)
  {
    var once := ApplyBulkSingleRate(units, rateType, rate).0;
    if FieldOf(rateType).Some? {
      var f := FieldOf(rateType).value;
      var twice := ApplyBulkSingleRate(once, rateType, rate).0;
      forall i | 0 <= i < |units| ensures twice[i] == once[i] {
        assert once[i] == SetRate(units[i], f, rate);
        assert twice[i] == SetRate(once[i], f, rate);
      }
      assert twice == once;
    }
  }
}
