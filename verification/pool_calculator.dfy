/** The pool-distribution calculator: employees and business units keyed by
    id, the commissions of the last calculation and the manual splits.
    Each business unit with revenue puts its commission pool (rate percent
    of its revenue) into a pool shared among the active employees in
    proportion to their labor cost, or equally when nobody has any. */
module PoolCalculator {
  import opened Wrappers
  import Text
  import Decimals
  import Dicts
  import Seqs
  import EmployeeModel
  import UnitModel

  type Employee = EmployeeModel.Employee
  type BusinessUnit = UnitModel.BusinessUnit
  type Commission = UnitModel.Commission

  datatype Calculator = Calculator(
    employees: Dicts.Dict<Employee>,
    units: Dicts.Dict<BusinessUnit>,
    commissions: seq<Commission>,
    splits: Dicts.Dict<UnitModel.CommissionSplit>)

  /** Every record is stored under its own id. */
  ghost predicate Valid(c: Calculator) {
    c.employees.Valid() && c.units.Valid() && c.splits.Valid()
    && (forall id :: id in c.employees.entries ==> c.employees.entries[id].id == id)
    && (forall id :: id in c.units.entries ==> c.units.entries[id].id == id)
  }

  /** Every commission names a known employee and a known unit. */
  predicate Referenced(c: Calculator) {
    forall k :: 0 <= k < |c.commissions| ==>
      c.commissions[k].employeeId in c.employees.entries && c.commissions[k].unitId in c.units.entries
  }

  function NewCalculator(): (c: Calculator)
    ensures Valid(c) && Referenced(c)
    ensures c.employees.Size() == 0 && c.units.Size() == 0 && c.splits.Size() == 0 && c.commissions == []
  {
    Calculator(Dicts.EmptyDict(), Dicts.EmptyDict(), [], Dicts.EmptyDict())
  }

  /** Adding or replacing an employee: a new id goes to the end of the
      order, a known one keeps its place and gets the new record. */
  function AddEmployee(c: Calculator, e: Employee): (r: Calculator)
    requires c.employees.Valid()
    ensures r.employees.Valid()
    ensures r.employees.entries == c.employees.entries[e.id := e]
    ensures e.id in c.employees.entries ==> r.employees.order == c.employees.order
    ensures e.id !in c.employees.entries ==> r.employees.order == c.employees.order + [e.id]
    ensures r.units == c.units && r.commissions == c.commissions && r.splits == c.splits
    ensures Valid(c) ==> Valid(r)
    ensures Referenced(c) ==> Referenced(r)
  {
    c.(employees := c.employees.Put(e.id, e))
  }

  /** Adding or replacing a business unit, the same way. */
  function AddUnit(c: Calculator, u: BusinessUnit): (r: Calculator)
    requires c.units.Valid()
    ensures r.units.entries == c.units.entries[u.id := u]
    ensures u.id in c.units.entries ==> r.units.order == c.units.order
    ensures u.id !in c.units.entries ==> r.units.order == c.units.order + [u.id]
    ensures r.employees == c.employees && r.commissions == c.commissions && r.splits == c.splits
    ensures Valid(c) ==> Valid(r)
    ensures Referenced(c) ==> Referenced(r)
  {
    c.(units := c.units.Put(u.id, u))
  }

  // ---- lookup by name --------------------------------------------------------

  /** The form a looked-up name is compared in: lower-cased, then
      stripped.  Stored names are only lower-cased. */
  function NameKey(name: string): string {
    Text.Strip(Text.Lower(name))
  }

  predicate NamedAs<T>(entries: map<string, T>, nameOf: T -> string, key: string, id: string) {
    id in entries && Text.Lower(nameOf(entries[id])) == key
  }

  /** The position of the first id, in order, whose record is named `key`. */
  function FirstNamed<T>(ids: seq<string>, entries: map<string, T>, nameOf: T -> string, key: string): (r: Option<nat>)
    ensures r.Some? ==> r.value < |ids| && NamedAs(entries, nameOf, key, ids[r.value])
    ensures r.Some? ==> forall j :: 0 <= j < r.value ==> !NamedAs(entries, nameOf, key, ids[j])
    ensures r.None? ==> forall j :: 0 <= j < |ids| ==> !NamedAs(entries, nameOf, key, ids[j])
    decreases |ids|
  {
    if |ids| == 0 then None
    else if NamedAs(entries, nameOf, key, ids[0]) then Some(0)
    else
      match FirstNamed(ids[1..], entries, nameOf, key)
      case None => None
      case Some(i) => Some(i + 1)
  }

  function EmployeeName(e: Employee): string {
    e.name
  }

  function UnitName(u: BusinessUnit): string {
    u.name
  }

  /** The id of the first employee, in insertion order, whose lower-cased
      name is the lower-cased, stripped query. */
  function FindEmployeeByName(c: Calculator, name: string): (r: Option<string>)
    ensures r.Some? ==> NamedAs(c.employees.entries, EmployeeName, NameKey(name), r.value)
    ensures r.Some? ==> exists i :: 0 <= i < |c.employees.order| && c.employees.order[i] == r.value
                                    && (forall j :: 0 <= j < i ==> !NamedAs(c.employees.entries, EmployeeName, NameKey(name), c.employees.order[j]))
    ensures r.None? && c.employees.Valid() ==>
      forall id :: id in c.employees.entries ==> !NamedAs(c.employees.entries, EmployeeName, NameKey(name), id)
  {
    match FirstNamed(c.employees.order, c.employees.entries, EmployeeName, NameKey(name))
    case None => None
    case Some(i) => Some(c.employees.order[i])
  }

  /** The same lookup among the business units. */
  function FindUnitByName(c: Calculator, name: string): (r: Option<string>)
    ensures r.Some? ==> NamedAs(c.units.entries, UnitName, NameKey(name), r.value)
    ensures r.Some? ==> exists i :: 0 <= i < |c.units.order| && c.units.order[i] == r.value
                                    && (forall j :: 0 <= j < i ==> !NamedAs(c.units.entries, UnitName, NameKey(name), c.units.order[j]))
    ensures r.None? && c.units.Valid() ==>
      forall id :: id in c.units.entries ==> !NamedAs(c.units.entries, UnitName, NameKey(name), id)
  {
    match FirstNamed(c.units.order, c.units.entries, UnitName, NameKey(name))
    case None => None
    case Some(i) => Some(c.units.order[i])
  }

  // ---- sharing the pools -----------------------------------------------------

  /** An employee takes part in the pools when active and with some hours. */
  predicate Active(e: Employee) {
    e.isActive && EmployeeModel.TotalHours(e) > 0.0
  }

  /** The ids of the active employees, in order. */
  function ActiveIds(ids: seq<string>, entries: map<string, Employee>): (r: seq<string>)
    ensures forall id :: id in r <==> id in ids && id in entries && Active(entries[id])
    ensures forall k :: 0 <= k < |r| ==> r[k] in entries && Active(entries[r[k]])
    ensures |r| <= |ids|
    decreases |ids|
  {
    if |ids| == 0 then []
    else
      var rest := ActiveIds(ids[..|ids| - 1], entries);
      var id := ids[|ids| - 1];
      assert forall x :: x in ids <==> x in ids[..|ids| - 1] || x == id;
      if id in entries && Active(entries[id]) then rest + [id] else rest
  }

  function ActiveEmployees(c: Calculator): seq<string> {
    ActiveIds(c.employees.order, c.employees.entries)
  }

  function LaborOf(c: Calculator, id: string): real {
    if id in c.employees.entries then EmployeeModel.TotalLaborCost(c.employees.entries[id]) else 0.0
  }

  function LaborOver(c: Calculator, ids: seq<string>): real
    decreases |ids|
  {
    if |ids| == 0 then 0.0 else LaborOf(c, ids[0]) + LaborOver(c, ids[1..])
  }

  /** The part of `pool` owed to `id` among the `active` employees: their
      share of the labor cost, or an equal part when the labor costs add up
      to nothing. */
  function RawShare(c: Calculator, pool: real, active: seq<string>, id: string): real
    requires |active| > 0
  {
    var total := LaborOver(c, active);
    if total > 0.0 then pool * (LaborOf(c, id) / total)
    else pool / (|active| as real)
  }

  /** The percentage of the first manual split, in order, that lists the
      employee, whichever job it belongs to. */
  function SplitShare(order: seq<string>, splits: map<string, UnitModel.CommissionSplit>, id: string): (r: Option<real>)
    ensures r.Some? ==> exists k :: k in order && k in splits && id in splits[k].employeeSplits.entries
                          && r.value == splits[k].employeeSplits.entries[id]
    ensures r.None? ==> forall k :: k in order && k in splits ==> id !in splits[k].employeeSplits.entries
    decreases |order|
  {
    if |order| == 0 then None
    else if order[0] in splits && id in splits[order[0]].employeeSplits.entries then
      Some(splits[order[0]].employeeSplits.entries[id])
    else
      assert forall k :: k in order <==> k == order[0] || k in order[1..];
      SplitShare(order[1..], splits, id)
  }

  /** The percentage paid to an employee: their manual split if any, 100
      otherwise. */
  function SplitPercentage(c: Calculator, id: string): (p: real)
    ensures (forall k :: k in c.splits.order && k in c.splits.entries ==> id !in c.splits.entries[k].employeeSplits.entries)
      ==> p == UnitModel.DefaultPercentage
  {
    match SplitShare(c.splits.order, c.splits.entries, id)
    case None => UnitModel.DefaultPercentage
    case Some(p) => p
  }

  /** The commissions of `todo` from one unit's pool, in order; the
      construction of a commission that fails (a negative amount or a split
      percentage outside [0, 100]) stops the run with its message. */
  function IssueAll(c: Calculator, u: BusinessUnit, active: seq<string>, todo: seq<string>): (r: (seq<Commission>, Option<string>))
    requires |active| > 0
    ensures |r.0| <= |todo|
    ensures r.1.None? ==> |r.0| == |todo|
    ensures forall k :: 0 <= k < |r.0| ==>
      r.0[k].employeeId == todo[k] && r.0[k].unitId == u.id
      && r.0[k].status == UnitModel.Pending && r.0[k].approvedBy.None?
      && r.0[k].percentage == Decimals.CentsHalfEven(SplitPercentage(c, todo[k]))
    decreases |todo|
  {
    if |todo| == 0 then ([], None)
    else
      match UnitModel.MakeCommission(todo[0], u.id, RawShare(c, UnitModel.CommissionAmount(u), active, todo[0]),
                                     SplitPercentage(c, todo[0]))
      case Err(m) => ([], Some(m))
      case Ok(x) =>
        var rest := IssueAll(c, u, active, todo[1..]);
        ([x] + rest.0, rest.1)
  }

  /** One unit's commissions: none for a unit without revenue or when no
      employee is active. */
  function UnitRun(c: Calculator, uid: string): (r: (seq<Commission>, Option<string>))
    ensures uid !in c.units.entries || c.units.entries[uid].revenue <= 0.0 || |ActiveEmployees(c)| == 0 ==> r == ([], None)
    ensures forall k :: 0 <= k < |r.0| ==>
      uid in c.units.entries && r.0[k].unitId == c.units.entries[uid].id
      && r.0[k].employeeId in ActiveEmployees(c) && r.0[k].status == UnitModel.Pending
    ensures r.1.None? ==> |r.0| == (if uid in c.units.entries && c.units.entries[uid].revenue > 0.0 then |ActiveEmployees(c)| else 0)
  {
    if uid !in c.units.entries then ([], None)
    else
      var u := c.units.entries[uid];
      var active := ActiveEmployees(c);
      if u.revenue <= 0.0 || |active| == 0 then ([], None)
      else IssueAll(c, u, active, active)
  }

  /** A run: the commissions issued and the failure that stopped it, if
      any. */
  type Run = (seq<Commission>, Option<string>)

  /** The runs of the listed units, each on its own. */
  function UnitRuns(c: Calculator, uids: seq<string>): (runs: seq<Run>)
    ensures |runs| == |uids|
    ensures forall i :: 0 <= i < |uids| ==> runs[i] == UnitRun(c, uids[i])
  {
    seq(|uids|, i requires 0 <= i < |uids| => UnitRun(c, uids[i]))
  }

  /** Runs one after another: their commissions in order, up to and
      including the first run that fails, whose failure ends the whole. */
  function Collect(runs: seq<Run>): (r: Run)
    ensures r.1.None? <==> forall i :: 0 <= i < |runs| ==> runs[i].1.None?
    ensures r.1.Some? ==> exists i :: 0 <= i < |runs| && r.1 == runs[i].1
                                     && (forall j :: 0 <= j < i ==> runs[j].1.None?)
    decreases |runs|
  {
    if |runs| == 0 then ([], None)
    else if runs[0].1.Some? then runs[0]
    else
      var rest := Collect(runs[1..]);
      assert forall i :: 1 <= i < |runs| ==> runs[i] == runs[1..][i - 1];
      (runs[0].0 + rest.0, rest.1)
  }

  /** Every collected commission comes from one of the runs. */
  lemma {:induction false} CollectFrom(runs: seq<Run>)
    ensures forall x :: x in Collect(runs).0 ==> exists i :: 0 <= i < |runs| && x in runs[i].0
    decreases |runs|
  {
    if |runs| > 0 {
      if runs[0].1.None? {
        CollectFrom(runs[1..]);
        var rest := Collect(runs[1..]);
        forall x | x in runs[0].0 + rest.0
          ensures exists i :: 0 <= i < |runs| && x in runs[i].0
        {
          if x !in runs[0].0 {
            var i :| 0 <= i < |runs[1..]| && x in runs[1..][i].0;
            assert x in runs[i + 1].0;
          }
        }
      } else {
        assert forall x :: x in Collect(runs).0 ==> x in runs[0].0;
      }
    }
  }

  /** The units' commissions in unit order, stopping at the first failure. */
  function RunUnits(c: Calculator, uids: seq<string>): Run {
    Collect(UnitRuns(c, uids))
  }

  /** The state with the previous commissions dropped. */
  function Cleared(c: Calculator): Calculator {
    c.(commissions := [])
  }

  /** Calculating the commissions: the previous ones are discarded and
      replaced by those issued before any failure; the failure, if any, is
      reported next to the new state. */
  function CalculateCommissions(c: Calculator): (r: (Calculator, Option<string>))
    ensures r.0 == c.(commissions := RunUnits(Cleared(c), c.units.order).0)
    ensures r.1 == RunUnits(Cleared(c), c.units.order).1
    ensures Valid(c) ==> Referenced(r.0)
    ensures forall k :: 0 <= k < |r.0.commissions| ==>
      r.0.commissions[k].status == UnitModel.Pending && r.0.commissions[k].employeeId in c.employees.entries
      && Active(c.employees.entries[r.0.commissions[k].employeeId])
  {
    var d := Cleared(c);
    var runs := UnitRuns(d, c.units.order);
    var run := Collect(runs);
    CollectFrom(runs);
    var r := c.(commissions := run.0);
    forall k | 0 <= k < |run.0|
      ensures run.0[k].status == UnitModel.Pending && run.0[k].employeeId in c.employees.entries
      ensures Active(c.employees.entries[run.0[k].employeeId])
      ensures Valid(c) ==> run.0[k].unitId in c.units.entries
    {
      var x := run.0[k];
      assert x in Collect(runs).0;
      var i :| 0 <= i < |runs| && x in runs[i].0;
      var j :| 0 <= j < |runs[i].0| && runs[i].0[j] == x;
      assert runs[i] == UnitRun(d, c.units.order[i]);
    }
    (r, run.1)
  }

  // ---- what the pools add up to ----------------------------------------------

  /** The sum of the amounts of a list of commissions. */
  function AmountTotal(cs: seq<Commission>): real
    decreases |cs|
  {
    if |cs| == 0 then 0.0 else cs[0].amount + AmountTotal(cs[1..])
  }

  lemma {:induction false} AmountTotalAppend(a: seq<Commission>, b: seq<Commission>)
    ensures AmountTotal(a + b) == AmountTotal(a) + AmountTotal(b)
    decreases |a|
  {
    if |a| == 0 {
      assert a + b == b;
    } else {
      assert (a + b)[0] == a[0];
      assert (a + b)[1..] == a[1..] + b;
      AmountTotalAppend(a[1..], b);
    }
  }

  /** The shares owed to each of `todo`. */
  function SharesOver(c: Calculator, pool: real, active: seq<string>, todo: seq<string>): real
    requires |active| > 0
    decreases |todo|
  {
    if |todo| == 0 then 0.0 else RawShare(c, pool, active, todo[0]) + SharesOver(c, pool, active, todo[1..])
  }


  /** The labor costs of the listed employees. */
  function Labors(c: Calculator, ids: seq<string>): (xs: seq<real>)
    ensures |xs| == |ids|
    decreases |ids|
  {
    if |ids| == 0 then [] else [LaborOf(c, ids[0])] + Labors(c, ids[1..])
  }

  /** `p * (x / t)` summed over `xs`. */
  function ScaledSum(xs: seq<real>, p: real, t: real): real
    requires t > 0.0
    decreases |xs|
  {
    if |xs| == 0 then 0.0 else p * (xs[0] / t) + ScaledSum(xs[1..], p, t)
  }

  /** Each share by labor is the pool scaled by a labor cost, and the
      labor costs add up to the labor total. */
  lemma {:induction false} SharesAreScaled(c: Calculator, pool: real, active: seq<string>, todo: seq<string>)
    requires |active| > 0 && LaborOver(c, active) > 0.0
    ensures SharesOver(c, pool, active, todo) == ScaledSum(Labors(c, todo), pool, LaborOver(c, active))
    ensures LaborOver(c, todo) == Decimals.Sum(Labors(c, todo))
    decreases |todo|
  {
    if |todo| > 0 {
      SharesAreScaled(c, pool, active, todo[1..]);
      assert Labors(c, todo)[1..] == Labors(c, todo[1..]);
    }
  }

  /** Scaling every part by `p / t` scales their sum the same way. */
  lemma {:induction false} ScaledSumOf(xs: seq<real>, p: real, t: real, total: real)
    requires t > 0.0 && total == Decimals.Sum(xs)
    ensures ScaledSum(xs, p, t) == p * total / t
    decreases |xs|
  {
    if |xs| > 0 {
      ScaledSumOf(xs[1..], p, t, Decimals.Sum(xs[1..]));
      ShareAdd(p, xs[0], Decimals.Sum(xs[1..]), t, total);
    }
  }

  /** Parts that add up to `t` scaled by `p / t` add up to `p`. */
  lemma ScaledWhole(xs: seq<real>, p: real, t: real)
    requires t > 0.0 && Decimals.Sum(xs) == t
    ensures ScaledSum(xs, p, t) == p
  {
    ScaledSumOf(xs, p, t, t);
    assert p * t / t == p;
  }

  lemma ShareAdd(p: real, a: real, b: real, t: real, total: real)
    requires t > 0.0 && total == a + b
    ensures p * (a / t) + p * b / t == p * total / t
  {
    assert p * (a / t) == (p * a) / t;
    assert (p * a) / t + (p * b) / t == (p * a + p * b) / t;
    assert p * a + p * b == p * (a + b);
  }

  /** Equal shares add up to one part per employee. */
  lemma {:induction false} SharesEqual(c: Calculator, pool: real, active: seq<string>, todo: seq<string>)
    requires |active| > 0 && !(LaborOver(c, active) > 0.0)
    ensures SharesOver(c, pool, active, todo) == (|todo| as real) * (pool / (|active| as real))
    decreases |todo|
  {
    if |todo| > 0 {
      SharesEqual(c, pool, active, todo[1..]);
    }
  }

  /** Whatever the labor costs, the active employees' shares add up to the
      whole pool. */
  lemma SharesMakePool(c: Calculator, pool: real, active: seq<string>)
    requires |active| > 0
    ensures SharesOver(c, pool, active, active) == pool
  {
    if LaborOver(c, active) > 0.0 {
      SharesAreScaled(c, pool, active, active);
      ScaledWhole(Labors(c, active), pool, LaborOver(c, active));
    } else {
      SharesEqual(c, pool, active, active);
    }
  }

  /** Quantizing each share moves the total by at most half a cent per
      commission. */
  lemma {:induction false} IssuedNearShares(c: Calculator, u: BusinessUnit, active: seq<string>, todo: seq<string>)
    requires |active| > 0
    ensures var r := IssueAll(c, u, active, todo);
      r.1.None? ==> Decimals.Abs(AmountTotal(r.0) - SharesOver(c, UnitModel.CommissionAmount(u), active, todo))
                    <= 0.005 * (|todo| as real)
    decreases |todo|
  {
    if |todo| == 0 {
      assert AmountTotal(IssueAll(c, u, active, todo).0) == 0.0;
    } else if IssueAll(c, u, active, todo).1.None? {
      IssuedNearShares(c, u, active, todo[1..]);
      var rest := IssueAll(c, u, active, todo[1..]);
      var x := IssueHead(c, u, active, todo);
      var pool := UnitModel.CommissionAmount(u);
      NearStep(x, RawShare(c, pool, active, todo[0]), AmountTotal(rest.0), SharesOver(c, pool, active, todo[1..]),
               |todo[1..]|, AmountTotal(IssueAll(c, u, active, todo).0), SharesOver(c, pool, active, todo), |todo|);
    }
  }

  /** One more item off by at most half a cent. */
  lemma NearStep(a: real, p: real, b: real, q: real, m: nat, total: real, target: real, n: nat)
    requires Decimals.Abs(a - p) <= 0.005 && Decimals.Abs(b - q) <= 0.005 * (m as real)
    requires total == a + b && target == p + q && n == m + 1
    ensures Decimals.Abs(total - target) <= 0.005 * (n as real)
  {
  }

  /** A run that completes starts with the first employee's share rounded
      to the cent, and goes on with the run over the others. */
  lemma IssueHead(c: Calculator, u: BusinessUnit, active: seq<string>, todo: seq<string>) returns (x: real)
    requires |active| > 0 && |todo| > 0 && IssueAll(c, u, active, todo).1.None?
    ensures var r, rest := IssueAll(c, u, active, todo), IssueAll(c, u, active, todo[1..]);
      rest.1.None? && AmountTotal(r.0) == x + AmountTotal(rest.0)
    ensures Decimals.Abs(x - RawShare(c, UnitModel.CommissionAmount(u), active, todo[0])) <= 0.005
  {
    var r, rest := IssueAll(c, u, active, todo), IssueAll(c, u, active, todo[1..]);
    var raw := RawShare(c, UnitModel.CommissionAmount(u), active, todo[0]);
    var first := UnitModel.MakeCommission(todo[0], u.id, raw, SplitPercentage(c, todo[0])).value;
    assert r.0 == [first] + rest.0;
    x := first.amount;
  }

  /** The pool a unit hands out in a calculation: nothing when it has no
      revenue or nobody is active. */
  function PoolOf(c: Calculator, uid: string): real {
    if uid in c.units.entries && c.units.entries[uid].revenue > 0.0 && |ActiveEmployees(c)| > 0
    then UnitModel.CommissionAmount(c.units.entries[uid]) else 0.0
  }

  /** The pools of the listed units. */
  function Pools(c: Calculator, uids: seq<string>): (ps: seq<real>)
    ensures |ps| == |uids|
    ensures forall i :: 0 <= i < |uids| ==> ps[i] == PoolOf(c, uids[i])
  {
    seq(|uids|, i requires 0 <= i < |uids| => PoolOf(c, uids[i]))
  }

  lemma UnitRunNearPool(c: Calculator, uid: string)
    ensures Near(UnitRun(c, uid), PoolOf(c, uid))
  {
    var active := ActiveEmployees(c);
    if uid in c.units.entries && c.units.entries[uid].revenue > 0.0 && |active| > 0 {
      var u := c.units.entries[uid];
      assert UnitRun(c, uid) == IssueAll(c, u, active, active);
      assert PoolOf(c, uid) == UnitModel.CommissionAmount(u);
      IssuedNearPool(c, u, active);
    } else {
      IdleUnitRun(c, uid);
    }
  }

  /** A unit that is missing, earns nothing or has nobody to pay runs
      empty against an empty pool. */
  lemma IdleUnitRun(c: Calculator, uid: string)
    requires !(uid in c.units.entries && c.units.entries[uid].revenue > 0.0 && |ActiveEmployees(c)| > 0)
    ensures UnitRun(c, uid) == ([], None) && PoolOf(c, uid) == 0.0 && AmountTotal(UnitRun(c, uid).0) == 0.0
  {
    assert AmountTotal([]) == 0.0;
  }

  lemma IssuedNearPool(c: Calculator, u: BusinessUnit, active: seq<string>)
    requires |active| > 0
    ensures Near(IssueAll(c, u, active, active), UnitModel.CommissionAmount(u))
  {
    var pool := UnitModel.CommissionAmount(u);
    IssuedNearShares(c, u, active, active);
    SharesMakePool(c, pool, active);
  }

  /** Runs that each pay out their pool to within half a cent per
      commission, run one after another, pay out the sum of the pools the
      same way. */
  lemma {:induction false} CollectNear(runs: seq<Run>, pools: seq<real>)
    requires NearPools(runs, pools)
    ensures var r := Collect(runs);
      r.1.None? ==> Decimals.Abs(AmountTotal(r.0) - Decimals.Sum(pools)) <= 0.005 * (|r.0| as real)
    decreases |runs|
  {
    var r := Collect(runs);
    if |runs| == 0 {
      assert AmountTotal([]) == 0.0;
    } else if r.1.None? {
      var rest := Collect(runs[1..]);
      assert r == (runs[0].0 + rest.0, rest.1);
      assert NearPools(runs[1..], pools[1..]) by {
        forall i | 0 <= i < |runs| - 1 && runs[1..][i].1.None?
          ensures Near(runs[1..][i], pools[1..][i])
        {
          assert runs[1..][i] == runs[i + 1] && pools[1..][i] == pools[i + 1];
        }
      }
      assert Near(runs[0], pools[0]);
      CollectNear(runs[1..], pools[1..]);
      NearAdd(AmountTotal(runs[0].0), pools[0], |runs[0].0|, AmountTotal(rest.0), Decimals.Sum(pools[1..]), |rest.0|);
      AmountTotalAppend(runs[0].0, rest.0);
    }
  }

  /** Errors of at most half a cent per item add up. */
  lemma NearAdd(a: real, p: real, n: nat, b: real, q: real, m: nat)
    requires Decimals.Abs(a - p) <= 0.005 * (n as real) && Decimals.Abs(b - q) <= 0.005 * (m as real)
    ensures Decimals.Abs((a + b) - (p + q)) <= 0.005 * ((n + m) as real)
  {
  }

  /** A calculation that completes pays out every unit's pool, to within
      half a cent per commission. */
  lemma CommissionsPayOutPools(c: Calculator)
    ensures var r := CalculateCommissions(c);
      r.1.None? ==> Decimals.Abs(AmountTotal(r.0.commissions) - Decimals.Sum(Pools(Cleared(c), c.units.order)))
                    <= 0.005 * (|r.0.commissions| as real)
  {
    var d := Cleared(c);
    RunsNearPools(d, c.units.order);
    CollectNear(UnitRuns(d, c.units.order), Pools(d, c.units.order));
  }

  /** A run that completes pays out its pool to within half a cent per
      commission. */
  predicate Near(run: Run, pool: real) {
    run.1.None? ==> Decimals.Abs(AmountTotal(run.0) - pool) <= 0.005 * (|run.0| as real)
  }

  /** Each run is near its pool. */
  predicate NearPools(runs: seq<Run>, pools: seq<real>) {
    |pools| == |runs| && forall i :: 0 <= i < |runs| ==> Near(runs[i], pools[i])
  }

  lemma RunsNearPools(c: Calculator, uids: seq<string>)
    ensures NearPools(UnitRuns(c, uids), Pools(c, uids))
  {
    var runs, pools := UnitRuns(c, uids), Pools(c, uids);
    forall i | 0 <= i < |runs|
      ensures Near(runs[i], pools[i])
    {
      UnitRunNearPool(c, uids[i]);
    }
  }

  /** Calculating twice gives the same commissions as calculating once. */
  lemma CalculationIdempotent(c: Calculator)
    ensures CalculateCommissions(CalculateCommissions(c).0).0 == CalculateCommissions(c).0
  {
  }

  // ---- summaries -------------------------------------------------------------

  /** Whose commissions are meant: an employee's or a unit's. */
  datatype Side = ByEmployee | ByUnit

  function KeyOf(x: Commission, side: Side): string {
    match side
    case ByEmployee => x.employeeId
    case ByUnit => x.unitId
  }

  /** The commissions of one employee or one unit, in order. */
  function CommissionsOf(cs: seq<Commission>, side: Side, key: string): (r: seq<Commission>)
    ensures forall x :: x in r <==> x in cs && KeyOf(x, side) == key
    ensures |r| <= |cs|
    decreases |cs|
  {
    if |cs| == 0 then []
    else
      assert forall x :: x in cs <==> x == cs[0] || x in cs[1..];
      (if KeyOf(cs[0], side) == key then [cs[0]] else []) + CommissionsOf(cs[1..], side, key)
  }

  /** The sum of the amounts paid, each amount taken at its percentage. */
  function PaidTotal(cs: seq<Commission>): real
    decreases |cs|
  {
    if |cs| == 0 then 0.0 else UnitModel.AdjustedAmount(cs[0]) + PaidTotal(cs[1..])
  }

  function SecondTotal(ps: seq<(string, real)>): real
    decreases |ps|
  {
    if |ps| == 0 then 0.0 else ps[0].1 + SecondTotal(ps[1..])
  }

  /** Each commission as the name on its other side with the amount paid;
      a key without a name is the `KeyError` the lookup raises. */
  function Breakdown(cs: seq<Commission>, side: Side, names: map<string, string>): (r: Result<seq<(string, real)>>)
    ensures r.Ok? <==> forall k :: 0 <= k < |cs| ==> KeyOf(cs[k], side) in names
    ensures r.Ok? ==> |r.value| == |cs| && SecondTotal(r.value) == PaidTotal(cs)
    ensures r.Ok? ==> forall k :: 0 <= k < |cs| ==> r.value[k].0 == names[KeyOf(cs[k], side)]
    ensures r.Err? ==> r.error !in names
    decreases |cs|
  {
    if |cs| == 0 then Ok([])
    else
      var key := KeyOf(cs[0], side);
      if key !in names then Err(key)
      else
        match Breakdown(cs[1..], side, names)
        case Err(e) => Err(e)
        case Ok(rest) =>
          var r := [(names[key], UnitModel.AdjustedAmount(cs[0]))] + rest;
          assert r[1..] == rest;
          Ok(r)
  }

  function EmployeeNames(c: Calculator): map<string, string> {
    map id | id in c.employees.entries :: c.employees.entries[id].name
  }

  function UnitNames(c: Calculator): map<string, string> {
    map id | id in c.units.entries :: c.units.entries[id].name
  }

  datatype EmployeeSummary = EmployeeSummary(
    employee: Employee, totalHours: real, laborCost: real,
    totalCommission: real, totalEarnings: real, byUnit: seq<(string, real)>)

  /** An employee's summary: nothing for an unknown id; otherwise the
      commissions paid to them, unit by unit, and their earnings (labor cost
      plus commissions). */
  function EmployeeSummaryOf(c: Calculator, id: string): (r: Result<Option<EmployeeSummary>>)
    ensures id !in c.employees.entries ==> r == Ok(None)
    ensures id in c.employees.entries && Referenced(c) ==> r.Ok? && r.value.Some?
    ensures r.Ok? && r.value.Some? ==>
      var s := r.value.value;
      id in c.employees.entries && s.employee == c.employees.entries[id]
      && s.totalHours == EmployeeModel.TotalHours(s.employee)
      && s.laborCost == EmployeeModel.TotalLaborCost(s.employee)
      && s.totalCommission == PaidTotal(CommissionsOf(c.commissions, ByEmployee, id))
      && s.totalEarnings == s.laborCost + s.totalCommission
      && SecondTotal(s.byUnit) == s.totalCommission
      && |s.byUnit| == |CommissionsOf(c.commissions, ByEmployee, id)|
  {
    if id !in c.employees.entries then Ok(None)
    else
      var e := c.employees.entries[id];
      var mine := CommissionsOf(c.commissions, ByEmployee, id);
      assert Referenced(c) ==> forall k :: 0 <= k < |mine| ==> KeyOf(mine[k], ByUnit) in UnitNames(c) by {
        if Referenced(c) {
          forall k | 0 <= k < |mine|
            ensures KeyOf(mine[k], ByUnit) in UnitNames(c)
          {
            assert mine[k] in c.commissions;
          }
        }
      }
      match Breakdown(mine, ByUnit, UnitNames(c))
      case Err(key) => Err(key)
      case Ok(byUnit) =>
        var paid := PaidTotal(mine);
        var labor := EmployeeModel.TotalLaborCost(e);
        Ok(Some(EmployeeSummary(e, EmployeeModel.TotalHours(e), labor, paid, labor + paid, byUnit)))
  }

  function EmployeeIds(cs: seq<Commission>): (ids: seq<string>)
    ensures |ids| == |cs| && forall k :: 0 <= k < |cs| ==> ids[k] == cs[k].employeeId
  {
    seq(|cs|, k requires 0 <= k < |cs| => cs[k].employeeId)
  }

  datatype UnitSummary = UnitSummary(
    unit: BusinessUnit, revenue: real, commissionRate: real, totalCommission: real,
    profitAfterCommission: real, employeesPaid: nat, breakdown: seq<(string, real)>)

  /** A unit's summary: nothing for an unknown id; otherwise the
      commissions it pays, employee by employee, what is left of its revenue
      and how many different employees it pays. */
  function UnitSummaryOf(c: Calculator, id: string): (r: Result<Option<UnitSummary>>)
    ensures id !in c.units.entries ==> r == Ok(None)
    ensures id in c.units.entries && Referenced(c) ==> r.Ok? && r.value.Some?
    ensures r.Ok? && r.value.Some? ==>
      var s := r.value.value;
      var mine := CommissionsOf(c.commissions, ByUnit, id);
      id in c.units.entries && s.unit == c.units.entries[id]
      && s.revenue == s.unit.revenue && s.commissionRate == s.unit.commissionRate
      && s.totalCommission == PaidTotal(mine)
      && s.profitAfterCommission == s.revenue - s.totalCommission
      && SecondTotal(s.breakdown) == s.totalCommission
      && s.employeesPaid == Seqs.DistinctCount(EmployeeIds(mine))
      && (|mine| > 0 ==> 1 <= s.employeesPaid <= |mine|)
  {
    if id !in c.units.entries then Ok(None)
    else
      var u := c.units.entries[id];
      var mine := CommissionsOf(c.commissions, ByUnit, id);
      assert Referenced(c) ==> forall k :: 0 <= k < |mine| ==> KeyOf(mine[k], ByEmployee) in EmployeeNames(c) by {
        if Referenced(c) {
          forall k | 0 <= k < |mine|
            ensures KeyOf(mine[k], ByEmployee) in EmployeeNames(c)
          {
            assert mine[k] in c.commissions;
          }
        }
      }
      match Breakdown(mine, ByEmployee, EmployeeNames(c))
      case Err(key) => Err(key)
      case Ok(breakdown) =>
        var paid := PaidTotal(mine);
        Ok(Some(UnitSummary(u, u.revenue, u.commissionRate, paid, u.revenue - paid,
                            Seqs.DistinctCount(EmployeeIds(mine)), breakdown)))
  }

  // ---- analytics -------------------------------------------------------------

  datatype Analytics = Analytics(
    totalRevenue: real, totalLabor: real, totalCommissions: real,
    grossProfit: real, profitMargin: real,
    employeeCount: nat, unitCount: nat, pendingCount: nat)

  function RevenueOver(ids: seq<string>, entries: map<string, BusinessUnit>): real
    decreases |ids|
  {
    if |ids| == 0 then 0.0
    else (if ids[0] in entries then entries[ids[0]].revenue else 0.0) + RevenueOver(ids[1..], entries)
  }

  function PendingCount(cs: seq<Commission>): (n: nat)
    ensures n <= |cs|
    ensures n == 0 <==> forall k :: 0 <= k < |cs| ==> cs[k].status != UnitModel.Pending
    decreases |cs|
  {
    if |cs| == 0 then 0
    else (if cs[0].status == UnitModel.Pending then 1 else 0) + PendingCount(cs[1..])
  }

  /** The figures of the analytics page: revenue less labor less
      commissions is the gross profit, and the margin is its percentage of
      the revenue when there is revenue and 0 otherwise. */
  function AnalyticsOf(c: Calculator): (a: Analytics)
    ensures a.totalRevenue == RevenueOver(c.units.order, c.units.entries)
    ensures a.totalLabor == LaborOver(c, c.employees.order)
    ensures a.totalCommissions == PaidTotal(c.commissions)
    ensures a.grossProfit == a.totalRevenue - a.totalLabor - a.totalCommissions
    ensures a.totalRevenue > 0.0 ==> a.profitMargin * a.totalRevenue == a.grossProfit * 100.0
    ensures a.totalRevenue <= 0.0 ==> a.profitMargin == 0.0
    ensures a.employeeCount == c.employees.Size() && a.unitCount == c.units.Size()
    ensures a.pendingCount == PendingCount(c.commissions) && a.pendingCount <= |c.commissions|
  {
    var revenue := RevenueOver(c.units.order, c.units.entries);
    var labor := LaborOver(c, c.employees.order);
    var paid := PaidTotal(c.commissions);
    var gross := revenue - labor - paid;
    Analytics(revenue, labor, paid, gross, if revenue > 0.0 then gross / revenue * 100.0 else 0.0,
              c.employees.Size(), c.units.Size(), PendingCount(c.commissions))
  }

  /** The paid totals of the listed keys, one after another. */
  function KeysTotal(cs: seq<Commission>, side: Side, keys: seq<string>): real
    decreases |keys|
  {
    if |keys| == 0 then 0.0 else PaidTotal(CommissionsOf(cs, side, keys[0])) + KeysTotal(cs, side, keys[1..])
  }

  /** `v` counted for the listed key equal to `key`. */
  function Indicator(keys: seq<string>, key: string, v: real): real
    decreases |keys|
  {
    if |keys| == 0 then 0.0 else (if keys[0] == key then v else 0.0) + Indicator(keys[1..], key, v)
  }

  lemma {:induction false} IndicatorOnce(keys: seq<string>, key: string, v: real)
    requires Seqs.NoDuplicates(keys)
    ensures Indicator(keys, key, v) == if key in keys then v else 0.0
    decreases |keys|
  {
    if |keys| > 0 {
      IndicatorOnce(keys[1..], key, v);
      assert keys[0] !in keys[1..];
      assert key in keys <==> key == keys[0] || key in keys[1..];
    }
  }

  lemma {:induction false} KeysTotalStep(x: Commission, rest: seq<Commission>, side: Side, keys: seq<string>)
    ensures KeysTotal([x] + rest, side, keys) == Indicator(keys, KeyOf(x, side), UnitModel.AdjustedAmount(x)) + KeysTotal(rest, side, keys)
    decreases |keys|
  {
    if |keys| > 0 {
      KeysTotalStep(x, rest, side, keys[1..]);
      assert ([x] + rest)[1..] == rest;
      var mine := CommissionsOf([x] + rest, side, keys[0]);
      if KeyOf(x, side) == keys[0] {
        assert mine == [x] + CommissionsOf(rest, side, keys[0]);
        assert PaidTotal(mine) == UnitModel.AdjustedAmount(x) + PaidTotal(CommissionsOf(rest, side, keys[0]));
      } else {
        assert mine == CommissionsOf(rest, side, keys[0]);
      }
    }
  }

  lemma {:induction false} KeysTotalEmpty(side: Side, keys: seq<string>)
    ensures KeysTotal([], side, keys) == 0.0
    decreases |keys|
  {
    if |keys| > 0 {
      KeysTotalEmpty(side, keys[1..]);
    }
  }

  /** Listing the commissions key by key, over keys that name each
      commission's key exactly once, counts every commission once. */
  lemma {:induction false} KeysPartitionCommissions(cs: seq<Commission>, side: Side, keys: seq<string>)
    requires Seqs.NoDuplicates(keys)
    requires forall k :: 0 <= k < |cs| ==> KeyOf(cs[k], side) in keys
    ensures KeysTotal(cs, side, keys) == PaidTotal(cs)
    decreases |cs|
  {
    if |cs| == 0 {
      KeysTotalEmpty(side, keys);
    } else {
      assert cs == [cs[0]] + cs[1..];
      KeysTotalStep(cs[0], cs[1..], side, keys);
      IndicatorOnce(keys, KeyOf(cs[0], side), UnitModel.AdjustedAmount(cs[0]));
      KeysPartitionCommissions(cs[1..], side, keys);
    }
  }

  /** The unit summaries' commission totals add up to the analytics total,
      and so do the employee summaries'. */
  lemma SummariesAddUp(c: Calculator)
    requires Valid(c) && Referenced(c)
    ensures KeysTotal(c.commissions, ByUnit, c.units.order) == AnalyticsOf(c).totalCommissions
    ensures KeysTotal(c.commissions, ByEmployee, c.employees.order) == AnalyticsOf(c).totalCommissions
  {
    KeysPartitionCommissions(c.commissions, ByUnit, c.units.order);
    KeysPartitionCommissions(c.commissions, ByEmployee, c.employees.order);
  }

  // ---- revenue totals under updates ------------------------------------------

  lemma {:induction false} RevenueOverUnlisted(ids: seq<string>, entries: map<string, BusinessUnit>, id: string, u: BusinessUnit)
    requires id !in ids
    ensures RevenueOver(ids, entries[id := u]) == RevenueOver(ids, entries)
    decreases |ids|
  {
    if |ids| > 0 {
      RevenueOverUnlisted(ids[1..], entries, id, u);
    }
  }

  lemma {:induction false} RevenueOverListed(ids: seq<string>, entries: map<string, BusinessUnit>, id: string, u: BusinessUnit)
    requires id in entries && id in ids && Seqs.NoDuplicates(ids)
    ensures RevenueOver(ids, entries[id := u]) == RevenueOver(ids, entries) - entries[id].revenue + u.revenue
    decreases |ids|
  {
    if ids[0] == id {
      assert id !in ids[1..];
      RevenueOverUnlisted(ids[1..], entries, id, u);
    } else {
      RevenueOverListed(ids[1..], entries, id, u);
    }
  }

  lemma {:induction false} RevenueOverAppend(ids: seq<string>, entries: map<string, BusinessUnit>, id: string)
    ensures RevenueOver(ids + [id], entries) == RevenueOver(ids, entries) + (if id in entries then entries[id].revenue else 0.0)
    decreases |ids|
  {
    if |ids| == 0 {
      assert ids + [id] == [id];
      assert ([id])[1..] == [];
    } else {
      assert (ids + [id])[1..] == ids[1..] + [id];
      RevenueOverAppend(ids[1..], entries, id);
    }
  }

  /** Storing a unit changes the total revenue by the difference it makes
      to its own revenue. */
  lemma AddUnitRevenue(c: Calculator, u: BusinessUnit)
    requires c.units.Valid()
    ensures var d := AddUnit(c, u);
      RevenueOver(d.units.order, d.units.entries)
        == RevenueOver(c.units.order, c.units.entries)
           - (if u.id in c.units.entries then c.units.entries[u.id].revenue else 0.0) + u.revenue
  {
    var d := AddUnit(c, u);
    if u.id in c.units.entries {
      RevenueOverListed(c.units.order, c.units.entries, u.id, u);
    } else {
      RevenueOverUnlisted(c.units.order, c.units.entries, u.id, u);
      RevenueOverAppend(c.units.order, c.units.entries[u.id := u], u.id);
    }
  }
}
