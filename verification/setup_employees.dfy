/** Adding employees on the company setup screen: by hand, where an
    employee id that is already taken is refused, and automatically from
    the names of a timesheet, where ids of the form AUTO001 are handed out. */
module SetupEmployees {
  import opened Wrappers
  import Text

  const ExcludedFromPayroll := "Excluded from Payroll"

  /** One row of the employee table (the hire and creation dates are not
      modelled). */
  datatype StaffRecord = StaffRecord(id: string, name: string, department: string, hourlyRate: real,
                                     status: string, eligible: bool, plan: string)

  /** What the auto-add form collects for one timesheet name. */
  datatype EmployeeConfig = EmployeeConfig(name: string, department: string, hourlyRate: real,
                                           status: string, plan: string)

  predicate DistinctIds(staff: seq<StaffRecord>) {
    forall i, j :: 0 <= i < j < |staff| ==> staff[i].id != staff[j].id
  }

  function IdsOf(staff: seq<StaffRecord>): (ids: seq<string>)
    ensures |ids| == |staff|
    ensures forall i :: 0 <= i < |staff| ==> ids[i] == staff[i].id
  {
    seq(|staff|, i requires 0 <= i < |staff| => staff[i].id)
  }

  function IdTaken(id: string): string {
    "Employee ID " + id + " already exists"
  }

  /** The manual form: an id already in the table is refused and the
      table stays as it was; otherwise the new row goes to the end. */
  function AddEmployee(staff: seq<StaffRecord>, e: StaffRecord): (r: Result<seq<StaffRecord>>)
    ensures r.Err? <==> exists i :: 0 <= i < |staff| && staff[i].id == e.id
    ensures r.Err? ==> r.error == IdTaken(e.id)
    ensures r.Ok? ==> |r.value| == |staff| + 1 && r.value[..|staff|] == staff && r.value[|staff|] == e
    ensures r.Ok? && DistinctIds(staff) ==> DistinctIds(r.value)
  {
    var ids := IdsOf(staff);
    if e.id in ids then Err(IdTaken(e.id))
    else
      assert forall i :: 0 <= i < |staff| ==> staff[i].id == ids[i];
      Ok(staff + [e])
  }

  /** Everybody takes part in commissions except those excluded from
      payroll. */
  predicate CommissionEligible(status: string) {
    status != ExcludedFromPayroll
  }

  /** `f"AUTO{str(n).zfill(3)}"`. */
  function AutoId(n: nat): string {
    "AUTO" + Text.ZeroFill(Text.NatToString(n), 3)
  }

  /** The number an AUTO id carries, 0 for any other id. */
  function AutoNumber(id: string): nat {
    var t := if |id| >= 4 then id[4..] else "";
    if |id| > 4 && id[..4] == "AUTO" && forall i :: 0 <= i < |t| ==> Text.IsDigit(t[i]) then Text.DigitsValue(t)
    else 0
  }

  lemma NumberOfAutoId(n: nat)
    ensures AutoNumber(AutoId(n)) == n
  {
    var z := Text.ZeroFill(Text.NatToString(n), 3);
    Text.LeadingZeros(Text.NatToString(n), 3);
    Text.DigitsOfNat(n);
    assert AutoId(n)[..4] == "AUTO" && AutoId(n)[4..] == z;
  }

  /** Different numbers give different ids. */
  lemma AutoIdInjective(a: nat, b: nat)
    ensures AutoId(a) == AutoId(b) ==> a == b
  {
    NumberOfAutoId(a);
    NumberOfAutoId(b);
  }

  /** One more than the largest number carried by an id of the list. */
  function NumberBound(ids: seq<string>): (b: nat)
    ensures forall i :: 0 <= i < |ids| ==> AutoNumber(ids[i]) < b
  {
    if |ids| == 0 then 0
    else
      var rest := NumberBound(ids[1..]);
      assert forall i :: 1 <= i < |ids| ==> ids[i] == ids[1..][i - 1];
      if AutoNumber(ids[0]) < rest then rest else AutoNumber(ids[0]) + 1
  }

  lemma BoundCovers(ids: seq<string>, n: nat)
    requires AutoId(n) in ids
    ensures n < NumberBound(ids)
  {
    NumberOfAutoId(n);
  }

  /** The ids of the numbers from `n` up to `m` are all taken. */
  predicate AllTaken(ids: seq<string>, n: nat, m: nat) {
    forall k :: n <= k < m ==> AutoId(k) in ids
  }

  /** The `while emp_id in ids: i += 1` search: the first number from `n`
      on whose id is free. */
  function FirstFree(ids: seq<string>, n: nat): (m: nat)
    ensures n <= m && AutoId(m) !in ids
    ensures AllTaken(ids, n, m)
    decreases NumberBound(ids) - n
  {
    if AutoId(n) in ids then
      BoundCovers(ids, n);
      FirstFree(ids, n + 1)
    else n
  }

  /** The ids the timesheet auto-add hands out, as written: the k-th new
      employee starts the search at k + 1 and only avoids the ids that were
      in the table before. */
  function AutoIdsAsWritten(existing: seq<string>, count: nat): (ids: seq<string>)
    ensures |ids| == count
    ensures forall k :: 0 <= k < count ==> ids[k] !in existing
  {
    seq(count, (k: int) requires 0 <= k => AsWrittenId(existing, k))
  }

  /** The id the k-th new employee gets as written. */
  function AsWrittenId(existing: seq<string>, k: nat): (id: string)
    ensures id !in existing
  {
    AutoId(FirstFree(existing, k + 1))
  }

  /** The ids as intended: the search also avoids the ids already handed
      out in the same batch. */
  function AutoIds(existing: seq<string>, count: nat): (ids: seq<string>)
    ensures |ids| == count
    ensures forall k :: 0 <= k < count ==> ids[k] !in existing
    ensures forall a, b :: 0 <= a < b < count ==> ids[a] != ids[b]
    decreases count
  {
    if count == 0 then []
    else
      var prior := AutoIds(existing, count - 1);
      var id := AutoId(FirstFree(existing + prior, count));
      assert id !in existing && id !in prior;
      prior + [id]
  }

  /** No existing id is one of AUTO001 up to the `count`-th. */
  predicate NoneTaken(existing: seq<string>, count: nat) {
    forall k :: 1 <= k <= count ==> AutoId(k) !in existing
  }

  /** With no clash among the existing ids, both searches give
      AUTO001, AUTO002, ... in order. */
  lemma FreshNumbersAgree(existing: seq<string>, count: nat)
    requires NoneTaken(existing, count)
    ensures AutoIds(existing, count) == AutoIdsAsWritten(existing, count)
    ensures forall k :: 0 <= k < count ==> AutoIds(existing, count)[k] == AutoId(k + 1)
  {
    FreshNumbersInOrder(existing, count);
    FreshNumbersAsWritten(existing, count);
    var ids := AutoIds(existing, count);
    var w := AutoIdsAsWritten(existing, count);
    assert |ids| == |w| && forall k :: 0 <= k < count ==> ids[k] == w[k];
  }

  lemma FreshNumbersAsWritten(existing: seq<string>, count: nat)
    requires NoneTaken(existing, count)
    ensures forall k :: 0 <= k < count ==> AutoIdsAsWritten(existing, count)[k] == AutoId(k + 1)
  {
    var w := AutoIdsAsWritten(existing, count);
    forall k | 0 <= k < count
      ensures w[k] == AutoId(k + 1)
    {
      assert AutoId(k + 1) !in existing;
      FirstFreeAt(existing, k + 1);
    }
  }

  /** A free number is its own first free number. */
  lemma FirstFreeAt(ids: seq<string>, n: nat)
    requires AutoId(n) !in ids
    ensures FirstFree(ids, n) == n
  {
  }

  lemma {:induction false} FreshNumbersInOrder(existing: seq<string>, count: nat)
    requires NoneTaken(existing, count)
    ensures forall k :: 0 <= k < count ==> AutoIds(existing, count)[k] == AutoId(k + 1)
  {
    if count > 0 {
      assert NoneTaken(existing, count - 1);
      FreshNumbersInOrder(existing, count - 1);
      assert AutoId(count) !in existing;
      FreshStep(existing, count, AutoIds(existing, count - 1));
    }
  }

  /** The next id after AUTO001 .. AUTO(count - 1), when free, is the
      count-th. */
  lemma FreshStep(existing: seq<string>, count: nat, prior: seq<string>)
    requires count > 0 && prior == AutoIds(existing, count - 1)
    requires forall k :: 0 <= k < count - 1 ==> prior[k] == AutoId(k + 1)
    requires AutoId(count) !in existing
    ensures forall k :: 0 <= k < count ==> AutoIds(existing, count)[k] == AutoId(k + 1)
  {
    assert AutoId(count) !in prior by {
      forall k | 0 <= k < count - 1
        ensures prior[k] != AutoId(count)
      {
        AutoIdInjective(k + 1, count);
      }
    }
    assert AutoId(count) !in existing + prior;
    FirstFreeAt(existing + prior, count);
    var ids := AutoIds(existing, count);
    assert ids == prior + [AutoId(count)];
    forall k | 0 <= k < count
      ensures ids[k] == AutoId(k + 1)
    {
      if k < count - 1 {
        assert ids[k] == prior[k];
      }
    }
  }

  /** With AUTO001 already taken, the first two auto-added employees are
      both given AUTO002; the intended search gives AUTO002 and AUTO003. */
  lemma DuplicateAutoIdsAsWritten()
    ensures AutoIdsAsWritten(["AUTO001"], 2) == ["AUTO002", "AUTO002"]
    ensures AutoIds(["AUTO001"], 2) == ["AUTO002", "AUTO003"]
  {
    FirstIdsAsWritten();
    FirstIdsCorrected();
  }

  lemma FirstIdsAsWritten()
    ensures AutoIdsAsWritten(["AUTO001"], 2) == ["AUTO002", "AUTO002"]
  {
    var taken := ["AUTO001"];
    AutoOneTwoThree();
    assert FirstFree(taken, 1) == 2 by {
      assert AutoId(1) in taken;
      FirstFreeAt(taken, 2);
    }
    FirstFreeAt(taken, 2);
  }

  lemma FirstIdsCorrected()
    ensures AutoIds(["AUTO001"], 2) == ["AUTO002", "AUTO003"]
  {
    var taken := ["AUTO001"];
    AutoOneTwoThree();
    assert AutoIds(taken, 1) == ["AUTO002"] by {
      assert AutoIds(taken, 0) == [];
      assert taken + [] == taken;
      assert FirstFree(taken, 1) == 2 by {
        assert AutoId(1) in taken;
        FirstFreeAt(taken, 2);
      }
    }
    var both := taken + ["AUTO002"];
    assert FirstFree(both, 2) == 3 by {
      assert AutoId(2) in both;
      FirstFreeAt(both, 3);
    }
  }

  lemma AutoOneTwoThree()
    ensures AutoId(1) == "AUTO001" && AutoId(2) == "AUTO002" && AutoId(3) == "AUTO003"
  {
    SmallAutoId(1);
    SmallAutoId(2);
    SmallAutoId(3);
    assert ('0' as int + 1) as char == '1' && ('0' as int + 2) as char == '2' && ('0' as int + 3) as char == '3';
  }

  /** The id of a one-digit number. */
  lemma SmallAutoId(n: nat)
    requires n < 10
    ensures AutoId(n) == "AUTO00" + [('0' as int + n) as char]
  {
    assert Text.NatToString(n) == [('0' as int + n) as char];
  }

  function NewRecord(id: string, c: EmployeeConfig): StaffRecord {
    StaffRecord(id, c.name, c.department, c.hourlyRate, c.status, CommissionEligible(c.status), c.plan)
  }

  function Added(ids: seq<string>, configs: seq<EmployeeConfig>): (added: seq<StaffRecord>)
    requires |ids| == |configs|
    ensures |added| == |configs|
    ensures forall k :: 0 <= k < |configs| ==> added[k] == NewRecord(ids[k], configs[k])
  {
    seq(|configs|, k requires 0 <= k < |configs| => NewRecord(ids[k], configs[k]))
  }

  lemma AppendKeepsDistinct(staff: seq<StaffRecord>, added: seq<StaffRecord>)
    requires DistinctIds(staff) && DistinctIds(added)
    requires forall i, k :: 0 <= i < |staff| && 0 <= k < |added| ==> staff[i].id != added[k].id
    ensures DistinctIds(staff + added)
  {
    var r := staff + added;
    forall i, j | 0 <= i < j < |r|
      ensures r[i].id != r[j].id
    {
      if i >= |staff| {
        assert r[i] == added[i - |staff|] && r[j] == added[j - |staff|];
      } else if j >= |staff| {
        assert r[i] == staff[i] && r[j] == added[j - |staff|];
      } else {
        assert r[i] == staff[i] && r[j] == staff[j];
      }
    }
  }

  /** Auto-adding employees from a timesheet: one new row per configured
      name, after the existing rows, each with a fresh id and commission
      eligibility following its status. */
  function AutoAdd(staff: seq<StaffRecord>, configs: seq<EmployeeConfig>): (r: seq<StaffRecord>)
    ensures |r| == |staff| + |configs| && r[..|staff|] == staff
    ensures forall k :: 0 <= k < |configs| ==>
              r[|staff| + k].name == configs[k].name && r[|staff| + k].status == configs[k].status
              && (r[|staff| + k].eligible <==> configs[k].status != ExcludedFromPayroll)
    ensures DistinctIds(staff) ==> DistinctIds(r)
  {
    var existing := IdsOf(staff);
    var ids := AutoIds(existing, |configs|);
    var added := Added(ids, configs);
    assert DistinctIds(added) by {
      forall a, b | 0 <= a < b < |added|
        ensures added[a].id != added[b].id
      {
        assert added[a].id == ids[a] && added[b].id == ids[b];
      }
    }
    assert forall i, k :: 0 <= i < |staff| && 0 <= k < |added| ==> staff[i].id != added[k].id by {
      forall i, k | 0 <= i < |staff| && 0 <= k < |added|
        ensures staff[i].id != added[k].id
      {
        assert existing[i] == staff[i].id && added[k].id == ids[k];
      }
    }
    assert DistinctIds(staff) ==> DistinctIds(staff + added) by {
      if DistinctIds(staff) {
        AppendKeepsDistinct(staff, added);
      }
    }
    assert forall k :: 0 <= k < |configs| ==> (staff + added)[|staff| + k] == added[k];
    staff + added
  }
}
