/** The commission approval workflow kept in memory: amount bands that
    decide the approval level and whether a request approves itself, the
    request life cycle (create, approve, reject, escalate), the pending and
    history queries and the metrics.  Identifiers and the current time are
    parameters; the JSON files and the notifications sent are not part of
    this model. */
module ApprovalWorkflow {
  import opened Wrappers
  import opened Dicts

  datatype Status = Pending | Approved | Rejected | Escalated | AutoApproved

  datatype Level = Supervisor | Manager | Director | Executive

  /** A level's place in the hierarchy, supervisor first. */
  function LevelIndex(l: Level): (i: nat)
    ensures i <= 3
  {
    match l
    case Supervisor => 0
    case Manager => 1
    case Director => 2
    case Executive => 3
  }

  datatype Rule = Rule(name: string, minAmount: real, maxAmount: Option<real>, level: Level,
                       autoApproveBelow: Option<real>, active: bool)

  /** The rules installed when none exist: five ascending bands, the first
      of which approves amounts below 500 by itself. */
  const DefaultRules: seq<Rule> := [
    Rule("Auto-approve small amounts", 0.0, Some(500.0), Supervisor, Some(500.0), true),
    Rule("Supervisor approval", 500.0, Some(2000.0), Supervisor, None, true),
    Rule("Manager approval", 2000.0, Some(5000.0), Manager, None, true),
    Rule("Director approval", 5000.0, Some(10000.0), Director, None, true),
    Rule("Executive approval", 10000.0, None, Executive, None, true)
  ]

  // ---- sorting -------------------------------------------------------------------

  predicate SortedBy<T>(s: seq<T>, key: T -> real) {
    forall i, j :: 0 <= i < j < |s| ==> key(s[i]) <= key(s[j])
  }

  /** `x` placed before the first element whose key is not smaller. */
  function InsertBy<T>(x: T, s: seq<T>, key: T -> real): (r: seq<T>)
    requires SortedBy(s, key)
    ensures SortedBy(r, key)
    ensures multiset(r) == multiset(s) + multiset{x}
    ensures |r| == |s| + 1
  {
    if s == [] || key(x) <= key(s[0]) then [x] + s
    else
      var rest := InsertBy(x, s[1..], key);
      InsertedAbove(x, s, key, rest);
      [s[0]] + rest
  }

  /** What `InsertBy` needs once the element goes after the head. */
  lemma InsertedAbove<T>(x: T, s: seq<T>, key: T -> real, rest: seq<T>)
    requires s != [] && SortedBy(s, key) && key(s[0]) < key(x)
    requires SortedBy(rest, key) && multiset(rest) == multiset(s[1..]) + multiset{x}
    ensures SortedBy([s[0]] + rest, key)
    ensures multiset([s[0]] + rest) == multiset(s) + multiset{x}
  {
    assert s == [s[0]] + s[1..];
    forall i | 0 <= i < |rest|
      ensures key(s[0]) <= key(rest[i])
    {
      assert rest[i] in multiset(rest);
      if rest[i] != x {
        assert rest[i] in multiset(s[1..]);
        var k :| 0 <= k < |s[1..]| && s[1..][k] == rest[i];
        assert s[k + 1] == rest[i];
      }
    }
  }

  /** Python's `sorted(s, key=key)` as an insertion sort. */
  function SortBy<T>(s: seq<T>, key: T -> real): (r: seq<T>)
    ensures SortedBy(r, key)
    ensures multiset(r) == multiset(s)
    ensures |r| == |s|
  {
    if s == [] then []
    else
      assert s == [s[0]] + s[1..];
      InsertBy(s[0], SortBy(s[1..], key), key)
  }

  /** Sorting what is already in order changes nothing. */
  lemma {:induction false} SortSorted<T>(s: seq<T>, key: T -> real)
    requires SortedBy(s, key)
    ensures SortBy(s, key) == s
  {
    if s != [] {
      SortSorted(s[1..], key);
      assert s == [s[0]] + s[1..];
    }
  }

  // ---- rules ---------------------------------------------------------------------

  function MinOf(r: Rule): real {
    r.minAmount
  }

  /** Whether an active rule's band, inclusive at both ends, holds the amount. */
  predicate Matches(r: Rule, amount: real) {
    r.active && r.minAmount <= amount && (r.maxAmount.None? || amount <= r.maxAmount.value)
  }

  /** The index of the first rule that matches. */
  function FirstMatch(rules: seq<Rule>, amount: real): (r: Option<nat>)
    ensures r.Some? ==> r.value < |rules| && Matches(rules[r.value], amount)
                        && forall j :: 0 <= j < r.value ==> !Matches(rules[j], amount)
    ensures r.None? ==> forall j :: 0 <= j < |rules| ==> !Matches(rules[j], amount)
  {
    if rules == [] then None
    else if Matches(rules[0], amount) then Some(0)
    else match FirstMatch(rules[1..], amount)
      case None => None
      case Some(i) => Some(i + 1)
  }

  /** The rule the first match points at. */
  function FirstRule(rules: seq<Rule>, amount: real): Option<Rule> {
    match FirstMatch(rules, amount)
    case None => None
    case Some(i) => Some(rules[i])
  }

  /** The first match of a list with a head is the head when it matches,
      and otherwise the first match of the rest. */
  lemma FirstRuleCons(x: Rule, t: seq<Rule>, amount: real)
    ensures FirstRule([x] + t, amount) == if Matches(x, amount) then Some(x) else FirstRule(t, amount)
  {
    assert ([x] + t)[1..] == t;
  }

  /** `rules[i]` is the rule a stable sort by lower bound brings first among
      the matching ones: it matches, and every matching rule has a larger
      lower bound or the same one and a later place in the list. */
  predicate FirstByMin(rules: seq<Rule>, amount: real, i: int) {
    0 <= i < |rules| && Matches(rules[i], amount)
    && forall j :: 0 <= j < |rules| && Matches(rules[j], amount) ==>
         rules[i].minAmount < rules[j].minAmount || (rules[i].minAmount == rules[j].minAmount && i <= j)
  }

  /** At most one rule comes first. */
  lemma FirstByMinUnique(rules: seq<Rule>, amount: real, i: int, k: int)
    requires FirstByMin(rules, amount, i) && FirstByMin(rules, amount, k)
    ensures i == k
  {
  }

  /** Inserting `x` into rules sorted by lower bound puts it before every
      rule whose lower bound is not smaller, so it becomes the first match
      exactly when it matches and no earlier-bounded rule does. */
  lemma {:induction false} InsertFirstRule(x: Rule, t: seq<Rule>, amount: real)
    requires SortedBy(t, MinOf)
    ensures FirstRule(InsertBy(x, t, MinOf), amount)
            == if Matches(x, amount) && (FirstRule(t, amount).None? || x.minAmount <= FirstRule(t, amount).value.minAmount)
               then Some(x) else FirstRule(t, amount)
    decreases |t|
  {
    if t == [] || x.minAmount <= t[0].minAmount {
      FirstRuleCons(x, t, amount);
    } else {
      assert t == [t[0]] + t[1..];
      assert SortedBy(t[1..], MinOf);
      InsertFirstRule(x, t[1..], amount);
      FirstRuleCons(t[0], InsertBy(x, t[1..], MinOf), amount);
      FirstRuleCons(t[0], t[1..], amount);
    }
  }

  /** The first match after a stable sort by lower bound is the rule that
      `FirstByMin` singles out, and there is none when no rule matches. */
  lemma {:induction false} SortedFirstRule(rules: seq<Rule>, amount: real)
    ensures FirstRule(SortBy(rules, MinOf), amount).None? <==> forall j :: 0 <= j < |rules| ==> !Matches(rules[j], amount)
    ensures FirstRule(SortBy(rules, MinOf), amount).Some? ==>
              exists i :: FirstByMin(rules, amount, i) && rules[i] == FirstRule(SortBy(rules, MinOf), amount).value
    decreases |rules|
  {
    if rules != [] {
      SortedFirstRule(rules[1..], amount);
      var t := SortBy(rules[1..], MinOf);
      assert SortBy(rules, MinOf) == InsertBy(rules[0], t, MinOf);
      SortedFirstStep(rules, amount, t);
    }
  }

  /** Inserting the head into the sorted rest keeps the first match the
      rule `FirstByMin` singles out. */
  lemma SortedFirstStep(rules: seq<Rule>, amount: real, t: seq<Rule>)
    requires rules != [] && SortedBy(t, MinOf)
    requires FirstRule(t, amount).None? <==> forall j :: 0 <= j < |rules[1..]| ==> !Matches(rules[1..][j], amount)
    requires FirstRule(t, amount).Some? ==>
               exists i :: FirstByMin(rules[1..], amount, i) && rules[1..][i] == FirstRule(t, amount).value
    ensures FirstRule(InsertBy(rules[0], t, MinOf), amount).None? <==> forall j :: 0 <= j < |rules| ==> !Matches(rules[j], amount)
    ensures FirstRule(InsertBy(rules[0], t, MinOf), amount).Some? ==>
              exists i :: FirstByMin(rules, amount, i) && rules[i] == FirstRule(InsertBy(rules[0], t, MinOf), amount).value
  {
    var x, rest := rules[0], rules[1..];
    InsertFirstRule(x, t, amount);
    var f := FirstRule(t, amount);
    if Matches(x, amount) && (f.None? || x.minAmount <= f.value.minAmount) {
      HeadComesFirst(rules, amount, f);
    } else if f.Some? {
      var i' :| FirstByMin(rest, amount, i') && rest[i'] == f.value;
      RestComesFirst(rules, amount, i');
    } else {
      assert forall j :: 1 <= j < |rules| ==> rules[j] == rest[j - 1];
    }
  }

  /** A matching head whose lower bound is not above that of the rest's
      first match comes first. */
  lemma HeadComesFirst(rules: seq<Rule>, amount: real, f: Option<Rule>)
    requires rules != [] && Matches(rules[0], amount)
    requires f.None? ==> forall j :: 0 <= j < |rules| - 1 ==> !Matches(rules[1..][j], amount)
    requires f.Some? ==> rules[0].minAmount <= f.value.minAmount
                         && exists i :: FirstByMin(rules[1..], amount, i) && rules[1..][i] == f.value
    ensures FirstByMin(rules, amount, 0)
  {
    forall j | 1 <= j < |rules| && Matches(rules[j], amount)
      ensures rules[0].minAmount <= rules[j].minAmount
    {
      assert rules[j] == rules[1..][j - 1];
    }
  }

  /** The rest's first rule comes first overall when the head does not
      match or has a larger lower bound. */
  lemma RestComesFirst(rules: seq<Rule>, amount: real, i: int)
    requires rules != [] && FirstByMin(rules[1..], amount, i)
    requires Matches(rules[0], amount) ==> rules[1..][i].minAmount < rules[0].minAmount
    ensures FirstByMin(rules, amount, i + 1)
  {
    forall j | 1 <= j < |rules| && Matches(rules[j], amount)
      ensures rules[i + 1].minAmount < rules[j].minAmount || (rules[i + 1].minAmount == rules[j].minAmount && i + 1 <= j)
    {
      assert rules[j] == rules[1..][j - 1];
    }
  }

  /** `get_required_approval_level`: the level of the first active rule
      holding the amount once the rules are sorted by lower bound (stably,
      so equal bounds keep their order), or none. */
  function RequiredLevel(rules: seq<Rule>, amount: real): (l: Option<Level>)
    ensures l.Some? <==> exists i :: 0 <= i < |rules| && Matches(rules[i], amount)
    ensures l.Some? ==> exists i :: FirstByMin(rules, amount, i) && rules[i].level == l.value
  {
    SortedFirstRule(rules, amount);
    match FirstRule(SortBy(rules, MinOf), amount)
    case None => None
    case Some(r) => Some(r.level)
  }

  /** With overlapping bands the one with the lower lower bound decides:
      700 lies in 0-1000 (supervisor) and in 500-2000 (manager), and needs
      a supervisor. */
  lemma OverlappingBandsExample()
    ensures RequiredLevel([Rule("A", 0.0, Some(1000.0), Supervisor, None, true),
                           Rule("B", 500.0, Some(2000.0), Manager, None, true)], 700.0) == Some(Supervisor)
  {
    var rules := [Rule("A", 0.0, Some(1000.0), Supervisor, None, true),
                  Rule("B", 500.0, Some(2000.0), Manager, None, true)];
    var l := RequiredLevel(rules, 700.0);
    assert Matches(rules[0], 700.0);
    var i :| FirstByMin(rules, 700.0, i) && rules[i].level == l.value;
    FirstByMinUnique(rules, 700.0, i, 0);
  }

  /** `is_auto_approvable`: some active rule has a non-zero threshold above
      the amount. */
  function AutoApprovable(rules: seq<Rule>, amount: real): (b: bool)
    ensures b <==> exists r :: r in rules && r.active && r.autoApproveBelow.Some?
                                && r.autoApproveBelow.value != 0.0 && amount < r.autoApproveBelow.value
  {
    if rules == [] then false
    else
      var r := rules[0];
      assert forall x :: x in rules <==> x == r || x in rules[1..];
      (r.active && r.autoApproveBelow.Some? && r.autoApproveBelow.value != 0.0 && amount < r.autoApproveBelow.value)
      || AutoApprovable(rules[1..], amount)
  }

  lemma DefaultRulesSorted()
    ensures SortBy(DefaultRules, MinOf) == DefaultRules
  {
    assert SortedBy(DefaultRules, MinOf);
    SortSorted(DefaultRules, MinOf);
  }

  /** The level under the default rules is that of the first default
      band holding the amount. */
  lemma DefaultLevel(amount: real)
    ensures RequiredLevel(DefaultRules, amount) ==
      match FirstMatch(DefaultRules, amount) case None => None case Some(i) => Some(DefaultRules[i].level)
  {
    DefaultRulesSorted();
  }

  /** Under the default rules negative amounts match no band, and each
      band is inclusive at its top, so 2000 needs a supervisor. */
  lemma DefaultBands(amount: real)
    ensures amount < 0.0 ==> RequiredLevel(DefaultRules, amount).None?
    ensures 0.0 <= amount <= 2000.0 ==> RequiredLevel(DefaultRules, amount) == Some(Supervisor)
    ensures 2000.0 < amount <= 5000.0 ==> RequiredLevel(DefaultRules, amount) == Some(Manager)
    ensures 5000.0 < amount <= 10000.0 ==> RequiredLevel(DefaultRules, amount) == Some(Director)
    ensures 10000.0 < amount ==> RequiredLevel(DefaultRules, amount) == Some(Executive)
  {
    DefaultLevel(amount);
    DefaultFirstMatch(amount);
  }

  /** Which default band holds an amount first. */
  lemma DefaultFirstMatch(amount: real)
    ensures amount < 0.0 ==> FirstMatch(DefaultRules, amount).None?
    ensures 0.0 <= amount <= 500.0 ==> FirstMatch(DefaultRules, amount) == Some(0)
    ensures 500.0 < amount <= 2000.0 ==> FirstMatch(DefaultRules, amount) == Some(1)
    ensures 2000.0 < amount <= 5000.0 ==> FirstMatch(DefaultRules, amount) == Some(2)
    ensures 5000.0 < amount <= 10000.0 ==> FirstMatch(DefaultRules, amount) == Some(3)
    ensures 10000.0 < amount ==> FirstMatch(DefaultRules, amount) == Some(4)
  {
    var r0, r1, r2, r3, r4 := DefaultRules[0], DefaultRules[1], DefaultRules[2], DefaultRules[3], DefaultRules[4];
    assert r0.minAmount == 0.0 && r0.maxAmount == Some(500.0) && r0.active;
    assert r1.minAmount == 500.0 && r1.maxAmount == Some(2000.0) && r1.active;
    assert r2.minAmount == 2000.0 && r2.maxAmount == Some(5000.0) && r2.active;
    assert r3.minAmount == 5000.0 && r3.maxAmount == Some(10000.0) && r3.active;
    assert r4.minAmount == 10000.0 && r4.maxAmount.None? && r4.active;
    assert |DefaultRules| == 5;
    if amount < 0.0 {
      assert !Matches(r0, amount) && !Matches(r1, amount) && !Matches(r2, amount) && !Matches(r3, amount) && !Matches(r4, amount);
      forall j | 0 <= j < 5 ensures !Matches(DefaultRules[j], amount) {
        assert DefaultRules[j] in [r0, r1, r2, r3, r4][..5];
      }
      FirstMatchAt(DefaultRules, amount, 5);
    } else if amount <= 500.0 {
      assert Matches(r0, amount);
      FirstMatchAt(DefaultRules, amount, 0);
    } else if amount <= 2000.0 {
      assert !Matches(r0, amount) && Matches(r1, amount);
      FirstMatchAt(DefaultRules, amount, 1);
    } else if amount <= 5000.0 {
      assert !Matches(r0, amount) && !Matches(r1, amount) && Matches(r2, amount);
      forall j | 0 <= j < 2 ensures !Matches(DefaultRules[j], amount) {
        assert DefaultRules[j] in [r0, r1, r2, r3, r4][..2];
      }
      FirstMatchAt(DefaultRules, amount, 2);
    } else if amount <= 10000.0 {
      assert !Matches(r0, amount) && !Matches(r1, amount) && !Matches(r2, amount) && Matches(r3, amount);
      forall j | 0 <= j < 3 ensures !Matches(DefaultRules[j], amount) {
        assert DefaultRules[j] in [r0, r1, r2, r3, r4][..3];
      }
      FirstMatchAt(DefaultRules, amount, 3);
    } else {
      assert !Matches(r0, amount) && !Matches(r1, amount) && !Matches(r2, amount) && !Matches(r3, amount) && Matches(r4, amount);
      forall j | 0 <= j < 4 ensures !Matches(DefaultRules[j], amount) {
        assert DefaultRules[j] in [r0, r1, r2, r3, r4][..4];
      }
      FirstMatchAt(DefaultRules, amount, 4);
    }
  }

  /** The first match is at `i` when nothing before `i` matches and
      `rules[i]` does; there is none when nothing matches at all. */
  lemma FirstMatchAt(rules: seq<Rule>, amount: real, i: nat)
    requires i <= |rules|
    requires forall j :: 0 <= j < i ==> !Matches(rules[j], amount)
    requires i < |rules| ==> Matches(rules[i], amount)
    ensures i < |rules| ==> FirstMatch(rules, amount) == Some(i)
    ensures i == |rules| ==> FirstMatch(rules, amount).None?
  {
  }

  /** Under the default rules only amounts below 500 approve themselves. */
  lemma DefaultAutoApproval(amount: real)
    ensures AutoApprovable(DefaultRules, amount) <==> amount < 500.0
  {
    assert DefaultRules[0] in DefaultRules;
  }

  // ---- requests ------------------------------------------------------------------

  datatype Comment = Comment(user: string, text: string, timestamp: int)

  datatype Request = Request(
    id: string, commissionId: string, employeeId: string, employeeName: string,
    unitId: string, unitName: string, amount: real, period: string, status: Status,
    requestedBy: string, requestedAt: int, approverId: Option<string>, approverName: Option<string>,
    approvedAt: Option<int>, rejectionReason: Option<string>, comments: seq<Comment>, level: Level)

  /** The commission data a request is made from; the commission id is
      optional. */
  datatype CommissionData = CommissionData(
    commissionId: Option<string>, employeeId: string, employeeName: string, unitId: string,
    unitName: string, amount: real, period: string)

  datatype Workflow = Workflow(requests: Dict<Request>, rules: seq<Rule>)

  /** The requests are filed under their own ids. */
  ghost predicate Valid(w: Workflow) {
    w.requests.Valid() && forall k :: k in w.requests.entries ==> w.requests.entries[k].id == k
  }

  /** `create_approval_request` with the new request's id, the commission
      id used when the data has none, and the time: the level is the
      band's (a supervisor when no band matches), and the request
      approves itself exactly when its amount is auto-approvable. */
  function Create(w: Workflow, data: CommissionData, requestedBy: string, newId: string, defaultCommissionId: string,
                  now: int): (r: (Workflow, Request))
    requires Valid(w)
    ensures Valid(r.0) && r.0.rules == w.rules
    ensures r.0.requests.entries == w.requests.entries[newId := r.1]
    ensures r.1.id == newId && r.1.amount == data.amount && r.1.requestedAt == now
    ensures r.1.commissionId == data.commissionId.GetOr(defaultCommissionId)
    ensures r.1.status == AutoApproved <==> AutoApprovable(w.rules, data.amount)
    ensures r.1.status == Pending <==> !AutoApprovable(w.rules, data.amount)
    ensures r.1.level == RequiredLevel(w.rules, data.amount).GetOr(Supervisor)
    ensures r.1.approverId.None? && r.1.approvedAt.None? && r.1.comments == []
  {
    var level := RequiredLevel(w.rules, data.amount).GetOr(Supervisor);
    var status := if AutoApprovable(w.rules, data.amount) then AutoApproved else Pending;
    var req := Request(newId, data.commissionId.GetOr(defaultCommissionId), data.employeeId, data.employeeName,
                       data.unitId, data.unitName, data.amount, data.period, status, requestedBy, now,
                       None, None, None, None, [], level);
    (w.(requests := w.requests.Put(newId, req)), req)
  }

  /** Whether a comment is added: Python's `if comments:`. */
  function CommentsAdded(author: string, text: Option<string>, now: int): (c: seq<Comment>)
    ensures c != [] <==> text.Some? && text.value != ""
  {
    if text.Some? && text.value != "" then [Comment(author, text.value, now)] else []
  }

  /** `approve_request`: only a pending request can be approved; an
      escalated one cannot. */
  function Approve(w: Workflow, id: string, approverId: string, approverName: string, comments: Option<string>,
                   now: int): (r: (Workflow, bool))
    requires Valid(w)
    ensures Valid(r.0) && r.0.rules == w.rules
    ensures r.1 <==> id in w.requests.entries && w.requests.entries[id].status == Pending
    ensures !r.1 ==> r.0 == w
    ensures r.1 ==> r.0.requests.entries == w.requests.entries[id := w.requests.entries[id].(
      status := Approved, approverId := Some(approverId), approverName := Some(approverName), approvedAt := Some(now),
      comments := w.requests.entries[id].comments + CommentsAdded(approverName, comments, now))]
  {
    match w.requests.Get(id)
    case None => (w, false)
    case Some(req) =>
      if req.status != Pending then (w, false)
      else
        var updated := req.(status := Approved, approverId := Some(approverId), approverName := Some(approverName),
                            approvedAt := Some(now), comments := req.comments + CommentsAdded(approverName, comments, now));
        (w.(requests := w.requests.Put(id, updated)), true)
  }

  /** `reject_request`: only a pending request can be rejected, and the
      reason is kept. */
  function Reject(w: Workflow, id: string, approverId: string, approverName: string, reason: string,
                  now: int): (r: (Workflow, bool))
    requires Valid(w)
    ensures Valid(r.0) && r.0.rules == w.rules
    ensures r.1 <==> id in w.requests.entries && w.requests.entries[id].status == Pending
    ensures !r.1 ==> r.0 == w
    ensures r.1 ==> r.0.requests.entries == w.requests.entries[id := w.requests.entries[id].(
      status := Rejected, approverId := Some(approverId), approverName := Some(approverName), approvedAt := Some(now),
      rejectionReason := Some(reason))]
  {
    match w.requests.Get(id)
    case None => (w, false)
    case Some(req) =>
      if req.status != Pending then (w, false)
      else
        var updated := req.(status := Rejected, approverId := Some(approverId), approverName := Some(approverName),
                            approvedAt := Some(now), rejectionReason := Some(reason));
        (w.(requests := w.requests.Put(id, updated)), true)
  }

  function NextLevel(l: Level): Option<Level> {
    match l
    case Supervisor => Some(Manager)
    case Manager => Some(Director)
    case Director => Some(Executive)
    case Executive => None
  }

  /** `escalate_request`: the request moves one level up and is marked
      escalated, whatever its status; at the executive level nothing
      happens. */
  function Escalate(w: Workflow, id: string): (r: (Workflow, bool))
    requires Valid(w)
    ensures Valid(r.0) && r.0.rules == w.rules
    ensures r.1 <==> id in w.requests.entries && w.requests.entries[id].level != Executive
    ensures !r.1 ==> r.0 == w
    ensures r.1 ==> id in r.0.requests.entries && r.0.requests.entries[id].status == Escalated
                    && LevelIndex(r.0.requests.entries[id].level) == LevelIndex(w.requests.entries[id].level) + 1
    ensures r.1 ==> r.0.requests.entries == w.requests.entries[id := r.0.requests.entries[id]]
  {
    match w.requests.Get(id)
    case None => (w, false)
    case Some(req) =>
      match NextLevel(req.level)
      case None => (w, false)
      case Some(next) => (w.(requests := w.requests.Put(id, req.(level := next, status := Escalated))), true)
  }

  /** A decided request cannot be decided again. */
  lemma DecidedOnce(w: Workflow, id: string, a: string, n: string, c: Option<string>, reason: string, now: int, later: int)
    requires Valid(w)
    ensures var (w1, ok) := Approve(w, id, a, n, c, now);
      ok ==> !Approve(w1, id, a, n, c, later).1 && !Reject(w1, id, a, n, reason, later).1
    ensures var (w1, ok) := Reject(w, id, a, n, reason, now);
      ok ==> !Approve(w1, id, a, n, c, later).1 && !Reject(w1, id, a, n, reason, later).1
  {
  }

  /** An escalated request can no longer be approved or rejected. */
  lemma EscalatedCannotBeDecided(w: Workflow, id: string, a: string, n: string, c: Option<string>, reason: string, now: int)
    requires Valid(w)
    ensures var (w1, ok) := Escalate(w, id);
      ok ==> !Approve(w1, id, a, n, c, now).1 && !Reject(w1, id, a, n, reason, now).1
  {
  }

  /** Escalation succeeds at most three times in a row. */
  lemma EscalationsEnd(w: Workflow, id: string)
    requires Valid(w)
    ensures var w1 := Escalate(w, id).0;
      var w2 := Escalate(w1, id).0;
      var w3 := Escalate(w2, id).0;
      !Escalate(w3, id).1
  {
    var (w1, ok1) := Escalate(w, id);
    var (w2, ok2) := Escalate(w1, id);
    var (w3, ok3) := Escalate(w2, id);
    if id in w3.requests.entries {
      assert id in w.requests.entries;
      assert LevelIndex(w3.requests.entries[id].level) >= LevelIndex(w.requests.entries[id].level) + 3 ||
             w3.requests.entries[id].level == Executive;
    }
  }

  // ---- queries -------------------------------------------------------------------

  /** The requests in the order they were filed. */
  function Values(d: Dict<Request>): (s: seq<Request>)
    requires d.Valid()
    ensures |s| == |d.order|
    ensures forall x :: x in s <==> x in d.entries.Values
  {
    var s := seq(|d.order|, i requires 0 <= i < |d.order| => d.entries[d.order[i]]);
    assert forall k :: k in d.entries ==> exists i :: 0 <= i < |d.order| && d.order[i] == k && s[i] == d.entries[k];
    s
  }

  /** The requests of `s` meeting `p`, in order. */
  function Where(s: seq<Request>, p: Request -> bool): (r: seq<Request>)
    ensures |r| <= |s|
    ensures forall x :: x in r <==> x in s && p(x)
  {
    if s == [] then []
    else (if p(s[0]) then [s[0]] else []) + Where(s[1..], p)
  }

  /** The sort key of "newest first". */
  function Age(r: Request): real {
    -(r.requestedAt as real)
  }

  predicate Open(r: Request) {
    r.status == Pending || r.status == Escalated
  }

  /** `get_pending_approvals`: exactly the pending and escalated requests
      (at the given level, when one is given), newest first. */
  function PendingApprovals(w: Workflow, level: Option<Level>): (r: seq<Request>)
    requires Valid(w)
    ensures forall x :: x in r <==> x in w.requests.entries.Values && Open(x) && (level.None? || x.level == level.value)
    ensures forall i, j :: 0 <= i < j < |r| ==> r[i].requestedAt >= r[j].requestedAt
  {
    var open := Where(Values(w.requests), Open);
    var atLevel := if level.Some? then Where(open, (x: Request) => x.level == level.value) else open;
    var r := SortBy(atLevel, Age);
    SortedMembers(atLevel, r);
    r
  }

  /** Escalating a request, even an approved one, puts it among the
      pending approvals. */
  lemma EscalationReopens(w: Workflow, id: string)
    requires Valid(w)
    ensures var (w1, ok) := Escalate(w, id);
      ok ==> w1.requests.entries[id] in PendingApprovals(w1, None)
  {
  }

  /** Python's `s[:limit]`. */
  function Prefix(s: seq<Request>, limit: int): (r: seq<Request>)
    ensures limit >= 0 ==> r == s[..if limit <= |s| then limit else |s|]
    ensures limit < 0 ==> r == s[..if -limit <= |s| then |s| + limit else 0]
  {
    if limit >= 0 then (if limit <= |s| then s[..limit] else s)
    else if -limit <= |s| then s[..|s| + limit] else []
  }

  /** Whether a request passes the history filters: the employee's (any
      employee's for none or an empty id) with the given status. */
  predicate InHistory(x: Request, employeeId: Option<string>, status: Option<Status>) {
    (employeeId.None? || employeeId.value == "" || x.employeeId == employeeId.value)
    && (status.None? || x.status == status.value)
  }

  /** The employee filter and then the status filter, in one pass. */
  function HistoryFilter(s: seq<Request>, employeeId: Option<string>, status: Option<Status>): (r: seq<Request>)
    ensures forall x :: x in r <==> x in s && InHistory(x, employeeId, status)
  {
    if s == [] then []
    else (if InHistory(s[0], employeeId, status) then [s[0]] else []) + HistoryFilter(s[1..], employeeId, status)
  }

  /** How many of `n` items Python's `[:limit]` keeps. */
  function Kept(n: nat, limit: int): (k: nat)
    ensures k <= n
    ensures 0 <= limit ==> k <= limit
  {
    if limit >= 0 then (if limit <= n then limit else n)
    else if -limit <= n then n + limit else 0
  }

  /** `get_approval_history`: the filtered requests newest first, at most
      `limit` of them (Python's slice, so a negative limit drops that many
      of the oldest). */
  function History(w: Workflow, employeeId: Option<string>, status: Option<Status>, limit: int): (r: seq<Request>)
    requires Valid(w)
    ensures forall x :: x in r ==> x in w.requests.entries.Values && InHistory(x, employeeId, status)
    ensures forall i, j :: 0 <= i < j < |r| ==> r[i].requestedAt >= r[j].requestedAt
    ensures 0 <= limit ==> |r| <= limit
    ensures var matching := HistoryFilter(Values(w.requests), employeeId, status);
      multiset(r) <= multiset(matching) && |r| == Kept(|matching|, limit)
      && (forall x, y :: x in r && y in multiset(matching) - multiset(r) ==> y.requestedAt <= x.requestedAt)
      && (0 <= limit && |matching| <= limit ==> multiset(r) == multiset(matching))
  {
    var filtered := HistoryFilter(Values(w.requests), employeeId, status);
    var sorted := SortBy(filtered, Age);
    SortedMembers(filtered, sorted);
    NewestFirstPrefix(filtered, sorted, limit);
    Prefix(sorted, limit)
  }

  /** The newest-first prefix of a list: ordered, drawn from the list, of
      the length the slice keeps, and missing nothing newer than it holds. */
  lemma NewestFirstPrefix(s: seq<Request>, sorted: seq<Request>, limit: int)
    requires SortedBy(sorted, Age) && multiset(sorted) == multiset(s)
    ensures forall x :: x in Prefix(sorted, limit) ==> x in sorted
    ensures forall i, j :: 0 <= i < j < |Prefix(sorted, limit)| ==> Prefix(sorted, limit)[i].requestedAt >= Prefix(sorted, limit)[j].requestedAt
    ensures multiset(Prefix(sorted, limit)) <= multiset(s)
    ensures |Prefix(sorted, limit)| == Kept(|s|, limit)
    ensures forall x, y :: x in Prefix(sorted, limit) && y in multiset(s) - multiset(Prefix(sorted, limit)) ==> y.requestedAt <= x.requestedAt
    ensures 0 <= limit && |s| <= limit ==> multiset(Prefix(sorted, limit)) == multiset(s)
  {
    var k := Kept(|sorted|, limit);
    assert |sorted| == |s| by { assert |multiset(sorted)| == |multiset(s)|; }
    assert Prefix(sorted, limit) == sorted[..k];
    NewestKept(sorted, k);
    if 0 <= limit && |s| <= limit {
      assert sorted[..k] == sorted;
    }
  }

  /** The first `k` of a list sorted newest first: the rest is a part of
      the whole, and nothing left out is newer than anything kept. */
  lemma NewestKept(sorted: seq<Request>, k: nat)
    requires k <= |sorted| && SortedBy(sorted, Age)
    ensures multiset(sorted[..k]) <= multiset(sorted)
    ensures multiset(sorted) - multiset(sorted[..k]) == multiset(sorted[k..])
    ensures forall x, y :: x in sorted[..k] && y in sorted[k..] ==> y.requestedAt <= x.requestedAt
    ensures forall x :: x in sorted[..k] ==> x in sorted
    ensures forall i, j :: 0 <= i < j < k ==> sorted[..k][i].requestedAt >= sorted[..k][j].requestedAt
  {
    assert sorted == sorted[..k] + sorted[k..];
    forall i, j | 0 <= i < j < k ensures sorted[..k][i].requestedAt >= sorted[..k][j].requestedAt {
      assert Age(sorted[i]) <= Age(sorted[j]);
    }
    forall x, y | x in sorted[..k] && y in sorted[k..]
      ensures y.requestedAt <= x.requestedAt
    {
      var i :| 0 <= i < k && sorted[i] == x;
      var j :| 0 <= j < |sorted[k..]| && sorted[k..][j] == y;
      assert sorted[k + j] == y;
      assert Age(sorted[i]) <= Age(sorted[k + j]);
    }
  }

  lemma SortedMembers(s: seq<Request>, t: seq<Request>)
    requires multiset(t) == multiset(s)
    ensures forall x :: x in t <==> x in s
  {
    forall x ensures x in t <==> x in s {
      assert x in t <==> x in multiset(t);
      assert x in s <==> x in multiset(s);
    }
  }

  // ---- metrics -------------------------------------------------------------------

  function CountStatus(s: seq<Request>, st: Status): (n: nat)
    ensures n <= |s|
  {
    if s == [] then 0 else (if s[0].status == st then 1 else 0) + CountStatus(s[1..], st)
  }

  /** Every request has exactly one of the five statuses. */
  lemma {:induction false} StatusesPartition(s: seq<Request>)
    ensures CountStatus(s, Pending) + CountStatus(s, Approved) + CountStatus(s, Rejected)
            + CountStatus(s, Escalated) + CountStatus(s, AutoApproved) == |s|
  {
    if s != [] {
      StatusesPartition(s[1..]);
    }
  }

  /** Hours from request to approval, summed over the approved requests
      that record an approval time, and how many those are. */
  function ApprovalHours(s: seq<Request>): (r: (real, nat))
    ensures r.1 <= CountStatus(s, Approved)
  {
    if s == [] then (0.0, 0)
    else
      var rest := ApprovalHours(s[1..]);
      if s[0].status == Approved && s[0].approvedAt.Some? then
        (rest.0 + (s[0].approvedAt.value - s[0].requestedAt) as real / 3600.0, rest.1 + 1)
      else rest
  }

  /** The share of decided requests that were approved (by hand or by
      themselves), in percent; 0 when nothing has been decided. */
  function ApprovalRate(approved: nat, rejected: nat, auto: nat): (rate: real)
    ensures 0.0 <= rate <= 100.0
    ensures approved + rejected + auto == 0 ==> rate == 0.0
    ensures rate == 0.0 <==> approved + auto == 0
    ensures rate == 100.0 <==> approved + auto > 0 && rejected == 0
  {
    var decided := approved + rejected + auto;
    if decided > 0 then
      var share := (approved + auto) as real / decided as real;
      assert share <= 1.0 by {
        assert (approved + auto) as real <= decided as real;
      }
      assert share == 1.0 <==> rejected == 0 by {
        assert share * decided as real == (approved + auto) as real;
      }
      share * 100.0
    else 0.0
  }

  datatype Metrics = Metrics(total: nat, pending: nat, approved: nat, rejected: nat, autoApproved: nat,
                             averageApprovalHours: real, approvalRate: real)

  /** `get_approval_metrics`: counts per status, the mean time to approval
      and the approval rate; the requests not counted are the escalated
      ones. */
  function ApprovalMetrics(w: Workflow): (m: Metrics)
    requires Valid(w)
    ensures m.total == |w.requests.order|
    ensures m.pending + m.approved + m.rejected + m.autoApproved
            == m.total - CountStatus(Values(w.requests), Escalated)
    ensures m.approvalRate == ApprovalRate(m.approved, m.rejected, m.autoApproved)
  {
    var s := Values(w.requests);
    StatusesPartition(s);
    var (hours, timed) := ApprovalHours(s);
    Metrics(|s|, CountStatus(s, Pending), CountStatus(s, Approved), CountStatus(s, Rejected), CountStatus(s, AutoApproved),
            if timed > 0 then hours / timed as real else 0.0,
            ApprovalRate(CountStatus(s, Approved), CountStatus(s, Rejected), CountStatus(s, AutoApproved)))
  }

  /** The approvers asked at each level. */
  function Approvers(l: Level): (names: seq<string>)
    ensures names != []
    ensures |names| == if LevelIndex(l) <= 1 then 2 else 1
  {
    match l
    case Supervisor => ["supervisor1", "supervisor2"]
    case Manager => ["manager1", "manager2"]
    case Director => ["director1"]
    case Executive => ["executive1"]
  }
}
