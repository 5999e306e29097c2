/** The in-memory notification queue: notifications with a kind, a
    priority and read/dismissed flags, their dictionary form and its
    reading back, and the bounded queue that keeps the newest first.  The
    identifier and the creation time are parameters (a timestamp in
    seconds); the JSON file and the session mirror are not part of this
    model. */
module Notifications {
  import opened Wrappers

  datatype Kind = Success | Warning | Error | Info | CommissionUpdate | ApprovalRequired | ReportReady

  function KindValue(k: Kind): string {
    match k
    case Success => "success"
    case Warning => "warning"
    case Error => "error"
    case Info => "info"
    case CommissionUpdate => "commission_update"
    case ApprovalRequired => "approval_required"
    case ReportReady => "report_ready"
  }

  /** `NotificationType(value)`: the kind with that value, if any. */
  function ParseKind(v: string): (r: Option<Kind>)
    ensures r.Some? ==> KindValue(r.value) == v
    ensures r.None? ==> forall k: Kind :: KindValue(k) != v
  {
    if v == "success" then Some(Success)
    else if v == "warning" then Some(Warning)
    else if v == "error" then Some(Error)
    else if v == "info" then Some(Info)
    else if v == "commission_update" then Some(CommissionUpdate)
    else if v == "approval_required" then Some(ApprovalRequired)
    else if v == "report_ready" then Some(ReportReady)
    else
      assert forall k: Kind :: KindValue(k) != v;
      None
  }

  /** Priorities are the numbers 1 (low) to 4 (critical). */
  type Priority = p: int | 1 <= p <= 4 witness 2

  const Medium: Priority := 2

  datatype Notification = Notification(
    id: string, title: string, message: string, kind: Kind, priority: Priority,
    userId: Option<string>, metadata: map<string, string>, persistent: bool,
    actionUrl: Option<string>, createdAt: int, read: bool, dismissed: bool)

  /** A new notification: not read, not dismissed, and an absent metadata
      map becomes empty. */
  function MakeNotification(id: string, createdAt: int, title: string, message: string, kind: Kind, priority: Priority,
                            userId: Option<string>, metadata: Option<map<string, string>>, persistent: bool,
                            actionUrl: Option<string>): (n: Notification)
    ensures !n.read && !n.dismissed
    ensures n.id == id && n.createdAt == createdAt && n.title == title && n.message == message
    ensures n.kind == kind && n.priority == priority && n.userId == userId && n.persistent == persistent
    ensures n.actionUrl == actionUrl
    ensures metadata.None? ==> n.metadata == map[]
    ensures metadata.Some? ==> n.metadata == metadata.value
  {
    Notification(id, title, message, kind, priority, userId, metadata.GetOr(map[]), persistent, actionUrl, createdAt, false, false)
  }

  // ---- dictionary form -----------------------------------------------------------

  /** The values a notification's dictionary holds. */
  datatype Field = FText(s: string) | FNum(n: int) | FBool(b: bool) | FNull | FMap(m: map<string, string>)

  type Dict = map<string, Field>

  function OptText(o: Option<string>): Field {
    if o.Some? then FText(o.value) else FNull
  }

  /** `to_dict`: every attribute under its own key. */
  function ToDict(n: Notification): (d: Dict)
    ensures d.Keys == {"id", "title", "message", "type", "priority", "user_id", "metadata", "persistent",
                       "action_url", "created_at", "read", "dismissed"}
    ensures d["type"] == FText(KindValue(n.kind)) && d["priority"] == FNum(n.priority)
    ensures d["read"] == FBool(n.read) && d["dismissed"] == FBool(n.dismissed)
  {
    map["id" := FText(n.id), "title" := FText(n.title), "message" := FText(n.message),
        "type" := FText(KindValue(n.kind)), "priority" := FNum(n.priority), "user_id" := OptText(n.userId),
        "metadata" := FMap(n.metadata), "persistent" := FBool(n.persistent), "action_url" := OptText(n.actionUrl),
        "created_at" := FNum(n.createdAt), "read" := FBool(n.read), "dismissed" := FBool(n.dismissed)]
  }

  /** A required text field. */
  function TextAt(d: Dict, key: string): (r: Result<string>)
    ensures r.Ok? <==> key in d && d[key].FText?
    ensures r.Ok? ==> d[key] == FText(r.value)
  {
    if key in d && d[key].FText? then Ok(d[key].s) else Err("KeyError: " + key)
  }

  /** An optional text field: absent or null reads as `None`. */
  function OptTextAt(d: Dict, key: string): (r: Result<Option<string>>)
    ensures r.Ok? <==> key !in d || d[key].FNull? || d[key].FText?
    ensures r.Ok? && r.value.Some? ==> key in d && d[key] == FText(r.value.value)
    ensures r.Ok? && r.value.None? ==> key !in d || d[key].FNull?
  {
    if key !in d || d[key].FNull? then Ok(None)
    else if d[key].FText? then Ok(Some(d[key].s))
    else Err("wrong type: " + key)
  }

  /** An optional flag: absent reads as false. */
  function FlagAt(d: Dict, key: string): (r: Result<bool>)
    ensures r.Ok? <==> key !in d || d[key].FBool?
    ensures r.Ok? ==> (r.value <==> key in d && d[key] == FBool(true))
  {
    if key !in d then Ok(false)
    else if d[key].FBool? then Ok(d[key].b)
    else Err("wrong type: " + key)
  }

  /** `from_dict`: id, title, message, type, priority and created_at are
      required, and the type and priority must be known values; user_id,
      action_url, metadata, persistent, read and dismissed default to
      none, none, empty, false, false and false. */
  function FromDict(d: Dict): (r: Result<Notification>)
    ensures r.Ok? ==> "id" in d && "title" in d && "message" in d && "type" in d && "priority" in d && "created_at" in d
    ensures r.Ok? ==> d["type"] == FText(KindValue(r.value.kind)) && d["priority"] == FNum(r.value.priority)
    ensures r.Ok? ==> d["id"] == FText(r.value.id) && d["created_at"] == FNum(r.value.createdAt)
    ensures r.Ok? && "metadata" !in d ==> r.value.metadata == map[]
    ensures r.Ok? && "read" !in d ==> !r.value.read
    ensures r.Ok? && "dismissed" !in d ==> !r.value.dismissed
    ensures r.Ok? && "persistent" !in d ==> !r.value.persistent
    ensures "type" in d && d["type"].FText? && ParseKind(d["type"].s).None? ==> r.Err?
    ensures "priority" in d && d["priority"].FNum? && !(1 <= d["priority"].n <= 4) ==> r.Err?
  {
    var title :- TextAt(d, "title");
    var message :- TextAt(d, "message");
    var kindText :- TextAt(d, "type");
    var kind :- (match ParseKind(kindText) case Some(k) => Ok(k) case None => Err("not a notification type"));
    var priority :- (if "priority" in d && d["priority"].FNum? && 1 <= d["priority"].n <= 4
                     then Ok(d["priority"].n as Priority) else Err("not a notification priority"));
    var userId :- OptTextAt(d, "user_id");
    var metadata :- (if "metadata" !in d || d["metadata"].FNull? then Ok(map[])
                     else if d["metadata"].FMap? then Ok(d["metadata"].m) else Err("wrong type: metadata"));
    var persistent :- FlagAt(d, "persistent");
    var actionUrl :- OptTextAt(d, "action_url");
    var id :- TextAt(d, "id");
    var createdAt :- (if "created_at" in d && d["created_at"].FNum? then Ok(d["created_at"].n) else Err("KeyError: created_at"));
    var read :- FlagAt(d, "read");
    var dismissed :- FlagAt(d, "dismissed");
    Ok(Notification(id, title, message, kind, priority, userId, metadata, persistent, actionUrl, createdAt, read, dismissed))
  }

  /** Reading a notification's dictionary gives the notification back. */
  lemma FromToDict(n: Notification)
    ensures FromDict(ToDict(n)) == Ok(n)
  {
    var d := ToDict(n);
    ToDictFields(n);
    assert ParseKind(KindValue(n.kind)) == Some(n.kind);
    assert OptTextAt(d, "user_id") == Ok(n.userId);
    assert OptTextAt(d, "action_url") == Ok(n.actionUrl);
  }

  /** Each attribute sits under its own key. */
  lemma ToDictFields(n: Notification)
    ensures var d := ToDict(n);
      d["id"] == FText(n.id) && d["title"] == FText(n.title) && d["message"] == FText(n.message)
      && d["user_id"] == OptText(n.userId) && d["metadata"] == FMap(n.metadata)
      && d["persistent"] == FBool(n.persistent) && d["action_url"] == OptText(n.actionUrl)
      && d["created_at"] == FNum(n.createdAt)
  {
  }

  // ---- the queue -----------------------------------------------------------------

  /** The manager's queue, newest first, holding at most `capacity`. */
  datatype Queue = Queue(capacity: nat, items: seq<Notification>)

  predicate Bounded(q: Queue) {
    |q.items| <= q.capacity
  }

  function Take<T>(s: seq<T>, n: nat): (r: seq<T>)
    ensures |r| == if |s| <= n then |s| else n
    ensures r == s[..|r|]
  {
    if |s| <= n then s else s[..n]
  }

  /** `add_notification`: the new one goes to the front and, when the
      queue is full, the oldest falls off the back. */
  function Add(q: Queue, n: Notification): (r: Queue)
    requires Bounded(q)
    ensures Bounded(r) && r.capacity == q.capacity
    ensures |r.items| == if |q.items| < q.capacity then |q.items| + 1 else q.capacity
    ensures q.capacity > 0 ==> r.items[0] == n && r.items[1..] == q.items[..|r.items| - 1]
  {
    Queue(q.capacity, Take([n] + q.items, q.capacity))
  }

  /** Adding to a queue with room loses nothing. */
  lemma AddWithRoom(q: Queue, n: Notification)
    requires Bounded(q) && |q.items| < q.capacity
    ensures Add(q, n).items == [n] + q.items
  {
  }

  /** The index of the first notification with the given id. */
  function FirstWithId(s: seq<Notification>, id: string): (r: Option<nat>)
    ensures r.Some? ==> r.value < |s| && s[r.value].id == id && forall j :: 0 <= j < r.value ==> s[j].id != id
    ensures r.None? ==> forall j :: 0 <= j < |s| ==> s[j].id != id
  {
    if s == [] then None
    else if s[0].id == id then Some(0)
    else match FirstWithId(s[1..], id)
      case None => None
      case Some(i) => Some(i + 1)
  }

  /** `mark_as_read`: only the first notification with the id is marked. */
  function MarkAsRead(q: Queue, id: string): (r: Queue)
    ensures r.capacity == q.capacity && |r.items| == |q.items|
    ensures FirstWithId(q.items, id).None? ==> r == q
    ensures FirstWithId(q.items, id).Some? ==>
      var i := FirstWithId(q.items, id).value;
      r.items[i] == q.items[i].(read := true) && forall j :: 0 <= j < |q.items| && j != i ==> r.items[j] == q.items[j]
  {
    match FirstWithId(q.items, id)
    case None => q
    case Some(i) => q.(items := q.items[i := q.items[i].(read := true)])
  }

  /** Marking the same notification twice is marking it once. */
  lemma MarkAsReadIdempotent(q: Queue, id: string)
    ensures MarkAsRead(MarkAsRead(q, id), id) == MarkAsRead(q, id)
  {
    var r := MarkAsRead(q, id);
    if FirstWithId(q.items, id).Some? {
      var i := FirstWithId(q.items, id).value;
      assert FirstWithId(r.items, id) == Some(i) by {
        assert forall j :: 0 <= j < i ==> r.items[j].id != id;
      }
      assert r.items[i := r.items[i].(read := true)] == r.items;
    }
  }

  /** Whether `mark_all_as_read(user)` reaches a notification: everyone's
      when no user is given. */
  predicate InScope(n: Notification, user: Option<string>) {
    user.None? || n.userId == user
  }

  /** `mark_all_as_read` */
  function MarkAllAsRead(q: Queue, user: Option<string>): (r: Queue)
    ensures r.capacity == q.capacity && |r.items| == |q.items|
    ensures forall j :: 0 <= j < |q.items| ==>
      r.items[j] == if InScope(q.items[j], user) then q.items[j].(read := true) else q.items[j]
  {
    Queue(q.capacity, seq(|q.items|, j requires 0 <= j < |q.items| =>
      if InScope(q.items[j], user) then q.items[j].(read := true) else q.items[j]))
  }

  /** The tests the queue's filters apply to a notification. */
  datatype Criterion = OfUser(user: Option<string>) | OfKind(kind: Kind) | IsUnread | OtherId(id: string) | Recent(cutoff: int)

  predicate Meets(x: Notification, c: Criterion) {
    match c
    case OfUser(u) => x.userId == u
    case OfKind(k) => x.kind == k
    case IsUnread => !x.read
    case OtherId(id) => x.id != id
    case Recent(cutoff) => x.createdAt > cutoff || x.persistent
  }

  /** The notifications that meet `c`, in order; no criterion keeps all. */
  function Where(s: seq<Notification>, c: Option<Criterion>): (r: seq<Notification>)
    ensures |r| <= |s|
    ensures forall x :: x in r <==> x in s && (c.None? || Meets(x, c.value))
  {
    if s == [] then []
    else if c.None? || Meets(s[0], c.value) then [s[0]] + Where(s[1..], c)
    else Where(s[1..], c)
  }

  lemma {:induction false} WhereAppend(s: seq<Notification>, t: seq<Notification>, c: Option<Criterion>)
    ensures Where(s + t, c) == Where(s, c) + Where(t, c)
  {
    if s == [] {
      assert s + t == t;
    } else {
      assert (s + t)[0] == s[0];
      assert (s + t)[1..] == s[1..] + t;
      WhereAppend(s[1..], t, c);
    }
  }

  lemma {:induction false} WhereIdempotent(s: seq<Notification>, c: Option<Criterion>)
    ensures Where(Where(s, c), c) == Where(s, c)
  {
    if s != [] {
      WhereIdempotent(s[1..], c);
      if c.None? || Meets(s[0], c.value) {
        assert ([s[0]] + Where(s[1..], c))[1..] == Where(s[1..], c);
      }
    }
  }

  /** `dismiss_notification`: every notification with the id goes, and
      nothing else does. */
  function Dismiss(q: Queue, id: string): (r: Queue)
    ensures r.capacity == q.capacity && |r.items| <= |q.items|
    ensures forall x :: x in r.items <==> x in q.items && x.id != id
  {
    Queue(q.capacity, Where(q.items, Some(OtherId(id))))
  }

  /** Dismissing twice is dismissing once. */
  lemma DismissIdempotent(q: Queue, id: string)
    ensures Dismiss(Dismiss(q, id), id) == Dismiss(q, id)
  {
    WhereIdempotent(q.items, Some(OtherId(id)));
  }

  /** Python's `s[:limit]`: a negative limit drops that many from the end. */
  function Prefix(s: seq<Notification>, limit: int): (r: seq<Notification>)
    ensures limit >= 0 ==> r == s[..if limit <= |s| then limit else |s|]
    ensures limit < 0 ==> r == s[..if -limit <= |s| then |s| + limit else 0]
  {
    if limit >= 0 then (if limit <= |s| then s[..limit] else s)
    else if -limit <= |s| then s[..|s| + limit] else []
  }

  /** Whether a notification passes all of `get_notifications`' filters:
      an empty user name, like none, selects everyone's. */
  predicate Selected(n: Notification, user: Option<string>, kind: Option<Kind>, unreadOnly: bool) {
    (user.None? || user.value == "" || n.userId == user)
    && (kind.None? || n.kind == kind.value)
    && (!unreadOnly || !n.read)
  }

  /** The selected notifications, in order: the reference the filters are
      measured against. */
  function Select(s: seq<Notification>, user: Option<string>, kind: Option<Kind>, unreadOnly: bool): (r: seq<Notification>)
    ensures forall x :: x in r <==> x in s && Selected(x, user, kind, unreadOnly)
  {
    if s == [] then []
    else (if Selected(s[0], user, kind, unreadOnly) then [s[0]] else []) + Select(s[1..], user, kind, unreadOnly)
  }

  /** The user, type and unread filters, each applied only when asked for. */
  function Filters(s: seq<Notification>, user: Option<string>, kind: Option<Kind>, unreadOnly: bool): seq<Notification> {
    var byUser := Where(s, if user.Some? && user.value != "" then Some(OfUser(user)) else None);
    var byKind := Where(byUser, if kind.Some? then Some(OfKind(kind.value)) else None);
    Where(byKind, if unreadOnly then Some(IsUnread) else None)
  }

  /** `get_notifications`: the filters, then the first `limit` when a
      non-zero limit is given. */
  function GetNotifications(q: Queue, user: Option<string>, kind: Option<Kind>, unreadOnly: bool, limit: Option<int>): seq<Notification> {
    var filtered := Filters(q.items, user, kind, unreadOnly);
    if limit.Some? && limit.value != 0 then Prefix(filtered, limit.value) else filtered
  }

  lemma {:induction false} FiltersAppend(s: seq<Notification>, t: seq<Notification>, user: Option<string>, kind: Option<Kind>, unreadOnly: bool)
    ensures Filters(s + t, user, kind, unreadOnly) == Filters(s, user, kind, unreadOnly) + Filters(t, user, kind, unreadOnly)
  {
    var cu := if user.Some? && user.value != "" then Some(OfUser(user)) else None;
    var ck := if kind.Some? then Some(OfKind(kind.value)) else None;
    var cr := if unreadOnly then Some(IsUnread) else None;
    WhereAppend(s, t, cu);
    WhereAppend(Where(s, cu), Where(t, cu), ck);
    WhereAppend(Where(Where(s, cu), ck), Where(Where(t, cu), ck), cr);
  }

  lemma {:induction false} FiltersAreSelect(s: seq<Notification>, user: Option<string>, kind: Option<Kind>, unreadOnly: bool)
    ensures Filters(s, user, kind, unreadOnly) == Select(s, user, kind, unreadOnly)
  {
    if s != [] {
      assert s == [s[0]] + s[1..];
      FiltersAppend([s[0]], s[1..], user, kind, unreadOnly);
      FiltersOne(s[0], user, kind, unreadOnly);
      FiltersAreSelect(s[1..], user, kind, unreadOnly);
    }
  }

  /** A single notification passes the filters exactly when it is selected. */
  lemma FiltersOne(x: Notification, user: Option<string>, kind: Option<Kind>, unreadOnly: bool)
    ensures Filters([x], user, kind, unreadOnly) == if Selected(x, user, kind, unreadOnly) then [x] else []
  {
    var cu := if user.Some? && user.value != "" then Some(OfUser(user)) else None;
    assert [x][1..] == [];
    assert Where([x], cu) == if cu.None? || Meets(x, cu.value) then [x] else [];
  }

  /** Without a limit the three filters in turn are one filter by
      `Selected`, so their order does not matter; with a limit the result
      is a prefix of that. */
  lemma GetIsSelected(q: Queue, user: Option<string>, kind: Option<Kind>, unreadOnly: bool, limit: Option<int>)
    ensures var all := Select(q.items, user, kind, unreadOnly);
      var r := GetNotifications(q, user, kind, unreadOnly, limit);
      (limit.None? || limit.value == 0 ==> r == all) && |r| <= |all| && r == all[..|r|]
  {
    FiltersAreSelect(q.items, user, kind, unreadOnly);
  }

  /** The unread notifications of a user (everyone's for none or an empty
      name), counted one by one. */
  function CountUnread(s: seq<Notification>, user: Option<string>): (n: nat)
    ensures n <= |s|
  {
    if s == [] then 0
    else (if Selected(s[0], user, None, true) then 1 else 0) + CountUnread(s[1..], user)
  }

  /** `get_unread_count` */
  function UnreadCount(q: Queue, user: Option<string>): nat {
    |GetNotifications(q, user, None, true, None)|
  }

  lemma {:induction false} SelectCount(s: seq<Notification>, user: Option<string>)
    ensures |Select(s, user, None, true)| == CountUnread(s, user)
  {
    if s != [] {
      SelectCount(s[1..], user);
    }
  }

  /** The unread count is the number of unread notifications in scope. */
  lemma UnreadCountIsCount(q: Queue, user: Option<string>)
    ensures UnreadCount(q, user) == CountUnread(q.items, user)
  {
    GetIsSelected(q, user, None, true, None);
    SelectCount(q.items, user);
  }

  lemma {:induction false} MarkedCountsZero(s: seq<Notification>, t: seq<Notification>, user: Option<string>)
    requires user.None? || user.value != ""
    requires |t| == |s|
    requires forall j :: 0 <= j < |s| ==> t[j] == if InScope(s[j], user) then s[j].(read := true) else s[j]
    ensures CountUnread(t, user) == 0
  {
    if s != [] {
      MarkedCountsZero(s[1..], t[1..], user);
    }
  }

  /** After marking all of a user's notifications read (or everyone's),
      that user's unread count is zero.  An empty user name is different:
      marking reaches only notifications whose user is the empty name, but
      counting reaches everyone's. */
  lemma MarkAllClearsUnread(q: Queue, user: Option<string>)
    requires user.None? || user.value != ""
    ensures UnreadCount(MarkAllAsRead(q, user), user) == 0
  {
    var r := MarkAllAsRead(q, user);
    UnreadCountIsCount(r, user);
    MarkedCountsZero(q.items, r.items, user);
  }

  /** `clear_old_notifications(days)` at time `now`: the persistent ones
      and those created after the cutoff stay. */
  function ClearOld(q: Queue, now: int, days: int): (r: Queue)
    ensures r.capacity == q.capacity && |r.items| <= |q.items|
    ensures forall x :: x in r.items <==> x in q.items && (x.createdAt > now - days * 86400 || x.persistent)
  {
    Queue(q.capacity, Where(q.items, Some(Recent(now - days * 86400))))
  }

  /** Every operation keeps the queue within its capacity. */
  lemma OperationsKeepBound(q: Queue, id: string, user: Option<string>, now: int, days: int)
    requires Bounded(q)
    ensures Bounded(MarkAsRead(q, id)) && Bounded(MarkAllAsRead(q, user))
    ensures Bounded(Dismiss(q, id)) && Bounded(ClearOld(q, now, days))
  {
  }
}
