/** The bounded window of seen event ids and the bounded notification history fed from it. */
module Notifications {
  type Id = string

  const WINDOW: nat := 250
  const MAX_HISTORY: nat := 100

  // ---- the seen-id window ----

  /** A JavaScript Set iterates in insertion order, so it is its members in that order. */
  type Seen = seq<Id>

  function Add(seen: Seen, id: Id): Seen {
    if id in seen then seen else seen + [id]
  }

  /** One delivery with an id: a repeat is dropped; otherwise the id enters and the oldest may leave. */
  function Accept(seen: Seen, id: Id): (Seen, bool) {
    if id in seen then (seen, false)
    else
      var grown := Add(seen, id);
      (if |grown| > WINDOW then grown[1..] else grown, true)
  }

  /** The window and the accepted ids, in order, after a sequence of deliveries. */
  datatype Log = Log(seen: Seen, accepted: seq<Id>)

  function Deliver(log: Log, id: Id): Log {
    var (seen, accepted) := Accept(log.seen, id);
    Log(seen, if accepted then log.accepted + [id] else log.accepted)
  }

  function Deliveries(ids: seq<Id>): Log {
    if ids == [] then Log([], []) else Deliver(Deliveries(ids[..|ids| - 1]), ids[|ids| - 1])
  }

  function LastAccepted(accepted: seq<Id>): seq<Id> {
    if |accepted| <= WINDOW then accepted else accepted[|accepted| - WINDOW..]
  }

  predicate Distinct(q: seq<Id>) {
    forall i, j :: 0 <= i < j < |q| ==> q[i] != q[j]
  }

  /** Any two equal accepted ids are more than WINDOW apart. */
  predicate FarApart(accepted: seq<Id>) {
    forall i, j :: 0 <= i < j < |accepted| && accepted[i] == accepted[j] ==> j - i > WINDOW
  }

  /** The set holds exactly the last 250 accepted ids, and between two accepted deliveries of one id
      at least 250 others were accepted. */
  lemma {:induction false} WindowExact(ids: seq<Id>)
    ensures var log := Deliveries(ids);
      log.seen == LastAccepted(log.accepted) && FarApart(log.accepted)
  {
    if ids != [] {
      var init, id := ids[..|ids| - 1], ids[|ids| - 1];
      WindowExact(init);
      WindowStep(Deliveries(init), id);
    }
  }

  lemma {:induction false} WindowStep(log: Log, id: Id)
    requires log.seen == LastAccepted(log.accepted) && FarApart(log.accepted)
    ensures var next := Deliver(log, id);
      next.seen == LastAccepted(next.accepted) && FarApart(next.accepted)
  {
    var before, n := log.accepted, |log.accepted|;
    if id !in log.seen {
      var after := before + [id];
      forall i | 0 <= i < n && n - i <= WINDOW ensures before[i] in log.seen {
        assert log.seen[if n <= WINDOW then i else i - (n - WINDOW)] == before[i];
      }
      assert FarApart(after);
    }
  }

  /** One delivery after others: its id is accepted unless it is among the last 250 accepted. */
  lemma {:induction false} DeliverNext(ids: seq<Id>, id: Id)
    ensures var before, after := Deliveries(ids), Deliveries(ids + [id]);
      after.accepted == if id in LastAccepted(before.accepted) then before.accepted else before.accepted + [id]
    ensures Deliveries([]) == Log([], [])
  {
    WindowExact(ids);
    assert (ids + [id])[..|ids|] == ids;
  }

  /** A delivery is turned away exactly when its id is among the last 250 accepted. */
  lemma {:induction false} RejectedIff(ids: seq<Id>, id: Id)
    ensures var log := Deliveries(ids);
      Deliver(log, id).accepted == log.accepted <==> id in LastAccepted(log.accepted)
  {
    WindowExact(ids);
  }

  // ---- the notification history ----

  datatype Key = NoKey | Key(text: string)

  /** A history entry.  Fresh random identifiers are modelled by serial numbers. */
  datatype Notification = Notification(id: nat, key: Key, body: string, read: bool)

  datatype Center = Center(history: seq<Notification>, nextId: nat)

  datatype Action =
    | Push(key: Key, body: string)
    | MarkRead(id: nat)
    | MarkAllRead
    | Dismiss(id: nat)
    | Clear

  predicate HasKey(history: seq<Notification>, key: Key) {
    exists i :: 0 <= i < |history| && history[i].key == key
  }

  function PushNotification(c: Center, key: Key, body: string): Center {
    if key.Key? && HasKey(c.history, key) then c
    else
      var grown := [Notification(c.nextId, key, body, false)] + c.history;
      Center(if |grown| > MAX_HISTORY then grown[..MAX_HISTORY] else grown, c.nextId + 1)
  }

  function MapRead(history: seq<Notification>, id: nat): (r: seq<Notification>)
    ensures |r| == |history|
  {
    seq(|history|, i requires 0 <= i < |history| =>
      if history[i].id == id && !history[i].read then history[i].(read := true) else history[i])
  }

  function ReadAll(history: seq<Notification>): (r: seq<Notification>)
    ensures |r| == |history|
  {
    seq(|history|, i requires 0 <= i < |history| => history[i].(read := true))
  }

  function Without(history: seq<Notification>, id: nat): seq<Notification> {
    if history == [] then []
    else (if history[0].id != id then [history[0]] else []) + Without(history[1..], id)
  }

  function Apply(c: Center, a: Action): Center {
    match a
    case Push(key, body) => PushNotification(c, key, body)
    case MarkRead(id) => c.(history := MapRead(c.history, id))
    case MarkAllRead =>
      if exists i :: 0 <= i < |c.history| && !c.history[i].read then c.(history := ReadAll(c.history)) else c
    case Dismiss(id) => c.(history := Without(c.history, id))
    case Clear => c.(history := [])
  }

  function Actions(q: seq<Action>): Center {
    if q == [] then Center([], 0) else Apply(Actions(q[..|q| - 1]), q[|q| - 1])
  }

  /** Newest first, and no dedupe key twice. */
  predicate Orderly(q: seq<Notification>) {
    forall i, j :: 0 <= i < j < |q| ==> q[i].id > q[j].id && (q[i].key.Key? ==> q[i].key != q[j].key)
  }

  ghost predicate WellKept(c: Center) {
    && |c.history| <= MAX_HISTORY && Orderly(c.history)
    && (forall i :: 0 <= i < |c.history| ==> c.history[i].id < c.nextId)
  }

  /** Dismissing removes exactly the entry with that id, if it is there. */
  lemma {:induction false} DismissExact(q: seq<Notification>, id: nat, x: Notification)
    ensures x in Without(q, id) <==> x in q && x.id != id
  {
    if q != [] {
      DismissExact(q[1..], id, x);
      assert q == [q[0]] + q[1..];
    }
  }

  /** x is newer than everything in q, and shares its key with nothing there. */
  ghost predicate Newer(x: Notification, q: seq<Notification>) {
    forall y :: y in q ==> x.id > y.id && (x.key.Key? ==> x.key != y.key)
  }

  lemma {:induction false} OrderlyCons(q: seq<Notification>)
    requires q != []
    ensures Orderly(q) <==> Newer(q[0], q[1..]) && Orderly(q[1..])
  {
    if Newer(q[0], q[1..]) && Orderly(q[1..]) {
      forall j | 1 <= j < |q| ensures q[0].id > q[j].id && (q[0].key.Key? ==> q[0].key != q[j].key) {
        assert q[j] == q[1..][j - 1];
      }
      forall i, j | 1 <= i < j < |q| ensures q[i].id > q[j].id && (q[i].key.Key? ==> q[i].key != q[j].key) {
        assert q[i] == q[1..][i - 1] && q[j] == q[1..][j - 1];
      }
    }
  }

  lemma {:induction false} WithoutOrderly(q: seq<Notification>, id: nat)
    requires Orderly(q)
    ensures Orderly(Without(q, id)) && |Without(q, id)| <= |q|
  {
    if q != [] {
      var rest := Without(q[1..], id);
      OrderlyCons(q);
      WithoutOrderly(q[1..], id);
      forall y | y in rest ensures y in q[1..] {
        DismissExact(q[1..], id, y);
      }
      OrderlyCons([q[0]] + rest);
      assert ([q[0]] + rest)[1..] == rest;
    }
  }

  lemma {:induction false} ApplyKeeps(c: Center, a: Action)
    requires WellKept(c)
    ensures WellKept(Apply(c, a))
  {
    match a
    case Push(_, _) =>
    case MarkRead(id) =>
    case MarkAllRead =>
    case Dismiss(id) =>
      WithoutOrderly(c.history, id);
      forall i | 0 <= i < |Without(c.history, id)| ensures Without(c.history, id)[i].id < c.nextId {
        DismissExact(c.history, id, Without(c.history, id)[i]);
      }
    case Clear =>
  }

  /** Under every sequence of pushes, reads, dismissals and clears. */
  lemma {:induction false} HistoryWellKept(q: seq<Action>)
    ensures WellKept(Actions(q))
  {
    if q != [] {
      HistoryWellKept(q[..|q| - 1]);
      ApplyKeeps(Actions(q[..|q| - 1]), q[|q| - 1]);
    }
  }

  /** The updates apply one after the other, to an empty history at first. */
  lemma {:induction false} ActionsNext(q: seq<Action>, a: Action)
    ensures Actions(q + [a]) == Apply(Actions(q), a) && Actions([]).history == []
  {
    assert (q + [a])[..|q|] == q;
  }

  // ---- what each update does to the contents ----

  /** A push under a key that is already there changes nothing.  Any other puts a new unread entry first,
      with a fresh id, and keeps the longest prefix of the old history for which there is room. */
  lemma {:induction false} PushExact(c: Center, key: Key, body: string)
    requires WellKept(c)
    ensures var t := Apply(c, Push(key, body));
      if key.Key? && exists i :: 0 <= i < |c.history| && c.history[i].key == key then t == c
      else
        && |t.history| == (if |c.history| < MAX_HISTORY then |c.history| + 1 else MAX_HISTORY)
        && t.history[0].key == key && t.history[0].body == body && !t.history[0].read
        && (forall i :: 0 <= i < |c.history| ==> c.history[i].id != t.history[0].id)
        && t.history[1..] == c.history[..|t.history| - 1]
  {
  }

  /** Reading marks the entry with that id and no other; nothing else about the history changes. */
  lemma {:induction false} MarkReadExact(c: Center, id: nat)
    ensures var t := Apply(c, MarkRead(id));
      && |t.history| == |c.history|
      && forall i :: 0 <= i < |c.history| ==>
           && t.history[i].id == c.history[i].id && t.history[i].key == c.history[i].key
           && t.history[i].body == c.history[i].body
           && (t.history[i].read <==> c.history[i].read || c.history[i].id == id)
  {
  }

  lemma {:induction false} MarkAllReadExact(c: Center)
    ensures var t := Apply(c, MarkAllRead);
      && |t.history| == |c.history|
      && forall i :: 0 <= i < |c.history| ==>
           && t.history[i].id == c.history[i].id && t.history[i].key == c.history[i].key
           && t.history[i].body == c.history[i].body && t.history[i].read
  {
  }

  /** Dismissing takes out the entry at its place, if it is there, and clearing takes out all. */
  lemma {:induction false} DismissAt(c: Center, k: nat)
    requires WellKept(c) && k < |c.history|
    ensures Apply(c, Dismiss(c.history[k].id)).history == c.history[..k] + c.history[k + 1..]
    ensures Apply(c, Clear).history == []
  {
    WithoutAt(c.history, k);
  }

  lemma {:induction false} WithoutAt(q: seq<Notification>, k: nat)
    requires Orderly(q) && k < |q|
    ensures Without(q, q[k].id) == q[..k] + q[k + 1..]
  {
    var id, front, back := q[k].id, q[..k], q[k + 1..];
    forall i | 0 <= i < |front| ensures front[i].id != id {
      assert q[i].id > q[k].id;
    }
    forall i | 0 <= i < |back| ensures back[i].id != id {
      assert q[k].id > q[k + 1 + i].id;
    }
    WithoutParts(q, front, q[k], back);
  }

  lemma {:induction false} WithoutParts(q: seq<Notification>, front: seq<Notification>, x: Notification, back: seq<Notification>)
    requires q == front + [x] + back
    requires forall i :: 0 <= i < |front| ==> front[i].id != x.id
    requires forall i :: 0 <= i < |back| ==> back[i].id != x.id
    ensures Without(q, x.id) == front + back
  {
    WithoutAppend(front + [x], back, x.id);
    WithoutAppend(front, [x], x.id);
    WithoutNone(front, x.id);
    WithoutNone(back, x.id);
    assert [x][1..] == [];
    assert front + [] == front;
  }

  lemma {:induction false} WithoutAppend(a: seq<Notification>, b: seq<Notification>, id: nat)
    ensures Without(a + b, id) == Without(a, id) + Without(b, id)
  {
    if a == [] {
      assert a + b == b;
    } else {
      var x, rest := a[0], a[1..];
      WithoutAppend(rest, b, id);
      WithoutCons(x, rest, id);
      WithoutCons(x, rest + b, id);
      assert a == [x] + rest && a + b == [x] + (rest + b);
    }
  }

  lemma {:induction false} WithoutCons(x: Notification, q: seq<Notification>, id: nat)
    ensures Without([x] + q, id) == if x.id != id then [x] + Without(q, id) else Without(q, id)
  {
    assert ([x] + q)[1..] == q;
  }

  lemma {:induction false} WithoutNone(q: seq<Notification>, id: nat)
    requires forall i :: 0 <= i < |q| ==> q[i].id != id
    ensures Without(q, id) == q
  {
    if q != [] {
      WithoutNone(q[1..], id);
    }
  }

  lemma {:induction false} DismissAbsent(c: Center, id: nat)
    requires forall i :: 0 <= i < |c.history| ==> c.history[i].id != id
    ensures Apply(c, Dismiss(id)).history == c.history
  {
    WithoutNone(c.history, id);
  }

  function Unread(history: seq<Notification>): nat {
    if history == [] then 0 else Unread(history[1..]) + if history[0].read then 0 else 1
  }

  lemma {:induction false} ReadAllClearsUnread(history: seq<Notification>)
    ensures Unread(ReadAll(history)) == 0
  {
    if history != [] {
      ReadAllClearsUnread(history[1..]);
      assert ReadAll(history)[1..] == ReadAll(history[1..]);
    }
  }

  /** Reading one entry lowers the unread count by one if it was there unread, and not otherwise. */
  lemma {:induction false} MarkReadCounts(history: seq<Notification>, id: nat)
    requires forall i, j :: 0 <= i < j < |history| ==> history[i].id != history[j].id
    ensures Unread(MapRead(history, id)) ==
      Unread(history) - if exists i :: 0 <= i < |history| && history[i].id == id && !history[i].read then 1 else 0
  {
    if history != [] {
      var rest := history[1..];
      MarkReadCounts(rest, id);
      assert MapRead(history, id)[1..] == MapRead(rest, id);
      if i :| 0 <= i < |history| && history[i].id == id && !history[i].read {
        if i > 0 {
          assert rest[i - 1].id == id && !rest[i - 1].read;
        } else {
          assert forall k :: 0 <= k < |rest| ==> rest[k] == history[k + 1];
        }
      } else {
        assert forall k :: 0 <= k < |rest| ==> rest[k] == history[k + 1];
      }
    }
  }

  // ---- deliveries feeding the history ----

  /** A live event: its id (empty when it has none), whether it carries a notification, and the dedupe
      key that sanitising the id yields, which may be missing or shared by several ids. */
  datatype LiveEvent = LiveEvent(id: Id, notifies: bool, key: Key, body: string)

  datatype Live = Live(log: Log, center: Center)

  /** `handleEvent`: a repeated id stops here; otherwise a notification is pushed under its key. */
  function Handle(s: Live, e: LiveEvent): Live {
    if e.id != "" && e.id in s.log.seen then s
    else
      var log := if e.id == "" then s.log else Deliver(s.log, e.id);
      Live(log, if e.notifies then PushNotification(s.center, e.key, e.body) else s.center)
  }

  /** The user's actions and the live events, in any order. */
  datatype Input = Arrives(event: LiveEvent) | Acts(action: Action)

  function HandleAll(q: seq<Input>): Live {
    if q == [] then Live(Log([], []), Center([], 0))
    else
      var s := HandleAll(q[..|q| - 1]);
      match q[|q| - 1]
      case Arrives(e) => Handle(s, e)
      case Acts(a) => s.(center := Apply(s.center, a))
  }

  /** After any inputs, a live event is pushed exactly when it carries a notification and its id is empty
      or not among the last 250 accepted; its id is then accepted, if it has one.  Any other event leaves
      the history alone, and a repeat leaves everything alone. */
  lemma {:induction false} HandleExact(q: seq<Input>, e: LiveEvent)
    ensures var s, t := HandleAll(q), HandleAll(q + [Arrives(e)]);
      var repeat := e.id != "" && e.id in LastAccepted(s.log.accepted);
      && t.center == (if e.notifies && !repeat then Apply(s.center, Push(e.key, e.body)) else s.center)
      && t.log.accepted == (if e.id == "" || repeat then s.log.accepted else s.log.accepted + [e.id])
  {
    LiveWellKept(q);
    assert (q + [Arrives(e)])[..|q|] == q;
  }

  /** The user's actions leave the window alone. */
  lemma {:induction false} ActsExact(q: seq<Input>, a: Action)
    ensures var s, t := HandleAll(q), HandleAll(q + [Acts(a)]);
      t.log == s.log && t.center == Apply(s.center, a)
  {
    assert (q + [Acts(a)])[..|q|] == q;
  }

  /** Both bounds and both uniqueness properties survive every mixture of deliveries and user actions. */
  lemma {:induction false} LiveWellKept(q: seq<Input>)
    ensures var s := HandleAll(q);
      s.log.seen == LastAccepted(s.log.accepted) && FarApart(s.log.accepted) && WellKept(s.center)
  {
    if q != [] {
      var s := HandleAll(q[..|q| - 1]);
      LiveWellKept(q[..|q| - 1]);
      match q[|q| - 1]
      case Arrives(e) =>
        WindowStep(s.log, e.id);
        ApplyKeeps(s.center, Push(e.key, e.body));
      case Acts(a) => ApplyKeeps(s.center, a);
    }
  }
}
