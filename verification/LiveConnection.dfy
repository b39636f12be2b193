/** The dashboard's live connection: one event source, a first-event timer and a staleness interval.

    Time is in milliseconds.  Timers fire on time: time does not move past the moment a timer is due. */
module LiveConnection {
  import opened Wrappers

  type Time = nat

  datatype Status = Connecting | Live | Stale | Polling

  datatype Timer = Off | At(time: Time)

  datatype LastEvent = Never | Received(time: Time)

  /** The effect's variables. */
  datatype Conn = Conn(
    status: Status,
    failures: nat,
    lastEvent: LastEvent,
    eventSinceOpen: bool,
    firstEventTimer: Timer,
    nextCheck: Timer,
    silence: nat,
    interval: nat)

  datatype State = State(now: Time, conn: Conn)

  datatype Label =
    | Connect(pollingSeconds: nat)        // the effect runs with a session and server-sent events
    | Disconnect(authenticated: bool)     // the effect is cleaned up and does not connect
    | Open
    | Error
    | Event                               // any message or heartbeat
    | FirstEventTimeout
    | StaleCheck
    | Pass(ms: nat)

  function Max(a: nat, b: nat): nat {
    if a < b then b else a
  }

  function SilenceDeadline(pollingSeconds: nat): nat {
    Max(15_000, pollingSeconds * 3_000)
  }

  function CheckInterval(pollingSeconds: nat): nat {
    Max(5_000, pollingSeconds * 1_000)
  }

  // ---- handlers ----

  function Connected(now: Time, pollingSeconds: nat): Conn {
    Conn(Connecting, 0, Never, false, Off, At(now + CheckInterval(pollingSeconds)),
         SilenceDeadline(pollingSeconds), CheckInterval(pollingSeconds))
  }

  function Disconnected(c: Conn, authenticated: bool): Conn {
    c.(status := if authenticated then Polling else Connecting, failures := 0, lastEvent := Never,
       firstEventTimer := Off, nextCheck := Off)
  }

  function OnOpen(now: Time, c: Conn): Conn {
    c.(status := Live, eventSinceOpen := false, firstEventTimer := At(now + c.silence))
  }

  function OnError(c: Conn): Conn {
    c.(firstEventTimer := Off, failures := c.failures + 1,
       status := if c.failures + 1 >= 2 then Polling else Connecting)
  }

  function OnEvent(now: Time, c: Conn): Conn {
    c.(status := Live, eventSinceOpen := true, firstEventTimer := Off, failures := 0,
       lastEvent := Received(now))
  }

  function OnFirstEventTimeout(c: Conn): Conn {
    c.(firstEventTimer := Off, status := if c.eventSinceOpen then c.status else Stale)
  }

  function OnStaleCheck(now: Time, c: Conn): Conn {
    c.(nextCheck := At(now + c.interval),
       status := if c.lastEvent.Received? && now - c.lastEvent.time > c.silence then Stale else c.status)
  }

  predicate NotPast(t: Timer, time: Time) {
    t.At? ==> time <= t.time
  }

  function Step(s: State, l: Label): Outcome<State> {
    var c := s.conn;
    match l
    case Connect(p) => Ok(s.(conn := Connected(s.now, p)))
    case Disconnect(a) => Ok(s.(conn := Disconnected(c, a)))
    case Open => if c.nextCheck.At? then Ok(s.(conn := OnOpen(s.now, c))) else Failed
    case Error => if c.nextCheck.At? then Ok(s.(conn := OnError(c))) else Failed
    case Event => if c.nextCheck.At? then Ok(s.(conn := OnEvent(s.now, c))) else Failed
    case FirstEventTimeout =>
      if c.firstEventTimer == At(s.now) then Ok(s.(conn := OnFirstEventTimeout(c))) else Failed
    case StaleCheck =>
      if c.nextCheck == At(s.now) then Ok(s.(conn := OnStaleCheck(s.now, c))) else Failed
    case Pass(ms) =>
      if NotPast(c.firstEventTimer, s.now + ms) && NotPast(c.nextCheck, s.now + ms) then Ok(s.(now := s.now + ms))
      else Failed
  }

  function Start(): State {
    State(0, Conn(Connecting, 0, Never, false, Off, Off, 0, 0))
  }

  function Run(ls: seq<Label>): Outcome<State> {
    if ls == [] then Ok(Start())
    else
      match Run(ls[..|ls| - 1])
      case Failed => Failed
      case Ok(m) => Step(m, ls[|ls| - 1])
  }

  // ---- what happened, read off the run ----

  function NowAfter(ls: seq<Label>): Time {
    match Run(ls)
    case Failed => 0
    case Ok(s) => s.now
  }

  /** When the current source last opened. */
  function LastOpened(ls: seq<Label>): LastEvent {
    if ls == [] then Never
    else
      var init, l := ls[..|ls| - 1], ls[|ls| - 1];
      if l.Open? then Received(NowAfter(init))
      else if l.Connect? || l.Disconnect? then Never
      else LastOpened(init)
  }

  /** When the current source last delivered an event. */
  function LastHeard(ls: seq<Label>): LastEvent {
    if ls == [] then Never
    else
      var init, l := ls[..|ls| - 1], ls[|ls| - 1];
      if l.Event? then Received(NowAfter(init))
      else if l.Connect? || l.Disconnect? then Never
      else LastHeard(init)
  }

  /** Errors of the current source since it was created or last delivered an event. */
  function ErrorsSince(ls: seq<Label>): nat {
    if ls == [] then 0
    else
      var init, l := ls[..|ls| - 1], ls[|ls| - 1];
      if l.Error? then ErrorsSince(init) + 1
      else if l.Event? || l.Connect? || l.Disconnect? then 0
      else ErrorsSince(init)
  }

  // ---- liveness ----

  /** It happened, at most `span` before now. */
  predicate Within(e: LastEvent, now: Time, span: nat) {
    e.Received? && e.time <= now <= e.time + span
  }

  /** What keeps "live" honest: either the first-event timer of the last opening is still running and
      due in time, or the next staleness check will see the last event in time. */
  predicate Watched(now: Time, c: Conn, opening: LastEvent) {
    && NotPast(c.firstEventTimer, now) && NotPast(c.nextCheck, now)
    && (c.nextCheck.At? ==> c.nextCheck.time <= now + c.interval)
    && (c.lastEvent.Received? ==> c.lastEvent.time <= now)
    && (c.nextCheck.Off? ==> c.status != Live)
    && (c.firstEventTimer.At? ==> (!c.eventSinceOpen && opening.Received? && opening.time <= now
          && c.firstEventTimer.time == opening.time + c.silence))
    && (c.status == Live && c.firstEventTimer.Off? ==>
          c.lastEvent.Received? && c.nextCheck.At? && c.nextCheck.time <= c.lastEvent.time + c.silence + c.interval)
  }

  lemma {:induction false} StepWatched(s: State, opening: LastEvent, l: Label, t: State)
    requires Watched(s.now, s.conn, opening) && Step(s, l) == Ok(t)
    ensures Watched(t.now, t.conn,
      if l.Open? then Received(s.now) else if l.Connect? || l.Disconnect? then Never else opening)
  {
  }

  lemma {:induction false} RunWatches(ls: seq<Label>, s: State)
    requires Run(ls) == Ok(s)
    ensures Watched(s.now, s.conn, LastOpened(ls))
  {
    if ls != [] {
      var init := ls[..|ls| - 1];
      RunWatches(init, Run(init).value);
      StepWatched(Run(init).value, LastOpened(init), ls[|ls| - 1], s);
    }
  }

  lemma {:induction false} RunRemembers(ls: seq<Label>, s: State)
    requires Run(ls) == Ok(s)
    ensures s.conn.lastEvent == LastHeard(ls) && s.conn.failures == ErrorsSince(ls)
  {
    if ls != [] {
      RunRemembers(ls[..|ls| - 1], Run(ls[..|ls| - 1]).value);
    }
  }

  lemma {:induction false} RunWatched(ls: seq<Label>, s: State)
    requires Run(ls) == Ok(s)
    ensures Watched(s.now, s.conn, LastOpened(ls))
    ensures s.conn.lastEvent == LastHeard(ls) && s.conn.failures == ErrorsSince(ls)
  {
    RunWatches(ls, s);
    RunRemembers(ls, s);
  }

  /** In every timed run, "live" means the source opened within the last D or an event came within the
      last D + I. */
  lemma {:induction false} LiveMeansRecent(ls: seq<Label>, s: State)
    requires Run(ls) == Ok(s) && s.conn.status == Live
    ensures
      || Within(LastOpened(ls), s.now, s.conn.silence)
      || Within(LastHeard(ls), s.now, s.conn.silence + s.conn.interval)
  {
    RunWatched(ls, s);
  }

  /** Directly after an error the state is "polling" iff two errors came since the last event. */
  lemma {:induction false} PollingAfterErrors(ls: seq<Label>, s: State)
    requires ls != [] && ls[|ls| - 1].Error? && Run(ls) == Ok(s)
    ensures s.conn.status == Polling <==> ErrorsSince(ls) >= 2
    ensures s.conn.status == Connecting <==> ErrorsSince(ls) == 1
  {
    RunWatched(ls, s);
  }

  // ---- what each state means ----

  /** The last opening has brought an event. */
  predicate HeardSinceOpened(ls: seq<Label>) {
    ls != []
    && var init, l := ls[..|ls| - 1], ls[|ls| - 1];
    l.Event? || (!l.Open? && !l.Connect? && !l.Disconnect? && HeardSinceOpened(init))
  }

  /** Of openings, events, errors and connections, the last was an error or a connection. */
  predicate Troubled(ls: seq<Label>) {
    ls != []
    && var init, l := ls[..|ls| - 1], ls[|ls| - 1];
    l.Error? || l.Connect? || (!l.Open? && !l.Event? && Troubled(init))
  }

  /** The last opening brought no event for the silence deadline, or the last event is older than that. */
  predicate Silent(now: Time, silence: nat, opening: LastEvent, heardSince: bool, heard: LastEvent) {
    || (opening.Received? && !heardSince && opening.time + silence <= now)
    || (heard.Received? && heard.time + silence < now)
  }

  /** The state of a connected source, by what it did. */
  predicate Meant(s: State, opening: LastEvent, heardSince: bool, heard: LastEvent, troubled: bool, errors: nat) {
    s.conn.nextCheck.At? ==>
      && s.conn.eventSinceOpen == heardSince
      && match s.conn.status
         case Live => !troubled
         case Stale => Silent(s.now, s.conn.silence, opening, heardSince, heard)
         case Polling => troubled && errors >= 2
         case Connecting => troubled && errors <= 1
  }

  lemma {:induction false} StepMeant(ls: seq<Label>, s: State, l: Label, t: State)
    requires Step(s, l) == Ok(t) && Watched(s.now, s.conn, LastOpened(ls))
    requires s.conn.lastEvent == LastHeard(ls) && s.conn.failures == ErrorsSince(ls) && NowAfter(ls) == s.now
    requires Meant(s, LastOpened(ls), HeardSinceOpened(ls), LastHeard(ls), Troubled(ls), ErrorsSince(ls))
    ensures var q := ls + [l];
      Meant(t, LastOpened(q), HeardSinceOpened(q), LastHeard(q), Troubled(q), ErrorsSince(q))
  {
    assert (ls + [l])[..|ls|] == ls;
  }

  lemma {:induction false} RunMeant(ls: seq<Label>, s: State)
    requires Run(ls) == Ok(s)
    ensures Meant(s, LastOpened(ls), HeardSinceOpened(ls), LastHeard(ls), Troubled(ls), ErrorsSince(ls))
  {
    if ls != [] {
      var init := ls[..|ls| - 1];
      var m := Run(init).value;
      RunMeant(init, m);
      RunWatched(init, m);
      StepMeant(init, m, ls[|ls| - 1], s);
      assert init + [ls[|ls| - 1]] == ls;
    }
  }

  /** A connected source is in exactly one of these states: "stale" means silence; otherwise it is "live"
      if it last opened or delivered an event, and if it last failed or was created it is "polling" after
      two errors without an event between them and "connecting" before. */
  lemma {:induction false} StateMeans(ls: seq<Label>, s: State)
    requires Run(ls) == Ok(s) && s.conn.nextCheck.At?
    ensures s.conn.status == Stale ==>
      Silent(s.now, s.conn.silence, LastOpened(ls), HeardSinceOpened(ls), LastHeard(ls))
    ensures s.conn.status != Stale ==>
      s.conn.status == if !Troubled(ls) then Live else if ErrorsSince(ls) >= 2 then Polling else Connecting
  {
    RunMeant(ls, s);
  }

  /** Without a connection the state is "polling" for a session and "connecting" for none, and no timer runs. */
  lemma {:induction false} DisconnectedMeans(ls: seq<Label>, a: bool, ms: nat, s: State)
    requires Run(ls + [Disconnect(a)]) == Ok(s)
    ensures s.conn.status == (if a then Polling else Connecting)
    ensures s.conn.firstEventTimer == Off && s.conn.nextCheck == Off && s.conn.failures == 0 && s.conn.lastEvent == Never
    ensures Step(s, Pass(ms)) == Ok(s.(now := s.now + ms))
  {
    assert (ls + [Disconnect(a)])[..|ls|] == ls;
  }

  /** The deadline is three polling periods, the check interval one, and neither is below its floor. */
  lemma {:induction false} Periods(p: nat)
    ensures SilenceDeadline(p) >= 15_000 && SilenceDeadline(p) >= 3_000 * p
    ensures SilenceDeadline(p) == 15_000 || SilenceDeadline(p) == 3_000 * p
    ensures CheckInterval(p) >= 5_000 && CheckInterval(p) >= 1_000 * p
    ensures CheckInterval(p) == 5_000 || CheckInterval(p) == 1_000 * p
  {
  }

  // ---- the effect as an object ----

  /** The run goes on: time passes until now, then l happens. */
  lemma {:induction false} Continue(ls: seq<Label>, s: State, now: Time, l: Label, t: State)
    requires Run(ls) == Ok(s) && s.now <= now && NotPast(s.conn.firstEventTimer, now) && NotPast(s.conn.nextCheck, now)
    requires Step(s.(now := now), l) == Ok(t)
    ensures Run(ls + [Pass(now - s.now), l]) == Ok(t)
    ensures l.Open? ==> LastOpened(ls + [Pass(now - s.now), l]) == Received(now)
    ensures l.Event? ==> LastHeard(ls + [Pass(now - s.now), l]) == Received(now)
    ensures l.StaleCheck? ==> LastHeard(ls + [Pass(now - s.now), l]) == LastHeard(ls)
  {
    var passed := ls + [Pass(now - s.now)];
    var after := passed + [l];
    assert passed[..|passed| - 1] == ls && after[..|after| - 1] == passed;
    assert after == ls + [Pass(now - s.now), l];
    assert Run(passed) == Ok(s.(now := now));
  }

  lemma {:induction false} Begun(now: Time, pollingSeconds: nat)
    ensures Run([Pass(now), Connect(pollingSeconds)]) == Ok(State(now, Connected(now, pollingSeconds)))
  {
    assert Run([]) == Ok(Start());
    Continue([], Start(), now, Connect(pollingSeconds), State(now, Connected(now, pollingSeconds)));
    assert [] + [Pass(now), Connect(pollingSeconds)] == [Pass(now), Connect(pollingSeconds)];
  }

  /** Waiting tells nothing about the source. */
  lemma {:induction false} Waited(ls: seq<Label>, s: State, now: Time)
    requires Run(ls) == Ok(s) && s.now <= now && NotPast(s.conn.firstEventTimer, now) && NotPast(s.conn.nextCheck, now)
    ensures Run(ls + [Pass(now - s.now)]) == Ok(s.(now := now))
    ensures LastOpened(ls + [Pass(now - s.now)]) == LastOpened(ls)
    ensures LastHeard(ls + [Pass(now - s.now)]) == LastHeard(ls)
  {
    assert (ls + [Pass(now - s.now)])[..|ls|] == ls;
  }

  /** One run of the effect, from its connection to its clean-up.  `clock` and `history` record when the
      last handler ran and all that happened so far. */
  class LiveEffect {
    var status: Status
    var failures: nat
    var lastEvent: LastEvent
    var eventReceivedSinceOpen: bool
    var firstEventTimer: Timer
    var staleTimer: Timer
    const silenceDeadlineMs: nat
    const intervalMs: nat
    ghost var clock: Time
    ghost var history: seq<Label>

    ghost function View(): Conn
      reads this
    {
      Conn(status, failures, lastEvent, eventReceivedSinceOpen, firstEventTimer, staleTimer, silenceDeadlineMs, intervalMs)
    }

    /** The variables are where the history has led. */
    ghost predicate Valid()
      reads this
    {
      staleTimer.At? && Run(history) == Ok(State(clock, View()))
    }

    /** No timer was due before now without firing. */
    ghost predicate OnTime(now: Time)
      reads this
    {
      clock <= now && NotPast(firstEventTimer, now) && NotPast(staleTimer, now)
    }

    constructor (now: Time, pollingSeconds: nat)
      ensures Valid() && clock == now && history == [Pass(now), Connect(pollingSeconds)]
      ensures status == Connecting
      ensures silenceDeadlineMs == SilenceDeadline(pollingSeconds) && intervalMs == CheckInterval(pollingSeconds)
    {
      status, failures, lastEvent, eventReceivedSinceOpen, firstEventTimer := Connecting, 0, Never, false, Off;
      silenceDeadlineMs := if pollingSeconds * 3_000 > 15_000 then pollingSeconds * 3_000 else 15_000;
      intervalMs := if pollingSeconds * 1_000 > 5_000 then pollingSeconds * 1_000 else 5_000;
      staleTimer := At(now + if pollingSeconds * 1_000 > 5_000 then pollingSeconds * 1_000 else 5_000);
      clock, history := now, [Pass(now), Connect(pollingSeconds)];
      new;
      Begun(now, pollingSeconds);
    }

    method ClearFirstEventTimer()
      modifies this`firstEventTimer
      ensures firstEventTimer == Off
    {
      if firstEventTimer.At? {
        firstEventTimer := Off;
      }
    }

    /** Afterwards the state is live, on the strength of this opening. */
    method SourceOpens(now: Time)
      requires Valid() && OnTime(now)
      modifies this
      ensures Valid() && clock == now && history == old(history) + [Pass(now - old(clock)), Open]
      ensures status == Live && LastOpened(history) == Received(now)
    {
      ghost var before := State(clock, View());
      ClearFirstEventTimer();
      eventReceivedSinceOpen := false;
      status := Live;
      firstEventTimer := At(now + silenceDeadlineMs);
      Continue(history, before, now, Open, State(now, View()));
      history, clock := history + [Pass(now - clock), Open], now;
    }

    /** Afterwards the state is polling exactly if two errors came since the last event, else connecting. */
    method SourceFails(ghost now: Time)
      requires Valid() && OnTime(now)
      modifies this
      ensures Valid() && clock == now && history == old(history) + [Pass(now - old(clock)), Error]
      ensures status == if ErrorsSince(history) >= 2 then Polling else Connecting
      ensures firstEventTimer == Off
    {
      ghost var before := State(clock, View());
      ClearFirstEventTimer();
      failures := failures + 1;
      status := if failures >= 2 then Polling else Connecting;
      Continue(history, before, now, Error, State(now, View()));
      history, clock := history + [Pass(now - clock), Error], now;
      RunWatched(history, State(now, View()));
    }

    /** Afterwards the state is live, on the strength of this event, and the errors are forgotten. */
    method MarkEventReceived(now: Time)
      requires Valid() && OnTime(now)
      modifies this
      ensures Valid() && clock == now && history == old(history) + [Pass(now - old(clock)), Event]
      ensures status == Live && LastHeard(history) == Received(now) && ErrorsSince(history) == 0
    {
      ghost var before := State(clock, View());
      eventReceivedSinceOpen := true;
      ClearFirstEventTimer();
      failures := 0;
      status := Live;
      lastEvent := Received(now);
      Continue(history, before, now, Event, State(now, View()));
      history, clock := history + [Pass(now - clock), Event], now;
      RunWatched(history, State(now, View()));
    }

    /** The timer only runs while the opening has brought no event, so the state is stale afterwards. */
    method FirstEventTimerFires(ghost now: Time)
      requires Valid() && OnTime(now) && firstEventTimer == At(now)
      modifies this
      ensures Valid() && clock == now && history == old(history) + [Pass(now - old(clock)), FirstEventTimeout]
      ensures status == Stale
    {
      ghost var before := State(clock, View());
      RunWatched(history, before);
      firstEventTimer := Off;
      if !eventReceivedSinceOpen {
        status := Stale;
      }
      Continue(history, before, now, FirstEventTimeout, State(now, View()));
      history, clock := history + [Pass(now - clock), FirstEventTimeout], now;
    }

    /** The state is stale if an event came, but not within the silence deadline; else the check leaves it
        alone, and what is then live has opened or delivered an event within the deadline. */
    method StaleTimerFires(now: Time)
      requires Valid() && OnTime(now) && staleTimer == At(now)
      modifies this
      ensures Valid() && clock == now && history == old(history) + [Pass(now - old(clock)), StaleCheck]
      ensures status == Live ==>
                Within(LastOpened(history), now, silenceDeadlineMs) || Within(LastHeard(history), now, silenceDeadlineMs)
      ensures LastHeard(history) == LastHeard(old(history))
      ensures status ==
              if LastHeard(history).Received? && !Within(LastHeard(history), now, silenceDeadlineMs) then Stale
              else old(status)
    {
      ghost var before := State(clock, View());
      RunWatched(history, before);
      if lastEvent.Received? && now - lastEvent.time > silenceDeadlineMs {
        status := Stale;
      }
      staleTimer := At(now + intervalMs);
      Continue(history, before, now, StaleCheck, State(now, View()));
      history, clock := history + [Pass(now - clock), StaleCheck], now;
      RunWatched(history, State(now, View()));
    }
  }

  /** What the object says, also between handlers. */
  lemma {:induction false} LiveEffectMeans(e: LiveEffect, now: Time)
    requires e.Valid() && e.OnTime(now)
    ensures e.status == Stale ==>
      Silent(now, e.silenceDeadlineMs, LastOpened(e.history), HeardSinceOpened(e.history), LastHeard(e.history))
    ensures e.status != Stale ==>
      e.status == if !Troubled(e.history) then Live else if ErrorsSince(e.history) >= 2 then Polling else Connecting
  {
    StateMeans(e.history, State(e.clock, e.View()));
  }

  /** Whenever the object says "live", also between handlers, its source has opened within the silence
      deadline or delivered an event within the deadline and one check interval. */
  lemma {:induction false} LiveEffectIsRecent(e: LiveEffect, now: Time)
    requires e.Valid() && e.OnTime(now) && e.status == Live
    ensures
      || Within(LastOpened(e.history), now, e.silenceDeadlineMs)
      || Within(LastHeard(e.history), now, e.silenceDeadlineMs + e.intervalMs)
  {
    var s := State(e.clock, e.View());
    Waited(e.history, s, now);
    LiveMeansRecent(e.history + [Pass(now - e.clock)], s.(now := now));
  }
}
