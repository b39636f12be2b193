/** Single-flight session refresh: `sessionFetch` callers sharing `refreshInFlight`.

    Callers and the refresh promise interleave at every `await`.  A refresh goes through three
    moments: its request is outstanding, it has settled, and `finally` has cleared the variable;
    only then do the callers that await it resume. */
module SessionRefresh {
  import opened Wrappers

  /** Flights are numbered in order of creation. */
  type FlightId = nat

  datatype Flight = Outstanding | Settled(ok: bool) | Cleared(ok: bool)

  /** What a caller got: a response, with whether its status was 401, or a network error. */
  datatype Answer = Response(unauthorized: bool) | NetworkError

  datatype Stage =
    | Asked                       // the first request is out
    | Joined(flight: FlightId)    // awaiting a refresh
    | Retrying(flight: FlightId)  // the second request is out
    | Finished(answer: Answer)

  /** `first` and `via` are history: the first response's 401 flag and the refresh the caller joined. */
  datatype Call = Call(
    refreshable: bool,
    stage: Stage,
    sends: nat,
    expired: bool,               // session expiry was signalled
    first: Option<bool>,
    via: Option<FlightId>)

  datatype State = State(inFlight: Option<FlightId>, flights: seq<Flight>, calls: seq<Call>)

  datatype Label =
    | Send(path: string)
    | FirstAnswer(i: nat, answer: Answer)
    | Settle(flight: FlightId, ok: bool)   // the refresh responds, or fails, which counts as not ok
    | Clear(flight: FlightId)              // `finally`
    | Resume(i: nat)
    | SecondAnswer(i: nat, answer: Answer)

  /** Calls to the authentication endpoints themselves are never refreshed. */
  predicate CanRefreshSession(path: string) {
    path != "/api/v1/auth/login" && path != "/api/v1/auth/logout" && path != "/api/v1/auth/refresh"
  }

  function WithCall(s: State, i: nat, c: Call): State
    requires i < |s.calls|
  {
    s.(calls := s.calls[i := c])
  }

  /** `refreshSession`: joins the refresh in flight, or starts one. */
  function Join(s: State, i: nat): State
    requires i < |s.calls|
  {
    match s.inFlight
    case Some(f) => WithCall(s, i, s.calls[i].(stage := Joined(f), first := Some(true), via := Some(f)))
    case None =>
      var f := |s.flights|;
      WithCall(State(Some(f), s.flights + [Outstanding], s.calls), i,
               s.calls[i].(stage := Joined(f), first := Some(true), via := Some(f)))
  }

  function FirstAnswerStep(s: State, i: nat, answer: Answer): State
    requires i < |s.calls|
  {
    var c := s.calls[i];
    match answer
    case NetworkError => WithCall(s, i, c.(stage := Finished(NetworkError)))
    case Response(unauthorized) =>
      if unauthorized && c.refreshable then Join(s, i)
      else WithCall(s, i, c.(stage := Finished(answer), first := Some(unauthorized)))
  }

  function ResumeStep(s: State, i: nat): Outcome<State>
    requires i < |s.calls| && s.calls[i].stage.Joined?
  {
    var c, f := s.calls[i], s.calls[i].stage.flight;
    if f < |s.flights| && s.flights[f].Cleared? then
      if s.flights[f].ok then Ok(WithCall(s, i, c.(stage := Retrying(f), sends := c.sends + 1)))
      else Ok(WithCall(s, i, c.(stage := Finished(Response(true)), expired := true)))
    else Failed
  }

  function SecondAnswerStep(s: State, i: nat, answer: Answer): State
    requires i < |s.calls|
  {
    var c := s.calls[i];
    WithCall(s, i, c.(stage := Finished(answer), expired := answer == Response(true)))
  }

  function Step(s: State, l: Label): Outcome<State> {
    match l
    case Send(path) => Ok(s.(calls := s.calls + [Call(CanRefreshSession(path), Asked, 1, false, None, None)]))
    case FirstAnswer(i, answer) =>
      if i < |s.calls| && s.calls[i].stage.Asked? then Ok(FirstAnswerStep(s, i, answer)) else Failed
    case Settle(f, ok) =>
      if f < |s.flights| && s.flights[f].Outstanding? then Ok(s.(flights := s.flights[f := Settled(ok)])) else Failed
    case Clear(f) =>
      if f < |s.flights| && s.flights[f].Settled? then
        Ok(s.(flights := s.flights[f := Cleared(s.flights[f].ok)], inFlight := None))
      else Failed
    case Resume(i) => if i < |s.calls| && s.calls[i].stage.Joined? then ResumeStep(s, i) else Failed
    case SecondAnswer(i, answer) =>
      if i < |s.calls| && s.calls[i].stage.Retrying? then Ok(SecondAnswerStep(s, i, answer)) else Failed
  }

  function Run(ls: seq<Label>): Outcome<State> {
    if ls == [] then Ok(State(None, [], []))
    else
      match Run(ls[..|ls| - 1])
      case Failed => Failed
      case Ok(m) => Step(m, ls[|ls| - 1])
  }

  /** A run goes on with any step that is possible where it stands. */
  lemma {:induction false} RunGrows(ls: seq<Label>, m: State, l: Label)
    requires Run(ls) == Ok(m)
    ensures Run(ls + [l]) == Step(m, l) && Run([]) == Ok(State(None, [], []))
  {
    assert (ls + [l])[..|ls|] == ls;
  }

  // ---- what every step keeps ----

  /** The variable names the one flight that is not cleared; without it all are. */
  predicate SingleFlight(s: State) {
    && (forall f :: 0 <= f < |s.flights| && !s.flights[f].Cleared? ==> s.inFlight == Some(f))
    && (s.inFlight.Some? ==> s.inFlight.value < |s.flights| && !s.flights[s.inFlight.value].Cleared?)
  }

  /** One call's account of itself, against the flights. */
  predicate CallOk(flights: seq<Flight>, c: Call) {
    && (c.via.Some? ==> c.via.value < |flights| && c.refreshable && c.first == Some(true))
    && match c.stage
       case Asked => c.sends == 1 && !c.expired && c.first == None && c.via == None
       case Joined(f) => c.sends == 1 && !c.expired && c.via == Some(f)
       case Retrying(f) => c.sends == 2 && !c.expired && c.via == Some(f) && flights[c.via.value] == Cleared(true)
       case Finished(answer) =>
         if c.via.None? then
           && c.sends == 1 && !c.expired
           && (c.first == Some(true) ==> !c.refreshable)
           && (if c.first == None then answer == NetworkError else answer == Response(c.first.value))
         else
           && flights[c.via.value].Cleared?
           && c.sends == (if flights[c.via.value].ok then 2 else 1)
           && (c.expired <==> !flights[c.via.value].ok || answer == Response(true))
           && (!flights[c.via.value].ok ==> answer == Response(true))
  }

  ghost predicate Sound(s: State) {
    SingleFlight(s) && forall i :: 0 <= i < |s.calls| ==> CallOk(s.flights, s.calls[i])
  }

  /** Flights only grow, and a cleared one never changes. */
  predicate FlightsGrow(before: seq<Flight>, after: seq<Flight>) {
    |before| <= |after| && forall f :: 0 <= f < |before| && before[f].Cleared? ==> after[f] == before[f]
  }

  lemma {:induction false} CallKept(before: seq<Flight>, after: seq<Flight>, c: Call)
    requires CallOk(before, c) && FlightsGrow(before, after)
    ensures CallOk(after, c)
  {
  }

  lemma {:induction false} CallMoves(s: State, t: State, i: nat)
    requires Sound(s) && SingleFlight(t) && FlightsGrow(s.flights, t.flights)
    requires i < |s.calls| == |t.calls| && t.calls == s.calls[i := t.calls[i]] && CallOk(t.flights, t.calls[i])
    ensures Sound(t)
  {
    forall j | 0 <= j < |t.calls| ensures CallOk(t.flights, t.calls[j]) {
      if j != i {
        CallKept(s.flights, t.flights, s.calls[j]);
      }
    }
  }

  lemma {:induction false} FirstAnswerSound(s: State, i: nat, answer: Answer)
    requires Sound(s) && i < |s.calls| && s.calls[i].stage.Asked?
    ensures var t := FirstAnswerStep(s, i, answer); Sound(t) && FlightsGrow(s.flights, t.flights)
  {
    var t := FirstAnswerStep(s, i, answer);
    assert CallOk(s.flights, s.calls[i]);
    CallMoves(s, t, i);
  }

  lemma {:induction false} SecondAnswerSound(s: State, i: nat, answer: Answer)
    requires Sound(s) && i < |s.calls| && s.calls[i].stage.Retrying?
    ensures var t := SecondAnswerStep(s, i, answer); Sound(t) && FlightsGrow(s.flights, t.flights)
  {
    var t := SecondAnswerStep(s, i, answer);
    assert CallOk(s.flights, s.calls[i]);
    CallMoves(s, t, i);
  }

  lemma {:induction false} ResumeSound(s: State, i: nat, t: State)
    requires Sound(s) && i < |s.calls| && s.calls[i].stage.Joined? && ResumeStep(s, i) == Ok(t)
    ensures Sound(t) && FlightsGrow(s.flights, t.flights)
  {
    assert CallOk(s.flights, s.calls[i]);
    CallMoves(s, t, i);
  }

  /** The refresh itself moves: its request settles, or `finally` clears the variable. */
  lemma {:induction false} FlightSound(s: State, l: Label, t: State)
    requires Sound(s) && (l.Settle? || l.Clear?) && Step(s, l) == Ok(t)
    ensures Sound(t) && FlightsGrow(s.flights, t.flights)
  {
    forall j | 0 <= j < |t.calls| ensures CallOk(t.flights, t.calls[j]) {
      CallKept(s.flights, t.flights, s.calls[j]);
    }
  }

  lemma {:induction false} StepSound(s: State, l: Label, t: State)
    requires Sound(s) && Step(s, l) == Ok(t)
    ensures Sound(t) && FlightsGrow(s.flights, t.flights)
  {
    match l
    case Send(_) =>
    case FirstAnswer(i, answer) => FirstAnswerSound(s, i, answer);
    case Settle(_, _) => FlightSound(s, l, t);
    case Clear(_) => FlightSound(s, l, t);
    case Resume(i) => ResumeSound(s, i, t);
    case SecondAnswer(i, answer) => SecondAnswerSound(s, i, answer);
  }

  lemma {:induction false} RunSound(ls: seq<Label>, s: State)
    requires Run(ls) == Ok(s)
    ensures Sound(s)
  {
    if ls != [] {
      RunSound(ls[..|ls| - 1], Run(ls[..|ls| - 1]).value);
      StepSound(Run(ls[..|ls| - 1]).value, ls[|ls| - 1], s);
    }
  }

  // ---- what happened, read off the labels alone ----

  const AUTH_PATHS := ["/api/v1/auth/login", "/api/v1/auth/logout", "/api/v1/auth/refresh"]

  /** The requests, in the order in which their calls were made. */
  function Paths(ls: seq<Label>): seq<string> {
    if ls == [] then []
    else
      var init, l := ls[..|ls| - 1], ls[|ls| - 1];
      Paths(init) + if l.Send? then [l.path] else []
  }

  function FirstAnswerTo(ls: seq<Label>, i: nat): Option<Answer> {
    if ls == [] then None
    else
      var init, l := ls[..|ls| - 1], ls[|ls| - 1];
      if l.FirstAnswer? && l.i == i then Some(l.answer) else FirstAnswerTo(init, i)
  }

  function SecondAnswerTo(ls: seq<Label>, i: nat): Option<Answer> {
    if ls == [] then None
    else
      var init, l := ls[..|ls| - 1], ls[|ls| - 1];
      if l.SecondAnswer? && l.i == i then Some(l.answer) else SecondAnswerTo(init, i)
  }

  /** How the f-th refresh responded. */
  function SettledAs(ls: seq<Label>, f: FlightId): Option<bool> {
    if ls == [] then None
    else
      var init, l := ls[..|ls| - 1], ls[|ls| - 1];
      if l.Settle? && l.flight == f then Some(l.ok) else SettledAs(init, f)
  }

  /** A 401 that the call may try to repair. */
  predicate Repairable(path: string, answer: Option<Answer>) {
    path !in AUTH_PATHS && answer == Some(Response(true))
  }

  /** The call's own record agrees with the answers it was given. */
  predicate CallTrue(c: Call, path: string, first: Option<Answer>, second: Option<Answer>) {
    && (c.refreshable <==> path !in AUTH_PATHS)
    && (c.stage.Asked? <==> first == None)
    && (c.first == if first.Some? && first.value.Response? then Some(first.value.unauthorized) else None)
    && (c.via.Some? <==> Repairable(path, first))
    && (c.stage.Finished? && c.via.None? ==> first == Some(c.stage.answer))
    && (second.Some? <==> c.stage.Finished? && c.sends == 2)
    && (second.Some? ==> second == Some(c.stage.answer))
  }

  predicate FlightTrue(f: Flight, settled: Option<bool>) {
    if f.Outstanding? then settled == None else settled == Some(f.ok)
  }

  ghost predicate CallsTrue(ls: seq<Label>, s: State) {
    && |s.calls| == |Paths(ls)|
    && (forall i :: 0 <= i < |s.calls| ==>
          CallTrue(s.calls[i], Paths(ls)[i], FirstAnswerTo(ls, i), SecondAnswerTo(ls, i)))
    && (forall i: nat :: i >= |s.calls| ==> FirstAnswerTo(ls, i) == None && SecondAnswerTo(ls, i) == None)
  }

  ghost predicate FlightsTrue(ls: seq<Label>, s: State) {
    && (forall f :: 0 <= f < |s.flights| ==> FlightTrue(s.flights[f], SettledAs(ls, f)))
    && (forall f: FlightId :: f >= |s.flights| ==> SettledAs(ls, f) == None)
  }

  lemma {:induction false} SendTrue(ls: seq<Label>, s: State, l: Label, t: State)
    requires CallsTrue(ls, s) && l.Send? && Step(s, l) == Ok(t)
    ensures CallsTrue(ls + [l], t)
  {
    var n := |s.calls|;
    assert (ls + [l])[..|ls|] == ls;
    assert Paths(ls + [l]) == Paths(ls) + [l.path];
    forall i: nat
      ensures FirstAnswerTo(ls + [l], i) == FirstAnswerTo(ls, i) && SecondAnswerTo(ls + [l], i) == SecondAnswerTo(ls, i)
    {
      OtherAnswers(ls, l, i);
    }
    assert FirstAnswerTo(ls, n) == None && SecondAnswerTo(ls, n) == None;
    assert CallTrue(t.calls[n], l.path, None, None);
    forall i | 0 <= i < n
      ensures CallTrue(t.calls[i], Paths(ls + [l])[i], FirstAnswerTo(ls + [l], i), SecondAnswerTo(ls + [l], i))
    {
      assert t.calls[i] == s.calls[i];
    }
  }

  /** A label that is not about call i leaves its answers alone. */
  lemma {:induction false} OtherAnswers(ls: seq<Label>, l: Label, i: nat)
    ensures !l.Send? ==> Paths(ls + [l]) == Paths(ls)
    ensures FirstAnswerTo(ls + [l], i) == if l.FirstAnswer? && l.i == i then Some(l.answer) else FirstAnswerTo(ls, i)
    ensures SecondAnswerTo(ls + [l], i) == if l.SecondAnswer? && l.i == i then Some(l.answer) else SecondAnswerTo(ls, i)
    ensures SettledAs(ls + [l], i) == if l.Settle? && l.flight == i then Some(l.ok) else SettledAs(ls, i)
  {
    assert (ls + [l])[..|ls|] == ls;
  }

  lemma {:induction false} CallStepTrue(ls: seq<Label>, s: State, l: Label, t: State)
    requires CallsTrue(ls, s) && Sound(s) && (l.FirstAnswer? || l.SecondAnswer? || l.Resume?) && Step(s, l) == Ok(t)
    ensures CallsTrue(ls + [l], t)
  {
    OtherAnswers(ls, l, l.i);
    assert CallOk(s.flights, s.calls[l.i]);
    assert CallTrue(t.calls[l.i], Paths(ls)[l.i], FirstAnswerTo(ls + [l], l.i), SecondAnswerTo(ls + [l], l.i));
    forall j: nat | j != l.i
      ensures FirstAnswerTo(ls + [l], j) == FirstAnswerTo(ls, j) && SecondAnswerTo(ls + [l], j) == SecondAnswerTo(ls, j)
    {
      OtherAnswers(ls, l, j);
    }
  }

  lemma {:induction false} StepTrue(ls: seq<Label>, s: State, l: Label, t: State)
    requires CallsTrue(ls, s) && FlightsTrue(ls, s) && Sound(s) && Step(s, l) == Ok(t)
    ensures CallsTrue(ls + [l], t) && FlightsTrue(ls + [l], t)
  {
    forall f: nat
      ensures SettledAs(ls + [l], f) == if l.Settle? && l.flight == f then Some(l.ok) else SettledAs(ls, f)
    {
      OtherAnswers(ls, l, f);
    }
    if l.Send? {
      SendTrue(ls, s, l, t);
    } else if l.FirstAnswer? || l.SecondAnswer? || l.Resume? {
      CallStepTrue(ls, s, l, t);
    } else {
      forall j: nat
        ensures Paths(ls + [l]) == Paths(ls)
        ensures FirstAnswerTo(ls + [l], j) == FirstAnswerTo(ls, j) && SecondAnswerTo(ls + [l], j) == SecondAnswerTo(ls, j)
      {
        OtherAnswers(ls, l, j);
      }
    }
  }

  /** Every call's record and every refresh's outcome are what the labels say. */
  lemma {:induction false} RunTrue(ls: seq<Label>, s: State)
    requires Run(ls) == Ok(s)
    ensures CallsTrue(ls, s) && FlightsTrue(ls, s)
  {
    if ls != [] {
      var init, l := ls[..|ls| - 1], ls[|ls| - 1];
      RunTrue(init, Run(init).value);
      RunSound(init, Run(init).value);
      StepTrue(init, Run(init).value, l, s);
      assert init + [l] == ls;
    }
  }

  // ---- results, for every interleaving ----

  /** At most one refresh request is outstanding. */
  lemma {:induction false} OneRefreshOutstanding(ls: seq<Label>, s: State, f: FlightId, g: FlightId)
    requires Run(ls) == Ok(s) && f < |s.flights| && g < |s.flights|
    requires s.flights[f].Outstanding? && s.flights[g].Outstanding?
    ensures f == g && s.inFlight == Some(f)
  {
    RunSound(ls, s);
  }

  /** Two callers that joined one refresh act on the same outcome: both retry, or both give up with the
      session expired. */
  lemma {:induction false} SameOutcome(ls: seq<Label>, s: State, i: nat, j: nat)
    requires Run(ls) == Ok(s) && i < |s.calls| && j < |s.calls|
    requires s.calls[i].via.Some? && s.calls[j].via == s.calls[i].via
    requires !s.calls[i].stage.Joined? && !s.calls[j].stage.Joined?
    ensures s.calls[i].sends == s.calls[j].sends
    ensures s.calls[i].sends == 1 ==> s.calls[i].expired && s.calls[j].expired
  {
    RunSound(ls, s);
    assert CallOk(s.flights, s.calls[i]) && CallOk(s.flights, s.calls[j]);
  }

  /** A request is sent at most twice, and twice only if its first answer was a 401, it is not a request
      to the authentication endpoints, and the refresh it joined succeeded. */
  lemma {:induction false} AtMostTwoSends(ls: seq<Label>, s: State, i: nat)
    requires Run(ls) == Ok(s) && i < |s.calls|
    ensures 1 <= s.calls[i].sends <= 2 && |Paths(ls)| == |s.calls|
    ensures s.calls[i].sends == 2 ==>
              && Repairable(Paths(ls)[i], FirstAnswerTo(ls, i))
              && s.calls[i].via.Some? && SettledAs(ls, s.calls[i].via.value) == Some(true)
  {
    RunSound(ls, s);
    RunTrue(ls, s);
    assert CallOk(s.flights, s.calls[i]);
    assert CallTrue(s.calls[i], Paths(ls)[i], FirstAnswerTo(ls, i), SecondAnswerTo(ls, i));
  }

  /** A finished call has signalled expiry exactly when its first answer was a 401 it may repair, and the
      refresh it joined failed or the retry was answered 401. */
  lemma {:induction false} ExpirySignalledIff(ls: seq<Label>, s: State, i: nat)
    requires Run(ls) == Ok(s) && i < |s.calls| && s.calls[i].stage.Finished?
    ensures |Paths(ls)| == |s.calls|
    ensures Repairable(Paths(ls)[i], FirstAnswerTo(ls, i)) <==> s.calls[i].via.Some?
    ensures s.calls[i].expired <==>
              && Repairable(Paths(ls)[i], FirstAnswerTo(ls, i))
              && (SettledAs(ls, s.calls[i].via.value) == Some(false)
                  || (SettledAs(ls, s.calls[i].via.value) == Some(true) && SecondAnswerTo(ls, i) == Some(Response(true))))
  {
    RunSound(ls, s);
    RunTrue(ls, s);
    assert CallOk(s.flights, s.calls[i]);
    assert CallTrue(s.calls[i], Paths(ls)[i], FirstAnswerTo(ls, i), SecondAnswerTo(ls, i));
  }

  /** What the caller gets: its first answer if there was nothing to repair or the refresh failed, else
      the answer to the retry. */
  lemma {:induction false} CallerGets(ls: seq<Label>, s: State, i: nat)
    requires Run(ls) == Ok(s) && i < |s.calls| && s.calls[i].stage.Finished?
    ensures |Paths(ls)| == |s.calls|
    ensures s.calls[i].via.Some? <==> Repairable(Paths(ls)[i], FirstAnswerTo(ls, i))
    ensures Some(s.calls[i].stage.answer) ==
            if s.calls[i].via.Some? && SettledAs(ls, s.calls[i].via.value) == Some(true) then SecondAnswerTo(ls, i)
            else FirstAnswerTo(ls, i)
  {
    RunSound(ls, s);
    RunTrue(ls, s);
    assert CallOk(s.flights, s.calls[i]);
    assert CallTrue(s.calls[i], Paths(ls)[i], FirstAnswerTo(ls, i), SecondAnswerTo(ls, i));
  }

  /** An answer with nothing to repair finishes the call at once and starts no refresh; any other makes
      the call join the refresh in flight, or the one it starts. */
  lemma {:induction false} FirstAnswerExact(ls: seq<Label>, s: State, i: nat, answer: Answer, t: State)
    requires Run(ls) == Ok(s) && Step(s, FirstAnswer(i, answer)) == Ok(t)
    ensures i < |s.calls| == |Paths(ls)| == |t.calls| && t.calls == s.calls[i := t.calls[i]]
    ensures !Repairable(Paths(ls)[i], Some(answer)) ==>
              && t.calls[i].stage == Finished(answer) && t.calls[i].sends == 1 && !t.calls[i].expired
              && t.flights == s.flights && t.inFlight == s.inFlight
    ensures Repairable(Paths(ls)[i], Some(answer)) ==>
              && t.inFlight.Some? && t.calls[i].stage == Joined(t.inFlight.value) && t.calls[i].sends == 1
              && (if s.inFlight.Some? then t.inFlight == s.inFlight && t.flights == s.flights
                  else t.inFlight == Some(|s.flights|) && t.flights == s.flights + [Outstanding])
  {
    RunSound(ls, s);
    RunTrue(ls, s);
    assert CallOk(s.flights, s.calls[i]);
    assert CallTrue(s.calls[i], Paths(ls)[i], FirstAnswerTo(ls, i), SecondAnswerTo(ls, i));
  }

  /** No call waits for nothing: it can be answered or resume, or the refresh it joined can go on. */
  lemma {:induction false} NeverStuck(ls: seq<Label>, s: State, i: nat)
    requires Run(ls) == Ok(s) && i < |s.calls| && !s.calls[i].stage.Finished?
    ensures match s.calls[i].stage
      case Asked => forall a :: Step(s, FirstAnswer(i, a)).Ok?
      case Retrying(_) => forall a :: Step(s, SecondAnswer(i, a)).Ok?
      case Joined(f) =>
        Step(s, Resume(i)).Ok? || Step(s, Clear(f)).Ok? || forall ok :: Step(s, Settle(f, ok)).Ok?
      case Finished(_) => true
  {
    RunSound(ls, s);
    assert CallOk(s.flights, s.calls[i]);
  }
}
