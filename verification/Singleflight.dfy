/** Certificate issuance: the per-host singleflight and the back-off after a failure
    (agent/internal/edge/acme.go, obtain). Each mutex-protected section, the outcome of
    doObtain and the closing of the done channel is one atomic step; any number of callers
    interleave. */
module Singleflight {

  type Name = nat       // host names are only compared for equality
  type Time = int       // nanoseconds
  type FlightId = nat
  type CallId = nat

  const OBTAIN_RETRY_MIN: Time := 5 * 60 * 1_000_000_000
  const OBTAIN_RETRY_JITTER: Time := 60 * 1_000_000_000

  /** What doObtain returned: a certificate or an error. */
  datatype Outcome = Issued(cert: int) | Failed(error: int)

  // ----- the two critical sections -----

  datatype Table = Table(flights: map<Name, FlightId>, retry: map<Name, Time>, next: FlightId)

  datatype Entry = Join(flight: FlightId) | BackOff(deadline: Time) | Lead(flight: FlightId)

  /** Join a running flight, refuse inside the back-off window, or start a flight. */
  function Enter(t: Table, name: Name, now: Time): (Entry, Table) {
    if name in t.flights then (Join(t.flights[name]), t)
    else if name in t.retry && now < t.retry[name] then (BackOff(t.retry[name]), t)
    else (Lead(t.next), t.(flights := t.flights[name := t.next], next := t.next + 1))
  }

  function Deadline(now: Time, jitter: Time): Time {
    now + OBTAIN_RETRY_MIN + jitter
  }

  /** The flight leaves the table; a failure sets the retry deadline, a success clears it. */
  function Settle(t: Table, name: Name, outcome: Outcome, now: Time, jitter: Time): Table {
    Table(t.flights - {name},
          if outcome.Failed? then t.retry[name := Deadline(now, jitter)] else t.retry - {name},
          t.next)
  }

  /** The maps of CertManager, as the code updates them under the mutex. */
  class CertManager {
    var flights: map<Name, FlightId>
    var retry: map<Name, Time>
    var next: FlightId

    ghost function Contents(): Table
      reads this
    {
      Table(flights, retry, next)
    }

    constructor ()
      ensures Contents() == Table(map[], map[], 0)
    {
      flights, retry, next := map[], map[], 0;
    }

    method BeginObtain(name: Name, now: Time) returns (e: Entry)
      modifies this
      ensures (e, Contents()) == Enter(old(Contents()), name, now)
    {
      if name in flights {
        return Join(flights[name]);
      }
      if name in retry {
        if now < retry[name] {
          return BackOff(retry[name]);
        }
      }
      e := Lead(next);
      flights := flights[name := next];
      next := next + 1;
    }

    method EndObtain(name: Name, outcome: Outcome, now: Time, jitter: Time)
      modifies this
      ensures Contents() == Settle(old(Contents()), name, outcome, now, jitter)
    {
      flights := flights - {name};
      if outcome.Failed? {
        retry := retry[name := now + OBTAIN_RETRY_MIN + jitter];
      } else {
        retry := retry - {name};
      }
    }
  }

  // ----- callers -----

  datatype Call =
    | Waiting(name: Name, flight: FlightId)                        // blocked on done
    | Obtaining(name: Name, flight: FlightId)                      // doObtain is running
    | Obtained(name: Name, flight: FlightId, outcome: Outcome)     // doObtain has returned
    | Published(name: Name, flight: FlightId, outcome: Outcome)    // done is closed
    | Returned(name: Name, flight: FlightId, outcome: Outcome)
    | Refused(name: Name)                                          // inside the back-off window

  predicate Leads(c: Call) {
    c.Obtaining? || c.Obtained? || c.Published?
  }

  /** History, for stating what happened: who started each flight and what its doObtain
      returned, and the back-off events in order. */
  datatype Flight = Flight(name: Name, leader: CallId)

  datatype Event =
    | Started(name: Name, at: Time)               // doObtain begins
    | Failure(name: Name, at: Time)               // doObtain returned an error
    | RetryAfter(name: Name, at: Time, deadline: Time)      // the retry deadline is set

  datatype State = State(
    now: Time,
    table: Table,
    closed: map<FlightId, Outcome>,      // f.cert, f.err of the flights whose done is closed
    calls: map<CallId, Call>,
    flown: map<FlightId, Flight>,
    outcomes: map<FlightId, Outcome>,
    log: seq<Event>)

  const INITIAL := State(0, Table(map[], map[], 0), map[], map[], map[], map[], [])

  datatype Step =
    | Pass(dt: Time)
    | Arrive(id: CallId, name: Name)
    | Finish(id: CallId, outcome: Outcome)
    | Publish(id: CallId)
    | Retire(id: CallId, jitter: Time)
    | Wake(id: CallId)

  predicate CanStep(s: State, step: Step) {
    match step
    case Pass(dt) => dt >= 0
    case Arrive(id, _) => id !in s.calls
    case Finish(id, _) => id in s.calls && s.calls[id].Obtaining?
    case Publish(id) => id in s.calls && s.calls[id].Obtained?
    case Retire(id, jitter) => id in s.calls && s.calls[id].Published? && 0 <= jitter < OBTAIN_RETRY_JITTER
    case Wake(id) => id in s.calls && s.calls[id].Waiting? && s.calls[id].flight in s.closed
  }

  /** Call `id` has entered the table as the leader of a new flight. */
  function Launched(s: State, id: CallId, name: Name): State {
    var f := s.table.next;
    s.(table := Enter(s.table, name, s.now).1,
       calls := s.calls[id := Obtaining(name, f)],
       flown := s.flown[f := Flight(name, id)],
       log := s.log + [Started(name, s.now)])
  }

  function DoStep(s: State, step: Step): State
    requires CanStep(s, step)
  {
    match step
    case Pass(dt) => s.(now := s.now + dt)
    case Arrive(id, name) =>
      (match Enter(s.table, name, s.now).0
       case Join(f) => s.(calls := s.calls[id := Waiting(name, f)])
       case BackOff(_) => s.(calls := s.calls[id := Refused(name)])
       case Lead(_) => Launched(s, id, name))
    case Finish(id, outcome) =>
      var c := s.calls[id];
      s.(calls := s.calls[id := Obtained(c.name, c.flight, outcome)],
         outcomes := s.outcomes[c.flight := outcome],
         log := if outcome.Failed? then s.log + [Failure(c.name, s.now)] else s.log)
    case Publish(id) =>
      var c := s.calls[id];
      s.(calls := s.calls[id := Published(c.name, c.flight, c.outcome)],
         closed := s.closed[c.flight := c.outcome])
    case Retire(id, jitter) =>
      var c := s.calls[id];
      s.(table := Settle(s.table, c.name, c.outcome, s.now, jitter),
         calls := s.calls[id := Returned(c.name, c.flight, c.outcome)],
         log := if c.outcome.Failed? then s.log + [RetryAfter(c.name, s.now, Deadline(s.now, jitter))] else s.log)
    case Wake(id) =>
      var c := s.calls[id];
      s.(calls := s.calls[id := Returned(c.name, c.flight, s.closed[c.flight])])
  }

  /** A run is any sequence of enabled steps. */
  predicate ValidRun(run: seq<Step>)
    decreases |run|, 0
  {
    run == [] || (ValidRun(run[..|run| - 1]) && CanStep(After(run[..|run| - 1]), run[|run| - 1]))
  }

  function After(run: seq<Step>): State
    requires ValidRun(run)
    decreases |run|, 1
  {
    if run == [] then INITIAL else DoStep(After(run[..|run| - 1]), run[|run| - 1])
  }

  // ----- what every step keeps -----

  /** The leader of a flight is a call that leads it under the flight's name. */
  predicate LedBy(s: State, f: FlightId) {
    f in s.flown && s.flown[f].leader in s.calls
    && var c := s.calls[s.flown[f].leader];
       Leads(c) && c.flight == f && c.name == s.flown[f].name
  }

  /** A leading call is the leader of its flight, which is the one registered for its name;
      every registered flight is led. */
  ghost predicate LeadersRegistered(s: State) {
    && (forall f :: f in s.flown ==> f < s.table.next)
    && (forall i :: i in s.calls && Leads(s.calls[i]) ==>
          s.calls[i].flight in s.flown && s.flown[s.calls[i].flight] == Flight(s.calls[i].name, i)
          && s.calls[i].name in s.table.flights && s.table.flights[s.calls[i].name] == s.calls[i].flight)
    && (forall n :: n in s.table.flights ==>
          LedBy(s, s.table.flights[n]) && s.flown[s.table.flights[n]].name == n)
  }

  /** doObtain has returned exactly for the flights that are past it; a channel is closed only
      then, with that outcome, and every call that has an outcome has its flight's. */
  ghost predicate OutcomesAgree(s: State) {
    && (forall f :: f in s.outcomes ==> f in s.flown)
    && (forall f :: f in s.closed ==> f in s.outcomes && s.outcomes[f] == s.closed[f])
    && (forall i :: i in s.calls && s.calls[i].Obtaining? ==> s.calls[i].flight !in s.outcomes)
    && (forall i :: i in s.calls && (s.calls[i].Obtained? || s.calls[i].Published? || s.calls[i].Returned?) ==>
          s.calls[i].flight in s.outcomes && s.outcomes[s.calls[i].flight] == s.calls[i].outcome)
  }

  /** Every waiting call joined a flight of its own name, and that flight's channel is closed
      or its leader is still on the way to closing it. */
  ghost predicate WaitersServed(s: State) {
    && (forall i :: i in s.calls && s.calls[i].Published? ==> s.calls[i].flight in s.closed)
    && (forall i :: i in s.calls && s.calls[i].Waiting? ==>
          s.calls[i].flight in s.flown && s.flown[s.calls[i].flight].name == s.calls[i].name
          && (s.calls[i].flight in s.closed || LedBy(s, s.calls[i].flight)))
  }

  ghost predicate FlightsSound(s: State) {
    LeadersRegistered(s) && OutcomesAgree(s) && WaitersServed(s)
  }

  lemma LaunchKeepsLeaders(s: State, id: CallId, name: Name)
    requires FlightsSound(s) && id !in s.calls && Enter(s.table, name, s.now).0.Lead?
    ensures LeadersRegistered(Launched(s, id, name))
  {}

  lemma LaunchKeepsRest(s: State, id: CallId, name: Name)
    requires FlightsSound(s) && id !in s.calls && Enter(s.table, name, s.now).0.Lead?
    ensures OutcomesAgree(Launched(s, id, name)) && WaitersServed(Launched(s, id, name))
  {}

  lemma RefusalKeepsFlights(s: State, id: CallId, name: Name)
    requires FlightsSound(s) && id !in s.calls
    ensures FlightsSound(s.(calls := s.calls[id := Refused(name)]))
  {}

  lemma JoinKeepsFlights(s: State, id: CallId, name: Name)
    requires FlightsSound(s) && id !in s.calls && name in s.table.flights
    ensures FlightsSound(s.(calls := s.calls[id := Waiting(name, s.table.flights[name])]))
  {}

  lemma ArriveKeepsFlights(s: State, id: CallId, name: Name)
    requires FlightsSound(s) && CanStep(s, Arrive(id, name))
    ensures FlightsSound(DoStep(s, Arrive(id, name)))
  {
    match Enter(s.table, name, s.now).0
    case Join(_) => JoinKeepsFlights(s, id, name);
    case BackOff(_) => RefusalKeepsFlights(s, id, name);
    case Lead(_) =>
      LaunchKeepsLeaders(s, id, name);
      LaunchKeepsRest(s, id, name);
  }

  lemma RetireKeepsLeaders(s: State, id: CallId, jitter: Time)
    requires FlightsSound(s) && CanStep(s, Retire(id, jitter))
    ensures LeadersRegistered(DoStep(s, Retire(id, jitter)))
  {}

  lemma RetireKeepsRest(s: State, id: CallId, jitter: Time)
    requires FlightsSound(s) && CanStep(s, Retire(id, jitter))
    ensures OutcomesAgree(DoStep(s, Retire(id, jitter)))
    ensures WaitersServed(DoStep(s, Retire(id, jitter)))
  {}

  lemma LeadersGoOn(s: State, step: Step)
    requires FlightsSound(s) && CanStep(s, step) && !step.Arrive? && !step.Retire?
    ensures LeadersRegistered(DoStep(s, step))
  {}

  lemma OutcomesGoOn(s: State, step: Step)
    requires FlightsSound(s) && CanStep(s, step) && !step.Arrive? && !step.Retire?
    ensures OutcomesAgree(DoStep(s, step))
  {}

  lemma WaitersGoOn(s: State, step: Step)
    requires FlightsSound(s) && CanStep(s, step) && !step.Arrive? && !step.Retire?
    ensures WaitersServed(DoStep(s, step))
  {}

  lemma StepKeepsFlights(s: State, step: Step)
    requires FlightsSound(s) && CanStep(s, step)
    ensures FlightsSound(DoStep(s, step))
  {
    match step
    case Arrive(id, name) =>
      ArriveKeepsFlights(s, id, name);
    case Retire(id, jitter) =>
      RetireKeepsLeaders(s, id, jitter);
      RetireKeepsRest(s, id, jitter);
    case _ =>
      LeadersGoOn(s, step);
      OutcomesGoOn(s, step);
      WaitersGoOn(s, step);
  }

  /** doObtain returns once per flight: an outcome, once there, is final. */
  lemma OutcomesAreFinal(s: State, step: Step, f: FlightId)
    requires FlightsSound(s) && CanStep(s, step) && f in s.outcomes
    ensures var s' := DoStep(s, step); f in s'.outcomes && s'.outcomes[f] == s.outcomes[f]
  {}

  /** A call that has joined or started a flight keeps it. */
  lemma CallsKeepTheirFlight(s: State, step: Step, i: CallId)
    requires CanStep(s, step) && i in s.calls && !s.calls[i].Refused?
    ensures var s' := DoStep(s, step);
            i in s'.calls && !s'.calls[i].Refused?
            && s'.calls[i].name == s.calls[i].name && s'.calls[i].flight == s.calls[i].flight
  {}

  // ----- the back-off -----

  /** A deadline set for a name has passed, or it still guards the idle name. */
  predicate Guards(s: State, n: Name, d: Time) {
    d <= s.now || (n !in s.table.flights && n in s.table.retry && s.table.retry[n] >= d)
  }

  ghost predicate DeadlinesGuard(s: State) {
    forall a :: 0 <= a < |s.log| && s.log[a].RetryAfter? ==> Guards(s, s.log[a].name, s.log[a].deadline)
  }

  /** A deadline is set for the name after position `a` of the log. */
  ghost predicate DeadlineAfter(log: seq<Event>, n: Name, a: int) {
    exists c :: a < c < |log| && 0 <= c && log[c].RetryAfter? && log[c].name == n
  }

  /** A name whose doObtain failed is still registered with the failed flight, or a deadline
      was set since. */
  ghost predicate FailuresGuard(s: State) {
    forall a :: 0 <= a < |s.log| && s.log[a].Failure? ==>
      FailedFlight(s, s.log[a].name) || DeadlineAfter(s.log, s.log[a].name, a)
  }

  predicate FailedFlight(s: State, n: Name) {
    n in s.table.flights && s.table.flights[n] in s.outcomes && s.outcomes[s.table.flights[n]].Failed?
  }

  /** A doObtain starts only after every deadline set for its name has passed, and only when
      every earlier failure of the name has set one. */
  ghost predicate StartsRespectBackoff(log: seq<Event>) {
    forall b :: 0 <= b < |log| && log[b].Started? ==> StartAllowed(log[..b], log[b].name, log[b].at)
  }

  ghost predicate StartAllowed(before: seq<Event>, n: Name, at: Time) {
    && (forall a :: 0 <= a < |before| && before[a].RetryAfter? && before[a].name == n ==> before[a].deadline <= at)
    && (forall a :: 0 <= a < |before| && before[a].Failure? && before[a].name == n ==> DeadlineAfter(before, n, a))
  }

  ghost predicate BackoffSound(s: State) {
    DeadlinesGuard(s) && FailuresGuard(s) && StartsRespectBackoff(s.log)
  }

  lemma AppendEvent(log: seq<Event>, e: Event)
    requires StartsRespectBackoff(log)
    requires e.Started? ==> StartAllowed(log, e.name, e.at)
    ensures StartsRespectBackoff(log + [e])
  {
    var log' := log + [e];
    forall b | 0 <= b < |log'| && log'[b].Started? ensures StartAllowed(log'[..b], log'[b].name, log'[b].at) {
      if b < |log| {
        assert log'[..b] == log[..b];
      } else {
        assert log'[..b] == log;
      }
    }
  }

  lemma DeadlineStays(log: seq<Event>, e: Event, n: Name, a: int)
    requires DeadlineAfter(log, n, a)
    ensures DeadlineAfter(log + [e], n, a)
  {
    var c :| a < c < |log| && 0 <= c && log[c].RetryAfter? && log[c].name == n;
    assert (log + [e])[c] == log[c];
  }

  lemma StepKeepsFailures(s: State, step: Step)
    requires FlightsSound(s) && FailuresGuard(s) && CanStep(s, step)
    ensures FailuresGuard(DoStep(s, step))
  {
    var s' := DoStep(s, step);
    forall a | 0 <= a < |s'.log| && s'.log[a].Failure?
      ensures FailedFlight(s', s'.log[a].name) || DeadlineAfter(s'.log, s'.log[a].name, a)
    {
      var n := s'.log[a].name;
      if a < |s.log| {
        assert s'.log[a] == s.log[a];
        if DeadlineAfter(s.log, n, a) {
          if s'.log != s.log {
            assert s'.log == s.log + [s'.log[|s.log|]];
            DeadlineStays(s.log, s'.log[|s.log|], n, a);
          }
        } else if step.Retire? && s.calls[step.id].name == n {
          assert s'.log[|s.log|].RetryAfter? && s'.log[|s.log|].name == n;
        }
      }
    }
  }

  lemma StepKeepsDeadlines(s: State, step: Step)
    requires FlightsSound(s) && DeadlinesGuard(s) && CanStep(s, step)
    ensures DeadlinesGuard(DoStep(s, step))
  {
    var s' := DoStep(s, step);
    forall a | 0 <= a < |s'.log| && s'.log[a].RetryAfter? ensures Guards(s', s'.log[a].name, s'.log[a].deadline) {
      if a < |s.log| {
        assert s'.log[a] == s.log[a];
        assert Guards(s, s.log[a].name, s.log[a].deadline);
      }
    }
  }

  lemma StepKeepsStarts(s: State, step: Step)
    requires FlightsSound(s) && BackoffSound(s) && CanStep(s, step)
    ensures StartsRespectBackoff(DoStep(s, step).log)
  {
    var s' := DoStep(s, step);
    if s'.log != s.log {
      var e := s'.log[|s.log|];
      assert s'.log == s.log + [e];
      if e.Started? {
        forall a | 0 <= a < |s.log| && s.log[a].RetryAfter? && s.log[a].name == e.name ensures s.log[a].deadline <= e.at {
          assert Guards(s, s.log[a].name, s.log[a].deadline);
        }
      }
      AppendEvent(s.log, e);
    }
  }

  /** The log is in order of time, and every deadline is five to six minutes after it was set. */
  ghost predicate ClockSound(s: State) {
    && (forall a :: 0 <= a < |s.log| ==> TimedBy(s.log[a], s.now))
    && (forall a, c :: 0 <= a < c < |s.log| ==> s.log[a].at <= s.log[c].at)
  }

  predicate TimedBy(e: Event, now: Time) {
    && e.at <= now
    && (e.RetryAfter? ==> e.at + OBTAIN_RETRY_MIN <= e.deadline < e.at + OBTAIN_RETRY_MIN + OBTAIN_RETRY_JITTER)
  }

  lemma LogGrows(s: State, step: Step) returns (news: seq<Event>)
    requires CanStep(s, step)
    ensures |news| <= 1 && DoStep(s, step).log == s.log + news
    ensures news != [] ==> news[0].at == s.now && TimedBy(news[0], s.now)
    ensures s.now <= DoStep(s, step).now
  {
    news := DoStep(s, step).log[|s.log|..];
  }

  lemma StepKeepsClock(s: State, step: Step)
    requires ClockSound(s) && CanStep(s, step)
    ensures ClockSound(DoStep(s, step))
  {
    var news := LogGrows(s, step);
    var s' := DoStep(s, step);
    forall a | 0 <= a < |s'.log| ensures TimedBy(s'.log[a], s'.now) {
      if a < |s.log| { assert TimedBy(s.log[a], s.now); }
    }
    forall a, c | 0 <= a < c < |s'.log| ensures s'.log[a].at <= s'.log[c].at {
      assert TimedBy(s.log[a], s.now);
    }
  }

  /** Some deadline for the name is logged that is later than `at`. */
  predicate BackingOff(log: seq<Event>, n: Name, at: Time) {
    exists c :: 0 <= c < |log| && SetsDeadline(log[c], n) && log[c].deadline > at
  }

  predicate SetsDeadline(e: Event, n: Name) {
    e.RetryAfter? && e.name == n
  }

  /** Every retry entry of the table is a logged deadline. */
  ghost predicate RetriesLogged(s: State) {
    forall n :: n in s.table.retry ==> LoggedDeadline(s.log, n, s.table.retry[n])
  }

  predicate LoggedDeadline(log: seq<Event>, n: Name, d: Time) {
    exists c :: 0 <= c < |log| && SetsDeadline(log[c], n) && log[c].deadline == d
  }

  lemma LoggedStays(log: seq<Event>, news: seq<Event>, n: Name, d: Time)
    requires LoggedDeadline(log, n, d)
    ensures LoggedDeadline(log + news, n, d)
  {
    var c :| 0 <= c < |log| && SetsDeadline(log[c], n) && log[c].deadline == d;
    assert (log + news)[c] == log[c];
  }

  lemma StepKeepsRetries(s: State, step: Step)
    requires RetriesLogged(s) && CanStep(s, step)
    ensures RetriesLogged(DoStep(s, step))
  {
    var news := LogGrows(s, step);
    var s' := DoStep(s, step);
    forall n | n in s'.table.retry ensures LoggedDeadline(s'.log, n, s'.table.retry[n]) {
      if n in s.table.retry && s.table.retry[n] == s'.table.retry[n] {
        LoggedStays(s.log, news, n, s.table.retry[n]);
      } else {
        assert SetsDeadline(s'.log[|s.log|], n) && s'.log[|s.log|].deadline == s'.table.retry[n];
      }
    }
  }

  // ----- every run -----

  lemma {:induction false} RunSound(run: seq<Step>)
    requires ValidRun(run)
    ensures FlightsSound(After(run)) && BackoffSound(After(run)) && ClockSound(After(run)) && RetriesLogged(After(run))
    decreases |run|
  {
    if run != [] {
      var s := After(run[..|run| - 1]);
      RunSound(run[..|run| - 1]);
      StepKeepsFlights(s, run[|run| - 1]);
      StepKeepsFailures(s, run[|run| - 1]);
      StepKeepsDeadlines(s, run[|run| - 1]);
      StepKeepsStarts(s, run[|run| - 1]);
      StepKeepsClock(s, run[|run| - 1]);
      StepKeepsRetries(s, run[|run| - 1]);
    }
  }

  /** At most one doObtain per name runs at any moment of any run. */
  lemma OneObtainPerName(run: seq<Step>, i: CallId, j: CallId)
    requires ValidRun(run)
    requires var calls := After(run).calls;
             i in calls && j in calls && calls[i].Obtaining? && calls[j].Obtaining? && calls[i].name == calls[j].name
    ensures i == j
  {
    RunSound(run);
  }

  /** A joiner that has returned carries what the doObtain of its flight returned, and its
      flight is one of its own name; a joiner that has not returned can: its channel is closed,
      or its leader is still running. */
  lemma JoinersGetTheirFlight(run: seq<Step>, i: CallId)
    requires ValidRun(run) && i in After(run).calls
    ensures var s := After(run);
            && (s.calls[i].Returned? ==>
                  s.calls[i].flight in s.outcomes && s.calls[i].outcome == s.outcomes[s.calls[i].flight])
            && (s.calls[i].Waiting? ==>
                  s.calls[i].flight in s.flown && s.flown[s.calls[i].flight].name == s.calls[i].name
                  && (CanStep(s, Wake(i)) || LedBy(s, s.calls[i].flight)))
  {
    RunSound(run);
  }

  /** In every run: after a failed doObtain, none starts for that name before a retry deadline
      was set and has passed, which is at least five minutes after the failure. */
  lemma NoStartInsideBackoff(run: seq<Step>, a: nat, b: nat)
    requires ValidRun(run)
    requires var log := After(run).log;
             a < b < |log| && log[a].Failure? && log[b].Started? && log[b].name == log[a].name
    ensures var log := After(run).log;
            && log[b].at >= log[a].at + OBTAIN_RETRY_MIN
            && exists c :: a < c < b && log[c].RetryAfter? && log[c].name == log[a].name && log[c].deadline <= log[b].at
  {
    RunSound(run);
    var log := After(run).log;
    var before := log[..b];
    assert StartAllowed(before, log[b].name, log[b].at);
    assert before[a] == log[a];
    var c :| a < c < |before| && 0 <= c && before[c].RetryAfter? && before[c].name == log[a].name;
    assert before[c] == log[c];
    assert TimedBy(log[c], After(run).now) && log[a].at <= log[c].at;
  }

  /** What an arriving call gets, told by the history: it is refused exactly while a logged deadline
      of its name lies ahead, it waits exactly if a flight of its name is on, and otherwise it
      starts a doObtain itself. A refusal therefore ends, within six minutes of the failure. */
  lemma ArrivalDecided(run: seq<Step>, id: CallId, name: Name)
    requires ValidRun(run) && CanStep(After(run), Arrive(id, name))
    ensures var s := After(run);
            var call := DoStep(s, Arrive(id, name)).calls[id];
            && (call.Refused? <==> BackingOff(s.log, name, s.now))
            && (call.Waiting? <==> name in s.table.flights)
            && (call.Obtaining? <==> name !in s.table.flights && !BackingOff(s.log, name, s.now))
  {
    RunSound(run);
    var s := After(run);
    if BackingOff(s.log, name, s.now) {
      var c :| 0 <= c < |s.log| && SetsDeadline(s.log[c], name) && s.log[c].deadline > s.now;
      assert Guards(s, s.log[c].name, s.log[c].deadline);
    }
    if name in s.table.retry && s.now < s.table.retry[name] {
      assert LoggedDeadline(s.log, name, s.table.retry[name]);
    }
  }

  /** Six minutes after the last failure of a name no call for it is refused. */
  lemma RefusalEnds(run: seq<Step>, id: CallId, name: Name)
    requires ValidRun(run) && CanStep(After(run), Arrive(id, name))
    requires forall c :: 0 <= c < |After(run).log| && SetsDeadline(After(run).log[c], name) ==>
                           After(run).log[c].at + OBTAIN_RETRY_MIN + OBTAIN_RETRY_JITTER <= After(run).now
    ensures !DoStep(After(run), Arrive(id, name)).calls[id].Refused?
  {
    ArrivalDecided(run, id, name);
    RunSound(run);
    var s := After(run);
    forall c | 0 <= c < |s.log| && SetsDeadline(s.log[c], name) ensures s.log[c].deadline <= s.now {
      assert TimedBy(s.log[c], s.now);
    }
  }
}
