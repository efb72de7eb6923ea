/**
 The ingestion pipeline of the temperature server: POST /api/temperature
 validates the reading, appends it to the bounded history, consults the
 alert gate and broadcasts the reading; GET /api/temperature/history and a
 new real-time connection read the history.

 The specification functions (Step, Run, Connected) describe the server's
 state as a value; the class TemperatureServer holds that state in fields
 that its methods update in place, and each method is proved against them.
 Alert sends complete before the next submission is handled here; the
 module AsyncAlert models sends that overlap.
 */
module Server {
  import opened Config
  import opened History
  import opened Alert

  /** A message pushed to real-time clients. */
  datatype Event =
    | TemperatureUpdate(reading: Reading)         // broadcast to every connected client
    | TemperatureHistory(snapshot: seq<Reading>)  // sent once to a client when it connects

  /** The server's mutable state, as a value; `emitted` is the log of everything broadcast. */
  datatype ServerState = ServerState(history: seq<Reading>, lastAlertTime: int, emitted: seq<Event>)

  /** The state at process start: empty history, no alert yet (time 0), nothing emitted. */
  const Initial: ServerState := ServerState([], 0, [])

  /**
   One POST to /api/temperature: the body's temperature field, the
   timestamp the handler would stamp, the clock when the alert sender runs,
   and whether the alert email would be delivered if it were sent.
   */
  datatype Submission = Submission(field: TemperatureField, timestamp: string, now: int, mailDelivered: bool)

  datatype StepResult = StepResult(state: ServerState, response: Response, alert: AlertOutcome)

  /** The history's capacity invariant. */
  predicate Bounded(st: ServerState) {
    |st.history| <= MaxHistoryLength
  }

  /**
   The effect of one submission. A rejected one changes nothing; an
   accepted one appends its reading to the history and to the broadcast
   log, and moves the last alert time only when its alert was sent.
   */
  function Step(st: ServerState, sub: Submission): (out: StepResult)
    ensures out.response == Accept(sub.field, sub.timestamp)
    ensures Bounded(st) ==> Bounded(out.state)
    ensures sub.field.NotNum? ==> out.state == st && out.alert == NotAttempted
    ensures sub.field.Num? ==>
              && out.state.history == Pushed(st.history, out.response.received)
              && out.state.emitted == st.emitted + [TemperatureUpdate(out.response.received)]
    ensures sub.field.Num? && sub.field.value >= MinTemperatureThreshold ==>
              out.alert == NotAttempted && out.state.lastAlertTime == st.lastAlertTime
    ensures out.state.lastAlertTime >= st.lastAlertTime
    ensures out.state.lastAlertTime != st.lastAlertTime <==> out.alert == Sent
    ensures out.alert == Sent ==>
              && sub.field.Num? && sub.field.value < MinTemperatureThreshold
              && sub.now - st.lastAlertTime >= AlertCooldown
              && sub.mailDelivered
              && out.state.lastAlertTime == sub.now
    ensures sub.field.Num? && sub.field.value < MinTemperatureThreshold ==>
              out.alert == Attempt(st.lastAlertTime, sub.now, sub.mailDelivered)
    ensures sub.field.Num? && sub.field.value < MinTemperatureThreshold && sub.now - st.lastAlertTime >= AlertCooldown ==>
              && (sub.mailDelivered ==> out.alert == Sent && out.state.lastAlertTime == sub.now)
              && (!sub.mailDelivered ==> out.alert == SendFailed && out.state.lastAlertTime == st.lastAlertTime)
    ensures sub.field.Num? && sub.field.value < MinTemperatureThreshold && sub.now - st.lastAlertTime < AlertCooldown ==>
              out.alert == CooldownActive && out.state.lastAlertTime == st.lastAlertTime
  {
    var resp := Accept(sub.field, sub.timestamp);
    match resp
    case Rejected(_, _) => StepResult(st, resp, NotAttempted)
    case Accepted(_, reading) =>
      var alert := Gate(reading.temperature, st.lastAlertTime, sub.now, sub.mailDelivered);
      var next := ServerState(Pushed(st.history, reading),
                              AlertTimeAfter(st.lastAlertTime, alert, sub.now),
                              st.emitted + [TemperatureUpdate(reading)]);
      StepResult(next, resp, alert)
  }

  /** The state after a sequence of submissions, handled one after the other. */
  function Run(st: ServerState, subs: seq<Submission>): ServerState
    decreases |subs|
  {
    if subs == [] then st else Run(Step(st, subs[0]).state, subs[1..])
  }

  /** The clock times at which an alert email was sent during a sequence of submissions. */
  function SentTimes(st: ServerState, subs: seq<Submission>): seq<int>
    decreases |subs|
  {
    if subs == [] then []
    else
      var out := Step(st, subs[0]);
      (if out.alert == Sent then [subs[0].now] else []) + SentTimes(out.state, subs[1..])
  }

  /** The readings the server accepts from a sequence of submissions, in order. */
  function AcceptedReadings(subs: seq<Submission>): (rs: seq<Reading>)
    ensures |rs| <= |subs|
    ensures forall i :: 0 <= i < |rs| ==> rs[i].source == SimulatorSource
    ensures (forall i :: 0 <= i < |subs| ==> subs[i].field.Num?) ==> |rs| == |subs|
    ensures (forall i :: 0 <= i < |subs| ==> subs[i].field.NotNum?) ==> rs == []
    decreases |subs|
  {
    if subs == [] then []
    else
      match Accept(subs[0].field, subs[0].timestamp)
      case Accepted(_, r) => [r] + AcceptedReadings(subs[1..])
      case Rejected(_, _) => AcceptedReadings(subs[1..])
  }

  /** The reading one submission adds to the accepted ones: none when it is rejected. */
  function AcceptedNow(sub: Submission): (rs: seq<Reading>)
    ensures sub.field.Num? ==> rs == [Accept(sub.field, sub.timestamp).received]
    ensures sub.field.NotNum? ==> rs == []
  {
    match Accept(sub.field, sub.timestamp)
    case Accepted(_, r) => [r]
    case Rejected(_, _) => []
  }

  /** Appending the readings of a run to earlier ones, one submission at a time. */
  lemma AcceptedReadingsUnfold(before: seq<Reading>, subs: seq<Submission>)
    requires subs != []
    ensures before + AcceptedReadings(subs) == before + AcceptedNow(subs[0]) + AcceptedReadings(subs[1..])
  {
  }

  lemma RunUnfold(st: ServerState, subs: seq<Submission>)
    requires subs != []
    ensures Run(st, subs) == Run(Step(st, subs[0]).state, subs[1..])
  {
  }

  /** The broadcast messages for a sequence of readings, one update per reading. */
  function Updates(rs: seq<Reading>): (es: seq<Event>)
    ensures |es| == |rs|
    ensures forall i :: 0 <= i < |rs| ==> es[i] == TemperatureUpdate(rs[i])
  {
    if rs == [] then [] else [TemperatureUpdate(rs[0])] + Updates(rs[1..])
  }

  /** The history never holds more than MaxHistoryLength readings, whatever is submitted. */
  lemma {:induction false} RunKeepsBound(st: ServerState, subs: seq<Submission>)
    requires Bounded(st)
    ensures Bounded(Run(st, subs))
    decreases |subs|
  {
    if subs != [] {
      RunKeepsBound(Step(st, subs[0]).state, subs[1..]);
    }
  }

  /** One submission keeps the history equal to the window of the readings accepted so far. */
  lemma StepSlidesWindow(st: ServerState, before: seq<Reading>, sub: Submission)
    requires st.history == LastN(before, MaxHistoryLength)
    ensures Step(st, sub).state.history == LastN(before + AcceptedNow(sub), MaxHistoryLength)
  {
  }

  /**
   If the history is the window of the readings accepted before, then after
   more submissions it is the window of all accepted readings: the last
   min(n, 100) of them, in arrival order. Rejected submissions take no part.
   */
  lemma {:induction false} RunHistoryIsWindow(st: ServerState, before: seq<Reading>, subs: seq<Submission>)
    requires st.history == LastN(before, MaxHistoryLength)
    ensures Run(st, subs).history == LastN(before + AcceptedReadings(subs), MaxHistoryLength)
    decreases |subs|
  {
    if subs != [] {
      var next := Step(st, subs[0]).state;
      var now := AcceptedNow(subs[0]);
      StepSlidesWindow(st, before, subs[0]);
      RunHistoryIsWindow(next, before + now, subs[1..]);
      RunUnfold(st, subs);
      AcceptedReadingsUnfold(before, subs);
    }
  }

  /** From process start, the history is the last min(n, 100) accepted readings in arrival order. */
  lemma HistoryFromStart(subs: seq<Submission>)
    ensures Run(Initial, subs).history == LastN(AcceptedReadings(subs), MaxHistoryLength)
    ensures |Run(Initial, subs).history| <= MaxHistoryLength
  {
    RunHistoryIsWindow(Initial, [], subs);
    assert [] + AcceptedReadings(subs) == AcceptedReadings(subs);
  }

  /**
   Every accepted reading is broadcast exactly once, in acceptance order,
   and nothing else is broadcast by submissions.
   */
  lemma {:induction false} RunBroadcastsInOrder(st: ServerState, subs: seq<Submission>)
    ensures Run(st, subs).emitted == st.emitted + Updates(AcceptedReadings(subs))
    decreases |subs|
  {
    if subs != [] {
      var next := Step(st, subs[0]).state;
      RunBroadcastsInOrder(next, subs[1..]);
      match Accept(subs[0].field, subs[0].timestamp)
      case Accepted(_, r) =>
        assert Updates([r] + AcceptedReadings(subs[1..]))
            == [TemperatureUpdate(r)] + Updates(AcceptedReadings(subs[1..]));
      case Rejected(_, _) =>
    }
  }

  /** The last alert time never decreases, whatever clock values the submissions carry. */
  lemma {:induction false} RunAlertTimeMonotone(st: ServerState, subs: seq<Submission>)
    ensures Run(st, subs).lastAlertTime >= st.lastAlertTime
    decreases |subs|
  {
    if subs != [] {
      RunAlertTimeMonotone(Step(st, subs[0]).state, subs[1..]);
    }
  }

  /** Readings at or above the threshold (and rejected submissions) never move the last alert time. */
  lemma {:induction false} WarmReadingsNeverAlert(st: ServerState, subs: seq<Submission>)
    requires forall i :: 0 <= i < |subs| ==> subs[i].field.NotNum? || subs[i].field.value >= MinTemperatureThreshold
    ensures Run(st, subs).lastAlertTime == st.lastAlertTime
    ensures SentTimes(st, subs) == []
    decreases |subs|
  {
    if subs != [] {
      WarmReadingsNeverAlert(Step(st, subs[0]).state, subs[1..]);
    }
  }

  /**
   Rate limit: every alert is sent at least a cooldown after the last alert
   before the run, and any two alerts sent during a run are at least a
   cooldown apart, in the order they were sent.
   */
  lemma {:induction false} AlertsAreSpaced(st: ServerState, subs: seq<Submission>)
    ensures forall i :: 0 <= i < |SentTimes(st, subs)| ==> SentTimes(st, subs)[i] >= st.lastAlertTime + AlertCooldown
    ensures forall i, j :: 0 <= i < j < |SentTimes(st, subs)| ==> SentTimes(st, subs)[j] >= SentTimes(st, subs)[i] + AlertCooldown
    decreases |subs|
  {
    if subs != [] {
      var out := Step(st, subs[0]);
      var rest := SentTimes(out.state, subs[1..]);
      AlertsAreSpaced(out.state, subs[1..]);
      assert SentTimes(st, subs) == (if out.alert == Sent then [subs[0].now] else []) + rest;
    }
  }

  /**
   The 10-minute scenario: starting from process start at wall-clock time
   t0, a 10.0 degree reading alerts, an 8.0 degree reading one minute later
   does not, and a 5.0 degree reading eleven minutes after the first alerts
   again (every send succeeding).
   */
  lemma CooldownScenario(t0: int, ts0: string, ts1: string, ts2: string)
    requires t0 >= AlertCooldown
    ensures SentTimes(Initial, [Submission(Num(10.0), ts0, t0, true),
                                Submission(Num(8.0), ts1, t0 + 60000, true),
                                Submission(Num(5.0), ts2, t0 + 660000, true)]) == [t0, t0 + 660000]
  {
    var subs := [Submission(Num(10.0), ts0, t0, true),
                 Submission(Num(8.0), ts1, t0 + 60000, true),
                 Submission(Num(5.0), ts2, t0 + 660000, true)];
    var s1 := Step(Initial, subs[0]).state;
    var s2 := Step(s1, subs[1]).state;
    assert subs[1..][1..] == [subs[2]];
    assert SentTimes(s2, [subs[2]]) == [t0 + 660000];
  }

  /**
   A real-time client connects: it alone is sent the current history, and
   nothing else about the server changes.
   */
  function Connected(st: ServerState): (st': ServerState)
    ensures st'.history == st.history && st'.lastAlertTime == st.lastAlertTime
    ensures st'.emitted == st.emitted + [TemperatureHistory(st.history)]
  {
    st.(emitted := st.emitted + [TemperatureHistory(st.history)])
  }

  /**
   A client that connects after some submissions from process start first
   receives the history, the last (at most 100) readings accepted so far,
   then exactly the next accepted reading as a separate update, with nothing
   duplicated or lost in between.
   */
  lemma LateSubscriberSeesSnapshotThenUpdate(subs: seq<Submission>, next: Submission)
    requires next.field.Num?
    ensures var before := Run(Initial, subs);
            var out := Step(Connected(before), next);
            out.state.emitted == before.emitted + [TemperatureHistory(LastN(AcceptedReadings(subs), MaxHistoryLength)),
                                                   TemperatureUpdate(out.response.received)]
  {
    HistoryFromStart(subs);
  }

  /** The server object: module-level state of the source, owned by one instance. */
  class TemperatureServer {
    var history: seq<Reading>
    var lastAlertTime: int
    var emitted: seq<Event>

    ghost function State(): ServerState
      reads this
    {
      ServerState(history, lastAlertTime, emitted)
    }

    ghost predicate Valid()
      reads this
    {
      Bounded(State())
    }

    constructor ()
      ensures Valid() && State() == Initial
    {
      history := [];
      lastAlertTime := 0;
      emitted := [];
    }

    /**
     The alert sender: skipped during the cooldown, otherwise the email is
     sent and only a successful send records `now` as the last alert time.
     */
    method SendTemperatureAlert(now: int, mailDelivered: bool) returns (outcome: AlertOutcome)
      modifies this`lastAlertTime
      ensures outcome == Attempt(old(lastAlertTime), now, mailDelivered)
      ensures lastAlertTime == AlertTimeAfter(old(lastAlertTime), outcome, now)
    {
      if now - lastAlertTime < AlertCooldown {
        return CooldownActive;
      }
      if mailDelivered {
        outcome := Sent;
        lastAlertTime := now;
      } else {
        outcome := SendFailed;
      }
    }

    /** POST /api/temperature. */
    method Submit(field: TemperatureField, timestamp: string, now: int, mailDelivered: bool)
      returns (response: Response, alert: AlertOutcome)
      requires Valid()
      modifies this
      ensures Valid()
      ensures var out := Step(old(State()), Submission(field, timestamp, now, mailDelivered));
              State() == out.state && response == out.response && alert == out.alert
    {
      if !field.Num? {
        return Rejected(400, InvalidTemperatureMessage), NotAttempted;
      }
      var temperature := field.value;
      var reading := Reading(temperature, timestamp, SimulatorSource);

      history := history + [reading];
      if |history| > MaxHistoryLength {
        history := history[1..];
      }

      alert := NotAttempted;
      if temperature < MinTemperatureThreshold {
        alert := SendTemperatureAlert(now, mailDelivered);
      }

      emitted := emitted + [TemperatureUpdate(reading)];
      response := Accepted("success", reading);
    }

    /** GET /api/temperature/history: the current history, without changing anything. */
    method GetHistory() returns (snapshot: seq<Reading>)
      requires Valid()
      ensures snapshot == history && |snapshot| <= MaxHistoryLength
    {
      snapshot := history;
    }

    /** A real-time client connects: it is sent the current history as one message. */
    method Connect()
      modifies this`emitted
      ensures State() == Connected(old(State()))
    {
      emitted := emitted + [TemperatureHistory(history)];
    }
  }
}
