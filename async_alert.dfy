/**
 The alert sender when sends overlap. The cooldown check and the start of
 the send happen when a low reading arrives; the last alert time is
 written only when the mail transport settles, possibly after later
 readings have been handled. A send that is started and not yet settled
 is "in flight".
 */
module AsyncAlert {
  import opened Config
  import opened Alert

  /**
   The sender's state: the last alert time, the clock times of the sends
   in flight, and the clock times of the emails that went out.
   */
  datatype SenderState = SenderState(lastAlertTime: int, inFlight: seq<int>, delivered: seq<int>)

  /** At process start: last alert time 0, nothing in flight, nothing sent. */
  const Start: SenderState := SenderState(0, [], [])

  /**
   What the sender sees: a reading below the threshold arriving at clock
   time `now`, or the mail transport settling the in-flight send at
   position `index`, delivered or failed.
   */
  datatype SenderEvent = ColdReading(now: int) | SendSettled(index: nat, ok: bool)

  /**
   The part of the alert sender that runs when a low reading arrives: the
   cooldown check, then the send is handed to the transport. The last
   alert time is not touched.
   */
  function Begin(s: SenderState, now: int): (s': SenderState)
    ensures s'.lastAlertTime == s.lastAlertTime && s'.delivered == s.delivered
    ensures now - s.lastAlertTime < AlertCooldown ==> s' == s
    ensures now - s.lastAlertTime >= AlertCooldown ==> s'.inFlight == s.inFlight + [now]
  {
    if now - s.lastAlertTime < AlertCooldown then s else s.(inFlight := s.inFlight + [now])
  }

  /**
   The send at `index` settles: it leaves the in-flight list and, when it
   was delivered, its start time becomes the last alert time. An index
   with no send in flight changes nothing.
   */
  function Settle(s: SenderState, index: nat, ok: bool): (s': SenderState)
    ensures index >= |s.inFlight| ==> s' == s
    ensures index < |s.inFlight| ==>
              && s'.inFlight == s.inFlight[..index] + s.inFlight[index + 1..]
              && (ok ==> s'.lastAlertTime == s.inFlight[index] && s'.delivered == s.delivered + [s.inFlight[index]])
              && (!ok ==> s'.lastAlertTime == s.lastAlertTime && s'.delivered == s.delivered)
  {
    if index >= |s.inFlight| then s
    else
      var t := s.inFlight[index];
      var rest := s.inFlight[..index] + s.inFlight[index + 1..];
      if ok then SenderState(t, rest, s.delivered + [t]) else s.(inFlight := rest)
  }

  /** The sender as server.js has it: any number of sends may be in flight. */
  function Handle(s: SenderState, e: SenderEvent): SenderState
  {
    match e
    case ColdReading(now) => Begin(s, now)
    case SendSettled(i, ok) => Settle(s, i, ok)
  }

  function RunEvents(s: SenderState, es: seq<SenderEvent>): SenderState
    decreases |es|
  {
    if es == [] then s else RunEvents(Handle(s, es[0]), es[1..])
  }

  /**
   When every send settles before the next low reading arrives, the sender
   as written behaves exactly like the sequential gate: the same last alert
   time, and one delivered email exactly when the gate says Sent.
   */
  lemma SettledAtOnceMatchesGate(last: int, delivered: seq<int>, now: int, ok: bool)
    ensures var s := RunEvents(SenderState(last, [], delivered), [ColdReading(now), SendSettled(0, ok)]);
            var o := Attempt(last, now, ok);
            && s.lastAlertTime == AlertTimeAfter(last, o, now)
            && s.inFlight == []
            && s.delivered == delivered + (if o == Sent then [now] else [])
  {
    var s0 := SenderState(last, [], delivered);
    var es := [ColdReading(now), SendSettled(0, ok)];
    var s1 := Handle(s0, es[0]);
    var s2 := Handle(s1, es[1]);
    assert es[1..] == [SendSettled(0, ok)];
    assert RunEvents(s0, es) == RunEvents(s1, [SendSettled(0, ok)]) == RunEvents(s2, []);
  }

  /**
   Two low readings at the same clock time, both arriving before the first
   send settles, both pass the cooldown check: two alert emails go out for
   the same instant.
   */
  lemma OverlappingSendsBothDeliver(t: int)
    requires t >= AlertCooldown
    ensures RunEvents(Start, [ColdReading(t), ColdReading(t), SendSettled(0, true), SendSettled(0, true)]).delivered
            == [t, t]
  {
    var es := [ColdReading(t), ColdReading(t), SendSettled(0, true), SendSettled(0, true)];
    var s1 := Handle(Start, es[0]);
    var s2 := Handle(s1, es[1]);
    assert s2.inFlight == [t, t];
    var s3 := Handle(s2, es[2]);
    assert s3.inFlight == [t] && s3.delivered == [t];
    var s4 := Handle(s3, es[3]);
    assert s4.delivered == [t, t];
    assert es[1..] == es[1..4] && es[1..][1..] == es[2..4] && es[2..4][1..] == es[3..4] && es[3..4][1..] == [];
    assert RunEvents(Start, es) == RunEvents(s1, es[1..4]) == RunEvents(s2, es[2..4])
        == RunEvents(s3, es[3..4]) == RunEvents(s4, []);
  }

  /**
   Sends that settle out of order move the last alert time backwards:
   after the later send settles the last alert time is t + 1, and the
   earlier send settling afterwards sets it back to t.
   */
  lemma OutOfOrderSettleRewinds(t: int)
    requires t >= AlertCooldown
    ensures var es := [ColdReading(t), ColdReading(t + 1), SendSettled(1, true), SendSettled(0, true)];
            && RunEvents(Start, es[..3]).lastAlertTime == t + 1
            && RunEvents(Start, es).lastAlertTime == t
  {
    var es := [ColdReading(t), ColdReading(t + 1), SendSettled(1, true), SendSettled(0, true)];
    var s1 := Handle(Start, es[0]);
    var s2 := Handle(s1, es[1]);
    assert s2.inFlight == [t, t + 1];
    var s3 := Handle(s2, es[2]);
    assert s3.lastAlertTime == t + 1 && s3.inFlight == [t];
    var s4 := Handle(s3, es[3]);
    assert s4.lastAlertTime == t;
    var pre := es[..3];
    assert pre[1..] == es[1..3] && es[1..3][1..] == es[2..3] && es[2..3][1..] == [];
    assert RunEvents(Start, pre) == RunEvents(s1, es[1..3]) == RunEvents(s2, es[2..3]) == RunEvents(s3, []);
    assert es[1..] == es[1..4] && es[1..][1..] == es[2..4] && es[2..4][1..] == es[3..4] && es[3..4][1..] == [];
    assert RunEvents(Start, es) == RunEvents(s1, es[1..4]) == RunEvents(s2, es[2..4])
        == RunEvents(s3, es[3..4]) == RunEvents(s4, []);
  }

  /**
   The corrected sender: a low reading starts a send only when no send is
   in flight and the cooldown has passed since the last alert.
   */
  function GuardedBegin(s: SenderState, now: int): (s': SenderState)
    ensures s'.lastAlertTime == s.lastAlertTime && s'.delivered == s.delivered
    ensures |s.inFlight| == 0 && now - s.lastAlertTime >= AlertCooldown ==> s'.inFlight == [now]
    ensures |s.inFlight| > 0 || now - s.lastAlertTime < AlertCooldown ==> s' == s
  {
    if |s.inFlight| > 0 || now - s.lastAlertTime < AlertCooldown then s else s.(inFlight := [now])
  }

  function GuardedHandle(s: SenderState, e: SenderEvent): SenderState
  {
    match e
    case ColdReading(now) => GuardedBegin(s, now)
    case SendSettled(i, ok) => Settle(s, i, ok)
  }

  function GuardedRun(s: SenderState, es: seq<SenderEvent>): SenderState
    decreases |es|
  {
    if es == [] then s else GuardedRun(GuardedHandle(s, es[0]), es[1..])
  }

  /**
   The rate limit as a state invariant: at most one send in flight, started
   at least a cooldown after the last alert; every email sent is no later
   than the last alert time; emails went out at least a cooldown apart.
   */
  ghost predicate RateLimited(s: SenderState)
  {
    && |s.inFlight| <= 1
    && (forall k :: 0 <= k < |s.inFlight| ==> s.inFlight[k] >= s.lastAlertTime + AlertCooldown)
    && (forall i :: 0 <= i < |s.delivered| ==> s.delivered[i] <= s.lastAlertTime)
    && (forall i, j :: 0 <= i < j < |s.delivered| ==> s.delivered[j] >= s.delivered[i] + AlertCooldown)
  }

  /** One event of the corrected sender keeps the rate limit and never rewinds the last alert time. */
  lemma GuardedHandleKeepsRateLimit(s: SenderState, e: SenderEvent)
    requires RateLimited(s)
    ensures RateLimited(GuardedHandle(s, e))
    ensures GuardedHandle(s, e).lastAlertTime >= s.lastAlertTime
  {
  }

  /**
   Whatever the interleaving of low readings and settling sends, and
   whatever clock values arrive, the corrected sender keeps the rate limit
   and its last alert time never decreases.
   */
  lemma {:induction false} GuardedRunRateLimited(s: SenderState, es: seq<SenderEvent>)
    requires RateLimited(s)
    ensures RateLimited(GuardedRun(s, es))
    ensures GuardedRun(s, es).lastAlertTime >= s.lastAlertTime
    decreases |es|
  {
    if es != [] {
      GuardedHandleKeepsRateLimit(s, es[0]);
      GuardedRunRateLimited(GuardedHandle(s, es[0]), es[1..]);
    }
  }

  /**
   From process start, any two alert emails of the corrected sender are at
   least a cooldown apart, for every interleaving.
   */
  lemma GuardedEmailsSpaced(es: seq<SenderEvent>)
    ensures var d := GuardedRun(Start, es).delivered;
            forall i, j :: 0 <= i < j < |d| ==> d[j] >= d[i] + AlertCooldown
  {
    GuardedRunRateLimited(Start, es);
  }

  /**
   When every send settles before the next low reading arrives, the
   corrected sender agrees with the sequential gate, which is the one the
   POST handler model uses.
   */
  lemma GuardedSettledAtOnceMatchesGate(last: int, delivered: seq<int>, now: int, ok: bool)
    ensures var s := GuardedRun(SenderState(last, [], delivered), [ColdReading(now), SendSettled(0, ok)]);
            var o := Attempt(last, now, ok);
            && s.lastAlertTime == AlertTimeAfter(last, o, now)
            && s.inFlight == []
            && s.delivered == delivered + (if o == Sent then [now] else [])
  {
    var s0 := SenderState(last, [], delivered);
    var es := [ColdReading(now), SendSettled(0, ok)];
    var s1 := GuardedHandle(s0, es[0]);
    var s2 := GuardedHandle(s1, es[1]);
    assert es[1..] == [SendSettled(0, ok)];
    assert GuardedRun(s0, es) == GuardedRun(s1, [SendSettled(0, ok)]) == GuardedRun(s2, []);
  }
}
