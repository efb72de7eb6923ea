/**
 The cooldown gate in front of the alert email. The mail transport is not
 modelled: whether a send succeeds is an input.
 */
module Alert {
  import opened Config

  /** What became of a reading's alert. */
  datatype AlertOutcome =
    | NotAttempted     // the reading was not below the threshold (or was rejected)
    | CooldownActive   // an alert was attempted inside the cooldown window and skipped
    | Sent             // the email went out
    | SendFailed       // the send was attempted and failed

  /**
   One call of the alert sender at clock time `now` (milliseconds): it is
   skipped while fewer than AlertCooldown milliseconds have passed since the
   last successful alert, and otherwise its outcome is that of the send.
   */
  function Attempt(lastAlertTime: int, now: int, mailDelivered: bool): (o: AlertOutcome)
    ensures o != NotAttempted
    ensures o == CooldownActive <==> now - lastAlertTime < AlertCooldown
    ensures o == Sent ==> now >= lastAlertTime + AlertCooldown && mailDelivered
    ensures now - lastAlertTime >= AlertCooldown && mailDelivered ==> o == Sent
  {
    if now - lastAlertTime < AlertCooldown then CooldownActive
    else if mailDelivered then Sent
    else SendFailed
  }

  /** The alert sender's effect on the time of the last alert: only a successful send moves it, to `now`. */
  function AlertTimeAfter(lastAlertTime: int, o: AlertOutcome, now: int): int
  {
    if o == Sent then now else lastAlertTime
  }

  /**
   The gate decision for one accepted reading: only a temperature strictly
   below the threshold leads to an attempt.
   */
  function Gate(temperature: real, lastAlertTime: int, now: int, mailDelivered: bool): (o: AlertOutcome)
    ensures o != NotAttempted <==> temperature < MinTemperatureThreshold
    ensures o == Sent ==> temperature < MinTemperatureThreshold && now - lastAlertTime >= AlertCooldown && mailDelivered
    ensures temperature < MinTemperatureThreshold ==> o == Attempt(lastAlertTime, now, mailDelivered)
  {
    if temperature < MinTemperatureThreshold then Attempt(lastAlertTime, now, mailDelivered) else NotAttempted
  }

  /**
   The time of the last alert never goes backwards, whatever the clock says:
   a successful send moves it forward by at least a whole cooldown, and every
   other outcome leaves it alone.
   */
  lemma GateNeverRewinds(temperature: real, lastAlertTime: int, now: int, mailDelivered: bool)
    ensures var o := Gate(temperature, lastAlertTime, now, mailDelivered);
            var t := AlertTimeAfter(lastAlertTime, o, now);
            && t >= lastAlertTime
            && (t != lastAlertTime ==> t >= lastAlertTime + AlertCooldown && o == Sent && t == now)
            && (o != Sent ==> t == lastAlertTime)
  {
  }
}
