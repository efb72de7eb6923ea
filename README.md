# Temperature monitoring server: ingestion and alerting model

This project models the core of a small Node.js server that receives water
temperature readings over HTTP. The server keeps the last 100 readings in
memory and pushes each one to connected real-time clients. It sends a
rate-limited email alert when a reading falls below 15 °C.

The model covers:

- `POST /api/temperature`. A numeric `temperature` is accepted, stamped with
  a timestamp and the source label `"simulator"`, appended to the history,
  checked against the alert threshold and broadcast as a `temperatureUpdate`.
  Anything else gets 400 `"Invalid temperature data"` and changes nothing.
- The bounded history. A push, then a shift when the length exceeds 100.
- The alert sender and its cooldown. An attempt is skipped while fewer than
  600000 ms have passed since `lastAlertTime`. Only a successful send sets
  `lastAlertTime` to the current time.
- `GET /api/temperature/history`, `GET /api/config`, and the history snapshot
  a real-time client receives when it connects.

Layout:

- `config.dfy` (module `Config`): the constants, `Reading`, the request field,
  the response, validation (`Accept`) and the config projection.
- `history.dfy` (module `History`): `Pushed` (push then shift) and the
  reference window `LastN`.
- `alert.dfy` (module `Alert`): the cooldown gate as functions.
- `server.dfy` (module `Server`): the server state as a value (`ServerState`),
  one submission (`Step`), a run of submissions (`Run`, `SentTimes`) and the
  lemmas about runs. It also holds the class `TemperatureServer`. The class
  keeps the module-level variables of `server.js` as fields that its methods
  update in place. `Submit` and `Connect` are proved to produce exactly the
  state that `Step` and `Connected` give. `SendTemperatureAlert` is proved
  against `Attempt` and `AlertTimeAfter`. `GetHistory` returns the history
  field unchanged.
- `async_alert.dfy` (module `AsyncAlert`): the alert sender when sends
  overlap. The cooldown check runs when a low reading arrives, and
  `lastAlertTime` is written when the mail transport settles. It holds the
  sender as written, two counterexamples, and a corrected sender with its
  rate limit proved for every interleaving.

The clock (`Date.now()`), the timestamp string and the outcome of the mail
transport are inputs of the model. Temperatures are `real`. The only use of
the value is `< 15`. JSON cannot express NaN. An out-of-range literal such
as `1e400` does parse to ±Infinity, which the model does not represent (see
"## Left out").

Behaviour as written in `server.js`, which the model follows:

- `lastAlertTime` starts at 0, not at "no alert yet". So the first low
  reading alerts only when the clock reads at least 600000 ms. Any
  wall-clock time after 1970-01-01T00:10Z does. `CooldownScenario` therefore
  starts at such a time `t0`.
- The cooldown check and the update of `lastAlertTime` are not one atomic
  step. The update happens only after the mail send completes. The module
  `Server` handles submissions sequentially: each submission's send
  finishes before the next submission. The module `AsyncAlert` drops that
  assumption and shows what goes wrong (see "## Findings").
- Accepted readings are labelled `"simulator"`.
- Line 34 calls `nodemailer.createTransporter`. Nodemailer's factory is
  named `createTransport`, so as written the module would fail when it
  loads. The model assumes a working mail transporter: its outcome is the
  `mailDelivered` input.

## Model

| member | source | states |
|---|---|---|
| `Config.Accept` | server.js:116-128 | A numeric temperature is accepted and anything else is rejected (both directions). The accepted reading has the submitted temperature unchanged, the given timestamp, source "simulator" and status "success". A rejection is 400 with "Invalid temperature data". |
| `Config.ConfigProjection` | server.js:153-158 | The config reports threshold 15 and capacity 100. It reports the cooldown as 10 minutes, which converts back to the 600000 ms constant. |
| `History.Pushed` | server.js:131-134 | The new reading ends the history. Below capacity it is a plain append. At exactly 100 the oldest reading is dropped. A history within capacity stays within capacity. |
| `History.PushedSlidesWindow` | server.js:131-134 | Pushing onto the last-100 window of the readings so far gives the last-100 window of the readings with the new one appended. |
| `History.PushedKeepsReadings` | server.js:131-134 | A reading already in the history is still there after a push, at the same place or one place nearer the front when the history was full. |
| `Alert.Attempt` | server.js:47-77 | The alert is skipped exactly when fewer than 600000 ms have passed since the last alert. It is sent only after the cooldown and with a successful send, and always is then. |
| `Alert.Gate` | server.js:137-139 | An attempt happens if and only if the temperature is strictly below 15, so a reading of exactly 15 never alerts. Below 15 the outcome is exactly that of the alert sender (`Attempt`). |
| `Alert.GateNeverRewinds` | server.js:70-76 | The last alert time never decreases. It changes only on a successful send, to `now`, and then moves forward by at least a full cooldown. |
| `Server.Step` | server.js:115-145 | A rejected submission leaves history, last alert time and broadcast log unchanged. An accepted one pushes its reading and broadcasts it once. Readings at 15 or above never move the last alert time. A reading below 15 is handled by the alert sender. Inside the cooldown it is skipped and the time is kept. After the cooldown a delivered email is Sent and sets the last alert time to `now`, and a failed send keeps the time. The last alert time changes exactly when an email was sent. The capacity bound is preserved. |
| `Server.AcceptedReadings` | server.js:118-128 | Over a sequence of submissions, every accepted reading carries source "simulator". When every temperature is a number, all are accepted. When none is, nothing is accepted. |
| `Server.RunKeepsBound` | server.js:131-134 | After any sequence of submissions, valid or not, the history holds at most 100 readings. |
| `Server.RunHistoryIsWindow` | server.js:131-134 | After any sequence of submissions the history is the last 100 of all accepted readings, in arrival order. Rejected submissions take no part. |
| `Server.HistoryFromStart` | server.js:30-31 | From process start, the history is the last min(n, 100) accepted readings in arrival order. |
| `Server.RunBroadcastsInOrder` | server.js:142 | Each accepted reading is broadcast exactly once, in acceptance order. Submissions broadcast nothing else. |
| `Server.RunAlertTimeMonotone` | server.js:70-76 | Over any sequence of submissions the last alert time never decreases, whatever clock values are supplied. |
| `Server.WarmReadingsNeverAlert` | server.js:137-139 | Submissions that are rejected or at or above 15 never send an alert and never change the last alert time. |
| `Server.AlertsAreSpaced` | server.js:51-54 | Every alert in a run comes at least 600000 ms after the last alert before the run. Any two alerts in a run are at least 600000 ms apart. |
| `Server.CooldownScenario` | server.js:43-54 | With every send succeeding: 10.0 °C at t0 alerts, 8.0 °C one minute later does not, and 5.0 °C eleven minutes after t0 alerts again. |
| `Server.Connected` | server.js:171 | A connecting client is sent the current history. History and last alert time are unchanged. |
| `Server.LateSubscriberSeesSnapshotThenUpdate` | server.js:167-176 | A client connecting after any submissions first gets the last (at most 100) accepted readings as the snapshot. It then gets exactly the next accepted reading as one update. |
| `Server.TemperatureServer.constructor` | server.js:30-43 | At process start the history is empty, the last alert time is 0 and nothing has been emitted. |
| `Server.TemperatureServer.SendTemperatureAlert` | server.js:47-77 | The in-place alert sender returns the gate's outcome. It sets `lastAlertTime` to `now` only on a successful send. |
| `Server.TemperatureServer.Submit` | server.js:115-145 | The in-place POST handler keeps the capacity invariant. Its new state, response and alert outcome are exactly those of `Step`. |
| `Server.TemperatureServer.GetHistory` | server.js:148-150 | Reading the history returns it as it is, at most 100 readings, and changes nothing. |
| `Server.TemperatureServer.Connect` | server.js:171 | The in-place connect handler changes the state exactly as `Connected` does. |
| `AsyncAlert.Begin` | server.js:48-54 | On a low reading the cooldown check runs against the current last alert time. Inside the cooldown nothing changes. Otherwise a send starts, stamped with `now`. The last alert time is not touched. |
| `AsyncAlert.Settle` | server.js:70-76 | When a send settles it leaves the in-flight list. If delivered, its `now` becomes the last alert time and an email is recorded. If it failed, the last alert time is kept. |
| `AsyncAlert.SettledAtOnceMatchesGate` | server.js:47-77 | When the send settles before anything else happens, the two-phase sender gives the same last alert time and email as the sequential gate `Attempt`/`AlertTimeAfter`. |
| `AsyncAlert.OverlappingSendsBothDeliver` | server.js:51-73 | Two low readings at the same time t, both arriving before the first send settles, both pass the cooldown check and send two emails. |
| `AsyncAlert.OutOfOrderSettleRewinds` | server.js:70-76 | Two sends settling in reverse order set the last alert time to t + 1 and then back to t. |
| `AsyncAlert.GuardedBegin` | server.js:48-54 | Corrected check: a low reading starts a send only when none is in flight and the cooldown has passed. |
| `AsyncAlert.GuardedHandleKeepsRateLimit` | server.js:47-77 | One event of the corrected sender keeps the rate-limit invariant and does not decrease the last alert time. |
| `AsyncAlert.GuardedRunRateLimited` | server.js:47-77 | For every interleaving of low readings and settling sends, and any clock values, the corrected sender keeps the rate limit. Its last alert time never decreases. |
| `AsyncAlert.GuardedEmailsSpaced` | server.js:42-44 | From process start, any two emails of the corrected sender are at least 600000 ms apart, for every interleaving. |
| `AsyncAlert.GuardedSettledAtOnceMatchesGate` | server.js:47-77 | When sends settle at once, the corrected sender agrees with the sequential gate that the POST handler model uses. |

## Findings

| source | as written | input that shows it | evidently intended | confidence | as-written member | corrected member |
|---|---|---|---|---|---|---|
| server.js:51-73 | The cooldown check (line 51) runs when a low reading arrives. `lastAlertTime` is written only after `await transporter.sendMail` resolves (line 73). A low reading arriving while a send is in flight passes the check. | Two readings below 15 at the same time t ≥ 600000, the second before the first send settles, both sends delivered: two emails at t. | At most one alert email per 10-minute cooldown ("avoid spam", line 42). | medium, not executed | `AsyncAlert.OverlappingSendsBothDeliver` | `AsyncAlert.GuardedEmailsSpaced` |
| server.js:70-76 | Each settled send writes its own `now` to `lastAlertTime`, whatever was written since. | Low readings at t and t + 1 both start sends, and the later send settles first: `lastAlertTime` goes to t + 1, then back to t. | The last alert time never decreases. | medium, not executed | `AsyncAlert.OutOfOrderSettleRewinds` | `AsyncAlert.GuardedRunRateLimited` |

The POST handler model in `Server` runs each send to completion before the
next submission. In that setting the corrected sender and the sender as
written agree with the sequential gate (`GuardedSettledAtOnceMatchesGate`,
`SettledAtOnceMatchesGate`). So `Step` describes the corrected behaviour.

## Left out

- Express routing, CORS, JSON body parsing and static file serving (`GET /`). These are framework plumbing. The request body is reduced to its `temperature` field.
- Socket.io delivery. Emitted `temperatureUpdate` and `temperatureHistory` messages go to one abstract log. Per-client delivery, disconnects and delivery failures are not modelled.
- Nodemailer, the email's HTML body (`toFixed`, `toLocaleString`) and the console logging. Mail delivery is a boolean input. For that reason `SendTemperatureAlert` takes no temperature: the source uses it only in the email text.
- The asynchronous gap between the cooldown check and the `lastAlertTime` update appears only in the alert sender model `AsyncAlert`. The POST handler model `Server` (history, broadcast, response) runs each submission and its send to completion.
- Timestamp generation (`new Date().toISOString()`) and the clock (`Date.now()`). Both are inputs.
- `Config.Accept`: does not model ±Infinity. `JSON.parse` turns an out-of-range literal such as `1e400` into `Infinity` (or `-Infinity`). `typeof` then says `"number"`, so line 118 accepts it, and `-Infinity` below 15 triggers an alert attempt. The stored reading later serialises with `"temperature": null`. A `Num(real)` cannot hold these values. Their comparison with 15 behaves like that of a very large positive or negative real.
- Other floating-point behaviour of temperatures. Temperatures are exact reals, and NaN cannot arrive through JSON.
- `Server.AlertsAreSpaced`: holds only when each alert send settles before the next low reading is handled, as in the sequential `Server` model. With overlapping sends the running program can send two emails within a cooldown (`AsyncAlert.OverlappingSendsBothDeliver`).
- `Server.RunAlertTimeMonotone`: holds only in the same sequential setting. Sends that overlap and settle out of order can move `lastAlertTime` backwards (`AsyncAlert.OutOfOrderSettleRewinds`).
- The commented-out Arduino handler. It is dead code.
- `server.listen` and SIGINT shutdown. These are process lifecycle.
- temperature-simulator.js. It is a random reading generator that calls the POST endpoint. Its effect on the server is covered by arbitrary sequences of submissions.
