/**
 Constants, readings and the request/response shapes of the temperature
 monitoring server: what a POST to /api/temperature carries, what it
 answers, and what GET /api/config reports.
 */
module Config {

  /** Readings strictly below this temperature (degrees Celsius) trigger an alert attempt. */
  const MinTemperatureThreshold: real := 15.0

  /** The history keeps at most this many readings. */
  const MaxHistoryLength: nat := 100

  /** Minimum spacing between two alert emails, in milliseconds (10 minutes). */
  const AlertCooldown: int := 10 * 60 * 1000

  /** Source label the POST handler stamps on every reading it accepts. */
  const SimulatorSource: string := "simulator"

  /** Body of the 400 answer to a request whose temperature is not a number. */
  const InvalidTemperatureMessage: string := "Invalid temperature data"

  /** A reading as the server stores and broadcasts it; the timestamp is an opaque ISO-8601 string. */
  datatype Reading = Reading(temperature: real, timestamp: string, source: string)

  /** The `temperature` field of a request body: a JSON number, or anything else (missing, a string, ...). */
  datatype TemperatureField = Num(value: real) | NotNum

  /** The answer of POST /api/temperature. */
  datatype Response =
    | Accepted(status: string, received: Reading)
    | Rejected(httpStatus: nat, error: string)

  /**
   Validation and construction of the reading: a numeric temperature is
   accepted unchanged and labelled as coming from the simulator, anything
   else is answered with 400 "Invalid temperature data".
   */
  function Accept(field: TemperatureField, timestamp: string): (resp: Response)
    ensures resp.Accepted? <==> field.Num?
    ensures resp.Accepted? ==>
              && resp.status == "success"
              && resp.received.temperature == field.value
              && resp.received.timestamp == timestamp
              && resp.received.source == SimulatorSource
    ensures resp.Rejected? ==> resp.httpStatus == 400 && resp.error == InvalidTemperatureMessage
  {
    match field
    case NotNum => Rejected(400, InvalidTemperatureMessage)
    case Num(t) => Accepted("success", Reading(t, timestamp, SimulatorSource))
  }

  /** The body of GET /api/config; the cooldown is given in minutes. */
  datatype ConfigView = ConfigView(minTemperatureThreshold: real, maxHistoryLength: nat, alertCooldown: real)

  /**
   The configuration projection: the threshold and the capacity as they are,
   the cooldown converted from milliseconds to minutes.
   */
  function ConfigProjection(): (c: ConfigView)
    ensures c.minTemperatureThreshold == 15.0
    ensures c.maxHistoryLength == 100
    ensures c.alertCooldown == 10.0
    ensures c.alertCooldown * 60.0 * 1000.0 == AlertCooldown as real
  {
    ConfigView(MinTemperatureThreshold, MaxHistoryLength, AlertCooldown as real / 1000.0 / 60.0)
  }
}
