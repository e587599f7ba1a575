/**
 * The tax-register devices as the stages reach them: the device address table
 * (`config.devices`), the PIN secret and the HTTP exchanges. A device's answers
 * are an input: a transport failure or timeout is an answer that throws.
 */
module Device {
  import opened Wrappers
  import opened Json

  datatype HttpRequest =
    | PostText(url: string, text: string)
    | PostJson(url: string, body: Json)
    | Get(url: string)

  /** An axios call either throws (transport error, timeout, non-2xx status) or yields `response.data`. */
  datatype HttpResult = Threw(message: string) | Answered(data: Json)

  /** How the devices answer `request` when it is sent while processing the record with the given relevant number. */
  type Network = (string, HttpRequest) -> HttpResult

  /** The only reply of the PIN endpoint that counts as a verified PIN. */
  const PinSuccess: string := "0100"

  /** `process.env.PIN || '0000'` (stage 1) and `process.env.DEVICE_PIN || '0000'` (stages 3 and 5). */
  function PinFromEnv(env: Option<string>): (pin: string)
    ensures env.Some? && env.value != "" ==> pin == env.value
    ensures env.None? || env.value == "" ==> pin == "0000"
  {
    if env.Some? && env.value != "" then env.value else "0000"
  }

  /** `config.devices[name]` when it is truthy: the address of the device, if the table has one. */
  function Resolve(devices: map<string, string>, name: string): (ip: Option<string>)
    ensures ip.Some? <==> name in devices && devices[name] != ""
    ensures ip.Some? ==> ip.value == devices[name]
  {
    if name in devices && devices[name] != "" then Some(devices[name]) else None
  }

  /** `verifyPinResponse !== '0100'` is false. */
  predicate PinVerified(reply: Json) {
    reply == Str(PinSuccess)
  }
}
