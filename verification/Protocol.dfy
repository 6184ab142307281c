/** What both ends of the provisioning protocol share: attempts, frames and status values. */
module Protocol {
  import opened Wrappers
  import opened Bytes

  /** One provisioning attempt; the eight random bytes are read as one number. */
  datatype Attempt = Attempt(counter: nat, random: nat)

  /** Frames from the ESP. A response carries the pair that the device signed. */
  datatype Uplink =
    | Hello(counter: nat)
    | Response(attempt: Attempt)
    | Control(enabled: bool, status: nat)
    | Status(counter: nat)

  function AsFrames(sent: Option<Uplink>): seq<Uplink> { if sent.Some? then [sent.value] else [] }

  /** Frames from the server. A challenge carries the pair that the server signed. */
  datatype Downlink = Challenge(attempt: Attempt) | Provisioning(sealed: Attempt, plain: seq<byte>)

  const IDLE := 0x00
  const PROVISIONING_STARTED := 0x41
  const PROVISIONING_COMPLETE := 0x42
  const PROVISIONING_ERROR := 0xC2
  const PROVISIONING_TIMEOUT := 0xC6

  ghost predicate Increasing(a: seq<Attempt>) { forall i, j | 0 <= i < j < |a| :: a[i].counter < a[j].counter }
  ghost predicate Distinct(a: seq<Attempt>) { forall i, j | 0 <= i < j < |a| :: a[i] != a[j] }

  function Last(a: seq<Attempt>): Attempt
    requires a != []
  {
    a[|a| - 1]
  }
}
