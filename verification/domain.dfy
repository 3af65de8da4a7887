/** The entities every part of the model shares (internal/domain). */
module Domain {

  datatype Option<+T> = None | Some(value: T) {
    function GetOr(default: T): T {
      match this
      case None => default
      case Some(v) => v
    }
  }

  datatype Kind = KindNone | Logs | Metrics

  datatype StreamID = StreamID(ns: string, svc: string, kind: Kind, name: string)

  /** Instants are counted from Go's zero time, so 0 is the value `IsZero` recognises. */
  type Time = int

  const ZERO_TIME: Time := 0

  datatype Sample = Sample(time: Time, value: string, unit: string)

  datatype Op = Greater | GreaterEq | Less | LessEq | Absent

  predicate Holds(op: Op, value: real, threshold: real) {
    match op
    case Greater => value > threshold
    case GreaterEq => value >= threshold
    case Less => value < threshold
    case LessEq => value <= threshold
    case Absent => false
  }

  function OpName(op: Op): string {
    match op
    case Greater => ">"
    case GreaterEq => ">="
    case Less => "<"
    case LessEq => "<="
    case Absent => "absent"
  }

  /** A rule; `hold` is the duration the source calls For. */
  datatype Rule = Rule(stream: StreamID, op: Op, threshold: real, hold: int, channel: string)

  datatype Event = NoEvent | Fired | Resolved

  datatype Notification = Notification(rule: Rule, event: Event, time: Time, value: string, unit: string)

  // ----- retention rules -----

  /** Oldest timestamp the time window still keeps. */
  function Cutoff(duration: int, now: Time): Time { now - duration }

  /** How many samples are over budget; a budget of zero or less is unlimited. */
  function Excess(maxSamples: int, count: int): int {
    if maxSamples <= 0 || count <= maxSamples then 0 else count - maxSamples
  }
}
