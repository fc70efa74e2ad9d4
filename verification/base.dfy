/** Shared vocabulary: an optional value (JavaScript's `undefined`/`null` versus a
    present value) and the unit in which every timestamp and duration is kept. */
module Base {

  /** A value that may be absent. A present Dayjs or object value is always truthy
      in JavaScript, so `Some` plays the role of "truthy" and `None` of "falsy". */
  datatype Option<+T> = None | Some(value: T) {

    /** The `??` operator: the value when present, `default` otherwise. */
    function GetOr(default: T): T {
      match this
      case Some(v) => v
      case None => default
    }
  }

  /** Timestamps are whole minutes on one time line; durations are differences of them. */
  type Minutes = int

  /** `dayjs.add(1, 'day')`, with daylight-saving changes ignored. */
  const MinutesPerDay: Minutes := 1440
}
