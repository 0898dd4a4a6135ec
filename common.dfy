/** Small value types shared by the dashboard's components. */
module Common {

  /** An optional value: TypeScript's `T | null` and `T | undefined`. */
  datatype Option<+T> = None | Some(value: T) {
    function GetOr(default: T): T {
      match this
      case Some(v) => v
      case None => default
    }
  }

  /** The theme tone a component picks for a badge, a bar or a text
      (`bg-destructive`, `text-success`, ...); the literal class strings are
      presentation and are not modelled. */
  datatype Tone = Destructive | Warning | Success | Primary | Accent | Secondary | Muted

  /** A JavaScript `Date` reduced to its calendar day: the full year, the
      month counted from 0 (January) and the day of the month. The time of
      day is not modelled. */
  datatype Date = Date(year: int, month: int, day: int)
}
