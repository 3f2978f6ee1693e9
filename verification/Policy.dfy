/** The time bounds on watermarks (feeds/policy.py). */
module Policy {
  import opened Common

  const DAY: Time := 86_400_000_000

  const RETENTION_MIN_DAYS := 1

  datatype Rejection = Malformed | InFuture | BeforeFloor

  datatype Checked = Accepted(value: Time) | Rejected(why: Rejection)

  /** A future watermark would silence its source until then. */
  function EnforceSourceWatermark(value: Time, now: Time): Checked {
    if value > now then Rejected(InFuture) else Accepted(value)
  }

  function DefaultAndEnforceSourceWatermark(value: Option<Time>, now: Time): Checked {
    match value
    case None => Accepted(now)
    case Some(v) => EnforceSourceWatermark(v, now)
  }

  /** The deepest seek target a feed allows. */
  function SeekFloor(retentionDays: int, now: Time): Time {
    now - retentionDays * DAY
  }

  function EnforceSeekFloor(to: Time, retentionDays: int, now: Time): Checked {
    if to < SeekFloor(retentionDays, now) then Rejected(BeforeFloor) else Accepted(to)
  }
}
