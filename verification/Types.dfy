/** Names shared by every component: cache keys, the clock and the stock option type. */
module Types {

  datatype Option<+T> = None | Some(value: T)

  /** A cache key, `dns:<name>:<type>:<class>`. */
  type Key = string

  /** An instant or a length of time, in nanoseconds. A call reads the clock once. */
  type Time = int
  type Duration = int

  const SECOND: Duration := 1_000_000_000
  const HOUR: Duration := 3600 * SECOND

  /** How long a refresh lock lives when no time is configured. */
  const DEFAULT_LOCK_TTL: Duration := 10 * SECOND

  /** A DNS message is opaque here: only its identity matters. */
  datatype Msg = Msg(wire: string)

  function Min(a: int, b: int): (r: int)
    ensures r <= a && r <= b && (r == a || r == b)
  {
    if a < b then a else b
  }

  /** Seconds since the epoch, as `time.Time.Unix` computes them (floor). */
  function Unix(t: Time): int {
    t / SECOND
  }
}
