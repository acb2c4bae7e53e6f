/**
 * Instants as whole microseconds since the Unix epoch (`DateTimeInterface` keeps
 * microseconds). Time zones do not change an instant and are not modelled.
 */
module Time {

  const MicrosPerSecond: int := 1_000_000

  datatype Instant = Instant(micros: int)

  /** `DateTimeInterface::getTimestamp()`: whole seconds, rounded down. */
  function Seconds(t: Instant): (s: int)
    ensures s * MicrosPerSecond <= t.micros < (s + 1) * MicrosPerSecond
  {
    t.micros / MicrosPerSecond
  }

  /** `DateTimeImmutable::createFromTimestamp(int)`. */
  function FromSeconds(s: int): (t: Instant)
    ensures Seconds(t) == s && t.micros % MicrosPerSecond == 0
  {
    Instant(s * MicrosPerSecond)
  }
}
