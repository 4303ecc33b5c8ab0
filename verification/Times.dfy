/** Instants and durations, in nanoseconds, and what the API server keeps of them. */
module Times {

  import opened Options

  const SECOND := 1_000_000_000
  const HOUR := 3600 * SECOND
  const DAY := 24 * HOUR

  /** A metav1.Time is stored with whole seconds. */
  function Stored(t: int): int { t / SECOND * SECOND }

  function StoredTime(t: Option<int>): Option<int> {
    if t.Some? then Some(Stored(t.value)) else None
  }
}
