/** The values the relay and the outbox table exchange, and the relay's configuration. */
module Outbox {
  import opened Prelude
  import opened Utf8

  /** An error text, as the bytes of a Go string. */
  type Text = seq<Byte>

  // Durations are nanoseconds, as in time.Duration.
  const MICROSECOND: int := 1_000
  const SECOND: int := 1_000_000_000
  const HOUR: int := 3600 * SECOND

  datatype Message = Message(recipient: string, subject: string, body: string)

  datatype Claimed = Claimed(message: Message, id: int, attempts: nat)

  datatype SendResult = Delivered | Refused(reason: Text)

  datatype Retry = Retry(lastErr: Text, delay: int, id: int)

  datatype Failure = Failure(lastErr: Text, id: int)

  datatype Config = Config(tick: int, budget: int, dedupTTL: int, batch: int, workers: int, maxAttempts: int) {
    /** Validate returns no error. */
    predicate Valid() {
      tick > 0 && budget > 0 && batch >= 1 && workers >= 1 && maxAttempts >= 1
    }

    function SettleWindow(): int {
      budget + DEDUP_GRACE + SETTLE_GRACE
    }
  }

  const DEFAULT_PAUSE: int := 30 * SECOND
  const BACKOFF_CAP: int := HOUR
  const SETTLE_GRACE: int := 5 * SECOND
  const DEDUP_GRACE: int := SECOND
}
