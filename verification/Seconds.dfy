/**
 Seconds to milliseconds, as both providers round them (`seconds_to_millis` in
 crates/voicetext-providers/src/deepgram/dto.rs and crates/voicetext-providers/src/elevenlabs/dto.rs):
 to whole nanoseconds first, then half a millisecond up and truncated.
 */
module Seconds {
  import opened Base

  function Nanos(seconds: real): (r: nat)
    requires seconds >= 0.0
  {
    (seconds * 1_000_000_000.0 + 0.5).Floor
  }

  function Rounded(seconds: real): (r: nat)
    requires seconds >= 0.0
  {
    (Nanos(seconds) + 500_000) / 1_000_000
  }

  function SecondsToMillis(seconds: real): Option<nat> {
    if seconds < 0.0 || Rounded(seconds) > U64_MAX then None else Some(Rounded(seconds))
  }

  lemma {:induction false} RoundingIsMonotone(a: real, b: real)
    requires 0.0 <= a <= b
    ensures Rounded(a) <= Rounded(b)
  {
  }

  /** A whole number of milliseconds survives the trip through seconds. */
  lemma {:induction false} RoundingIsExact(millis: nat)
    ensures Rounded(millis as real / 1000.0) == millis
  {
  }

  /** Nearest whole nanosecond, then nearest whole millisecond, halves up. */
  lemma {:induction false} RoundsHalfUp(seconds: real)
    requires seconds >= 0.0
    ensures Nanos(seconds) as real - 0.5 <= seconds * 1_000_000_000.0 < Nanos(seconds) as real + 0.5
    ensures Rounded(seconds) * 1_000_000 - 500_000 <= Nanos(seconds) < Rounded(seconds) * 1_000_000 + 500_000
  {
  }
}
