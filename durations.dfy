/** The two tolerance rules of the duration checks (`verify_audio_duration`
    and `verify_srt`). Durations are whole seconds except the probed audio
    duration, which ffprobe reports to the microsecond. */
module Durations {

  function Abs(x: int): nat
  {
    if x < 0 then -x else x
  }

  const MicrosPerSecond: nat := 1_000_000

  /** Audio rule: the audio lasts within 2 seconds of the original. */
  predicate AudioDurationOk(audioMicros: int, originalSeconds: int)
  {
    Abs(audioMicros - originalSeconds * MicrosPerSecond) <= 2 * MicrosPerSecond
  }

  /** Subtitle rule: the SRT covers at least 95% of the original AND differs
      from it by less than 120 seconds. `0.95 * original` is written as the
      exact integer comparison `100 * srt >= 95 * original`. */
  predicate SrtCoverageOk(srtSeconds: int, originalSeconds: int)
  {
    100 * srtSeconds >= 95 * originalSeconds && Abs(srtSeconds - originalSeconds) < 120
  }

  /** Any audio within two seconds of the original passes; 2.01 seconds off fails. */
  lemma AudioTolerance(original: int, audioMicros: int)
    ensures AudioDurationOk(audioMicros, original)
            <==> original * MicrosPerSecond - 2_000_000 <= audioMicros <= original * MicrosPerSecond + 2_000_000
    ensures AudioDurationOk(original * MicrosPerSecond + 2_000_000, original)
    ensures AudioDurationOk(original * MicrosPerSecond - 2_000_000, original)
    ensures !AudioDurationOk(original * MicrosPerSecond + 2_010_000, original)
    ensures !AudioDurationOk(original * MicrosPerSecond - 2_010_000, original)
  {
  }

  /** Both subtitle conditions are required: 96 of 100 passes, 94 of 100 fails
      the 95% bound, and 889 of 1000 fails although it is within 120 s. */
  lemma SrtCoverageExamples()
    ensures SrtCoverageOk(96, 100)
    ensures !SrtCoverageOk(94, 100)
    ensures Abs(889 - 1000) < 120 && !SrtCoverageOk(889, 1000)
    ensures SrtCoverageOk(600, 600)
  {
  }

  /** The band the subtitle rule accepts for a non-negative original: the
      95% bound is the binding lower limit up to 2380 s, the 120 s window
      above it; the upper limit is always less than 120 s over. */
  lemma SrtCoverageBand(srt: int, original: int)
    requires original >= 0
    ensures SrtCoverageOk(srt, original)
            <==> (if original <= 2380 then 100 * srt >= 95 * original else srt > original - 120)
                 && srt < original + 120
  {
    if original > 2380 && srt > original - 120 {
      assert 100 * srt >= 100 * original - 11_900;
    }
  }
}
