/** The fixed shape of the model's input window and the offline scaling table. */
module Dimensions {

  const BATCH_SIZE: nat := 1
  const SEQUENCE_LENGTH: nat := 20
  const SENSORS: nat := 9
  const MAX_PIR_UPTIME: real := 10.5

  /** The last channel, PIR uptime, which delta referencing leaves alone. */
  const PIR_CHANNEL: nat := SENSORS - 1

  /** Per-channel upper end of the scaling range (decimal values of the float table). */
  const MaxDeltas: seq<real> := [499.0, 76.0, 1.48, 20.91, 5.56, 1.62, 3.0, 0.8, MAX_PIR_UPTIME]

  /** Per-channel lower end of the scaling range. */
  const MinDeltas: seq<real> := [-594.0, -90.0, -1.42, -22.01, -5.72, -1.46, -4.0, -0.8, 0.0]

  /** The width of channel j's range: the scaling denominator, never zero. */
  function Span(j: nat): (r: real)
    requires j < SENSORS
    ensures |MaxDeltas| == |MinDeltas| == SENSORS
    ensures r > 0.0 && r == MaxDeltas[j] - MinDeltas[j]
  {
    MaxDeltas[j] - MinDeltas[j]
  }

  /** The PIR channel is scaled over [0, MAX_PIR_UPTIME] seconds. */
  lemma PirRange()
    ensures MinDeltas[PIR_CHANNEL] == 0.0 && MaxDeltas[PIR_CHANNEL] == MAX_PIR_UPTIME
  {
  }
}
