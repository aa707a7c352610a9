/** Modes, channel vectors and complete readings of the six-channel lamp. */
module Lamp {
  const AUTOMATIC := 0
  const MANUAL := 1
  const SHUTDOWN := 8

  type Channels = c: seq<int> | |c| == 6 witness [0, 0, 0, 0, 0, 0]
  const ZERO: Channels := [0, 0, 0, 0, 0, 0]

  type ChannelIndex = i: int | 0 <= i < 6

  /** Controller bytes, version bytes and channel count, compared as one value. */
  datatype Profile = Profile(controller: (int, int), version: (int, int), count: int)

  /** The one profile validated for writes and for software power control. */
  const VERIFIED := Profile((28, 30), (26, 29), 6)

  datatype State = State(mode: int, profile: Profile, channels: Channels)

  /** The two output commands; the C/D swap of one controller is undone before comparing. */
  datatype Frame = ChannelFrame(values: Channels) | ModeFrame(mode: int)

  /** What an honest lamp makes of a frame; Shutdown darkens the output. */
  function Applied(lamp: State, frame: Frame): State {
    match frame
    case ChannelFrame(values) => lamp.(channels := values)
    case ModeFrame(mode) => State(mode, lamp.profile, if mode == SHUTDOWN then ZERO else lamp.channels)
  }

  predicate ValidChannels(c: Channels) {
    forall i | 0 <= i < 6 :: 0 <= c[i] <= 100
  }
}
