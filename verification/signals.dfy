/** An audio signal as the stretcher and the mixer see it: either a
    one-dimensional array of samples or a set of equally long channels.
    Whether a two-dimensional array is stored channel-major or frame-major
    is a layout matter of the array library and is not modelled. */
module Signals {
  import opened Samples

  datatype Audio = Mono(samples: seq<real>) | Multi(channels: seq<seq<real>>)

  /** A multi-channel signal is a non-degenerate rectangular array. */
  predicate WellFormed(a: Audio) {
    a.Multi? ==> |a.channels| >= 1 && Rectangular(a.channels, |a.channels[0]|)
  }

  /** The number of samples per channel (`len` of a frame-major array). */
  function Length(a: Audio): nat
    requires WellFormed(a)
  {
    match a
    case Mono(x) => |x|
    case Multi(chs) => |chs[0]|
  }

  /** The signal as a list of channels. */
  function ChannelsOf(a: Audio): (chs: seq<seq<real>>)
    requires WellFormed(a)
    ensures |chs| >= 1
    ensures Rectangular(chs, Length(a))
  {
    match a
    case Mono(x) => [x]
    case Multi(chs) => chs
  }

  /** Every sample lies in [-1, 1]. */
  predicate Bounded(a: Audio)
    requires WellFormed(a)
  {
    InUnitRange(ChannelsOf(a))
  }
}
