/**
 * What the media probe reports about a file, once its JSON output has been
 * deserialised. The deserialiser is not part of this model: a probe result
 * arrives already decoded (or as the failure to decode it).
 */
module Probe {
  import opened Common
  import opened Text

  /**
   * One stream of the file. Every field of the probe's JSON object can be
   * missing (`null`). `frameRate` is `avg_frame_rate` already turned into a
   * whole number of frames per second (`Math.Round(r / d)`); `None` stands
   * for a rate text that cannot be turned into a number (the parse throws).
   */
  datatype StreamInfo = StreamInfo(
    codecType: Option<string>,
    width: Option<int>,
    height: Option<int>,
    bitRate: Option<string>,
    frameRate: Option<int>)

  /** The container format: its duration in seconds and its overall bit rate, as text. */
  datatype FormatInfo = FormatInfo(duration: Option<real>, bitRate: Option<string>)

  datatype ProbeInfo = ProbeInfo(streams: Option<seq<StreamInfo>>, format: Option<FormatInfo>)

  /** The outcome of deserialising the probe's text: an object (possibly `null`) or an exception. */
  datatype Decoded = Parsed(info: Option<ProbeInfo>) | Unreadable

  predicate IsVideo(s: StreamInfo) { s.codecType == Some("video") }

  /** The arguments that make the probe print a file's format and streams as JSON. */
  function ProbeArguments(file: string): (r: string)
    ensures StartsWith(r, "-i " + file)
    ensures EndsWith(r, " -v quiet -print_format json -show_format -show_streams")
  {
    "-i " + file + " -v quiet -print_format json -show_format -show_streams"
  }

  /** `(int)d` of a double: truncation toward zero. */
  function Truncate(d: real): (r: int)
    ensures d >= 0.0 ==> r as real <= d < r as real + 1.0
    ensures d < 0.0 ==> r as real - 1.0 < d <= r as real
  {
    if d >= 0.0 then d.Floor else -((-d).Floor)
  }
}
