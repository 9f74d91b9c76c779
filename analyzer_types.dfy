/** The media description produced by the analyzer (its ffprobe invocation is outside this model). */
module Analyzer {

  /** Metadata of a source video; durations and rates are real numbers of seconds or frames. */
  datatype MediaInfo = MediaInfo(
    Width: int,
    Height: int,
    Duration: real,
    AudioCodec: string,
    VideoCodec: string,
    Bitrate: int,
    Framerate: real,
    KeyframeInterval: real,
    Keyframes: seq<real>)
}
