/** ReaderInfo, the description of a media stream every reader keeps in `info`. */
module ReaderBase {
  import opened Fractions

  datatype ReaderInfo = ReaderInfo(
    hasVideo: bool,
    hasAudio: bool,
    duration: real,          // seconds
    fileSize: int,
    height: int,
    width: int,
    pixelFormat: int,
    fps: Fraction,
    videoBitRate: int,
    pixelRatio: Fraction,
    displayRatio: Fraction,
    vcodec: string,
    videoLength: int,        // frames
    videoStreamIndex: int,
    videoTimebase: Fraction,
    interlacedFrame: bool,
    topFieldFirst: bool,
    acodec: string,
    audioBitRate: int,
    sampleRate: int,
    channels: int,
    audioStreamIndex: int,
    audioTimebase: Fraction)
}
