/** Small value types shared by every part of the model. */
module Common {

  /** Kotlin's nullable `T?`, written out. */
  datatype Option<+T> = None | Some(value: T)

  /** The two kinds of track a transcoding pipeline handles. */
  datatype TrackType = Audio | Video
}
