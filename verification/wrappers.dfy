/** Kotlin's nullable types (`Int?`, `MovieDetails?`) are modelled by `Option`. */
module Wrappers {

  /** `None` plays the part of Kotlin's `null`. */
  datatype Option<+T> = None | Some(value: T)
}
