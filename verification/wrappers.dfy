/** Failure-compatible wrappers used throughout the model: an optional value and
    a value-or-error result. */
module Wrappers {

  /** A value that may be absent; stands for Python's `None`. */
  datatype Option<+T> = None | Some(value: T)

  /** Either a value or the error that interrupted the computation. */
  datatype Result<+T, +E> = Success(value: T) | Failure(error: E) {

    predicate IsFailure() {
      Failure?
    }

    function PropagateFailure<U>(): Result<U, E>
      requires Failure?
    {
      Failure(error)
    }

    function Extract(): T
      requires Success?
    {
      value
    }
  }
}

/** The exceptions the protocol layer can raise, one constructor per cause. */
module Faults {

  datatype Fault =
      /** `attrib[key]` on an element that has no such attribute (KeyError). */
    | KeyError(key: string)
      /** A string method applied to the `text` of an element that has none. */
    | TextMissing
      /** An id with fewer than five colon-separated segments (IndexError). */
    | IndexError
      /** `int(...)` of a string that is not an integer literal (ValueError). */
    | ValueError(literal: string)
      /** An attribute of a `None` collection entry was read or written. */
    | NoneEntry
      /** `title` read on an album-list resource, which has no such attribute. */
    | NoTitleAttribute
      /** `title` assigned on an album resource, whose property has no setter. */
    | ReadOnlyTitle
      /** `title` assigned on a photo whose node has no title element. */
    | TitleNodeMissing
      /** A request handed to the transport with no URL at all. */
    | NoUrl
      /** The transport could not fetch this URL. */
    | FetchFailed(url: string)
      /** Following `next` links did not end within the allotted number of pages. */
    | Diverges
}
