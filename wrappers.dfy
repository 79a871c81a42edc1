/** Small value wrappers shared by the page models. */
module Wrappers {

  /** A value that may be absent (`undefined` or `null` in the pages). */
  datatype Option<+T> = None | Some(value: T)

  /** What an awaited network call hands back: the decoded body, or a
      failure (network error, non-2xx status, unparseable JSON) that the
      page catches. */
  datatype Fetch<+T> = Fetched(data: T) | Failed
}
