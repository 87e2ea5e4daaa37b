/** The exceptions the per-account pipeline can raise, by kind. */
module Errors {

  datatype Error =
    /** `json.loads` rejected a block that passed the marker filter. */
    | BadJson
    /** A `thread_items` value that `for t in thread` cannot iterate (null, a boolean, a number). */
    | NotIterable
    /** A null thread item: the jmespath query returns `None`, and `result.get` raises. */
    | NullItem
    /** A kept-text post whose code is a list or dict, which a Python set cannot hold. */
    | Unhashable
    /** A post text other than a string, `[]` or `{}`, which `len`, the title slice or the XML writer rejects. */
    | NotText
    /** A truthy `published_on` that `datetime.fromtimestamp` rejects (a string, list or dict). */
    | BadTimestamp
}
