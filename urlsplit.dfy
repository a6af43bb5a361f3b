/**
 * The three components of `urllib.parse.urlparse` the crawler reads. The parser
 * itself is a library; it enters the model as a function value that returns the
 * components or the message of the exception it raised.
 */
module UrlSplit {
  import opened Wrappers

  datatype UrlParts = UrlParts(scheme: string, netloc: string, path: string)

  /** `urlparse` as the crawler sees it: the parts, or the text of a raised ValueError. */
  type UrlParser = string -> Result<UrlParts, string>
}
