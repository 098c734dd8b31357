/**
 * The `Bookmark` row the client keeps, the values a failed call can throw, and the URL
 * parser the components consult.
 */
module Bookmarks {
  import opened Wrappers

  type UserId = string

  /** One row of the `bookmarks` table; the timestamps are the server's ISO strings. */
  datatype Bookmark = Bookmark(
    id: string,
    userId: UserId,
    title: string,
    url: string,
    createdAt: string,
    updatedAt: string)

  /**
   * A value thrown by a failed call: an `Error` instance carries a message; anything
   * else that is thrown does not, and the catch blocks fall back to a fixed text.
   */
  datatype Thrown = ErrorInstance(message: string) | NonErrorValue

  /** `err instanceof Error ? err.message : fallback`, as every catch block computes it. */
  function ErrorMessage(err: Thrown, fallback: string): string {
    match err
    case ErrorInstance(message) => message
    case NonErrorValue => fallback
  }

  /** What `new URL(text)` yields when it does not throw: here only its `hostname`. */
  datatype ParsedUrl = ParsedUrl(hostname: string)

  /**
   * The WHATWG URL parser, behind `new URL(text)`: `None` where the constructor throws.
   * It is a parameter of every member that parses, so nothing is assumed about it.
   */
  type UrlParser = string -> Option<ParsedUrl>
}
