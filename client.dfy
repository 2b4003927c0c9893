/** What the pages see of an API call: it resolves, or it rejects with the server's answer. */
module Client {
  import opened Domain

  /** A rejected call carries the `error` field of the response body, when there is one. */
  datatype CallResult = Resolved | Rejected(serverError: Option<string>)

  /** `err.response?.data?.error || fallback`: an absent or empty message gives the fallback. */
  function ErrorText(serverError: Option<string>, fallback: string): (message: string)
    ensures serverError.Some? && serverError.value != "" ==> message == serverError.value
    ensures serverError.None? || serverError.value == "" ==> message == fallback
  {
    if serverError.Some? && serverError.value != "" then serverError.value else fallback
  }
}
