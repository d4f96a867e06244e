/** What the axios wrappers see of a request: the value thrown when a call
    fails, the configuration of a client instance, and the header rule of
    the optional-token clients. */
module Http {
  import opened Common

  /** `error.response`: the status and the decoded body, if any. */
  datatype Response<+B> = Response(status: int, body: Option<B>)

  /** A thrown value as the catch blocks probe it: its `response`, its
      `message` and its `code` property, each possibly absent. A value that
      is not an object (a string, `null`) has none of them. */
  datatype Thrown<+B> = Thrown(response: Option<Response<B>>, message: Option<string>, code: Option<string>)
  {
    /** `'response' in error && error.response?.data` */
    predicate HasBody()
    {
      response.Some? && response.value.body.Some?
    }

    /** `'status' in error.response && error.response.status === s` */
    predicate HasStatus(s: int)
    {
      response.Some? && response.value.status == s
    }
  }

  /** `new Error(msg)`, or an envelope object `{ message: msg, ... }` thrown
      inside a `try`: a thrown value with a message and nothing else the
      catch blocks look at. */
  function ErrorWithMessage<B>(msg: string): (t: Thrown<B>)
    ensures !t.HasBody() && t.message == Some(msg) && t.code.None?
  {
    Thrown(None, Some(msg), None)
  }

  /** A browser `File`, as far as the code looks at it. */
  datatype File = File(name: string, mimeType: string, size: nat)

  /** The outcome of the one awaited request of a service method. */
  datatype Call<+T, +B> = Returned(value: T) | Threw(error: Thrown<B>)

  /** The options passed to `axios.create`. */
  datatype RequestConfig = RequestConfig(
    baseUrl: string,
    contentType: Option<string>,
    accept: string,
    authorization: string,
    timeoutMs: nat)

  const ApiUrl := "https://admin.globens.uz/api/v1"
  const Json := "application/json"

  /** `token ? \`Bearer ${token}\` : ''` */
  function BearerOrEmpty(token: Option<string>): (header: string)
    ensures token.Some? && token.value != "" ==> header == "Bearer " + token.value
    ensures token.None? || token.value == "" ==> header == ""
    ensures header == "" || StartsWith(header, "Bearer ")
  {
    if token.Some? && token.value != "" then "Bearer " + token.value else ""
  }
}
