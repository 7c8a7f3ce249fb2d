/** The exceptions that end a chat turn. */
module Errors {

  datatype ChatError =
      /** The completions endpoint answered with a status other than 200. */
    | HttpStatus(status: int, body: string)
      /** An event payload carried a truthy `error` field. */
    | UpstreamError(message: string)
      /** An event payload was not valid JSON or did not have the shape of a chunk. */
    | MalformedPayload
      /** A chunk had an empty `choices` list, so `choices[0]` raised. */
    | NoChoices
      /** The assembled function arguments were not a JSON object. */
    | MalformedArguments
      /** The manager raised while executing the named function. */
    | ExecutionFailed(name: string, cause: string)
}
