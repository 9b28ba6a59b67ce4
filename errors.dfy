/**
 * The user-facing error taxonomy (DevengUiError), the factory that picks a
 * kind and a message for an error key, and the wrapper exception that
 * carries an error out of the library.
 */
module Errors {
  import opened Wrappers
  import opened ErrorKeys
  import opened Localization

  /** The error kinds; each carries the message it was built with. */
  datatype UiError =
    | HttpError(message: string)
    | NetworkError(message: string)
    | UnauthorizedError(message: string)
    | NotFoundError(message: string)
    | ServerError(message: string)
    | UnknownError(message: string)

  /** `DevengException`: its message is the wrapped error's message, its cause the error itself. */
  datatype DevengException = DevengException(cause: UiError) {
    function Message(): string {
      cause.message
    }
  }

  /** `isNullOrEmpty` on an optional server message. */
  predicate NullOrEmpty(m: Option<string>) {
    m.None? || m.value == ""
  }

  /**
   * `createError`: a non-empty server message wins and yields an
   * UnknownError carrying it, whatever the key; otherwise the key picks the
   * kind and the localized template (with no format arguments) is the
   * message. CONNECTION_ERROR yields a NetworkError, not a kind of its own.
   */
  function CreateError(key: ErrorKey, locale: Locale, apiErrorMessage: Option<string>): (e: UiError)
    ensures !NullOrEmpty(apiErrorMessage) ==> e == UnknownError(apiErrorMessage.value)
    ensures NullOrEmpty(apiErrorMessage) ==> e.message == GetLocalizedError(locale, key, [])
    ensures NullOrEmpty(apiErrorMessage) ==>
      && (e.UnauthorizedError? <==> key == UNAUTHORIZED)
      && (e.NotFoundError? <==> key == NOT_FOUND)
      && (e.ServerError? <==> key == SERVER_ERROR)
      && (e.UnknownError? <==> key == UNKNOWN_ERROR)
      && (e.NetworkError? <==> key == NETWORK_ERROR || key == CONNECTION_ERROR)
    ensures !e.HttpError?
  {
    if NullOrEmpty(apiErrorMessage) then
      var localized := GetLocalizedError(locale, key, []);
      match key
      case UNAUTHORIZED => UnauthorizedError(localized)
      case NOT_FOUND => NotFoundError(localized)
      case SERVER_ERROR => ServerError(localized)
      case UNKNOWN_ERROR => UnknownError(localized)
      case NETWORK_ERROR => NetworkError(localized)
      case CONNECTION_ERROR => NetworkError(localized)
    else
      UnknownError(apiErrorMessage.value)
  }

  /** The exception's message is the error's message and its cause is the error itself, whatever the kind. */
  lemma DevengExceptionWrapsError(e: UiError)
    ensures DevengException(e).Message() == e.message
    ensures DevengException(e).cause == e
  {
  }

  /** A connection error without a server message reads "Unknown error", as its key has no translation. */
  lemma ConnectionErrorMessage(locale: Locale)
    ensures CreateError(CONNECTION_ERROR, locale, None) == NetworkError("Unknown error")
  {
  }
}
