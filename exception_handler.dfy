/**
 * The exception handler: turns an HTTP status (and the server's message, if
 * any) or a transport failure into a UiError, in the locale that is current
 * when the error is built.
 */
module ExceptionHandling {
  import opened Wrappers
  import opened ErrorKeys
  import opened Localization
  import opened Errors

  /** The key for an HTTP status: 401, 404 and 500 have their own, every other status is UNKNOWN_ERROR. */
  function StatusKey(status: int): (key: ErrorKey)
    ensures key == UNAUTHORIZED <==> status == 401
    ensures key == NOT_FOUND <==> status == 404
    ensures key == SERVER_ERROR <==> status == 500
    ensures key == UNKNOWN_ERROR <==> status != 401 && status != 404 && status != 500
  {
    if status == 401 then UNAUTHORIZED
    else if status == 404 then NOT_FOUND
    else if status == 500 then SERVER_ERROR
    else UNKNOWN_ERROR
  }

  /** The fixed message of every transport failure, by locale. */
  function NetworkMessage(locale: Locale): string {
    if locale == TR then "Bir hata oluştu." else "An error occurred."
  }

  /** The handler object; its locale is the one mutable setting and starts as Turkish. */
  class ExceptionHandler {
    var locale: Locale

    constructor ()
      ensures locale == TR
    {
      locale := TR;
    }

    /**
     * `handleHttpException`: the status picks the key and the error is built
     * in the current locale; a non-empty server message overrides both.
     */
    function HandleHttpException(errorMessage: Option<string>, status: int): (e: UiError)
      reads this
      ensures !NullOrEmpty(errorMessage) ==> e == UnknownError(errorMessage.value)
      ensures NullOrEmpty(errorMessage) ==> e.message == Template(locale, StatusKey(status))
      ensures NullOrEmpty(errorMessage) ==>
        && (e.UnauthorizedError? <==> status == 401)
        && (e.NotFoundError? <==> status == 404)
        && (e.ServerError? <==> status == 500)
        && (e.UnknownError? <==> status != 401 && status != 404 && status != 500)
        && !e.NetworkError? && !e.HttpError?
    {
      CreateError(StatusKey(status), locale, errorMessage)
    }

    /**
     * `handleNetworkException`: always a NetworkError with the fixed message
     * of the current locale; the cause is not looked at.
     */
    function HandleNetworkException(cause: string): (e: UiError)
      reads this
      ensures e.NetworkError?
      ensures e.message == "Bir hata oluştu." <==> locale == TR
      ensures locale != TR ==> e.message == "An error occurred."
    {
      NetworkError(NetworkMessage(locale))
    }
  }

  /** A 401 without a server message in English reads "Unauthorized access"; with "bad creds" it is an UnknownError reading "bad creds". */
  lemma UnauthorizedExamples(h: ExceptionHandler)
    requires h.locale == EN
    ensures h.HandleHttpException(None, 401) == UnauthorizedError("Unauthorized access")
    ensures h.HandleHttpException(Some("bad creds"), 401) == UnknownError("bad creds")
  {
    TemplateExamples();
  }
}
