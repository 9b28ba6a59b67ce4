/** The keys under which the library looks up user-facing error messages. */
module ErrorKeys {

  /**
   * One key per error kind. CONNECTION_ERROR is the key the error factory
   * handles besides the five that have translations.
   */
  datatype ErrorKey =
    | UNAUTHORIZED
    | NOT_FOUND
    | SERVER_ERROR
    | UNKNOWN_ERROR
    | NETWORK_ERROR
    | CONNECTION_ERROR
}
