# deveng-networking-kmp, modelled in Dafny

This project models the core of the Kotlin Multiplatform networking library
deveng-networking-kmp and proves properties of that model. The parts it covers:

- **The WebSocket connection registry (`WebSocketConnection.Manager`).** It is
  an insertion-ordered map from endpoint to connection. Its capacity defaults
  to 5, and when it is full the oldest endpoint is evicted and closed.
- **Each connection's lifecycle.** It is a state machine over `ConnectionState`
  (Disconnected, Connecting, Connected, Error). It has a re-entrancy flag
  `isClosing`, nullable session and job handles, and a frame loop.
- **The request-building helpers of `helper.kt`.** These cover:
  - path-placeholder substitution;
  - query-parameter expansion;
  - the order in which headers are appended;
  - URL composition;
  - MIME detection;
  - the headers of a multipart upload.
- **The error taxonomy (`DevengUiError`) and its localisation.** This covers:
  - the translation table and `%s` filling;
  - the key-to-kind factory, where a server message overrides the default;
  - the exception handler's status mapping and its locale-dependent network error;
  - `Locale.fromCode`.
- **The entry object `DevengNetworkingModule`.** This covers:
  - its configuration and setters;
  - how each request variant builds its request and turns a response or an exception into a value or an exception;
  - the WebSocket entry points.

The modules are:

| module | file |
|---|---|
| `Wrappers` | wrappers.dfy |
| `Text` | text.dfy |
| `ErrorKeys` | errorkey.dfy |
| `Localization` | localization.dfy |
| `Errors` | errors.dfy |
| `ExceptionHandling` | exception_handler.dfy |
| `RequestHelpers` | helper.dfy |
| `WebSocket` | websocket.dfy |
| `WebSocketManager` | manager.dfy |
| `NetworkingModule` | facade.dfy |

`Text` gives the Kotlin string operations the library relies on a precise meaning:
- `replace` scans left to right and replaces occurrences without overlap; it is proved equal to splitting and re-joining;
- `replaceFirst`;
- `substringAfterLast`;
- `lowercase`.

The modelling choices:

- **The library runs on coroutines behind a mutex; the model is sequential.**
  - Each `mutex.withLock` body is one atomic method.
  - Each step of the background coroutine is an event method: handshake succeeded or failed, a text, close or other frame, session error, cancellation, and the stream ending.
  - The field `phase` records where that coroutine is.
  - Callbacks are recorded in order in `delivered`, and calls on the session in `transport`.
  - Every event keeps the structural invariant `Inv()` from any state, and keeps the settled invariant `Valid()` when it held before.
  - Sessions and jobs are identified by numbers.
- **The HTTP client and the JSON codec are not called.** A request is a function of the configuration. The transport's answer is a parameter (`Exchange`) that can be:
  - a response with a status, the success body as decoded (None when decoding throws) and the error body as decoded;
  - or an exception.
- **Ordered Kotlin maps are sequences of pairs.** This covers the path and query parameters, the custom headers and the `LinkedHashMap` of the registry.
- **The sources come from different revisions, so the model picks one reading:**
  - One two-valued `Locale` named `EN`/`TR`, as `LocalizationManager.kt` and `ExceptionHandlerImpl.kt` use it. Its `toString` is `"EN"`/`"TR"`.
  - `ErrorKey` includes `CONNECTION_ERROR`, which `DevengUiError.kt` maps.
  - `handleHttpException` takes the server message and the status, as the implementation does.
  - The module getters that `helper.kt` imports are passed in as parameters: the token, the REST base URL and the custom headers.
- **Where the library's documented intent and its code differ, the model follows the code:**
  - A transport failure is always a `NetworkError`. No exception becomes a connection error.
  - A success body that fails to decode becomes a `NetworkError`, through the general catch, not an `UnknownError`.
  - Three call sites raise a bare `IllegalStateException`, not the wrapped exception: a missing client in the serializer `sendRequest`, a missing client in `sendRequestForHttpResponse`, and a missing client or handler in `connectToWebSocket`.
  - A cancellation that reaches the frame loop is caught by the session's own `catch (e: Exception)`. So it sets the Error state and calls `onError` before the teardown.
  - When the frame stream ends without a close frame, the connection stays Connected.

## Model

| member | source | states |
|---|---|---|
| Text.Lower | networking/src/commonMain/kotlin/util/helper.kt:156 | `lowercase` keeps the length and lower-cases each ASCII letter in place |
| Text.IndexOf | networking/src/commonMain/kotlin/localization/LocalizationManager.kt:38 | the position `replaceFirst` acts on: -1 exactly when the pattern occurs nowhere, else an occurrence before which there is none |
| Text.ReplaceAllIsJoinSplit | networking/src/commonMain/kotlin/util/helper.kt:60 | `replace` equals splitting at every occurrence and joining with the replacement |
| Text.SubstringAfterLast | networking/src/commonMain/kotlin/util/helper.kt:156 | the result holds no delimiter and is the whole text when there is none |
| Localization.FromCode | networking/src/commonMain/kotlin/localization/Locale.kt:8-14 | total; TR exactly when the lower-cased code is "tr", EN for every other code |
| Localization.FromCodeIgnoresCase | networking/src/commonMain/kotlin/localization/Locale.kt:9 | lower-casing a code first never changes the locale it names |
| Localization.FromCodeExamples | networking/src/commonMain/kotlin/localization/Locale.kt:9-12 | "en", "EN", "En" give EN; "tr", "TR" give TR; "", " tr", "de" give EN |
| Localization.TranslationsCoverAllButConnection | networking/src/commonMain/kotlin/localization/LocalizationManager.kt:7-22 | both locales have a table; each has every key except CONNECTION_ERROR; no entry reads "Unknown error" |
| Localization.Template | networking/src/commonMain/kotlin/localization/LocalizationManager.kt:24-26 | the template is "Unknown error" exactly for the key missing from the tables |
| Localization.TemplateExamples | networking/src/commonMain/kotlin/localization/LocalizationManager.kt:7-22 | EN/UNAUTHORIZED is "Unauthorized access", TR/NOT_FOUND is "Kaynak bulunamadı", EN/UNKNOWN_ERROR is "Unknown error: %s" |
| Localization.FormatTemplate | networking/src/commonMain/kotlin/localization/LocalizationManager.kt:35-41 | the loop leaves the template with each argument, in order, put in place of the first remaining `%s` |
| Localization.GetLocalizedError | networking/src/commonMain/kotlin/localization/LocalizationManager.kt:24-33 | with no arguments the template is returned verbatim, `%s` included; otherwise it is filled |
| Localization.FormatOnePlaceholder | networking/src/commonMain/kotlin/localization/LocalizationManager.kt:35-41 | one argument and one `%s` give prefix, argument, suffix, for every prefix free of `%s` (a lone '%' in it included) |
| Localization.FormatTwoPlaceholders | networking/src/commonMain/kotlin/localization/LocalizationManager.kt:35-41 | two arguments fill two placeholders left to right whenever the text before the second one holds no other `%s` once the first argument is in |
| Localization.FormatExtraArgs | networking/src/commonMain/kotlin/localization/LocalizationManager.kt:35-41 | once no `%s` remains, further arguments leave the text unchanged |
| Errors.CreateError | networking/src/commonMain/kotlin/error_handling/DevengUiError.kt:15-33 | a non-empty server message gives UnknownError with that message whatever the key; otherwise the message is the localized template with no arguments and each key gives its kind (iff), CONNECTION_ERROR a NetworkError; never an HttpError |
| Errors.ConnectionErrorMessage | networking/src/commonMain/kotlin/error_handling/DevengUiError.kt:28 | a connection error without a server message is NetworkError("Unknown error") in every locale |
| Errors.DevengExceptionWrapsError | networking/src/commonMain/kotlin/error_handling/DevengUiError.kt:37 | the exception's message is the error's and its cause is the error |
| ExceptionHandling.StatusKey | networking/src/commonMain/kotlin/exception_handling/ExceptionHandlerImpl.kt:15-20 | 401, 404, 500 map to UNAUTHORIZED, NOT_FOUND, SERVER_ERROR and every other status to UNKNOWN_ERROR (each an iff) |
| ExceptionHandling.ExceptionHandler.constructor | networking/src/commonMain/kotlin/exception_handling/ExceptionHandlerImpl.kt:9 | the locale starts as TR |
| ExceptionHandling.ExceptionHandler.HandleHttpException | networking/src/commonMain/kotlin/exception_handling/ExceptionHandlerImpl.kt:11-26 | a server message overrides everything (so a 401 with one is UnknownError); otherwise the status decides the kind (iff) and the current locale's template is the message |
| ExceptionHandling.ExceptionHandler.HandleNetworkException | networking/src/commonMain/kotlin/exception_handling/ExceptionHandlerImpl.kt:28-33 | always a NetworkError, "Bir hata oluştu." exactly when the locale is TR and "An error occurred." otherwise |
| ExceptionHandling.UnauthorizedExamples | networking/src/commonMain/kotlin/exception_handling/ExceptionHandlerImpl.kt:11-26 | in English a bare 401 reads "Unauthorized access", and a 401 carrying "bad creds" is UnknownError("bad creds") |
| RequestHelpers.AddPathParameters | networking/src/commonMain/kotlin/util/helper.kt:58-62 | a null or empty map returns the endpoint unchanged |
| RequestHelpers.PathParametersWithoutPlaceholders | networking/src/commonMain/kotlin/util/helper.kt:58-62 | entries whose placeholders do not occur leave the endpoint as it is |
| RequestHelpers.OneParameterReplacesEveryOccurrence | networking/src/commonMain/kotlin/util/helper.kt:59-60 | one entry replaces every `{key}`: the result is the placeholder-free pieces joined by the value |
| RequestHelpers.SubstituteOnePlaceholder | networking/src/commonMain/kotlin/util/helper.kt:59-60 | `pre{key}post` without other braces becomes `pre value post` |
| RequestHelpers.BuildRequestUrl | networking/src/commonMain/kotlin/util/helper.kt:108-114 | the URL starts with the REST base URL and continues with the endpoint after path substitution |
| RequestHelpers.ItemPairsOnePerElement | networking/src/commonMain/kotlin/util/helper.kt:38-47 | a list value appends one pair per element, in list order, non-strings stringified |
| RequestHelpers.EntryPairs | networking/src/commonMain/kotlin/util/helper.kt:36-51 | a string value appends exactly one pair; any other non-list value one stringified pair |
| RequestHelpers.QueryPairs | networking/src/commonMain/kotlin/util/helper.kt:34-35 | a null map appends nothing |
| RequestHelpers.UrlParameters.AddQueryParameters | networking/src/commonMain/kotlin/util/helper.kt:34-53 | the parameters already there are kept and the entries' pairs follow them in order |
| RequestHelpers.UrlParameters.AddListItems | networking/src/commonMain/kotlin/util/helper.kt:38-47 | a list value appends one pair per element after what is there, in list order, strings as they are and other items by their string form |
| RequestHelpers.AllHeadersOrder | networking/src/commonMain/kotlin/util/helper.kt:94-106 | Authorization first, `language` second exactly when a handler is present, the custom headers last in order |
| RequestHelpers.HeaderList.SetupAuthorizationHeader | networking/src/commonMain/kotlin/util/helper.kt:67-72 | appends `Authorization: Bearer <token>`, also for an empty token |
| RequestHelpers.HeaderList.SetupLocaleHeader | networking/src/commonMain/kotlin/util/helper.kt:77-81 | appends `language: <locale>` |
| RequestHelpers.HeaderList.SetupCustomHeaders | networking/src/commonMain/kotlin/util/helper.kt:86-92 | appends every custom header in map order |
| RequestHelpers.HeaderList.SetupAllHeaders | networking/src/commonMain/kotlin/util/helper.kt:94-106 | appends exactly the headers whose order `AllHeadersOrder` proves |
| RequestHelpers.MimeForExtension | networking/src/commonMain/kotlin/util/helper.kt:156-172 | jpg and jpeg (only) give image/jpeg; application/octet-stream exactly for an unlisted extension |
| RequestHelpers.DetectMimeType | networking/src/commonMain/kotlin/util/helper.kt:155-173 | a name without '.' is matched whole (lower-cased) |
| RequestHelpers.DetectMimeTypeIgnoresCase | networking/src/commonMain/kotlin/util/helper.kt:156 | the case of the file name never changes the result |
| RequestHelpers.DetectMimeTypeLastExtension | networking/src/commonMain/kotlin/util/helper.kt:156 | only the text after the last '.' counts |
| RequestHelpers.DetectMimeTypeExamples | networking/src/commonMain/kotlin/util/helper.kt:155-173 | "photo.JPG" is image/jpeg |
| RequestHelpers.DetectMimeTypeUnknownExample | networking/src/commonMain/kotlin/util/helper.kt:155-173 | "archive.tar.gz" is application/octet-stream |
| RequestHelpers.CreateMultipartContent | networking/src/commonMain/kotlin/util/helper.kt:119-150 | the file part comes first with Content-Disposition `form-data; name="<field>"; filename="<file>"` and Content-Type the given type, else the detected one; then one part per additional field, in order |
| WebSocket.Connection.constructor | networking/src/commonMain/kotlin/websocket/WebSocketConnection.kt:21-34 | a new connection is Disconnected and settled, with no handles, not closing, nothing delivered |
| WebSocket.Connection.CleanupInternal | networking/src/commonMain/kotlin/websocket/WebSocketConnection.kt:202-208 | job and session are cleared, the coroutine stops and the state is Disconnected; nothing else changes |
| WebSocket.Connection.CloseSessionInternal | networking/src/commonMain/kotlin/websocket/WebSocketConnection.kt:187-200 | a no-op while closing; otherwise the held session gets one close call and the connection ends Disconnected with no handles and the flag cleared, settled (an Error state is overwritten) |
| WebSocket.Connection.CloseSession | networking/src/commonMain/kotlin/websocket/WebSocketConnection.kt:181-185 | the same effect as the internal close, and it keeps a settled connection settled |
| WebSocket.Connection.Start | networking/src/commonMain/kotlin/websocket/WebSocketConnection.kt:92-114 | nothing changes while closing, Connected or Connecting; otherwise handles cleared, Connecting, a new job whose handshake is under way |
| WebSocket.Connection.HandshakeSucceeded | networking/src/commonMain/kotlin/websocket/WebSocketConnection.kt:116-122 | the session is stored, Connected, `onConnected` delivered and the loop entered; if `onConnected` throws, `onError` follows and the connection is torn down |
| WebSocket.Connection.HandshakeFailed | networking/src/commonMain/kotlin/websocket/WebSocketConnection.kt:160-166 | `onError` gets the handled network error and the connection is torn down without a close call |
| WebSocket.Connection.TextFrame | networking/src/commonMain/kotlin/websocket/WebSocketConnection.kt:123-136 | the loop stops unless Connected and not closing; otherwise the text is delivered, a throwing callback adds `onError`, and the loop goes on |
| WebSocket.Connection.CloseFrame | networking/src/commonMain/kotlin/websocket/WebSocketConnection.kt:137-142 | after the loop check, `onClose` (if any) runs, the session is closed, the connection torn down and the loop ends |
| WebSocket.Connection.OtherFrame | networking/src/commonMain/kotlin/websocket/WebSocketConnection.kt:143-145 | ignored; only the loop check can stop the loop |
| WebSocket.Connection.StreamEnded | networking/src/commonMain/kotlin/websocket/WebSocketConnection.kt:123-147 | the loop ends and nothing else changes, so a Connected connection stays Connected |
| WebSocket.Connection.SessionError | networking/src/commonMain/kotlin/websocket/WebSocketConnection.kt:148-154 | Error with the handled error, `onError`, then the close; the Error state survives only when a close was already in progress |
| WebSocket.Connection.Cancelled | networking/src/commonMain/kotlin/websocket/WebSocketConnection.kt:156-159 | during the handshake: Disconnected and torn down, no callback; in the loop the session handler catches it first, so `onError` runs |
| WebSocket.Connection.SendMessage | networking/src/commonMain/kotlin/websocket/WebSocketConnection.kt:171-179 | exactly one text frame on the session iff Connected with a session; otherwise the right IllegalStateException and nothing sent; the state is untouched |
| WebSocketManager.WithoutAt | networking/src/commonMain/kotlin/websocket/WebSocketConnection.kt:78 | removing a key keeps the keys before and after it in order |
| WebSocketManager.ConnectionManager.constructor | networking/src/commonMain/kotlin/websocket/WebSocketConnection.kt:37-38 | the capacity starts at 5 and the registry empty |
| WebSocketManager.ConnectionManager.MaxConnections | networking/src/commonMain/kotlin/websocket/WebSocketConnection.kt:51 | the capacity is positive and never below the count |
| WebSocketManager.ConnectionManager.ActiveConnections | networking/src/commonMain/kotlin/websocket/WebSocketConnection.kt:81 | exactly the registered endpoints, one per key of the insertion-ordered key list |
| WebSocketManager.ConnectionManager.ConnectionCount | networking/src/commonMain/kotlin/websocket/WebSocketConnection.kt:83 | the map's size equals the number of endpoints in the order |
| WebSocketManager.ConnectionManager.CloseConnection | networking/src/commonMain/kotlin/websocket/WebSocketConnection.kt:77-79 | removes only that endpoint, keeping the others' order, and closes its connection; an absent endpoint is a no-op |
| WebSocketManager.ConnectionManager.EvictOldest | networking/src/commonMain/kotlin/websocket/WebSocketConnection.kt:62-63 | the first-inserted endpoint is removed and its connection closed |
| WebSocketManager.ConnectionManager.GetConnection | networking/src/commonMain/kotlin/websocket/WebSocketConnection.kt:53-70 | a known endpoint returns the same connection and changes nothing, whatever the URL; a new one evicts exactly the oldest when full, then is appended last with a new Disconnected connection; the count stays within the capacity |
| WebSocketManager.ConnectionManager.StartRegistered | networking/src/commonMain/kotlin/DevengNetworkingModule.kt:311-317 | starting a registered connection leaves a live one untouched, moves a Disconnected one to Connecting with its handshake under way, a fresh job, no session and the new onClose, firing no callback and sending nothing, and keeps the registry valid |
| WebSocketManager.ConnectionManager.CloseAll | networking/src/commonMain/kotlin/websocket/WebSocketConnection.kt:72-75 | every connection is closed and the registry is empty |
| WebSocketManager.ConnectionManager.EvictDownToCapacity | networking/src/commonMain/kotlin/websocket/WebSocketConnection.kt:44-48 | the oldest endpoints are closed and removed until at most the capacity remain; the survivors are the newest ones, in order, with their connections left untouched |
| WebSocketManager.ConnectionManager.SetMaxConnections | networking/src/commonMain/kotlin/websocket/WebSocketConnection.kt:40-49 | a limit below 1 fails with "Connection limit must be greater than 0" and changes nothing; otherwise the newest `limit` endpoints survive in order with their connections untouched, and the evicted ones are torn down |
| NetworkingModule.ServerMessage | networking/src/commonMain/kotlin/DevengNetworkingModule.kt:119-127 | an undecodable error body gives no message; a decoded one gives the message it carries, null included |
| NetworkingModule.HttpFailure | networking/src/commonMain/kotlin/DevengNetworkingModule.kt:126-130 | the handler's `createError` for the status and server message in its current locale; the fallback UnknownError("Unknown error") without a handler |
| NetworkingModule.NetworkFailure | networking/src/commonMain/kotlin/DevengNetworkingModule.kt:133-141 | the handler's locale-dependent NetworkError, or the fallback without a handler |
| NetworkingModule.RouteExchange | networking/src/commonMain/kotlin/DevengNetworkingModule.kt:115-142 | only a 2xx with a decoded body returns (that body); everything else raises a DevengException: the HTTP error rethrown unchanged, any other failure as a network error |
| NetworkingModule.TextQueryPairs | networking/src/commonMain/kotlin/DevengNetworkingModule.kt:105-107 | a string-valued query map appends exactly its entries, in order |
| NetworkingModule.Module.constructor | networking/src/commonMain/kotlin/DevengNetworkingModule.kt:25-34 | empty URLs and token, logging on, no client, no handler |
| NetworkingModule.Module.SetApiBaseUrl | networking/src/commonMain/kotlin/DevengNetworkingModule.kt:59-61 | sets the REST base URL and nothing else |
| NetworkingModule.Module.SetWebSocketBaseUrl | networking/src/commonMain/kotlin/DevengNetworkingModule.kt:63-65 | sets the socket base URL and nothing else |
| NetworkingModule.Module.SetLoggingState | networking/src/commonMain/kotlin/DevengNetworkingModule.kt:55-57 | sets the logging flag and nothing else |
| NetworkingModule.Module.SetBearerToken | networking/src/commonMain/kotlin/DevengNetworkingModule.kt:67-69 | sets the token and nothing else |
| NetworkingModule.Module.SetLocale | networking/src/commonMain/kotlin/DevengNetworkingModule.kt:71-73 | sets the handler's locale, and changes nothing without a handler |
| NetworkingModule.Module.Init | networking/src/commonMain/kotlin/DevengNetworkingModule.kt:36-53 | sets the four settings, then client and handler; a locale given while no handler was installed is dropped, and a later one reaches the previous handler |
| NetworkingModule.Module.RequestUrl | networking/src/commonMain/kotlin/DevengNetworkingModule.kt:88-91 | the request URL is `buildRequestUrl` of the current base URL |
| NetworkingModule.Module.BuildRequest | networking/src/commonMain/kotlin/DevengNetworkingModule.kt:90-113 | the given method, the REST URL, Authorization then `language` only with a handler, the query entries in order, and a JSON body exactly when a body is given |
| NetworkingModule.Module.SendRequestInline | networking/src/commonMain/kotlin/DevengNetworkingModule.kt:75-144 | a missing client sends nothing and surfaces as a DevengException (its check is inside the try); otherwise the built request is sent and the answer routed; it never raises anything but a DevengException |
| NetworkingModule.Module.SendRequestSerializer | networking/src/commonMain/kotlin/DevengNetworkingModule.kt:146-218 | a missing client raises a bare IllegalStateException; otherwise the given method, URL, headers and query are sent, the body is encoded and sent as JSON only when both it and its serializer are given, and the answer is routed as above |
| NetworkingModule.Module.LanguageValue | networking/src/commonMain/kotlin/DevengNetworkingModule.kt:244-246 | the handler's locale name, or "null" without a handler |
| NetworkingModule.Module.SendRequestForHttpResponse | networking/src/commonMain/kotlin/DevengNetworkingModule.kt:221-287 | a missing client raises a bare IllegalStateException; otherwise the given method, URL and query pairs are sent with Authorization and an always-present `language`; a 2xx returns the response itself, anything else raises as in `sendRequest` |
| NetworkingModule.Module.ConnectToWebSocket | networking/src/commonMain/kotlin/DevengNetworkingModule.kt:289-318 | fails without client or handler, changing nothing; otherwise the registry is keyed by the endpoint alone: a known endpoint keeps the registry as it is and its live (Connecting or Connected) connection untouched, and restarts a Disconnected one to Connecting with the new onClose and its callback and transport histories kept; a new one evicts and closes the oldest endpoint when full, is appended last with the socket base URL plus the endpoint and the module's handler, and is started with empty histories; the capacity and every other connection are left alone |
| NetworkingModule.Module.CloseWebSocketConnection | networking/src/commonMain/kotlin/DevengNetworkingModule.kt:320-322 | removes the endpoint, keeping the others' order and the capacity, and closes its connection: one close call on the session it held, then teardown |
| NetworkingModule.Module.CloseAllWebSocketConnections | networking/src/commonMain/kotlin/DevengNetworkingModule.kt:324-326 | closes every connection (one close call on each held session, then teardown), empties the registry and keeps the capacity |

## Left out

- The HTTP and WebSocket engine and the JSON codec are foreign calls. The transport's answer, the session's events and the decoded bodies are parameters, and a serializer is a function from body to text.
- Coroutines, the mutex, `SupervisorJob` and `StateFlow` are not modelled, and neither are interleavings between steps. Two things follow:
  - `sendMessage` is unlocked in the source, and the model does not capture what that allows.
  - When a close cancels the running job, the model stops the coroutine at once. The catch handlers that cancellation would later run inside the old coroutine are not replayed; they would call `onError` or set Error, then tear down again.
- `onError` and `onClose` callbacks that throw are not modelled.
- `println` and `logDebug` are output only. `loggingEnabled` is stored but nothing reads it.
- The unchecked `response.body() as R` cast is not modelled. A success body is either decoded or its decoding throws.
- The translation of `DevengHttpMethod` into Ktor's `HttpMethod` is not modelled. The method is carried in the request as the library's own enum.
- The text of the "not connected" IllegalStateException is not modelled, because it embeds the state's Kotlin `toString`. The result carries the state instead.
- `lowercase` covers ASCII letters only. Other letters are left as they are, so `fromCode` is unaffected and `detectMimeType` differs only for non-ASCII extensions.
- Ktor's parameter and header builders are modelled as flat ordered lists of pairs. Their grouping of values by name is not modelled.
- `setupQueryParameters` is not modelled separately. It only runs `addQueryParameters` inside a `url` block.
- The dependency-injection wiring is not modelled: the client is a flag and the handler is passed to `Init`. The `client` argument of `getConnection` is not kept.
- The registry is a process-wide companion object in the source. The model makes it one object that the entry object holds.
- WebSocketManager.ConnectionManager.SetMaxConnections: its contract states that the evicted connections end torn down, but not the close call each made on the transport. The eviction loop would have to carry one transport history per evicted connection. `CloseConnection` and `EvictOldest` state that close call for a single endpoint.
- WebSocketManager.ConnectionManager.EvictDownToCapacity: the same weakening as `SetMaxConnections`, for the same reason.
- RequestHelpers.PathParametersWithoutPlaceholders: "a placeholder whose key has no entry stays literal" is proved only in this form: entries whose placeholders do not occur leave the endpoint unchanged. The general statement is false, because a key that itself contains braces can swallow part of another placeholder; for example the key `a}{b` rewrites the text `{a}{b}`.
- WebSocketManager.ConnectionManager.ActiveConnections: the source returns the live key view of a `LinkedHashMap`, which iterates oldest first. The model returns a set and keeps only its elements and its size; the order is in `keys`.
- RequestHelpers.CreateMultipartContent: Dafny has no default arguments, so the Kotlin default `fileFieldName = "File"` is not modelled. Callers pass the field name explicitly.
