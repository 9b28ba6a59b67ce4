/**
 * One WebSocket connection: a state machine over ConnectionState with a
 * re-entrancy flag and nullable session and job handles.
 *
 * The model is sequential. Each locked section (`start`, `closeSession`) is
 * one atomic method, and every step of the background coroutine that drives
 * the session is an event method: the handshake succeeding or failing, one
 * frame arriving, the session failing, the coroutine being cancelled, the
 * frame stream ending. `phase` says where that coroutine is. The callbacks
 * the connection invokes are appended to `delivered`, and the calls it makes
 * on the transport to `transport`, in order.
 */
module WebSocket {
  import opened Wrappers
  import opened Errors
  import opened ExceptionHandling

  /** The connection states; Error carries the error reported to the user. */
  datatype ConnectionState = Disconnected | Connecting | Connected | Error(error: UiError)

  /** Where the background coroutine is: not running, opening the session, or in the frame loop. */
  datatype Phase = Idle | Handshaking | Receiving

  /** A callback invocation, in the order the user's code sees them. */
  datatype Callback = OnConnected | OnMessage(text: string) | OnError(error: UiError) | OnClose

  /** A call on a session, which is identified by a number. */
  datatype TransportCall = SendText(session: nat, text: string) | CloseCall(session: nat)

  /** What `sendMessage` does: sends, or raises IllegalStateException for one of two reasons. */
  datatype SendResult = Sent | NotConnected(current: ConnectionState) | SessionNotOpen

  /** The message of the IllegalStateException raised when the session is missing. */
  const SessionNotOpenMessage: string := "WebSocket session is not open"

  class Connection {
    const url: string
    const handler: ExceptionHandler
    var session: Option<nat>
    var job: Option<nat>
    var state: ConnectionState
    var isClosing: bool
    var phase: Phase
    /** Whether the `onClose` callback of the latest launch is non-null. */
    var hasOnClose: bool
    /** How many coroutines have been launched; jobs are numbered from 0. */
    var launched: nat
    var delivered: seq<Callback>
    var transport: seq<TransportCall>

    /** The structural invariant that every step keeps, whatever interleaving it sits in. */
    predicate Inv()
      reads this
    {
      && (phase.Handshaking? ==> job.Some? && session.None?)
      && (phase.Receiving? ==> job.Some? && session.Some?)
      && (job.Some? ==> job.value < launched)
    }

    /**
     * The invariant of a settled connection, between atomic steps when no
     * close is in progress: an Error state never survives a step, Connecting
     * means a handshake is under way, Disconnected holds no handles, and the
     * frame loop only runs while Connected.
     */
    predicate Valid()
      reads this
    {
      && Inv()
      && !isClosing
      && !state.Error?
      && (state.Connecting? <==> phase.Handshaking?)
      && (state.Disconnected? ==> session.None? && job.None? && phase.Idle?)
      && (state.Connected? ==> session.Some? && job.Some?)
      && (phase.Receiving? ==> state.Connected?)
    }

    /** The state `closeSessionInternal` leaves when it runs to its end. */
    predicate TornDown()
      reads this
    {
      state == Disconnected && session.None? && job.None? && phase.Idle? && !isClosing
    }

    /** The condition the frame loop checks before handling each frame. */
    predicate LoopContinues()
      reads this
    {
      state.Connected? && !isClosing
    }

    /** A new connection: Disconnected, no handles, nothing delivered. */
    constructor (url: string, handler: ExceptionHandler)
      ensures this.url == url && this.handler == handler
      ensures TornDown() && launched == 0 && !hasOnClose
      ensures delivered == [] && transport == []
      ensures Valid()
    {
      this.url := url;
      this.handler := handler;
      session := None;
      job := None;
      state := Disconnected;
      isClosing := false;
      phase := Idle;
      hasOnClose := false;
      launched := 0;
      delivered := [];
      transport := [];
    }

    /** `cleanupInternal`: cancels the job (its coroutine stops), drops both handles, and goes Disconnected. */
    method CleanupInternal()
      requires Inv()
      modifies this
      ensures state == Disconnected && session.None? && job.None? && phase.Idle?
      ensures isClosing == old(isClosing) && hasOnClose == old(hasOnClose) && launched == old(launched)
      ensures delivered == old(delivered) && transport == old(transport)
      ensures Inv()
    {
      job := None;
      phase := Idle;
      session := None;
      state := Disconnected;
    }

    /**
     * `closeSessionInternal`: a no-op while a close is already in progress;
     * otherwise it closes the session if there is one and always ends torn
     * down, with the flag cleared, even when closing the session fails.
     */
    method CloseSessionInternal()
      requires Inv()
      modifies this
      ensures old(isClosing) ==> unchanged(this)
      ensures !old(isClosing) ==> TornDown()
      ensures !old(isClosing) ==>
        transport == old(transport) + (if old(session).Some? then [CloseCall(old(session).value)] else [])
      ensures !old(isClosing) ==> delivered == old(delivered) && hasOnClose == old(hasOnClose) && launched == old(launched)
      ensures Inv()
      ensures !old(isClosing) ==> Valid()
    {
      if isClosing {
        return;
      }
      isClosing := true;
      if session.Some? {
        transport := transport + [CloseCall(session.value)];
      }
      CleanupInternal();
      isClosing := false;
    }

    /** `closeSession`: the locked entry point to `closeSessionInternal`. */
    method CloseSession()
      requires Inv()
      modifies this
      ensures old(isClosing) ==> unchanged(this)
      ensures !old(isClosing) ==> TornDown()
      ensures !old(isClosing) ==>
        transport == old(transport) + (if old(session).Some? then [CloseCall(old(session).value)] else [])
      ensures !old(isClosing) ==> delivered == old(delivered) && hasOnClose == old(hasOnClose) && launched == old(launched)
      ensures Inv()
      ensures old(Valid()) ==> Valid()
    {
      CloseSessionInternal();
    }

    /**
     * `start`: does nothing while closing, Connected or Connecting;
     * otherwise it cleans up, goes Connecting and launches a new coroutine,
     * which begins its handshake.
     */
    method Start(hasOnClose: bool)
      requires Inv()
      modifies this
      ensures old(isClosing) || old(state) == Connected || old(state) == Connecting ==> unchanged(this)
      ensures !(old(isClosing) || old(state) == Connected || old(state) == Connecting) ==>
        && state == Connecting && session.None? && job == Some(old(launched)) && launched == old(launched) + 1
        && phase.Handshaking? && this.hasOnClose == hasOnClose && !isClosing
        && delivered == old(delivered) && transport == old(transport)
      ensures Inv()
      ensures old(Valid()) ==> Valid()
    {
      if isClosing {
        return;
      }
      if state.Connected? {
        return;
      }
      if state.Connecting? {
        return;
      }
      CleanupInternal();
      state := Connecting;
      job := Some(launched);
      launched := launched + 1;
      this.hasOnClose := hasOnClose;
      phase := Handshaking;
    }

    /**
     * The session opened: it is stored, the state goes Connected and
     * `onConnected` runs. If `onConnected` throws, the session error path
     * runs: Error with the handled error, `onError`, then a close.
     */
    method HandshakeSucceeded(s: nat, connectedThrows: bool, cause: string)
      requires Inv() && phase.Handshaking?
      modifies this
      ensures !connectedThrows ==>
        && session == Some(s) && state == Connected && phase.Receiving?
        && delivered == old(delivered) + [OnConnected]
        && job == old(job) && isClosing == old(isClosing) && transport == old(transport)
      ensures connectedThrows ==>
        delivered == old(delivered) + [OnConnected, OnError(handler.HandleNetworkException(cause))]
      ensures connectedThrows && !old(isClosing) ==> TornDown() && transport == old(transport) + [CloseCall(s)]
      ensures connectedThrows && old(isClosing) ==> state == Error(handler.HandleNetworkException(cause)) && phase.Idle?
      ensures launched == old(launched) && hasOnClose == old(hasOnClose)
      ensures Inv()
      ensures old(Valid()) ==> Valid()
    {
      session := Some(s);
      phase := Receiving;
      state := Connected;
      delivered := delivered + [OnConnected];
      if connectedThrows {
        var handled := handler.HandleNetworkException(cause);
        state := Error(handled);
        delivered := delivered + [OnError(handled)];
        CloseSessionInternal();
        phase := Idle;
      }
    }

    /**
     * The session could not be opened: Error with the handled error,
     * `onError`, then a close (there is no session to close yet).
     */
    method HandshakeFailed(cause: string)
      requires Inv() && phase.Handshaking?
      modifies this
      ensures delivered == old(delivered) + [OnError(handler.HandleNetworkException(cause))]
      ensures transport == old(transport)
      ensures !old(isClosing) ==> TornDown()
      ensures old(isClosing) ==> state == Error(handler.HandleNetworkException(cause)) && phase.Idle?
      ensures launched == old(launched) && hasOnClose == old(hasOnClose)
      ensures Inv()
      ensures old(Valid()) ==> Valid()
    {
      var handled := handler.HandleNetworkException(cause);
      state := Error(handled);
      delivered := delivered + [OnError(handled)];
      CloseSessionInternal();
      phase := Idle;
    }

    /**
     * A text frame arrives. Unless the loop stops first, `onMessageReceived`
     * gets the text; if it throws, `onError` gets the handled error and the
     * loop goes on.
     */
    method TextFrame(text: string, callbackThrows: bool, cause: string)
      requires Inv() && phase.Receiving?
      modifies this
      ensures !old(LoopContinues()) ==> phase.Idle? && delivered == old(delivered)
      ensures old(LoopContinues()) && !callbackThrows ==> phase.Receiving? && delivered == old(delivered) + [OnMessage(text)]
      ensures old(LoopContinues()) && callbackThrows ==>
        phase.Receiving? && delivered == old(delivered) + [OnMessage(text), OnError(handler.HandleNetworkException(cause))]
      ensures state == old(state) && session == old(session) && job == old(job) && isClosing == old(isClosing)
      ensures transport == old(transport) && launched == old(launched) && hasOnClose == old(hasOnClose)
      ensures Inv()
      ensures old(Valid()) ==> Valid()
    {
      if !LoopContinues() {
        phase := Idle;
        return;
      }
      delivered := delivered + [OnMessage(text)];
      if callbackThrows {
        var handled := handler.HandleNetworkException(cause);
        delivered := delivered + [OnError(handled)];
      }
    }

    /**
     * A close frame arrives. Unless the loop stops first, `onClose` runs if
     * there is one, the session is torn down and the loop ends.
     */
    method CloseFrame()
      requires Inv() && phase.Receiving?
      modifies this
      ensures phase.Idle?
      ensures !old(LoopContinues()) ==> delivered == old(delivered) && state == old(state) && transport == old(transport)
      ensures old(LoopContinues()) ==>
        && delivered == old(delivered) + (if hasOnClose then [OnClose] else [])
        && TornDown() && transport == old(transport) + [CloseCall(old(session).value)]
      ensures launched == old(launched) && hasOnClose == old(hasOnClose)
      ensures Inv()
      ensures old(Valid()) ==> Valid()
    {
      if !LoopContinues() {
        phase := Idle;
        return;
      }
      if hasOnClose {
        delivered := delivered + [OnClose];
      }
      CloseSessionInternal();
      phase := Idle;
    }

    /** Any other frame is ignored (after the loop check). */
    method OtherFrame()
      requires Inv() && phase.Receiving?
      modifies this
      ensures phase == (if old(LoopContinues()) then Receiving else Idle)
      ensures state == old(state) && session == old(session) && job == old(job) && isClosing == old(isClosing)
      ensures delivered == old(delivered) && transport == old(transport)
      ensures launched == old(launched) && hasOnClose == old(hasOnClose)
      ensures Inv()
      ensures old(Valid()) ==> Valid()
    {
      if !LoopContinues() {
        phase := Idle;
      }
    }

    /**
     * The frame stream ends without a close frame: the loop and the
     * coroutine finish, and nothing else changes (a Connected state stays
     * Connected).
     */
    method StreamEnded()
      requires Inv() && phase.Receiving?
      modifies this
      ensures phase.Idle?
      ensures state == old(state) && session == old(session) && job == old(job) && isClosing == old(isClosing)
      ensures delivered == old(delivered) && transport == old(transport)
      ensures launched == old(launched) && hasOnClose == old(hasOnClose)
      ensures Inv()
      ensures old(Valid()) ==> Valid()
    {
      phase := Idle;
    }

    /**
     * The open session fails (receiving fails, or a callback's exception
     * escapes): Error with the handled error, `onError`, then a close.
     */
    method SessionError(cause: string)
      requires Inv() && phase.Receiving?
      modifies this
      ensures delivered == old(delivered) + [OnError(handler.HandleNetworkException(cause))]
      ensures !old(isClosing) ==> TornDown() && transport == old(transport) + [CloseCall(old(session).value)]
      ensures old(isClosing) ==> state == Error(handler.HandleNetworkException(cause)) && phase.Idle? && transport == old(transport)
      ensures launched == old(launched) && hasOnClose == old(hasOnClose)
      ensures Inv()
      ensures old(Valid()) ==> Valid()
    {
      var handled := handler.HandleNetworkException(cause);
      state := Error(handled);
      delivered := delivered + [OnError(handled)];
      CloseSessionInternal();
      phase := Idle;
    }

    /**
     * The coroutine is cancelled. During the handshake the cancellation
     * handler goes Disconnected and closes. In the frame loop the session's
     * own handler catches it first, as it catches every exception, so it is
     * a session error.
     */
    method Cancelled(cause: string)
      requires Inv() && (phase.Handshaking? || phase.Receiving?)
      modifies this
      ensures old(phase).Handshaking? ==> delivered == old(delivered) && transport == old(transport)
      ensures old(phase).Handshaking? && old(isClosing) ==> state == Disconnected && phase.Idle?
      ensures old(phase).Receiving? ==>
        && delivered == old(delivered) + [OnError(handler.HandleNetworkException(cause))]
        && (old(isClosing) ==> state == Error(handler.HandleNetworkException(cause)) && phase.Idle?)
        && (!old(isClosing) ==> transport == old(transport) + [CloseCall(old(session).value)])
      ensures !old(isClosing) ==> TornDown()
      ensures launched == old(launched) && hasOnClose == old(hasOnClose)
      ensures Inv()
      ensures old(Valid()) ==> Valid()
    {
      if phase.Handshaking? {
        state := Disconnected;
        CloseSessionInternal();
        phase := Idle;
      } else {
        SessionError(cause);
      }
    }

    /**
     * `sendMessage`: exactly one text frame on the session when Connected
     * with a session; otherwise an IllegalStateException and nothing sent.
     */
    method SendMessage(message: string) returns (r: SendResult)
      requires Inv()
      modifies this
      ensures r == Sent <==> state.Connected? && session.Some?
      ensures r == NotConnected(state) <==> !state.Connected?
      ensures r == SessionNotOpen <==> state.Connected? && session.None?
      ensures r == Sent ==> transport == old(transport) + [SendText(session.value, message)]
      ensures r != Sent ==> transport == old(transport)
      ensures state == old(state) && session == old(session) && job == old(job) && isClosing == old(isClosing)
      ensures phase == old(phase) && delivered == old(delivered)
      ensures launched == old(launched) && hasOnClose == old(hasOnClose)
      ensures Inv()
    {
      if state.Connected? {
        if session.Some? {
          transport := transport + [SendText(session.value, message)];
          r := Sent;
        } else {
          r := SessionNotOpen;
        }
      } else {
        r := NotConnected(state);
      }
    }
  }
}
