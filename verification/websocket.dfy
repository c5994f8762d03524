/** The live-connection provider: the reconnect counter and its backoff, the outbound
    queue that holds frames while the socket is down, the routing of inbound frames to
    store actions, the heartbeat, and the throttled typing frame. The socket, its timers
    and React's refs and state become the fields of one class; every socket or timer
    callback is a method, the clock is a parameter and `send` is an abstract operation
    that either accepts a frame or throws. */
module WebSocket {
  import opened Common
  import ApiUtils

  const ConnectionTimeout := 10000
  const ReconnectInterval := 3000
  const MaxReconnectAttempts := 5
  const PingInterval := 30000
  const TypingThrottle := 1000

  // ---------------------------------------------------------------- reconnect delay

  /** `RECONNECT_INTERVAL * Math.pow(CONNECT_BACKOFF_FACTOR, attempts)`, in ms. */
  function ReconnectDelay(attempts: nat): real {
    ReconnectInterval as real * Pow(1.5, attempts)
  }

  /** Each further attempt waits longer than the one before. */
  lemma ReconnectDelayIncreasing(n: nat)
    ensures ReconnectDelay(n) < ReconnectDelay(n + 1)
    ensures ReconnectDelay(n + 1) == 1.5 * ReconnectDelay(n)
  {
  }

  lemma {:induction false} PowBernoulli(n: nat)
    ensures Pow(1.5, n) >= 1.0 + n as real / 2.0
  {
    if n > 0 {
      PowBernoulli(n - 1);
    }
  }

  /** The delay has no cap: it exceeds any bound for some attempt number. */
  lemma ReconnectDelayUnbounded(bound: real)
    ensures exists n: nat :: ReconnectDelay(n) > bound
  {
    var n: nat := if bound < 0.0 then 0 else bound.Floor as nat;
    PowBernoulli(n);
    assert ReconnectDelay(n) > bound;
  }

  /** The five delays the provider can schedule before it reports failure. */
  lemma ReconnectSchedule()
    ensures ReconnectDelay(0) == 3000.0 && ReconnectDelay(1) == 4500.0
    ensures ReconnectDelay(2) == 6750.0 && ReconnectDelay(3) == 10125.0
    ensures ReconnectDelay(4) == 15187.5
  {
    assert Pow(1.5, 4) == 1.5 * Pow(1.5, 3);
  }

  // ---------------------------------------------------------------- inbound frames

  /** A store action dispatched by the provider. */
  datatype Action =
    | SetConnectionStatus(status: string)
    | AddMessage(payload: JsValue)
    | UpdateMessageStatus(id: JsValue, messageStatus: JsValue)
    | AddIncomingFriendRequest(request: JsValue)
    | UpdateFriendOnlineStatus(userId: JsValue, isOnline: JsValue)
    | UpdateTypingStatus(conversationId: JsValue, typingUserId: JsValue, isTyping: JsValue)

  /** What handling one parsed frame leads to: one dispatch, none, or an exception
      (reading a property of a missing payload), which the handler catches. */
  datatype Routed = Dispatch(action: Action) | NoDispatch | Threw

  /** The frame types that lead to a dispatch. */
  predicate IsRoutedType(t: JsValue) {
    t in {Str("message"), Str("message_status"), Str("friend_request"), Str("friend_status"), Str("typing")}
  }

  /** The frame types whose handler reads fields of the payload. */
  predicate ReadsPayload(t: JsValue) {
    t in {Str("message_status"), Str("friend_status"), Str("typing")}
  }

  /** The `switch (data.type)` of `handleMessage`. */
  function Route(data: JsValue): (r: Routed)
    ensures r.Threw? <==>
              || Nullish(data)
              || (ReadsPayload(GetProp(data, "type").value) && Nullish(GetProp(data, "payload").value))
    ensures r.Dispatch? <==> !r.Threw? && IsRoutedType(GetProp(data, "type").value)
    ensures r.NoDispatch? <==> !Nullish(data) && !IsRoutedType(GetProp(data, "type").value)
    ensures GetProp(data, "type") == Some(Str("message")) ==> r == Dispatch(AddMessage(GetProp(data, "payload").value))
    ensures GetProp(data, "type") == Some(Str("friend_request")) ==>
              r == Dispatch(AddIncomingFriendRequest(GetProp(data, "payload").value))
  {
    match GetProp(data, "type")
    case None => Threw
    case Some(t) =>
      var payload := GetProp(data, "payload").value;
      if t == Str("message") then Dispatch(AddMessage(payload))
      else if t == Str("friend_request") then Dispatch(AddIncomingFriendRequest(payload))
      else if t == Str("message_status") then
        match GetProp(payload, "messageId")
        case None => Threw
        case Some(id) => Dispatch(UpdateMessageStatus(id, GetProp(payload, "status").value))
      else if t == Str("friend_status") then
        match GetProp(payload, "userId")
        case None => Threw
        case Some(u) => Dispatch(UpdateFriendOnlineStatus(u, GetProp(payload, "isOnline").value))
      else if t == Str("typing") then
        match GetProp(payload, "conversationId")
        case None => Threw
        case Some(c) => Dispatch(UpdateTypingStatus(c, GetProp(payload, "userId").value, GetProp(payload, "isTyping").value))
      else NoDispatch
  }

  /** Frames of the three payload-reading types carry the payload's fields into the
      dispatched action. */
  lemma RoutePayloadFields(data: JsValue, payload: JsValue)
    requires GetProp(data, "payload") == Some(payload) && !Nullish(payload)
    ensures GetProp(data, "type") == Some(Str("message_status")) ==>
              Route(data) == Dispatch(UpdateMessageStatus(GetProp(payload, "messageId").value,
                                                          GetProp(payload, "status").value))
    ensures GetProp(data, "type") == Some(Str("friend_status")) ==>
              Route(data) == Dispatch(UpdateFriendOnlineStatus(GetProp(payload, "userId").value,
                                                               GetProp(payload, "isOnline").value))
    ensures GetProp(data, "type") == Some(Str("typing")) ==>
              Route(data) == Dispatch(UpdateTypingStatus(GetProp(payload, "conversationId").value,
                                                         GetProp(payload, "userId").value,
                                                         GetProp(payload, "isTyping").value))
  {
  }

  /** A `pong`, or a frame of any type the handler does not know, dispatches nothing. */
  lemma PongDispatchesNothing(data: JsValue)
    requires GetProp(data, "type") == Some(Str("pong"))
    ensures Route(data) == NoDispatch
  {
  }

  // ---------------------------------------------------------------- outbound frames

  function PingFrame(): JsValue {
    Obj([("type", Str("ping"))])
  }

  function TypingFrame(conversationId: JsValue, isTyping: bool): JsValue {
    Obj([("type", Str("typing")),
         ("payload", Obj([("conversationId", conversationId), ("isTyping", Bool(isTyping))]))])
  }

  /** How many frames at the head of the queue `send` takes before it first throws. */
  function LeadingAccepted(q: seq<JsValue>, accepts: JsValue -> bool): (k: nat)
    ensures k <= |q|
    ensures forall i :: 0 <= i < k ==> accepts(q[i])
    ensures k < |q| ==> !accepts(q[k])
  {
    if q == [] || !accepts(q[0]) then 0 else 1 + LeadingAccepted(q[1..], accepts)
  }

  /** No activity for more than two ping intervals. */
  predicate HeartbeatStale(now: int, lastActivity: int) {
    now - lastActivity > PingInterval * 2
  }

  // ---------------------------------------------------------------- the provider

  /** `!accessToken` is false for a missing token and for the empty string. */
  predicate HasToken(token: Option<string>) {
    token.Some? && token.value != ""
  }

  /** The status `attemptReconnect` publishes for a counter value. */
  function ReconnectStatus(attempts: nat): string {
    if attempts >= MaxReconnectAttempts then "failed" else "reconnecting"
  }

  /** `readyState` of the current socket, or no socket yet. */
  datatype SocketState = NoSocket | Connecting | Open | Closing | Closed

  /** The state of `WebSocketProvider`: `status` is the last connection status it
      published, `attempts` the reconnect counter, `queue` the outbound frames held back,
      `lastActivity` the time of the last parsed inbound frame. `reconnectTimer` is the
      pending reconnect with its delay, `connectTimer` the pending connection timeout,
      `pingActive` the ping interval; `sent` lists the frames the socket accepted and
      `dispatched` the store actions, in order. */
  class Connection {
    var status: string
    var attempts: nat
    var queue: seq<JsValue>
    var lastActivity: int
    var isConnected: bool
    var isConnecting: bool
    var socket: SocketState
    var pingActive: bool
    var reconnectTimer: Option<real>
    var connectTimer: bool
    var typingLastRun: Option<int>
    var sent: seq<JsValue>
    var dispatched: seq<Action>

    /** The counter never passes the limit, and a connected provider has a socket. */
    ghost predicate Valid()
      reads this
    {
      && attempts <= MaxReconnectAttempts
      && (isConnected ==> socket != NoSocket)
    }

    constructor (now: int)
      ensures Valid()
      ensures status == "disconnected" && attempts == 0 && queue == [] && lastActivity == now
      ensures !isConnected && !isConnecting && socket == NoSocket && !pingActive
      ensures reconnectTimer == None && !connectTimer && typingLastRun == None
      ensures sent == [] && dispatched == []
    {
      status := "disconnected";
      attempts := 0;
      queue := [];
      lastActivity := now;
      isConnected := false;
      isConnecting := false;
      socket := NoSocket;
      pingActive := false;
      reconnectTimer := None;
      connectTimer := false;
      typingLastRun := None;
      sent := [];
      dispatched := [];
    }

    /** `dispatch(setConnectionStatus(s))`. */
    method Publish(s: string)
      modifies this`status, this`dispatched
      ensures status == s && dispatched == old(dispatched) + [SetConnectionStatus(s)]
    {
      status := s;
      dispatched := dispatched + [SetConnectionStatus(s)];
    }

    /** `attemptReconnect`. */
    method AttemptReconnect()
      requires Valid()
      modifies this`status, this`dispatched, this`attempts, this`reconnectTimer
      ensures Valid()
      ensures old(attempts) >= MaxReconnectAttempts ==>
                && status == "failed" && attempts == 0 && reconnectTimer == old(reconnectTimer)
                && dispatched == old(dispatched) + [SetConnectionStatus("failed")]
      ensures old(attempts) < MaxReconnectAttempts ==>
                && status == "reconnecting" && attempts == old(attempts) + 1
                && reconnectTimer == Some(ReconnectDelay(old(attempts)))
                && dispatched == old(dispatched) + [SetConnectionStatus("reconnecting")]
    {
      if attempts >= MaxReconnectAttempts {
        Publish("failed");
        attempts := 0;
        return;
      }
      Publish("reconnecting");
      var delay := ReconnectDelay(attempts);
      attempts := attempts + 1;
      reconnectTimer := Some(delay);
    }

    /** `connect`, with the current access token; `created` says whether constructing
        the socket succeeds. */
    method Connect(token: Option<string>, created: bool)
      requires Valid()
      modifies this
      ensures Valid()
      ensures old(isConnecting) || old(socket) == Connecting ==> unchanged(this)
      ensures !old(isConnecting) && old(socket) != Connecting && !HasToken(token) ==>
                && status == "disconnected" && !isConnected && !isConnecting
                && socket == old(socket) && reconnectTimer == None && attempts == old(attempts)
                && dispatched == old(dispatched) + [SetConnectionStatus("disconnected")]
      ensures !old(isConnecting) && old(socket) != Connecting && HasToken(token) && created ==>
                && status == "connecting" && isConnecting && socket == Connecting && connectTimer
                && reconnectTimer == None && attempts == old(attempts) && isConnected == old(isConnected)
                && dispatched == old(dispatched) + [SetConnectionStatus("connecting")]
      ensures !old(isConnecting) && old(socket) != Connecting && HasToken(token) && !created ==>
                && !isConnecting && isConnected == old(isConnected)
                && socket == (if old(socket) == Open then Closing else old(socket))
                && status == ReconnectStatus(old(attempts)) && connectTimer == old(connectTimer)
                && attempts == (if old(attempts) >= MaxReconnectAttempts then 0 else old(attempts) + 1)
                && reconnectTimer == (if old(attempts) >= MaxReconnectAttempts then None
                                      else Some(ReconnectDelay(old(attempts))))
                && dispatched == old(dispatched) + [SetConnectionStatus("connecting"), SetConnectionStatus("error"),
                                                    SetConnectionStatus(ReconnectStatus(old(attempts)))]
      ensures queue == old(queue) && sent == old(sent)
    {
      if isConnecting || socket == Connecting {
        return;
      }
      reconnectTimer := None;
      if !HasToken(token) {
        Publish("disconnected");
        isConnected := false;
        isConnecting := false;
        return;
      }
      isConnecting := true;
      Publish("connecting");
      if socket == Open {
        socket := Closing;
      }
      if !created {
        isConnecting := false;
        Publish("error");
        AttemptReconnect();
        return;
      }
      socket := Connecting;
      connectTimer := true;
    }

    /** The pending reconnect fires and calls `connect`. */
    method ReconnectTimerFires(token: Option<string>, created: bool)
      requires Valid()
      modifies this
      ensures Valid()
      ensures old(reconnectTimer).None? ==> unchanged(this)
    {
      if reconnectTimer.None? {
        return;
      }
      reconnectTimer := None;
      Connect(token, created);
    }

    /** `onopen`, followed by the effect that runs `processPendingMessages` once
        `isConnected` is true (the call inside `onopen` itself still sees the old
        `isConnected` and does nothing). */
    method OnOpen(accepts: JsValue -> bool)
      requires Valid()
      modifies this
      ensures Valid()
      ensures status == "connected" && attempts == 0 && pingActive
      ensures isConnected && !isConnecting && socket == Open && !connectTimer
      ensures dispatched == old(dispatched) + [SetConnectionStatus("connected")]
      ensures var k := LeadingAccepted(old(queue), accepts);
              sent == old(sent) + old(queue)[..k] && queue == old(queue)[k..]
    {
      connectTimer := false;
      socket := Open;
      isConnected := true;
      isConnecting := false;
      Publish("connected");
      attempts := 0;
      pingActive := true;
      ProcessPendingMessages(accepts);
    }

    /** `onclose`. */
    method OnClose()
      requires Valid()
      modifies this
      ensures Valid()
      ensures !isConnected && !isConnecting && !pingActive && !connectTimer && socket == Closed
      ensures dispatched == old(dispatched) + [SetConnectionStatus("disconnected"),
                                               SetConnectionStatus(ReconnectStatus(old(attempts)))]
      ensures old(attempts) < MaxReconnectAttempts ==>
                && status == "reconnecting" && attempts == old(attempts) + 1
                && reconnectTimer == Some(ReconnectDelay(old(attempts)))
      ensures old(attempts) >= MaxReconnectAttempts ==>
                status == "failed" && attempts == 0 && reconnectTimer == old(reconnectTimer)
      ensures queue == old(queue) && sent == old(sent) && lastActivity == old(lastActivity)
    {
      connectTimer := false;
      socket := Closed;
      isConnected := false;
      isConnecting := false;
      pingActive := false;
      Publish("disconnected");
      AttemptReconnect();
    }

    /** `onerror`: the status becomes 'error' and the socket is asked to close; the
        close event follows separately. */
    method OnError()
      requires Valid()
      modifies this`connectTimer, this`status, this`dispatched, this`socket
      ensures Valid()
      ensures !connectTimer && status == "error"
      ensures dispatched == old(dispatched) + [SetConnectionStatus("error")]
      ensures socket == (if old(socket) in {Connecting, Open} then Closing else old(socket))
    {
      connectTimer := false;
      Publish("error");
      if socket == Connecting || socket == Open {
        socket := Closing;
      }
    }

    /** The connection timeout fires: a socket that is not open by then is closed and a
        reconnect is attempted. */
    method ConnectTimeoutFires()
      requires Valid()
      modifies this
      ensures Valid()
      ensures !old(connectTimer) ==> unchanged(this)
      ensures old(connectTimer) && old(socket) == Open ==> !connectTimer && attempts == old(attempts)
      ensures old(connectTimer) && old(socket) != Open ==>
                && !connectTimer && !isConnecting
                && socket == (if old(socket) == Connecting then Closing else old(socket))
                && (old(attempts) < MaxReconnectAttempts ==> attempts == old(attempts) + 1)
    {
      if !connectTimer {
        return;
      }
      connectTimer := false;
      if socket != Open {
        if socket == Connecting {
          socket := Closing;
        }
        isConnecting := false;
        AttemptReconnect();
      }
    }

    /** `onmessage`: `raw` is the result of `JSON.parse` (`None` when it throws). */
    method HandleMessage(raw: Option<JsValue>, now: int)
      modifies this`lastActivity, this`dispatched
      ensures raw.None? ==> lastActivity == old(lastActivity) && dispatched == old(dispatched)
      ensures raw.Some? ==> lastActivity == now
      ensures raw.Some? && Route(raw.value).Dispatch? ==>
                dispatched == old(dispatched) + [Route(raw.value).action]
      ensures raw.Some? && !Route(raw.value).Dispatch? ==> dispatched == old(dispatched)
    {
      if raw.None? {
        return;
      }
      lastActivity := now;
      var routed := Route(raw.value);
      if routed.Dispatch? {
        dispatched := dispatched + [routed.action];
      }
    }

    /** One firing of the ping interval. */
    method Tick(now: int, accepts: JsValue -> bool)
      requires Valid()
      modifies this
      ensures Valid()
      ensures !old(pingActive) ==> unchanged(this)
      ensures old(pingActive) && old(socket) == Open ==>
                && sent == old(sent) + (if accepts(PingFrame()) then [PingFrame()] else [])
                && status == old(status) && dispatched == old(dispatched) && pingActive
      ensures old(pingActive) && old(socket) != Open && !HeartbeatStale(now, old(lastActivity)) ==>
                unchanged(this)
      ensures old(pingActive) && old(socket) != Open && HeartbeatStale(now, old(lastActivity)) ==>
                && !pingActive && !isConnected && sent == old(sent)
                && dispatched == old(dispatched) + [SetConnectionStatus("disconnected"),
                                                    SetConnectionStatus(ReconnectStatus(old(attempts)))]
                && (old(attempts) < MaxReconnectAttempts ==>
                      status == "reconnecting" && attempts == old(attempts) + 1
                      && reconnectTimer == Some(ReconnectDelay(old(attempts))))
                && (old(attempts) >= MaxReconnectAttempts ==> status == "failed" && attempts == 0)
      ensures queue == old(queue) && lastActivity == old(lastActivity)
    {
      if !pingActive {
        return;
      }
      if HeartbeatStale(now, lastActivity) {
        if socket == Open {
          if accepts(PingFrame()) {
            sent := sent + [PingFrame()];
          }
        } else {
          pingActive := false;
          isConnected := false;
          Publish("disconnected");
          AttemptReconnect();
        }
      } else if socket == Open {
        if accepts(PingFrame()) {
          sent := sent + [PingFrame()];
        }
      }
    }

    /** `disconnect`: close the socket, stop pinging, cancel the pending reconnect. The
        `isConnecting` flag is left as it is. */
    method Disconnect()
      requires Valid()
      modifies this`socket, this`pingActive, this`reconnectTimer, this`isConnected, this`status, this`dispatched
      ensures Valid()
      ensures socket == (if old(socket) in {Connecting, Open} then Closing else old(socket))
      ensures !pingActive && reconnectTimer == None && !isConnected && status == "disconnected"
      ensures dispatched == old(dispatched) + [SetConnectionStatus("disconnected")]
    {
      if socket == Connecting || socket == Open {
        socket := Closing;
      }
      pingActive := false;
      reconnectTimer := None;
      isConnected := false;
      Publish("disconnected");
    }

    /** `processPendingMessages`: head first; the frame whose `send` throws goes back at
        the head and the drain stops. */
    method ProcessPendingMessages(accepts: JsValue -> bool)
      requires Valid()
      modifies this`queue, this`sent
      ensures !old(isConnected) ==> queue == old(queue) && sent == old(sent)
      ensures old(isConnected) ==>
                var k := LeadingAccepted(old(queue), accepts);
                sent == old(sent) + old(queue)[..k] && queue == old(queue)[k..]
    {
      if !isConnected || |queue| == 0 {
        return;
      }
      ghost var q := queue;
      ghost var i := 0;
      while |queue| > 0
        invariant 0 <= i <= |q| && queue == q[i..]
        invariant sent == old(sent) + q[..i]
        invariant forall j :: 0 <= j < i ==> accepts(q[j])
        decreases |queue|
      {
        var message := queue[0];
        queue := queue[1..];
        if accepts(message) {
          sent := sent + [message];
          i := i + 1;
        } else {
          queue := [message] + queue;
          break;
        }
      }
      assert i == LeadingAccepted(q, accepts) by {
        LeadingAcceptedUnique(q, accepts, i);
      }
    }

    /** `sendMessage`: a frame is never dropped. It goes to the tail of the queue while
        the provider is not connected or when `send` throws. */
    method SendMessage(data: JsValue, accepts: JsValue -> bool)
      requires Valid()
      modifies this`queue, this`sent
      ensures !old(isConnected) ==> queue == old(queue) + [data] && sent == old(sent)
      ensures old(isConnected) && accepts(data) ==> queue == old(queue) && sent == old(sent) + [data]
      ensures old(isConnected) && !accepts(data) ==> queue == old(queue) + [data] && sent == old(sent)
    {
      if !isConnected {
        queue := queue + [data];
        return;
      }
      if accepts(data) {
        sent := sent + [data];
      } else {
        queue := queue + [data];
      }
    }

    /** `sendTypingStatus`, throttled to one call per second: the frame goes out only on
        an open socket; a call inside the window is dropped; a `send` that throws leaves
        the throttle unarmed. */
    method SendTypingStatus(conversationId: JsValue, isTyping: bool, now: int, accepts: JsValue -> bool)
      modifies this`typingLastRun, this`sent
      ensures !ApiUtils.ThrottleIdle(old(typingLastRun), TypingThrottle, now) ==>
                typingLastRun == old(typingLastRun) && sent == old(sent)
      ensures ApiUtils.ThrottleIdle(old(typingLastRun), TypingThrottle, now) && socket == Open ==>
                && sent == old(sent) + (if accepts(TypingFrame(conversationId, isTyping)) then [TypingFrame(conversationId, isTyping)] else [])
                && typingLastRun == (if accepts(TypingFrame(conversationId, isTyping)) then Some(now) else old(typingLastRun))
      ensures ApiUtils.ThrottleIdle(old(typingLastRun), TypingThrottle, now) && socket != Open ==>
                sent == old(sent) && typingLastRun == Some(now)
    {
      if !ApiUtils.ThrottleIdle(typingLastRun, TypingThrottle, now) {
        return;
      }
      if socket == Open {
        var frame := TypingFrame(conversationId, isTyping);
        if !accepts(frame) {
          return;
        }
        sent := sent + [frame];
      }
      typingLastRun := Some(now);
    }
  }

  /** The drain length is determined by the queue: a prefix of accepted frames followed
      by a refused one, or the whole queue, is exactly `LeadingAccepted`. */
  lemma {:induction false} LeadingAcceptedUnique(q: seq<JsValue>, accepts: JsValue -> bool, i: nat)
    requires i <= |q|
    requires forall j :: 0 <= j < i ==> accepts(q[j])
    requires i < |q| ==> !accepts(q[i])
    ensures LeadingAccepted(q, accepts) == i
  {
    if i > 0 {
      assert accepts(q[0]);
      LeadingAcceptedUnique(q[1..], accepts, i - 1);
    }
  }
}
