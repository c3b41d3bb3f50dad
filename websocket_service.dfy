/**
 * The stage-director WebSocket service: one shared socket multiplexed over many
 * handler groups, connection listeners told about changes of the `connected`
 * flag, and a single pending reconnect timer.
 *
 * The browser is part of the state: sockets are integer handles with a ready
 * state, `setTimeout` timers are ids in `armedTimers`, and every call the
 * service makes into foreign code (creating, closing or sending on a socket,
 * calling a handler or a listener) is appended to `calls`. Socket events are
 * the methods `SocketOpened`, `SocketClosed`, `SocketErrored` and
 * `SocketMessage`; the reconnect timer firing is `ReconnectTimerFires`.
 */
module WebSocketService {
  import opened Wrappers
  import opened Sequences

  /** RECONNECT_DELAY_MS, the default reconnect delay. */
  const ReconnectDelayMs: nat := 5000

  type SocketId = nat
  type GroupId = nat
  type ListenerId = nat
  type TimerId = nat

  /** `WebSocket.readyState`. */
  datatype ReadyState = Connecting | Open | Closing | Closed

  /** The values `JSON.parse` produces and `JSON.stringify` consumes. */
  datatype Json =
    | JNull
    | JBool(b: bool)
    | JNumber(n: real)
    | JString(s: string)
    | JArray(items: seq<Json>)
    | JObject(fields: seq<(string, Json)>)

  /** The argument of `send`: `string | object`. */
  datatype Outgoing = Text(text: string) | Structured(value: Json)

  /**
   * A registered `WebSocketHandlerGroup`: its identity, and which of the optional
   * callbacks it supplies (`onMessage` is required).
   */
  datatype HandlerGroup = HandlerGroup(
    id: GroupId,
    hasOnRawMessage: bool,
    hasOnOpen: bool,
    hasOnClose: bool,
    hasOnError: bool)

  /** An event of the current socket, with the result of parsing a message's data. */
  datatype SocketEvent =
    | OpenEvent
    | CloseEvent
    | ErrorEvent
    | MessageEvent(raw: string, parsed: Option<Json>)

  /** A call the service makes into code outside it. */
  datatype Call =
    | SocketCreated(socket: SocketId)
    | SocketCloseCalled(socket: SocketId)
    | SocketSent(socket: SocketId, payload: string)
    | ListenerCalled(listener: ListenerId, isConnected: bool)
    | OnOpenCalled(group: GroupId)
    | OnCloseCalled(group: GroupId)
    | OnErrorCalled(group: GroupId)
    | OnRawMessageCalled(group: GroupId, raw: string)
    | OnMessageCalled(group: GroupId, message: Json)
    | ParseFailureLogged(group: GroupId)

  /** What one handler group receives for one event (the body of one `forEach` step). */
  function Deliver(g: HandlerGroup, ev: SocketEvent): seq<Call>
  {
    match ev
    case OpenEvent => if g.hasOnOpen then [OnOpenCalled(g.id)] else []
    case CloseEvent => if g.hasOnClose then [OnCloseCalled(g.id)] else []
    case ErrorEvent => if g.hasOnError then [OnErrorCalled(g.id)] else []
    case MessageEvent(raw, parsed) =>
      (if g.hasOnRawMessage then [OnRawMessageCalled(g.id, raw)] else []) + [ParsedCall(g, parsed)]
  }

  /** The call that follows a parse attempt: `onMessage` on success, a logged error otherwise. */
  function ParsedCall(g: HandlerGroup, parsed: Option<Json>): Call
  {
    match parsed
    case Some(v) => OnMessageCalled(g.id, v)
    case None => ParseFailureLogged(g.id)
  }

  /** The group a handler call goes to (listener and socket calls go to none). */
  function Target(c: Call): Option<GroupId>
  {
    match c
    case OnOpenCalled(g) => Some(g)
    case OnCloseCalled(g) => Some(g)
    case OnErrorCalled(g) => Some(g)
    case OnRawMessageCalled(g, _) => Some(g)
    case OnMessageCalled(g, _) => Some(g)
    case ParseFailureLogged(g) => Some(g)
    case _ => None
  }

  /** `handlerGroups.forEach(...)`: every group in registration order. */
  function FanOut(gs: seq<HandlerGroup>, ev: SocketEvent): seq<Call>
  {
    if gs == [] then [] else Deliver(gs[0], ev) + FanOut(gs[1..], ev)
  }

  /** `connectionListeners.forEach(listener => listener(v))`. */
  function Broadcast(ls: seq<ListenerId>, v: bool): seq<Call>
  {
    if ls == [] then [] else [ListenerCalled(ls[0], v)] + Broadcast(ls[1..], v)
  }

  lemma {:induction false} FanOutAppend(a: seq<HandlerGroup>, b: seq<HandlerGroup>, ev: SocketEvent)
    ensures FanOut(a + b, ev) == FanOut(a, ev) + FanOut(b, ev)
  {
    if a == [] {
      assert a + b == b;
    } else {
      assert (a + b)[1..] == a[1..] + b;
      FanOutAppend(a[1..], b, ev);
    }
  }

  lemma {:induction false} BroadcastAppend(a: seq<ListenerId>, b: seq<ListenerId>, v: bool)
    ensures Broadcast(a + b, v) == Broadcast(a, v) + Broadcast(b, v)
  {
    if a == [] {
      assert a + b == b;
    } else {
      assert (a + b)[1..] == a[1..] + b;
      BroadcastAppend(a[1..], b, v);
    }
  }

  /** Every listener is called exactly once, in order, with the same value. */
  lemma {:induction false} BroadcastCallsEachListener(ls: seq<ListenerId>, v: bool)
    ensures |Broadcast(ls, v)| == |ls|
    ensures forall i :: 0 <= i < |ls| ==> Broadcast(ls, v)[i] == ListenerCalled(ls[i], v)
  {
    if ls != [] {
      BroadcastCallsEachListener(ls[1..], v);
    }
  }

  /** A fan-out calls only registered groups' handlers, and only handlers. */
  lemma {:induction false} FanOutOnlyReachesRegistered(gs: seq<HandlerGroup>, ev: SocketEvent, c: Call)
    requires c in FanOut(gs, ev)
    ensures exists g :: g in gs && Target(c) == Some(g.id)
  {
    if c in Deliver(gs[0], ev) {
      assert Target(c) == Some(gs[0].id);
    } else {
      FanOutOnlyReachesRegistered(gs[1..], ev, c);
      var g :| g in gs[1..] && Target(c) == Some(g.id);
      assert g in gs;
    }
  }

  /** The fan-out splits around the group at position `k`. */
  lemma FanOutAround(gs: seq<HandlerGroup>, ev: SocketEvent, k: nat)
    requires k < |gs|
    ensures FanOut(gs, ev) == FanOut(gs[..k], ev) + Deliver(gs[k], ev) + FanOut(gs[k + 1..], ev)
  {
    assert gs == gs[..k] + ([gs[k]] + gs[k + 1..]);
    FanOutAppend(gs[..k], [gs[k]] + gs[k + 1..], ev);
    FanOutAppend([gs[k]], gs[k + 1..], ev);
    assert FanOut([gs[k]], ev) == Deliver(gs[k], ev) + FanOut([], ev);
  }

  /**
   * Every group gets its parse outcome for a message: a parse failure for one
   * group does not stop delivery to the next.
   */
  lemma MessageReachesEveryGroup(gs: seq<HandlerGroup>, raw: string, parsed: Option<Json>, k: nat)
    requires k < |gs|
    ensures ParsedCall(gs[k], parsed) in FanOut(gs, MessageEvent(raw, parsed))
  {
    var ev := MessageEvent(raw, parsed);
    FanOutAround(gs, ev, k);
    assert ParsedCall(gs[k], parsed) == Deliver(gs[k], ev)[|Deliver(gs[k], ev)| - 1];
  }

  /** A group with `onRawMessage` gets the raw data before its parsed message. */
  lemma RawBeforeParsed(gs: seq<HandlerGroup>, raw: string, parsed: Option<Json>, k: nat)
    requires k < |gs| && gs[k].hasOnRawMessage
    ensures var calls := FanOut(gs, MessageEvent(raw, parsed));
      exists i, j :: 0 <= i < j < |calls| &&
        calls[i] == OnRawMessageCalled(gs[k].id, raw) && calls[j] == ParsedCall(gs[k], parsed)
  {
    var ev := MessageEvent(raw, parsed);
    var calls := FanOut(gs, ev);
    FanOutAround(gs, ev, k);
    var n := |FanOut(gs[..k], ev)|;
    assert calls[n] == OnRawMessageCalled(gs[k].id, raw);
    assert calls[n + 1] == ParsedCall(gs[k], parsed);
  }

  /** Groups receive a message in registration order. */
  lemma MessageInRegistrationOrder(gs: seq<HandlerGroup>, raw: string, parsed: Option<Json>, k1: nat, k2: nat)
    requires k1 < k2 < |gs|
    ensures var calls := FanOut(gs, MessageEvent(raw, parsed));
      exists i, j :: 0 <= i < j < |calls| &&
        calls[i] == ParsedCall(gs[k1], parsed) && calls[j] == ParsedCall(gs[k2], parsed)
  {
    var ev := MessageEvent(raw, parsed);
    var calls := FanOut(gs, ev);
    FanOutAround(gs, ev, k2);
    var pre := gs[..k2];
    assert pre[k1] == gs[k1];
    FanOutAround(pre, ev, k1);
    var i := |FanOut(pre[..k1], ev)| + |Deliver(gs[k1], ev)| - 1;
    var j := |FanOut(pre, ev)| + |Deliver(gs[k2], ev)| - 1;
    assert calls[i] == ParsedCall(gs[k1], parsed);
    assert calls[j] == ParsedCall(gs[k2], parsed);
  }

  /**
   * The `forEach` over the handler groups for an open, close or error event:
   * each group's optional callback, in registration order.
   */
  method NotifyGroups(gs: seq<HandlerGroup>, ev: SocketEvent) returns (out: seq<Call>)
    requires !ev.MessageEvent?
    ensures out == FanOut(gs, ev)
  {
    out := [];
    var i := 0;
    while i < |gs|
      invariant 0 <= i <= |gs|
      invariant out == FanOut(gs[..i], ev)
    {
      var g := gs[i];
      if ev.OpenEvent? && g.hasOnOpen {
        out := out + [OnOpenCalled(g.id)];
      } else if ev.CloseEvent? && g.hasOnClose {
        out := out + [OnCloseCalled(g.id)];
      } else if ev.ErrorEvent? && g.hasOnError {
        out := out + [OnErrorCalled(g.id)];
      }
      FanOutAppend(gs[..i], [g], ev);
      assert gs[..i + 1] == gs[..i] + [g];
      i := i + 1;
    }
    assert gs[..i] == gs;
  }

  /**
   * The `forEach` of `onmessage`: each group gets `onRawMessage` (if it has one),
   * then the data is parsed for that group and either `onMessage` receives the
   * value or the failure is logged and the loop goes on.
   */
  method DeliverMessage(gs: seq<HandlerGroup>, raw: string, parse: string -> Option<Json>) returns (out: seq<Call>)
    ensures out == FanOut(gs, MessageEvent(raw, parse(raw)))
  {
    ghost var ev := MessageEvent(raw, parse(raw));
    out := [];
    var i := 0;
    while i < |gs|
      invariant 0 <= i <= |gs|
      invariant out == FanOut(gs[..i], ev)
    {
      var g := gs[i];
      if g.hasOnRawMessage {
        out := out + [OnRawMessageCalled(g.id, raw)];
      }
      var parsed := parse(raw);
      match parsed {
        case Some(v) => out := out + [OnMessageCalled(g.id, v)];
        case None => out := out + [ParseFailureLogged(g.id)];
      }
      FanOutAppend(gs[..i], [g], ev);
      assert gs[..i + 1] == gs[..i] + [g];
      i := i + 1;
    }
    assert gs[..i] == gs;
  }

  /** The `forEach` of `updateConnectionState` over the listeners. */
  method NotifyListeners(ls: seq<ListenerId>, v: bool) returns (out: seq<Call>)
    ensures out == Broadcast(ls, v)
  {
    out := [];
    var i := 0;
    while i < |ls|
      invariant 0 <= i <= |ls|
      invariant out == Broadcast(ls[..i], v)
    {
      out := out + [ListenerCalled(ls[i], v)];
      BroadcastAppend(ls[..i], [ls[i]], v);
      assert ls[..i + 1] == ls[..i] + [ls[i]];
      i := i + 1;
    }
    assert ls[..i] == ls;
  }

  /** `ws.close()` in the browser: a connecting or open socket starts closing. */
  function AfterClose(rs: ReadyState): ReadyState
  {
    if rs == Connecting || rs == Open then Closing else rs
  }

  /** The current socket is connecting or open, so `ensureSocket` keeps it. */
  predicate Live(socket: Option<SocketId>, readyStates: map<SocketId, ReadyState>)
  {
    socket.Some? && socket.value in readyStates && readyStates[socket.value] in {Connecting, Open}
  }

  class StageDirectorService {
    const url: string
    const reconnectDelayMs: nat
    /** `JSON.parse`, a partial function: `None` where it throws. */
    const parse: string -> Option<Json>
    /** `JSON.stringify`. */
    const stringify: Json -> string

    var socket: Option<SocketId>
    var handlerGroups: seq<HandlerGroup>
    var connectionListeners: seq<ListenerId>
    var reconnectTimeoutId: Option<TimerId>
    var connected: bool

    // The browser: every socket created so far with its ready state, the armed
    // timers with their delays, a source of fresh handles, and the call log.
    var readyStates: map<SocketId, ReadyState>
    var armedTimers: map<TimerId, nat>
    var nextHandle: nat
    var calls: seq<Call>

    /**
     * The service's invariant: no duplicate groups, `SocketAndTimerConsistent()`,
     * and with no handler groups neither a socket nor a pending reconnect.
     */
    ghost predicate Valid()
      reads this`handlerGroups, this`connectionListeners, this`socket, this`reconnectTimeoutId
      reads this`readyStates, this`armedTimers, this`nextHandle
    {
      && NoDup(handlerGroups)
      && SocketAndTimerConsistent()
      && (handlerGroups == [] ==> socket.None? && reconnectTimeoutId.None?)
    }

    /**
     * The part of `Valid()` that the private helpers keep: no duplicate
     * listeners, fresh handles above every used one, the current socket not yet
     * closed (it may be closing, when the server has started the closing
     * handshake), the only armed timer the remembered one, and a pending
     * reconnect only while there is no socket.
     */
    ghost predicate SocketAndTimerConsistent()
      reads this`handlerGroups, this`connectionListeners, this`socket, this`reconnectTimeoutId
      reads this`readyStates, this`armedTimers, this`nextHandle
    {
      && NoDup(connectionListeners)
      && (forall s :: s in readyStates ==> s < nextHandle)
      && (forall t :: t in armedTimers ==> t < nextHandle && armedTimers[t] == reconnectDelayMs)
      && armedTimers.Keys == OptionSet(reconnectTimeoutId)
      && (socket.Some? ==> socket.value in readyStates && readyStates[socket.value] != Closed)
      && (reconnectTimeoutId.Some? ==> socket.None?)
    }

    constructor (url: string, reconnectDelayMs: nat, parse: string -> Option<Json>, stringify: Json -> string)
      ensures Valid()
      ensures this.url == url && this.reconnectDelayMs == reconnectDelayMs
      ensures this.parse == parse && this.stringify == stringify
      ensures socket.None? && handlerGroups == [] && connectionListeners == []
      ensures reconnectTimeoutId.None? && !connected
      ensures readyStates == map[] && armedTimers == map[] && nextHandle == 0 && calls == []
    {
      this.url := url;
      this.reconnectDelayMs := reconnectDelayMs;
      this.parse := parse;
      this.stringify := stringify;
      socket := None;
      handlerGroups := [];
      connectionListeners := [];
      reconnectTimeoutId := None;
      connected := false;
      readyStates := map[];
      armedTimers := map[];
      nextHandle := 0;
      calls := [];
    }

    /** The service as the program builds it, with the default reconnect delay. */
    constructor Default(url: string, parse: string -> Option<Json>, stringify: Json -> string)
      ensures Valid()
      ensures this.url == url && reconnectDelayMs == ReconnectDelayMs
      ensures this.parse == parse && this.stringify == stringify
      ensures socket.None? && handlerGroups == [] && connectionListeners == []
      ensures reconnectTimeoutId.None? && !connected
      ensures readyStates == map[] && armedTimers == map[] && nextHandle == 0 && calls == []
    {
      this.url := url;
      reconnectDelayMs := ReconnectDelayMs;
      this.parse := parse;
      this.stringify := stringify;
      socket := None;
      handlerGroups := [];
      connectionListeners := [];
      reconnectTimeoutId := None;
      connected := false;
      readyStates := map[];
      armedTimers := map[];
      nextHandle := 0;
      calls := [];
    }

    /**
     * `registerHandlers`: adds the group and makes sure a socket exists. While
     * the current socket is connecting or open nothing else happens; otherwise
     * (no socket, or one that is closing) a fresh socket becomes current and a
     * closing one is left stale.
     */
    method RegisterHandlers(g: HandlerGroup)
      requires Valid()
      modifies this
      ensures Valid()
      ensures handlerGroups == AddIfAbsent(old(handlerGroups), g)
      ensures connectionListeners == old(connectionListeners) && connected == old(connected)
      ensures Live(old(socket), old(readyStates)) ==>
        && socket == old(socket) && readyStates == old(readyStates)
        && reconnectTimeoutId == old(reconnectTimeoutId) && armedTimers == old(armedTimers)
        && calls == old(calls)
      ensures !Live(old(socket), old(readyStates)) ==>
        && socket == Some(old(nextHandle)) && socket != old(socket)
        && readyStates == old(readyStates)[old(nextHandle) := Connecting]
        && reconnectTimeoutId.None? && armedTimers == map[]
        && calls == old(calls) + [SocketCreated(old(nextHandle))]
    {
      handlerGroups := AddIfAbsent(handlerGroups, g);
      EnsureSocket();
    }

    /**
     * The function `registerHandlers` returns: removes the group and, when no
     * group is left, tears the socket down. `connected` is left as it was.
     */
    method UnregisterHandlers(g: HandlerGroup)
      requires Valid()
      modifies this
      ensures Valid()
      ensures handlerGroups == Without(old(handlerGroups), g)
      ensures connectionListeners == old(connectionListeners) && connected == old(connected)
      ensures handlerGroups != [] ==>
        && socket == old(socket) && readyStates == old(readyStates)
        && reconnectTimeoutId == old(reconnectTimeoutId) && armedTimers == old(armedTimers)
        && calls == old(calls)
      ensures handlerGroups == [] ==> socket.None? && reconnectTimeoutId.None? && armedTimers == map[]
      ensures handlerGroups == [] && old(socket).Some? ==>
        && readyStates == old(readyStates)[old(socket).value := Closing]
        && calls == old(calls) + [SocketCloseCalled(old(socket).value)]
      ensures handlerGroups == [] && old(socket).None? ==>
        readyStates == old(readyStates) && calls == old(calls)
    {
      handlerGroups := Without(handlerGroups, g);
      if |handlerGroups| == 0 {
        TeardownSocket();
      }
    }

    /** `addConnectionListener`: adds the listener and calls it at once with `connected`. */
    method AddConnectionListener(l: ListenerId)
      requires Valid()
      modifies this
      ensures Valid()
      ensures connectionListeners == AddIfAbsent(old(connectionListeners), l)
      ensures calls == old(calls) + [ListenerCalled(l, connected)]
      ensures connected == old(connected) && handlerGroups == old(handlerGroups) && socket == old(socket)
      ensures readyStates == old(readyStates) && reconnectTimeoutId == old(reconnectTimeoutId)
      ensures armedTimers == old(armedTimers)
    {
      connectionListeners := AddIfAbsent(connectionListeners, l);
      calls := calls + [ListenerCalled(l, connected)];
    }

    /** The function `addConnectionListener` returns: deletes only that listener. */
    method RemoveConnectionListener(l: ListenerId)
      requires Valid()
      modifies this
      ensures Valid()
      ensures connectionListeners == Without(old(connectionListeners), l)
      ensures calls == old(calls) && connected == old(connected) && handlerGroups == old(handlerGroups)
      ensures socket == old(socket) && readyStates == old(readyStates)
      ensures reconnectTimeoutId == old(reconnectTimeoutId) && armedTimers == old(armedTimers)
    {
      connectionListeners := Without(connectionListeners, l);
    }

    /**
     * `send`: nothing happens unless the current socket is open; a string goes
     * out as it is, an object as its `JSON.stringify` text.
     */
    method Send(m: Outgoing)
      requires Valid()
      modifies this
      ensures Valid()
      ensures old(socket).None? || old(readyStates)[old(socket).value] != Open ==> calls == old(calls)
      ensures old(socket).Some? && old(readyStates)[old(socket).value] == Open ==>
        calls == old(calls) + [SocketSent(old(socket).value, if m.Text? then m.text else stringify(m.value))]
      ensures socket == old(socket) && readyStates == old(readyStates) && connected == old(connected)
      ensures handlerGroups == old(handlerGroups) && connectionListeners == old(connectionListeners)
      ensures reconnectTimeoutId == old(reconnectTimeoutId) && armedTimers == old(armedTimers)
    {
      if socket.None? || readyStates[socket.value] != Open {
        return;
      }
      var payload := match m case Text(t) => t case Structured(v) => stringify(v);
      calls := calls + [SocketSent(socket.value, payload)];
    }

    /** `getIsConnected`. */
    method GetIsConnected() returns (r: bool)
      ensures r == connected
    {
      r := connected;
    }

    /**
     * `ensureSocket`: a new socket unless the current one is open or connecting;
     * a closing current socket is replaced and so becomes stale.
     */
    method EnsureSocket()
      requires Valid() && handlerGroups != []
      modifies this
      ensures Valid()
      ensures handlerGroups == old(handlerGroups) && connectionListeners == old(connectionListeners)
      ensures connected == old(connected)
      ensures Live(old(socket), old(readyStates)) ==>
        && socket == old(socket) && readyStates == old(readyStates)
        && reconnectTimeoutId == old(reconnectTimeoutId) && armedTimers == old(armedTimers)
        && calls == old(calls)
      ensures !Live(old(socket), old(readyStates)) ==>
        && socket == Some(old(nextHandle)) && socket != old(socket)
        && readyStates == old(readyStates)[old(nextHandle) := Connecting]
        && reconnectTimeoutId.None? && armedTimers == map[]
        && calls == old(calls) + [SocketCreated(old(nextHandle))]
    {
      if socket.Some? && (readyStates[socket.value] == Open || readyStates[socket.value] == Connecting) {
        return;
      }
      OpenNewSocket();
    }

    /**
     * `openNewSocket`: cancels a pending reconnect and makes a fresh socket
     * current; a socket that was current is overwritten, not closed.
     */
    method OpenNewSocket()
      requires SocketAndTimerConsistent() && handlerGroups != [] && NoDup(handlerGroups)
      modifies this
      ensures Valid()
      ensures socket == Some(old(nextHandle)) && socket != old(socket)
      ensures readyStates == old(readyStates)[old(nextHandle) := Connecting]
      ensures reconnectTimeoutId.None? && armedTimers == map[]
      ensures calls == old(calls) + [SocketCreated(old(nextHandle))]
      ensures handlerGroups == old(handlerGroups) && connectionListeners == old(connectionListeners)
      ensures connected == old(connected)
    {
      ClearReconnect();
      var ws := nextHandle;
      nextHandle := nextHandle + 1;
      readyStates := readyStates[ws := Connecting];
      calls := calls + [SocketCreated(ws)];
      socket := Some(ws);
    }

    /** `ws.close()` on one socket. */
    method CloseSocket(ws: SocketId)
      requires ws in readyStates
      modifies this`readyStates, this`calls
      ensures readyStates == old(readyStates)[ws := AfterClose(old(readyStates)[ws])]
      ensures calls == old(calls) + [SocketCloseCalled(ws)]
    {
      readyStates := readyStates[ws := AfterClose(readyStates[ws])];
      calls := calls + [SocketCloseCalled(ws)];
    }

    /**
     * `teardownSocket`: cancels a pending reconnect, forgets the socket and only
     * then closes it, so that its later close event is stale.
     */
    method TeardownSocket()
      requires SocketAndTimerConsistent()
      modifies this
      ensures SocketAndTimerConsistent()
      ensures socket.None? && reconnectTimeoutId.None? && armedTimers == map[]
      ensures old(socket).Some? ==>
        && readyStates == old(readyStates)[old(socket).value := Closing]
        && calls == old(calls) + [SocketCloseCalled(old(socket).value)]
      ensures old(socket).None? ==> readyStates == old(readyStates) && calls == old(calls)
      ensures handlerGroups == old(handlerGroups) && connectionListeners == old(connectionListeners)
      ensures connected == old(connected) && nextHandle == old(nextHandle)
    {
      ClearReconnect();
      if socket.None? {
        return;
      }
      var ws := socket.value;
      socket := None;
      CloseSocket(ws);
    }

    /** `scheduleReconnect`: arms the reconnect timer unless one is pending. */
    method ScheduleReconnect()
      requires SocketAndTimerConsistent() && socket.None?
      modifies this`reconnectTimeoutId, this`armedTimers, this`nextHandle
      ensures SocketAndTimerConsistent()
      ensures old(reconnectTimeoutId).Some? ==> reconnectTimeoutId == old(reconnectTimeoutId) && armedTimers == old(armedTimers)
      ensures old(reconnectTimeoutId).None? ==>
        reconnectTimeoutId == Some(old(nextHandle)) && armedTimers == map[old(nextHandle) := reconnectDelayMs]
      ensures |armedTimers| == 1
    {
      if reconnectTimeoutId.Some? {
        return;
      }
      var t := nextHandle;
      nextHandle := nextHandle + 1;
      armedTimers := map[t := reconnectDelayMs];
      reconnectTimeoutId := Some(t);
    }

    /** `clearReconnect`: cancels the pending reconnect timer, if any. */
    method ClearReconnect()
      requires SocketAndTimerConsistent()
      modifies this`reconnectTimeoutId, this`armedTimers
      ensures SocketAndTimerConsistent()
      ensures reconnectTimeoutId.None? && armedTimers == map[]
    {
      if reconnectTimeoutId.None? {
        return;
      }
      armedTimers := armedTimers - {reconnectTimeoutId.value};
      reconnectTimeoutId := None;
    }

    /** `updateConnectionState`: listeners hear only about real changes. */
    method UpdateConnectionState(isConnected: bool)
      modifies this`connected, this`calls
      ensures connected == isConnected
      ensures old(connected) == isConnected ==> calls == old(calls)
      ensures old(connected) != isConnected ==> calls == old(calls) + Broadcast(connectionListeners, isConnected)
    {
      if connected == isConnected {
        return;
      }
      connected := isConnected;
      var out := NotifyListeners(connectionListeners, isConnected);
      calls := calls + out;
    }

    /**
     * The browser starts the closing handshake of an open socket (the server
     * asked to close): it becomes `Closing`, and no handler runs until its close
     * event.
     */
    method SocketStartsClosing(ws: SocketId)
      requires Valid() && ws in readyStates && readyStates[ws] == Open
      modifies this`readyStates
      ensures Valid()
      ensures readyStates == old(readyStates)[ws := Closing]
    {
      readyStates := readyStates[ws := Closing];
    }

    /**
     * `ws.onopen`. The browser makes the socket open; a stale socket is closed
     * and nothing else changes; for the current one `connected` becomes true and
     * every group's `onOpen` runs. The open event follows only a connecting
     * state, so a current socket that is closing has been open already.
     */
    method SocketOpened(ws: SocketId)
      requires Valid()
      requires ws in readyStates && readyStates[ws] in {Connecting, Closing}
      requires socket == Some(ws) ==> readyStates[ws] == Connecting
      modifies this
      ensures Valid()
      ensures socket == old(socket) && handlerGroups == old(handlerGroups)
      ensures connectionListeners == old(connectionListeners)
      ensures reconnectTimeoutId == old(reconnectTimeoutId) && armedTimers == old(armedTimers)
      ensures old(socket) != Some(ws) ==>
        && connected == old(connected)
        && readyStates == old(readyStates)[ws := Closing]
        && calls == old(calls) + [SocketCloseCalled(ws)]
      ensures old(socket) == Some(ws) ==>
        && connected
        && readyStates == old(readyStates)[ws := Open]
        && calls == old(calls) + (if old(connected) then [] else Broadcast(connectionListeners, true))
                               + FanOut(handlerGroups, OpenEvent)
    {
      if readyStates[ws] == Connecting {
        readyStates := readyStates[ws := Open];
      }
      if socket != Some(ws) {
        CloseSocket(ws);
        assert readyStates == old(readyStates)[ws := Closing];
        return;
      }
      assert readyStates == old(readyStates)[ws := Open];
      assert SocketAndTimerConsistent();
      UpdateConnectionState(true);
      var out := NotifyGroups(handlerGroups, OpenEvent);
      calls := calls + out;
    }

    /**
     * `ws.onclose`. A stale socket's close changes nothing of the service. For
     * the current socket: `connected` becomes false (listeners are told before
     * any `onClose`), the socket is forgotten, every group's `onClose` runs and a
     * reconnect is scheduled exactly when groups remain.
     */
    method SocketClosed(ws: SocketId)
      requires Valid()
      requires ws in readyStates && readyStates[ws] != Closed
      modifies this
      ensures Valid()
      ensures readyStates == old(readyStates)[ws := Closed]
      ensures handlerGroups == old(handlerGroups) && connectionListeners == old(connectionListeners)
      ensures old(socket) != Some(ws) ==>
        && socket == old(socket) && connected == old(connected) && calls == old(calls)
        && reconnectTimeoutId == old(reconnectTimeoutId) && armedTimers == old(armedTimers)
      ensures old(socket) == Some(ws) ==>
        && socket.None? && !connected
        && calls == old(calls) + (if old(connected) then Broadcast(connectionListeners, false) else [])
                               + FanOut(handlerGroups, CloseEvent)
        && (reconnectTimeoutId.Some? <==> handlerGroups != [])
        && (handlerGroups != [] ==>
              reconnectTimeoutId == Some(old(nextHandle))
              && armedTimers == map[old(nextHandle) := reconnectDelayMs])
    {
      // The browser has marked the socket closed before the handler runs; the
      // handler never reads the ready state, so it is written last here.
      if socket == Some(ws) {
        CurrentSocketClosed();
      }
      readyStates := readyStates[ws := Closed];
    }

    /** The part of `ws.onclose` past the staleness check. */
    method CurrentSocketClosed()
      requires Valid() && socket.Some?
      modifies this`connected, this`calls, this`socket, this`reconnectTimeoutId, this`armedTimers, this`nextHandle
      ensures Valid()
      ensures socket.None? && !connected
      ensures calls == old(calls) + (if old(connected) then Broadcast(connectionListeners, false) else [])
                                  + FanOut(handlerGroups, CloseEvent)
      ensures (reconnectTimeoutId.Some? <==> handlerGroups != [])
      ensures handlerGroups != [] ==>
        reconnectTimeoutId == Some(old(nextHandle)) && armedTimers == map[old(nextHandle) := reconnectDelayMs]
    {
      UpdateConnectionState(false);
      socket := None;
      var out := NotifyGroups(handlerGroups, CloseEvent);
      calls := calls + out;
      if |handlerGroups| > 0 {
        ScheduleReconnect();
      }
    }

    /** `ws.onerror`: every group's `onError` runs, with no staleness check. */
    method SocketErrored(ws: SocketId)
      requires Valid()
      requires ws in readyStates
      modifies this
      ensures Valid()
      ensures calls == old(calls) + FanOut(handlerGroups, ErrorEvent)
      ensures socket == old(socket) && readyStates == old(readyStates) && connected == old(connected)
      ensures handlerGroups == old(handlerGroups) && connectionListeners == old(connectionListeners)
      ensures reconnectTimeoutId == old(reconnectTimeoutId) && armedTimers == old(armedTimers)
    {
      var out := NotifyGroups(handlerGroups, ErrorEvent);
      calls := calls + out;
    }

    /**
     * `ws.onmessage`: ignored for a stale socket; otherwise every group gets the
     * raw data and then its parse outcome.
     */
    method SocketMessage(ws: SocketId, data: string)
      requires Valid()
      requires ws in readyStates && readyStates[ws] in {Open, Closing}
      modifies this
      ensures Valid()
      ensures old(socket) != Some(ws) ==> calls == old(calls)
      ensures old(socket) == Some(ws) ==> calls == old(calls) + FanOut(handlerGroups, MessageEvent(data, parse(data)))
      ensures socket == old(socket) && readyStates == old(readyStates) && connected == old(connected)
      ensures handlerGroups == old(handlerGroups) && connectionListeners == old(connectionListeners)
      ensures reconnectTimeoutId == old(reconnectTimeoutId) && armedTimers == old(armedTimers)
    {
      if socket != Some(ws) {
        return;
      }
      var out := DeliverMessage(handlerGroups, data, parse);
      calls := calls + out;
    }

    /**
     * The reconnect timer's callback: it forgets itself and opens a socket if
     * groups remain and there is none.
     */
    method ReconnectTimerFires(t: TimerId)
      requires Valid()
      requires t in armedTimers
      modifies this
      ensures Valid()
      ensures reconnectTimeoutId.None? && armedTimers == map[]
      ensures handlerGroups == old(handlerGroups) && connectionListeners == old(connectionListeners)
      ensures connected == old(connected)
      ensures old(handlerGroups) != [] && old(socket).None? ==>
        && socket == Some(old(nextHandle))
        && readyStates == old(readyStates)[old(nextHandle) := Connecting]
        && calls == old(calls) + [SocketCreated(old(nextHandle))]
      ensures !(old(handlerGroups) != [] && old(socket).None?) ==>
        socket == old(socket) && readyStates == old(readyStates) && calls == old(calls)
    {
      armedTimers := armedTimers - {t};
      reconnectTimeoutId := None;
      if |handlerGroups| > 0 && socket.None? {
        EnsureSocket();
      }
    }
  }

  /**
   * A service with one connection listener (7) and one group, whose socket
   * `h` has opened.
   */
  method ConnectedService(parse: string -> Option<Json>, stringify: Json -> string)
    returns (s: StageDirectorService, h: SocketId)
    ensures fresh(s) && s.Valid()
    ensures s.socket == Some(h) && s.readyStates == map[h := Open]
    ensures s.connected && s.reconnectTimeoutId.None? && |s.handlerGroups| == 1 && s.connectionListeners == [7]
    ensures s.calls == [ListenerCalled(7, false), SocketCreated(h), ListenerCalled(7, true)]
  {
    var g := HandlerGroup(0, false, false, false, false);
    s := new StageDirectorService.Default("ws://stage", parse, stringify);
    s.AddConnectionListener(7);
    assert s.connectionListeners == [7] && s.calls == [ListenerCalled(7, false)];
    s.RegisterHandlers(g);
    h := s.socket.value;
    assert s.readyStates == map[h := Connecting] && s.handlerGroups == [g];
    assert Broadcast([7], true) == [ListenerCalled(7, true)];
    assert FanOut([g], OpenEvent) == [];
    s.SocketOpened(h);
  }

  /**
   * A socket the server has started to close is replaced when a group
   * registers before its close event: that event is then stale, so `connected`
   * stays true, no listener hears `false` and no reconnect is armed, while the
   * replacement socket is still connecting.
   */
  method ClosingSocketReplacedHidesDisconnect(parse: string -> Option<Json>, stringify: Json -> string)
    returns (s: StageDirectorService, closed: SocketId)
    ensures s.Valid()
    ensures s.socket.Some? && s.socket.value != closed
    ensures s.readyStates == map[closed := Closed, s.socket.value := Connecting]
    ensures s.connected && s.reconnectTimeoutId.None?
    ensures s.calls == [ListenerCalled(7, false), SocketCreated(closed), ListenerCalled(7, true), SocketCreated(s.socket.value)]
  {
    s, closed := ConnectedService(parse, stringify);
    s.SocketStartsClosing(closed);
    s.RegisterHandlers(HandlerGroup(1, false, false, false, false));
    var replacement := s.socket.value;
    assert s.readyStates == map[closed := Closing, replacement := Connecting];
    s.SocketClosed(closed);
  }
}
