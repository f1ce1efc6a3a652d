/**
 * The server-side relay client (mcp-server/src/relay-client.ts): a connection state machine
 * (connected flag, reconnect timer, auto-reconnect flag, heartbeat) around the command
 * correlator of module Correlator. Socket events, timer expiries and the clock are the inputs
 * of the methods; what goes out on the socket is what the methods return.
 */
module RelayClient {
  import opened Wrappers
  import opened Json
  import opened Liveness
  import opened Correlator

  // ---------------------------------------------------------------------------------------------
  // Messages

  /**
   * The envelope `sendCommand` sends: `{id, method: 'forwardCDPCommand', params: {method,
   * params, sessionId}}`, where `params` is left out when undefined and `sessionId` is present
   * only when a non-empty one was supplied.
   */
  function CommandMessage(id: nat, command: string, params: Option<JsValue>, sessionId: Option<string>): (m: JsValue)
    ensures Prop(m, "id") == Some(JNum(id as real)) && PropIs(m, "method", "forwardCDPCommand")
    ensures m.JObj? && "params" in m.fields && m.fields["params"].JObj?
    ensures var inner := m.fields["params"].fields;
      PropIs(m.fields["params"], "method", command) &&
      ("params" in inner <==> params.Some?) && (params.Some? ==> inner["params"] == params.value) &&
      ("sessionId" in inner <==> sessionId.Some? && sessionId.value != "") &&
      (sessionId.Some? && sessionId.value != "" ==> inner["sessionId"] == JStr(sessionId.value))
  {
    var withParams := if params.Some? then map["params" := params.value] else map[];
    var withSession := if sessionId.Some? && sessionId.value != "" then map["sessionId" := JStr(sessionId.value)] else map[];
    var inner := map["method" := JStr(command)] + withParams + withSession;
    JObj(map["id" := JNum(id as real), "method" := JStr("forwardCDPCommand"), "params" := JObj(inner)])
  }

  /** A CDP event forwarded by the extension, as emitted: the fields are read off `msg.params` unchecked. */
  datatype CdpEvent = CdpEvent(sessionId: Option<JsValue>, name: Option<JsValue>, params: Option<JsValue>)

  /** How `handleMessage` reads an incoming frame. */
  datatype Incoming =
    | NotJson                               // `JSON.parse` threw: ignored
    | NullMessage                           // `null`: reading `msg.method` throws a TypeError
    | Ping
    | Pong
    | Response(id: real, outcome: Outcome)  // numeric id with a result or an error
    | Event(ev: CdpEvent)                   // `forwardCDPEvent` with truthy params
    | Unhandled

  /** `msg.id` is a number and `msg.result` or `msg.error` is present. */
  predicate IsResponse(v: JsValue) {
    Prop(v, "id").Some? && Prop(v, "id").value.JNum? && (Prop(v, "result").Some? || Prop(v, "error").Some?)
  }

  /** A truthy `msg.error` rejects the call; otherwise it is resolved with `msg.result`. */
  function ResponseOutcome(v: JsValue): (o: Outcome)
    ensures o.Rejected? <==> Prop(v, "error").Some? && JsTruthy(Prop(v, "error").value)
    ensures o.Rejected? ==> o.why == RemoteError(Prop(v, "error").value)
    ensures o.Resolved? ==> o.result == Prop(v, "result")
  {
    match Prop(v, "error")
    case Some(e) => if JsTruthy(e) then Rejected(RemoteError(e)) else Resolved(Prop(v, "result"))
    case None => Resolved(Prop(v, "result"))
  }

  /** The order of tests in `handleMessage`: ping, pong, response, forwarded event. */
  function ReadIncoming(f: Frame): (m: Incoming)
    ensures m == NotJson <==> f.json.None?
    ensures m == NullMessage <==> f.json == Some(JNull)
    ensures m == Ping <==> f.json.Some? && PropIs(f.json.value, "method", "ping")
    ensures m == Pong <==> f.json.Some? && PropIs(f.json.value, "method", "pong")
    ensures m.Response? <==>
      f.json.Some? && !PropIs(f.json.value, "method", "ping") && !PropIs(f.json.value, "method", "pong") &&
      IsResponse(f.json.value)
    ensures m.Response? ==> Prop(f.json.value, "id") == Some(JNum(m.id)) && m.outcome == ResponseOutcome(f.json.value)
    ensures m.Event? <==>
      f.json.Some? && f.json.value != JNull && !PropIs(f.json.value, "method", "ping") && !PropIs(f.json.value, "method", "pong") &&
      !IsResponse(f.json.value) &&
      PropIs(f.json.value, "method", "forwardCDPEvent") && Prop(f.json.value, "params").Some? && JsTruthy(Prop(f.json.value, "params").value)
    ensures m.Event? ==>
      var p := Prop(f.json.value, "params").value;
      m.ev == CdpEvent(Prop(p, "sessionId"), Prop(p, "method"), Prop(p, "params"))
  {
    match f.json
    case None => NotJson
    case Some(v) =>
      if v == JNull then NullMessage
      else if PropIs(v, "method", "ping") then Ping
      else if PropIs(v, "method", "pong") then Pong
      else if IsResponse(v) then Response(Prop(v, "id").value.n, ResponseOutcome(v))
      else if PropIs(v, "method", "forwardCDPEvent") && Prop(v, "params").Some? && JsTruthy(Prop(v, "params").value) then
        var p := Prop(v, "params").value;
        Event(CdpEvent(Prop(p, "sessionId"), Prop(p, "method"), Prop(p, "params")))
      else Unhandled
  }

  /** The pending-table key a numeric `msg.id` can match: only a non-negative whole number matches one. */
  function KeyOf(n: real): (k: Option<nat>)
    ensures k.Some? <==> n >= 0.0 && n.Floor as real == n
    ensures k.Some? ==> k.value as real == n
  {
    if n >= 0.0 && n.Floor as real == n then Some(n.Floor as nat) else None
  }

  /** What a response does to the correlator: the call with that id is settled, an unknown id is ignored. */
  function ApplyResponse(l: Ledger, id: real, o: Outcome): (r: Ledger)
    ensures KeyOf(id).None? ==> r == l
    ensures KeyOf(id).Some? ==> r == Settle(l, KeyOf(id).value, o)
  {
    match KeyOf(id)
    case None => l
    case Some(k) => Settle(l, k, o)
  }

  /** What a heartbeat tick did. */
  datatype TickAction = NotRunning | StoppedNotConnected | Terminated | PingSent

  datatype ConnectOutcome = AlreadyConnected | Opened | ConnectFailed

  datatype SendOutcome = NotConnected | Sent(id: nat, message: JsValue) | SendThrew(id: nat)

  // ---------------------------------------------------------------------------------------------
  // The client

  class RelayClient {
    /** `_connected`; the socket `ws` is present exactly when this is set (socket identity is not modelled). */
    var connected: bool
    var nextId: nat
    /** `pending`, in insertion order. */
    var pending: seq<PendingCall>
    /** How every call settled so far was settled (the promises' resolve/reject calls). */
    ghost var settled: seq<Settlement>
    /** The armed reconnect timer, holding the delay it was armed with. */
    var reconnectTimer: Option<int>
    var reconnectDelay: int
    var autoReconnect: bool
    /** `heartbeatInterval !== null`. */
    var heartbeatRunning: bool
    var lastPongTime: int

    ghost function Calls(): Ledger
      reads this
    {
      Ledger(nextId, pending, settled)
    }

    ghost predicate Valid()
      reads this
    {
      LedgerValid(Calls()) && InBackoffRange(reconnectDelay) &&
      (reconnectTimer.Some? ==> InBackoffRange(reconnectTimer.value))
    }

    constructor ()
      ensures Valid()
      ensures !connected && Calls() == InitialLedger && reconnectTimer.None?
      ensures reconnectDelay == BaseReconnectDelay && autoReconnect && !heartbeatRunning && lastPongTime == 0
    {
      connected, nextId, pending, settled := false, 1, [], [];
      reconnectTimer, reconnectDelay, autoReconnect := None, BaseReconnectDelay, true;
      heartbeatRunning, lastPongTime := false, 0;
      InitialLedgerValid();
    }

    /** The `open` handler: connected, back-off reset, heartbeat (re)started with `now` as the last pong. */
    method Open(now: int)
      requires Valid()
      modifies this
      ensures Valid()
      ensures connected && reconnectDelay == BaseReconnectDelay && heartbeatRunning && lastPongTime == now
      ensures Calls() == old(Calls()) && reconnectTimer == old(reconnectTimer) && autoReconnect == old(autoReconnect)
    {
      connected := true;
      reconnectDelay := BaseReconnectDelay;
      heartbeatRunning := true;
      lastPongTime := now;
    }

    /**
     * `connect()`: nothing when already connected; otherwise the attempt either opens (`succeeds`)
     * or fails (preflight unreachable, an error or close before open, or the 5 s timeout).
     */
    method Connect(succeeds: bool, now: int) returns (r: ConnectOutcome)
      requires Valid()
      modifies this
      ensures Valid()
      ensures old(connected) ==> r == AlreadyConnected && unchanged(this)
      ensures !old(connected) && !succeeds ==> r == ConnectFailed && unchanged(this)
      ensures !old(connected) && succeeds ==>
        r == Opened && connected && reconnectDelay == BaseReconnectDelay && heartbeatRunning && lastPongTime == now &&
        Calls() == old(Calls()) && reconnectTimer == old(reconnectTimer) && autoReconnect == old(autoReconnect)
    {
      if connected {
        return AlreadyConnected;
      }
      if !succeeds {
        return ConnectFailed;
      }
      Open(now);
      r := Opened;
    }

    /**
     * `sendCommand`: refused when not connected; otherwise the call takes `nextId`, is registered,
     * and the envelope is sent. If the send throws, the entry is removed and the call rejected.
     */
    method SendCommand(command: string, params: Option<JsValue>, sessionId: Option<string>, sendError: Option<string>)
        returns (r: SendOutcome)
      requires Valid()
      modifies this
      ensures Valid()
      ensures !old(connected) ==> r == NotConnected && Calls() == old(Calls())
      ensures old(connected) && sendError.None? ==>
        r == Sent(old(nextId), CommandMessage(old(nextId), command, params, sessionId)) &&
        Calls() == Issue(old(Calls()), command)
      ensures old(connected) && sendError.Some? ==>
        r == SendThrew(old(nextId)) &&
        Calls() == Settle(Issue(old(Calls()), command), old(nextId), Rejected(SendFailed(sendError.value)))
      ensures connected == old(connected) && reconnectTimer == old(reconnectTimer) && reconnectDelay == old(reconnectDelay)
      ensures autoReconnect == old(autoReconnect) && heartbeatRunning == old(heartbeatRunning) && lastPongTime == old(lastPongTime)
    {
      if !connected {
        return NotConnected;
      }
      var id := nextId;
      ghost var issued := Issue(Ledger(nextId, pending, settled), command);
      IssueKeepsValid(Ledger(nextId, pending, settled), command);
      ghost var after := issued;
      var calls := pending + [PendingCall(id, command)];
      if sendError.Some? {
        SettleKeepsValid(issued, id, Rejected(SendFailed(sendError.value)));
        assert calls[|calls| - 1].id == id;
        after := Settle(issued, id, Rejected(SendFailed(sendError.value)));
        calls := RemoveId(calls, id);
        r := SendThrew(id);
      } else {
        r := Sent(id, CommandMessage(id, command, params, sessionId));
      }
      assert calls == after.pending;
      nextId, pending := id + 1, calls;
      settled := after.settled;
      assert Calls() == after;
    }

    /** The 30 s timer of call `id`: it rejects the call only if it is still pending. */
    method Timeout(id: nat)
      requires Valid()
      modifies this
      ensures Valid()
      ensures FindCall(old(pending), id).None? ==> Calls() == old(Calls())
      ensures FindCall(old(pending), id).Some? ==>
        Calls() == Settle(old(Calls()), id, Rejected(TimedOut(FindCall(old(pending), id).value.command)))
      ensures connected == old(connected) && reconnectTimer == old(reconnectTimer) && reconnectDelay == old(reconnectDelay)
      ensures autoReconnect == old(autoReconnect) && heartbeatRunning == old(heartbeatRunning) && lastPongTime == old(lastPongTime)
    {
      match FindCall(pending, id)
      case None =>
      case Some(c) =>
        SettleKeepsValid(Calls(), id, Rejected(TimedOut(c.command)));
        pending := RemoveId(pending, id);
        settled := settled + [Settlement(id, Rejected(TimedOut(c.command)))];
    }

    /**
     * `handleMessage`: a ping is answered with a pong when a socket is present, a pong records
     * `now`, a response settles its call (an unknown id is ignored), a forwarded event is
     * emitted; everything else is ignored.
     */
    method HandleMessage(f: Frame, now: int) returns (m: Incoming, pongSent: bool)
      requires Valid()
      modifies this
      ensures Valid()
      ensures m == ReadIncoming(f)
      ensures pongSent <==> m == Ping && connected
      ensures m == Pong ==> lastPongTime == now
      ensures m != Pong ==> lastPongTime == old(lastPongTime)
      ensures m.Response? ==> Calls() == ApplyResponse(old(Calls()), m.id, m.outcome)
      ensures !m.Response? ==> Calls() == old(Calls())
      ensures connected == old(connected) && reconnectTimer == old(reconnectTimer) && reconnectDelay == old(reconnectDelay)
      ensures autoReconnect == old(autoReconnect) && heartbeatRunning == old(heartbeatRunning)
    {
      m := ReadIncoming(f);
      pongSent := false;
      match m
      case Ping => pongSent := connected;
      case Pong => lastPongTime := now;
      case Response(id, o) =>
        var key := KeyOf(id);
        if key.Some? && FindCall(pending, key.value).Some? {
          SettleKeepsValid(Calls(), key.value, o);
          pending := RemoveId(pending, key.value);
          settled := settled + [Settlement(key.value, o)];
        }
      case NotJson =>
      case NullMessage =>
      case Event(_) =>
      case Unhandled =>
    }

    /** `scheduleReconnect`: arms the timer with the current delay unless one is already armed. */
    method ScheduleReconnect()
      requires Valid()
      modifies this
      ensures Valid()
      ensures reconnectTimer == if old(reconnectTimer).Some? then old(reconnectTimer) else Some(reconnectDelay)
      ensures Calls() == old(Calls()) && connected == old(connected) && reconnectDelay == old(reconnectDelay)
      ensures autoReconnect == old(autoReconnect) && heartbeatRunning == old(heartbeatRunning) && lastPongTime == old(lastPongTime)
    {
      if reconnectTimer.None? {
        reconnectTimer := Some(reconnectDelay);
      }
    }

    /**
     * The socket's `close` or `error` event (`reason` is "closed" or "error"): ignored unless
     * connected; otherwise `onDisconnected` stops the heartbeat, rejects every pending call and,
     * with auto-reconnect on, schedules a reconnect.
     */
    method OnSocketClosed(reason: string)
      requires Valid()
      modifies this
      ensures Valid()
      ensures !old(connected) ==> unchanged(this)
      ensures old(connected) ==>
        !connected && !heartbeatRunning && Calls() == SettleAll(old(Calls()), Disconnected(reason)) &&
        reconnectTimer == (if autoReconnect && old(reconnectTimer).None? then Some(reconnectDelay) else old(reconnectTimer)) &&
        reconnectDelay == old(reconnectDelay) && autoReconnect == old(autoReconnect) && lastPongTime == old(lastPongTime)
    {
      if !connected {
        return;
      }
      connected := false;
      heartbeatRunning := false;
      var why := Disconnected(reason);
      ghost var l0 := Calls();
      var entries, remaining, rejected := pending, pending, settled;
      for k := 0 to |entries|
        invariant remaining == entries[k..]
        invariant rejected == l0.settled + RejectAll(entries[..k], why)
      {
        // the entry being deleted is the first one left in the table
        assert RejectAll(entries[..k + 1], why) == RejectAll(entries[..k], why) + [Settlement(entries[k].id, Rejected(why))];
        remaining := remaining[1..];
        rejected := rejected + [Settlement(entries[k].id, Rejected(why))];
      }
      assert entries[..|entries|] == entries;
      pending, settled := remaining, rejected;
      SettleAllKeepsValid(l0, why);
      if autoReconnect {
        ScheduleReconnect();
      }
    }

    /**
     * The reconnect timer fires: it is cleared and `connect()` runs; after a failure the delay
     * doubles up to the cap and, with auto-reconnect still on, the timer is armed again.
     */
    method ReconnectFired(succeeds: bool, now: int)
      requires Valid() && reconnectTimer.Some?
      modifies this
      ensures Valid()
      ensures Calls() == old(Calls()) && autoReconnect == old(autoReconnect)
      ensures old(connected) ==> connected && reconnectTimer.None? && reconnectDelay == old(reconnectDelay)
      ensures !old(connected) && succeeds ==> connected && reconnectTimer.None? && reconnectDelay == BaseReconnectDelay
      ensures !old(connected) && !succeeds ==>
        !connected && reconnectDelay == NextDelay(old(reconnectDelay)) &&
        reconnectTimer == (if autoReconnect then Some(NextDelay(old(reconnectDelay))) else None)
    {
      reconnectTimer := None;
      var r := Connect(succeeds, now);
      if r == ConnectFailed {
        reconnectDelay := NextDelay(reconnectDelay);
        if autoReconnect {
          ScheduleReconnect();
        }
      }
    }

    /** `disconnect()`: auto-reconnect off, heartbeat and timer cleared, socket closed. Pending calls are left to time out. */
    method Disconnect()
      requires Valid()
      modifies this
      ensures Valid()
      ensures !autoReconnect && !heartbeatRunning && reconnectTimer.None? && !connected
      ensures Calls() == old(Calls()) && reconnectDelay == old(reconnectDelay) && lastPongTime == old(lastPongTime)
    {
      autoReconnect := false;
      heartbeatRunning := false;
      reconnectTimer := None;
      connected := false;
    }

    /**
     * A heartbeat tick at `now`: without a socket the heartbeat stops; with no pong for more
     * than 25 s it stops and the socket is terminated (its `close` event follows); otherwise a
     * ping is sent.
     */
    method HeartbeatTick(now: int) returns (a: TickAction)
      requires Valid()
      modifies this
      ensures Valid()
      ensures !old(heartbeatRunning) ==> a == NotRunning && unchanged(this)
      ensures old(heartbeatRunning) && !connected ==> a == StoppedNotConnected && !heartbeatRunning
      ensures old(heartbeatRunning) && connected ==>
        (a == Terminated <==> PeerDead(now, lastPongTime)) &&
        (a == Terminated ==> !heartbeatRunning) && (a == PingSent ==> heartbeatRunning)
      ensures a != NotRunning ==> a == Terminated || a == PingSent || a == StoppedNotConnected
      ensures Calls() == old(Calls()) && connected == old(connected) && reconnectTimer == old(reconnectTimer)
      ensures reconnectDelay == old(reconnectDelay) && autoReconnect == old(autoReconnect) && lastPongTime == old(lastPongTime)
    {
      if !heartbeatRunning {
        return NotRunning;
      }
      if !connected {
        heartbeatRunning := false;
        return StoppedNotConnected;
      }
      if PeerDead(now, lastPongTime) {
        heartbeatRunning := false;
        return Terminated;
      }
      a := PingSent;
    }
  }

  // ---------------------------------------------------------------------------------------------
  // Properties of the message rules

  /** A response to a call that is no longer pending (already answered or timed out) changes nothing. */
  lemma LateResponseIgnored(l: Ledger, id: real, o: Outcome)
    requires KeyOf(id).Some? ==> KeyOf(id).value !in PendingIds(l.pending)
    ensures ApplyResponse(l, id, o) == l
  {
  }

  /** A response whose `error` is present but falsy (`null`, `""`, `0`, `false`) resolves the call with `result`. */
  lemma FalsyErrorResolves(v: JsValue)
    requires Prop(v, "error").Some? && !JsTruthy(Prop(v, "error").value)
    ensures ResponseOutcome(v) == Resolved(Prop(v, "result"))
  {
  }

  /** A ping that also carries an id is answered as a ping and settles nothing. */
  lemma PingWinsOverResponse(f: Frame)
    requires f.json.Some? && PropIs(f.json.value, "method", "ping") && IsResponse(f.json.value)
    ensures ReadIncoming(f) == Ping
  {
  }
}
