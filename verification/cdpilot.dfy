/**
 * The Python client `CDPilot` (python_client/cdpilot.py): the request-id counter, the table of
 * pending futures, `send_command`, what one message does in the `_listener` loop, and the key
 * events `press` sends. The pending table and the record of settled futures are a `Ledger` of
 * module Correlator, so the correlator invariants proved there apply to this client too.
 */
module PythonClient {
  import opened Wrappers
  import opened Json
  import opened Correlator
  import RelayClient

  // ---------------------------------------------------------------------------------------------
  // send_command's payload

  /** `params or {}`: a missing or falsy `params` (None, `{}`, `[]`, `0`, `""`, `False`) becomes `{}`. */
  function ParamsOrEmpty(params: Option<JsValue>): (p: JsValue)
    ensures params.Some? && PyTruthy(params.value) ==> p == params.value
    ensures !(params.Some? && PyTruthy(params.value)) ==> p == JObj(map[])
    ensures PyTruthy(p) || p == JObj(map[])
  {
    if params.Some? && PyTruthy(params.value) then params.value else JObj(map[])
  }

  /**
   * The payload `send_command` sends: `{id, method: "forwardCDPCommand", params: {method,
   * params}}`. There is never a `sessionId`: the relay routes such a command to its default tab.
   */
  function CommandPayload(id: nat, command: string, params: Option<JsValue>): (m: JsValue)
    ensures m.JObj? && m.fields.Keys == {"id", "method", "params"}
    ensures Prop(m, "id") == Some(JNum(id as real)) && PropIs(m, "method", "forwardCDPCommand")
    ensures m.fields["params"].JObj? && m.fields["params"].fields.Keys == {"method", "params"}
    ensures PropIs(m.fields["params"], "method", command)
    ensures m.fields["params"].fields["params"] == ParamsOrEmpty(params)
  {
    var inner := map["method" := JStr(command), "params" := ParamsOrEmpty(params)];
    JObj(map["id" := JNum(id as real), "method" := JStr("forwardCDPCommand"), "params" := JObj(inner)])
  }

  // ---------------------------------------------------------------------------------------------
  // One message of the _listener loop

  /** How `data['id'] in self.pending_requests` treats an id, given that every key of the table is an `int`. */
  datatype IdLookup =
    | Unhashable   // a list or dict: the `in` test raises `TypeError`
    | NoIntKey     // hashable, but equal to no `int` (a string, None, a fraction, a negative number)
    | IntKey(k: nat)

  /** Python equality across types: `1.0 == 1` and `True == 1`, with equal hashes, so both find key 1. */
  function IdKey(v: JsValue): (r: IdLookup)
    ensures r.Unhashable? <==> v.JArr? || v.JObj?
    ensures v.JBool? ==> r == IntKey(if v.b then 1 else 0)
    ensures v.JNum? ==> (r.IntKey? <==> v.n >= 0.0 && v.n.Floor as real == v.n)
    ensures r.IntKey? && v.JNum? ==> r.k as real == v.n
    ensures v.JStr? || v.JNull? ==> r == NoIntKey
  {
    match v
    case JArr(_) => Unhashable
    case JObj(_) => Unhashable
    case JBool(b) => IntKey(if b then 1 else 0)
    case JNum(n) => if n >= 0.0 && n.Floor as real == n then IntKey(n.Floor as nat) else NoIntKey
    case JNull => NoIntKey
    case JStr(_) => NoIntKey
  }

  /** `t in s` for strings: `t` occurs in `s` as a contiguous piece. */
  predicate ContainsText(s: string, t: string)
    decreases |s|
  {
    |t| <= |s| && (s[..|t|] == t || ContainsText(s[1..], t))
  }

  /** What one received message does to the listener. */
  datatype ListenerMessage =
    | Fatal                             // an exception other than ConnectionClosed: the listener task ends
    | Skipped                           // no `id`, or an id that can equal no request id
    | ForRequest(id: nat, outcome: Outcome)

  /**
   * One iteration of `_listener`: `json.loads`, then `'id' in data`, then the table lookup, then
   * `'error' in data` — presence of the key, not its truthiness — chooses `set_exception` over
   * `set_result(data.get('result'))`, where a missing `result` is `None` like a JSON `null`.
   */
  function ReadListenerMessage(f: Frame): (m: ListenerMessage)
    ensures f.json.None? ==> m == Fatal
    ensures f.json.Some? && (f.json.value.JNull? || f.json.value.JBool? || f.json.value.JNum?) ==> m == Fatal
    ensures f.json.Some? && f.json.value.JArr? ==> (m == Fatal <==> JStr("id") in f.json.value.items) && !m.ForRequest?
    ensures f.json.Some? && f.json.value.JStr? ==> (m == Fatal <==> ContainsText(f.json.value.s, "id")) && !m.ForRequest?
    ensures m.ForRequest? ==>
      f.json.Some? && f.json.value.JObj? && "id" in f.json.value.fields &&
      IdKey(f.json.value.fields["id"]) == IntKey(m.id)
    ensures m.ForRequest? ==> var fields := f.json.value.fields;
      (m.outcome.Rejected? <==> "error" in fields) &&
      ("error" in fields ==> m.outcome == Rejected(RemoteError(fields["error"]))) &&
      ("error" !in fields ==> m.outcome == Resolved(Some(if "result" in fields then fields["result"] else JNull)))
    ensures f.json.Some? && f.json.value.JObj? ==> var fields := f.json.value.fields;
      ("id" !in fields ==> m == Skipped) &&
      ("id" in fields ==> (m == Fatal <==> IdKey(fields["id"]).Unhashable?) &&
                          (m == Skipped <==> IdKey(fields["id"]).NoIntKey?))
  {
    match f.json
    case None => Fatal
    case Some(v) =>
      match v
      case JObj(fields) =>
        if "id" !in fields then Skipped
        else (
          match IdKey(fields["id"])
          case Unhashable => Fatal
          case NoIntKey => Skipped
          case IntKey(k) =>
            if "error" in fields then ForRequest(k, Rejected(RemoteError(fields["error"])))
            else ForRequest(k, Resolved(Some(if "result" in fields then fields["result"] else JNull))))
      case JArr(items) => if JStr("id") in items then Fatal else Skipped
      case JStr(s) => if ContainsText(s, "id") then Fatal else Skipped
      case _ => Fatal
  }

  // ---------------------------------------------------------------------------------------------
  // press

  function KeyEvent(fields: map<string, JsValue>): (string, JsValue) {
    ("Input.dispatchKeyEvent", JObj(fields))
  }

  /** The `(method, params)` pairs `press(key)` sends, in order. */
  function PressCommands(key: string): (cmds: seq<(string, JsValue)>)
    ensures key != "Enter" ==> cmds == []
    ensures key == "Enter" ==>
      |cmds| == 3 &&
      (forall i :: 0 <= i < 3 ==> cmds[i].0 == "Input.dispatchKeyEvent" && PropIs(cmds[i].1, "text", "\r")) &&
      PropIs(cmds[0].1, "type", "rawKeyDown") && PropIs(cmds[1].1, "type", "char") && PropIs(cmds[2].1, "type", "keyUp") &&
      Prop(cmds[0].1, "windowsVirtualKeyCode") == Some(JNum(13.0)) && Prop(cmds[2].1, "windowsVirtualKeyCode") == Some(JNum(13.0))
  {
    if key == "Enter" then
      var keyCode := map["windowsVirtualKeyCode" := JNum(13.0), "nativeVirtualKeyCode" := JNum(13.0),
                         "unmodifiedText" := JStr("\r"), "text" := JStr("\r")];
      [KeyEvent(keyCode["type" := JStr("rawKeyDown")]),
       KeyEvent(map["type" := JStr("char"), "text" := JStr("\r")]),
       KeyEvent(keyCode["type" := JStr("keyUp")])]
    else []
  }

  // ---------------------------------------------------------------------------------------------
  // The client

  datatype SendOutcome =
    | NotConnected                         // `raise Exception("Not connected")`
    | Sent(id: nat, payload: JsValue)      // the payload went out; the caller awaits the future
    | SendRaised(id: nat)                  // `ws.send` raised; the future stays in the table

  class CDPilot {
    /** `self.ws is not None`: set by a successful `connect`, never cleared. */
    var connected: bool
    /** The `_listener` task is running. */
    var listening: bool
    /** `request_id`. */
    var nextId: nat
    /** `pending_requests`, in insertion order. */
    var pending: seq<PendingCall>
    /** How every future taken out of the table was settled. */
    ghost var settled: seq<Settlement>

    ghost function Calls(): Ledger
      reads this
    {
      Ledger(nextId, pending, settled)
    }

    ghost predicate Valid()
      reads this
    {
      LedgerValid(Calls())
    }

    constructor ()
      ensures Valid() && !connected && !listening && Calls() == InitialLedger
    {
      connected, listening, nextId, pending, settled := false, false, 1, [], [];
      InitialLedgerValid();
    }

    /** `connect()`: on success the socket is kept and a listener task started; a failure re-raises and changes nothing. */
    method Connect(succeeds: bool) returns (ok: bool)
      requires Valid()
      modifies this
      ensures Valid()
      ensures ok == succeeds
      ensures succeeds ==> connected && listening && Calls() == old(Calls())
      ensures !succeeds ==> unchanged(this)
    {
      if succeeds {
        connected, listening := true, true;
      }
      ok := succeeds;
    }

    /**
     * `send_command(method, params)`: without a socket it raises before taking an id; otherwise
     * it takes `request_id`, stores the future under it and sends. A send that raises leaves the
     * future in the table.
     */
    method SendCommand(command: string, params: Option<JsValue>, sendSucceeds: bool) returns (r: SendOutcome)
      requires Valid()
      modifies this
      ensures Valid()
      ensures !connected ==> r == NotConnected && unchanged(this)
      ensures old(connected) ==>
        Calls() == Issue(old(Calls()), command) && connected == old(connected) && listening == old(listening) &&
        r == (if sendSucceeds then Sent(old(nextId), CommandPayload(old(nextId), command, params)) else SendRaised(old(nextId)))
    {
      if !connected {
        return NotConnected;
      }
      IssueKeepsValid(Calls(), command);
      var id := nextId;
      nextId := nextId + 1;
      pending := pending + [PendingCall(id, command)];
      if sendSucceeds {
        r := Sent(id, CommandPayload(id, command, params));
      } else {
        r := SendRaised(id);
      }
    }

    /**
     * One message received by `_listener`: a fatal one ends the task; one for a pending request
     * pops its future and settles it; anything else, including a response for an id that is not
     * pending, changes nothing.
     */
    method OnListenerMessage(f: Frame)
      requires Valid() && listening
      modifies this
      ensures Valid()
      ensures listening <==> ReadListenerMessage(f) != Fatal
      ensures connected == old(connected)
      ensures ReadListenerMessage(f).ForRequest? ==>
        var m := ReadListenerMessage(f);
        Calls() == Settle(old(Calls()), m.id, m.outcome)
      ensures !ReadListenerMessage(f).ForRequest? ==> Calls() == old(Calls())
    {
      var m := ReadListenerMessage(f);
      match m
      case Fatal =>
        listening := false;
      case Skipped =>
      case ForRequest(id, outcome) =>
        SettleKeepsValid(Calls(), id, outcome);
        if id in PendingIds(pending) {
          pending, settled := RemoveId(pending, id), settled + [Settlement(id, outcome)];
        }
    }

    /** `ConnectionClosed` ends the listener; the socket stays set and the pending futures are never settled. */
    method OnConnectionClosed()
      modifies this
      ensures !listening && connected == old(connected) && Calls() == old(Calls())
    {
      listening := false;
    }
  }

  // ---------------------------------------------------------------------------------------------
  // Properties

  /**
   * A response whose `error` is `null` still rejects the request: the key's presence decides.
   * The MCP server's relay client, which tests the error's truthiness, resolves the same response.
   */
  lemma NullErrorRejects(id: nat, result: JsValue)
    ensures var v := JObj(map["id" := JNum(id as real), "error" := JNull, "result" := result]);
      ReadListenerMessage(Frame("", Some(v))) == ForRequest(id, Rejected(RemoteError(JNull))) &&
      RelayClient.ResponseOutcome(v) == Resolved(Some(result))
  {
    var fields := map["id" := JNum(id as real), "error" := JNull, "result" := result];
    assert IdKey(fields["id"]) == IntKey(id);
  }

  /** Python's `True == 1`: a response with `"id": true` settles request 1. */
  lemma TrueIdSettlesRequestOne(result: JsValue)
    ensures ReadListenerMessage(Frame("", Some(JObj(map["id" := JBool(true), "result" := result]))))
      == ForRequest(1, Resolved(Some(result)))
  {
    var fields := map["id" := JBool(true), "result" := result];
    assert "error" !in fields;
  }

  /** The ledger after `send_command` has been called for each command in turn, with no response yet. */
  function IssueEach(l: Ledger, commands: seq<string>): Ledger {
    if commands == [] then l else Issue(IssueEach(l, commands[..|commands| - 1]), commands[|commands| - 1])
  }

  /** A fresh client numbers its requests 1, 2, 3, … in the order they are sent. */
  lemma {:induction false} RequestsNumberedFromOne(commands: seq<string>)
    ensures var l := IssueEach(InitialLedger, commands);
      l.nextId == |commands| + 1 && |l.pending| == |commands| &&
      forall i :: 0 <= i < |commands| ==> l.pending[i] == PendingCall(i + 1, commands[i])
  {
    if commands != [] {
      var init := commands[..|commands| - 1];
      RequestsNumberedFromOne(init);
      forall i | 0 <= i < |init| ensures commands[i] == init[i] {}
    }
  }

  /**
   * A listener message settles only a request that is still pending, and only once: a second
   * response for the same id leaves the table and the settlements as they were.
   */
  lemma ResponseSettlesOnce(l: Ledger, f: Frame)
    requires LedgerValid(l) && ReadListenerMessage(f).ForRequest?
    ensures var m := ReadListenerMessage(f);
      var l1 := Settle(l, m.id, m.outcome);
      (m.id in PendingIds(l.pending) ==> Settlement(m.id, m.outcome) in l1.settled && m.id !in PendingIds(l1.pending)) &&
      (m.id !in PendingIds(l.pending) ==> l1 == l) &&
      Settle(l1, m.id, m.outcome) == l1
  {
    var m := ReadListenerMessage(f);
    if m.id in PendingIds(l.pending) {
      SettledOnlyOnce(l, m.id, m.outcome, m.outcome);
    }
  }
}
