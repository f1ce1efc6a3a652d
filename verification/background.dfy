/**
 * The extension's background script (background.js) as a state machine over its module-level
 * state: the session registry of module TabRegistry, the table of requests sent to the relay,
 * the relay socket, the reconnect timer and back-off, the heartbeat, and the tabs to re-attach
 * after a reconnect. Socket events, timer expiries, debugger events and the runtime's answers
 * are the inputs of the methods; what goes out to the relay is what they return.
 */
module Background {
  import opened Wrappers
  import opened Json
  import opened JsText
  import opened Liveness
  import opened TabRegistry
  import opened Options
  import JsMath
  import HumanInput

  // ---------------------------------------------------------------------------------------------
  // The relay port

  /** The integer part of a number, toward zero. */
  function Trunc(x: real): (t: int)
    ensures x >= 0.0 ==> 0.0 <= t as real <= x < t as real + 1.0
    ensures x < 0.0 ==> t as real - 1.0 < x <= t as real <= 0.0
  {
    if x >= 0.0 then x.Floor else -((-x).Floor)
  }

  /**
   * `String(raw || '')` for the stored `relayPort`, as far as `parseInt` reads it: a string as
   * is, a number through the digits of its integer part, anything else as text without digits.
   */
  function StoredPortText(raw: Option<JsValue>): string {
    if raw.None? || !JsTruthy(raw.value) then ""
    else
      match raw.value
      case JStr(s) => s
      case JNum(n) => var t := Trunc(n); if t >= 0 then IntToDecimal(t) else "-" + IntToDecimal(-t)
      case _ => ""
  }

  /** `getRelayPort`: the stored value when `parseInt` reads a valid port from it, otherwise the default port. */
  function RelayPort(raw: Option<JsValue>): (port: int)
    ensures IsPort(port)
    ensures raw.None? ==> port == DefaultPort
  {
    ClampPort(StoredPortText(raw))
  }

  /** What the options page saves (the number `clampPort(input)`) is the port the background script connects to. */
  lemma RelayPortReadsSavedPort(input: string)
    ensures RelayPort(Some(JNum(ClampPort(input) as real))) == ClampPort(input)
  {
    var p := ClampPort(input);
    var raw := Some(JNum(p as real));
    assert JsTruthy(raw.value);
    assert Trunc(p as real) == p;
    assert StoredPortText(raw) == IntToDecimal(p);
    ClampPortOfPortText(p);
  }

  // ---------------------------------------------------------------------------------------------
  // Reading relay messages

  /** How `onRelayMessage` reads a frame, in the order of its tests. */
  datatype RelayRequest =
    | Ignored                                                      // not JSON, falsy, or no branch applies
    | PingRequest
    | PongNotice
    | Response(id: real, error: Option<JsValue>, result: Option<JsValue>)
    | ClientConnected
    | Command(id: real, args: CommandArgs)

  /** `v.name` when it is a string (`typeof … === 'string'`). */
  function StringProp(v: Option<JsValue>, name: string): (s: Option<string>)
    ensures s.Some? <==> v.Some? && Prop(v.value, name).Some? && Prop(v.value, name).value.JStr?
  {
    if v.Some? && Prop(v.value, name).Some? && Prop(v.value, name).value.JStr? then Some(Prop(v.value, name).value.s) else None
  }

  /**
   * The fields `handleForwardCdpCommand` reads: `String(params.method || '').trim()` (a
   * non-string method reads as empty), `params.sessionId` if a string, and, from
   * `params.params || undefined`, `targetId` if a string and `dispatch !== false`.
   */
  function ReadCommandArgs(msg: JsValue): (c: CommandArgs)
    ensures c.dispatch <==> !(Prop(msg, "params").Some? && Prop(Prop(msg, "params").value, "params").Some? &&
                               Prop(Prop(Prop(msg, "params").value, "params").value, "dispatch") == Some(JBool(false)))
  {
    var p := Prop(msg, "params");
    var name := StringProp(p, "method");
    var inner := if p.Some? && Prop(p.value, "params").Some? && JsTruthy(Prop(p.value, "params").value) then Prop(p.value, "params") else None;
    CommandArgs(
      if name.Some? then Trim(name.value) else "",
      StringProp(p, "sessionId"),
      StringProp(inner, "targetId"),
      !(inner.Some? && Prop(inner.value, "dispatch") == Some(JBool(false))))
  }

  predicate HasNumericId(v: JsValue) {
    Prop(v, "id").Some? && Prop(v, "id").value.JNum?
  }

  /** `typeof msg.id === 'number' && (msg.result !== undefined || msg.error !== undefined)`. */
  predicate IsRelayResponse(v: JsValue) {
    HasNumericId(v) && (Prop(v, "result").Some? || Prop(v, "error").Some?)
  }

  /** A frame that reaches the tests after ping, pong and the response test. */
  predicate PastResponseTest(f: Frame) {
    f.json.Some? && JsTruthy(f.json.value) && !PropIs(f.json.value, "method", "ping") &&
    !PropIs(f.json.value, "method", "pong") && !IsRelayResponse(f.json.value)
  }

  /** The dispatch of `onRelayMessage`: ping, pong, response, `clientConnected`, then `forwardCDPCommand` with a numeric id. */
  function ReadRelayRequest(f: Frame): (q: RelayRequest)
    ensures f.json.None? || !JsTruthy(f.json.value) ==> q == Ignored
    ensures q == PingRequest <==> f.json.Some? && PropIs(f.json.value, "method", "ping")
    ensures q == PongNotice <==> f.json.Some? && PropIs(f.json.value, "method", "pong")
    ensures q.Response? <==>
      f.json.Some? && JsTruthy(f.json.value) && !PropIs(f.json.value, "method", "ping") && !PropIs(f.json.value, "method", "pong") &&
      IsRelayResponse(f.json.value)
    ensures q.Response? ==>
      Prop(f.json.value, "id") == Some(JNum(q.id)) && q.error == Prop(f.json.value, "error") && q.result == Prop(f.json.value, "result")
    ensures q == ClientConnected <==> PastResponseTest(f) && PropIs(f.json.value, "method", "clientConnected")
    ensures q.Command? <==>
      PastResponseTest(f) && HasNumericId(f.json.value) && PropIs(f.json.value, "method", "forwardCDPCommand")
    ensures q.Command? ==>
      Prop(f.json.value, "id") == Some(JNum(q.id)) && q.args == ReadCommandArgs(f.json.value) &&
      Prop(f.json.value, "result").None? && Prop(f.json.value, "error").None?
    ensures q == Ignored <==>
      f.json.None? || !JsTruthy(f.json.value) ||
      (PastResponseTest(f) && !PropIs(f.json.value, "method", "clientConnected") &&
       !(HasNumericId(f.json.value) && PropIs(f.json.value, "method", "forwardCDPCommand")))
  {
    match f.json
    case None => Ignored
    case Some(v) =>
      if !JsTruthy(v) then Ignored
      else if PropIs(v, "method", "ping") then PingRequest
      else if PropIs(v, "method", "pong") then PongNotice
      else if IsRelayResponse(v) then
        Response(Prop(v, "id").value.n, Prop(v, "error"), Prop(v, "result"))
      else if PropIs(v, "method", "clientConnected") then ClientConnected
      else if HasNumericId(v) && PropIs(v, "method", "forwardCDPCommand") then Command(Prop(v, "id").value.n, ReadCommandArgs(v))
      else Ignored
  }

  /**
   * How a request sent with `requestFromRelay` is settled: a truthy `error` rejects it with an
   * `Error` whose message is `String(error)`; the model keeps the error value itself.
   */
  datatype RequestOutcome = ResolvedWith(result: Option<JsValue>) | RejectedWith(error: JsValue)

  function SettleRequest(error: Option<JsValue>, result: Option<JsValue>): (o: RequestOutcome)
    ensures o.RejectedWith? <==> error.Some? && JsTruthy(error.value)
    ensures o.RejectedWith? ==> o.error == error.value
    ensures o.ResolvedWith? ==> o.result == result
  {
    if error.Some? && JsTruthy(error.value) then RejectedWith(error.value) else ResolvedWith(result)
  }

  /** The commands `handleForwardCdpCommand` answers itself with `{}` once the runtime calls succeed: the key chain and a dispatched mouse path. */
  predicate AnsweredWithEmptyObject(p: CommandPlan) {
    p.KeyChain? || (p.MousePath? && p.dispatchTo.Some?)
  }

  /** The commands whose answer is what the runtime returned. */
  predicate AnsweredByRuntime(p: CommandPlan) {
    !p.KeyChain? && !p.MousePath?
  }

  const EmptyObject: JsValue := JObj(map[])

  /** The start and end points of `Input.humanMouseMove`. */
  datatype MouseMove = MouseMove(sx: real, sy: real, ex: real, ey: real)

  /** `params?.name ?? 0` for a number, a missing value or `null`. */
  function Coordinate(params: Option<JsValue>, name: string): real {
    if params.Some? && Prop(params.value, name).Some? && Prop(params.value, name).value.JNum? then Prop(params.value, name).value.n
    else 0.0
  }

  /** `startX`, `startY`, `endX` and `endY` of the command's `params.params || undefined`. */
  function MouseMoveOf(f: Frame): MouseMove {
    var p := if f.json.Some? then Prop(f.json.value, "params") else None;
    var inner := if p.Some? && Prop(p.value, "params").Some? && JsTruthy(Prop(p.value, "params").value) then Prop(p.value, "params") else None;
    MouseMove(Coordinate(inner, "startX"), Coordinate(inner, "startY"), Coordinate(inner, "endX"), Coordinate(inner, "endY"))
  }

  function PointJson(pt: HumanInput.PathPoint): JsValue {
    JObj(map["x" := JNum(pt.x as real), "y" := JNum(pt.y as real), "delay" := JNum(pt.delay)])
  }

  /** `{ path }`: the undispatched path, one `{x, y, delay}` object per point. */
  function PathReply(path: seq<HumanInput.PathPoint>): (v: JsValue)
    ensures v.JObj? && v.fields.Keys == {"path"} && v.fields["path"].JArr? && |v.fields["path"].items| == |path|
    ensures forall i :: 0 <= i < |path| ==> v.fields["path"].items[i] == PointJson(path[i])
  {
    JObj(map["path" := JArr(seq(|path|, i requires 0 <= i < |path| => PointJson(path[i])))])
  }

  /** How a forwarded command was answered: its route, the reply, and the path drawn for an undispatched mouse move. */
  datatype CommandAnswer = CommandAnswer(plan: Result<CommandPlan>, reply: Result<JsValue>, path: seq<HumanInput.PathPoint>)

  /**
   * The reply fits the route: the `No attached tab for …` error; `{}` after the key chain or a
   * dispatched mouse path unless the runtime failed; `{ path }` with a path of at least
   * `steps + 1` points ending at the rounded end point; otherwise what the runtime returned.
   */
  predicate AnswersPlan(a: CommandAnswer, args: CommandArgs, m: MouseMove, steps: nat, runtime: Result<JsValue>) {
    (a.plan.Err? ==> a.reply == Err(NoTabMessage(args.name))) &&
    (a.plan.Ok? && AnsweredWithEmptyObject(a.plan.value) ==> a.reply == (if runtime.Ok? then Ok(EmptyObject) else runtime)) &&
    (a.plan.Ok? && AnsweredByRuntime(a.plan.value) ==> a.reply == runtime) &&
    (a.plan == Ok(MousePath(None)) <==> a.path != []) &&
    (a.plan == Ok(MousePath(None)) ==>
      a.reply == Ok(PathReply(a.path)) && |a.path| > steps &&
      a.path[|a.path| - 1].x == JsMath.Round(m.ex) && a.path[|a.path| - 1].y == JsMath.Round(m.ey))
  }

  /**
   * The `clientConnected` replay: one `Target.attachedToTarget` per attached tab, in insertion
   * order, with the page's title and url (empty when the tab is gone). That each attached tab
   * is announced with its own session, target id and page is `ReplayAnnouncesAttachedTabs`.
   */
  function Replay(r: Registry, ts: seq<TabId>, pages: map<TabId, PageInfo>): (m: seq<Outgoing>)
    ensures |m| == |AttachedTabs(r, ts)|
    ensures forall i :: 0 <= i < |m| ==> m[i].AttachedEvent? && m[i].page.Some?
  {
    if ts == [] then []
    else
      var t := ts[0];
      var head :=
        if IsConnected(r, t) then
          [AttachedEvent(r.tabs[t].sessionId.GetOr(""), r.tabs[t].targetId.GetOr(""), Some(PageOf(pages, t)))]
        else [];
      head + Replay(r, ts[1..], pages)
  }

  /** The page a replayed announcement carries: what `chrome.tabs.get` reported, or empty title and url. */
  function PageOf(pages: map<TabId, PageInfo>, t: TabId): PageInfo {
    if t in pages then pages[t] else PageInfo("", "")
  }

  /** Every attached tab is announced to a new client under its own session and target id, with its page. */
  lemma {:induction false} ReplayAnnouncesAttachedTabs(r: Registry, ts: seq<TabId>, pages: map<TabId, PageInfo>, t: TabId)
    requires Consistent(r) && t in ts && IsConnected(r, t)
    ensures exists m :: (m in Replay(r, ts, pages) && m.AttachedEvent? &&
                         Some(m.sessionId) == r.tabs[t].sessionId && Some(m.targetId) == r.tabs[t].targetId &&
                         m.page == Some(PageOf(pages, t)))
  {
    assert EntryOk(r, t);
    if ts[0] == t {
      var m := Replay(r, ts, pages)[0];
      assert m in Replay(r, ts, pages);
    } else {
      assert t in ts[1..];
      ReplayAnnouncesAttachedTabs(r, ts[1..], pages, t);
      var m :| m in Replay(r, ts[1..], pages) && m.AttachedEvent? &&
        Some(m.sessionId) == r.tabs[t].sessionId && Some(m.targetId) == r.tabs[t].targetId &&
        m.page == Some(PageOf(pages, t));
      assert m in Replay(r, ts, pages);
    }
  }

  /** `requestFromRelay`'s table: `id` at the end unless already present (`Map.set` keeps its place). */
  function AddId(p: seq<real>, id: real): (q: seq<real>)
    ensures forall x :: x in q <==> x in p || x == id
    ensures NoDup(p) ==> NoDup(q)
  {
    if id in p then p else p + [id]
  }

  function RemoveRealId(p: seq<real>, id: real): (q: seq<real>)
    ensures forall x :: x in q <==> x in p && x != id
    ensures NoDup(p) ==> NoDup(q)
  {
    if p == [] then []
    else
      var rest := RemoveRealId(p[1..], id);
      assert forall x :: x in p <==> x == p[0] || x in p[1..];
      if p[0] == id then rest
      else
        assert NoDup(p) ==> p[0] !in p[1..] by {
          if NoDup(p) {
            forall j | 0 <= j < |p[1..]| ensures p[1..][j] != p[0] {
              assert p[1..][j] == p[j + 1];
            }
          }
        }
        [p[0]] + rest
  }

  // ---------------------------------------------------------------------------------------------
  // The background script

  /** The relay link's scalars: socket open, reconnect timer and delay, auto-reconnect, heartbeat. */
  datatype Link = Link(relayOpen: bool, relayActive: bool, reconnectTimer: Option<int>, reconnectDelay: int, autoReconnect: bool,
                       heartbeatRunning: bool, lastPongTime: int)

  datatype ConnectResult = AlreadyOpen | Opened | ConnectFailed

  datatype ToggleStep = NoActiveTab | ToggledOff | MarkedConnecting

  datatype TickAction = NotRunning | StoppedNotConnected | ClosedDeadRelay | PingSent

  class Extension {
    var order: seq<TabId>
    var tabs: map<TabId, TabEntry>
    var tabBySession: map<string, TabId>
    var childSessionToTab: map<string, TabId>
    var nextSession: nat
    /** The ids of `pending`, in insertion order. */
    var pending: seq<real>
    /** `relayWs` is present and OPEN (socket identity is not modelled). */
    var relayOpen: bool
    /** A socket has opened and its disconnect has not been handled yet (`relayWs !== null`). */
    var relayActive: bool
    /** The armed reconnect timer, holding the delay it was armed with. */
    var reconnectTimer: Option<int>
    var reconnectDelay: int
    var autoReconnectEnabled: bool
    var previouslyAttachedTabs: seq<TabId>
    /** `heartbeatInterval !== null`. */
    var heartbeatRunning: bool
    var lastPongTime: int

    function Reg(): Registry
      reads this
    {
      Registry(order, tabs, tabBySession, childSessionToTab, nextSession)
    }

    function Links(): Link
      reads this
    {
      Link(relayOpen, relayActive, reconnectTimer, reconnectDelay, autoReconnectEnabled, heartbeatRunning, lastPongTime)
    }

    ghost predicate Valid()
      reads this
    {
      Consistent(Reg()) && NoDup(pending) && NoDup(previouslyAttachedTabs) && InBackoffRange(reconnectDelay) &&
      (relayOpen ==> relayActive) &&
      (reconnectTimer.Some? ==> InBackoffRange(reconnectTimer.value))
    }

    constructor ()
      ensures Valid()
      ensures Reg() == EmptyRegistry && pending == [] && previouslyAttachedTabs == []
      ensures Links() == Link(false, false, None, BaseReconnectDelay, false, false, 0)
    {
      order, tabs, tabBySession, childSessionToTab, nextSession := [], map[], map[], map[], 1;
      pending, previouslyAttachedTabs := [], [];
      relayOpen, relayActive, reconnectTimer, reconnectDelay, autoReconnectEnabled := false, false, None, BaseReconnectDelay, false;
      heartbeatRunning, lastPongTime := false, 0;
    }

    /**
     * `attachTab(tabId)` once the runtime has answered the attach (`attachOk`) and
     * `Target.getTargetInfo` (`rawTargetId`): the tab is recorded under a fresh `cb-tab-N`
     * session and announced; without a target id nothing is recorded.
     */
    method AttachTab(tabId: TabId, attachOk: bool, rawTargetId: Option<string>) returns (outcome: AttachOutcome, sent: seq<Outgoing>)
      requires Valid()
      modifies this
      ensures Valid()
      ensures var a := TabRegistry.AttachTab(old(Reg()), tabId, attachOk, rawTargetId, old(relayOpen));
        Reg() == a.reg && outcome == a.outcome && sent == Announcement(a.outcome)
      ensures Links() == old(Links()) && pending == old(pending) && previouslyAttachedTabs == old(previouslyAttachedTabs)
    {
      if !attachOk || (tabId in tabs && tabs[tabId].state == Connected) {
        return AttachRefused, [];
      }
      var targetId := Trim(rawTargetId.GetOr(""));
      if targetId == "" {
        return NoTargetId, [];
      }
      var sessionId := SessionName(nextSession);
      RecordKeepsConsistent(Reg(), tabId, targetId);
      Store(tabId, targetId);
      if relayOpen {
        outcome, sent := Attached(sessionId, targetId), [AttachedEvent(sessionId, targetId, None)];
      } else {
        outcome, sent := AttachedUnannounced(sessionId, targetId), [];
      }
    }

    /** The entry `attachTab` writes once the target id is known. */
    method Store(tabId: TabId, targetId: string)
      modifies this
      ensures Reg() == Record(old(Reg()), tabId, targetId)
      ensures Links() == old(Links()) && pending == old(pending) && previouslyAttachedTabs == old(previouslyAttachedTabs)
    {
      var sessionId := SessionName(nextSession);
      nextSession := nextSession + 1;
      var attachOrder := nextSession;
      if tabId !in tabs {
        order := order + [tabId];
      }
      tabs := tabs[tabId := TabEntry(Connected, Some(sessionId), Some(targetId), Some(attachOrder))];
      tabBySession := tabBySession[sessionId := tabId];
    }

    /** The map changes of `detachTab`: entry, main session mapping, then the child-session loop. */
    method ForgetTab(tabId: TabId)
      modifies this
      ensures Reg() == TabRegistry.DetachTab(old(Reg()), tabId)
      ensures Links() == old(Links()) && pending == old(pending) && previouslyAttachedTabs == old(previouslyAttachedTabs)
    {
      ghost var r0 := Reg();
      var bySession := tabBySession;
      if tabId in tabs && Truthy(tabs[tabId].sessionId) {
        bySession := bySession - {tabs[tabId].sessionId.value};
      }
      var children := DropChildSessions(childSessionToTab, tabId);
      assert Registry(Without(order, tabId), tabs - {tabId}, bySession, children, nextSession) == TabRegistry.DetachTab(r0, tabId);
      order, tabs, tabBySession, childSessionToTab := Without(order, tabId), tabs - {tabId}, bySession, children;
    }

    /**
     * `detachTab(tabId, reason)`: `Target.detachedFromTarget` is sent when the entry has both a
     * session id and a target id (a failed send is ignored), then the tab is forgotten.
     */
    method DetachTab(tabId: TabId, reason: string) returns (sent: seq<Outgoing>)
      requires Valid()
      modifies this
      ensures Valid()
      ensures Reg() == TabRegistry.DetachTab(old(Reg()), tabId)
      ensures sent == if relayOpen then DetachNotice(old(Reg()), tabId, reason) else []
      ensures Links() == old(Links()) && pending == old(pending) && previouslyAttachedTabs == old(previouslyAttachedTabs)
    {
      sent := if relayOpen then DetachNotice(Reg(), tabId, reason) else [];
      DetachKeepsConsistent(Reg(), tabId);
      ForgetTab(tabId);
    }

    /**
     * `onDebuggerEvent`: for a tracked tab, child sessions are recorded and forgotten and the
     * event is forwarded under the event's session, else the tab's; other tabs are ignored.
     * The child session is `params.sessionId`.
     */
    method OnDebuggerEvent(source: Option<TabId>, sourceSession: Option<string>, name: string, params: Option<JsValue>)
        returns (sent: seq<Outgoing>)
      requires Valid()
      modifies this
      ensures Valid()
      ensures Reg() == DebuggerEvent(old(Reg()), source, name, StringProp(params, "sessionId"))
      ensures sent == if Tracked(old(Reg()), source) && relayOpen
        then [ForwardedEvent(EventSession(old(Reg()), source, sourceSession), name, params)] else []
      ensures Links() == old(Links()) && pending == old(pending) && previouslyAttachedTabs == old(previouslyAttachedTabs)
    {
      if source.None? || source.value !in tabs || !Truthy(tabs[source.value].sessionId) {
        return [];
      }
      var tabId := source.value;
      var childSession := StringProp(params, "sessionId");
      DebuggerEventKeepsConsistent(Reg(), source, name, childSession);
      sent := if relayOpen then [ForwardedEvent(EventSession(Reg(), source, sourceSession), name, params)] else [];
      if name == "Target.attachedToTarget" && Truthy(childSession) {
        childSessionToTab := childSessionToTab[childSession.value := tabId];
      }
      if name == "Target.detachedFromTarget" && Truthy(childSession) {
        childSessionToTab := childSessionToTab - {childSession.value};
      }
    }

    /** `onDebuggerDetach`: a tab the registry has is detached with the runtime's reason. */
    method OnDebuggerDetach(source: Option<TabId>, reason: string) returns (sent: seq<Outgoing>)
      requires Valid()
      modifies this
      ensures Valid()
      ensures source.Some? && source.value in old(tabs) ==>
        Reg() == TabRegistry.DetachTab(old(Reg()), source.value) &&
        sent == if relayOpen then DetachNotice(old(Reg()), source.value, reason) else []
      ensures !(source.Some? && source.value in old(tabs)) ==> Reg() == old(Reg()) && sent == []
      ensures Links() == old(Links()) && pending == old(pending) && previouslyAttachedTabs == old(previouslyAttachedTabs)
    {
      if source.None? || source.value !in tabs {
        return [];
      }
      sent := DetachTab(source.value, reason);
    }

    /**
     * The toolbar click (`connectOrToggleForActiveTab`) up to its first wait: an attached tab is
     * detached with reason 'toggle'; any other tab gets a `connecting` entry. The attach that
     * follows is `EnsureRelayConnection` then `AttachTab`, and a failure is `ToggleFailed`.
     */
    method ToggleTab(active: Option<TabId>) returns (step: ToggleStep, sent: seq<Outgoing>)
      requires Valid()
      modifies this
      ensures Valid()
      ensures active.None? ==> step == NoActiveTab && Reg() == old(Reg()) && sent == []
      ensures active.Some? && IsConnected(old(Reg()), active.value) ==>
        step == ToggledOff && Reg() == TabRegistry.DetachTab(old(Reg()), active.value) &&
        sent == if relayOpen then DetachNotice(old(Reg()), active.value, "toggle") else []
      ensures active.Some? && !IsConnected(old(Reg()), active.value) ==>
        step == MarkedConnecting && Reg() == MarkConnecting(old(Reg()), active.value) && sent == []
      ensures Links() == old(Links()) && pending == old(pending) && previouslyAttachedTabs == old(previouslyAttachedTabs)
    {
      if active.None? {
        return NoActiveTab, [];
      }
      var tabId := active.value;
      if tabId in tabs && tabs[tabId].state == Connected {
        sent := DetachTab(tabId, "toggle");
        return ToggledOff, sent;
      }
      MarkConnectingKeepsConsistent(Reg(), tabId);
      if tabId !in tabs {
        order := order + [tabId];
      }
      tabs := tabs[tabId := ConnectingEntry];
      step, sent := MarkedConnecting, [];
    }

    /**
     * The `catch` of the toolbar click when connecting or attaching failed: the tab's whole
     * record is removed (the source removes only the `tabs` entry; see `FailedToggleCleanup`).
     */
    method ToggleFailed(tabId: TabId)
      requires Valid()
      modifies this
      ensures Valid()
      ensures Reg() == FailedToggleCleanup(old(Reg()), tabId)
      ensures Links() == old(Links()) && pending == old(pending) && previouslyAttachedTabs == old(previouslyAttachedTabs)
    {
      FailedToggleCleanupKeepsConsistent(Reg(), tabId);
      ForgetTab(tabId);
    }

    /**
     * `ensureRelayConnection`: nothing when the socket is open; otherwise the attempt opens
     * (`connectOk`) or fails. On opening, auto-reconnect is enabled, the back-off reset and the
     * heartbeat started with `now` as the last pong.
     */
    method EnsureRelayConnection(connectOk: bool, now: int) returns (c: ConnectResult)
      requires Valid()
      modifies this
      ensures Valid()
      ensures old(relayOpen) ==> c == AlreadyOpen && Links() == old(Links())
      ensures !old(relayOpen) && !connectOk ==> c == ConnectFailed && Links() == old(Links())
      ensures !old(relayOpen) && connectOk ==>
        c == Opened && Links() == Link(true, true, old(reconnectTimer), BaseReconnectDelay, true, true, now)
      ensures Reg() == old(Reg()) && pending == old(pending) && previouslyAttachedTabs == old(previouslyAttachedTabs)
    {
      if relayOpen {
        return AlreadyOpen;
      }
      if !connectOk {
        return ConnectFailed;
      }
      relayOpen, relayActive, autoReconnectEnabled, reconnectDelay := true, true, true, BaseReconnectDelay;
      heartbeatRunning, lastPongTime := true, now;
      c := Opened;
    }

    /** `requestFromRelay(command)`: registered under its id, then sent; if the send throws the id is removed again. */
    method RequestFromRelay(id: real) returns (sent: seq<Outgoing>)
      requires Valid()
      modifies this
      ensures Valid()
      ensures relayOpen ==> pending == AddId(old(pending), id) && sent == [Request(id)]
      ensures !relayOpen ==> pending == RemoveRealId(old(pending), id) && sent == []
      ensures Reg() == old(Reg()) && Links() == old(Links()) && previouslyAttachedTabs == old(previouslyAttachedTabs)
    {
      pending := AddId(pending, id);
      if relayOpen {
        sent := [Request(id)];
      } else {
        pending := RemoveRealId(pending, id);
        sent := [];
        assert RemoveRealId(AddId(old(pending), id), id) == RemoveRealId(old(pending), id) by {
          RemoveAfterAdd(old(pending), id);
        }
      }
    }

    /** `scheduleReconnect`: arms the timer with the current delay unless one is already armed. */
    method ScheduleReconnect()
      requires Valid()
      modifies this
      ensures Valid()
      ensures reconnectTimer == if old(reconnectTimer).Some? then old(reconnectTimer) else Some(reconnectDelay)
      ensures Links() == old(Links()).(reconnectTimer := reconnectTimer)
      ensures Reg() == old(Reg()) && pending == old(pending) && previouslyAttachedTabs == old(previouslyAttachedTabs)
    {
      if reconnectTimer.None? {
        reconnectTimer := Some(reconnectDelay);
      }
    }

    /** The registry part of `onRelayClosed`: the attached tabs are remembered, then the three maps cleared. */
    method ForgetAttachedTabs()
      requires Consistent(Reg())
      modifies this
      ensures Consistent(Reg())
      ensures Reg() == Cleared(old(Reg())) && previouslyAttachedTabs == old(order)
      ensures Links() == old(Links()) && pending == old(pending)
    {
      previouslyAttachedTabs := order;
      order, tabs, tabBySession, childSessionToTab := [], map[], map[], map[];
    }

    /**
     * `onRelayClosed(reason)`, bound to both the `close` and the `error` event of the socket:
     * the heartbeat stops, the attached tabs are remembered, every pending request is removed
     * and rejected in table order, the three maps are cleared, and a reconnect is scheduled when
     * auto-reconnect is on. A socket's disconnect is handled once: when it has already been
     * handled nothing happens (the source handles it again; see `RelayClosedTwiceAsWritten`).
     */
    method OnRelayClosed(reason: string) returns (rejected: seq<real>)
      requires Valid()
      modifies this
      ensures Valid()
      ensures !old(relayActive) ==> rejected == [] && unchanged(this)
      ensures old(relayActive) ==>
        rejected == old(pending) && pending == [] &&
        Reg() == Cleared(old(Reg())) && previouslyAttachedTabs == old(order) &&
        Links() == old(Links()).(relayOpen := false, relayActive := false, heartbeatRunning := false,
          reconnectTimer := if old(autoReconnectEnabled) && old(reconnectTimer).None? then Some(old(reconnectDelay)) else old(reconnectTimer))
    {
      if !relayActive {
        return [];
      }
      var remaining := pending;
      rejected := [];
      while remaining != []
        invariant rejected + remaining == old(pending)
      {
        rejected := rejected + [remaining[0]];
        remaining := remaining[1..];
      }
      heartbeatRunning, relayOpen, relayActive, pending := false, false, false, remaining;
      ForgetAttachedTabs();
      if autoReconnectEnabled {
        ScheduleReconnect();
      }
    }

    /**
     * `reattachTabs`: each remembered tab that still exists (`alive`) is attached again, with
     * the runtime's answers `attachOk` and `targetIds`; failures are logged and skipped. The
     * remembered set is then emptied.
     */
    method ReattachTabs(alive: set<TabId>, attachOk: set<TabId>, targetIds: map<TabId, string>) returns (sent: seq<Outgoing>)
      requires Valid()
      modifies this
      ensures Valid()
      ensures var res := ReattachAll(old(Reg()), old(previouslyAttachedTabs), alive, attachOk, targetIds, relayOpen);
        Reg() == res.0 && sent == res.1
      ensures previouslyAttachedTabs == []
      ensures Links() == old(Links()) && pending == old(pending)
    {
      var ts := previouslyAttachedTabs;
      ghost var r0 := Reg();
      sent := [];
      for k := 0 to |ts|
        invariant Valid()
        invariant (Reg(), sent) == ReattachAll(r0, ts[..k], alive, attachOk, targetIds, relayOpen)
        invariant Links() == old(Links()) && pending == old(pending) && previouslyAttachedTabs == ts
      {
        assert ts[..k + 1][..k] == ts[..k];
        var t := ts[k];
        if t in alive {
          var outcome, m := AttachTab(t, t in attachOk, Lookup(targetIds, t));
          sent := sent + m;
        }
      }
      assert ts[..|ts|] == ts;
      previouslyAttachedTabs := [];
    }

    /**
     * The reconnect timer fires: it is cleared and `ensureRelayConnection` runs. On success the
     * back-off is reset and the remembered tabs re-attached; on failure the delay doubles up to
     * the cap and, with auto-reconnect on, the timer is armed again.
     */
    method ReconnectFired(connectOk: bool, now: int, alive: set<TabId>, attachOk: set<TabId>, targetIds: map<TabId, string>)
        returns (sent: seq<Outgoing>)
      requires Valid() && reconnectTimer.Some?
      modifies this
      ensures Valid()
      ensures old(relayOpen) || connectOk ==>
        relayOpen && reconnectTimer.None? && reconnectDelay == BaseReconnectDelay && previouslyAttachedTabs == [] &&
        var res := ReattachAll(old(Reg()), old(previouslyAttachedTabs), alive, attachOk, targetIds, true);
        Reg() == res.0 && sent == res.1
      ensures !old(relayOpen) && !connectOk ==>
        !relayOpen && reconnectDelay == NextDelay(old(reconnectDelay)) &&
        reconnectTimer == (if autoReconnectEnabled then Some(NextDelay(old(reconnectDelay))) else None) &&
        Reg() == old(Reg()) && previouslyAttachedTabs == old(previouslyAttachedTabs) && sent == []
      ensures autoReconnectEnabled == (old(autoReconnectEnabled) || (!old(relayOpen) && connectOk))
      ensures pending == old(pending)
    {
      reconnectTimer := None;
      var c := EnsureRelayConnection(connectOk, now);
      if c == ConnectFailed {
        reconnectDelay := NextDelay(reconnectDelay);
        if autoReconnectEnabled {
          ScheduleReconnect();
        }
        sent := [];
      } else {
        reconnectDelay := BaseReconnectDelay;
        sent := ReattachTabs(alive, attachOk, targetIds);
      }
    }

    /**
     * A heartbeat tick at `now`: with the socket gone the heartbeat stops; with no pong for more
     * than 25 s it stops and the socket is closed (its `close` event follows as
     * `OnRelayClosed`); otherwise a ping is sent.
     */
    method HeartbeatTick(now: int) returns (a: TickAction, sent: seq<Outgoing>)
      requires Valid()
      modifies this
      ensures Valid()
      ensures !old(heartbeatRunning) ==> a == NotRunning && Links() == old(Links()) && sent == []
      ensures old(heartbeatRunning) && !old(relayOpen) ==>
        a == StoppedNotConnected && Links() == old(Links()).(heartbeatRunning := false) && sent == []
      ensures old(heartbeatRunning) && old(relayOpen) && PeerDead(now, lastPongTime) ==>
        a == ClosedDeadRelay && Links() == old(Links()).(heartbeatRunning := false, relayOpen := false) && sent == []
      ensures old(heartbeatRunning) && old(relayOpen) && !PeerDead(now, lastPongTime) ==>
        a == PingSent && Links() == old(Links()) && sent == [PingOut]
      ensures Reg() == old(Reg()) && pending == old(pending) && previouslyAttachedTabs == old(previouslyAttachedTabs)
    {
      if !heartbeatRunning {
        return NotRunning, [];
      }
      if !relayOpen {
        heartbeatRunning := false;
        return StoppedNotConnected, [];
      }
      if PeerDead(now, lastPongTime) {
        heartbeatRunning, relayOpen := false, false;
        return ClosedDeadRelay, [];
      }
      a, sent := PingSent, [PingOut];
    }

    /**
     * `onRelayMessage`: a ping is answered with a pong, a pong records `now`, a response settles
     * its pending request (an unknown id is ignored), `clientConnected` replays the attached
     * tabs (`pages` is what `chrome.tabs.get` reports), and a forwarded command is routed and
     * answered, with `runtime` the runtime's answer to the planned action. Sends made while the
     * socket is not open throw and are dropped.
     */
    method OnRelayMessage(f: Frame, now: int, pages: map<TabId, PageInfo>, runtime: Result<JsValue>, dist: real, rand: seq<real>)
        returns (q: RelayRequest, sent: seq<Outgoing>, settled: Option<RequestOutcome>, answer: Option<CommandAnswer>)
      requires Valid()
      requires var m := MouseMoveOf(f);
        dist >= 0.0 && dist * dist == (m.ex - m.sx) * (m.ex - m.sx) + (m.ey - m.sy) * (m.ey - m.sy)
      requires JsMath.AllDraws(rand) && |rand| >= HumanInput.DrawsNeeded(HumanInput.Steps(dist))
      modifies this
      ensures Valid()
      ensures q == ReadRelayRequest(f)
      ensures q == PingRequest ==> sent == (if relayOpen then [PongOut] else [])
      ensures q == PongNotice ==> lastPongTime == now && sent == []
      ensures q != PongNotice ==> lastPongTime == old(lastPongTime)
      ensures q.Response? && q.id in old(pending) ==>
        pending == RemoveRealId(old(pending), q.id) && settled == Some(SettleRequest(q.error, q.result))
      ensures !(q.Response? && q.id in old(pending)) ==> pending == old(pending) && settled.None?
      ensures q == ClientConnected ==> sent == (if relayOpen then Replay(Reg(), order, pages) else [])
      ensures q.Command? && !relayOpen ==> sent == []
      ensures q.Command? && relayOpen && NeedsTab(q.args) && FirstConnectedTab(Reg()).None? ==>
        sent == [Reply(q.id, Err(NoTabMessage(q.args.name)))]
      ensures answer.Some? <==> q.Command? && relayOpen
      ensures answer.Some? ==>
        answer.value.plan == PlanCommand(Reg(), q.args) && sent == [Reply(q.id, answer.value.reply)] &&
        AnswersPlan(answer.value, q.args, MouseMoveOf(f), HumanInput.Steps(dist), runtime)
      ensures q.Response? || q == Ignored ==> sent == []
      ensures Reg() == old(Reg()) && previouslyAttachedTabs == old(previouslyAttachedTabs)
      ensures Links() == old(Links()).(lastPongTime := lastPongTime)
    {
      q := ReadRelayRequest(f);
      sent, settled, answer := [], None, None;
      match q
      case Ignored =>
      case PingRequest =>
        if relayOpen {
          sent := [PongOut];
        }
      case PongNotice =>
        lastPongTime := now;
      case Response(id, error, result) =>
        if id in pending {
          pending := RemoveRealId(pending, id);
          settled := Some(SettleRequest(error, result));
        }
      case ClientConnected =>
        if relayOpen {
          sent := Replay(Reg(), order, pages);
        }
      case Command(id, args) =>
        if relayOpen {
          var a := AnswerCommand(Reg(), f, args, runtime, dist, rand);
          answer := Some(a);
          sent := [Reply(id, a.reply)];
        }
    }
  }

  /**
   * `handleForwardCdpCommand` once the command is read: route it in `r`, then answer with the
   * routing error, `{}` after the key chain or a dispatched mouse path (or the runtime's error),
   * `{ path }` for an undispatched mouse path, or what the runtime returned for the planned action.
   */
  method AnswerCommand(r: Registry, f: Frame, args: CommandArgs, runtime: Result<JsValue>, dist: real, rand: seq<real>)
      returns (a: CommandAnswer)
    requires Consistent(r)
    requires var m := MouseMoveOf(f);
      dist >= 0.0 && dist * dist == (m.ex - m.sx) * (m.ex - m.sx) + (m.ey - m.sy) * (m.ey - m.sy)
    requires JsMath.AllDraws(rand) && |rand| >= HumanInput.DrawsNeeded(HumanInput.Steps(dist))
    ensures a.plan == PlanCommand(r, args)
    ensures a.plan.Err? <==> NeedsTab(args) && FirstConnectedTab(r).None?
    ensures AnswersPlan(a, args, MouseMoveOf(f), HumanInput.Steps(dist), runtime)
  {
    PlanCommandFailsOnlyWithoutTabs(r, args);
    var plan := PlanCommand(r, args);
    if plan.Err? {
      a := CommandAnswer(plan, Err(plan.error), []);
    } else if plan.value == MousePath(None) {
      var m := MouseMoveOf(f);
      var path := HumanInput.GenerateHumanMousePath(m.sx, m.sy, m.ex, m.ey, dist, rand);
      a := CommandAnswer(plan, Ok(PathReply(path)), path);
    } else if AnsweredWithEmptyObject(plan.value) {
      a := CommandAnswer(plan, if runtime.Ok? then Ok(EmptyObject) else runtime, []);
    } else {
      a := CommandAnswer(plan, runtime, []);
    }
  }

  /** The loop of `detachTab` that deletes, while iterating, every child session owned by `tabId`. */
  method DropChildSessions(children: map<string, TabId>, tabId: TabId) returns (m: map<string, TabId>)
    ensures m == DropChildren(children, tabId)
  {
    m := children;
    var keys := children.Keys;
    while keys != {}
      invariant keys <= children.Keys
      invariant m == map s | s in children && (s in keys || children[s] != tabId) :: children[s]
      decreases keys
    {
      var s :| s in keys;
      if m[s] == tabId {
        m := m - {s};
      }
      keys := keys - {s};
    }
  }

  /** Registering an id and removing it again leaves the table as removing it alone would. */
  lemma RemoveAfterAdd(p: seq<real>, id: real)
    ensures RemoveRealId(AddId(p, id), id) == RemoveRealId(p, id)
  {
    if id !in p {
      RemoveAppended(p, id);
    }
  }

  lemma {:induction false} RemoveAppended(p: seq<real>, id: real)
    ensures RemoveRealId(p + [id], id) == RemoveRealId(p, id)
  {
    if p != [] {
      assert (p + [id])[1..] == p[1..] + [id];
      RemoveAppended(p[1..], id);
    }
  }

  // ---------------------------------------------------------------------------------------------
  // Properties across operations

  /** What a disconnect leaves behind: whether the socket's disconnect was handled, the registry, the tabs remembered. */
  datatype Teardown = Teardown(handled: bool, reg: Registry, remembered: seq<TabId>)

  /** `onRelayClosed` as written: it runs on every call, whether or not the disconnect was already handled. */
  function RelayClosedAsWritten(t: Teardown): (t': Teardown)
    ensures t'.handled && t'.reg == Cleared(t.reg) && t'.remembered == t.reg.order
  {
    Teardown(true, Cleared(t.reg), t.reg.order)
  }

  /** `onRelayClosed` handling each socket's disconnect once, as `Extension.OnRelayClosed` does. */
  function RelayClosedOnce(t: Teardown): (t': Teardown)
    ensures t.handled ==> t' == t
    ensures !t.handled ==> t'.handled && t'.reg == Cleared(t.reg) && t'.remembered == t.reg.order
  {
    if t.handled then t else Teardown(true, Cleared(t.reg), t.reg.order)
  }

  /**
   * A failing socket fires `error` and then `close`, and both run the handler. As written the
   * second run sees the registry the first one cleared and overwrites the remembered tabs with
   * nothing: no tab is re-attached after the reconnect.
   */
  lemma RelayClosedTwiceAsWritten(r: Registry, prev: seq<TabId>)
    requires Consistent(r) && r.order != []
    ensures var once := RelayClosedAsWritten(Teardown(false, r, prev));
      once.remembered == r.order && RelayClosedAsWritten(once).remembered == [] &&
      exists t :: t in r.tabs && t !in RelayClosedAsWritten(once).remembered
  {
    assert r.order[0] in r.tabs;
  }

  /** Handled once, the second event changes nothing and every tab attached before the disconnect stays remembered. */
  lemma RelayClosedTwiceRemembersTabs(r: Registry, prev: seq<TabId>)
    requires Consistent(r)
    ensures var once := RelayClosedOnce(Teardown(false, r, prev));
      RelayClosedOnce(once) == once && once.remembered == r.order &&
      forall t :: t in r.tabs ==> t in RelayClosedOnce(once).remembered
  {
  }
}
