/**
 * The session registry of the browser extension (background.js): which tabs are attached, the
 * session id each attached tab is known by, the child sessions the page opened, and the counter
 * session ids are drawn from. Each operation of the extension is a function on `Registry`; the
 * class `Extension` in background.dfy changes its fields only as these functions say.
 */
module TabRegistry {
  import opened Wrappers
  import opened Json
  import opened JsText

  /** Chrome tab ids. `x || y` on them treats 0 as absent, and real tab ids are positive. */
  type TabId = t: int | t > 0 witness 1

  datatype TabState = Connecting | Connected

  /** A `tabs` entry: `{state: 'connecting'}` while the toolbar click is being served, or a full record once attached. */
  datatype TabEntry = TabEntry(state: TabState, sessionId: Option<string>, targetId: Option<string>, attachOrder: Option<nat>)

  const ConnectingEntry := TabEntry(Connecting, None, None, None)

  /** JavaScript truthiness of an optional string: present and not empty. */
  predicate Truthy(s: Option<string>) {
    s.Some? && s.value != ""
  }

  /** The session id handed to the `n`-th attach: `cb-tab-${n}`. */
  function SessionName(n: nat): string {
    "cb-tab-" + IntToDecimal(n)
  }

  /** Distinct counter values give distinct session ids. */
  lemma SessionNameInjective(a: nat, b: nat)
    ensures SessionName(a) == SessionName(b) ==> a == b
  {
    if SessionName(a) == SessionName(b) {
      assert IntToDecimal(a) == SessionName(a)[7..];
      assert IntToDecimal(b) == SessionName(b)[7..];
      IntToDecimalInjective(a, b);
    }
  }

  /**
   * The registry: `order` lists the keys of `tabs` in insertion order (a JavaScript `Map`
   * iterates in that order, and a `set` on an existing key keeps its place).
   */
  datatype Registry = Registry(
    order: seq<TabId>,
    tabs: map<TabId, TabEntry>,
    tabBySession: map<string, TabId>,
    childSessionToTab: map<string, TabId>,
    nextSession: nat)

  const EmptyRegistry := Registry([], map[], map[], map[], 1)

  predicate NoDup<T(==)>(s: seq<T>) {
    forall i, j :: 0 <= i < j < |s| ==> s[i] != s[j]
  }

  predicate IsConnected(r: Registry, t: TabId) {
    t in r.tabs && r.tabs[t].state == Connected
  }

  predicate OrderMatches(r: Registry) {
    NoDup(r.order) && (forall i :: 0 <= i < |r.order| ==> r.order[i] in r.tabs) && (forall t :: t in r.tabs ==> t in r.order)
  }

  /**
   * A connecting entry has no ids; an attached one has the session id of the counter value it
   * was attached with (`attachOrder` is that value plus one), a non-empty target id, and is
   * what `tabBySession` maps its session id to.
   */
  predicate EntryOk(r: Registry, t: TabId)
    requires t in r.tabs
  {
    var e := r.tabs[t];
    match e.state
    case Connecting => e.sessionId.None? && e.targetId.None? && e.attachOrder.None?
    case Connected =>
      e.attachOrder.Some? && 2 <= e.attachOrder.value <= r.nextSession &&
      e.sessionId == Some(SessionName(e.attachOrder.value - 1)) && Truthy(e.targetId) &&
      e.sessionId.value in r.tabBySession && r.tabBySession[e.sessionId.value] == t
  }

  /** `tabBySession` is exactly the inverse of the attached entries' session ids. */
  predicate SessionsOk(r: Registry) {
    forall s :: s in r.tabBySession ==> r.tabBySession[s] in r.tabs && r.tabs[r.tabBySession[s]].sessionId == Some(s)
  }

  /** Every child session belongs to an attached tab. */
  predicate ChildrenOk(r: Registry) {
    forall s :: s in r.childSessionToTab ==> IsConnected(r, r.childSessionToTab[s])
  }

  /** The registry invariant every operation keeps. */
  predicate Consistent(r: Registry) {
    r.nextSession >= 1 && OrderMatches(r) && (forall t :: t in r.tabs ==> EntryOk(r, t)) && SessionsOk(r) && ChildrenOk(r)
  }

  lemma EmptyRegistryConsistent()
    ensures Consistent(EmptyRegistry)
  {
  }

  /** No session id in use was drawn from the counter's current value or a later one. */
  lemma NextSessionIsFresh(r: Registry, k: nat)
    requires Consistent(r) && k >= r.nextSession
    ensures SessionName(k) !in r.tabBySession
    ensures forall t :: t in r.tabs ==> r.tabs[t].sessionId != Some(SessionName(k))
  {
    forall t | t in r.tabs
      ensures r.tabs[t].sessionId != Some(SessionName(k))
    {
      assert EntryOk(r, t);
      if r.tabs[t].state == Connected {
        SessionNameInjective(r.tabs[t].attachOrder.value - 1, k);
      }
    }
    forall s | s in r.tabBySession ensures s != SessionName(k) {
      assert r.tabs[r.tabBySession[s]].sessionId == Some(s);
    }
  }

  // ---------------------------------------------------------------------------------------------
  // What the extension sends to the relay

  /** The page details `chrome.tabs.get` reports, used when replaying attached tabs. */
  datatype PageInfo = PageInfo(title: string, url: string)

  datatype Outgoing =
    | PongOut
    | PingOut
    /** `Target.attachedToTarget`; `page` is `None` when the runtime's own target info is sent. */
    | AttachedEvent(sessionId: string, targetId: string, page: Option<PageInfo>)
    | DetachedEvent(sessionId: string, targetId: string, reason: string)
    | ForwardedEvent(sessionId: string, name: string, params: Option<JsValue>)
    | Reply(id: real, result: Result<JsValue>)
    | Request(id: real)

  // ---------------------------------------------------------------------------------------------
  // Small sequence and map helpers

  /** `order` without `t`, order kept. */
  function Without(s: seq<TabId>, t: TabId): (r: seq<TabId>)
    ensures forall x :: x in r <==> x in s && x != t
    ensures NoDup(s) ==> NoDup(r)
    ensures t !in s ==> r == s
  {
    if s == [] then []
    else
      var rest := Without(s[1..], t);
      assert forall x :: x in s <==> x == s[0] || x in s[1..];
      if s[0] == t then rest
      else
        assert NoDup(s) ==> s[0] !in s[1..] by {
          if NoDup(s) {
            forall j | 0 <= j < |s[1..]| ensures s[1..][j] != s[0] {
              assert s[1..][j] == s[j + 1];
            }
          }
        }
        [s[0]] + rest
  }

  /** `k` appended to `order` unless `tabs` already has it (`Map.set` keeps an existing key's place). */
  function Insert(r: Registry, k: TabId): seq<TabId> {
    if k in r.tabs then r.order else r.order + [k]
  }

  /** The child sessions not owned by `t`. */
  function DropChildren(c: map<string, TabId>, t: TabId): (m: map<string, TabId>)
    ensures forall s :: s in m <==> s in c && c[s] != t
    ensures forall s :: s in m ==> m[s] == c[s]
  {
    map s | s in c && c[s] != t :: c[s]
  }

  function Lookup(m: map<TabId, string>, t: TabId): Option<string> {
    if t in m then Some(m[t]) else None
  }

  // ---------------------------------------------------------------------------------------------
  // Attach

  datatype AttachOutcome =
    | AttachRefused                                               // `chrome.debugger.attach` threw
    | NoTargetId                                                  // 'Target.getTargetInfo returned no targetId'
    | Attached(sessionId: string, targetId: string)               // recorded and announced
    | AttachedUnannounced(sessionId: string, targetId: string)    // recorded; the announcement threw 'Relay not connected'

  predicate Recorded(o: AttachOutcome) {
    o.Attached? || o.AttachedUnannounced?
  }

  datatype Attach = Attach(reg: Registry, outcome: AttachOutcome)

  /** `String(targetInfo?.targetId || '').trim()`, with the runtime's (stringified) target id as input. */
  function TargetIdOf(raw: Option<string>): string {
    Trim(raw.GetOr(""))
  }

  /** The record `attachTab` makes: session `cb-tab-N` from the counter, `attachOrder` the counter after the increment. */
  function Record(r: Registry, tabId: TabId, targetId: string): Registry {
    var n := r.nextSession;
    Registry(
      Insert(r, tabId),
      r.tabs[tabId := TabEntry(Connected, Some(SessionName(n)), Some(targetId), Some(n + 1))],
      r.tabBySession[SessionName(n) := tabId],
      r.childSessionToTab,
      n + 1)
  }

  /**
   * `attachTab(tabId)` once the runtime has answered: `attachOk` says whether
   * `chrome.debugger.attach` succeeded (it always refuses a tab the extension already has
   * attached), `rawTargetId` is what `Target.getTargetInfo` reported, and `relayOpen` whether
   * the relay socket is open when the attached event is sent.
   */
  function AttachTab(r: Registry, tabId: TabId, attachOk: bool, rawTargetId: Option<string>, relayOpen: bool): (a: Attach)
    ensures !attachOk || IsConnected(r, tabId) ==> a == Attach(r, AttachRefused)
    ensures attachOk && !IsConnected(r, tabId) && TargetIdOf(rawTargetId) == "" ==> a == Attach(r, NoTargetId)
    ensures Recorded(a.outcome) <==> attachOk && !IsConnected(r, tabId) && TargetIdOf(rawTargetId) != ""
    ensures Recorded(a.outcome) ==>
      a.outcome.sessionId == SessionName(r.nextSession) && a.outcome.targetId == TargetIdOf(rawTargetId) &&
      a.outcome.targetId != "" && a.reg == Record(r, tabId, a.outcome.targetId)
    ensures a.outcome.Attached? <==> Recorded(a.outcome) && relayOpen
  {
    if !attachOk || IsConnected(r, tabId) then Attach(r, AttachRefused)
    else
      var targetId := TargetIdOf(rawTargetId);
      if targetId == "" then Attach(r, NoTargetId)
      else
        var sessionId := SessionName(r.nextSession);
        var reg := Record(r, tabId, targetId);
        if relayOpen then Attach(reg, Attached(sessionId, targetId)) else Attach(reg, AttachedUnannounced(sessionId, targetId))
  }

  /** The announcement a successful attach sends. */
  function Announcement(o: AttachOutcome): (m: seq<Outgoing>)
    ensures |m| <= 1 && (|m| == 1 <==> o.Attached?)
  {
    if o.Attached? then [AttachedEvent(o.sessionId, o.targetId, None)] else []
  }

  lemma RecordKeepsOrder(r: Registry, tabId: TabId, targetId: string)
    requires Consistent(r)
    ensures OrderMatches(Record(r, tabId, targetId))
  {
    var r' := Record(r, tabId, targetId);
    if tabId !in r.tabs {
      assert tabId !in r.order;
      forall i | 0 <= i < |r'.order| ensures r'.order[i] in r'.tabs {
        if i < |r.order| {
          assert r'.order[i] == r.order[i];
        }
      }
    }
  }

  lemma RecordKeepsEntries(r: Registry, tabId: TabId, targetId: string)
    requires Consistent(r) && targetId != ""
    ensures var r' := Record(r, tabId, targetId); forall t :: t in r'.tabs ==> EntryOk(r', t)
  {
    var r' := Record(r, tabId, targetId);
    var n := r.nextSession;
    forall t | t in r'.tabs ensures EntryOk(r', t) {
      if t != tabId {
        assert EntryOk(r, t);
        if r.tabs[t].state == Connected {
          SessionNameInjective(r.tabs[t].attachOrder.value - 1, n);
        }
      }
    }
  }

  lemma RecordKeepsSessions(r: Registry, tabId: TabId, targetId: string)
    requires Consistent(r) && !IsConnected(r, tabId)
    ensures SessionsOk(Record(r, tabId, targetId)) && ChildrenOk(Record(r, tabId, targetId))
  {
    var r' := Record(r, tabId, targetId);
    if tabId in r.tabs {
      assert EntryOk(r, tabId);
    }
    forall s | s in r'.tabBySession
      ensures r'.tabBySession[s] in r'.tabs && r'.tabs[r'.tabBySession[s]].sessionId == Some(s)
    {
      if s != SessionName(r.nextSession) {
        assert r.tabs[r.tabBySession[s]].sessionId == Some(s);
      }
    }
  }

  lemma RecordKeepsConsistent(r: Registry, tabId: TabId, targetId: string)
    requires Consistent(r) && !IsConnected(r, tabId) && targetId != ""
    ensures Consistent(Record(r, tabId, targetId))
  {
    RecordKeepsOrder(r, tabId, targetId);
    RecordKeepsEntries(r, tabId, targetId);
    RecordKeepsSessions(r, tabId, targetId);
  }

  /** Attaching keeps the invariant, whatever the runtime answers. */
  lemma AttachKeepsConsistent(r: Registry, tabId: TabId, attachOk: bool, rawTargetId: Option<string>, relayOpen: bool)
    requires Consistent(r)
    ensures Consistent(AttachTab(r, tabId, attachOk, rawTargetId, relayOpen).reg)
  {
    var a := AttachTab(r, tabId, attachOk, rawTargetId, relayOpen);
    if Recorded(a.outcome) {
      RecordKeepsConsistent(r, tabId, a.outcome.targetId);
    }
  }

  /**
   * Session ids are never reused: the id an attach hands out is in use by no tab and no
   * session mapping, the counter moves past it, and the tab is then found by it.
   */
  lemma AttachSessionIsFresh(r: Registry, tabId: TabId, attachOk: bool, rawTargetId: Option<string>, relayOpen: bool)
    requires Consistent(r)
    requires Recorded(AttachTab(r, tabId, attachOk, rawTargetId, relayOpen).outcome)
    ensures var a := AttachTab(r, tabId, attachOk, rawTargetId, relayOpen);
      a.outcome.sessionId !in r.tabBySession &&
      (forall t :: t in r.tabs ==> r.tabs[t].sessionId != Some(a.outcome.sessionId)) &&
      a.reg.nextSession == r.nextSession + 1 &&
      GetTabBySessionId(a.reg, a.outcome.sessionId) == Some(TabLookup(tabId, Main))
  {
    NextSessionIsFresh(r, r.nextSession);
  }

  // ---------------------------------------------------------------------------------------------
  // Detach

  /**
   * The map changes of `detachTab(tabId)`: the entry goes, its main session mapping goes (when
   * it had a session id), and every child session the tab owned goes.
   */
  function DetachTab(r: Registry, tabId: TabId): (r': Registry)
    ensures r'.tabs == r.tabs - {tabId} && r'.nextSession == r.nextSession
    ensures forall t :: t in r'.order <==> t in r.order && t != tabId
    ensures forall s :: s in r'.tabBySession <==>
      s in r.tabBySession && !(tabId in r.tabs && Truthy(r.tabs[tabId].sessionId) && s == r.tabs[tabId].sessionId.value)
    ensures forall s :: s in r'.tabBySession ==> r'.tabBySession[s] == r.tabBySession[s]
    ensures r'.childSessionToTab == DropChildren(r.childSessionToTab, tabId)
  {
    var bySession :=
      if tabId in r.tabs && Truthy(r.tabs[tabId].sessionId) then r.tabBySession - {r.tabs[tabId].sessionId.value}
      else r.tabBySession;
    Registry(Without(r.order, tabId), r.tabs - {tabId}, bySession, DropChildren(r.childSessionToTab, tabId), r.nextSession)
  }

  /** `Target.detachedFromTarget` goes out only for an entry with both a session id and a target id. */
  function DetachNotice(r: Registry, tabId: TabId, reason: string): (m: seq<Outgoing>)
    ensures |m| <= 1
    ensures |m| == 1 <==> tabId in r.tabs && Truthy(r.tabs[tabId].sessionId) && Truthy(r.tabs[tabId].targetId)
  {
    if tabId in r.tabs && Truthy(r.tabs[tabId].sessionId) && Truthy(r.tabs[tabId].targetId) then
      [DetachedEvent(r.tabs[tabId].sessionId.value, r.tabs[tabId].targetId.value, reason)]
    else []
  }

  lemma DetachKeepsOrder(r: Registry, tabId: TabId)
    requires Consistent(r)
    ensures OrderMatches(DetachTab(r, tabId))
  {
    var r' := DetachTab(r, tabId);
    forall i | 0 <= i < |r'.order| ensures r'.order[i] in r'.tabs {
      assert r'.order[i] in r'.order;
    }
  }

  lemma DetachKeepsEntries(r: Registry, tabId: TabId)
    requires (forall t :: t in r.tabs ==> EntryOk(r, t)) && SessionsOk(r)
    ensures var r' := DetachTab(r, tabId); forall t :: t in r'.tabs ==> EntryOk(r', t)
  {
    var r' := DetachTab(r, tabId);
    if tabId in r.tabs {
      assert EntryOk(r, tabId);
    }
    forall t | t in r'.tabs ensures EntryOk(r', t) {
      assert EntryOk(r, t) && t != tabId && r'.tabs[t] == r.tabs[t];
      if r.tabs[t].state == Connected {
        var s := r.tabs[t].sessionId.value;
        assert r.tabBySession[s] == t;
        assert tabId in r.tabs && Truthy(r.tabs[tabId].sessionId) ==> s != r.tabs[tabId].sessionId.value;
        assert s in r'.tabBySession && r'.tabBySession[s] == t;
      }
    }
  }

  lemma DetachKeepsSessions(r: Registry, tabId: TabId)
    requires Consistent(r)
    ensures SessionsOk(DetachTab(r, tabId)) && ChildrenOk(DetachTab(r, tabId))
  {
    var r' := DetachTab(r, tabId);
    if tabId in r.tabs {
      assert EntryOk(r, tabId);
    }
    forall s | s in r'.tabBySession
      ensures r'.tabBySession[s] in r'.tabs && r'.tabs[r'.tabBySession[s]].sessionId == Some(s)
    {
      assert r.tabs[r.tabBySession[s]].sessionId == Some(s);
    }
  }

  lemma DetachKeepsConsistent(r: Registry, tabId: TabId)
    requires Consistent(r)
    ensures Consistent(DetachTab(r, tabId))
  {
    DetachKeepsOrder(r, tabId);
    DetachKeepsEntries(r, tabId);
    DetachKeepsSessions(r, tabId);
  }

  /**
   * After a detach the tab is unreachable: no entry, no session of either kind leads to it,
   * and every other entry and session mapping is as before.
   */
  lemma DetachForgetsTab(r: Registry, tabId: TabId, s: string)
    requires Consistent(r)
    ensures var r' := DetachTab(r, tabId);
      tabId !in r'.tabs && tabId !in r'.order &&
      (GetTabBySessionId(r', s).Some? ==> GetTabBySessionId(r', s).value.tabId != tabId) &&
      (forall t :: t in r'.tabs ==> r'.tabs[t] == r.tabs[t])
    ensures s in r.tabBySession && r.tabBySession[s] != tabId ==> GetTabBySessionId(DetachTab(r, tabId), s) == GetTabBySessionId(r, s)
  {
    if tabId in r.tabs {
      assert EntryOk(r, tabId);
    }
    if s in r.tabBySession {
      assert r.tabs[r.tabBySession[s]].sessionId == Some(s);
    }
  }

  /** A second detach of the same tab changes nothing and announces nothing. */
  lemma DetachIdempotent(r: Registry, tabId: TabId, reason: string)
    ensures DetachTab(DetachTab(r, tabId), tabId) == DetachTab(r, tabId)
    ensures DetachNotice(DetachTab(r, tabId), tabId, reason) == []
  {
    var r1 := DetachTab(r, tabId);
    var r2 := DetachTab(r1, tabId);
    assert tabId !in r1.order;
    assert r2.tabs == r1.tabs;
    assert r2.tabBySession == r1.tabBySession;
    assert r2.childSessionToTab == r1.childSessionToTab;
  }

  // ---------------------------------------------------------------------------------------------
  // Lookups

  datatype SessionKind = Main | Child

  datatype TabLookup = TabLookup(tabId: TabId, kind: SessionKind)

  /** `getTabBySessionId`: main sessions are consulted before child sessions. */
  function GetTabBySessionId(r: Registry, s: string): (l: Option<TabLookup>)
    ensures (l.Some? && l.value.kind == Main) <==> s in r.tabBySession
    ensures (l.Some? && l.value.kind == Child) <==> s !in r.tabBySession && s in r.childSessionToTab
    ensures l.Some? && l.value.kind == Main ==> l.value.tabId == r.tabBySession[s]
    ensures l.Some? && l.value.kind == Child ==> l.value.tabId == r.childSessionToTab[s]
  {
    if s in r.tabBySession then Some(TabLookup(r.tabBySession[s], Main))
    else if s in r.childSessionToTab then Some(TabLookup(r.childSessionToTab[s], Child))
    else None
  }

  /** The two scans over `tabs` in insertion order. */
  datatype TabQuery = WithTarget(targetId: string) | IsAttached

  predicate Matches(r: Registry, t: TabId, q: TabQuery) {
    t in r.tabs &&
    match q
    case WithTarget(targetId) => r.tabs[t].targetId == Some(targetId)
    case IsAttached => r.tabs[t].state == Connected
  }

  /** The position of the first tab at or after `i`, in insertion order, that matches `q`. */
  function FirstMatch(r: Registry, q: TabQuery, i: nat): (k: Option<nat>)
    decreases |r.order| - i
    ensures k.Some? ==> i <= k.value < |r.order| && Matches(r, r.order[k.value], q)
    ensures k.Some? ==> forall j :: i <= j < k.value ==> !Matches(r, r.order[j], q)
    ensures k.None? ==> forall j :: i <= j < |r.order| ==> !Matches(r, r.order[j], q)
  {
    if i >= |r.order| then None
    else if Matches(r, r.order[i], q) then Some(i)
    else FirstMatch(r, q, i + 1)
  }

  /** The first tab in insertion order that matches `q`, if any. */
  function FirstTab(r: Registry, q: TabQuery): (t: Option<TabId>)
    ensures t.Some? ==> Matches(r, t.value, q)
    ensures t.Some? ==> exists k :: 0 <= k < |r.order| && r.order[k] == t.value && forall j :: 0 <= j < k ==> !Matches(r, r.order[j], q)
    ensures t.None? <==> forall j :: 0 <= j < |r.order| ==> !Matches(r, r.order[j], q)
  {
    match FirstMatch(r, q, 0)
    case None => None
    case Some(k) => Some(r.order[k])
  }

  /** `getTabByTargetId`: the first tab in insertion order with that target id. */
  function GetTabByTargetId(r: Registry, targetId: string): Option<TabId> {
    FirstTab(r, WithTarget(targetId))
  }

  /** The "first connected tab" fallback. */
  function FirstConnectedTab(r: Registry): Option<TabId> {
    FirstTab(r, IsAttached)
  }

  /** The attached tabs in insertion order, as the `clientConnected` replay and `Extension.getTabs` visit them. */
  function AttachedTabs(r: Registry, ts: seq<TabId>): (a: seq<TabId>)
    ensures forall t :: t in a <==> t in ts && IsConnected(r, t)
    ensures |a| <= |ts|
  {
    if ts == [] then []
    else
      assert forall t :: t in ts <==> t == ts[0] || t in ts[1..];
      (if IsConnected(r, ts[0]) then [ts[0]] else []) + AttachedTabs(r, ts[1..])
  }

  // ---------------------------------------------------------------------------------------------
  // Debugger events

  /** The entry of the event's source tab, when it has a session id: only such tabs are tracked. */
  predicate Tracked(r: Registry, source: Option<TabId>) {
    source.Some? && source.value in r.tabs && Truthy(r.tabs[source.value].sessionId)
  }

  /**
   * The map changes of `onDebuggerEvent`: for a tracked tab, `Target.attachedToTarget` with a
   * session id records the child session as the tab's and `Target.detachedFromTarget` forgets
   * it. Nothing else changes.
   */
  function DebuggerEvent(r: Registry, source: Option<TabId>, name: string, childSession: Option<string>): (r': Registry)
    ensures r'.order == r.order && r'.tabs == r.tabs && r'.tabBySession == r.tabBySession && r'.nextSession == r.nextSession
    ensures r' != r ==> Tracked(r, source) && Truthy(childSession)
    ensures Tracked(r, source) && Truthy(childSession) && name == "Target.attachedToTarget" ==>
      r'.childSessionToTab == r.childSessionToTab[childSession.value := source.value]
    ensures Tracked(r, source) && Truthy(childSession) && name == "Target.detachedFromTarget" ==>
      r'.childSessionToTab == r.childSessionToTab - {childSession.value}
    ensures name != "Target.attachedToTarget" && name != "Target.detachedFromTarget" ==> r' == r
  {
    if !Tracked(r, source) || !Truthy(childSession) then r
    else if name == "Target.attachedToTarget" then r.(childSessionToTab := r.childSessionToTab[childSession.value := source.value])
    else if name == "Target.detachedFromTarget" then r.(childSessionToTab := r.childSessionToTab - {childSession.value})
    else r
  }

  /** The session id an event is forwarded under: the event's own session, else the tab's. */
  function EventSession(r: Registry, source: Option<TabId>, sourceSession: Option<string>): string
    requires Tracked(r, source)
  {
    if Truthy(sourceSession) then sourceSession.value else r.tabs[source.value].sessionId.value
  }

  lemma DebuggerEventKeepsConsistent(r: Registry, source: Option<TabId>, name: string, childSession: Option<string>)
    requires Consistent(r)
    ensures Consistent(DebuggerEvent(r, source, name, childSession))
  {
    if Tracked(r, source) {
      assert EntryOk(r, source.value);
    }
  }

  /**
   * A child session announced by a tracked tab is found as that tab's child (unless the id is
   * also a main session, which wins), and once its detach is reported it is found no more.
   */
  lemma ChildSessionLifecycle(r: Registry, source: Option<TabId>, c: string)
    requires Tracked(r, source) && c != "" && c !in r.tabBySession
    ensures var r1 := DebuggerEvent(r, source, "Target.attachedToTarget", Some(c));
      GetTabBySessionId(r1, c) == Some(TabLookup(source.value, Child)) &&
      GetTabBySessionId(DebuggerEvent(r1, source, "Target.detachedFromTarget", Some(c)), c).None?
  {
  }

  // ---------------------------------------------------------------------------------------------
  // Routing forwarded commands

  /**
   * The tab a command goes to: the tab of its session id (main before child), else the first
   * tab with its `params.targetId`, else the first attached tab.
   */
  function PickTab(r: Registry, sessionId: Option<string>, targetId: Option<string>): (t: Option<TabId>)
    ensures Truthy(sessionId) && GetTabBySessionId(r, sessionId.value).Some? ==>
      t == Some(GetTabBySessionId(r, sessionId.value).value.tabId)
  {
    var bySession := if Truthy(sessionId) then GetTabBySessionId(r, sessionId.value) else None;
    if bySession.Some? then Some(bySession.value.tabId)
    else
      var byTarget := if Truthy(targetId) then GetTabByTargetId(r, targetId.value) else None;
      if byTarget.Some? then byTarget else FirstConnectedTab(r)
  }

  /**
   * The command's session id goes to the runtime only when it is set, the tab has a main
   * session, and the two differ; otherwise the command goes to the tab itself.
   */
  function DebuggerSession(r: Registry, tabId: TabId, sessionId: Option<string>): (s: Option<string>)
    ensures s.Some? <==>
      Truthy(sessionId) && tabId in r.tabs && Truthy(r.tabs[tabId].sessionId) && sessionId.value != r.tabs[tabId].sessionId.value
    ensures s.Some? ==> s == sessionId
  {
    var main := if tabId in r.tabs then r.tabs[tabId].sessionId else None;
    if Truthy(sessionId) && Truthy(main) && sessionId.value != main.value then sessionId else None
  }

  /** What `handleForwardCdpCommand` does with a command, once routed. */
  datatype CommandPlan =
    | KeyChain(tabId: TabId)                                 // Input.dispatchRealKey
    | MousePath(dispatchTo: Option<TabId>)                   // Input.humanMouseMove; None: the path is returned
    | RestoreSession                                         // Extension.restoreSession
    | ListTabs                                               // Extension.getTabs
    | ReenableRuntime(tabId: TabId)                          // Runtime.enable: disable first, then enable
    | CreateTarget                                           // a new tab, then attachTab on it
    | CloseTarget(toClose: Option<TabId>)                    // None: `{success: false}`
    | ActivateTarget(toActivate: Option<TabId>)
    | Forward(tabId: TabId, childSession: Option<string>)    // any other method

  /** A forwarded command's fields: the trimmed method, `params.sessionId` and `params.params.targetId` when strings, and `params.params.dispatch !== false`. */
  datatype CommandArgs = CommandArgs(name: string, sessionId: Option<string>, targetId: Option<string>, dispatch: bool)

  /** The routing of `handleForwardCdpCommand`, with the error each failed lookup throws. */
  function PlanCommand(r: Registry, c: CommandArgs): (p: Result<CommandPlan>)
    ensures p.Err? ==> FirstConnectedTab(r).None?
  {
    if c.name == "Input.dispatchRealKey" then
      match PickTab(r, c.sessionId, None)
      case None => Err("No attached tab for Input.dispatchRealKey")
      case Some(t) => Ok(KeyChain(t))
    else if c.name == "Input.humanMouseMove" then
      if !c.dispatch then Ok(MousePath(None))
      else
        match PickTab(r, c.sessionId, None)
        case None => Err("No attached tab for Input.humanMouseMove")
        case Some(t) => Ok(MousePath(Some(t)))
    else if c.name == "Extension.restoreSession" then Ok(RestoreSession)
    else if c.name == "Extension.getTabs" then Ok(ListTabs)
    else
      match PickTab(r, c.sessionId, c.targetId)
      case None => Err("No attached tab for method " + c.name)
      case Some(t) =>
        var named := if Truthy(c.targetId) then GetTabByTargetId(r, c.targetId.value) else Some(t);
        if c.name == "Runtime.enable" then Ok(ReenableRuntime(t))
        else if c.name == "Target.createTarget" then Ok(CreateTarget)
        else if c.name == "Target.closeTarget" then Ok(CloseTarget(named))
        else if c.name == "Target.activateTarget" then Ok(ActivateTarget(named))
        else Ok(Forward(t, DebuggerSession(r, t, c.sessionId)))
  }

  /** Whether a command needs an attached tab: all but `restoreSession`, `getTabs` and a mouse path that is not dispatched. */
  predicate NeedsTab(c: CommandArgs) {
    c.name != "Extension.restoreSession" && c.name != "Extension.getTabs" &&
    !(c.name == "Input.humanMouseMove" && !c.dispatch)
  }

  /** The message `handleForwardCdpCommand` throws when no tab is attached. */
  function NoTabMessage(name: string): string {
    if name == "Input.dispatchRealKey" then "No attached tab for Input.dispatchRealKey"
    else if name == "Input.humanMouseMove" then "No attached tab for Input.humanMouseMove"
    else "No attached tab for method " + name
  }

  /**
   * In a consistent registry a command fails exactly when it needs a tab and none is attached,
   * and then with the `No attached tab for …` message.
   */
  lemma PlanCommandFailsOnlyWithoutTabs(r: Registry, c: CommandArgs)
    requires Consistent(r)
    ensures PlanCommand(r, c).Err? <==> NeedsTab(c) && FirstConnectedTab(r).None?
    ensures PlanCommand(r, c).Err? ==> PlanCommand(r, c).error == NoTabMessage(c.name)
  {
    PlanCommandFailsOnlyWhenNoTabPicked(r, c);
    PickTabChoosesAttachedTab(r, c.sessionId, None);
    PickTabChoosesAttachedTab(r, c.sessionId, c.targetId);
  }

  /** The tab lookup a command's routing starts from: the target id is used only past the two `Input.*` methods. */
  function RoutingTargetId(c: CommandArgs): Option<string> {
    if c.name == "Input.dispatchRealKey" || c.name == "Input.humanMouseMove" then None else c.targetId
  }

  /** A command fails exactly when it needs a tab and the lookup finds none. */
  lemma PlanCommandFailsOnlyWhenNoTabPicked(r: Registry, c: CommandArgs)
    ensures PlanCommand(r, c).Err? <==> NeedsTab(c) && PickTab(r, c.sessionId, RoutingTargetId(c)).None?
    ensures PlanCommand(r, c).Err? ==> PlanCommand(r, c).error == NoTabMessage(c.name)
  {
    var p := PlanCommand(r, c);
    if c.name == "Input.dispatchRealKey" {
      assert NeedsTab(c);
      assert p.Err? <==> PickTab(r, c.sessionId, None).None?;
    } else if c.name == "Input.humanMouseMove" {
      assert p.Err? <==> c.dispatch && PickTab(r, c.sessionId, None).None?;
    } else if c.name == "Extension.restoreSession" || c.name == "Extension.getTabs" {
      assert !NeedsTab(c) && p.Ok?;
    } else {
      assert NeedsTab(c);
      assert RoutingTargetId(c) == c.targetId;
      assert NoTabMessage(c.name) == "No attached tab for method " + c.name;
      assert p.Err? <==> PickTab(r, c.sessionId, c.targetId).None?;
    }
  }

  /** The methods routed by `PlanCommand` to a generic `chrome.debugger.sendCommand`. */
  predicate IsGeneric(name: string) {
    name !in {"Input.dispatchRealKey", "Input.humanMouseMove", "Extension.restoreSession", "Extension.getTabs",
              "Runtime.enable", "Target.createTarget", "Target.closeTarget", "Target.activateTarget"}
  }

  /**
   * In a consistent registry every route ends at an attached tab, and routing fails exactly
   * when no tab is attached.
   */
  lemma PickTabChoosesAttachedTab(r: Registry, sessionId: Option<string>, targetId: Option<string>)
    requires Consistent(r)
    ensures PickTab(r, sessionId, targetId).Some? ==> IsConnected(r, PickTab(r, sessionId, targetId).value)
    ensures PickTab(r, sessionId, targetId).None? <==> FirstConnectedTab(r).None?
  {
    var t := PickTab(r, sessionId, targetId);
    if t.Some? {
      var v := t.value;
      if Truthy(sessionId) && sessionId.value in r.tabBySession {
        assert r.tabs[v].sessionId == Some(sessionId.value);
        assert EntryOk(r, v);
      } else if Truthy(targetId) && GetTabByTargetId(r, targetId.value).Some? {
        assert EntryOk(r, v);
      }
      assert v in r.order;
      var k :| 0 <= k < |r.order| && r.order[k] == v;
      assert Matches(r, r.order[k], IsAttached);
    }
  }

  /** A command on a tab's main session goes to that tab without a child session. */
  lemma MainSessionRoutesToTab(r: Registry, c: CommandArgs)
    requires Consistent(r) && IsGeneric(c.name)
    requires Truthy(c.sessionId) && c.sessionId.value in r.tabBySession
    ensures PlanCommand(r, c) == Ok(Forward(r.tabBySession[c.sessionId.value], None))
  {
    var t := r.tabBySession[c.sessionId.value];
    assert r.tabs[t].sessionId == c.sessionId;
  }

  /** A command on a child session goes to the owning tab, with the child session passed on. */
  lemma ChildSessionRoutesToOwner(r: Registry, c: CommandArgs)
    requires Consistent(r) && IsGeneric(c.name)
    requires Truthy(c.sessionId) && c.sessionId.value !in r.tabBySession && c.sessionId.value in r.childSessionToTab
    ensures PlanCommand(r, c) == Ok(Forward(r.childSessionToTab[c.sessionId.value], c.sessionId))
  {
    var t := r.childSessionToTab[c.sessionId.value];
    assert EntryOk(r, t);
  }

  /**
   * A command with no usable session id or target id goes to the first attached tab in
   * insertion order, and fails when there is none.
   */
  lemma UnaddressedCommandGoesToFirstAttached(r: Registry, c: CommandArgs)
    requires IsGeneric(c.name) && !Truthy(c.sessionId) && !Truthy(c.targetId)
    ensures FirstConnectedTab(r).None? ==> PlanCommand(r, c) == Err("No attached tab for method " + c.name)
    ensures FirstConnectedTab(r).Some? ==> PlanCommand(r, c) == Ok(Forward(FirstConnectedTab(r).value, None))
  {
  }

  // ---------------------------------------------------------------------------------------------
  // Toggling and teardown

  /** The toolbar click on a tab that is not attached: a `connecting` entry, position kept if present. */
  function MarkConnecting(r: Registry, tabId: TabId): (r': Registry)
    ensures r'.tabs == r.tabs[tabId := ConnectingEntry]
    ensures r'.tabBySession == r.tabBySession && r'.childSessionToTab == r.childSessionToTab && r'.nextSession == r.nextSession
  {
    r.(order := Insert(r, tabId), tabs := r.tabs[tabId := ConnectingEntry])
  }

  lemma MarkConnectingKeepsOrder(r: Registry, tabId: TabId)
    requires OrderMatches(r)
    ensures OrderMatches(MarkConnecting(r, tabId))
  {
    var r' := MarkConnecting(r, tabId);
    if tabId !in r.tabs {
      assert tabId !in r.order;
      forall i | 0 <= i < |r'.order| ensures r'.order[i] in r'.tabs {
        if i < |r.order| {
          assert r'.order[i] == r.order[i];
        }
      }
    }
  }

  lemma MarkConnectingKeepsSessions(r: Registry, tabId: TabId)
    requires (forall t :: t in r.tabs ==> EntryOk(r, t)) && SessionsOk(r) && ChildrenOk(r) && !IsConnected(r, tabId)
    ensures var r' := MarkConnecting(r, tabId); (forall t :: t in r'.tabs ==> EntryOk(r', t)) && SessionsOk(r') && ChildrenOk(r')
  {
    var r' := MarkConnecting(r, tabId);
    forall t | t in r'.tabs && t != tabId ensures EntryOk(r', t) {
      assert EntryOk(r, t);
    }
    if tabId in r.tabs {
      assert EntryOk(r, tabId);
    }
    forall s | s in r'.tabBySession ensures r'.tabBySession[s] != tabId {
      assert r.tabs[r.tabBySession[s]].sessionId == Some(s);
    }
  }

  lemma MarkConnectingKeepsConsistent(r: Registry, tabId: TabId)
    requires Consistent(r) && !IsConnected(r, tabId)
    ensures Consistent(MarkConnecting(r, tabId))
  {
    MarkConnectingKeepsOrder(r, tabId);
    MarkConnectingKeepsSessions(r, tabId);
  }

  /** `onRelayClosed` empties all three maps; the session counter is kept, so ids stay fresh across reconnects. */
  function Cleared(r: Registry): (r': Registry)
    ensures r'.order == [] && r'.tabs == map[] && r'.tabBySession == map[] && r'.childSessionToTab == map[]
    ensures r'.nextSession == r.nextSession
  {
    Registry([], map[], map[], map[], r.nextSession)
  }

  lemma ClearedKeepsConsistent(r: Registry)
    requires Consistent(r)
    ensures Consistent(Cleared(r))
  {
  }

  /**
   * `reattachTabs` after a reconnect: every remembered tab that still exists (`alive`) is
   * attached again, in order, with the runtime's answers `attachOk` and `targetIds`; failures
   * are skipped. Returns the registry and the announcements sent.
   */
  function ReattachAll(r: Registry, ts: seq<TabId>, alive: set<TabId>, attachOk: set<TabId>, targetIds: map<TabId, string>,
                       relayOpen: bool): (res: (Registry, seq<Outgoing>))
    ensures |res.1| <= |ts|
  {
    if ts == [] then (r, [])
    else
      var prev := ReattachAll(r, ts[..|ts| - 1], alive, attachOk, targetIds, relayOpen);
      var t := ts[|ts| - 1];
      if t !in alive then prev
      else
        var a := AttachTab(prev.0, t, t in attachOk, Lookup(targetIds, t), relayOpen);
        (a.reg, prev.1 + Announcement(a.outcome))
  }

  lemma {:induction false} ReattachKeepsConsistent(r: Registry, ts: seq<TabId>, alive: set<TabId>, attachOk: set<TabId>,
                                                  targetIds: map<TabId, string>, relayOpen: bool)
    requires Consistent(r)
    ensures Consistent(ReattachAll(r, ts, alive, attachOk, targetIds, relayOpen).0)
  {
    if ts != [] {
      ReattachKeepsConsistent(r, ts[..|ts| - 1], alive, attachOk, targetIds, relayOpen);
      var prev := ReattachAll(r, ts[..|ts| - 1], alive, attachOk, targetIds, relayOpen);
      var t := ts[|ts| - 1];
      AttachKeepsConsistent(prev.0, t, t in attachOk, Lookup(targetIds, t), relayOpen);
    }
  }

  /**
   * Every remembered tab that still exists, whose attach the runtime accepts and whose target
   * id is non-empty, is attached once `reattachTabs` is done; a tab that is no more is skipped.
   */
  lemma {:induction false} ReattachRestoresTabs(r: Registry, ts: seq<TabId>, alive: set<TabId>, attachOk: set<TabId>,
                                               targetIds: map<TabId, string>, relayOpen: bool, t: TabId)
    requires t in ts && t in alive && t in attachOk && t in targetIds && Trim(targetIds[t]) != ""
    ensures IsConnected(ReattachAll(r, ts, alive, attachOk, targetIds, relayOpen).0, t)
  {
    var init := ts[..|ts| - 1];
    var last := ts[|ts| - 1];
    assert ts == init + [last];
    var prev := ReattachAll(r, init, alive, attachOk, targetIds, relayOpen);
    if t != last {
      assert t in init;
      ReattachRestoresTabs(r, init, alive, attachOk, targetIds, relayOpen, t);
    }
    if last in alive {
      assert t == last ==> TargetIdOf(Lookup(targetIds, t)) != "";
      AttachLeavesTabConnected(prev.0, last, last in attachOk, Lookup(targetIds, last), relayOpen, t);
    }
  }

  /** An attach disconnects no tab, and a recorded one connects the tab it attached. */
  lemma AttachLeavesTabConnected(r: Registry, tabId: TabId, attachOk: bool, rawTargetId: Option<string>, relayOpen: bool, t: TabId)
    requires IsConnected(r, t) || (t == tabId && attachOk && TargetIdOf(rawTargetId) != "")
    ensures IsConnected(AttachTab(r, tabId, attachOk, rawTargetId, relayOpen).reg, t)
  {
  }

  // ---------------------------------------------------------------------------------------------
  // A failed toolbar attach

  /**
   * The `catch` of `connectOrToggleForActiveTab` as written: only `tabs.delete(tabId)`. When the
   * relay dropped while `attachTab` awaited the runtime, `attachTab` has already recorded the
   * tab and its session before the announcement throws, and this leaves the session mapping.
   */
  function FailedToggleCleanupAsWritten(r: Registry, tabId: TabId): Registry {
    r.(order := Without(r.order, tabId), tabs := r.tabs - {tabId})
  }

  /**
   * When the announcement of a recorded attach throws, the as-written cleanup leaves the new
   * session id routing to a tab the registry no longer has, and the invariant is broken.
   */
  lemma FailedToggleCleanupAsWrittenDangles(r: Registry, tabId: TabId, rawTargetId: Option<string>)
    requires Consistent(r) && !IsConnected(r, tabId) && TargetIdOf(rawTargetId) != ""
    ensures var a := AttachTab(r, tabId, true, rawTargetId, false);
      var r' := FailedToggleCleanupAsWritten(a.reg, tabId);
      a.outcome == AttachedUnannounced(SessionName(r.nextSession), TargetIdOf(rawTargetId)) &&
      tabId !in r'.tabs && GetTabBySessionId(r', SessionName(r.nextSession)) == Some(TabLookup(tabId, Main)) &&
      !SessionsOk(r')
  {
    var a := AttachTab(r, tabId, true, rawTargetId, false);
    var r' := FailedToggleCleanupAsWritten(a.reg, tabId);
    assert r'.tabBySession[SessionName(r.nextSession)] !in r'.tabs;
  }

  /** The cleanup the failure calls for: the whole record goes, as `detachTab` removes it. */
  function FailedToggleCleanup(r: Registry, tabId: TabId): (r': Registry)
    ensures r' == DetachTab(r, tabId)
  {
    DetachTab(r, tabId)
  }

  /** The corrected cleanup keeps the invariant, in particular after a recorded but unannounced attach. */
  lemma FailedToggleCleanupKeepsConsistent(r: Registry, tabId: TabId)
    requires Consistent(r)
    ensures Consistent(FailedToggleCleanup(r, tabId))
    ensures tabId !in FailedToggleCleanup(r, tabId).tabs
  {
    DetachKeepsConsistent(r, tabId);
  }

  /** For a tab that was never recorded (still `connecting`, or absent) the corrected and as-written cleanups agree. */
  lemma FailedToggleCleanupAgrees(r: Registry, tabId: TabId)
    requires Consistent(r) && !IsConnected(r, tabId)
    ensures FailedToggleCleanup(r, tabId) == FailedToggleCleanupAsWritten(r, tabId)
  {
    if tabId in r.tabs {
      assert EntryOk(r, tabId);
    }
    assert DropChildren(r.childSessionToTab, tabId) == r.childSessionToTab;
  }
}
