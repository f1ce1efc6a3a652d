/**
 * The client-side session mirror (mcp-server/src/session-manager.ts): a map of attached
 * sessions, kept in insertion order, updated by the CDP events the extension forwards.
 * Event fields are taken at their declared types (strings, possibly missing).
 */
module SessionMirror {
  import opened Wrappers

  datatype SessionInfo = SessionInfo(sessionId: string, targetId: string, url: string, title: string, targetType: string)

  /** `targetInfo` as the events carry it; every field may be missing. */
  datatype TargetInfo = TargetInfo(targetId: Option<string>, url: Option<string>, title: Option<string>, targetType: Option<string>)

  /** The parameter fields the handler reads: `sessionId`, `targetInfo`, `frame.url` and `title`. */
  datatype EventParams = EventParams(sessionId: Option<string>, targetInfo: Option<TargetInfo>, frameUrl: Option<string>, title: Option<string>)

  /** A forwarded CDP event: its session, its method name and its parameters. */
  datatype SessionEvent = SessionEvent(sessionId: Option<string>, name: string, params: EventParams)

  /** A string value that JavaScript treats as true: present and non-empty. */
  predicate Truthy(s: Option<string>) {
    s.Some? && s.value != ""
  }

  /** The session map: its keys in insertion order and the records. */
  datatype Mirror = Mirror(order: seq<string>, sessions: map<string, SessionInfo>)

  predicate NoDup(s: seq<string>) {
    forall i, j :: 0 <= i < j < |s| ==> s[i] != s[j]
  }

  /** The key order lists each key of the map exactly once. */
  predicate MirrorValid(m: Mirror) {
    NoDup(m.order) && (forall k :: k in m.order ==> k in m.sessions) && (forall k :: k in m.sessions ==> k in m.order)
  }

  const Empty := Mirror([], map[])

  /** The order without `k`. */
  function Without(s: seq<string>, k: string): (r: seq<string>)
    ensures forall x :: x in r <==> x in s && x != k
    ensures NoDup(s) ==> NoDup(r)
    ensures k !in s ==> r == s
  {
    if s == [] then []
    else
      var r0 := Without(s[1..], k);
      assert forall x :: x in s <==> x == s[0] || x in s[1..];
      if s[0] == k then r0
      else
        assert NoDup(s) ==> s[0] !in s[1..] by {
          forall i | 0 <= i < |s[1..]| ensures NoDup(s) ==> s[1..][i] != s[0] {
            assert s[1..][i] == s[i + 1];
          }
        }
        [s[0]] + r0
  }

  /** `sessions.set(k, info)`: a new key goes last, an existing key keeps its place. */
  function SetEntry(m: Mirror, k: string, info: SessionInfo): (r: Mirror)
    ensures r.sessions == m.sessions[k := info]
    ensures k in m.sessions ==> r.order == m.order
    ensures k !in m.sessions ==> r.order == m.order + [k]
    ensures MirrorValid(m) ==> MirrorValid(r)
  {
    if k in m.sessions then Mirror(m.order, m.sessions[k := info]) else Mirror(m.order + [k], m.sessions[k := info])
  }

  /** `sessions.delete(k)`. */
  function DeleteEntry(m: Mirror, k: string): (r: Mirror)
    ensures r.sessions == m.sessions - {k}
    ensures MirrorValid(m) ==> MirrorValid(r)
  {
    Mirror(Without(m.order, k), m.sessions - {k})
  }

  /** The record `Target.attachedToTarget` stores: missing fields become `''`, a missing type `'page'`. */
  function NewSession(sessionId: string, t: TargetInfo): (s: SessionInfo)
    ensures s.sessionId == sessionId
    ensures s.targetId == t.targetId.GetOr("") && s.url == t.url.GetOr("") && s.title == t.title.GetOr("")
    ensures s.targetType == t.targetType.GetOr("page")
  {
    SessionInfo(sessionId, t.targetId.GetOr(""), t.url.GetOr(""), t.title.GetOr(""), t.targetType.GetOr("page"))
  }

  /** `params.sessionId ?? event.sessionId`. */
  function EventSession(e: SessionEvent): Option<string> {
    if e.params.sessionId.Some? then e.params.sessionId else e.sessionId
  }

  /** The index, from `i` on, of the first session in map order whose target is `tid`. */
  function FindTarget(m: Mirror, tid: string, i: nat): (r: Option<nat>)
    requires MirrorValid(m) && i <= |m.order|
    ensures r.Some? ==> i <= r.value < |m.order| && m.sessions[m.order[r.value]].targetId == tid
    ensures r.Some? ==> forall j :: i <= j < r.value ==> m.sessions[m.order[j]].targetId != tid
    ensures r.None? ==> forall j :: i <= j < |m.order| ==> m.sessions[m.order[j]].targetId != tid
    decreases |m.order| - i
  {
    if i == |m.order| then None
    else
      assert m.order[i] in m.order;
      if m.sessions[m.order[i]].targetId == tid then Some(i) else FindTarget(m, tid, i + 1)
  }

  /** The record after `Target.targetInfoChanged`: a truthy url replaces the url, a present title the title. */
  function InfoChanged(s: SessionInfo, t: TargetInfo): (r: SessionInfo)
    ensures r.url == (if Truthy(t.url) then t.url.value else s.url)
    ensures r.title == (if t.title.Some? then t.title.value else s.title)
    ensures r.sessionId == s.sessionId && r.targetId == s.targetId && r.targetType == s.targetType
  {
    var s1 := if Truthy(t.url) then s.(url := t.url.value) else s;
    if t.title.Some? then s1.(title := t.title.value) else s1
  }

  /** What `handleEvent` does to the session map. */
  function ApplyEvent(m: Mirror, e: SessionEvent): (r: Mirror)
    requires MirrorValid(m)
    ensures MirrorValid(r)
  {
    if e.name == "Target.attachedToTarget" then
      var sid := EventSession(e);
      if Truthy(sid) && e.params.targetInfo.Some? then SetEntry(m, sid.value, NewSession(sid.value, e.params.targetInfo.value))
      else m
    else if e.name == "Target.detachedFromTarget" then
      var sid := EventSession(e);
      if Truthy(sid) then DeleteEntry(m, sid.value) else m
    else if e.name == "Page.frameNavigated" then
      if e.sessionId.Some? && e.sessionId.value in m.sessions && Truthy(e.params.frameUrl) then
        SetEntry(m, e.sessionId.value, m.sessions[e.sessionId.value].(url := e.params.frameUrl.value))
      else m
    else if e.name == "Page.titleUpdated" then
      if e.sessionId.Some? && e.sessionId.value in m.sessions && e.params.title.Some? then
        SetEntry(m, e.sessionId.value, m.sessions[e.sessionId.value].(title := e.params.title.value))
      else m
    else if e.name == "Target.targetInfoChanged" then
      var info := e.params.targetInfo;
      if info.Some? && Truthy(info.value.targetId) then
        match FindTarget(m, info.value.targetId.value, 0)
        case None => m
        case Some(i) => SetEntry(m, m.order[i], InfoChanged(m.sessions[m.order[i]], info.value))
      else m
    else m
  }

  // ---------------------------------------------------------------------------------------------
  // Properties of the event rules

  predicate HandledName(name: string) {
    name in {"Target.attachedToTarget", "Target.detachedFromTarget", "Page.frameNavigated",
             "Page.titleUpdated", "Target.targetInfoChanged"}
  }

  /** Events with any other method leave the map as it is. */
  lemma OtherEventsIgnored(m: Mirror, e: SessionEvent)
    requires MirrorValid(m) && !HandledName(e.name)
    ensures ApplyEvent(m, e) == m
  {
  }

  /**
   * An attach with a session id and target info stores the record with its defaults under
   * `params.sessionId`, falling back to the event's session; a re-attach keeps the key's place.
   */
  lemma AttachStoresSession(m: Mirror, e: SessionEvent)
    requires MirrorValid(m) && e.name == "Target.attachedToTarget"
    requires Truthy(EventSession(e)) && e.params.targetInfo.Some?
    ensures var sid := EventSession(e).value; var r := ApplyEvent(m, e);
      sid in r.sessions && r.sessions[sid] == NewSession(sid, e.params.targetInfo.value) &&
      (forall k :: k in m.sessions && k != sid ==> k in r.sessions && r.sessions[k] == m.sessions[k]) &&
      (sid in m.sessions ==> r.order == m.order) && (sid !in m.sessions ==> r.order == m.order + [sid])
  {
  }

  /** An attach without a usable session id or without target info changes nothing. */
  lemma AttachNeedsIdAndInfo(m: Mirror, e: SessionEvent)
    requires MirrorValid(m) && e.name == "Target.attachedToTarget"
    requires !Truthy(EventSession(e)) || e.params.targetInfo.None?
    ensures ApplyEvent(m, e) == m
  {
  }

  /** A detach removes exactly that session; removing an absent one changes nothing. */
  lemma DetachRemovesSession(m: Mirror, e: SessionEvent)
    requires MirrorValid(m) && e.name == "Target.detachedFromTarget" && Truthy(EventSession(e))
    ensures var sid := EventSession(e).value; var r := ApplyEvent(m, e);
      r.sessions == m.sessions - {sid} && (sid !in m.sessions ==> r == m)
  {
  }

  /** Navigation changes only the url of the event's own session, and only to a non-empty url. */
  lemma NavigationChangesOnlyUrl(m: Mirror, e: SessionEvent)
    requires MirrorValid(m) && e.name == "Page.frameNavigated"
    ensures var r := ApplyEvent(m, e);
      r.order == m.order && r.sessions.Keys == m.sessions.Keys &&
      forall k :: k in m.sessions ==>
        r.sessions[k] == (if Some(k) == e.sessionId && Truthy(e.params.frameUrl) then m.sessions[k].(url := e.params.frameUrl.value) else m.sessions[k])
  {
  }

  /**
   * A title update sets the title of the event's known session whenever one is given, the empty
   * title included; every other session, every other field and the key order stay. Without a
   * title, or for an unknown session, nothing changes.
   */
  lemma TitleUpdateSetsTitle(m: Mirror, e: SessionEvent)
    requires MirrorValid(m) && e.name == "Page.titleUpdated"
    ensures e.sessionId.Some? && e.sessionId.value in m.sessions && e.params.title.Some? ==>
      var sid := e.sessionId.value;
      ApplyEvent(m, e) == Mirror(m.order, m.sessions[sid := m.sessions[sid].(title := e.params.title.value)])
    ensures !(e.sessionId.Some? && e.sessionId.value in m.sessions && e.params.title.Some?) ==> ApplyEvent(m, e) == m
  {
  }

  /** `k` is the first session in map order whose target is the one a target-info change names. */
  predicate IsFirstMatch(m: Mirror, e: SessionEvent, k: string)
    requires MirrorValid(m)
  {
    var info := e.params.targetInfo;
    info.Some? && Truthy(info.value.targetId) &&
    exists i :: 0 <= i < |m.order| && m.order[i] == k && m.sessions[k].targetId == info.value.targetId.value &&
      forall j :: 0 <= j < i ==> m.sessions[m.order[j]].targetId != info.value.targetId.value
  }

  /**
   * A target-info change updates at most one session: the first in map order with the
   * matching target id. Every other session, and the key order, are left as they are.
   */
  lemma TargetInfoChangeUpdatesFirstMatch(m: Mirror, e: SessionEvent)
    requires MirrorValid(m) && e.name == "Target.targetInfoChanged"
    ensures var r := ApplyEvent(m, e);
      r.order == m.order && r.sessions.Keys == m.sessions.Keys &&
      forall k :: k in m.sessions ==>
        r.sessions[k] == (if IsFirstMatch(m, e, k) then InfoChanged(m.sessions[k], e.params.targetInfo.value) else m.sessions[k])
  {
    var info := e.params.targetInfo;
    if info.Some? && Truthy(info.value.targetId) {
      var tid := info.value.targetId.value;
      match FindTarget(m, tid, 0)
      case None =>
        assert forall k :: k in m.sessions ==> !IsFirstMatch(m, e, k);
      case Some(i) =>
        forall k | k in m.sessions ensures IsFirstMatch(m, e, k) <==> k == m.order[i] {
          if IsFirstMatch(m, e, k) {
            var i' :| 0 <= i' < |m.order| && m.order[i'] == k && m.sessions[k].targetId == tid &&
              forall j :: 0 <= j < i' ==> m.sessions[m.order[j]].targetId != tid;
            assert i' == i;
          }
        }
    }
  }

  // ---------------------------------------------------------------------------------------------
  // The manager

  class SessionManager {
    var order: seq<string>
    var sessions: map<string, SessionInfo>

    ghost function Current(): Mirror
      reads this
    {
      Mirror(order, sessions)
    }

    ghost predicate Valid()
      reads this
    {
      MirrorValid(Current())
    }

    constructor ()
      ensures Valid() && Current() == Empty
    {
      order, sessions := [], map[];
    }

    /** `sessions.set(k, info)` on the fields. */
    method Set(k: string, info: SessionInfo)
      requires Valid()
      modifies this
      ensures Valid() && Current() == SetEntry(old(Current()), k, info)
    {
      if k !in sessions {
        order := order + [k];
      }
      sessions := sessions[k := info];
    }

    /** `handleEvent(event)`. */
    method HandleEvent(e: SessionEvent)
      requires Valid()
      modifies this
      ensures Valid() && Current() == ApplyEvent(old(Current()), e)
    {
      if e.name == "Target.attachedToTarget" {
        var sid := EventSession(e);
        if Truthy(sid) && e.params.targetInfo.Some? {
          Set(sid.value, NewSession(sid.value, e.params.targetInfo.value));
        }
      }
      if e.name == "Target.detachedFromTarget" {
        var sid := EventSession(e);
        if Truthy(sid) {
          order := Without(order, sid.value);
          sessions := sessions - {sid.value};
        }
      }
      if e.name == "Page.frameNavigated" {
        if e.sessionId.Some? && e.sessionId.value in sessions {
          var session := sessions[e.sessionId.value];
          if Truthy(e.params.frameUrl) {
            Set(e.sessionId.value, session.(url := e.params.frameUrl.value));
          }
        }
      }
      if e.name == "Page.titleUpdated" {
        if e.sessionId.Some? && e.sessionId.value in sessions {
          var session := sessions[e.sessionId.value];
          if e.params.title.Some? {
            Set(e.sessionId.value, session.(title := e.params.title.value));
          }
        }
      }
      if e.name == "Target.targetInfoChanged" {
        var info := e.params.targetInfo;
        if info.Some? && Truthy(info.value.targetId) {
          var tid := info.value.targetId.value;
          ghost var m0 := Current();
          var i := 0;
          while i < |order|
            invariant 0 <= i <= |order| && Current() == m0
            invariant FindTarget(m0, tid, 0) == FindTarget(m0, tid, i)
            decreases |order| - i
          {
            assert order[i] in order;
            var session := sessions[order[i]];
            if session.targetId == tid {
              Set(order[i], InfoChanged(session, info.value));
              break;
            }
            i := i + 1;
          }
        }
      }
    }

    /** `getSessions()`: the records in map order. */
    function GetSessions(): (r: seq<SessionInfo>)
      requires Valid()
      reads this
      ensures |r| == |order|
      ensures forall i :: 0 <= i < |order| ==> order[i] in sessions && r[i] == sessions[order[i]]
    {
      seq(|order|, i requires 0 <= i < |order| reads this requires Valid() =>
        assert order[i] in order; sessions[order[i]])
    }

    /** `getSession(id)`. */
    function GetSession(id: string): (r: Option<SessionInfo>)
      reads this
      ensures r.Some? <==> id in sessions
      ensures r.Some? ==> r.value == sessions[id]
    {
      if id in sessions then Some(sessions[id]) else None
    }

    /** `getDefaultSession()`: the first record in map order, if any. */
    function GetDefaultSession(): (r: Option<SessionInfo>)
      requires Valid()
      reads this
      ensures r.None? <==> sessions == map[]
      ensures r.Some? ==> order != [] && r.value == sessions[order[0]]
    {
      if order == [] then None
      else
        assert order[0] in order;
        Some(sessions[order[0]])
    }

    /**
     * `resolveSessionId(id)`: a supplied non-empty id is returned as it is, without checking
     * that it exists; otherwise the default session's id, or an error when there is none.
     */
    function ResolveSessionId(id: Option<string>): (r: Result<string>)
      requires Valid()
      reads this
      ensures Truthy(id) ==> r == Ok(id.value)
      ensures !Truthy(id) && sessions == map[] ==> r.Err?
      ensures !Truthy(id) && sessions != map[] ==> r == Ok(sessions[order[0]].sessionId)
    {
      if Truthy(id) then Ok(id.value)
      else match GetDefaultSession()
        case None => Err("No attached tabs. Please attach a tab in the CDPilot extension first.")
        case Some(s) => Ok(s.sessionId)
    }
  }
}
