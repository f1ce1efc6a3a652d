/**
 * The command correlator of the server-side relay client (mcp-server/src/relay-client.ts): a
 * ledger of issued request ids, the calls still pending, and how each call was settled. The
 * class `RelayClient` in relay_client_class.dfy changes its ledger only as the functions here say.
 */
module Correlator {
  import opened Wrappers
  import opened Json

  /** Why a pending call was rejected. */
  datatype RejectReason =
    | Disconnected(reason: string)
    | TimedOut(command: string)
    | SendFailed(message: string)
    | RemoteError(error: JsValue)

  /** How a call's promise was settled; `Resolved(None)` is a resolution with `undefined`. */
  datatype Outcome = Resolved(result: Option<JsValue>) | Rejected(why: RejectReason)

  datatype PendingCall = PendingCall(id: nat, command: string)

  datatype Settlement = Settlement(id: nat, outcome: Outcome)

  /**
   * The correlator state: the next id to hand out, the pending table in insertion order (which
   * is ascending id order) and the record of every settlement so far, oldest first.
   */
  datatype Ledger = Ledger(nextId: nat, pending: seq<PendingCall>, settled: seq<Settlement>)

  function PendingIds(p: seq<PendingCall>): set<nat> {
    set c | c in p :: c.id
  }

  function SettledIds(s: seq<Settlement>): set<nat> {
    set x | x in s :: x.id
  }

  predicate Increasing(p: seq<PendingCall>) {
    forall i, j :: 0 <= i < j < |p| ==> p[i].id < p[j].id
  }

  predicate DistinctSettled(s: seq<Settlement>) {
    forall i, j :: 0 <= i < j < |s| ==> s[i].id != s[j].id
  }

  /**
   * The correlator's invariant: ids start at 1; the table is in ascending id order; no call is
   * settled twice; no call is both pending and settled; and every id handed out so far is either
   * still pending or settled, so no call is ever lost.
   */
  predicate LedgerValid(l: Ledger) {
    l.nextId >= 1 && Increasing(l.pending) && DistinctSettled(l.settled) &&
    PendingIds(l.pending) !! SettledIds(l.settled) &&
    (forall id :: id in PendingIds(l.pending) ==> 1 <= id < l.nextId) &&
    (forall id :: id in SettledIds(l.settled) ==> 1 <= id < l.nextId) &&
    (forall id :: 1 <= id < l.nextId ==> id in PendingIds(l.pending) || id in SettledIds(l.settled))
  }

  const InitialLedger := Ledger(1, [], [])

  lemma InitialLedgerValid()
    ensures LedgerValid(InitialLedger)
  {
  }

  /** The pending entry for `id`, if any. */
  function FindCall(p: seq<PendingCall>, id: nat): (r: Option<PendingCall>)
    ensures r.Some? ==> r.value in p && r.value.id == id
    ensures r.None? <==> id !in PendingIds(p)
  {
    if p == [] then None
    else if p[0].id == id then Some(p[0])
    else
      assert PendingIds(p) == {p[0].id} + PendingIds(p[1..]) by {
        assert forall c :: c in p <==> c == p[0] || c in p[1..];
      }
      FindCall(p[1..], id)
  }

  /** `pending.delete(id)`: the table without the entry for `id`, order kept. */
  function RemoveId(p: seq<PendingCall>, id: nat): (r: seq<PendingCall>)
    ensures forall c :: c in r <==> c in p && c.id != id
    ensures Increasing(p) ==> Increasing(r)
  {
    if p == [] then []
    else
      var r0 := RemoveId(p[1..], id);
      assert forall c :: c in p <==> c == p[0] || c in p[1..];
      if p[0].id == id then r0
      else
        assert Increasing(p) ==> forall c :: c in r0 ==> p[0].id < c.id by {
          if Increasing(p) {
            forall c | c in r0 ensures p[0].id < c.id {
              var i :| 0 <= i < |p[1..]| && p[1..][i] == c;
              assert p[i + 1] == c;
            }
          }
        }
        [p[0]] + r0
  }

  lemma RemoveIdIds(p: seq<PendingCall>, id: nat)
    ensures PendingIds(RemoveId(p, id)) == PendingIds(p) - {id}
  {
    var r := RemoveId(p, id);
    forall x | x in PendingIds(p) - {id} ensures x in PendingIds(r) {
      var c :| c in p && c.id == x;
      assert c in r;
    }
  }

  /** `sendCommand` hands out `nextId` and registers the call before the send. */
  function Issue(l: Ledger, command: string): (r: Ledger)
    ensures r.nextId == l.nextId + 1
    ensures r.pending == l.pending + [PendingCall(l.nextId, command)] && r.settled == l.settled
  {
    Ledger(l.nextId + 1, l.pending + [PendingCall(l.nextId, command)], l.settled)
  }

  /** Settling `id` with outcome `o`: only a call that is still pending is settled; otherwise nothing happens. */
  function Settle(l: Ledger, id: nat, o: Outcome): (r: Ledger)
    ensures id in PendingIds(l.pending) ==>
      r.settled == l.settled + [Settlement(id, o)] && PendingIds(r.pending) == PendingIds(l.pending) - {id}
    ensures id !in PendingIds(l.pending) ==> r == l
    ensures r.nextId == l.nextId
  {
    if id in PendingIds(l.pending) then
      RemoveIdIds(l.pending, id);
      Ledger(l.nextId, RemoveId(l.pending, id), l.settled + [Settlement(id, o)])
    else l
  }

  /** The settlements of rejecting every call in `p`, in table order. */
  function RejectAll(p: seq<PendingCall>, why: RejectReason): (s: seq<Settlement>)
    ensures |s| == |p|
    ensures forall i :: 0 <= i < |p| ==> s[i] == Settlement(p[i].id, Rejected(why))
  {
    seq(|p|, i requires 0 <= i < |p| => Settlement(p[i].id, Rejected(why)))
  }

  /** Rejecting every pending call with the same reason, as the disconnect handler does. */
  function SettleAll(l: Ledger, why: RejectReason): (r: Ledger)
    ensures r.pending == [] && r.nextId == l.nextId
    ensures SettledIds(r.settled) == SettledIds(l.settled) + PendingIds(l.pending)
  {
    var r := Ledger(l.nextId, [], l.settled + RejectAll(l.pending, why));
    assert SettledIds(r.settled) == SettledIds(l.settled) + PendingIds(l.pending) by {
      var s := RejectAll(l.pending, why);
      forall id | id in PendingIds(l.pending) ensures id in SettledIds(r.settled) {
        var c :| c in l.pending && c.id == id;
        var i :| 0 <= i < |l.pending| && l.pending[i] == c;
        assert s[i] in r.settled;
      }
      forall id | id in SettledIds(r.settled) ensures id in SettledIds(l.settled) + PendingIds(l.pending) {
        var x :| x in r.settled && x.id == id;
        if x !in l.settled {
          var i :| 0 <= i < |s| && s[i] == x;
          assert l.pending[i] in l.pending;
        }
      }
    }
    r
  }

  // ---------------------------------------------------------------------------------------------
  // The invariant is kept by every transition

  lemma IssueKeepsValid(l: Ledger, command: string)
    requires LedgerValid(l)
    ensures LedgerValid(Issue(l, command))
  {
    var r := Issue(l, command);
    assert PendingIds(r.pending) == PendingIds(l.pending) + {l.nextId} by {
      assert forall c :: c in r.pending <==> c in l.pending || c == PendingCall(l.nextId, command);
    }
    forall i, j | 0 <= i < j < |r.pending| ensures r.pending[i].id < r.pending[j].id {
      if j == |l.pending| {
        assert r.pending[i] in l.pending;
        assert r.pending[i].id in PendingIds(l.pending);
      } else {
        assert r.pending[i] == l.pending[i] && r.pending[j] == l.pending[j];
      }
    }
  }

  lemma SettleKeepsValid(l: Ledger, id: nat, o: Outcome)
    requires LedgerValid(l)
    ensures LedgerValid(Settle(l, id, o))
  {
    if id in PendingIds(l.pending) {
      var r := Settle(l, id, o);
      assert SettledIds(r.settled) == SettledIds(l.settled) + {id} by {
        assert forall x :: x in r.settled <==> x in l.settled || x == Settlement(id, o);
      }
      forall i, j | 0 <= i < j < |r.settled| ensures r.settled[i].id != r.settled[j].id {
        if j == |l.settled| {
          assert r.settled[i] in l.settled;
          assert r.settled[i].id in SettledIds(l.settled);
        } else {
          assert r.settled[i] == l.settled[i] && r.settled[j] == l.settled[j];
        }
      }
    }
  }

  lemma SettleAllKeepsValid(l: Ledger, why: RejectReason)
    requires LedgerValid(l)
    ensures LedgerValid(SettleAll(l, why))
  {
    var r := SettleAll(l, why);
    var s := RejectAll(l.pending, why);
    assert r.settled == l.settled + s;
    forall i, j | 0 <= i < j < |r.settled| ensures r.settled[i].id != r.settled[j].id {
      var n := |l.settled|;
      if j < n {
        assert r.settled[i] == l.settled[i] && r.settled[j] == l.settled[j];
      } else if i < n {
        assert r.settled[i] == l.settled[i];
        assert r.settled[i].id in SettledIds(l.settled);
        assert r.settled[j] == s[j - n] && s[j - n].id == l.pending[j - n].id;
        assert l.pending[j - n] in l.pending;
        assert l.pending[j - n].id in PendingIds(l.pending);
      } else {
        assert r.settled[i] == s[i - n] && r.settled[j] == s[j - n];
        assert l.pending[i - n].id < l.pending[j - n].id;
      }
    }
  }

  // ---------------------------------------------------------------------------------------------
  // Properties of the correlator

  /**
   * A call is settled at most once: once `id` has been settled (by a response, a timeout, a
   * failed send or a disconnect), settling it again, with any outcome, changes nothing.
   */
  lemma SettledOnlyOnce(l: Ledger, id: nat, o: Outcome, o': Outcome)
    requires LedgerValid(l) && id in PendingIds(l.pending)
    ensures var r := Settle(l, id, o);
      Settle(r, id, o') == r && Settlement(id, o) in r.settled
  {
    SettleKeepsValid(l, id, o);
    var r := Settle(l, id, o);
    assert id in SettledIds(r.settled);
  }

  /** The id handed out by `Issue` is new: it was never pending nor settled before. */
  lemma IssuedIdIsFresh(l: Ledger, command: string)
    requires LedgerValid(l)
    ensures l.nextId !in PendingIds(l.pending) && l.nextId !in SettledIds(l.settled)
    ensures l.nextId in PendingIds(Issue(l, command).pending)
  {
    assert PendingCall(l.nextId, command) in Issue(l, command).pending;
  }

  /** After a disconnect nothing is pending and every call that was pending is rejected with the disconnect reason. */
  lemma SettleAllRejectsEveryPending(l: Ledger, why: RejectReason, c: PendingCall)
    requires c in l.pending
    ensures Settlement(c.id, Rejected(why)) in SettleAll(l, why).settled
    ensures SettleAll(l, why).pending == []
  {
    var i :| 0 <= i < |l.pending| && l.pending[i] == c;
    var s := RejectAll(l.pending, why);
    assert s[i] == Settlement(c.id, Rejected(why));
    assert SettleAll(l, why).settled == l.settled + s;
  }
}
