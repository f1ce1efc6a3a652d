/**
 * Reconnect back-off and heartbeat rules. The browser extension (background.js) and the
 * server-side client (mcp-server/src/relay-client.ts) use the same constants and the same rules.
 */
module Liveness {

  const BaseReconnectDelay := 1000
  const MaxReconnectDelay := 30000
  const HeartbeatInterval := 15000
  const HeartbeatTimeout := 10000

  function Min(a: int, b: int): int {
    if a <= b then a else b
  }

  predicate InBackoffRange(d: int) {
    BaseReconnectDelay <= d <= MaxReconnectDelay
  }

  /** `Math.min(reconnectDelay * 2, MAX_RECONNECT_DELAY)`, applied after a failed reconnect. */
  function NextDelay(d: int): (r: int)
    ensures InBackoffRange(d) ==> InBackoffRange(r)
    ensures r <= MaxReconnectDelay
    ensures d > 0 && d < MaxReconnectDelay / 2 ==> r == 2 * d
  {
    Min(2 * d, MaxReconnectDelay)
  }

  /** The delay armed after `n` consecutive failed reconnects that followed a reset. */
  function DelayAfterFailures(n: nat): int {
    if n == 0 then BaseReconnectDelay else NextDelay(DelayAfterFailures(n - 1))
  }

  function Pow2(n: nat): (r: nat)
    ensures r >= 1
  {
    if n == 0 then 1 else 2 * Pow2(n - 1)
  }

  /** The delays double from 1000 ms and saturate at 30000 ms. */
  lemma {:induction false} DelayAfterFailuresClosedForm(n: nat)
    ensures DelayAfterFailures(n) == Min(BaseReconnectDelay * Pow2(n), MaxReconnectDelay)
    ensures InBackoffRange(DelayAfterFailures(n))
  {
    if n > 0 {
      DelayAfterFailuresClosedForm(n - 1);
      var p := Pow2(n - 1);
      assert Pow2(n) == 2 * p;
      if BaseReconnectDelay * p >= MaxReconnectDelay {
        assert BaseReconnectDelay * Pow2(n) >= MaxReconnectDelay;
      }
    }
  }

  /** From the fifth consecutive failure on, the delay stays at the cap. */
  lemma {:induction false} DelaySaturates(n: nat)
    requires n >= 5
    ensures DelayAfterFailures(n) == MaxReconnectDelay
  {
    if n == 5 {
      assert DelayAfterFailures(4) == 16000 by {
        assert DelayAfterFailures(1) == 2000;
        assert DelayAfterFailures(2) == 4000;
        assert DelayAfterFailures(3) == 8000;
      }
    } else {
      DelaySaturates(n - 1);
    }
  }

  /** The heartbeat tick's dead-peer test: no pong for longer than interval + timeout. */
  predicate PeerDead(now: int, lastPong: int) {
    now - lastPong > HeartbeatInterval + HeartbeatTimeout
  }

  /**
   * Ticks fire every 15000 ms after the heartbeat starts at `start` (which also counts as a pong).
   * If the last pong was seen at `lastPong`, the first tick that declares the peer dead is
   * `FirstDeadTick`, and it comes at most one interval after the 25000 ms deadline.
   */
  function FirstDeadTick(start: int, lastPong: int): (k: nat)
    requires start <= lastPong
    ensures PeerDead(start + HeartbeatInterval * k, lastPong)
    ensures forall j: nat :: j < k ==> !PeerDead(start + HeartbeatInterval * j, lastPong)
    ensures start + HeartbeatInterval * k <= lastPong + HeartbeatInterval + HeartbeatTimeout + HeartbeatInterval
  {
    var k := (lastPong - start + HeartbeatInterval + HeartbeatTimeout) / HeartbeatInterval + 1;
    assert forall j: nat :: j < k ==> HeartbeatInterval * j <= lastPong - start + HeartbeatInterval + HeartbeatTimeout;
    k
  }
}
