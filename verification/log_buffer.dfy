/**
 * The background script's in-memory log (`logBuffer`, `appendLog`): a buffer of at most 200
 * entries, the oldest dropped first. Persisting it to storage is not modelled.
 */
module LogBuffer {
  const MaxEntries := 200

  datatype LogEntry = LogEntry(ts: int, level: string, msg: string)

  /** The newest `n` entries of `h`, oldest first. */
  function Newest<T>(h: seq<T>, n: nat): (w: seq<T>)
    ensures |w| == if |h| <= n then |h| else n
    ensures w == h[|h| - |w|..]
  {
    if |h| <= n then h else h[|h| - n..]
  }

  /** `push` then, when over the bound, `shift`. */
  function PushBounded<T>(buf: seq<T>, e: T, n: nat): seq<T> {
    if |buf + [e]| > n then (buf + [e])[1..] else buf + [e]
  }

  /** Pushing onto the window of the newest `n` entries and shifting gives the window of the longer history. */
  lemma PushBoundedKeepsNewest<T>(h: seq<T>, e: T, n: nat)
    requires n >= 1
    ensures PushBounded(Newest(h, n), e, n) == Newest(h + [e], n)
  {
    var w := Newest(h, n);
    var h' := h + [e];
    if |h| < n {
      assert w == h;
    } else {
      assert w + [e] == h'[|h'| - n - 1..];
      assert (w + [e])[1..] == h'[|h'| - n..];
    }
  }

  class Log {
    /** `logBuffer`. */
    var entries: seq<LogEntry>
    /** Every entry ever appended, oldest first. */
    ghost var history: seq<LogEntry>

    ghost predicate Valid()
      reads this
    {
      entries == Newest(history, MaxEntries)
    }

    constructor ()
      ensures Valid() && entries == [] && history == []
    {
      entries, history := [], [];
    }

    /** `appendLog(level, msg)` at time `now`: the entry is pushed and, above 200 entries, the oldest is shifted out. */
    method Append(now: int, level: string, msg: string)
      requires Valid()
      modifies this
      ensures Valid()
      ensures history == old(history) + [LogEntry(now, level, msg)]
      ensures |entries| <= MaxEntries && entries[|entries| - 1] == LogEntry(now, level, msg)
    {
      var e := LogEntry(now, level, msg);
      PushBoundedKeepsNewest(history, e, MaxEntries);
      entries := entries + [e];
      if |entries| > MaxEntries {
        entries := entries[1..];
      }
      history := history + [e];
    }
  }

  /** An entry stays in the buffer until 200 newer entries have been appended. */
  lemma {:induction false} EntryKeptForNextAppends(h: seq<LogEntry>, later: seq<LogEntry>, e: LogEntry)
    requires |later| < MaxEntries
    ensures e in Newest(h + [e] + later, MaxEntries)
  {
    var full := h + [e] + later;
    var w := Newest(full, MaxEntries);
    assert full[|h|] == e;
    assert |full| - |w| <= |h|;
    assert w[|h| - (|full| - |w|)] == e;
  }
}
