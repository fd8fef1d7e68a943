/** The in-memory log transport behind the debug endpoint: every log entry
    is appended to a buffer, and once the buffer holds more than
    `MaxBufferLogs` entries the oldest one is dropped. What an entry holds
    (level, message, timestamp) does not matter here, so its type is a
    parameter. */
module LogBuffer {

  /** `MAX_BUFFER_LOGS`. */
  const MaxBufferLogs: nat := 50

  /** The last `n` elements of `s`, in their original order (all of `s` when it is shorter). */
  function Newest<T>(s: seq<T>, n: nat): (r: seq<T>)
    ensures |r| == if |s| < n then |s| else n
    ensures r == s[|s| - |r|..]
  {
    if |s| <= n then s else s[|s| - n..]
  }

  /** `InMemoryTransport.log`: push the entry, then shift once if the buffer
      has grown past capacity. */
  function Log<T>(buffer: seq<T>, entry: T): (r: seq<T>)
    ensures 0 < |r| <= |buffer| + 1 && r[|r| - 1] == entry
    ensures r == (buffer + [entry])[|buffer| + 1 - |r|..]
    ensures |buffer| < MaxBufferLogs ==> r == buffer + [entry]
    ensures |buffer| >= MaxBufferLogs ==> |r| == |buffer|
    ensures |buffer| <= MaxBufferLogs ==> |r| <= MaxBufferLogs
  {
    var pushed := buffer + [entry];
    if |pushed| > MaxBufferLogs then pushed[1..] else pushed
  }

  /** The buffer after logging `entries` in order, starting from the empty
      buffer of process start. */
  function Replay<T>(entries: seq<T>): (r: seq<T>)
    ensures |r| <= MaxBufferLogs
    ensures |entries| > 0 ==> |r| > 0 && r[|r| - 1] == entries[|entries| - 1]
  {
    if |entries| == 0 then []
    else Log(Replay(entries[..|entries| - 1]), entries[|entries| - 1])
  }

  /** Logging one more entry onto the newest-50 window of some history gives
      the newest-50 window of the history extended by that entry: below
      capacity the entry is simply appended, at capacity the window slides
      by one. */
  lemma SlideWindow<T>(earlier: seq<T>, e: T)
    ensures Log(Newest(earlier, MaxBufferLogs), e) == Newest(earlier + [e], MaxBufferLogs)
  {
    var entries := earlier + [e];
    if |earlier| < MaxBufferLogs {
      assert Newest(earlier, MaxBufferLogs) == earlier;
      assert Newest(entries, MaxBufferLogs) == entries;
    } else {
      var kept := earlier[|earlier| - MaxBufferLogs..];
      assert Newest(earlier, MaxBufferLogs) == kept;
      assert Log(kept, e) == (kept + [e])[1..];
      assert (kept + [e])[1..] == entries[|entries| - MaxBufferLogs..];
    }
  }

  /** A non-empty sequence is its prefix followed by its last element. */
  lemma SplitLast<T>(s: seq<T>)
    requires |s| > 0
    ensures s[..|s| - 1] + [s[|s| - 1]] == s
  {
  }

  /** After any number of log calls the buffer is exactly the most recent
      `MaxBufferLogs` entries (all of them while there are fewer), oldest first. */
  lemma {:induction false} ReplayKeepsNewest<T>(entries: seq<T>)
    ensures Replay(entries) == Newest(entries, MaxBufferLogs)
  {
    if |entries| > 0 {
      var earlier := entries[..|entries| - 1];
      var e := entries[|entries| - 1];
      SplitLast(entries);
      ReplayKeepsNewest(earlier);
      SlideWindow(earlier, e);
    }
  }
}
