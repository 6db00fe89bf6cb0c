/** The indexer's in-memory log buffer: a package-level `globalBuffer`
    that stays nil until `Init`, holding at most `maxSize` entries and
    dropping the oldest on overflow. The package globals are the fields of
    one `LogPackage` object; the clock is an input to `Add` and the
    read-write lock is left out (calls run one at a time). */
module LogBuffer {

  datatype LogEntry = LogEntry(timestamp: int, level: string, message: string)

  /** The last `n` entries of `h` (all of them when there are fewer, none
      when `n <= 0`). */
  function Last(h: seq<LogEntry>, n: int): (r: seq<LogEntry>)
  {
    if n <= 0 then [] else if n >= |h| then h else h[|h| - n..]
  }

  /** The entries after `Add` appends `e` and trims to `maxSize`. */
  function Appended(entries: seq<LogEntry>, e: LogEntry, maxSize: int): (r: seq<LogEntry>)
  {
    var a := entries + [e];
    if |a| > maxSize then a[1..] else a
  }

  /** What `GetRecent(limit)` copies out of `entries`. */
  function Recent(entries: seq<LogEntry>, limit: int): (r: seq<LogEntry>)
  {
    if limit <= 0 || limit > |entries| then entries else entries[|entries| - limit..]
  }

  /** From a buffer within its bound, `Add` keeps the bound and puts `e`
      last; it drops exactly the oldest entry when the buffer was full and
      nothing otherwise. */
  lemma AppendedShape(entries: seq<LogEntry>, e: LogEntry, maxSize: int)
    requires 0 < maxSize && |entries| <= maxSize
    ensures var r := Appended(entries, e, maxSize);
      && |r| <= maxSize
      && r[|r| - 1] == e
      && (|entries| < maxSize ==> r == entries + [e])
      && (|entries| == maxSize ==> r == entries[1..] + [e])
  {
  }

  /** With room for no entry at all, `Add` keeps the buffer empty. */
  lemma AppendedToNothing(entries: seq<LogEntry>, e: LogEntry)
    requires entries == []
    ensures Appended(entries, e, 0) == []
  {
  }

  /** The buffer is always the last `maxSize` entries added: appending to
      the last `maxSize` entries of a history and trimming gives the last
      `maxSize` entries of the longer history. */
  lemma AppendKeepsLast(h: seq<LogEntry>, e: LogEntry, maxSize: int)
    requires maxSize >= 0
    ensures Appended(Last(h, maxSize), e, maxSize) == Last(h + [e], maxSize)
  {
    var h' := h + [e];
    if maxSize > 0 && maxSize < |h| {
      assert Last(h, maxSize) + [e] == h'[|h'| - maxSize - 1..];
    }
  }

  /** `GetRecent(limit)` returns the `limit` newest entries, in order, when
      there are that many, and everything otherwise. */
  lemma RecentShape(entries: seq<LogEntry>, limit: int)
    ensures var r := Recent(entries, limit);
      && (0 < limit <= |entries| ==> |r| == limit)
      && (limit <= 0 || limit > |entries| ==> r == entries)
      && entries == entries[..|entries| - |r|] + r
  {
  }

  /** Asking a buffer that holds the last `maxSize` entries of a history
      for the last `limit <= maxSize` of them gives the last `limit`
      entries of the history. */
  lemma RecentOfHistory(h: seq<LogEntry>, maxSize: int, limit: int)
    requires 0 < limit <= maxSize
    ensures Recent(Last(h, maxSize), limit) == Last(h, limit)
  {
  }

  /** The `Buffer` struct. `added` is every entry added since the buffer
      was made or last cleared. */
  class Buffer {
    var entries: seq<LogEntry>
    const maxSize: int
    ghost var added: seq<LogEntry>

    ghost predicate Valid()
      reads this
    {
      0 <= maxSize && entries == Last(added, maxSize)
    }

    constructor (maxSize: int)
      requires maxSize >= 0
      ensures this.maxSize == maxSize && entries == [] && added == [] && Valid()
    {
      this.maxSize := maxSize;
      entries := [];
      added := [];
    }
  }

  /** The package `logbuffer`, whose only state is `globalBuffer`. */
  class LogPackage {
    var globalBuffer: Buffer?

    ghost predicate Valid()
      reads this, globalBuffer
    {
      globalBuffer != null ==> globalBuffer.Valid()
    }

    /** The package before `Init`. */
    constructor ()
      ensures globalBuffer == null && Valid()
    {
      globalBuffer := null;
    }

    /** `Init`: a new, empty buffer of capacity `maxSize` replaces any
        previous one (`make` panics on a negative capacity). */
    method Init(maxSize: int)
      requires maxSize >= 0
      modifies this
      ensures globalBuffer != null && fresh(globalBuffer) && Valid()
      ensures globalBuffer.entries == [] && globalBuffer.added == [] && globalBuffer.maxSize == maxSize
    {
      globalBuffer := new Buffer(maxSize);
    }

    /** `Add`: a no-op before `Init`; otherwise appends an entry stamped
        `now` and drops the oldest one when the buffer overflows, so the
        buffer stays the last `maxSize` entries added. */
    method Add(level: string, message: string, now: int)
      requires Valid()
      modifies globalBuffer
      ensures Valid()
      ensures globalBuffer != null ==>
        && globalBuffer.entries == Appended(old(globalBuffer.entries), LogEntry(now, level, message), globalBuffer.maxSize)
        && globalBuffer.added == old(globalBuffer.added) + [LogEntry(now, level, message)]
    {
      if globalBuffer == null {
        return;
      }
      var entry := LogEntry(now, level, message);
      AppendKeepsLast(globalBuffer.added, entry, globalBuffer.maxSize);
      globalBuffer.entries := globalBuffer.entries + [entry];
      globalBuffer.added := globalBuffer.added + [entry];
      if |globalBuffer.entries| > globalBuffer.maxSize {
        globalBuffer.entries := globalBuffer.entries[1..];
      }
    }

    /** `GetRecent`: reads the buffer only; empty before `Init`, otherwise
        the newest `limit` entries (all of them when `limit` is not in
        `1 .. len(entries)`). */
    method GetRecent(limit: int) returns (result: seq<LogEntry>)
      requires Valid()
      ensures globalBuffer == null ==> result == []
      ensures globalBuffer != null ==> result == Recent(globalBuffer.entries, limit)
    {
      if globalBuffer == null {
        return [];
      }
      var n := limit;
      if n <= 0 || n > |globalBuffer.entries| {
        n := |globalBuffer.entries|;
      }
      var start := |globalBuffer.entries| - n;
      if start < 0 {
        start := 0;
      }
      result := globalBuffer.entries[start..];
    }

    /** `Clear`: a no-op before `Init`; otherwise empties the buffer and
        keeps its capacity. */
    method Clear()
      requires Valid()
      modifies globalBuffer
      ensures Valid()
      ensures globalBuffer != null ==> globalBuffer.entries == [] && globalBuffer.added == []
    {
      if globalBuffer == null {
        return;
      }
      globalBuffer.entries := [];
      globalBuffer.added := [];
    }
  }
}
