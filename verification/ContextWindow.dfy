/** The window of recent entries that errors bring along. */
module ContextWindow {
  import opened Entries

  /** The last n entries, or all when there are fewer; none when n is not positive. */
  function LastOf<T>(s: seq<T>, n: int): (r: seq<T>)
    ensures |r| == if n <= 0 then 0 else if n < |s| then n else |s|
  {
    if n <= 0 then [] else if n < |s| then s[|s| - n..] else s
  }

  /** They are the end of the list. */
  lemma LastOfIsTheEnd<T>(s: seq<T>, n: int)
    ensures s == s[..|s| - |LastOf(s, n)|] + LastOf(s, n)
  {
  }

  /** The last m of the last n are the last m. */
  lemma LastOfLast<T>(s: seq<T>, m: int, n: int)
    requires m <= n
    ensures LastOf(LastOf(s, n), m) == LastOf(s, m)
  {
  }

  class ContextWindow {
    const contextLines: int
    const size: int
    var buffer: seq<LogEntry>
    ghost var history: seq<LogEntry>  // every entry added since the window was cleared

    ghost predicate Valid()
      reads this
    {
      size == contextLines * 3 && buffer == LastOf(history, size)
    }

    constructor (contextLines: int)
      ensures Valid() && history == [] && this.contextLines == contextLines
    {
      this.contextLines, size, buffer, history := contextLines, contextLines * 3, [], [];
    }

    method Add(entry: LogEntry)
      requires Valid()
      modifies this
      ensures Valid() && history == old(history) + [entry]
    {
      buffer := buffer + [entry];
      if |buffer| > size {
        buffer := buffer[1..];
      }
      history := history + [entry];
    }

    /** The last contextLines entries of the whole history, then the trigger. */
    method GetContext(trigger: LogEntry) returns (context: seq<LogEntry>)
      requires Valid()
      ensures context == LastOf(history, contextLines) + [trigger]
    {
      if contextLines <= 0 {
        return [trigger];
      }
      var beforeCount := contextLines;
      if beforeCount > |buffer| {
        beforeCount := |buffer|;
      }
      var startIndex := |buffer| - beforeCount;
      context := [];
      for i := startIndex to |buffer|
        invariant context == buffer[startIndex..i]
      {
        context := context + [buffer[i]];
      }
      LastOfLast(history, contextLines, size);
      context := context + [trigger];
    }

    method Clear()
      requires Valid()
      modifies this
      ensures Valid() && history == []
    {
      buffer, history := [], [];
    }
  }
}
