/**
 * The rolling-window rate ledger (`rate_count_recent` and `rate_record` in `runtime_core.py`).
 * Time is real-valued; a ledger is the list of its non-blank lines.
 */
module RateBudget {
  import opened Wrappers

  /** A line that does not parse, or a record whose "ts" is a number or is not. */
  datatype RateLine = Torn | Entry(ts: Option<real>, scopeId: string, effectId: string)

  predicate Live(line: RateLine, since: real) {
    line.Entry? && line.ts.Some? && line.ts.value >= since
  }

  /** The lines that are still at or after `since`, in order. */
  function Keep(lines: seq<RateLine>, since: real): (kept: seq<RateLine>)
    ensures forall l :: l in kept <==> l in lines && Live(l, since)
  {
    if lines == [] then []
    else
      var rest, last := Keep(lines[..|lines| - 1], since), lines[|lines| - 1];
      assert lines == lines[..|lines| - 1] + [last];
      if Live(last, since) then rest + [last] else rest
  }

  lemma KeepAppend(lines: seq<RateLine>, line: RateLine, since: real)
    ensures Keep(lines + [line], since) == Keep(lines, since) + (if Live(line, since) then [line] else [])
  {
    assert (lines + [line])[..|lines|] == lines;
  }

  /** Counts the events in the trailing window; lines that do not parse are skipped. */
  method RateCountRecent(lines: seq<RateLine>, now: real, window: real) returns (count: nat)
    ensures count == |Keep(lines, now - window)|
  {
    var threshold := now - window;
    count := 0;
    for i := 0 to |lines|
      invariant count == |Keep(lines[..i], threshold)|
    {
      KeepAppend(lines[..i], lines[i], threshold);
      assert lines[..i + 1] == lines[..i] + [lines[i]];
      if lines[i].Entry? && lines[i].ts.Some? && lines[i].ts.value >= threshold {
        count := count + 1;
      }
    }
    assert lines[..|lines|] == lines;
  }

  /** The compacting rewrite: what is still in the window, then the new event. */
  method RateRecord(lines: seq<RateLine>, record: RateLine, retainSince: real) returns (rewritten: seq<RateLine>)
    ensures rewritten == Keep(lines, retainSince) + [record]
  {
    rewritten := [];
    for i := 0 to |lines|
      invariant rewritten == Keep(lines[..i], retainSince)
    {
      KeepAppend(lines[..i], lines[i], retainSince);
      assert lines[..i + 1] == lines[..i] + [lines[i]];
      if lines[i].Entry? && lines[i].ts.Some? && lines[i].ts.value >= retainSince {
        rewritten := rewritten + [lines[i]];
      }
    }
    assert lines[..|lines|] == lines;
    rewritten := rewritten + [record];
  }

  /** The number of parseable events at or after `since`. */
  function CountSince(lines: seq<RateLine>, since: real): nat {
    if lines == [] then 0
    else
      var last := lines[|lines| - 1];
      CountSince(lines[..|lines| - 1], since)
      + (if last.Entry? && last.ts.Some? && since <= last.ts.value then 1 else 0)
  }

  /** What is kept is what counts. */
  lemma {:induction false} KeepCounts(lines: seq<RateLine>, since: real)
    ensures |Keep(lines, since)| == CountSince(lines, since)
  {
    if lines != [] {
      KeepCounts(lines[..|lines| - 1], since);
    }
  }

  // ----- Pruning is invisible ------------------------------------------------------------

  lemma {:induction false} KeepLater(lines: seq<RateLine>, early: real, late: real)
    requires early <= late
    ensures Keep(Keep(lines, early), late) == Keep(lines, late)
    ensures |Keep(lines, late)| <= |Keep(lines, early)|
  {
    if lines != [] {
      var front, last := lines[..|lines| - 1], lines[|lines| - 1];
      KeepLater(front, early, late);
      KeepAppend(Keep(front, early), last, late);
    }
  }

  /**
   * Dropping events older than `retained` never changes a count from `since` on, whatever the
   * ledger, exactly when the count starts no earlier than the pruning did. A scope with a longer
   * window that shares the sandbox with a shorter one does start earlier, and undercounts.
   */
  lemma PruningInvisibleIff(retained: real, since: real)
    ensures (forall lines :: |Keep(Keep(lines, retained), since)| == |Keep(lines, since)|) <==> retained <= since
  {
    if retained <= since {
      forall lines ensures |Keep(Keep(lines, retained), since)| == |Keep(lines, since)| {
        KeepLater(lines, retained, since);
      }
    } else {
      var lone := [Entry(Some(since), "scope", "effect")];
      KeepAppend([], lone[0], retained);
      KeepAppend([], lone[0], since);
      assert [] + lone == lone;
      assert |Keep(Keep(lone, retained), since)| != |Keep(lone, since)|;
    }
  }

  // ----- The sliding window --------------------------------------------------------------

  /** How many events of a history fall into the closed interval of length `window` that starts at `lo`. */
  function CountIn(history: seq<RateLine>, lo: real, window: real): nat {
    if history == [] then 0
    else
      var last := history[|history| - 1];
      CountIn(history[..|history| - 1], lo, window) + (if Falls(last, lo, window) then 1 else 0)
  }

  /** The event falls into the closed interval, both ends included. */
  predicate Falls(e: RateLine, lo: real, window: real) {
    e.Entry? && e.ts.Some? && lo <= e.ts.value <= lo + window
  }

  lemma CountInAppend(history: seq<RateLine>, e: RateLine, lo: real, window: real)
    ensures CountIn(history + [e], lo, window)
         == CountIn(history, lo, window) + (if Falls(e, lo, window) then 1 else 0)
  {
    assert (history + [e])[..|history|] == history;
  }

  lemma {:induction false} CountInAtMostKeep(history: seq<RateLine>, lo: real, window: real)
    ensures CountIn(history, lo, window) <= |Keep(history, lo)|
  {
    if history != [] {
      CountInAtMostKeep(history[..|history| - 1], lo, window);
    }
  }

  ghost predicate WindowBounded(history: seq<RateLine>, window: real, max: int) {
    forall lo :: CountIn(history, lo, window) <= max
  }

  /** Adding an event that passed the budget check keeps every closed window within the budget. */
  lemma SpendKeepsWindowBounded(history: seq<RateLine>, e: RateLine, window: real, max: int)
    requires e.Entry? && e.ts.Some?
    requires WindowBounded(history, window, max)
    requires |Keep(history, e.ts.value - window)| < max
    ensures WindowBounded(history + [e], window, max)
  {
    forall lo ensures CountIn(history + [e], lo, window) <= max {
      CountInAppend(history, e, lo, window);
      assert CountIn(history, lo, window) <= max;
      if lo <= e.ts.value <= lo + window {
        CountInAtMostKeep(history, lo, window);
        KeepLater(history, e.ts.value - window, lo);
      }
    }
  }
}
