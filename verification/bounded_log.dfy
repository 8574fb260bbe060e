/**
 * The event page's history: an append-only log that keeps only the most
 * recent 500 entries, evicting the oldest first. Appending is
 * `[...log, x].slice(-500)`.
 */
module BoundedLog {

  const LogCap: nat := 500

  /**
   * JavaScript's `a.slice(start)`: a negative start counts back from the end
   * and is clamped at 0; a non-negative one is clamped at the length.
   */
  function SliceFrom<T>(a: seq<T>, start: int): seq<T> {
    var from := if start < 0 then (if |a| + start < 0 then 0 else |a| + start)
                else (if start > |a| then |a| else start);
    a[from..]
  }

  /** Reference definition: the most recent `LogCap` entries of `a`, or all of them when there are fewer. */
  function Newest<T>(a: seq<T>): seq<T> {
    if |a| <= LogCap then a else a[|a| - LogCap..]
  }

  /** One append with eviction of the oldest entry beyond the cap. */
  function Append<T>(log: seq<T>, x: T): (r: seq<T>)
    ensures |r| == if |log| + 1 < LogCap then |log| + 1 else LogCap
    ensures r[|r| - 1] == x
  {
    SliceFrom(log + [x], -(LogCap as int))
  }

  /** An append keeps exactly the most recent `LogCap` entries of the log followed by the new one. */
  lemma AppendIsNewest<T>(log: seq<T>, x: T)
    ensures Append(log, x) == Newest(log + [x])
  {
  }

  /** Below the cap nothing is evicted: the entry is added last and earlier ones keep their order. */
  lemma AppendBelowCap<T>(log: seq<T>, x: T)
    requires |log| < LogCap
    ensures Append(log, x) == log + [x]
  {
  }

  /** At the cap exactly the oldest entry is evicted. */
  lemma AppendAtCap<T>(log: seq<T>, x: T)
    requires |log| == LogCap
    ensures Append(log, x) == log[1..] + [x]
  {
  }

  /** Appends `xs` one by one, in arrival order. */
  function AppendAll<T>(log: seq<T>, xs: seq<T>): seq<T>
    decreases |xs|
  {
    if |xs| == 0 then log else AppendAll(Append(log, xs[0]), xs[1..])
  }

  /** Truncating early loses nothing a later truncation would keep. */
  lemma NewestOfConcat<T>(a: seq<T>, b: seq<T>)
    ensures Newest(Newest(a) + b) == Newest(a + b)
  {
  }

  /**
   * Appending any sequence of entries to a log within the cap leaves exactly the
   * most recent `LogCap` entries of the whole history, in arrival order.
   */
  lemma {:induction false} AppendAllKeepsNewest<T>(log: seq<T>, xs: seq<T>)
    requires |log| <= LogCap
    ensures AppendAll(log, xs) == Newest(log + xs)
    decreases |xs|
  {
    if |xs| == 0 {
      assert log + xs == log;
    } else {
      AppendIsNewest(log, xs[0]);
      AppendAllKeepsNewest(Append(log, xs[0]), xs[1..]);
      NewestOfConcat(log + [xs[0]], xs[1..]);
      assert log + [xs[0]] + xs[1..] == log + xs;
    }
  }

  /** The log never holds more than `LogCap` entries. */
  lemma AppendAllBounded<T>(log: seq<T>, xs: seq<T>)
    requires |log| <= LogCap
    ensures |AppendAll(log, xs)| <= LogCap
  {
    AppendAllKeepsNewest(log, xs);
  }

  /** Messages numbered 1 to 501, appended to an empty log, leave the messages numbered 2 to 501. */
  lemma FiveHundredOneMessages()
    ensures AppendAll([], seq(501, i => i + 1)) == seq(500, i => i + 2)
  {
    var xs := seq(501, i => i + 1);
    AppendAllKeepsNewest([], xs);
    assert [] + xs == xs;
  }
}
