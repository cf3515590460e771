/**
  A logger of timing splits through a method call. A session starts with a
  reset, which records a start entry; each split appends a timestamp and a
  label; the dump reports the intervals. Whether the session is enabled is
  decided at reset time from the debug flag, and a disabled session does
  nothing. The clock reading and the debug flag are parameters here.
 */
module Timing {
  import opened Wrappers
  import opened SplitReport

  class TimingLogger {
    /** The log tag the report is written under. */
    var tag: string
    /** The session name shown on every report line. */
    var name: string
    /** Whether the debug flag was off at the last reset. */
    var disabled: bool
    /** The timestamp of each entry, the start entry first. */
    var splits: seq<Millis>
    /** The label of each entry; None (null) for the start entry. */
    var splitLabels: seq<Option<string>>

    /** The two lists are cleared and appended together. */
    ghost predicate Parallel()
      reads this
    {
      |splits| == |splitLabels|
    }

    /** An enabled session always holds at least its start entry. */
    ghost predicate Valid()
      reads this
    {
      Parallel() && (!disabled ==> |splits| >= 1)
    }

    constructor (tag: string, name: string, debug: bool, now: Millis)
      ensures Valid()
      ensures this.tag == tag && this.name == name && disabled == !debug
      ensures debug ==> splits == [now] && splitLabels == [None]
      ensures !debug ==> splits == [] && splitLabels == []
    {
      this.tag := tag;
      this.name := name;
      disabled := true;
      splits := [];
      splitLabels := [];
      new;
      ResetWith(tag, name, debug, now);
    }

    /** Starts a new session under a new tag and name. */
    method ResetWith(tag: string, name: string, debug: bool, now: Millis)
      requires Parallel()
      modifies this
      ensures Valid()
      ensures this.tag == tag && this.name == name && disabled == !debug
      ensures debug ==> splits == [now] && splitLabels == [None]
      ensures !debug ==> splits == old(splits) && splitLabels == old(splitLabels)
    {
      this.tag := tag;
      this.name := name;
      Reset(debug, now);
    }

    /** Starts a new session under the current tag and name. When the debug
        flag is off it returns before clearing, so the lists keep whatever
        they held. */
    method Reset(debug: bool, now: Millis)
      requires Parallel()
      modifies this`disabled, this`splits, this`splitLabels
      ensures Valid()
      ensures disabled == !debug
      ensures debug ==> splits == [now] && splitLabels == [None]
      ensures !debug ==> splits == old(splits) && splitLabels == old(splitLabels)
    {
      disabled := !debug;
      if disabled {
        return;
      }
      splits := [];
      splitLabels := [];
      AddSplit(None, now);
    }

    /** Records the clock reading `now` with `splitLabel`, unless disabled. */
    method AddSplit(splitLabel: Option<string>, now: Millis)
      requires Parallel()
      modifies this`splits, this`splitLabels
      ensures Parallel()
      ensures old(Valid()) ==> Valid()
      ensures disabled ==> splits == old(splits) && splitLabels == old(splitLabels)
      ensures !disabled ==> splits == old(splits) + [now] && splitLabels == old(splitLabels) + [splitLabel]
    {
      if disabled {
        return;
      }
      splits := splits + [now];
      splitLabels := splitLabels + [splitLabel];
    }

    /** The report lines, in order; nothing when disabled. The logger is left
        as it was, so the report can be produced again. */
    method DumpToLog(isFromStart: bool) returns (lines: seq<Line>)
      requires Valid()
      ensures disabled ==> lines == []
      ensures !disabled ==> lines == Report(name, splits, splitLabels, isFromStart)
    {
      if disabled {
        return [];
      }
      lines := [Begin(name)];
      var first := splits[0];
      var now := first;
      for i := 1 to |splits|
        invariant now == splits[i - 1]
        invariant lines == [Begin(name)] + SplitLines(name, splits, splitLabels, isFromStart, i)
      {
        now := splits[i];
        var splitLabel := splitLabels[i];
        var prev := splits[i - 1];
        MillisSubIsExact(now, first);
        MillisSubIsExact(now, prev);
        if isFromStart {
          lines := lines + [Split(name, LongSub(now, first), splitLabel)];
        } else {
          lines := lines + [Split(name, LongSub(now, prev), splitLabel)];
        }
      }
      MillisSubIsExact(now, first);
      lines := lines + [End(name, LongSub(now, first))];
    }
  }

  /** The usage documented with the logger: splits 9, 10 and 16 ms after the
      start. The documentation calls a `dumpToLog()` without an argument,
      which the class does not declare; the documented output (9, 1, 6 ms)
      is that of the from-previous mode, so the dump here passes `false`. */
  method DocumentedSession() returns (lines: seq<Line>)
    ensures lines == [Begin("methodA"),
                      Split("methodA", 9, Some("work A")),
                      Split("methodA", 1, Some("work B")),
                      Split("methodA", 6, Some("work C")),
                      End("methodA", 16)]
  {
    var timings := new TimingLogger("TAG", "methodA", true, 0);
    timings.AddSplit(Some("work A"), 9);
    timings.AddSplit(Some("work B"), 10);
    timings.AddSplit(Some("work C"), 16);
    lines := timings.DumpToLog(false);
    ReportShape("methodA", timings.splits, timings.splitLabels, false);
  }

  /** A session started with the debug flag off records nothing and reports
      nothing, whatever splits are added. */
  method DisabledSession(tag: string, name: string, start: Millis,
                         splitLabel: Option<string>, now: Millis, fromStart: bool)
    returns (lines: seq<Line>, recorded: seq<Millis>)
    ensures lines == [] && recorded == []
  {
    var timings := new TimingLogger(tag, name, false, start);
    timings.AddSplit(splitLabel, now);
    lines := timings.DumpToLog(fromStart);
    recorded := timings.splits;
  }
}
