# TimingLogger, modelled in Dafny

A model of `TimingLogger` from SnowdreamFramework, an Android utility that
records named time splits through a method call and dumps them to the log.
A logger holds a log tag, a session label, a `disabled` flag fixed at each
reset from the process-wide debug flag, and two parallel lists: the timestamp
of each entry and the label of each entry. A reset clears the lists and
records a start entry with a null label; `addSplit` appends one entry; the
dump writes a "begin" line, one line per entry after the start carrying the
time since the start or since the previous entry, and an "end" line carrying
the total. A disabled logger does nothing.

Files:

- `wrappers.dfy` — `Option`, standing for a Java `String` that may be null.
- `split_report.dfy` — module `SplitReport`: the report as structured lines
  (`Begin`, `Split`, `End`), Java `long` subtraction, the specification
  function `Report`, and the lemmas about it.
- `timing_logger.dfy` — module `Timing`: the class `TimingLogger` with the
  source's fields as mutable fields (the two `ArrayList`s as `seq` fields that
  the methods reassign), its constructor and methods, and two client methods
  that run whole sessions.

The clock reading (`SystemClock.elapsedRealtime()`) and the debug flag
(`Snowdream.isDebug()`) are parameters (`now`, `debug`). A clock reading is a
`Millis`: a non-negative Java `long`. `dumpToLog` returns its lines instead
of passing them to `Log.i`. The Java field `mLabel` is called `name` here,
because `label` is a reserved word in Dafny; the overloaded `reset(tag, label)`
and `reset()` are `ResetWith` and `Reset`.

A reset with debug off returns before it clears the lists
(TimingLogger.java:93-95), so entries from an earlier enabled session stay in
place, unread; `Reset` says so.

## Model

| member | source | states |
|---|---|---|
| Timing.TimingLogger.constructor | modules/core/src/main/java/com/github/snowdream/android/util/TimingLogger.java:58-68 | stores tag and label; with debug on the session holds exactly the start entry (now, null), with debug off it is disabled and holds nothing |
| Timing.TimingLogger.ResetWith | modules/core/src/main/java/com/github/snowdream/android/util/TimingLogger.java:78-82 | the new tag and label are stored even when debug is off; then behaves as `Reset` |
| Timing.TimingLogger.Reset | modules/core/src/main/java/com/github/snowdream/android/util/TimingLogger.java:92-104 | `disabled` becomes `!debug`; with debug on the lists hold exactly (now, null); with debug off they are left exactly as they were; tag and label never change; the lists keep equal length |
| Timing.TimingLogger.AddSplit | modules/core/src/main/java/com/github/snowdream/android/util/TimingLogger.java:113-118 | disabled: no field changes; enabled: exactly (now, splitLabel) is appended and every earlier entry, tag, label and flag are unchanged; equal length and "enabled implies at least one entry" are preserved |
| Timing.TimingLogger.DumpToLog | modules/core/src/main/java/com/github/snowdream/android/util/TimingLogger.java:127-144 | disabled: no lines; enabled: exactly the lines of `Report` for the current entries and mode (the loop is proved against it); the logger is not changed, so a second dump gives the same lines |
| Timing.DocumentedSession | modules/core/src/main/java/com/github/snowdream/android/util/TimingLogger.java:13-36 | the documented usage (start at 0, splits "work A" at 9, "work B" at 10, "work C" at 16, from-previous mode) reports begin, 9, 1, 6 and end 16; the documentation calls a `dumpToLog()` without argument that the class does not declare, and its output (9, 1, 6) is that of `dumpToLog(false)`, which is what this session calls |
| Timing.DisabledSession | modules/core/src/main/java/com/github/snowdream/android/util/TimingLogger.java:58-65 | a logger created with debug off records no entry after any split and its dump emits no line |
| SplitReport.LongSub | modules/core/src/main/java/com/github/snowdream/android/util/TimingLogger.java:138-143 | Java `long` subtraction always yields a `long`, and equals the mathematical difference whenever that fits in a `long` |
| SplitReport.MillisSubIsExact | modules/core/src/main/java/com/github/snowdream/android/util/TimingLogger.java:115-116 | the difference of two clock readings never wraps, so every reported interval is the exact difference |
| SplitReport.Report | modules/core/src/main/java/com/github/snowdream/android/util/TimingLogger.java:129-143 | an enabled dump writes exactly one line more than there are entries; its parts are `SplitLines` (the loop at :132-142), `Delta` (the interval at :138 and :140) and `Total` (the end total at :143) |
| SplitReport.SplitLines | modules/core/src/main/java/com/github/snowdream/android/util/TimingLogger.java:132-142 | the loop writes one split line for each entry after the start entry |
| SplitReport.SplitLinesAt | modules/core/src/main/java/com/github/snowdream/android/util/TimingLogger.java:132-142 | the loop's k-th line is the split line of entry k, for each entry after the start, in order |
| SplitReport.ReportShape | modules/core/src/main/java/com/github/snowdream/android/util/TimingLogger.java:129-143 | line 0 is "begin"; line i (1 <= i < n) carries entry i's label and delta (since entry 0 in from-start mode, since entry i-1 otherwise); line n is "end" with last minus first |
| SplitReport.ReportOfStartOnly | modules/core/src/main/java/com/github/snowdream/android/util/TimingLogger.java:130-143 | with only the start entry the report is "begin" then "end" with total 0 |
| SplitReport.PrevDeltasTelescope | modules/core/src/main/java/com/github/snowdream/android/util/TimingLogger.java:135-140 | the from-previous deltas of entries 1..i add up to entry i minus entry 0 |
| SplitReport.FromStartIsPrefixSum | modules/core/src/main/java/com/github/snowdream/android/util/TimingLogger.java:137-143 | each from-start delta equals the sum of the from-previous deltas up to it |
| SplitReport.TotalIsPrevDeltaSum | modules/core/src/main/java/com/github/snowdream/android/util/TimingLogger.java:131-143 | the end total (last minus first) equals the sum of all from-previous deltas, including a session holding only the start entry, where both are 0 |
| SplitReport.PrevReportPrefixSum | modules/core/src/main/java/com/github/snowdream/android/util/TimingLogger.java:139-141 | the deltas on the first i+1 lines of a from-previous report add up to the from-previous prefix sum, which is entry i minus entry 0 |
| SplitReport.FromStartReportIsPrefixSum | modules/core/src/main/java/com/github/snowdream/android/util/TimingLogger.java:137-143 | stated on the reports themselves: line i of the from-start report carries the sum of the deltas on lines 1..i of the from-previous report, and either report's end total is the sum of all from-previous deltas |
| SplitReport.ReportIsNonNegative | modules/core/src/main/java/com/github/snowdream/android/util/TimingLogger.java:130-143 | when the timestamps never decrease, no split line and not the end line reports a negative interval |
| SplitReport.ModesDifferOnlyInDeltas | modules/core/src/main/java/com/github/snowdream/android/util/TimingLogger.java:137-141 | the two modes give reports of the same length, identical except for the delta of each split line |

## Left out

- `modules/util/src/main/java/com/github/snowdream/android/util/DensityUtil.java` is not part of this model: it is entirely `float` arithmetic, and its pixel conversion is a call into the Android platform (`TypedValue.applyDimension` on `DisplayMetrics` from a `Context`).
- `SystemClock.elapsedRealtime()` is not modelled; each operation that reads the clock takes the reading as the parameter `now`, a non-negative `long`. Whether readings never decrease is a hypothesis of `ReportIsNonNegative`, not a property of the model.
- `Snowdream.isDebug()` is not modelled; `Reset`, `ResetWith` and the constructor take the flag as the parameter `debug`.
- `Log.i`, the tag it writes under, the string concatenation and the number-to-text formatting are not modelled; a dump returns structured lines.
- When a logger is created disabled, Java leaves `mSplits` and `mSplitLabels` null; the model starts them empty. Nothing reads them while the logger is disabled.
- The tag and the session label may be null in Java; here they are plain strings. A null session label or split label would be printed as "null" by the string concatenation; what the logging call does with a null tag is not part of this model.
- The class is not safe for use from several threads at once; the model is sequential.
