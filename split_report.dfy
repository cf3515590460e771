/**
  The report that a timing logger writes to the log, as structured lines
  rather than formatted text, and what it means: one "begin" line, one line
  per split after the start entry carrying either the time since the start or
  the time since the previous split, and one "end" line carrying the total.
 */
module SplitReport {
  import opened Wrappers

  const MIN_LONG: int := -0x8000_0000_0000_0000
  const MAX_LONG: int := 0x7fff_ffff_ffff_ffff
  const LONG_MODULUS: int := 0x1_0000_0000_0000_0000

  /** A reading of the monotonic millisecond clock: a non-negative Java `long`. */
  type Millis = t: int | 0 <= t <= MAX_LONG

  /** Java's `long` subtraction, which wraps modulo 2^64. */
  function LongSub(a: int, b: int): (r: int)
    ensures MIN_LONG <= r <= MAX_LONG
    ensures MIN_LONG <= a - b <= MAX_LONG ==> r == a - b
    ensures (a - b - r) % LONG_MODULUS == 0
  {
    (a - b - MIN_LONG) % LONG_MODULUS + MIN_LONG
  }

  /** Two clock readings never make the `long` subtraction wrap. */
  lemma MillisSubIsExact(a: Millis, b: Millis)
    ensures LongSub(a, b) == a - b
    ensures MIN_LONG < a - b <= MAX_LONG
  {
  }

  /** One line of the report. `Split` lines carry the label of their split,
      which is null (None) for the start entry. */
  datatype Line =
    | Begin(name: string)
    | Split(name: string, delta: int, splitLabel: Option<string>)
    | End(name: string, total: int)

  /** The interval reported for entry `i`: since the start entry when
      `fromStart`, otherwise since the previous entry. */
  function Delta(splits: seq<int>, i: nat, fromStart: bool): int
    requires 1 <= i < |splits|
  {
    if fromStart then splits[i] - splits[0] else splits[i] - splits[i - 1]
  }

  /** Time from the start entry to the last entry. */
  function Total(splits: seq<int>): int
    requires |splits| >= 1
  {
    splits[|splits| - 1] - splits[0]
  }

  /** The split lines for entries 1 .. n-1, in order. */
  function SplitLines(name: string, splits: seq<int>, labels: seq<Option<string>>,
                      fromStart: bool, n: nat): (r: seq<Line>)
    requires |splits| == |labels| && 1 <= n <= |splits|
    ensures |r| == n - 1
  {
    if n == 1 then []
    else SplitLines(name, splits, labels, fromStart, n - 1)
         + [Split(name, Delta(splits, n - 1, fromStart), labels[n - 1])]
  }

  /** The whole report of an enabled logger whose session holds `splits`
      (timestamps) and `labels` (their split labels). */
  function Report(name: string, splits: seq<int>, labels: seq<Option<string>>,
                  fromStart: bool): (r: seq<Line>)
    requires |splits| == |labels| >= 1
    ensures |r| == |splits| + 1
  {
    [Begin(name)] + SplitLines(name, splits, labels, fromStart, |splits|)
    + [End(name, Total(splits))]
  }

  lemma {:induction false} SplitLinesAt(name: string, splits: seq<int>, labels: seq<Option<string>>,
                                        fromStart: bool, n: nat)
    requires |splits| == |labels| && 1 <= n <= |splits|
    ensures forall i :: 1 <= i < n ==>
      SplitLines(name, splits, labels, fromStart, n)[i - 1]
        == Split(name, Delta(splits, i, fromStart), labels[i])
  {
    if n > 1 {
      SplitLinesAt(name, splits, labels, fromStart, n - 1);
    }
  }

  /** The report has one line more than there are entries: "begin" first,
      then entry i (i >= 1) as line i with its own delta and split label,
      and "end" with the total last. */
  lemma ReportShape(name: string, splits: seq<int>, labels: seq<Option<string>>, fromStart: bool)
    requires |splits| == |labels| >= 1
    ensures |Report(name, splits, labels, fromStart)| == |splits| + 1
    ensures Report(name, splits, labels, fromStart)[0] == Begin(name)
    ensures Report(name, splits, labels, fromStart)[|splits|]
            == End(name, splits[|splits| - 1] - splits[0])
    ensures forall i :: 1 <= i < |splits| ==>
      Report(name, splits, labels, fromStart)[i]
        == Split(name, Delta(splits, i, fromStart), labels[i])
  {
    SplitLinesAt(name, splits, labels, fromStart, |splits|);
  }

  /** A session holding only its start entry reports "begin" and "end, 0". */
  lemma ReportOfStartOnly(name: string, t: int, fromStart: bool)
    ensures Report(name, [t], [None], fromStart) == [Begin(name), End(name, 0)]
  {
  }

  /** Sum of the from-previous deltas of entries 1 .. i. */
  function PrevDeltaSum(splits: seq<int>, i: nat): int
    requires i < |splits|
  {
    if i == 0 then 0 else PrevDeltaSum(splits, i - 1) + Delta(splits, i, false)
  }

  /** The from-previous deltas telescope to the time since the start. */
  lemma {:induction false} PrevDeltasTelescope(splits: seq<int>, i: nat)
    requires i < |splits|
    ensures PrevDeltaSum(splits, i) == splits[i] - splits[0]
  {
    if i > 0 {
      PrevDeltasTelescope(splits, i - 1);
    }
  }

  /** Each from-start delta is the sum of the from-previous deltas up to it. */
  lemma {:induction false} FromStartIsPrefixSum(splits: seq<int>, i: nat)
    requires 1 <= i < |splits|
    ensures Delta(splits, i, true) == PrevDeltaSum(splits, i)
  {
    PrevDeltasTelescope(splits, i);
  }

  /** The total is the sum of all from-previous deltas; with only the start
      entry both are 0. */
  lemma TotalIsPrevDeltaSum(splits: seq<int>)
    requires |splits| >= 1
    ensures Total(splits) == PrevDeltaSum(splits, |splits| - 1)
  {
    PrevDeltasTelescope(splits, |splits| - 1);
  }

  /** Sum of the deltas of the `Split` lines of a report (or of a prefix of one). */
  function SplitDeltaSum(lines: seq<Line>): int
  {
    if lines == [] then 0
    else SplitDeltaSum(lines[..|lines| - 1])
         + (if lines[|lines| - 1].Split? then lines[|lines| - 1].delta else 0)
  }

  lemma {:induction false} PrevReportPrefixSum(name: string, splits: seq<int>,
                                               labels: seq<Option<string>>, i: nat)
    requires |splits| == |labels| && i < |splits|
    ensures SplitDeltaSum(Report(name, splits, labels, false)[..i + 1]) == PrevDeltaSum(splits, i)
    ensures SplitDeltaSum(Report(name, splits, labels, false)[..i + 1]) == splits[i] - splits[0]
  {
    var r := Report(name, splits, labels, false);
    ReportShape(name, splits, labels, false);
    PrevDeltasTelescope(splits, i);
    if i == 0 {
      assert r[..1] == [Begin(name)];
      assert r[..1][..0] == [];
    } else {
      PrevReportPrefixSum(name, splits, labels, i - 1);
      assert r[..i + 1][..i] == r[..i];
    }
  }

  /** In report terms: line i of the from-start report carries the sum of the
      deltas on lines 1 .. i of the from-previous report, and the "end" total
      of either report is the sum of all from-previous deltas. */
  lemma FromStartReportIsPrefixSum(name: string, splits: seq<int>,
                                   labels: seq<Option<string>>, fromStart: bool)
    requires |splits| == |labels| >= 1
    ensures forall i :: 1 <= i < |splits| ==>
      Report(name, splits, labels, true)[i].Split? &&
      Report(name, splits, labels, true)[i].delta
        == SplitDeltaSum(Report(name, splits, labels, false)[..i + 1])
    ensures Report(name, splits, labels, fromStart)[|splits|].End? &&
      Report(name, splits, labels, fromStart)[|splits|].total
        == SplitDeltaSum(Report(name, splits, labels, false))
  {
    ReportShape(name, splits, labels, true);
    ReportShape(name, splits, labels, fromStart);
    forall i | 1 <= i < |splits|
      ensures Report(name, splits, labels, true)[i].delta
              == SplitDeltaSum(Report(name, splits, labels, false)[..i + 1])
    {
      FromStartIsPrefixSum(splits, i);
      PrevReportPrefixSum(name, splits, labels, i);
    }
    var r := Report(name, splits, labels, false);
    ReportShape(name, splits, labels, false);
    PrevReportPrefixSum(name, splits, labels, |splits| - 1);
    PrevDeltasTelescope(splits, |splits| - 1);
    assert r[..|r| - 1] == r[..|splits|];
  }

  /** Timestamps taken from a clock that never goes back. */
  predicate NonDecreasing(splits: seq<int>)
  {
    forall i, j :: 0 <= i <= j < |splits| ==> splits[i] <= splits[j]
  }

  /** With a clock that never goes back, no line reports a negative interval. */
  lemma ReportIsNonNegative(name: string, splits: seq<int>, labels: seq<Option<string>>,
                            fromStart: bool)
    requires |splits| == |labels| >= 1 && NonDecreasing(splits)
    ensures forall k :: 0 <= k < |Report(name, splits, labels, fromStart)| ==>
      (Report(name, splits, labels, fromStart)[k].Split? ==> Report(name, splits, labels, fromStart)[k].delta >= 0) &&
      (Report(name, splits, labels, fromStart)[k].End? ==> Report(name, splits, labels, fromStart)[k].total >= 0)
  {
    ReportShape(name, splits, labels, fromStart);
  }

  /** Both modes report the same lines apart from the split deltas. */
  lemma ModesDifferOnlyInDeltas(name: string, splits: seq<int>, labels: seq<Option<string>>)
    requires |splits| == |labels| >= 1
    ensures |Report(name, splits, labels, true)| == |Report(name, splits, labels, false)|
    ensures forall k :: 0 <= k < |Report(name, splits, labels, true)| ==>
      var a, b := Report(name, splits, labels, true)[k], Report(name, splits, labels, false)[k];
      if a.Split? then b.Split? && a.name == b.name && a.splitLabel == b.splitLabel else a == b
  {
    ReportShape(name, splits, labels, true);
    ReportShape(name, splits, labels, false);
  }
}
