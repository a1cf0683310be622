/** The hand-written substring-search strategies of simplegrep, the hit
    counter `gsHint` they drive, and the benchmark loop that runs them.

    The file-level state of the C program (the `static int gsHint`) is the
    field of class `Grep`; each strategy is a method of it. The input buffer is
    an `array<Byte>` with a separate `length`, as in the C signature
    `(const char *inputData, unsigned int length, char *pattern)`; no method
    names the array in its `modifies` clause, so none writes to it. */
module SimpleGrep {
  import opened Occurrences
  import opened CArith

  /** The success code that `main` compares its status against. */
  const HS_SUCCESS: int := 0

  /** The number of lanes of `myBMScanMethod`'s accumulator `tmpHint`. */
  const LANES: nat := 16

  /** The input as `main` hands it to the strategies: the first `length`
      bytes of `inputData`, with `length` an `unsigned int`. */
  predicate ValidInput(inputData: array<Byte>, length: nat) {
    length <= inputData.Length && length <= UINT_MAX
  }

  /** The pattern as a C string whose `strlen` fits a `size_t`. */
  predicate ValidPattern(pattern: seq<Byte>) {
    NulFree(pattern) && |pattern| < SIZE_MOD
  }

  /** Lane `lane` of the accumulator holds `v` and every other lane holds 0. */
  ghost predicate OnlyLane(tmpHint: array<int>, lane: int, v: int)
    reads tmpHint
  {
    tmpHint.Length == LANES &&
    (forall k :: 0 <= k < LANES && k != lane ==> tmpHint[k] == 0) &&
    (0 <= lane < LANES ==> tmpHint[lane] == v)
  }

  /** The strategies registered in `testFuncArr`. */
  datatype Strategy = AllMemScan | HyperScan | RookieScan | MyBMScan | MyScan

  /** `testFuncArr`: the registered strategies in execution and report order. */
  const TestFuncArr: seq<Strategy> := [AllMemScan, HyperScan, RookieScan, MyBMScan, MyScan]

  /** The `testName` each strategy is registered under. */
  function TestName(s: Strategy): string {
    match s
    case AllMemScan => "allMemScan"
    case HyperScan => "hyperScan"
    case RookieScan => "rookieScan"
    case MyBMScan => "myBMScanMethod"
    case MyScan => "myScan"
  }

  /** The hit count `main` prints for strategy `s`: `gsHint` after it is reset
      and `s` has run on `buf` and `pattern`. The external Hyperscan engine is
      not modelled; `engineEnds` stands for the end offsets of the matches it
      reports through `eventHandler`. */
  function ReportedHits(s: Strategy, buf: seq<Byte>, pattern: seq<Byte>, engineEnds: seq<nat>): (r: int)
    requires NulFree(pattern)
    ensures s != MyBMScan ==> r >= 0
    ensures s == MyBMScan ==> -128 <= r <= 127
    ensures s == MyScan ==> r == 0
  {
    match s
    case AllMemScan => ByteCount(buf, FirstByte(pattern))
    case HyperScan => |engineEnds|
    case RookieScan => ScanHits(buf, pattern)
    case MyBMScan => ToChar(ScanHits(buf, pattern))
    case MyScan => 0
  }

  /** The registry runs every strategy exactly once, five in all, and the
      names it reports them under tell them apart. */
  lemma RegistryShape()
    ensures |TestFuncArr| == 5
    ensures forall s: Strategy :: s in TestFuncArr
    ensures forall j, k :: 0 <= j < k < |TestFuncArr| ==> TestFuncArr[j] != TestFuncArr[k]
    ensures forall j, k :: 0 <= j < k < |TestFuncArr| ==> TestName(TestFuncArr[j]) != TestName(TestFuncArr[k])
  {
    forall s: Strategy
      ensures s in TestFuncArr
    {
      match s
      case AllMemScan => assert TestFuncArr[0] == s;
      case HyperScan => assert TestFuncArr[1] == s;
      case RookieScan => assert TestFuncArr[2] == s;
      case MyBMScan => assert TestFuncArr[3] == s;
      case MyScan => assert TestFuncArr[4] == s;
    }
  }

  /** One line of `main`'s report; the elapsed time is not modelled. */
  datatype Report = Report(testName: string, done: bool, hits: int)

  class Grep {
    /** `static int gsHint`: the hit counter. */
    var gsHint: int

    constructor ()
      ensures gsHint == 0
    {
      gsHint := 0;
    }

    /** `eventHandler`: the match callback. It ignores its arguments and
        counts one hit. */
    method EventHandler(id: nat, from: nat, to: nat, flags: nat, ctx: seq<Byte>) returns (r: int)
      modifies this
      ensures gsHint == old(gsHint) + 1
      ensures r == 0
    {
      gsHint := gsHint + 1;
      r := 0;
    }

    /** `rookieScanMethod`: brute-force nested loop. It resets the counter,
        then reports one hit per start offset at which the whole pattern
        matches, resuming at the next offset, so overlapping occurrences all
        count. */
    method RookieScanMethod(inputData: array<Byte>, length: nat, pattern: seq<Byte>) returns (r: int)
      requires ValidInput(inputData, length) && ValidPattern(pattern)
      requires |pattern| <= length + 1
      modifies this
      ensures gsHint == ScanHits(inputData[..length], pattern)
      ensures r == 0
    {
      ghost var buf := inputData[..length];
      var plen := |pattern|;
      gsHint := 0;
      var limit := OuterLimit(length, plen);
      assert limit + plen == length + 1;
      for i := 0 to limit
        invariant gsHint == if plen == 0 then 0 else CountMatches(buf, pattern, i)
      {
        ghost var before := gsHint;
        ghost var matched := false;
        for j := 0 to plen
          invariant PrefixMatchesAt(buf, pattern, i, j)
          invariant matched <==> 0 < plen == j
          invariant gsHint == before + (if matched then 1 else 0)
        {
          if pattern[j] != inputData[i + j] {
            MismatchRulesOut(buf, pattern, i, j);
            break;
          } else if j == plen - 1 {
            var _ := EventHandler(0, 0, i, 0, pattern);
            matched := true;
          }
          PrefixExtend(buf, pattern, i, j);
        }
        if matched {
          PrefixComplete(buf, pattern, i);
        }
      }
      if plen > 0 {
        NoMatchesPast(buf, pattern, limit);
      }
      r := 0;
    }

    /** `myBMScanMethod`: the same nested loop, but each hit increments the
        signed `char` lane `tmpHint[plen - 1]` instead of calling the handler;
        the sixteen lanes are added to the counter at the end. The lane wraps
        past 127, so the counter grows by the hit count reduced into the
        `char` range. A pattern longer than the sixteen lanes is defined only
        while it never occurs, since its first hit writes past `tmpHint`. */
    method MyBMScanMethod(inputData: array<Byte>, length: nat, pattern: seq<Byte>) returns (r: int)
      requires ValidInput(inputData, length) && ValidPattern(pattern)
      requires |pattern| <= length + 1
      requires |pattern| <= LANES || ScanHits(inputData[..length], pattern) == 0
      modifies this
      ensures gsHint == old(gsHint) + ToChar(ScanHits(inputData[..length], pattern))
      ensures r == 0
    {
      ghost var buf := inputData[..length];
      var plen := |pattern|;
      var tmpHint := new int[LANES](_ => 0);
      var limit := OuterLimit(length, plen);
      assert limit + plen == length + 1;
      ghost var hits := 0;
      for i := 0 to limit
        invariant plen > 0 ==> hits == CountMatches(buf, pattern, i)
        invariant OnlyLane(tmpHint, plen - 1, ToChar(hits))
        invariant gsHint == old(gsHint)
      {
        ghost var matched := false;
        for j := 0 to plen
          invariant PrefixMatchesAt(buf, pattern, i, j)
          invariant matched <==> 0 < plen == j
          invariant plen > 0 ==> hits == CountMatches(buf, pattern, i) + (if matched then 1 else 0)
          invariant OnlyLane(tmpHint, plen - 1, ToChar(hits))
          invariant gsHint == old(gsHint)
        {
          if pattern[j] != inputData[i + j] {
            MismatchRulesOut(buf, pattern, i, j);
            break;
          } else if j == plen - 1 {
            PrefixExtend(buf, pattern, i, j);
            PrefixComplete(buf, pattern, i);
            OccurrenceCounted(buf, pattern, i);
            ToCharStep(hits);
            tmpHint[j] := CharInc(tmpHint[j]);
            hits, matched := hits + 1, true;
          }
          PrefixExtend(buf, pattern, i, j);
        }
        if matched {
          PrefixComplete(buf, pattern, i);
        }
      }
      for j := 0 to LANES
        invariant OnlyLane(tmpHint, plen - 1, ToChar(hits))
        invariant gsHint == old(gsHint) + if 0 < plen <= j then tmpHint[plen - 1] else 0
      {
        gsHint := gsHint + tmpHint[j];
      }
      if plen > 0 {
        NoMatchesPast(buf, pattern, limit);
      }
      r := 0;
    }

    /** `memScanMethod`: first-byte-only scan. It reports a hit at every
        position holding `pattern[0]` (for an empty pattern, its NUL). */
    method MemScanMethod(inputData: array<Byte>, length: nat, pattern: seq<Byte>) returns (r: int)
      requires ValidInput(inputData, length) && ValidPattern(pattern)
      modifies this
      ensures gsHint == old(gsHint) + ByteCount(inputData[..length], FirstByte(pattern))
      ensures r == 0
    {
      ghost var buf := inputData[..length];
      var first := FirstByte(pattern);
      for i := 0 to length
        invariant gsHint == old(gsHint) + CountByte(buf, first, i)
      {
        if first == inputData[i] {
          var _ := EventHandler(0, 0, i, 0, pattern);
        }
      }
      r := 0;
    }

    /** `paraScanMethod`: the placeholder. It has no `modifies` clause, so it
        changes neither the counter nor the buffer. */
    method ParaScanMethod(inputData: array<Byte>, length: nat, pattern: seq<Byte>) returns (r: int)
      ensures r == 0
    {
      r := 0;
    }

    /** One iteration of `main`'s loop, without the timing: reset the counter,
        run strategy `s` and read the counter back. For the Hyperscan entry
        the engine's callbacks are replayed from `engineEnds`. */
    method RunTest(s: Strategy, inputData: array<Byte>, length: nat, pattern: seq<Byte>, engineEnds: seq<nat>)
      returns (hits: int)
      requires ValidInput(inputData, length) && ValidPattern(pattern)
      requires (s == RookieScan || s == MyBMScan) ==> |pattern| <= length + 1
      requires s == MyBMScan ==> |pattern| <= LANES || ScanHits(inputData[..length], pattern) == 0
      modifies this
      ensures hits == gsHint == ReportedHits(s, inputData[..length], pattern, engineEnds)
    {
      gsHint := 0;
      match s {
        case AllMemScan =>
          var _ := MemScanMethod(inputData, length, pattern);
        case HyperScan =>
          for k := 0 to |engineEnds|
            invariant gsHint == k
          {
            var _ := EventHandler(0, 0, engineEnds[k], 0, pattern);
          }
        case RookieScan =>
          var _ := RookieScanMethod(inputData, length, pattern);
        case MyBMScan =>
          var _ := MyBMScanMethod(inputData, length, pattern);
        case MyScan =>
          var _ := ParaScanMethod(inputData, length, pattern);
      }
      hits := gsHint;
    }

    /** `main`'s loop over `testFuncArr`: one report per strategy, in
        registration order. The status is never updated from the strategies'
        return values, so every report says DONE. */
    method RunAll(inputData: array<Byte>, length: nat, pattern: seq<Byte>, engineEnds: seq<nat>)
      returns (reports: seq<Report>, ret: int)
      requires ValidInput(inputData, length) && ValidPattern(pattern)
      requires |pattern| <= length + 1
      requires |pattern| <= LANES || ScanHits(inputData[..length], pattern) == 0
      modifies this
      ensures |reports| == |TestFuncArr|
      ensures forall k :: 0 <= k < |TestFuncArr| ==>
        reports[k] == Report(TestName(TestFuncArr[k]), true,
                             ReportedHits(TestFuncArr[k], inputData[..length], pattern, engineEnds))
      ensures ret == HS_SUCCESS
    {
      ret := 0;
      reports := [];
      for idx := 0 to |TestFuncArr|
        invariant |reports| == idx
        invariant forall k :: 0 <= k < idx ==>
          reports[k] == Report(TestName(TestFuncArr[k]), true,
                               ReportedHits(TestFuncArr[k], inputData[..length], pattern, engineEnds))
        invariant ret == HS_SUCCESS
      {
        var test := TestFuncArr[idx];
        var hits := RunTest(test, inputData, length, pattern, engineEnds);
        reports := reports + [Report(TestName(test), ret == HS_SUCCESS, hits)];
      }
    }
  }

  /** How the strategies' reported counts relate on any input: the first-byte
      scan over-approximates the full match and equals it for a one-byte
      pattern; the lane accumulator agrees with the plain nested loop exactly
      when the hit count fits a `char`; the placeholder reports nothing. */
  lemma StrategiesAgree(buf: seq<Byte>, pattern: seq<Byte>, engineEnds: seq<nat>)
    requires NulFree(pattern)
    ensures ReportedHits(RookieScan, buf, pattern, engineEnds) <= ReportedHits(AllMemScan, buf, pattern, engineEnds)
    ensures |pattern| == 1 ==>
      ReportedHits(RookieScan, buf, pattern, engineEnds) == ReportedHits(AllMemScan, buf, pattern, engineEnds)
    ensures ReportedHits(MyBMScan, buf, pattern, engineEnds) == ReportedHits(RookieScan, buf, pattern, engineEnds)
      <==> ScanHits(buf, pattern) <= 127
    ensures ReportedHits(MyScan, buf, pattern, engineEnds) == 0
    ensures ReportedHits(HyperScan, buf, pattern, engineEnds) == |engineEnds|
  {
    FirstByteOverApproximates(buf, pattern);
    if |pattern| == 1 {
      SingleBytePattern(buf, pattern);
    }
  }

  /** A buffer of 128 bytes 'a' searched for "a": the plain nested loop
      reports 128 hits, the lane accumulator reports -128. */
  lemma LaneOverflowExample()
    ensures ReportedHits(RookieScan, seq(128, _ => 'a' as Byte), ['a' as Byte], []) == 128
    ensures ReportedHits(MyBMScan, seq(128, _ => 'a' as Byte), ['a' as Byte], []) == -128
  {
    var buf := seq(128, _ => 'a' as Byte);
    SingleBytePattern(buf, ['a' as Byte]);
    UniformCount(buf, 'a' as Byte, 128);
  }
}
