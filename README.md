# simplegrep scan strategies in Dafny

A model of the hand-written substring-search strategies of Hyperscan's
`simplegrep` example program, and of the global hit counter `gsHint` that
they drive through the match callback `eventHandler`. Every strategy takes
the input buffer, its `unsigned int` length and the pattern (a C string),
and reports its hits by changing `gsHint`:

- `memScanMethod` is a first-byte-only scan. It counts every buffer position
  that holds `pattern[0]`.
- `rookieScanMethod` resets the counter. It then runs a brute-force nested
  loop over the start offsets and counts every offset where the whole
  pattern matches. It resumes at the next offset, so overlapping occurrences
  all count.
- `myBMScanMethod` runs the same nested loop. It counts hits in a local
  16-lane `char` array `tmpHint` and adds the lanes to the counter at the
  end.
- `paraScanMethod` is a placeholder that does nothing.

The benchmark loop of `main` is also modelled, without its I/O and timing. It
resets the counter, runs each registered strategy in `testFuncArr` order and
reports the name, the status and the hit count.

## Layout

- `occurrences.dfy`, module `Occurrences`: the specification. It defines
  `Occ`, the number of (possibly overlapping) occurrences of a pattern. It
  also defines `ScanHits`, what a nested loop counts, and `ByteCount`, what
  the first-byte scan counts. Lemmas relate the three.
- `c_arith.dfy`, module `CArith`: the C arithmetic the strategies depend on.
  That is `size_t` subtraction, which wraps modulo 2^64, and the signed
  8-bit `char` lane, which wraps from 127 to -128.
- `simplegrep.dfy`, module `SimpleGrep`: class `Grep`. Its field is
  `gsHint`, its methods are the strategies, `eventHandler` and `main`'s loop.
  The module also holds the registry and the cross-strategy lemmas.
- `scenarios.dfy`, module `Scenarios`: two concrete inputs whose counts are
  proved.

## Modelling decisions

- The buffer is an `array<bv8>` and `length` is passed separately, as in the
  C signature. No method names the array in its `modifies` clause, so no
  strategy can write to it. The pattern is a NUL-free `seq<bv8>`, the bytes
  before the terminator that `strlen` stops at.
- The outer-loop limit `length - (plen - 1)` is computed with explicit
  `size_t` wrap-around (`CArith.OuterLimit`). The limit is the number of
  start offsets exactly when `plen <= length + 1`. For a longer pattern it
  wraps past `length`. The loop would then reach `i == length` and read
  `inputData[length]`, beyond the buffer. So the nested-loop methods require
  `|pattern| <= length + 1`.
- An empty pattern is not excluded. With the wrap-around, `plen == 0` gives
  the limit `length + 1`. The inner loop never runs, so the nested loops
  report no hit (`ScanHits` is 0). `memScanMethod` then reads the pattern's
  NUL terminator, so it counts the NUL bytes in the buffer
  (`Occurrences.FirstByte`).
- `myBMScanMethod` writes `tmpHint[plen - 1]` at each hit. A pattern longer
  than 16 therefore writes past `tmpHint` at its first hit, but is harmless
  while it never occurs. So the method requires `|pattern| <= 16` or no
  occurrence at all. Each lane is a signed `char` that wraps from 127 to
  -128, as on two's-complement compilers where `char` is signed. The counter
  therefore grows by `ToChar(hits)`, the hit count reduced into [-128, 127].
  `SimpleGrep.StrategiesAgree` proves this equals the plain nested loop's
  count exactly when there are at most 127 hits.
  `SimpleGrep.LaneOverflowExample` shows 128 hits reported as -128.
- Only the effect on `gsHint` is modelled for `eventHandler`. Its arguments
  are accepted and ignored. In Hyperscan's match callback, which
  `eventHandler` is written as (examples/simplegrep.c:75-76, :196), `to` is
  the end offset of the match. The hand-written strategies pass the start
  offset `i` there instead, and the model passes `i` as well.
- The report status in `main` is always DONE: `ret` is never updated from
  the strategies' return values, so the `"ERROR"` branch of the report at
  examples/simplegrep.c:345 is unreachable. `RunAll` states that every report
  is DONE.
- The Hyperscan engine is an external library. `RunTest` therefore takes the
  end offsets that the engine reports as a parameter `engineEnds`, and calls
  `EventHandler` once for each of them. An empty sequence stands for a
  compile failure, which makes no callback.

## Model

| member | source | states |
|---|---|---|
| `SimpleGrep.Grep.constructor` | examples/simplegrep.c:67 | the counter starts at 0 |
| `SimpleGrep.Grep.EventHandler` | examples/simplegrep.c:75-80 | ignores its arguments, increases `gsHint` by exactly one and returns 0 |
| `SimpleGrep.Grep.MemScanMethod` | examples/simplegrep.c:269-281 | adds to `gsHint` the number of positions `i < length` with `inputData[i] == pattern[0]` (the NUL terminator for an empty pattern) and returns 0; changes nothing but the counter |
| `SimpleGrep.Grep.RookieScanMethod` | examples/simplegrep.c:209-233 | sets `gsHint` to the number of start offsets where the whole (non-empty) pattern matches, overlapping ones included, and returns 0; every read is in bounds when `plen <= length + 1`; changes nothing but the counter |
| `SimpleGrep.Grep.MyBMScanMethod` | examples/simplegrep.c:235-267 | adds to `gsHint` that same number wrapped into the signed `char` range; its loop invariants state that only lane `plen - 1` changes and the other 15 stay 0; accepts a pattern longer than 16 when it never occurs, since only a hit writes a lane; returns 0 |
| `SimpleGrep.RegistryShape` | examples/simplegrep.c:298-305 | `testFuncArr` lists five strategies, each exactly once, under pairwise distinct names |
| `SimpleGrep.ReportedHits` | examples/simplegrep.c:341-345 | the hit count printed for a strategy: never negative except for `myBMScanMethod`, whose count lies in the `char` range; 0 for the placeholder |
| `SimpleGrep.Grep.ParaScanMethod` | examples/simplegrep.c:283-286 | returns 0; it has no `modifies` clause, so it changes neither the counter nor the buffer |
| `SimpleGrep.Grep.RunTest` | examples/simplegrep.c:337-341 | resets the counter, runs one registered strategy and yields the counter, which equals that strategy's `ReportedHits`; the count depends on the inputs only, so a second run gives the same count |
| `SimpleGrep.Grep.RunAll` | examples/simplegrep.c:335-346 | one report per entry of `testFuncArr`, in registration order, each with its registered name, status DONE and that strategy's hit count; returns success |
| `SimpleGrep.StrategiesAgree` | examples/simplegrep.c:209-286 | the first-byte count is never below the nested-loop count and equals it for a one-byte pattern; `myBMScanMethod` reports the same count as `rookieScanMethod` if and only if there are at most 127 hits; the placeholder reports 0 |
| `SimpleGrep.LaneOverflowExample` | examples/simplegrep.c:238-264 | on 128 bytes 'a' with pattern "a", `rookieScanMethod` reports 128 and `myBMScanMethod` reports -128 |
| `Scenarios.OverlapExample` | examples/simplegrep.c:214-230 | "aa" in "aaa" gives 2 hits for both nested loops, because the scan resumes at `i + 1` |
| `Scenarios.AlternatingExample` | examples/simplegrep.c:214-230 | "aba" in "abababab" gives 3 overlapping hits |
| `Occurrences.FirstByte` | examples/simplegrep.c:274 | the byte read as `pattern[0]` is NUL exactly when the pattern is empty |
| `Occurrences.OccIsCardinality` | examples/simplegrep.c:214-227 | the running count of matching offsets equals the size of the set of offsets `i <= length - plen` where `inputData[i..i+plen) == pattern` |
| `Occurrences.NoMatchesPast` | examples/simplegrep.c:214 | stopping the outer loop at `length - plen + 1` loses no occurrence |
| `Occurrences.OccurrenceCounted` | examples/simplegrep.c:250-254 | a full match at any offset makes the occurrence count at least 1, so a pattern with no occurrence never reaches the lane increment |
| `Occurrences.ScanHitsBound` | examples/simplegrep.c:214-219 | a pattern longer than the buffer gives no hit; otherwise there are at most `length - plen + 1` hits |
| `Occurrences.MismatchRulesOut` | examples/simplegrep.c:219-222 | one unequal byte rules out an occurrence at that offset, so the `break` loses no hit |
| `Occurrences.PrefixComplete` | examples/simplegrep.c:223-227 | reaching the last pattern byte with all bytes equal means an occurrence |
| `Occurrences.SingleBytePattern` | examples/simplegrep.c:272-278 | for a one-byte pattern the nested-loop count equals the first-byte count |
| `Occurrences.FirstByteOverApproximates` | examples/simplegrep.c:272-278 | every occurrence starts with `pattern[0]`, so the first-byte count is at least the number of occurrences |
| `CArith.SizeSub` | examples/simplegrep.c:214 | `size_t` subtraction: exact when no underflow, otherwise the difference plus 2^64 |
| `CArith.OuterLimit` | examples/simplegrep.c:214 | `length - (plen - 1)` equals `length + 1 - plen` when `plen <= length + 1` and exceeds `length` otherwise |
| `CArith.ToChar` | examples/simplegrep.c:263 | the value of a `char` lane lies in [-128, 127] and equals the count whenever the count fits |
| `CArith.ToCharCongruent` | examples/simplegrep.c:263 | the `char` value differs from the count by a multiple of 256 |
| `CArith.CharInc` | examples/simplegrep.c:254 | `tmpHint[j]++` on a signed `char` is the wrapped successor |
| `CArith.ToCharStep` | examples/simplegrep.c:254 | a lane incremented once more holds the next wrapped count, so after `n` increments from 0 it holds `ToChar(n)` |

## Left out

- `readInputData` (examples/simplegrep.c:86-151) is not modelled. It does file
  I/O and `malloc`, and it clips the length to `UINT_MAX`. The model takes the
  buffer and its length as given, with `length <= UINT_MAX`.
- `hyperScanMethod` (examples/simplegrep.c:153-207) is not modelled. It wraps
  the external Hyperscan library (`hs_compile`, `hs_alloc_scratch`,
  `hs_scan`, `hs_free_*`), whose code is not part of this model. Only its
  callbacks enter the model, as the parameter `engineEnds` of `RunTest`.
- `main`'s argument count check, its `access` checks, its `gettimeofday`
  timing, the millisecond arithmetic in `double` and the `printf` report are
  left out. They are I/O, clocks and floating point.
- `#pragma ivdep`, `omp simd` and the `likely`/`unlikely` macros are left out
  because they are compiler hints with no effect on the result.
- Patterns longer than `length + 1` are excluded by precondition from the
  nested loops, since they make the loop read out of bounds. Patterns longer
  than 16 that occur in the buffer are excluded from `myBMScanMethod`, since
  their first hit writes past `tmpHint`.
- SimpleGrep.Grep.EventHandler: does not model the 32-bit `int` overflow of
  `gsHint`, which is undefined behaviour in C. The counter is an unbounded
  integer.
- SimpleGrep.Grep.MyBMScanMethod: models `char` as signed (two's complement).
  On a target where `char` is unsigned, the lane wraps modulo 256 into
  [0, 255] instead.
