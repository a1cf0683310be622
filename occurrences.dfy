/** Exact occurrences of a byte pattern in a byte buffer: the quantities that
    the hand-written scan strategies of simplegrep are specified against. */
module Occurrences {

  /** A byte of the input file or of the pattern. The strategies only compare
      bytes for equality, so the signedness of C's `char` does not matter here. */
  type Byte = bv8

  /** The pattern is a C string: the model holds the bytes before its NUL terminator. */
  predicate NulFree(p: seq<Byte>) {
    forall k :: 0 <= k < |p| ==> p[k] != 0
  }

  /** The byte that `pattern[0]` reads: the first byte, or the terminating NUL
      of an empty string. */
  function FirstByte(p: seq<Byte>): (b: Byte)
    requires NulFree(p)
    ensures b == 0 <==> |p| == 0
  {
    if |p| > 0 then p[0] else 0
  }

  /** `pat` occurs in `buf` starting at offset `i`. */
  predicate MatchesAt(buf: seq<Byte>, pat: seq<Byte>, i: nat) {
    i + |pat| <= |buf| && buf[i..i + |pat|] == pat
  }

  /** The first `j` bytes of `pat` match `buf` at offset `i`. */
  ghost predicate PrefixMatchesAt(buf: seq<Byte>, pat: seq<Byte>, i: nat, j: nat) {
    j <= |pat| && i + j <= |buf| && forall k :: 0 <= k < j ==> buf[i + k] == pat[k]
  }

  /** One more equal byte extends a matching prefix. */
  lemma PrefixExtend(buf: seq<Byte>, pat: seq<Byte>, i: nat, j: nat)
    requires PrefixMatchesAt(buf, pat, i, j)
    requires j < |pat| && i + j < |buf| && buf[i + j] == pat[j]
    ensures PrefixMatchesAt(buf, pat, i, j + 1)
  {
  }

  /** A prefix as long as the pattern is an occurrence. */
  lemma PrefixComplete(buf: seq<Byte>, pat: seq<Byte>, i: nat)
    requires PrefixMatchesAt(buf, pat, i, |pat|)
    ensures MatchesAt(buf, pat, i)
  {
  }

  /** One unequal byte rules out an occurrence at that offset. */
  lemma MismatchRulesOut(buf: seq<Byte>, pat: seq<Byte>, i: nat, j: nat)
    requires j < |pat| && i + j < |buf| && buf[i + j] != pat[j]
    ensures !MatchesAt(buf, pat, i)
  {
  }

  /** The number of offsets below `n` at which `pat` occurs. */
  function CountMatches(buf: seq<Byte>, pat: seq<Byte>, n: nat): nat {
    if n == 0 then 0
    else CountMatches(buf, pat, n - 1) + (if MatchesAt(buf, pat, n - 1) then 1 else 0)
  }

  /** The start offsets of all occurrences, overlapping ones included. */
  ghost function OccSet(buf: seq<Byte>, pat: seq<Byte>): set<int> {
    set i | 0 <= i <= |buf| - |pat| && MatchesAt(buf, pat, i)
  }

  /** The number of occurrences of `pat` in `buf`, overlapping ones included. */
  function Occ(buf: seq<Byte>, pat: seq<Byte>): nat {
    CountMatches(buf, pat, |buf| + 1)
  }

  /** What a nested-loop matcher counts: every occurrence of a non-empty
      pattern; an empty pattern yields no hit, because the inner loop never
      reaches its last byte. */
  function ScanHits(buf: seq<Byte>, pat: seq<Byte>): nat {
    if |pat| == 0 then 0 else Occ(buf, pat)
  }

  /** The number of positions below `n` holding byte `b`. */
  function CountByte(buf: seq<Byte>, b: Byte, n: nat): nat
    requires n <= |buf|
  {
    if n == 0 then 0
    else CountByte(buf, b, n - 1) + (if buf[n - 1] == b then 1 else 0)
  }

  /** The number of positions of `buf` holding byte `b`. */
  function ByteCount(buf: seq<Byte>, b: Byte): nat {
    CountByte(buf, b, |buf|)
  }

  /** The start offsets below `n` at which `pat` occurs. */
  ghost function MatchesBelow(buf: seq<Byte>, pat: seq<Byte>, n: nat): set<int> {
    set i | 0 <= i < n && MatchesAt(buf, pat, i)
  }

  lemma {:induction false} CountMatchesIsCard(buf: seq<Byte>, pat: seq<Byte>, n: nat)
    ensures CountMatches(buf, pat, n) == |MatchesBelow(buf, pat, n)|
  {
    if n > 0 {
      CountMatchesIsCard(buf, pat, n - 1);
      if MatchesAt(buf, pat, n - 1) {
        assert MatchesBelow(buf, pat, n) == MatchesBelow(buf, pat, n - 1) + {n - 1};
        assert n - 1 !in MatchesBelow(buf, pat, n - 1);
      } else {
        assert MatchesBelow(buf, pat, n) == MatchesBelow(buf, pat, n - 1);
      }
    }
  }

  /** The running count agrees with the set of occurrence offsets. */
  lemma OccIsCardinality(buf: seq<Byte>, pat: seq<Byte>)
    ensures Occ(buf, pat) == |OccSet(buf, pat)|
  {
    CountMatchesIsCard(buf, pat, |buf| + 1);
    assert OccSet(buf, pat) == MatchesBelow(buf, pat, |buf| + 1);
  }

  /** No occurrence starts at or after `|buf| + 1 - |pat|`, so a count that
      has passed that offset is already the full count. */
  lemma {:induction false} NoMatchesPast(buf: seq<Byte>, pat: seq<Byte>, n: nat)
    requires |buf| + 1 - |pat| <= n <= |buf| + 1
    ensures CountMatches(buf, pat, n) == Occ(buf, pat)
    decreases |buf| + 1 - n
  {
    if n < |buf| + 1 {
      NoMatchesPast(buf, pat, n + 1);
      assert !MatchesAt(buf, pat, n);
    }
  }

  lemma {:induction false} CountMatchesMonotone(buf: seq<Byte>, pat: seq<Byte>, n: nat, m: nat)
    requires n <= m
    ensures CountMatches(buf, pat, n) <= CountMatches(buf, pat, m)
    decreases m - n
  {
    if n < m {
      CountMatchesMonotone(buf, pat, n, m - 1);
    }
  }

  /** An occurrence at any offset makes the total count positive. */
  lemma OccurrenceCounted(buf: seq<Byte>, pat: seq<Byte>, i: nat)
    requires MatchesAt(buf, pat, i)
    ensures Occ(buf, pat) >= 1
  {
    CountMatchesMonotone(buf, pat, i + 1, |buf| + 1);
  }

  lemma {:induction false} CountMatchesAtMost(buf: seq<Byte>, pat: seq<Byte>, n: nat)
    ensures CountMatches(buf, pat, n) <= n
  {
    if n > 0 {
      CountMatchesAtMost(buf, pat, n - 1);
    }
  }

  /** There are at most `|buf| - |pat| + 1` hits, and none when the pattern is
      longer than the buffer. */
  lemma ScanHitsBound(buf: seq<Byte>, pat: seq<Byte>)
    ensures |pat| > |buf| ==> ScanHits(buf, pat) == 0
    ensures |pat| <= |buf| ==> ScanHits(buf, pat) <= |buf| - |pat| + 1
  {
    if |pat| > |buf| {
      NoMatchesPast(buf, pat, 0);
    } else {
      NoMatchesPast(buf, pat, |buf| + 1 - |pat|);
      CountMatchesAtMost(buf, pat, |buf| + 1 - |pat|);
    }
  }

  lemma {:induction false} CountMatchesSingle(buf: seq<Byte>, pat: seq<Byte>, n: nat)
    requires |pat| == 1 && n <= |buf|
    ensures CountMatches(buf, pat, n) == CountByte(buf, pat[0], n)
  {
    if n > 0 {
      CountMatchesSingle(buf, pat, n - 1);
      assert buf[n - 1..n] == [buf[n - 1]];
      assert MatchesAt(buf, pat, n - 1) <==> buf[n - 1] == pat[0];
    }
  }

  /** For a one-byte pattern a full match is a first-byte match. */
  lemma SingleBytePattern(buf: seq<Byte>, pat: seq<Byte>)
    requires |pat| == 1
    ensures ScanHits(buf, pat) == ByteCount(buf, pat[0])
  {
    CountMatchesSingle(buf, pat, |buf|);
    assert !MatchesAt(buf, pat, |buf|);
  }

  lemma {:induction false} CountMatchesAtMostFirstByte(buf: seq<Byte>, pat: seq<Byte>, n: nat)
    requires |pat| > 0 && n <= |buf|
    ensures CountMatches(buf, pat, n) <= CountByte(buf, pat[0], n)
  {
    if n > 0 {
      CountMatchesAtMostFirstByte(buf, pat, n - 1);
      if MatchesAt(buf, pat, n - 1) {
        assert buf[n - 1] == buf[n - 1..n - 1 + |pat|][0];
      }
    }
  }

  /** Every occurrence starts with the pattern's first byte, so the first-byte
      count is never below the number of true occurrences. */
  lemma FirstByteOverApproximates(buf: seq<Byte>, pat: seq<Byte>)
    requires NulFree(pat)
    ensures ScanHits(buf, pat) <= ByteCount(buf, FirstByte(pat))
  {
    if |pat| > 0 {
      CountMatchesAtMostFirstByte(buf, pat, |buf|);
      assert !MatchesAt(buf, pat, |buf|);
    }
  }

  lemma {:induction false} UniformCount(buf: seq<Byte>, b: Byte, n: nat)
    requires n <= |buf|
    requires forall k :: 0 <= k < |buf| ==> buf[k] == b
    ensures CountByte(buf, b, n) == n
  {
    if n > 0 {
      UniformCount(buf, b, n - 1);
    }
  }
}
