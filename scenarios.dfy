/** Two concrete inputs whose counts are proved (bytes written in hex:
    0x61 is 'a', 0x62 is 'b'). */
module Scenarios {
  import opened Occurrences
  import opened SimpleGrep

  /** "aa" occurs twice in "aaa": the scan resumes one byte after each start. */
  lemma OverlapExample()
    ensures ReportedHits(RookieScan, [0x61, 0x61, 0x61], [0x61, 0x61], []) == 2
    ensures ReportedHits(MyBMScan, [0x61, 0x61, 0x61], [0x61, 0x61], []) == 2
  {
    var buf: seq<Byte>, pat: seq<Byte> := [0x61, 0x61, 0x61], [0x61, 0x61];
    assert buf[0..2] == pat && buf[1..3] == pat;
    NoMatchesPast(buf, pat, 2);
  }

  /** "aba" occurs in "abababab" at offsets 0, 2 and 4, overlapping. */
  lemma AlternatingExample()
    ensures ReportedHits(RookieScan, [0x61, 0x62, 0x61, 0x62, 0x61, 0x62, 0x61, 0x62], [0x61, 0x62, 0x61], []) == 3
  {
    var buf: seq<Byte> := [0x61, 0x62, 0x61, 0x62, 0x61, 0x62, 0x61, 0x62];
    var pat: seq<Byte> := [0x61, 0x62, 0x61];
    assert buf[0..3] == pat && buf[2..5] == pat && buf[4..7] == pat;
    assert buf[1] != pat[0] && buf[3] != pat[0] && buf[5] != pat[0];
    NoMatchesPast(buf, pat, 6);
    assert CountMatches(buf, pat, 3) == 2;
  }
}
