/**
 The stitch count shown under the row count: a knitting pattern that starts
 at 6 stitches and gains one stitch every ten rows, starting on row 1.
 */
module Stitches {
  import opened PyInt

  /** `stitch_count(rows) = 6 + int((9 + rows) / 10)`: 6 stitches up to
      row 0 (and down to row -18, where truncation holds the quotient at 0),
      more from row 1 on. */
  function StitchCount(rows: int): (s: int)
    ensures s == 6 <==> -19 < rows <= 0
    ensures s > 6 <==> rows >= 1
  {
    6 + TruncDiv(9 + rows, 10)
  }

  /** For a non-negative row count: one more stitch for each started block
      of ten rows after row 0, i.e. `6 + (rows + 9) div 10`. */
  lemma StitchCountBlocks(rows: int)
    requires rows >= 0
    ensures var s := StitchCount(rows);
      && s == 6 + (rows + 9) / 10
      && 10 * (s - 6) <= rows + 9 < 10 * (s - 5)
  {
  }

  /** More rows never means fewer stitches, negative counts included. */
  lemma StitchCountMonotone(r1: int, r2: int)
    requires r1 <= r2
    ensures StitchCount(r1) <= StitchCount(r2)
  {
    TruncDivMonotone(9 + r1, 9 + r2, 10);
  }

  /** Ten more rows add exactly one stitch once the dividend is non-negative. */
  lemma StitchCountPerTenRows(rows: int)
    requires rows >= -9
    ensures StitchCount(rows + 10) == StitchCount(rows) + 1
  {
    assert (9 + rows + 10) / 10 == (9 + rows) / 10 + 1;
  }

  lemma StitchCountSamples()
    ensures StitchCount(0) == 6 && StitchCount(1) == 7 && StitchCount(10) == 7
    ensures StitchCount(11) == 8 && StitchCount(41) == 11 && StitchCount(91) == 16
  {
  }

  /** A negative row count (reachable by holding the increment button) is
      truncated toward zero, not floored: -10 rows gives 6 stitches, where
      floored division, `6 + (9 + -10) / 10` in Dafny, would give 5. */
  lemma StitchCountNegative()
    ensures StitchCount(-10) == 6
    ensures StitchCount(-20) == 5
  {
  }
}
