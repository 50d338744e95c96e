/** Similarity of two hashes and the inclusive threshold decision shared
    by both `compare_faces` routines.  Scores are exact reals: both hashes
    hold 64 bits by default, so `d / 64` is exact in binary floating point
    too. */
module Scoring {

  import opened Wrappers

  /** `1 - d / bits`, the share of agreeing bits. */
  function NormalizedSimilarity(d: nat, bits: nat): (s: real)
    requires bits > 0
    ensures d <= bits ==> 0.0 <= s <= 1.0
    ensures s == 1.0 <==> d == 0
    ensures s == 0.0 <==> d == bits
    ensures s * bits as real == (bits - d) as real
  {
    1.0 - d as real / bits as real
  }

  /** A larger distance never gives a larger score. */
  lemma SimilarityAntitone(d1: nat, d2: nat, bits: nat)
    requires bits > 0 && d1 <= d2
    ensures NormalizedSimilarity(d2, bits) <= NormalizedSimilarity(d1, bits)
  {
    var b := bits as real;
    assert d2 as real / b - d1 as real / b == (d2 - d1) as real / b;
  }

  /** The `(match, similarity)` pair that `compare_faces` returns. */
  datatype Comparison = Comparison(isMatch: bool, similarity: real)

  /** What `compare_faces` returns for a score: a match when the score
      reaches the threshold, equality included; for an exception (`None`):
      `(False, 0.0)`. */
  function Conclude(score: Option<real>, threshold: real): (c: Comparison)
    ensures c.isMatch <==> score.Some? && score.value >= threshold
    ensures score.Some? ==> c.similarity == score.value
    ensures score.None? ==> c == Comparison(false, 0.0)
  {
    match score
    case Some(s) => Comparison(s >= threshold, s)
    case None => Comparison(false, 0.0)
  }
}
