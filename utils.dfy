/** `compare_faces` of utils.py: pHash fingerprints, a score of
    `1 - d / 64` and an inclusive threshold of 0.75 by default.  Opening
    and hashing each image is an input: `None` stands for an exception
    raised while doing so. */
module Utils {

  import opened Wrappers
  import opened ImageHashes
  import opened Scoring

  /** The default `threshold` of `compare_faces`. */
  const DEFAULT_THRESHOLD: real := 0.75

  /** The divisor written into the score: the 64 bits of a default pHash. */
  const PHASH_BITS: nat := 64

  /** Score of a pHash difference. */
  function PHashSimilarity(d: nat): (s: real)
    ensures d <= PHASH_BITS ==> 0.0 <= s <= 1.0
    ensures s == 1.0 <==> d == 0
    ensures s == 0.0 <==> d == PHASH_BITS
  {
    NormalizedSimilarity(d, PHASH_BITS)
  }

  /** The body of the `try` block up to the score: `None` when either image
      could not be hashed or the two hashes differ in size. */
  function ScorePHash(h1: Option<ImageHash>, h2: Option<ImageHash>): (r: Option<real>)
    ensures r.Some? <==> h1.Some? && h2.Some? && |Bits(h1.value)| == |Bits(h2.value)|
    ensures r.Some? ==> (r.value == 1.0 <==> Bits(h1.value) == Bits(h2.value))
    ensures r.Some? && |Bits(h1.value)| == PHASH_BITS ==> 0.0 <= r.value <= 1.0
  {
    if h1.None? || h2.None? then None
    else
      match Difference(h1.value, h2.value)
      case None => None
      case Some(d) => Some(PHashSimilarity(d))
  }

  /** `compare_faces(img1, img2, threshold)`: the pair `(match, similarity)`;
      `(False, 0.0)` after any exception. */
  function CompareFaces(h1: Option<ImageHash>, h2: Option<ImageHash>, threshold: real): (c: Comparison)
    ensures c.isMatch <==> ScorePHash(h1, h2).Some? && ScorePHash(h1, h2).value >= threshold
    ensures ScorePHash(h1, h2).None? ==> c == Comparison(false, 0.0)
    ensures ScorePHash(h1, h2).Some? ==> c.similarity == ScorePHash(h1, h2).value
  {
    Conclude(ScorePHash(h1, h2), threshold)
  }

  /** Swapping the two images changes neither the score nor the verdict. */
  lemma CompareFacesSymmetric(h1: Option<ImageHash>, h2: Option<ImageHash>, threshold: real)
    ensures CompareFaces(h1, h2, threshold) == CompareFaces(h2, h1, threshold)
  {
    if h1.Some? && h2.Some? {
      DifferenceSymmetric(h1.value, h2.value);
    }
  }

  /** Two default 8x8 pHashes score between 0 and 1. */
  lemma DefaultHashInRange(h1: ImageHash, h2: ImageHash)
    requires IsSquare(h1, 8) && IsSquare(h2, 8)
    ensures ScorePHash(Some(h1), Some(h2)).Some?
    ensures 0.0 <= ScorePHash(Some(h1), Some(h2)).value <= 1.0
  {
    SquareSize(h1, 8);
    SquareSize(h2, 8);
  }

  /** An image compared with its own hash scores exactly 1.0 and matches
      for every threshold up to 1. */
  lemma IdenticalHashesMatch(h: ImageHash, threshold: real)
    requires threshold <= 1.0
    ensures CompareFaces(Some(h), Some(h), threshold) == Comparison(true, 1.0)
  {
  }

  /** Hashes that differ in all 64 bits score exactly 0.0. */
  lemma OppositeHashesScoreZero(h1: ImageHash, h2: ImageHash)
    requires |Bits(h1)| == PHASH_BITS && |Bits(h2)| == PHASH_BITS
    requires forall i :: 0 <= i < PHASH_BITS ==> Bits(h1)[i] != Bits(h2)[i]
    ensures ScorePHash(Some(h1), Some(h2)) == Some(0.0)
  {
    HammingOfComplement(Bits(h1), Bits(h2));
  }

  /** Flipping more bits of a hash never raises its score against the
      original. */
  lemma MoreFlipsNeverScoreHigher(h: ImageHash, m1: seq<bool>, m2: seq<bool>)
    requires |m1| == |Bits(h)| && |m2| == |Bits(h)|
    requires forall i :: 0 <= i < |m1| && m1[i] ==> m2[i]
    ensures PHashSimilarity(Hamming(Bits(h), Flip(Bits(h), m2)))
      <= PHashSimilarity(Hamming(Bits(h), Flip(Bits(h), m1)))
  {
    HammingOfFlip(Bits(h), m1);
    HammingOfFlip(Bits(h), m2);
    OnesMonotone(m1, m2);
    SimilarityAntitone(Ones(m1), Ones(m2), PHASH_BITS);
  }

  /** At the default threshold two equal-size hashes match exactly when at
      most 16 of their bits differ; a score of exactly 0.75 passes. */
  lemma DefaultThresholdDecision(h1: ImageHash, h2: ImageHash)
    requires |Bits(h1)| == |Bits(h2)|
    ensures CompareFaces(Some(h1), Some(h2), DEFAULT_THRESHOLD).isMatch
      <==> Hamming(Bits(h1), Bits(h2)) <= 16
  {
  }
}
