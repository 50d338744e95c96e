/** app/streamlit_app.py: wHash comparison normalised by the square of the
    hash's row count, the first-face box, and the `resultado` record that
    one press of "Processar" assembles.  The OCR texts, the detection
    response and the outcome of hashing each image are inputs. */
module StreamlitApp {

  import opened Wrappers
  import opened ImageHashes
  import opened Scoring
  import opened FaceRegion
  import opened TextMatch

  /** The default `threshold` of `compare_faces`. */
  const DEFAULT_THRESHOLD: real := 0.7

  /** The threshold the page passes to `compare_faces`. */
  const PAGE_THRESHOLD: real := 0.7

  /** The identity string looked for in the proof of address. */
  const EXPECTED_NAME: string := "LUIZ ANTONIO DE OLIVEIRA"

  /** Score of a wHash difference over a hash of `rows` rows. */
  function WHashSimilarity(d: nat, rows: nat): (s: real)
    requires rows > 0
    ensures d <= rows * rows ==> 0.0 <= s <= 1.0
    ensures s == 1.0 <==> d == 0
    ensures s == 0.0 <==> d == rows * rows
  {
    NormalizedSimilarity(d, rows * rows)
  }

  /** The body of the `try` block up to the score: `None` when either image
      could not be opened, converted, resized or hashed, when the hashes
      differ in size, and on the division by zero of a hash without rows. */
  function ScoreWHash(h1: Option<ImageHash>, h2: Option<ImageHash>): (r: Option<real>)
    ensures r.Some? <==> h1.Some? && h2.Some? && |Bits(h1.value)| == |Bits(h2.value)|
                         && RowCount(h1.value) > 0
    ensures r.Some? ==> (r.value == 1.0 <==> Bits(h1.value) == Bits(h2.value))
  {
    if h1.None? || h2.None? then None
    else
      match Difference(h1.value, h2.value)
      case None => None
      case Some(d) =>
        if RowCount(h1.value) == 0 then None
        else Some(WHashSimilarity(d, RowCount(h1.value)))
  }

  /** `compare_faces(img1, img2, threshold)`: the pair `(match, similarity)`;
      `(False, 0.0)` after any exception. */
  function CompareFaces(h1: Option<ImageHash>, h2: Option<ImageHash>, threshold: real): (c: Comparison)
    ensures c.isMatch <==> ScoreWHash(h1, h2).Some? && ScoreWHash(h1, h2).value >= threshold
    ensures ScoreWHash(h1, h2).None? ==> c == Comparison(false, 0.0)
    ensures ScoreWHash(h1, h2).Some? ==> c.similarity == ScoreWHash(h1, h2).value
  {
    Conclude(ScoreWHash(h1, h2), threshold)
  }

  /** A square n x n first hash against any hash of the same size scores
      between 0 and 1; for the default 8 x 8 wHash the divisor is 64. */
  lemma SquareHashInRange(h1: ImageHash, h2: ImageHash, n: nat)
    requires n > 0 && IsSquare(h1, n) && |Bits(h2)| == |Bits(h1)|
    ensures ScoreWHash(Some(h1), Some(h2)).Some?
    ensures 0.0 <= ScoreWHash(Some(h1), Some(h2)).value <= 1.0
    ensures n == 8 ==>
      ScoreWHash(Some(h1), Some(h2)).value == 1.0 - Hamming(Bits(h1), Bits(h2)) as real / 64.0
  {
    SquareSize(h1, n);
  }

  /** Swapping two hashes of the same shape changes neither the score nor
      the verdict.  (Only the first hash's row count is read, so hashes of
      equal size but different shape are not symmetric.) */
  lemma CompareFacesSymmetric(h1: ImageHash, h2: ImageHash, threshold: real)
    requires RowCount(h1) == RowCount(h2)
    ensures CompareFaces(Some(h1), Some(h2), threshold) == CompareFaces(Some(h2), Some(h1), threshold)
  {
    DifferenceSymmetric(h1, h2);
  }

  /** A hash compared with itself scores exactly 1.0 and matches for every
      threshold up to 1, unless the hash has no rows. */
  lemma IdenticalHashesMatch(h: ImageHash, threshold: real)
    requires RowCount(h) > 0 && threshold <= 1.0
    ensures CompareFaces(Some(h), Some(h), threshold) == Comparison(true, 1.0)
  {
  }

  /** On the default 8 x 8 wHash at 0.7, the pair matches exactly when at
      most 19 bits differ (a score of 0.703125); 20 differing bits give
      0.6875 and fail. */
  lemma DefaultThresholdDecision(h1: ImageHash, h2: ImageHash)
    requires IsSquare(h1, 8) && |Bits(h2)| == |Bits(h1)|
    ensures CompareFaces(Some(h1), Some(h2), DEFAULT_THRESHOLD).isMatch
      <==> Hamming(Bits(h1), Bits(h2)) <= 19
  {
  }

  /** `nome_valido`: the expected name occurs verbatim in the proof of
      address. */
  function NameValid(companionText: string): (ok: bool)
    ensures ok <==> exists i: nat :: OccursAt(EXPECTED_NAME, companionText, i)
    ensures companionText == "" ==> !ok
  {
    Contains(companionText, EXPECTED_NAME)
  }

  /** The name passes wherever it stands inside longer text. */
  lemma NameFoundInContext(before: string, after: string)
    ensures NameValid(before + EXPECTED_NAME + after)
  {
    var t := before + EXPECTED_NAME + after;
    assert OccursAt(EXPECTED_NAME, t, |before|);
  }

  /** Case matters: the lower-case spelling of the name fails. */
  lemma LowerCaseNameFails()
    ensures !NameValid("luiz antonio de oliveira")
  {
  }

  /** The `resultado` dictionary.  `similaridade` is kept unrounded. */
  datatype VerificationRecord = VerificationRecord(
    faceMatch: bool,
    similaridade: real,
    documentoExtraido: string,
    comprovanteExtraido: string,
    nomeValido: bool)

  /** The hash outcome of the second image given to `compare_faces`: the
      saved crop when a face was found; when none was, the path `"None"`,
      which cannot be opened. */
  function SecondImage(outcome: FaceOutcome, cropHash: Option<ImageHash>): (h: Option<ImageHash>)
    ensures outcome.Found? ==> h == cropHash
    ensures !outcome.Found? ==> h.None?
  {
    if outcome.Found? then cropHash else None
  }

  /** One run of the page after "Processar".  `cropSaved` says whether
      opening the document image, cropping it to the box and saving the
      crop succeeded (an empty crop, an image mode JPEG cannot store or an
      unreadable file raise there).  `None` when an uncaught exception
      stops the script: the `ValueError` of an empty first polygon, or a
      failure of that open/crop/save step; otherwise the record. */
  function Process(docText: string, compText: string, faces: seq<FaceAnnotation>, cropSaved: bool,
                   selfieHash: Option<ImageHash>, cropHash: Option<ImageHash>): (r: Option<VerificationRecord>)
    ensures r.None? <==> ExtractFaceBox(faces).EmptyPolygon? || (ExtractFaceBox(faces).Found? && !cropSaved)
    ensures r.Some? ==> r.value.documentoExtraido == docText && r.value.comprovanteExtraido == compText
    ensures r.Some? ==> (r.value.nomeValido <==> exists i: nat :: OccursAt(EXPECTED_NAME, compText, i))
    ensures r.Some? ==> var c := CompareFaces(selfieHash, SecondImage(ExtractFaceBox(faces), cropHash), PAGE_THRESHOLD);
      r.value.faceMatch == c.isMatch && r.value.similaridade == c.similarity
  {
    var outcome := ExtractFaceBox(faces);
    if outcome.EmptyPolygon? || (outcome.Found? && !cropSaved) then None
    else
      var c := CompareFaces(selfieHash, SecondImage(outcome, cropHash), PAGE_THRESHOLD);
      Some(VerificationRecord(c.isMatch, c.similarity, docText, compText, NameValid(compText)))
  }

  /** No detected face never becomes a match: the image is never opened
      for cropping, and the record says `face_match = False`,
      `similaridade = 0.0`. */
  lemma NoFaceNeverMatches(docText: string, compText: string, cropSaved: bool,
                           selfieHash: Option<ImageHash>, cropHash: Option<ImageHash>)
    ensures Process(docText, compText, [], cropSaved, selfieHash, cropHash).Some?
    ensures var r := Process(docText, compText, [], cropSaved, selfieHash, cropHash).value;
      !r.faceMatch && r.similaridade == 0.0
  {
  }

  /** A selfie whose hash equals the crop's, once the crop is saved, gives `face_match = True` with
      similarity 1.0. */
  lemma IdenticalSelfieMatches(docText: string, compText: string, faces: seq<FaceAnnotation>, h: ImageHash)
    requires |faces| > 0 && |faces[0].vertices| > 0 && RowCount(h) > 0
    ensures Process(docText, compText, faces, true, Some(h), Some(h)).Some?
    ensures var r := Process(docText, compText, faces, true, Some(h), Some(h)).value;
      r.faceMatch && r.similaridade == 1.0
  {
  }

  /** Two distinct 8 x 8 hashes: the score lies in [0, 1), so a mismatch is
      never reported as a perfect score and never out of range. */
  lemma DistinctSelfieInRange(docText: string, compText: string, faces: seq<FaceAnnotation>,
                              selfie: ImageHash, crop: ImageHash)
    requires |faces| > 0 && |faces[0].vertices| > 0
    requires IsSquare(selfie, 8) && IsSquare(crop, 8) && Bits(selfie) != Bits(crop)
    ensures Process(docText, compText, faces, true, Some(selfie), Some(crop)).Some?
    ensures var r := Process(docText, compText, faces, true, Some(selfie), Some(crop)).value;
      0.0 <= r.similaridade < 1.0
  {
    SquareSize(selfie, 8);
    SquareSize(crop, 8);
    SquareHashInRange(selfie, crop, 8);
  }
}
