# Face-match decision core of an identity-document check

This project models the decision arithmetic of a small identity-document verifier. The verifier uses a cloud service to find a face on a driving licence and to read the text of a proof of address. It compares the licence face with a selfie through perceptual hashes, and it checks that a fixed name appears in the proof of address. Two routines named `compare_faces` are modelled:

- utils.py's version uses a pHash. It scores `1 - d/64` and passes at 0.75 by default.
- app/streamlit_app.py's version uses a wHash. It scores `1 - d/rows²` and passes at 0.7.

Each routine returns `(False, 0.0)` after any exception. The project also models:

- the bounding box of the first detected face in `extract_face_and_save`;
- the `nome_valido` substring test;
- the `resultado` record that the Streamlit page assembles.

Modules, one per concept:

- `Wrappers`: the `Option` datatype.
- `ImageHashes`: the boolean grid that `imagehash` returns, its row-major bits, Hamming distance, and hash subtraction (`hash1 - hash2`).
- `Scoring`: the normalised score, the inclusive decision `similarity >= threshold`, and the `(match, similarity)` pair with its `(False, 0.0)` fallback.
- `FaceRegion`: the detection response as a value, and the unclamped min/max box of `faces[0]`.
- `TextMatch`: Python's `needle in haystack` on strings, proved equal to "occurs at some position".
- `Utils`: utils.py.
- `StreamlitApp`: app/streamlit_app.py.

Inputs in place of side effects:

- Opening and hashing an image is an input `Option<ImageHash>`. `None` stands for any exception raised by `Image.open`, `convert`, `resize`, `phash` or `whash`.
- The OCR texts are input strings.
- The face detection response is an input sequence of `FaceAnnotation`s.

Behaviour of the code worth knowing, which the model keeps:

- The box is not clamped to the image bounds (utils.py:61). `FaceRegion.NoClampingExample` shows that the polygon (-10,-10),(110,110) keeps its out-of-range corners.
- The app divides by the square of the first hash's row count (app/streamlit_app.py:53), which is the bit count for square hashes (`StreamlitApp.SquareHashInRange`).
- A size mismatch between the two hashes raises `TypeError`, which is caught and gives `(False, 0.0)`.
- No reason is recorded for a missing face. On the page, a missing face makes `extract_face_and_save` return `None`. `compare_faces` is then handed the path `"None"`, fails to open it and returns `(False, 0.0)`. The model assumes that no file named `None` exists in the working directory.
- An empty vertex list on the first face makes `min` raise `ValueError`. Neither file catches it, so the model gives it its own outcome (`FaceRegion.EmptyPolygon`). `StreamlitApp.Process` then yields no record: the script stops. Opening, cropping and saving the document image (app/streamlit_app.py:38-40) are not inside a `try` either; their success is the input `cropSaved`, and when it is false no record is produced.

Hash subtraction belongs to the `imagehash` library, which is not part of this model. It is modelled as a `TypeError` unless both hashes hold the same number of bits, and as the count of differing row-major bits otherwise.

## Model

| member | source | states |
|---|---|---|
| ImageHashes.Hamming | utils.py:85 | the distance is at most the bit length, and it is 0 exactly when the two bit sequences are equal |
| ImageHashes.Difference | utils.py:85 | subtraction fails exactly when the sizes differ; otherwise the distance is bounded by the size and is 0 iff the bits are equal |
| ImageHashes.HammingSymmetric | utils.py:85 | the Hamming distance does not depend on operand order |
| ImageHashes.DifferenceSymmetric | app/streamlit_app.py:52 | `hash1 - hash2 == hash2 - hash1`, failures included |
| ImageHashes.FlattenLength | app/streamlit_app.py:53 | a grid whose rows all have n bits flattens to rows·n bits |
| ImageHashes.SquareSize | app/streamlit_app.py:53 | an n×n hash holds n² bits, which is the divisor `len(hash.hash) ** 2` |
| ImageHashes.HammingOfFlip | utils.py:85-86 | flipping the bits selected by a mask moves a hash by exactly the number of selected bits |
| ImageHashes.HammingOfComplement | utils.py:85-86 | hashes that differ in every bit are at the maximal distance, their length |
| ImageHashes.OnesMonotone | utils.py:85-86 | a mask that selects a superset of bits selects at least as many bits |
| Scoring.NormalizedSimilarity | utils.py:86 | for d ≤ bits the score lies in [0, 1]; it is 1.0 iff d = 0 and 0.0 iff all bits differ; score·bits = bits − d |
| Scoring.SimilarityAntitone | utils.py:86 | a larger distance never gives a larger score |
| Scoring.Conclude | utils.py:88-93 | match iff a score exists and is ≥ the threshold (equality passes); a failure gives exactly (False, 0.0) |
| Utils.PHashSimilarity | utils.py:86 | `1 - d/64` lies in [0, 1] for d ≤ 64, is 1.0 iff d = 0 and 0.0 iff d = 64 |
| Utils.ScorePHash | utils.py:82-86 | a score exists iff both images were hashed and the sizes agree; it is 1.0 iff the hashes are equal; it lies in [0, 1] for 64-bit hashes |
| Utils.CompareFaces | utils.py:68-93 | match iff the score exists and is ≥ the threshold; any failure returns (False, 0.0); otherwise the returned similarity is the score |
| Utils.CompareFacesSymmetric | utils.py:83-86 | swapping selfie and licence face changes neither verdict nor score |
| Utils.DefaultHashInRange | utils.py:80-86 | two default 8×8 pHashes always yield a score in [0, 1] |
| Utils.IdenticalHashesMatch | utils.py:85-89 | identical hashes give (True, 1.0) for any threshold ≤ 1 |
| Utils.OppositeHashesScoreZero | utils.py:85-86 | 64-bit hashes that differ in every bit score exactly 0.0 |
| Utils.MoreFlipsNeverScoreHigher | utils.py:85-86 | flipping a superset of bits of a hash never scores higher against the original |
| Utils.DefaultThresholdDecision | utils.py:68-88 | at the default 0.75, equal-size hashes match iff at most 16 bits differ |
| FaceRegion.Min | utils.py:56-57 | `min` returns an element of the sequence that is ≤ every element |
| FaceRegion.Max | utils.py:58-59 | `max` returns an element of the sequence that is ≥ every element |
| FaceRegion.BoxOf | utils.py:56-59 | every vertex lies inside the box, and each of the four bounds is attained by some vertex |
| FaceRegion.ExtractFaceBox | utils.py:50-59 | no faces gives NoFace (returns `None`); an empty first polygon gives the `ValueError` outcome; otherwise the box of `faces[0]` |
| FaceRegion.OnlyFirstFaceUsed | utils.py:55 | two detection responses with the same first face give the same result |
| FaceRegion.BoxIsTight | app/streamlit_app.py:30-36 | whenever a face is reported, every vertex of the first face lies within the box |
| FaceRegion.NoClampingExample | utils.py:61 | the box is not clamped: (-10,-10),(110,110) gives the box (-10,-10,110,110) |
| TextMatch.StartsWith | app/streamlit_app.py:122 | the prefix test holds iff the needle occurs at position 0 |
| TextMatch.Contains | app/streamlit_app.py:122 | `needle in hay` holds iff the needle occurs as a contiguous slice at some position (both directions) |
| TextMatch.EmptyNeedle | app/streamlit_app.py:122 | the empty string is contained in every text, as in Python |
| TextMatch.EmptyHaystack | app/streamlit_app.py:122 | a non-empty needle is never found in empty text |
| StreamlitApp.WHashSimilarity | app/streamlit_app.py:53 | `1 - d/rows²` lies in [0, 1] for d ≤ rows², is 1.0 iff d = 0 and 0.0 iff d = rows² |
| StreamlitApp.ScoreWHash | app/streamlit_app.py:47-53 | a score exists iff both images were hashed, the sizes agree and the first hash has rows (otherwise a division by zero is raised); it is 1.0 iff the hashes are equal |
| StreamlitApp.CompareFaces | app/streamlit_app.py:45-58 | match iff the score exists and is ≥ the threshold; any exception returns (False, 0.0) |
| StreamlitApp.SquareHashInRange | app/streamlit_app.py:50-53 | an n×n first hash against any hash of the same size scores in [0, 1]; for 8×8 the score is 1 − d/64 |
| StreamlitApp.CompareFacesSymmetric | app/streamlit_app.py:50-54 | for hashes with the same row count, swapping the images changes neither verdict nor score |
| StreamlitApp.IdenticalHashesMatch | app/streamlit_app.py:52-55 | a hash with at least one row, compared with itself, gives (True, 1.0) for any threshold ≤ 1 |
| StreamlitApp.DefaultThresholdDecision | app/streamlit_app.py:45-54 | for the default 8×8 wHash at 0.7, the pair matches iff at most 19 bits differ |
| StreamlitApp.NameValid | app/streamlit_app.py:122 | `nome_valido` holds iff "LUIZ ANTONIO DE OLIVEIRA" occurs contiguously in the proof-of-address text; empty text gives false |
| StreamlitApp.NameFoundInContext | app/streamlit_app.py:122 | the name passes whatever text surrounds it |
| StreamlitApp.LowerCaseNameFails | app/streamlit_app.py:122 | the check is case-sensitive: the lower-case spelling fails |
| StreamlitApp.SecondImage | app/streamlit_app.py:107-115 | the crop is compared when a face was found; otherwise the second image cannot be opened |
| StreamlitApp.Process | app/streamlit_app.py:100-123 | no record iff the first polygon is empty, or a face was found and opening, cropping or saving the document image failed; otherwise both texts are copied unchanged, `nome_valido` is the substring test, and `face_match`/`similaridade` are what `compare_faces(selfie, face, 0.7)` returns |
| StreamlitApp.NoFaceNeverMatches | app/streamlit_app.py:30-31 | with no detected face the record is produced with `face_match` false and similarity 0.0 |
| StreamlitApp.IdenticalSelfieMatches | app/streamlit_app.py:113-118 | when a face is found and the crop is saved, a selfie whose hash (with at least one row) equals the crop's gives `face_match` true and similarity 1.0 |
| StreamlitApp.DistinctSelfieInRange | app/streamlit_app.py:113-119 | distinct 8×8 hashes give a similarity in [0, 1), never negative and never a perfect score |

## Left out

- StreamlitApp.Process: `similaridade` is stored unrounded. `round(score, 3)` is floating-point presentation.
- The Google Vision calls (`extract_text`, `text_detection`, `face_detection`) and the credential setup are network and foreign-API code. Their results are inputs.
- Perceptual hashing itself (pHash's DCT, wHash's wavelets) and PIL's decode, greyscale, resize, crop and save are library code over floating-point pixels. Hashes are input bit grids. A failure to open or hash an image is the `None` input.
- Scores are exact reals, not IEEE doubles. For the default 64-bit hashes, `d/64` is exact in binary floating point. No multiple of 1/64 lies between 0.7 and the double nearest to 0.7, so the modelled verdicts agree with the program's.
- StreamlitApp.Process: why opening, cropping or saving the document image fails (an empty crop from a one-vertex or collinear polygon, an RGBA or palette PNG that cannot be written as JPEG, an unreadable file) is not modelled; that step's success is the input `cropSaved`, because PIL's image handling is left out.
- Console logging (the `print` calls at utils.py:51, utils.py:64, utils.py:92 and app/streamlit_app.py:57) is output only and is left out.
- The Streamlit user interface is left out: uploads, file writes, the "Processar" button and the success/error messages.
- main.py, src/test_cases.py, src/test_metrics.py and py/test_metrics.py are orchestration scripts that do file I/O, JSON/CSV output and printing. Their substring test and their re-applied inclusive 0.90 threshold are the same `TextMatch.Contains` and `Scoring.Conclude` modelled here.
- The sklearn metrics and the confusion-matrix plots in py/test_metrics.py are foreign numerics and plotting.
- src/face_utils.py wraps the face_recognition library's embeddings and float distances, so it is not part of this model.
- setup.py is packaging metadata.
