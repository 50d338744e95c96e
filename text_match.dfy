/** Python's `needle in haystack` on strings: exact, case-sensitive,
    contiguous containment.  No normalisation of case, whitespace or
    diacritics takes place. */
module TextMatch {

  /** `needle` occurs at position `i` of `hay`. */
  predicate OccursAt(needle: string, hay: string, i: nat) {
    i + |needle| <= |hay| && hay[i..i + |needle|] == needle
  }

  /** `needle` is a prefix of `hay`, compared character by character. */
  function StartsWith(hay: string, needle: string): (r: bool)
    ensures r <==> OccursAt(needle, hay, 0)
  {
    if |needle| == 0 then true
    else if |hay| == 0 || hay[0] != needle[0] then false
    else StartsWith(hay[1..], needle[1..])
  }

  /** The search: try every start position from the left.  It succeeds
      exactly when the needle occurs somewhere. */
  function Contains(hay: string, needle: string): (r: bool)
    ensures r <==> exists i: nat :: OccursAt(needle, hay, i)
  {
    if |hay| == 0 then StartsWith(hay, needle)
    else
      assert (forall i: nat :: OccursAt(needle, hay[1..], i) ==> OccursAt(needle, hay, i + 1)) by {
        forall i: nat | OccursAt(needle, hay[1..], i)
          ensures OccursAt(needle, hay, i + 1)
        {
          TailSlice(hay, i, |needle|);
        }
      }
      assert (forall i: nat :: i > 0 && OccursAt(needle, hay, i) ==> OccursAt(needle, hay[1..], i - 1)) by {
        forall i: nat | i > 0 && OccursAt(needle, hay, i)
          ensures OccursAt(needle, hay[1..], i - 1)
        {
          TailSlice(hay, i - 1, |needle|);
        }
      }
      StartsWith(hay, needle) || Contains(hay[1..], needle)
  }

  lemma TailSlice(hay: string, i: nat, n: nat)
    requires |hay| > 0 && i + n < |hay|
    ensures hay[1..][i..i + n] == hay[i + 1..i + 1 + n]
  {
  }

  /** Python's `"" in s` is always true. */
  lemma EmptyNeedle(hay: string)
    ensures Contains(hay, "")
  {
  }

  /** A non-empty needle never occurs in the empty text. */
  lemma EmptyHaystack(needle: string)
    requires |needle| > 0
    ensures !Contains("", needle)
  {
  }
}
