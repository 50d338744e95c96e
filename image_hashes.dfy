/** A perceptual hash as the `imagehash` library hands it back: a grid of
    bits (a boolean matrix), compared by counting differing bits.  How the
    grid is computed from the pixels (DCT for pHash, wavelets for wHash) is
    not modelled: the grid is an input. */
module ImageHashes {

  import opened Wrappers

  /** The `hash` attribute of an `ImageHash`: a list of rows of bits. */
  datatype ImageHash = ImageHash(grid: seq<seq<bool>>)

  /** The bits of a grid in row-major order (`hash.flatten()`). */
  function Flatten(grid: seq<seq<bool>>): seq<bool> {
    if |grid| == 0 then [] else grid[0] + Flatten(grid[1..])
  }

  function Bits(h: ImageHash): seq<bool> {
    Flatten(h.grid)
  }

  /** `len(hash.hash)`: the number of rows of the grid. */
  function RowCount(h: ImageHash): nat {
    |h.grid|
  }

  /** Every row of the grid has `n` bits and there are `n` rows: the shape
      of a default 8x8 pHash or wHash when `n == 8`. */
  predicate IsSquare(h: ImageHash, n: nat) {
    |h.grid| == n && forall i :: 0 <= i < n ==> |h.grid[i]| == n
  }

  /** A grid of rows that all have `n` bits holds `rows * n` bits. */
  lemma {:induction false} FlattenLength(grid: seq<seq<bool>>, n: nat)
    requires forall i :: 0 <= i < |grid| ==> |grid[i]| == n
    ensures |Flatten(grid)| == |grid| * n
  {
    if |grid| > 0 {
      FlattenLength(grid[1..], n);
    }
  }

  lemma SquareSize(h: ImageHash, n: nat)
    requires IsSquare(h, n)
    ensures |Bits(h)| == n * n
  {
    FlattenLength(h.grid, n);
  }

  /** Number of positions at which two equal-length bit sequences differ
      (`numpy.count_nonzero(a != b)`). */
  function Hamming(a: seq<bool>, b: seq<bool>): (d: nat)
    requires |a| == |b|
    ensures d <= |a|
    ensures d == 0 <==> a == b
  {
    if |a| == 0 then 0
    else (if a[0] != b[0] then 1 else 0) + Hamming(a[1..], b[1..])
  }

  /** `hash1 - hash2`: a `TypeError` (here `None`) unless both hashes hold
      the same number of bits, otherwise their Hamming distance. */
  function Difference(h1: ImageHash, h2: ImageHash): (r: Option<nat>)
    ensures r.None? <==> |Bits(h1)| != |Bits(h2)|
    ensures r.Some? ==> r.value <= |Bits(h1)|
    ensures r.Some? ==> (r.value == 0 <==> Bits(h1) == Bits(h2))
  {
    if |Bits(h1)| != |Bits(h2)| then None else Some(Hamming(Bits(h1), Bits(h2)))
  }

  lemma {:induction false} HammingSymmetric(a: seq<bool>, b: seq<bool>)
    requires |a| == |b|
    ensures Hamming(a, b) == Hamming(b, a)
  {
    if |a| > 0 {
      HammingSymmetric(a[1..], b[1..]);
    }
  }

  lemma DifferenceSymmetric(h1: ImageHash, h2: ImageHash)
    ensures Difference(h1, h2) == Difference(h2, h1)
  {
    if |Bits(h1)| == |Bits(h2)| {
      HammingSymmetric(Bits(h1), Bits(h2));
    }
  }

  /** `a` with the bits selected by `mask` inverted. */
  function Flip(a: seq<bool>, mask: seq<bool>): (r: seq<bool>)
    requires |a| == |mask|
    ensures |r| == |a|
    ensures forall i :: 0 <= i < |a| ==> (r[i] != a[i] <==> mask[i])
  {
    seq(|a|, i requires 0 <= i < |a| => a[i] != mask[i])
  }

  /** Number of set bits. */
  function Ones(mask: seq<bool>): (k: nat)
    ensures k <= |mask|
  {
    if |mask| == 0 then 0 else (if mask[0] then 1 else 0) + Ones(mask[1..])
  }

  /** Flipping exactly the bits of a mask moves a hash by as many bits as
      the mask selects. */
  lemma {:induction false} HammingOfFlip(a: seq<bool>, mask: seq<bool>)
    requires |a| == |mask|
    ensures Hamming(a, Flip(a, mask)) == Ones(mask)
  {
    if |a| > 0 {
      assert Flip(a, mask)[1..] == Flip(a[1..], mask[1..]);
      HammingOfFlip(a[1..], mask[1..]);
    }
  }

  /** Flipping every bit gives the largest possible distance. */
  lemma {:induction false} HammingOfComplement(a: seq<bool>, b: seq<bool>)
    requires |a| == |b|
    requires forall i :: 0 <= i < |a| ==> a[i] != b[i]
    ensures Hamming(a, b) == |a|
  {
    if |a| > 0 {
      HammingOfComplement(a[1..], b[1..]);
    }
  }

  /** A mask that selects at least the bits of another never yields the
      smaller distance. */
  lemma {:induction false} OnesMonotone(m1: seq<bool>, m2: seq<bool>)
    requires |m1| == |m2|
    requires forall i :: 0 <= i < |m1| && m1[i] ==> m2[i]
    ensures Ones(m1) <= Ones(m2)
  {
    if |m1| > 0 {
      OnesMonotone(m1[1..], m2[1..]);
    }
  }
}
