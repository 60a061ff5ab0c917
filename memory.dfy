/** Raw sample buffers and the element-wise copy that `memcpy` performs on them. */
module Memory {

  /** One irradiance sample (a 32-bit float in the program). Samples are only
      stored and copied, never computed on, so a `real` stands for the stored
      value and equality of samples means bit-identical storage. */
  type Sample = real

  /** The buffer `dst` after the first `n` samples of `src` have been copied over
      its first `n` samples, one element at a time: the specification of `Memcpy`. */
  function CopyPrefix(dst: seq<Sample>, src: seq<Sample>, n: nat): (r: seq<Sample>)
    requires n <= |dst| && n <= |src|
    ensures |r| == |dst|
    ensures forall i :: 0 <= i < n ==> r[i] == src[i]
    ensures forall i :: n <= i < |dst| ==> r[i] == dst[i]
    decreases n
  {
    if n == 0 then dst else CopyPrefix(dst, src, n - 1)[n - 1 := src[n - 1]]
  }

  /** Copying a whole buffer over one of the same length yields the source. */
  lemma CopyPrefixWhole(dst: seq<Sample>, src: seq<Sample>)
    requires |dst| == |src|
    ensures CopyPrefix(dst, src, |src|) == src
  {
  }

  /** `memcpy(dst, src, n * sizeof(float))`: copies the first `n` samples of `src`
      into `dst`. The two buffers must not overlap, as `memcpy` demands. */
  method Memcpy(dst: array<Sample>, src: array<Sample>, n: nat)
    requires n <= dst.Length && n <= src.Length
    requires dst != src
    modifies dst
    ensures dst[..] == CopyPrefix(old(dst[..]), src[..], n)
  {
    var i := 0;
    while i < n
      invariant 0 <= i <= n
      invariant dst[..] == CopyPrefix(old(dst[..]), src[..], i)
    {
      dst[i] := src[i];
      i := i + 1;
    }
  }
}
