/**
 * `MergeTensors.do_merge`: two batches of audio (batch x channels x samples) with
 * the same batch size and channel count are zero-padded to the longer sample
 * length and mixed with a volume per batch. Samples and volumes are integers here.
 */
module Merge {

  /** The node's output, or the `AssertionError` raised when the shapes do not match. */
  datatype MergeResult = Merged(mixed: array3<int>, sampleRate: int) | ShapeMismatch

  /** Sample `k` of channel `j` of item `i` of `t` once `t` is zero-padded along the sample axis. */
  function PaddedAt(t: array3<int>, i: nat, j: nat, k: nat): int
    reads t
    requires i < t.Length0 && j < t.Length1
  {
    if k < t.Length2 then t[i, j, k] else 0
  }

  /** Whether position `(a, b, c)` comes before `(i, j, k)` in the order the copy loops visit them. */
  predicate Before(a: nat, b: nat, c: nat, i: nat, j: nat, k: nat)
  {
    a < i || (a == i && b < j) || (a == i && b == j && c < k)
  }

  /**
   * `torch.zeros(t.size(0), t.size(1), n)` followed by `p[:, :, :t.size(2)] = t`:
   * a fresh batch of length `n` that holds `t` and zeros after it.
   */
  method Padded(t: array3<int>, n: nat) returns (p: array3<int>)
    requires t.Length2 <= n
    ensures fresh(p)
    ensures p.Length0 == t.Length0 && p.Length1 == t.Length1 && p.Length2 == n
    ensures forall i, j, k :: 0 <= i < p.Length0 && 0 <= j < p.Length1 && 0 <= k < n ==>
              p[i, j, k] == PaddedAt(t, i, j, k)
  {
    p := new int[t.Length0, t.Length1, n]((i, j, k) => 0);
    for i := 0 to t.Length0
      invariant forall a, b, c :: 0 <= a < p.Length0 && 0 <= b < p.Length1 && 0 <= c < n ==>
                  p[a, b, c] == if Before(a, b, c, i, 0, 0) then PaddedAt(t, a, b, c) else 0
    {
      for j := 0 to t.Length1
        invariant forall a, b, c :: 0 <= a < p.Length0 && 0 <= b < p.Length1 && 0 <= c < n ==>
                    p[a, b, c] == if Before(a, b, c, i, j, 0) then PaddedAt(t, a, b, c) else 0
      {
        for k := 0 to t.Length2
          invariant forall a, b, c :: 0 <= a < p.Length0 && 0 <= b < p.Length1 && 0 <= c < n ==>
                      p[a, b, c] == if Before(a, b, c, i, j, k) then PaddedAt(t, a, b, c) else 0
        {
          p[i, j, k] := t[i, j, k];
        }
      }
    }
  }

  /**
   * `do_merge(tensor_1, tensor_2, tensor_1_volume, tensor_2_volume, sample_rate)`:
   * a shape mismatch in batch size or channel count fails; otherwise the result has
   * the longer length and each sample is the weighted sum of the padded inputs.
   */
  method DoMerge(t1: array3<int>, t2: array3<int>, volume1: int, volume2: int, sampleRate: int)
    returns (r: MergeResult)
    ensures r.ShapeMismatch? <==> t1.Length0 != t2.Length0 || t1.Length1 != t2.Length1
    ensures r.Merged? ==>
              && fresh(r.mixed) && r.sampleRate == sampleRate
              && r.mixed.Length0 == t1.Length0 && r.mixed.Length1 == t1.Length1
              && r.mixed.Length2 == (if t1.Length2 >= t2.Length2 then t1.Length2 else t2.Length2)
              && forall i, j, k :: 0 <= i < r.mixed.Length0 && 0 <= j < r.mixed.Length1 && 0 <= k < r.mixed.Length2 ==>
                   r.mixed[i, j, k] == volume1 * PaddedAt(t1, i, j, k) + volume2 * PaddedAt(t2, i, j, k)
  {
    if t1.Length0 != t2.Length0 || t1.Length1 != t2.Length1 {
      return ShapeMismatch;
    }
    var maxLength := if t1.Length2 >= t2.Length2 then t1.Length2 else t2.Length2;
    var padded1 := Padded(t1, maxLength);
    var padded2 := Padded(t2, maxLength);
    var mixed := new int[t1.Length0, t1.Length1, maxLength]((i, j, k)
      reads padded1, padded2
      requires 0 <= i < padded1.Length0 && 0 <= j < padded1.Length1 && 0 <= k < padded1.Length2
      requires 0 <= i < padded2.Length0 && 0 <= j < padded2.Length1 && 0 <= k < padded2.Length2
      => volume1 * padded1[i, j, k] + volume2 * padded2[i, j, k]);
    return Merged(mixed, sampleRate);
  }
}
