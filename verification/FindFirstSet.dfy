/** The recursive selector of find_first_set.sv.

    Despite its name the circuit returns the HIGHEST set index.  When no bit is set the
    four-bit leaf answers 7 and every larger instance answers its own width. */
module FindFirstSet {
  import opened Bits

  ghost predicate Any(v: seq<bool>) {
    exists k :: 0 <= k < |v| && v[k]
  }

  /** `y` is the position of the last true element of `v`. */
  ghost predicate IsHighest(v: seq<bool>, y: nat) {
    y < |v| && v[y] && forall k :: y < k < |v| ==> !v[k]
  }

  /** One instance of the module with parameter `lgN`; the zero test of each half is a
      wire of its own, exactly as in the source. */
  function Select(lgN: nat, v: seq<bool>): (y: nat)
    requires lgN >= 2 && |v| == Pow2(lgN)
    ensures Any(v) ==> IsHighest(v, y)
    ensures !Any(v) ==> y == if lgN == 2 then 7 else |v|
  {
    if lgN == 2 then
      assert |v| == 4 by { assert Pow2(2) == 2 * Pow2(1) && Pow2(1) == 2 * Pow2(0); }
      if v[3] then 3 else if v[2] then 2 else if v[1] then 1 else if v[0] then 0 else 7
    else
      var half := Pow2(lgN - 1);
      var lo, hi := v[..half], v[half..];
      var loZero := forall k :: 0 <= k < half ==> !lo[k];
      var hiZero := forall k :: 0 <= k < half ==> !hi[k];
      if loZero && hiZero then
        |v|
      else if !hiZero then
        half + Select(lgN - 1, hi)
      else
        Select(lgN - 1, lo)
  }
}
