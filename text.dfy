/** Substring search on strings, as Rust's `str::contains` with a string
    pattern does it: code point by code point, case-sensitive. */
module Text {

  /** `needle` occurs somewhere in `haystack`: it is a prefix of the haystack
      or occurs in the haystack without its first character. The empty
      pattern occurs everywhere, a longer pattern nowhere, and a pattern as
      long as the haystack only when it is the haystack. */
  function Contains(haystack: string, needle: string): (b: bool)
    ensures needle == [] ==> b
    ensures b ==> |needle| <= |haystack|
    ensures |needle| == |haystack| ==> (b <==> needle == haystack)
    decreases |haystack|
  {
    needle <= haystack || (|haystack| > 0 && Contains(haystack[1..], needle))
  }

  /** The independent reading of containment: some suffix of the haystack
      starts with the needle. */
  ghost predicate OccursAt(haystack: string, needle: string, i: int)
  {
    0 <= i <= |haystack| && needle <= haystack[i..]
  }

  /** The search agrees with the definition by offsets, in both directions. */
  lemma {:induction false} ContainsIffOccurs(haystack: string, needle: string)
    ensures Contains(haystack, needle) <==> exists i :: OccursAt(haystack, needle, i)
    decreases |haystack|
  {
    if needle <= haystack {
      assert haystack[0..] == haystack;
      assert OccursAt(haystack, needle, 0);
    } else if |haystack| > 0 {
      var tail := haystack[1..];
      ContainsIffOccurs(tail, needle);
      if Contains(tail, needle) {
        var i :| OccursAt(tail, needle, i);
        assert tail[i..] == haystack[i + 1..];
        assert OccursAt(haystack, needle, i + 1);
      }
      forall i | OccursAt(haystack, needle, i) ensures OccursAt(tail, needle, i - 1) {
        assert haystack[0..] == haystack;
        assert tail[i - 1..] == haystack[i..];
      }
    }
  }
}
