/** Text matching used by the search layer: ASCII lower-casing (the case folding
    the database applies for `containsIgnoreCase`) and SQL `LIKE '%v%'`
    substring containment. */
module Text {

  /** Lower-case one character; only 'A'..'Z' are folded. */
  function LowerChar(c: char): (r: char)
    ensures 'A' <= c <= 'Z' ==> r as int == c as int + 32
    ensures !('A' <= c <= 'Z') ==> r == c
    ensures !('A' <= r <= 'Z')
  {
    if 'A' <= c <= 'Z' then (c as int + 32) as char else c
  }

  /** Lower-case a whole string, character by character. */
  function Lower(s: string): (r: string)
    ensures |r| == |s|
  {
    seq(|s|, i requires 0 <= i < |s| => LowerChar(s[i]))
  }

  /** `v` occurs in `s` starting at position `i`. */
  predicate OccursAt(s: string, v: string, i: int)
  {
    0 <= i && i + |v| <= |s| && s[i..i + |v|] == v
  }

  /** SQL `s LIKE '%v%'`: `v` is a contiguous part of `s`, scanned from the left. */
  predicate Contains(s: string, v: string): (r: bool)
    ensures r ==> |v| <= |s|
    ensures v == [] ==> r
    decreases |s|
  {
    if |s| < |v| then false
    else if s[..|v|] == v then true
    else s != [] && Contains(s[1..], v)
  }

  /** `containsIgnoreCase`: substring containment after lower-casing both sides. */
  predicate ContainsIgnoreCase(s: string, v: string): (r: bool)
    ensures r ==> |v| <= |s|
    ensures v == [] ==> r
  {
    Contains(Lower(s), Lower(v))
  }

  /** The scanning definition agrees with the positional one, in both directions. */
  lemma {:induction false} ContainsIffOccurs(s: string, v: string)
    ensures Contains(s, v) <==> exists i :: OccursAt(s, v, i)
    decreases |s|
  {
    if |s| < |v| {
    } else if s[..|v|] == v {
      assert OccursAt(s, v, 0);
    } else {
      assert s != [];
      ContainsIffOccurs(s[1..], v);
      if Contains(s[1..], v) {
        var i :| OccursAt(s[1..], v, i);
        assert s[1..][i..i + |v|] == s[i + 1..i + 1 + |v|];
        assert OccursAt(s, v, i + 1);
      }
      if exists i :: OccursAt(s, v, i) {
        var i :| OccursAt(s, v, i);
        assert i != 0;
        assert s[1..][i - 1..i - 1 + |v|] == s[i..i + |v|];
        assert OccursAt(s[1..], v, i - 1);
      }
    }
  }

  /** Lower-casing commutes with slicing. */
  lemma LowerSlice(s: string, i: int, j: int)
    requires 0 <= i <= j <= |s|
    ensures Lower(s[i..j]) == Lower(s)[i..j]
  {
  }

  /** A case-sensitive match is also a case-insensitive one. */
  lemma ContainsImpliesIgnoreCase(s: string, v: string)
    ensures Contains(s, v) ==> ContainsIgnoreCase(s, v)
  {
    ContainsIffOccurs(s, v);
    if Contains(s, v) {
      var i :| OccursAt(s, v, i);
      LowerSlice(s, i, i + |v|);
      assert OccursAt(Lower(s), Lower(v), i);
      ContainsIffOccurs(Lower(s), Lower(v));
    }
  }

  /** Containment is transitive: a string containing `v` contains every part of `v`. */
  lemma ContainsTransitive(s: string, v: string, w: string)
    requires Contains(s, v) && Contains(v, w)
    ensures Contains(s, w)
  {
  }
}
