/** Unanchored substring search, the part of the store's `$regex` phone query the
    model keeps: a literal fragment matched anywhere in the phone string. */
module Text {

  /** `f` occurs in `s` starting at position `i`. */
  predicate OccursAt(s: string, f: string, i: int) {
    0 <= i && i + |f| <= |s| && s[i..i + |f|] == f
  }

  /** `f` occurs somewhere in `s` as a contiguous run; not anchored at either end. */
  predicate Contains(s: string, f: string) {
    exists i | 0 <= i <= |s| - |f| :: OccursAt(s, f, i)
  }

  /** Left-to-right search: the first position where `f` occurs, or -1. */
  method Find(s: string, f: string) returns (pos: int)
    ensures pos == -1 <==> !Contains(s, f)
    ensures pos != -1 ==> OccursAt(s, f, pos) && forall j | 0 <= j < pos :: !OccursAt(s, f, j)
  {
    var i := 0;
    while i + |f| <= |s|
      invariant 0 <= i
      invariant forall j | 0 <= j < i :: !OccursAt(s, f, j)
      decreases |s| - i
    {
      if s[i..i + |f|] == f {
        assert OccursAt(s, f, i);
        return i;
      }
      i := i + 1;
    }
    return -1;
  }

  /** Every string contains the empty fragment, so an empty search matches everything. */
  lemma ContainsEmpty(s: string)
    ensures Contains(s, "")
  {
    assert OccursAt(s, "", 0);
  }

  /** The fragment is found anywhere in the number, not only at its start, and
      only as one contiguous run. */
  lemma FragmentExamples()
    ensures Contains("9876543210", "987")
    ensures Contains("1234598765", "987")
    ensures !Contains("1234567890", "987")
  {
    assert OccursAt("9876543210", "987", 0);
    assert OccursAt("1234598765", "987", 5);
    var s, f := "1234567890", "987";
    forall i | 0 <= i <= |s| - |f|
      ensures !OccursAt(s, f, i)
    {
      assert s[i..i + |f|][0] == s[i] != '9';
    }
  }
}
