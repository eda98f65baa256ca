/** Substring containment, the relation the converter's tests use to
    match error messages. */
module Text {

  /** `needle` occurs in `hay` starting at position `i`. */
  predicate OccursAt(hay: string, needle: string, i: int)
  {
    0 <= i && i + |needle| <= |hay| && hay[i..i + |needle|] == needle
  }

  /** `needle` occurs somewhere in `hay`. */
  predicate Contains(hay: string, needle: string)
  {
    exists i | 0 <= i <= |hay| :: OccursAt(hay, needle, i)
  }

  /** A string contains every middle part it is built from. */
  lemma ContainsMiddle(before: string, needle: string, after: string)
    ensures Contains(before + needle + after, needle)
  {
    var hay := before + needle + after;
    assert hay[|before|..|before| + |needle|] == needle;
    assert OccursAt(hay, needle, |before|);
  }

  /** A needle with a character that never appears in `hay` does not occur in it. */
  lemma AbsentCharacter(hay: string, needle: string, k: int)
    requires 0 <= k < |needle|
    requires needle[k] !in hay
    ensures !Contains(hay, needle)
  {
  }

  /** Containment is transitive: a part of a part is a part. */
  lemma ContainsTransitive(hay: string, part: string, needle: string)
    requires Contains(hay, part)
    requires Contains(part, needle)
    ensures Contains(hay, needle)
  {
    var i :| 0 <= i <= |hay| && OccursAt(hay, part, i);
    var j :| 0 <= j <= |part| && OccursAt(part, needle, j);
    assert hay[i..i + |part|] == part;
    forall k | 0 <= k < |needle|
      ensures hay[i + j + k] == needle[k]
    {
      assert hay[i + j + k] == hay[i..i + |part|][j + k];
      assert part[j + k] == part[j..j + |needle|][k];
    }
    assert hay[i + j..i + j + |needle|] == needle;
    assert OccursAt(hay, needle, i + j);
  }
}
