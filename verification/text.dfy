/** The two string methods the catalog search uses, restricted to ASCII:
    `toLowerCase` and `includes`. */
module Text {
  import Seqs

  function LowerChar(c: char): char {
    if 'A' <= c <= 'Z' then (c as int + 32) as char else c
  }

  /** `toLowerCase` on ASCII text: upper-case letters become lower-case,
      every other character is kept. */
  function Lower(s: string): (r: string)
    ensures |r| == |s|
    ensures forall i :: 0 <= i < |s| ==> r[i] == LowerChar(s[i])
  {
    Seqs.Map(s, LowerChar)
  }

  /** `needle` occurs in `hay` starting at index `i`. */
  predicate OccursAt(hay: string, needle: string, i: int) {
    0 <= i && i + |needle| <= |hay| && hay[i..i + |needle|] == needle
  }

  /** Slicing the tail one index earlier gives the same characters. */
  lemma SliceShift(hay: string, i: int, n: int)
    requires 1 <= i && 0 <= n && i + n <= |hay|
    ensures hay[i..i + n] == hay[1..][i - 1..i - 1 + n]
  {
    var a := hay[i..i + n];
    var b := hay[1..][i - 1..i - 1 + n];
    assert |a| == |b|;
    forall t | 0 <= t < n ensures a[t] == b[t] {
      assert a[t] == hay[i + t];
      assert b[t] == hay[1..][i - 1 + t];
    }
  }

  /** One step of the search: an occurrence is at the front or in the tail. */
  lemma OccursStep(hay: string, needle: string)
    requires |hay| > 0
    ensures OccursAt(hay, needle, 0) <==> needle <= hay
    ensures forall i :: 1 <= i ==> (OccursAt(hay, needle, i) <==> OccursAt(hay[1..], needle, i - 1))
  {
    forall i | 1 <= i
      ensures OccursAt(hay, needle, i) <==> OccursAt(hay[1..], needle, i - 1)
    {
      if i + |needle| <= |hay| {
        SliceShift(hay, i, |needle|);
      }
    }
  }

  /** `hay.includes(needle)`: some occurrence exists (the empty needle occurs
      everywhere). */
  function Contains(hay: string, needle: string): (r: bool)
    ensures r <==> exists i :: OccursAt(hay, needle, i)
    decreases |hay|
  {
    if needle <= hay then
      assert OccursAt(hay, needle, 0);
      true
    else if |hay| == 0 then
      assert forall i :: !OccursAt(hay, needle, i);
      false
    else
      var r := Contains(hay[1..], needle);
      OccursStep(hay, needle);
      if r then
        var j :| OccursAt(hay[1..], needle, j);
        assert OccursAt(hay, needle, j + 1);
        true
      else
        assert forall i :: !OccursAt(hay, needle, i) by {
          forall i ensures !OccursAt(hay, needle, i) {
            if 1 <= i {
              assert !OccursAt(hay[1..], needle, i - 1);
            }
          }
        }
        false
  }
}
