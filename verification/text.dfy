/** Substring containment, as Python's `needle in text` and JavaScript's
    `text.includes(needle)` decide it: an exact code-point match anywhere,
    with the empty needle contained in every text. */
module Text {

  /** `needle` occurs in `text` starting at offset `i`. */
  ghost predicate OccursAt(needle: string, text: string, i: int) {
    0 <= i && i + |needle| <= |text| && text[i..i + |needle|] == needle
  }

  /** The declarative meaning of containment: some offset matches. */
  ghost predicate Occurs(needle: string, text: string) {
    exists i :: OccursAt(needle, text, i)
  }

  /** `needle` is a prefix of `text`. */
  predicate IsPrefix(needle: string, text: string) {
    |needle| <= |text| && text[..|needle|] == needle
  }

  /** The executable scan: try offset 0, then the rest of the text. */
  function Contains(text: string, needle: string): (b: bool)
    ensures b <==> Occurs(needle, text)
    decreases |text|
  {
    if IsPrefix(needle, text) then
      assert OccursAt(needle, text, 0);
      true
    else if text == [] then
      assert forall i :: !OccursAt(needle, text, i);
      false
    else
      var rest := Contains(text[1..], needle);
      assert rest ==> Occurs(needle, text) by {
        if rest {
          var i :| OccursAt(needle, text[1..], i);
          assert text[1..][i..i + |needle|] == text[i + 1..i + 1 + |needle|];
          assert OccursAt(needle, text, i + 1);
        }
      }
      assert Occurs(needle, text) ==> rest by {
        if Occurs(needle, text) {
          var i :| OccursAt(needle, text, i);
          assert i != 0;
          assert text[1..][i - 1..i - 1 + |needle|] == text[i..i + |needle|];
          assert OccursAt(needle, text[1..], i - 1);
        }
      }
      rest
  }

  /** A text lacking one of the needle's characters cannot contain it. */
  lemma MissingCharNotContained(text: string, needle: string, c: char)
    requires c in needle && c !in text
    ensures !Contains(text, needle)
  {
  }
}
