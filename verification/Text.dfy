/** Python's `str.strip` and the whitespace it removes. */
module Text {

  /** Code points for which `str.isspace` holds. */
  predicate IsSpace(c: char) {
    var p := c as int;
    || 0x09 <= p <= 0x0D || 0x1C <= p <= 0x20 || p == 0x85 || p == 0xA0 || p == 0x1680
    || 0x2000 <= p <= 0x200A || p == 0x2028 || p == 0x2029 || p == 0x202F || p == 0x205F || p == 0x3000
  }

  /** The characters that `str.strip` takes away, one by one. */
  lemma SpacesAre(c: char)
    ensures IsSpace(c) <==> c as int in {9, 10, 11, 12, 13, 28, 29, 30, 31, 32, 133, 160, 5760, 8192, 8193, 8194, 8195, 8196,
                                         8197, 8198, 8199, 8200, 8201, 8202, 8232, 8233, 8239, 8287, 12288}
  {
  }

  /** `not text.strip()` */
  predicate Blank(text: string) {
    forall c | c in text :: IsSpace(c)
  }

  function Strip(text: string): string {
    if text == [] then []
    else if IsSpace(text[0]) then Strip(text[1..])
    else if IsSpace(text[|text| - 1]) then Strip(text[..|text| - 1])
    else text
  }

  /** Stripping leaves nothing exactly of a blank text. */
  lemma {:induction false} StripOfBlank(text: string)
    ensures Strip(text) == [] <==> Blank(text)
  {
    if text != [] {
      if IsSpace(text[0]) {
        StripOfBlank(text[1..]);
        assert text == [text[0]] + text[1..];
      } else if IsSpace(text[|text| - 1]) {
        StripOfBlank(text[..|text| - 1]);
        assert text == text[..|text| - 1] + [text[|text| - 1]];
      } else {
        assert text[0] in text;
      }
    }
  }

  /** What is left is the text between its first and its last character that is no space. */
  lemma {:induction false} StripIsMiddle(text: string) returns (i: nat, j: nat)
    ensures i <= j <= |text| && Strip(text) == text[i..j]
    ensures forall k | 0 <= k < |text| && (k < i || k >= j) :: IsSpace(text[k])
    ensures i < j ==> !IsSpace(text[i]) && !IsSpace(text[j - 1])
  {
    i, j := 0, |text|;
    if text != [] {
      if IsSpace(text[0]) {
        var rest := text[1..];
        i, j := StripIsMiddle(rest);
        assert rest[i..j] == text[i + 1..j + 1];
        assert forall k | 0 < k < |text| :: text[k] == rest[k - 1];
        i, j := i + 1, j + 1;
      } else if IsSpace(text[|text| - 1]) {
        i, j := StripIsMiddle(text[..|text| - 1]);
      }
    }
  }
}
