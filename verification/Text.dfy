/** Blank characters as `str.strip` and `str.isspace` see them. */
module Text {
  predicate IsSpace(c: char) {
    c == ' ' || '\t' <= c <= '\r' || '\U{001C}' <= c <= '\U{001F}' || c == '\U{0085}' || c == '\U{00A0}'
    || c == '\U{1680}' || '\U{2000}' <= c <= '\U{200A}' || c == '\U{2028}' || c == '\U{2029}' || c == '\U{202F}'
    || c == '\U{205F}' || c == '\U{3000}'
  }

  predicate Spaces(s: string) { forall i | 0 <= i < |s| :: IsSpace(s[i]) }

  /** `str.strip` leaves the string as it is, and something remains. */
  predicate Trimmed(s: string) { s != "" && !IsSpace(s[0]) && !IsSpace(s[|s| - 1]) }

  function Strip(s: string): string
    decreases |s|
  {
    if s == [] then []
    else if IsSpace(s[0]) then Strip(s[1..])
    else if IsSpace(s[|s| - 1]) then Strip(s[..|s| - 1])
    else s
  }

  /** What is left is what lies between the blanks at both ends. */
  lemma {:induction false} StripMeans(s: string) returns (front: string, back: string)
    ensures s == front + Strip(s) + back && Spaces(front) && Spaces(back)
    ensures Strip(s) == "" || (!IsSpace(Strip(s)[0]) && !IsSpace(Strip(s)[|Strip(s)| - 1]))
    decreases |s|
  {
    if s == "" {
      front, back := "", "";
    } else if IsSpace(s[0]) {
      front, back := StripMeans(s[1..]);
      front := [s[0]] + front;
    } else if IsSpace(s[|s| - 1]) {
      front, back := StripMeans(s[..|s| - 1]);
      back := back + [s[|s| - 1]];
    } else {
      front, back := "", "";
    }
  }

  lemma TrimmedMeans(s: string)
    ensures Trimmed(s) <==> s != "" && Strip(s) == s
  {
    if s != "" && Strip(s) == s {
      var front, back := StripMeans(s);
    }
  }

  /** The blanks by their code points. */
  lemma SpacesAre(c: char)
    ensures IsSpace(c) <==>
            var n := c as int;
            || 9 <= n <= 13 || 28 <= n <= 32 || n == 0x85 || n == 0xA0 || n == 0x1680 || 0x2000 <= n <= 0x200A
            || n == 0x2028 || n == 0x2029 || n == 0x202F || n == 0x205F || n == 0x3000
  {
  }
}
