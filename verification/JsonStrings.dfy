/** The inside of a quoted string, character by character (section 7 of RFC 8259). */
module JsonStrings {

  /** A character that needs no escape, or a backslash with the character it protects. The four
      digits after a backslash-u are ordinary characters here. */
  datatype StringChar = Plain(c: char) | Escaped(c: char)

  function RenderChar(x: StringChar): string {
    match x case Plain(c) => [c] case Escaped(c) => ['\\', c]
  }

  function RenderChars(chars: seq<StringChar>): string {
    if chars == [] then "" else RenderChar(chars[0]) + RenderChars(chars[1..])
  }

  /** Quotes and backslashes are escaped. */
  predicate GoodChars(chars: seq<StringChar>, quote: char) {
    forall x :: x in chars && x.Plain? ==> x.c != quote && x.c != '\\'
  }
}
