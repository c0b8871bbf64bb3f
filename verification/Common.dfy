/** What several components share. */
module Common {

  datatype Option<+T> = None | Some(value: T)

  const UINT32_RANGE := 0x1_0000_0000

  /** isspace in the C locale. */
  predicate IsSpace(c: char) {
    c == ' ' || 9 <= c as int <= 13
  }

  /** Blank, tab, newline, vertical tab, form feed and return. */
  lemma SpaceExact(c: char)
    ensures IsSpace(c) <==> c in [' ', '\t', '\n', 11 as char, 12 as char, '\r']
  {
  }
}
