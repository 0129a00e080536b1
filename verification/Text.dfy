/** Characters as Python's str methods see them, within ASCII. */
module Text {

  /** What str.strip removes. */
  predicate IsSpace(c: char) {
    c == ' ' || '\t' <= c <= '\r' || '\U{1C}' <= c <= '\U{1F}'
  }
}
