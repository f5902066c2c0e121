/** The spaces Go's TrimSpace removes, as far as ASCII goes. */
module Spaces {
  predicate IsSpace(c: char) {
    c == ' ' || c == '\t' || c == '\r' || c == '\n' || c == 11 as char || c == 12 as char
  }
}
