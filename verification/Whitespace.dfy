/** White space as the trim functions and the classes of regular expressions have it:
    the blank, the tabs, the line terminators and the byte order mark. */
module Whitespace {
  predicate IsSpace(code: int) {
    || 9 <= code <= 13
    || code in {32, 0xa0, 0x1680, 0x2028, 0x2029, 0x202f, 0x205f, 0x3000, 0xfeff}
    || 0x2000 <= code <= 0x200a
  }
}
