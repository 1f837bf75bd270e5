/** White space in the sense of Unicode, and trimming. */
module Whitespace {

  predicate IsSpace(c: char) {
    var n := c as int;
    || 9 <= n <= 13 || n in {0x20, 0x85, 0xA0, 0x1680, 0x2028, 0x2029, 0x202F, 0x205F, 0x3000}
    || 0x2000 <= n <= 0x200A
  }

  predicate Blank(s: string) {
    forall i :: 0 <= i < |s| ==> IsSpace(s[i])
  }

  function Trim(s: string): string {
    if s != [] && IsSpace(s[0]) then Trim(s[1..])
    else if s != [] && IsSpace(s[|s| - 1]) then Trim(s[..|s| - 1])
    else s
  }
}
