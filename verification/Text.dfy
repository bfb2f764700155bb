/** Byte strings as the operator handles them. A `char` below 256 stands for one byte. */
module Text {

  type Byte = c: char | c as int < 256 witness 'a'

  type Bytes = seq<Byte>

  /** True when `w` occurs in `s` at index `i`. */
  predicate OccursAt(s: string, w: string, i: int) {
    0 <= i <= |s| - |w| && s[i..i + |w|] == w
  }

  /** True when `w` occurs somewhere in `s`. */
  ghost predicate Contains(s: string, w: string) {
    exists i :: OccursAt(s, w, i)
  }

  /** `strings.ReplaceAll`: leftmost, non-overlapping replacement of a non-empty `part`. */
  function ReplaceAll(s: string, part: string, into: string): string
    requires part != ""
  {
    if |s| < |part| then s
    else if part <= s then into + ReplaceAll(s[|part|..], part, into)
    else [s[0]] + ReplaceAll(s[1..], part, into)
  }

  lemma Associative(x: string, y: string, z: string)
    ensures (x + y) + z == x + (y + z)
  {
  }
}
