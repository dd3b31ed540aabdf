/** Shared vocabulary: an optional value and integer sums. */
module Common {

  /** A value that may be absent. */
  datatype Option<+T> = None | Some(value: T)

  /** The sum of a sequence of integers, taken from the front. */
  function Sum(s: seq<int>): int
  {
    if |s| == 0 then 0 else s[0] + Sum(s[1..])
  }

  /** An image or surface size in pixels. */
  datatype Size = Size(w: int, h: int)
}
