/** Types shared by every component of the model. */
module Common {
  datatype Option<+T> = None | Some(value: T)

  function Max(a: int, b: int): int { if a >= b then a else b }

  function Min(a: int, b: int): int { if a <= b then a else b }

  predicate Distinct<T(==)>(items: seq<T>) {
    forall i, j | 0 <= i < j < |items| :: items[i] != items[j]
  }

  /** Index of the first item that satisfies `p`, or the length. */
  function FirstIndex<T>(items: seq<T>, p: T -> bool): (i: nat)
    ensures i <= |items|
    ensures i < |items| ==> p(items[i])
    ensures forall j | 0 <= j < i :: !p(items[j])
  {
    if items == [] || p(items[0]) then 0 else 1 + FirstIndex(items[1..], p)
  }

  /** The number of chunks a file of `size` bytes is cut into. */
  function TotalChunks(size: nat, chunkSize: nat): nat
    requires chunkSize > 0
  {
    (size + chunkSize - 1) / chunkSize
  }

  lemma ScalingKeepsOrder(a: real, b: real, factor: real)
    requires factor > 0.0
    ensures a <= b <==> a * factor <= b * factor
  {
    if a <= b {
      assert (b - a) * factor >= 0.0;
    } else {
      assert (a - b) * factor > 0.0;
    }
  }

  lemma QuotientTimesDivisor(x: real, y: real)
    requires y > 0.0
    ensures x / y * y == x
  {
  }

  function LowerChar(c: char): char {
    if 'A' <= c <= 'Z' then c + ('a' - 'A') else c
  }

  function Lower(s: string): (r: string)
    ensures |r| == |s| && forall i | 0 <= i < |s| :: r[i] == LowerChar(s[i])
  {
    if s == "" then "" else [LowerChar(s[0])] + Lower(s[1..])
  }

  /** `needle` occurs somewhere in `text`. */
  predicate Contains(text: string, needle: string) {
    exists i | 0 <= i <= |text| :: needle <= text[i..]
  }
}
