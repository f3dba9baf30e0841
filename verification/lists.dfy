/** The array idioms the editors use, as functions on sequences. */
module Lists {

  /** `xs.filter((_, i) => i !== index)`: drops the element at `index`
      and keeps the rest in order; any other index keeps the whole list. */
  function RemoveIndex<T>(xs: seq<T>, index: int): (r: seq<T>)
    ensures 0 <= index < |xs| ==> r == xs[..index] + xs[index + 1..]
    ensures !(0 <= index < |xs|) ==> r == xs
    decreases |xs|
  {
    if |xs| == 0 then []
    else (if index == 0 then [] else [xs[0]]) + RemoveIndex(xs[1..], index - 1)
  }

  /** `xs.map((item, i) => i === index ? x : item)`. */
  function ReplaceAt<T>(xs: seq<T>, index: int, x: T): (r: seq<T>)
    ensures |r| == |xs|
    ensures forall i :: 0 <= i < |xs| ==> r[i] == (if i == index then x else xs[i])
  {
    seq(|xs|, i requires 0 <= i < |xs| => if i == index then x else xs[i])
  }

  /** `xs.splice(start, 1)` on a copy: a negative start counts from the end
      and is clamped to the first element, a start at or past the end removes
      nothing. */
  function SpliceOne<T>(xs: seq<T>, start: int): (r: seq<T>)
  {
    var from := if start < 0 then (if |xs| + start < 0 then 0 else |xs| + start)
                else (if start > |xs| then |xs| else start);
    if from < |xs| then xs[..from] + xs[from + 1..] else xs
  }

  /** What `splice(start, 1)` removes: the element at `start`, the one
      `-start` places from the end, the first one when `-start` is beyond
      the length, and nothing when `start` is past the end. */
  lemma SpliceOneRemoves<T>(xs: seq<T>, start: int)
    ensures 0 <= start < |xs| ==> SpliceOne(xs, start) == RemoveIndex(xs, start)
    ensures -|xs| <= start < 0 ==> SpliceOne(xs, start) == RemoveIndex(xs, |xs| + start)
    ensures start < -|xs| ==> SpliceOne(xs, start) == RemoveIndex(xs, 0)
    ensures start >= |xs| ==> SpliceOne(xs, start) == xs
    ensures |SpliceOne(xs, start)| == (if start < |xs| && |xs| > 0 then |xs| - 1 else |xs|)
  {
  }
}
