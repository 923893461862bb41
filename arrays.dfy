/** The JavaScript array operations the profile handlers apply to the experience and
    education lists: `indexOf`, `unshift(x)` and `splice(start, 1)`. */
module Arrays {

  /** `s.indexOf(x)`: the first index holding `x`, or -1 when there is none. */
  function IndexOf<T(==)>(s: seq<T>, x: T): (r: int)
    ensures -1 <= r < |s|
    ensures r == -1 <==> x !in s
    ensures 0 <= r ==> s[r] == x && x !in s[..r]
    decreases |s|
  {
    if |s| == 0 then -1
    else if s[0] == x then 0
    else
      var k := IndexOf(s[1..], x);
      if k == -1 then -1
      else
        assert s[..k + 1] == [s[0]] + s[1..][..k];
        k + 1
  }

  /** The list after `s.unshift(x)`: `x` first, then the old entries in their old order. */
  function Unshift<T>(s: seq<T>, x: T): (r: seq<T>)
    ensures |r| == |s| + 1
    ensures r[0] == x
    ensures r[1..] == s
  {
    [x] + s
  }

  /** Where `splice(start, …)` on a list of length `len` starts: a negative start
      counts back from the end and is clamped to 0, a start past the end is clamped to `len`. */
  function SpliceStart(len: nat, start: int): (k: nat)
    ensures k <= len
    ensures 0 <= start <= len ==> k == start
    ensures start < 0 && len + start >= 0 ==> k == len + start
    ensures len + start < 0 ==> k == 0
    ensures start > len ==> k == len
  {
    if start < 0 then (if len + start < 0 then 0 else len + start)
    else if start > len then len
    else start
  }

  /** The list after `s.splice(start, 1)`: the entry at the start position is removed,
      if there is one. */
  function SpliceOne<T>(s: seq<T>, start: int): (r: seq<T>)
    ensures var k := SpliceStart(|s|, start);
      if k < |s| then
        && |r| == |s| - 1
        && (forall i :: 0 <= i < k ==> r[i] == s[i])
        && (forall i :: k <= i < |r| ==> r[i] == s[i + 1])
      else r == s
  {
    var k := SpliceStart(|s|, start);
    if k < |s| then s[..k] + s[k + 1..] else s
  }

  /** What deleting the entry whose id is `id` from `before` leaves, where `ids[i]` is the
      id of `before[i]`: when the id occurs, the list without the entry at its first
      occurrence; when it does not, the list without its last entry, or the empty list. */
  ghost predicate DeletedFirstOrLast<T, K>(before: seq<T>, ids: seq<K>, id: K, after: seq<T>)
    requires |ids| == |before|
  {
    if id in ids then
      exists k :: 0 <= k < |before| && ids[k] == id && id !in ids[..k]
               && after == before[..k] + before[k + 1..]
    else
      after == if before == [] then [] else before[..|before| - 1]
  }

  /** `s.splice(ids.indexOf(id), 1)` deletes the entry of the first occurrence of `id`;
      for an id that does not occur, `indexOf` gives -1 and the splice removes the LAST entry;
      an empty list stays empty. */
  lemma SpliceAtIndexOf<T, K>(s: seq<T>, ids: seq<K>, id: K)
    requires |ids| == |s|
    ensures DeletedFirstOrLast(s, ids, id, SpliceOne(s, IndexOf(ids, id)))
    ensures |SpliceOne(s, IndexOf(ids, id))| == if s == [] then 0 else |s| - 1
  {
    var k := IndexOf(ids, id);
    if k >= 0 {
      assert ids[k] == id && id !in ids[..k];
    }
  }
}
