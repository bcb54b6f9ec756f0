/**
 * The handful of java.lang.String operations the downloader relies on,
 * stated over Dafny strings (sequences of characters).
 */
module JavaString {

  datatype Option<T> = None | Some(value: T)

  /**
   * `s.indexOf(c, from)`: the first index at or after `from` that holds `c`,
   * or -1 when there is none (in particular when `from` is past the end).
   */
  function IndexOf(s: string, c: char, from: nat): (r: int)
    ensures -1 <= r < |s|
    ensures r >= 0 ==> from <= r && s[r] == c
    ensures r >= 0 ==> forall i :: from <= i < r ==> s[i] != c
    ensures r == -1 ==> forall i :: from <= i < |s| ==> s[i] != c
    decreases |s| - from
  {
    if from >= |s| then -1
    else if s[from] == c then from
    else IndexOf(s, c, from + 1)
  }

  /** `t` occurs in `s` starting at index `i`. */
  predicate OccursAt(s: string, t: string, i: int)
  {
    0 <= i && i + |t| <= |s| && s[i..i + |t|] == t
  }

  /** `s.contains(t)`. */
  predicate Contains(s: string, t: string)
  {
    exists i :: 0 <= i <= |s| - |t| && OccursAt(s, t, i)
  }

  /**
   * `s.substring(begin, end)`: None stands for the unchecked
   * StringIndexOutOfBoundsException thrown on out-of-range bounds.
   */
  function Substring(s: string, begin: int, end: int): (r: Option<string>)
    ensures r.Some? <==> 0 <= begin <= end <= |s|
    ensures r.Some? ==> |r.value| == end - begin
    ensures r.Some? ==> forall i :: 0 <= i < end - begin ==> r.value[i] == s[begin + i]
  {
    if 0 <= begin <= end <= |s| then Some(s[begin..end]) else None
  }
}
