/**
 * The C string functions the tool uses, on strings given as the characters
 * before their terminating NUL.
 */
module CString {
  import opened Wrappers

  /** `strrchr`: the index of the last occurrence of `c`, if any. */
  function LastIndexOf(s: string, c: char): (r: Option<nat>)
    ensures r.None? <==> c !in s
    ensures r.Some? ==> r.value < |s| && s[r.value] == c && c !in s[r.value + 1..]
  {
    if s == [] then None
    else if s[|s| - 1] == c then Some(|s| - 1)
    else
      var r := LastIndexOf(s[..|s| - 1], c);
      assert s == s[..|s| - 1] + [s[|s| - 1]];
      if r.Some? then
        assert s[r.value + 1..] == s[..|s| - 1][r.value + 1..] + [s[|s| - 1]];
        r
      else r
  }

  /** `av_strlcpy` into a buffer of `size` bytes: at most `size - 1` characters are kept. */
  function Strlcpy(src: string, size: nat): (r: string)
    requires size >= 1
    ensures r <= src && |r| < size
    ensures |src| < size ==> r == src
    ensures |src| >= size ==> |r| == size - 1
  {
    if |src| < size then src else src[..size - 1]
  }
}
