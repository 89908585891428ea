/** `formatAddress` of the token list (`app/components/TokenList.tsx`): the first six and
    the last four characters of an address around an ellipsis. */
module TokenList {

  function Min(a: int, b: int): int {
    if a < b then a else b
  }

  function Max(a: int, b: int): int {
    if a < b then b else a
  }

  /** JavaScript's `s.slice(start, end)`: negative positions count from the end, and
      positions are clamped to the string. */
  function Slice(s: string, start: int, end: int): (r: string)
    ensures |r| <= |s|
    // inside the string it is the ordinary subsequence
    ensures 0 <= start <= end <= |s| ==> r == s[start..end]
    // an end past the string stops at its end
    ensures 0 <= start <= |s| <= end ==> r == s[start..]
    // a negative start counts back from the end
    ensures -|s| <= start < 0 && |s| <= end ==> r == s[|s| + start..]
    // nothing when the start is not before the end
    ensures 0 <= end <= start ==> r == ""
  {
    var from := if start < 0 then Max(|s| + start, 0) else Min(start, |s|);
    var to := if end < 0 then Max(|s| + end, 0) else Min(end, |s|);
    if from < to then s[from..to] else ""
  }

  /** `${address.slice(0, 6)}...${address.slice(-4)}` (`slice(-4)` runs to the end). */
  function FormatAddress(a: string): (r: string)
    ensures |r| == Min(6, |a|) + 3 + Min(4, |a|)
    ensures |a| >= 6 ==> |r| == 13
    // a prefix of the address, the ellipsis, a suffix of the address
    ensures r[..Min(6, |a|)] == a[..Min(6, |a|)]
    ensures r[Min(6, |a|)..Min(6, |a|) + 3] == "..."
    ensures r[|r| - Min(4, |a|)..] == a[|a| - Min(4, |a|)..]
    // from ten characters on, the two parts do not overlap
    ensures |a| >= 10 ==> r == a[..6] + "..." + a[|a| - 4..] && 6 <= |a| - 4
  {
    Slice(a, 0, 6) + "..." + Slice(a, -4, |a|)
  }
}
