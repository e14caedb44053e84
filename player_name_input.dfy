// The start form (src/components/chess/PlayerNameInput.tsx): each name is
// the field's text with surrounding whitespace removed, or the side's default
// when nothing is left.

module PlayerNameInput {

  /** The characters `String.prototype.trim` removes: ECMAScript WhiteSpace and LineTerminator. */
  predicate IsTrimmable(c: char)
  {
    var n := c as int;
    || n == 0x09 || n == 0x0A || n == 0x0B || n == 0x0C || n == 0x0D || n == 0x20
    || n == 0xA0 || n == 0x1680 || (0x2000 <= n <= 0x200A) || n == 0x2028 || n == 0x2029
    || n == 0x202F || n == 0x205F || n == 0x3000 || n == 0xFEFF
  }

  /** Every character of `s[lo..hi]` is whitespace. */
  predicate AllTrimmableIn(s: string, lo: int, hi: int)
    requires 0 <= lo <= hi <= |s|
  {
    forall k :: lo <= k < hi ==> IsTrimmable(s[k])
  }

  predicate AllTrimmable(s: string)
  {
    AllTrimmableIn(s, 0, |s|)
  }

  /** Skips whitespace from index `k` on: the result is the index of the first kept character, or `|s|`. */
  function LeadingEnd(s: string, k: nat): (i: nat)
    requires k <= |s|
    ensures k <= i <= |s| && AllTrimmableIn(s, k, i)
    ensures i < |s| ==> !IsTrimmable(s[i])
    decreases |s| - k
  {
    if k < |s| && IsTrimmable(s[k]) then LeadingEnd(s, k + 1) else k
  }

  /** Skips whitespace backwards from index `k` down to `lo`: the result is just past the last kept character, or `lo`. */
  function TrailingStart(s: string, lo: nat, k: nat): (j: nat)
    requires lo <= k <= |s|
    ensures lo <= j <= k && AllTrimmableIn(s, j, k)
    ensures j > lo ==> !IsTrimmable(s[j - 1])
    decreases k - lo
  {
    if k > lo && IsTrimmable(s[k - 1]) then TrailingStart(s, lo, k - 1) else k
  }

  /** `trim()`: the slice `s[i..j]` left after removing whitespace from both ends. */
  function Trim(s: string): (r: string)
    ensures exists i, j :: 0 <= i <= j <= |s| && r == s[i..j] && AllTrimmableIn(s, 0, i) && AllTrimmableIn(s, j, |s|)
    ensures r != [] ==> !IsTrimmable(r[0]) && !IsTrimmable(r[|r| - 1])
    ensures r == [] <==> AllTrimmable(s)
  {
    var i := LeadingEnd(s, 0);
    var j := TrailingStart(s, i, |s|);
    assert j > i ==> s[i..j][0] == s[i] && s[i..j][j - i - 1] == s[j - 1];
    s[i..j]
  }

  /** `input.trim() || fallback` */
  function PlayerName(input: string, fallback: string): (name: string)
    ensures AllTrimmable(input) ==> name == fallback
    ensures !AllTrimmable(input) ==> name == Trim(input) && name != []
  {
    var t := Trim(input);
    if t == "" then fallback else t
  }

  datatype PlayerNames = PlayerNames(white: string, black: string)

  /** `handleStart`: each name comes from its own field only, and neither is ever empty. */
  function HandleStart(whiteName: string, blackName: string): (names: PlayerNames)
    ensures names.white == PlayerName(whiteName, "White")
    ensures names.black == PlayerName(blackName, "Black")
    ensures names.white != [] && names.black != []
    ensures AllTrimmable(whiteName) ==> names.white == "White"
    ensures AllTrimmable(blackName) ==> names.black == "Black"
  {
    PlayerNames(PlayerName(whiteName, "White"), PlayerName(blackName, "Black"))
  }
}
