/** The string helper of utils.rs that the bot uses to shorten captions. */
module Utils {

  const ELLIPSIS: string := "..."

  /** Keeps `s` when it has at most `maxLength` chars; otherwise keeps its
      first `maxLength` chars and appends an ellipsis. */
  function TruncateString(s: string, maxLength: nat): (r: string)
    ensures |s| <= maxLength ==> r == s
    ensures |s| > maxLength ==> |r| == maxLength + 3 && r[..maxLength] == s[..maxLength] && r[maxLength..] == ELLIPSIS
    ensures |r| == (if |s| <= maxLength then |s| else maxLength + 3)
    ensures |r| <= maxLength + 3
    ensures maxLength == 0 && |s| > 0 ==> r == ELLIPSIS
  {
    if |s| > maxLength then s[..maxLength] + ELLIPSIS else s
  }

  /** Truncating an already truncated string changes nothing. */
  lemma TruncateStringIdempotent(s: string, maxLength: nat)
    ensures TruncateString(TruncateString(s, maxLength), maxLength) == TruncateString(s, maxLength)
  {
    var r := TruncateString(s, maxLength);
    if |s| > maxLength {
      assert r[..maxLength] == s[..maxLength];
    }
  }
}
