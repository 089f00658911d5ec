/** `truncate_text` (src/utils/helpers.py), used to shorten text for logs. */
module Helpers {

  import opened Seqs

  /** The default of `max_length`. */
  const DEFAULT_MAX_LENGTH: int := 100

  const ELLIPSIS: string := "..."

  /** Python's `s[:n]`, where a negative `n` counts from the end. */
  function SliceTo(s: string, n: int): string
  {
    if 0 <= n then Take(s, n)
    else if |s| + n <= 0 then []
    else s[..|s| + n]
  }

  /** Text no longer than `maxLength` is kept; longer text is cut to its first
      `maxLength` characters (Python slicing) followed by "...". */
  function TruncateText(text: string, maxLength: int := DEFAULT_MAX_LENGTH): (r: string)
    ensures |text| <= maxLength ==> r == text
    ensures 0 <= maxLength < |text| ==>
      |r| == maxLength + 3 && r[..maxLength] == text[..maxLength] && r[maxLength..] == ELLIPSIS
    ensures maxLength < 0 ==>
      |r| == (if |text| + maxLength <= 0 then 0 else |text| + maxLength) + 3 && r[|r| - 3..] == ELLIPSIS
  {
    if |text| <= maxLength then text else SliceTo(text, maxLength) + ELLIPSIS
  }

  /** For a non-negative limit, truncating twice is truncating once. */
  lemma TruncateIdempotent(text: string, maxLength: int)
    requires 0 <= maxLength
    ensures TruncateText(TruncateText(text, maxLength), maxLength) == TruncateText(text, maxLength)
  {
    var once := TruncateText(text, maxLength);
    if maxLength < |text| {
      assert once[..maxLength] == text[..maxLength];
      assert once == text[..maxLength] + ELLIPSIS;
    }
  }
}
