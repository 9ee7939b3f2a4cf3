/** Shortening display text to a maximum length with an ellipsis. */
module Format {

  /** Where `text.slice(0, end)` stops on a text of the given length: a
      negative end counts back from the end of the text, and the result is
      clamped to the text. */
  function SliceEnd(length: nat, end: int): (e: nat)
    ensures e <= length
    ensures 0 <= end ==> e == if end < length then end else length
    ensures end < 0 ==> e == if length + end < 0 then 0 else length + end
  {
    if end < 0 then (if length + end < 0 then 0 else length + end)
    else if end < length then end
    else length
  }

  /** `truncateText`: text no longer than the limit is returned as it is;
      longer text is cut with `slice(0, maxLength)` and "..." appended. */
  function TruncateText(text: string, maxLength: int): (r: string)
    ensures |text| <= maxLength ==> r == text
    ensures 0 <= maxLength < |text| ==> r == text[..maxLength] + "..." && |r| == maxLength + 3
    ensures maxLength < |text| ==> |r| == SliceEnd(|text|, maxLength) + 3
    ensures maxLength < |text| ==> r == text[..SliceEnd(|text|, maxLength)] + "..."
    ensures var e := SliceEnd(|text|, maxLength); e <= |r| && r[..e] == text[..e]
  {
    if |text| <= maxLength then text
    else
      var e := SliceEnd(|text|, maxLength);
      assert (text[..e] + "...")[..e] == text[..e];
      text[..e] + "..."
  }

  /** With a non-negative limit, truncating a truncated text changes nothing. */
  lemma TruncateIdempotent(text: string, maxLength: int)
    requires 0 <= maxLength
    ensures TruncateText(TruncateText(text, maxLength), maxLength) == TruncateText(text, maxLength)
  {
    var r := TruncateText(text, maxLength);
    if maxLength < |text| {
      assert r[..maxLength] == text[..maxLength];
    }
  }

  /** With a negative limit every call cuts again: the limit counts back
      from the end, so a truncated text is itself too long. */
  lemma NegativeLimitKeepsCutting()
    ensures TruncateText("abc", -1) == "ab..."
    ensures TruncateText(TruncateText("abc", -1), -1) == "ab....."
  {
    assert "abc"[..2] == "ab";
    assert "ab..."[..4] == "ab..";
  }
}
