/** `formatCardName` and the behaviour its tests fix. */
module FormatCardName {

  const DefaultMaxLength: int := 30

  /** `name.substring(0, n)` for `n < |name|`: a negative end counts as 0. */
  function Prefix(name: string, n: int): string
    requires n < |name|
  {
    if n < 0 then "" else name[..n]
  }

  /** `formatCardName(name, maxLength)` */
  function Format(name: string, maxLength: int): (r: string)
    ensures name == "" ==> r == ""
    ensures name != "" && |name| <= maxLength ==> r == name
    ensures |name| > maxLength >= 0 ==> r == name[..maxLength] + "..." && |r| == maxLength + 3
    ensures name != "" && |name| > maxLength && maxLength < 0 ==> r == "..."
  {
    if name == "" then ""
    else if |name| <= maxLength then name
    else Prefix(name, maxLength) + "..."
  }

  /** `formatCardName(name)` */
  function FormatDefault(name: string): (r: string)
    ensures |r| <= DefaultMaxLength + 3
  {
    Format(name, DefaultMaxLength)
  }

  /** The four cases of the test file (the long name written in two
      pieces: the thirty characters that are kept and the rest). */
  lemma TestCases()
    ensures FormatDefault("") == ""
    ensures FormatDefault("Short name") == "Short name"
    ensures Format("This is a very long name that " + "should be truncated", 30) == "This is a very long name that " + "..."
    ensures Format("Long name", 4) == "Long..."
  {
    Truncates("This is a very long name that ", "should be truncated");
    ShortLimitCase();
  }

  /** A name longer than the limit keeps exactly its first `maxLength`
      characters. */
  lemma Truncates(head: string, tail: string)
    requires tail != []
    ensures Format(head + tail, |head|) == head + "..."
  {
    assert (head + tail)[..|head|] == head;
  }

  lemma ShortLimitCase()
    ensures Format("Long name", 4) == "Long..."
  {
    assert "Long name"[..4] == "Long";
  }

  /** A name that is already short enough is a fixed point. */
  lemma FormatIdempotentWhenShort(name: string, maxLength: int)
    requires |name| <= maxLength
    ensures Format(Format(name, maxLength), maxLength) == Format(name, maxLength)
  {
  }
}
