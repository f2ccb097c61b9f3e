/** The examples the standards give, for the encodings that are modelled after them. */
module StandardExamples {
  import Activity
  import ActivityCursor
  import JsonText
  import Utf16
  import Utf8

  /** The examples of section 7 of RFC 3629, one for each length of a character. */
  lemma ExamplesOfRfc3629()
    ensures Utf8.Encode("A\U{2262}\U{391}.") == [0x41, 0xE2, 0x89, 0xA2, 0xCE, 0x91, 0x2E]
    ensures Utf8.Encode("\U{233B4}") == [0xF0, 0xA3, 0x8E, 0xB4]
    ensures Utf16.TextOf([0xD84C, 0xDFB4]) == "\U{233B4}"
  {
  }

  /** The parts of a cursor's text, as JSON.stringify writes them. */
  lemma ExamplesOfCursorTexts()
    ensures JsonText.IntText(-70) == "-70"
    ensures JsonText.QuoteText("a\"\n") == "\"a\\\"\\n\""
    ensures ActivityCursor.SourceName(Activity.ActivityEvent) == "activity"
    ensures ActivityCursor.SourceName(Activity.DelegationEvent) == "delegation"
  {
  }
}
