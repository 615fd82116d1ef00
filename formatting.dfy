/**
 * `format_number`: the decimal-separator preference applied to the text of a
 * number. The float-to-text conversion `str(value)` happens before this
 * and is an input here.
 */
module Formatting {

  /** Python's `s.replace(target, replacement)` for one-character arguments. */
  function Replace(s: string, target: char, replacement: char): (r: string)
    ensures |r| == |s|
    ensures forall i :: 0 <= i < |s| ==> r[i] == if s[i] == target then replacement else s[i]
  {
    if s == [] then []
    else [if s[0] == target then replacement else s[0]] + Replace(s[1..], target, replacement)
  }

  /**
   * The text of a number under a separator preference: under "Comma" every
   * decimal point becomes a comma; any other preference leaves it alone.
   */
  function FormatNumber(separator: string, text: string): (r: string)
    ensures separator == "Comma" ==> |r| == |text| && '.' !in r
    ensures separator == "Comma" ==>
      forall i :: 0 <= i < |text| ==> r[i] == if text[i] == '.' then ',' else text[i]
    ensures separator != "Comma" ==> r == text
  {
    if separator == "Comma" then Replace(text, '.', ',') else text
  }

  /** Formatting never introduces a character other than the comma. */
  lemma FormatNumberKeepsAbsent(separator: string, text: string, c: char)
    requires c != ',' && c !in text
    ensures c !in FormatNumber(separator, text)
  {
    var r := FormatNumber(separator, text);
    if separator == "Comma" {
      forall i | 0 <= i < |r| ensures r[i] != c {
      }
    }
  }

  /**
   * For a text without commas (as `str` of a float is), the comma form loses
   * nothing: turning the commas back into points gives the text again.
   */
  lemma CommaRoundTrip(text: string)
    requires ',' !in text
    ensures Replace(FormatNumber("Comma", text), ',', '.') == text
  {
  }
}
