/*
 * Character-level helpers shared by the command parser and the fleet
 * lookup: case folding and the whitespace set used by Python's str.split().
 */
module Text {

  /** Lower-cases the ASCII letters A-Z and leaves every other character. */
  function LowerChar(ch: char): (r: char)
    ensures 'A' <= ch <= 'Z' ==> 'a' <= r <= 'z' && r as int == ch as int + 32
    ensures !('A' <= ch <= 'Z') ==> r == ch
  {
    if 'A' <= ch <= 'Z' then (ch as int + 32) as char else ch
  }

  function Lower(s: string): (r: string)
    ensures |r| == |s| && forall i :: 0 <= i < |s| ==> r[i] == LowerChar(s[i])
  {
    seq(|s|, i requires 0 <= i < |s| => LowerChar(s[i]))
  }

  /** The characters str.split() and str.strip() treat as whitespace. */
  predicate IsSpace(ch: char)
  {
    ('\t' <= ch <= '\r') || ('\U{1c}' <= ch <= '\U{1f}') || ch == ' '
    || ch == '\U{85}' || ch == '\U{a0}' || ch == '\U{1680}'
    || ('\U{2000}' <= ch <= '\U{200a}') || ch == '\U{2028}' || ch == '\U{2029}'
    || ch == '\U{202f}' || ch == '\U{205f}' || ch == '\U{3000}'
  }

  predicate NoSpace(s: string)
  {
    forall i :: 0 <= i < |s| ==> !IsSpace(s[i])
  }
}
