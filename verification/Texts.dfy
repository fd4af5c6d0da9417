/** Text operations on characters of one byte: letter case and white space are ASCII's. */
module Texts {
  predicate EndsWith(s: string, t: string) { |t| <= |s| && s[|s| - |t|..] == t }

  predicate StartsWith(s: string, t: string) { |t| <= |s| && s[..|t|] == t }

  predicate OccursAt(s: string, t: string, k: nat) { k + |t| <= |s| && s[k..k + |t|] == t }

  predicate Contains(s: string, t: string) { exists k :: 0 <= k <= |s| && OccursAt(s, t, k) }

  function LowerChar(c: char): char {
    if 'A' <= c <= 'Z' then ((c as int) + 32) as char else c
  }

  function Lower(s: string): (r: string)
    ensures |r| == |s| && forall k :: 0 <= k < |s| ==> r[k] == LowerChar(s[k])
  {
    seq(|s|, k requires 0 <= k < |s| => LowerChar(s[k]))
  }

  predicate IsSpace(c: char) { c == ' ' || c == '\t' || c == '\n' || c == '\r' || c == 12 as char }

  function TrimLeft(s: string): string { if s != "" && IsSpace(s[0]) then TrimLeft(s[1..]) else s }

  function TrimRight(s: string): string {
    if s != "" && IsSpace(s[|s| - 1]) then TrimRight(s[..|s| - 1]) else s
  }

  function Trim(s: string): string { TrimRight(TrimLeft(s)) }
}
