/** The text helpers a cue sheet is taken apart with; characters are bytes. */
module CueText {
  function ToLower(c: char): char {
    if 'A' <= c <= 'Z' then c + 32 as char else c
  }

  predicate StartsWithNoCase(s: string, prefix: string) {
    |prefix| <= |s| && forall i :: 0 <= i < |prefix| ==> ToLower(s[i]) == ToLower(prefix[i])
  }

  predicate IsSpace(c: char) { c == ' ' || 9 as char <= c <= 13 as char }

  predicate IsDigit(c: char) { '0' <= c <= '9' }

  function TrimLeft(s: string): string {
    if s != [] && IsSpace(s[0]) then TrimLeft(s[1..]) else s
  }

  function TrimRight(s: string): string {
    if s != [] && IsSpace(s[|s| - 1]) then TrimRight(s[..|s| - 1]) else s
  }

  function DropDigits(s: string): string {
    if s != [] && IsDigit(s[0]) then DropDigits(s[1..]) else s
  }

  /** The first place of c from i on, or |s|. */
  function IndexOf(s: string, c: char, i: nat): (k: nat)
    requires i <= |s|
    ensures i <= k <= |s|
    decreases |s| - i
  {
    if i == |s| || s[i] == c then i else IndexOf(s, c, i + 1)
  }

  /** The pieces between the delimiters; none for the empty string. */
  function Split(s: string, delimiter: char): seq<string> {
    if s == [] then [] else Pieces(s, delimiter)
  }

  function Pieces(s: string, delimiter: char): seq<string>
    decreases |s|
  {
    var k := IndexOf(s, delimiter, 0);
    if k == |s| then [s] else [s[..k]] + Pieces(s[k + 1..], delimiter)
  }

  function DigitsValue(s: string, sum: int): int {
    if s != [] && IsDigit(s[0]) then DigitsValue(s[1..], 10 * sum + (s[0] as int - '0' as int)) else sum
  }

  /** The number at the start, after white space and a sign; 0 without one. */
  function Atoi(s: string): int {
    var t := TrimLeft(s);
    if t != [] && t[0] == '-' then -DigitsValue(t[1..], 0)
    else if t != [] && t[0] == '+' then DigitsValue(t[1..], 0)
    else DigitsValue(t, 0)
  }

  /** What stands in quotes, or all of it without white space around. */
  function ExtractInfo(line: string): string {
    var l := IndexOf(line, '"', 0);
    if l < |line| then
      var r := IndexOf(line, '"', l + 1);
      if r < |line| then line[l + 1..r] else TrimRight(TrimLeft(line))
    else TrimRight(TrimLeft(line))
  }

  /** Minutes, seconds and frames after the index number, in frames; -1 when there are not three parts. */
  function ExtractTimeFromIndex(line: string): int
    requires |line| >= 5
  {
    var time := Split(TrimLeft(DropDigits(TrimLeft(line[5..]))), ':');
    if |time| != 3 then -1 else (Atoi(time[0]) * 60 + Atoi(time[1])) * 75 + Atoi(time[2])
  }

  function ExtractNumericInfo(info: string): int {
    var number := TrimLeft(info);
    if number == [] || !IsDigit(number[0]) then -1 else Atoi(number)
  }
}
