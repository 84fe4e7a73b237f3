/**
 The Python string operations that the modelled code relies on: str.lstrip,
 str.split, str.splitlines, str.join and str.startswith, over Unicode scalar
 values.
 */
module PyText {
  import opened Seqs

  /** str.isspace(), which is also the regular-expression class \s. */
  predicate IsSpace(c: char) {
    var k := c as int;
    || 0x09 <= k <= 0x0d || 0x1c <= k <= 0x20 || k == 0x85 || k == 0xa0
    || k == 0x1680 || 0x2000 <= k <= 0x200a || k == 0x2028 || k == 0x2029
    || k == 0x202f || k == 0x205f || k == 0x3000
  }

  /** The characters at which str.splitlines() ends a line. */
  predicate IsLineBreak(c: char) {
    var k := c as int;
    0x0a <= k <= 0x0d || 0x1c <= k <= 0x1e || k == 0x85 || k == 0x2028 || k == 0x2029
  }

  predicate AllSpace(s: string) {
    forall i :: 0 <= i < |s| ==> IsSpace(s[i])
  }

  predicate StartsWith(s: string, prefix: string) {
    |prefix| <= |s| && s[..|prefix|] == prefix
  }

  /** str.lstrip() */
  function LStrip(s: string): (r: string)
    ensures |r| <= |s|
    ensures r != "" ==> !IsSpace(r[0])
  {
    if s != "" && IsSpace(s[0]) then LStrip(s[1..]) else s
  }

  /** sep.join(parts) */
  function Join(sep: string, parts: seq<string>): string {
    if |parts| == 0 then ""
    else if |parts| == 1 then parts[0]
    else parts[0] + sep + Join(sep, parts[1..])
  }

  function Concat(parts: seq<string>): string {
    if |parts| == 0 then "" else parts[0] + Concat(parts[1..])
  }

  lemma {:induction false} ConcatAppend(a: seq<string>, b: seq<string>)
    ensures Concat(a + b) == Concat(a) + Concat(b)
  {
    if |a| == 0 {
      assert a + b == b;
    } else {
      ConcatAppend(a[1..], b);
      TailAppend(a, b);
      Assoc(a[0], Concat(a[1..]), Concat(b));
    }
  }

  /** s.split(c) for a one-character separator: never empty. */
  function SplitOn(c: char, s: string): (parts: seq<string>)
    ensures |parts| >= 1
  {
    if s == "" then [""]
    else
      var parts := SplitOn(c, s[1..]);
      if s[0] == c then [""] + parts
      else [[s[0]] + parts[0]] + parts[1..]
  }

  /** Length of the first line of s with its terminator; CR LF is one terminator. */
  function LineLength(s: string): (n: nat)
    requires s != ""
    ensures 1 <= n <= |s|
  {
    if s[0] == '\r' && |s| >= 2 && s[1] == '\n' then 2
    else if IsLineBreak(s[0]) || |s| == 1 then 1
    else 1 + LineLength(s[1..])
  }

  /** s.splitlines(keepends=True) */
  function SplitLinesKeep(s: string): seq<string> {
    if s == "" then []
    else
      var n := LineLength(s);
      [s[..n]] + SplitLinesKeep(s[n..])
  }

  /** A line of SplitLinesKeep without its terminator. */
  function Chomp(line: string): string {
    if |line| >= 2 && line[|line| - 2..] == "\r\n" then line[..|line| - 2]
    else if |line| >= 1 && IsLineBreak(line[|line| - 1]) then line[..|line| - 1]
    else line
  }

  /** s.splitlines() */
  function SplitLines(s: string): seq<string> {
    if s == "" then []
    else
      var n := LineLength(s);
      [Chomp(s[..n])] + SplitLines(s[n..])
  }
}
