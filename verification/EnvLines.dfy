/**
 Lines of an env file: what a rewritten line is read back as, and how text is
 split into lines and put back together.
 */
module EnvLines {
  import opened Wrappers
  import opened Seqs
  import opened PyText
  import opened EnvText

  // ----- runs --------------------------------------------------------------

  lemma {:induction false} SpaceRunBehind(a: string, b: string)
    requires AllSpace(a) && (b == "" || !IsSpace(b[0]))
    ensures SpaceRun(a + b) == |a|
  {
    if a == "" {
      assert a + b == b;
    } else {
      assert IsSpace(a[0]) && forall i :: 0 <= i < |a[1..]| ==> a[1..][i] == a[i + 1];
      TailAppend(a, b);
      SpaceRunBehind(a[1..], b);
    }
  }

  lemma {:induction false} SpaceRunIsSpace(s: string)
    ensures AllSpace(s[..SpaceRun(s)])
  {
    if s != "" && IsSpace(s[0]) {
      SpaceRunIsSpace(s[1..]);
      var n := SpaceRun(s);
      assert forall i :: 1 <= i < n ==> s[i] == s[1..][..n - 1][i - 1];
    }
  }

  lemma {:induction false} BlankRunBehind(a: string, b: string)
    requires AllBlank(a) && (b == "" || !IsBlank(b[0]))
    ensures BlankRun(a + b) == |a|
  {
    if a == "" {
      assert a + b == b;
    } else {
      assert IsBlank(a[0]) && forall i :: 0 <= i < |a[1..]| ==> a[1..][i] == a[i + 1];
      TailAppend(a, b);
      BlankRunBehind(a[1..], b);
    }
  }

  lemma {:induction false} BlankRunIsBlank(s: string)
    ensures AllBlank(s[..BlankRun(s)])
  {
    if s != "" && IsBlank(s[0]) {
      BlankRunIsBlank(s[1..]);
      var n := BlankRun(s);
      assert forall i :: 1 <= i < n ==> s[i] == s[1..][..n - 1][i - 1];
    }
  }

  lemma {:induction false} KeyCharRunBehind(a: string, b: string)
    requires (forall i :: 0 <= i < |a| ==> IsKeyChar(a[i])) && (b == "" || !IsKeyChar(b[0]))
    ensures KeyCharRun(a + b) == |a|
  {
    if a == "" {
      assert a + b == b;
    } else {
      assert forall i :: 0 <= i < |a[1..]| ==> a[1..][i] == a[i + 1];
      TailAppend(a, b);
      KeyCharRunBehind(a[1..], b);
    }
  }

  lemma {:induction false} KeyCharRunIsKey(s: string)
    ensures forall i :: 0 <= i < KeyCharRun(s) ==> IsKeyChar(s[i])
  {
    if s != "" && IsKeyChar(s[0]) {
      KeyCharRunIsKey(s[1..]);
      assert forall i :: 1 <= i < KeyCharRun(s) ==> s[i] == s[1..][i - 1];
    }
  }

  // ----- what a match tells ---------------------------------------------------

  /** The export group: absent, or the word and at least one blank. */
  predicate IsPrefix(s: string) {
    s == "" || (StartsWith(s, EXPORT) && |s| > |EXPORT| && AllBlank(s[|EXPORT|..]))
  }

  lemma MatchKeyIsKey(s: string)
    requires MatchKey(s).Some?
    ensures IsKey(MatchKey(s).value.0)
  {
    KeyCharRunIsKey(s);
  }

  lemma MatchAssignmentParts(s: string)
    requires MatchAssignment(s).Some?
    ensures IsPrefix(MatchAssignment(s).value.0) && IsKey(MatchAssignment(s).value.1)
  {
    hide MatchKey, IsKey;
    var n := |EXPORT|;
    if StartsWith(s, EXPORT) && BlankRun(s[n..]) > 0 && MatchKey(s[n + BlankRun(s[n..])..]).Some? {
      var e := n + BlankRun(s[n..]);
      BlankRunIsBlank(s[n..]);
      MatchKeyIsKey(s[e..]);
      assert s[..e][..n] == s[..n];
      assert s[..e][n..] == s[n..][..e - n];
    } else {
      MatchKeyIsKey(s);
    }
  }

  predicate IsMatch(m: Match) {
    AllSpace(m.indent) && IsPrefix(m.prefix) && IsKey(m.key)
  }

  lemma MatchesHaveParts(line: string)
    ensures MatchActive(line).Some? ==> IsMatch(MatchActive(line).value)
    ensures MatchCommented(line).Some? ==> IsMatch(MatchCommented(line).value)
  {
    hide MatchAssignment, IsPrefix, IsKey, AllSpace, BlankRun;
    SpaceRunIsSpace(line);
    var i := SpaceRun(line);
    if MatchAssignment(line[i..]).Some? {
      MatchAssignmentParts(line[i..]);
    }
    if i < |line| {
      var s := line[i + 1..];
      if MatchAssignment(s[BlankRun(s)..]).Some? {
        MatchAssignmentParts(s[BlankRun(s)..]);
      }
    }
  }

  // ----- a rewritten line is read back -------------------------------------------

  lemma KeyMatches(key: string, value: string)
    requires IsKey(key)
    ensures MatchKey(key + "=" + value) == Some((key, value))
  {
    var s := key + ("=" + value);
    Assoc(key, "=", value);
    KeyCharRunBehind(key, "=" + value);
    assert s[0] == key[0];
    SplitBehind(key, "=" + value, 0);
    assert ("=" + value)[0..] == "=" + value;
    assert key + ("=" + value)[..0] == key;
    BlankRunBehind("", "=" + value);
    assert "" + ("=" + value) == "=" + value;
    SplitBehind(key, "=" + value, 1);
    assert ("=" + value)[1..] == value;
    assert s[|key|] == '=';
  }

  lemma PrefixedKeyMatches(key: string, value: string)
    requires IsKey(key)
    ensures MatchAssignment(key + "=" + value) == Some(("", key, value))
  {
    hide MatchKey;
    KeyMatches(key, value);
    var s := key + "=" + value;
    var n := |EXPORT|;
    if StartsWith(s, EXPORT) {
      NoBlankInKey(key, value);
      var t := s[n..];
      assert t == "" || !IsBlank(t[0]);
      BlankRunBehind("", t);
      assert "" + t == t;
    }
  }

  /** In key=value no blank comes before the equals sign. */
  lemma NoBlankInKey(key: string, value: string)
    requires IsKey(key) && StartsWith(key + "=" + value, EXPORT)
    ensures |EXPORT| < |key + "=" + value| && !IsBlank((key + "=" + value)[|EXPORT|])
  {
    var s := key + "=" + value;
    assert forall i :: 0 <= i < |key| ==> s[i] == key[i];
    assert s[|key|] == '=';
    assert forall i :: 0 <= i < |EXPORT| ==> s[i] == s[..|EXPORT|][i] && EXPORT[i] != '=';
    assert |key| >= |EXPORT|;
    assert |EXPORT| < |key| ==> IsKeyChar(s[|EXPORT|]);
  }

  lemma AssignmentMatches(prefix: string, key: string, value: string)
    requires IsPrefix(prefix) && IsKey(key)
    ensures MatchAssignment(prefix + key + "=" + value) == Some((prefix, key, value))
  {
    hide MatchKey, IsKey, BlankRun;
    var tail := key + "=" + value;
    Assoc(prefix, key, "=");
    Assoc(prefix, key + "=", value);
    if prefix == "" {
      assert prefix + tail == tail;
      PrefixedKeyMatches(key, value);
    } else {
      var n := |EXPORT|;
      var s, blanks := prefix + tail, prefix[n..];
      KeyMatches(key, value);
      KeyHead(key, value);
      BlankRunBehind(blanks, tail);
      PrefixSplits(prefix, tail);
      SplitBehind(prefix, tail, 0);
      assert tail[0..] == tail && prefix + tail[..0] == prefix;
    }
  }

  lemma KeyHead(key: string, value: string)
    requires IsKey(key)
    ensures var s := key + "=" + value; s != "" && !IsBlank(s[0]) && !IsSpace(s[0]) && s[0] != '#'
  {
    assert (key + "=" + value)[0] == key[0];
  }

  lemma PrefixSplits(prefix: string, tail: string)
    requires StartsWith(prefix, EXPORT)
    ensures StartsWith(prefix + tail, EXPORT) && (prefix + tail)[|EXPORT|..] == prefix[|EXPORT|..] + tail
  {
    assert (prefix + tail)[..|EXPORT|] == prefix[..|EXPORT|];
  }

  lemma AssignmentHead(prefix: string, key: string, value: string)
    requires IsPrefix(prefix) && IsKey(key)
    ensures var s := prefix + key + "=" + value; s != "" && !IsBlank(s[0]) && !IsSpace(s[0]) && s[0] != '#'
  {
    if prefix == "" {
      assert prefix + key == key;
      KeyHead(key, value);
    } else {
      assert prefix[..|EXPORT|][0] == prefix[0];
      assert (prefix + key + "=" + value)[0] == prefix[0];
    }
  }

  function Marker(enabled: bool): string {
    if enabled then "" else "# "
  }

  /** The body of a rewritten line. */
  function Body(m: Match, enabled: bool, text: string): string {
    m.indent + Marker(enabled) + m.prefix + m.key + "=" + text
  }

  lemma BodySplits(m: Match, enabled: bool, text: string)
    ensures Body(m, enabled, text) == m.indent + (Marker(enabled) + (m.prefix + m.key + "=" + text))
  {
    var a, b, c, d := m.indent, Marker(enabled), m.prefix, m.key;
    Assoc(a, b, c);
    Assoc(a, b + c, d);
    Assoc(a, b + c + d, "=");
    Assoc(a, b + c + d + "=", text);
    Assoc(b, c, d);
    Assoc(b, c + d, "=");
    Assoc(b, c + d + "=", text);
  }

  /** An enabled line is an active assignment of its key; a disabled one is only a commented assignment. */
  lemma BodyIsReadBack(m: Match, enabled: bool, text: string)
    requires IsMatch(m)
    ensures enabled ==> MatchActive(Body(m, enabled, text)) == Some(m.(rest := text))
    ensures !enabled ==> MatchActive(Body(m, enabled, text)) == None
                         && MatchCommented(Body(m, enabled, text)) == Some(m.(rest := text))
  {
    hide *;
    if enabled {
      EnabledIsReadBack(m, text);
    } else {
      DisabledIsReadBack(m, text);
    }
  }

  lemma EnabledIsReadBack(m: Match, text: string)
    requires IsMatch(m)
    ensures MatchActive(Body(m, true, text)) == Some(m.(rest := text))
  {
    hide MatchAssignment, IsPrefix, IsKey, AllSpace, Body, SpaceRun, BlankRun;
    var tail := m.prefix + m.key + "=" + text;
    BodySplits(m, true, text);
    assert Marker(true) + tail == tail;
    AssignmentHead(m.prefix, m.key, text);
    AssignmentMatches(m.prefix, m.key, text);
    SpaceRunBehind(m.indent, tail);
    SplitBehind(m.indent, tail, 0);
    assert tail[0..] == tail && m.indent + tail[..0] == m.indent;
  }

  lemma DisabledIsReadBack(m: Match, text: string)
    requires IsMatch(m)
    ensures MatchActive(Body(m, false, text)) == None
    ensures MatchCommented(Body(m, false, text)) == Some(m.(rest := text))
  {
    hide MatchAssignment, IsPrefix, IsKey, AllSpace, AllBlank, Body, SpaceRun, BlankRun;
    var tail := m.prefix + m.key + "=" + text;
    var behind := "# " + tail;
    BodySplits(m, false, text);
    AssignmentHead(m.prefix, m.key, text);
    AssignmentMatches(m.prefix, m.key, text);
    HashDoesNotMatch(tail);
    SpaceRunBehind(m.indent, behind);
    SplitBehind(m.indent, behind, 0);
    SplitBehind(m.indent, behind, 1);
    assert behind[0..] == behind && m.indent + behind[..0] == m.indent;
    assert behind[1..] == " " + tail && (m.indent + behind)[|m.indent|] == '#';
    SpaceIsBlank();
    BlankRunBehind(" ", tail);
    assert (" " + tail)[1..] == tail;
  }

  lemma SpaceIsBlank()
    ensures AllBlank(" ")
  {
  }

  lemma HashDoesNotMatch(tail: string)
    ensures MatchAssignment("# " + tail) == None && !IsSpace(("# " + tail)[0])
  {
    var s := "# " + tail;
    assert s[0] == '#';
    assert |s| >= |EXPORT| ==> s[..|EXPORT|][0] == s[0];
  }

  // ----- the line grammar --------------------------------------------------------

  /** The characters of keys: letters, digits and the underscore, and no digit at first. */
  lemma KeyCharsAre(c: char)
    ensures var k := c as int;
            && (IsKeyStart(c) <==> 65 <= k <= 90 || 97 <= k <= 122 || k == 95)
            && (IsKeyChar(c) <==> IsKeyStart(c) || 48 <= k <= 57)
  {
  }

  /** The export group: nothing, or the word export and one or more spaces and tabs. */
  lemma PrefixesAre(s: string)
    ensures IsPrefix(s) <==> s == "" || (|s| > 6 && s[..6] == "export" && forall i :: 6 <= i < |s| ==> s[i] == ' ' || s[i] == '\t')
  {
    if IsPrefix(s) && s != "" {
      assert forall i :: 6 <= i < |s| ==> s[i] == s[6..][i - 6];
    }
  }

  /** An assignment: an optional export word with blanks, a key, blanks, an equals sign, and any text. */
  predicate IsAssignment(s: string, prefix: string, key: string, gap: string, rest: string) {
    s == prefix + (key + (gap + ("=" + rest))) && IsPrefix(prefix) && IsKey(key) && AllBlank(gap)
  }

  /** White space, then an assignment. */
  predicate IsActiveLine(line: string, m: Match, gap: string) {
    && |m.indent| <= |line| && line[..|m.indent|] == m.indent && AllSpace(m.indent)
    && IsAssignment(line[|m.indent|..], m.prefix, m.key, gap, m.rest)
  }

  /** White space, a comment sign, blanks, then an assignment. */
  predicate IsCommentedLine(line: string, m: Match, blanks: string, gap: string) {
    var i := |m.indent|;
    && i + 1 + |blanks| <= |line| && line[..i] == m.indent && AllSpace(m.indent)
    && line[i] == '#' && line[i + 1..i + 1 + |blanks|] == blanks && AllBlank(blanks)
    && IsAssignment(line[i + 1 + |blanks|..], m.prefix, m.key, gap, m.rest)
  }

  lemma MatchKeyIff(s: string, key: string, rest: string)
    ensures MatchKey(s) == Some((key, rest)) <==> exists gap :: IsAssignment(s, "", key, gap, rest)
  {
    hide MatchKey;
    if MatchKey(s) == Some((key, rest)) {
      var gap := MatchKeyParts(s, key, rest);
    }
    if exists gap :: IsAssignment(s, "", key, gap, rest) {
      var gap :| IsAssignment(s, "", key, gap, rest);
      assert s == key + (gap + ("=" + rest));
      SpacedKeyMatches(key, gap, rest);
    }
  }

  lemma MatchKeyParts(s: string, key: string, rest: string) returns (gap: string)
    requires MatchKey(s) == Some((key, rest))
    ensures IsAssignment(s, "", key, gap, rest)
  {
    hide KeyCharRun, BlankRun;
    var k := KeyCharRun(s);
    var t := s[k..];
    var b := BlankRun(t);
    MatchKeyIsKey(s);
    BlankRunIsBlank(t);
    gap := t[..b];
    TakeDrop(s, k);
    TakeDrop(t, b);
    assert t[b..] == s[k + b..];
    HeadTail(s[k + b..]);
    assert s[k + b..][1..] == s[k + b + 1..] == rest;
    assert "" + s == s;
  }

  lemma SliceOfRest(line: string, i: nat, n: nat)
    requires i + n <= |line|
    ensures line[i..][..n] == line[i..i + n] && line[i..][n..] == line[i + n..]
  {
  }

  lemma MatchKeyAt(s: string, k: nat, b: nat)
    requires s != "" && IsKeyStart(s[0]) && KeyCharRun(s) == k && BlankRun(s[k..]) == b && k + b < |s| && s[k + b] == '='
    ensures MatchKey(s) == Some((s[..k], s[k + b + 1..]))
  {
    hide KeyCharRun, BlankRun;
  }

  /** The pieces of a key, blanks, an equals sign and a rest. */
  lemma KeyPieces(key: string, gap: string, rest: string)
    requires key != ""
    ensures var s := key + (gap + ("=" + rest));
            && s[0] == key[0] && s[..|key|] == key && s[|key|..] == gap + ("=" + rest)
            && |key| + |gap| < |s| && s[|key| + |gap|] == '=' && s[|key| + |gap| + 1..] == rest
  {
    var tail := gap + ("=" + rest);
    SplitBehind(key, tail, 0);
    SplitBehind(key, tail, |gap| + 1);
    SplitBehind(gap, "=" + rest, 1);
    assert tail[0..] == tail && key + tail[..0] == key && ("=" + rest)[1..] == rest;
  }

  lemma SpacedKeyMatches(key: string, gap: string, rest: string)
    requires IsKey(key) && AllBlank(gap)
    ensures MatchKey(key + (gap + ("=" + rest))) == Some((key, rest))
  {
    hide KeyCharRun, BlankRun, MatchKey, AllBlank;
    var tail := gap + ("=" + rest);
    KeyPieces(key, gap, rest);
    GapHead(gap, rest);
    KeyCharRunBehind(key, tail);
    BlankRunBehind(gap, "=" + rest);
    MatchKeyAt(key + tail, |key|, |gap|);
  }

  lemma GapHead(gap: string, rest: string)
    requires AllBlank(gap)
    ensures var tail := gap + ("=" + rest); tail != "" && !IsKeyChar(tail[0]) && (gap == "" ==> tail[0] == '=')
  {
    assert gap != "" ==> (gap + ("=" + rest))[0] == gap[0] && IsBlank(gap[0]);
  }

  /** A key that no export word comes before is not taken for one. */
  lemma BareKeyMatches(s: string, key: string, gap: string, rest: string)
    requires IsAssignment(s, "", key, gap, rest)
    ensures MatchAssignment(s) == Some(("", key, rest))
  {
    hide MatchKey, IsPrefix;
    assert s == key + (gap + ("=" + rest));
    SpacedKeyMatches(key, gap, rest);
    var n := |EXPORT|;
    if StartsWith(s, EXPORT) {
      ExportIsTheKey(s, key, gap, rest);
    }
  }

  lemma ExportIsTheKey(s: string, key: string, gap: string, rest: string)
    requires s == key + (gap + ("=" + rest)) && IsKey(key) && AllBlank(gap) && StartsWith(s, EXPORT)
    ensures var b := BlankRun(s[|EXPORT|..]); b == 0 || MatchKey(s[|EXPORT| + b..]).None?
  {
    hide MatchKey, AllBlank, BlankRun;
    var n := |EXPORT|;
    KeyPieces(key, gap, rest);
    GapHead(gap, rest);
    ExportIsShorter(s, key);
    if |key| > n {
      assert s[n..][0] == s[n] == s[..|key|][n];
      LongerKey(s[n..], key[n]);
    } else {
      BlankRunBehind(gap, "=" + rest);
      EqualsIsNoKey(rest);
      SliceOfRest(s, n, |gap|);
      SplitBehind(gap, "=" + rest, 0);
      assert ("=" + rest)[0..] == "=" + rest;
    }
  }

  lemma LongerKey(t: string, c: char)
    requires t != "" && t[0] == c && IsKeyChar(c)
    ensures BlankRun(t) == 0
  {
  }

  lemma ExportIsShorter(s: string, key: string)
    requires |key| < |s| && s[..|key|] == key && !IsKeyChar(s[|key|]) && StartsWith(s, EXPORT)
    ensures |key| >= |EXPORT|
  {
    assert forall i :: 0 <= i < |EXPORT| ==> s[i] == s[..|EXPORT|][i] == EXPORT[i] && IsKeyChar(EXPORT[i]);
  }

  lemma EqualsIsNoKey(rest: string)
    ensures MatchKey("=" + rest).None?
  {
  }

  lemma ExportedKeyMatches(s: string, prefix: string, key: string, gap: string, rest: string)
    requires IsAssignment(s, prefix, key, gap, rest) && prefix != ""
    ensures MatchAssignment(s) == Some((prefix, key, rest))
  {
    hide MatchKey, BlankRun;
    var n := |EXPORT|;
    var tail, blanks := key + (gap + ("=" + rest)), prefix[n..];
    SpacedKeyMatches(key, gap, rest);
    assert tail[0] == key[0] && !IsBlank(tail[0]);
    BlankRunBehind(blanks, tail);
    PrefixSplits(prefix, tail);
    SplitBehind(prefix, tail, 0);
    assert tail[0..] == tail && prefix + tail[..0] == prefix;
  }

  lemma AssignmentIff(s: string, prefix: string, key: string, rest: string)
    ensures MatchAssignment(s) == Some((prefix, key, rest)) <==> exists gap :: IsAssignment(s, prefix, key, gap, rest)
  {
    hide MatchKey, IsKey;
    if MatchAssignment(s) == Some((prefix, key, rest)) {
      var n := |EXPORT|;
      if StartsWith(s, EXPORT) && BlankRun(s[n..]) > 0 && MatchKey(s[n + BlankRun(s[n..])..]).Some? {
        var e := n + BlankRun(s[n..]);
        var v := MatchKey(s[e..]).value;
        assert MatchAssignment(s) == Some((s[..e], v.0, v.1));
        MatchKeyIff(s[e..], key, rest);
        MatchAssignmentParts(s);
        var gap :| IsAssignment(s[e..], "", key, gap, rest);
        TakeDrop(s, e);
        assert "" + (key + (gap + ("=" + rest))) == key + (gap + ("=" + rest));
        assert IsAssignment(s, prefix, key, gap, rest);
      } else {
        MatchKeyIff(s, key, rest);
      }
    }
    if exists gap :: IsAssignment(s, prefix, key, gap, rest) {
      var gap :| IsAssignment(s, prefix, key, gap, rest);
      if prefix == "" {
        BareKeyMatches(s, key, gap, rest);
      } else {
        ExportedKeyMatches(s, prefix, key, gap, rest);
      }
    }
  }

  lemma AssignmentStarts(s: string, prefix: string, key: string, gap: string, rest: string)
    requires IsAssignment(s, prefix, key, gap, rest)
    ensures s != "" && !IsSpace(s[0]) && !IsBlank(s[0]) && s[0] != '#'
  {
    if prefix == "" {
      assert s == key + (gap + ("=" + rest));
      assert s[0] == key[0];
    } else {
      assert prefix[..|EXPORT|][0] == prefix[0] == s[0];
    }
  }

  /** Exactly the lines that are active assignments match as such, with exactly their parts. */
  lemma ActiveIff(line: string, m: Match)
    ensures MatchActive(line) == Some(m) <==> exists gap :: IsActiveLine(line, m, gap)
  {
    hide MatchAssignment, IsAssignment, SpaceRun;
    var i := SpaceRun(line);
    SpaceRunIsSpace(line);
    if MatchActive(line) == Some(m) {
      AssignmentIff(line[i..], m.prefix, m.key, m.rest);
      var gap :| IsAssignment(line[i..], m.prefix, m.key, gap, m.rest);
      assert IsActiveLine(line, m, gap);
    }
    if exists gap :: IsActiveLine(line, m, gap) {
      var gap :| IsActiveLine(line, m, gap);
      var s := line[|m.indent|..];
      AssignmentStarts(s, m.prefix, m.key, gap, m.rest);
      SpaceRunBehind(m.indent, s);
      TakeDrop(line, |m.indent|);
      AssignmentIff(s, m.prefix, m.key, m.rest);
    }
  }

  /** Exactly the lines that are commented assignments match as such, with exactly their parts. */
  lemma CommentedIff(line: string, m: Match)
    ensures MatchCommented(line) == Some(m) <==> exists blanks, gap :: IsCommentedLine(line, m, blanks, gap)
  {
    hide MatchAssignment, IsAssignment, SpaceRun, BlankRun;
    SpaceRunIsSpace(line);
    if MatchCommented(line) == Some(m) {
      CommentedHasParts(line, m);
    }
    if exists blanks, gap :: IsCommentedLine(line, m, blanks, gap) {
      var blanks, gap :| IsCommentedLine(line, m, blanks, gap);
      CommentedMatches(line, m, blanks, gap);
    }
  }

  lemma CommentedAt(line: string, i: nat, b: nat, prefix: string, key: string, rest: string)
    requires SpaceRun(line) == i < |line| && line[i] == '#' && BlankRun(line[i + 1..]) == b
    requires MatchAssignment(line[i + 1..][b..]) == Some((prefix, key, rest))
    ensures MatchCommented(line) == Some(Match(line[..i], prefix, key, rest))
  {
    hide MatchAssignment, SpaceRun, BlankRun;
  }

  lemma CommentedMatches(line: string, m: Match, blanks: string, gap: string)
    requires IsCommentedLine(line, m, blanks, gap)
    ensures MatchCommented(line) == Some(m)
  {
    hide MatchAssignment, MatchCommented, IsAssignment, SpaceRun, BlankRun, AllSpace, AllBlank, IsBlank, IsSpace;
    var i := |m.indent|;
    var s, t := line[i + 1..], line[i + 1 + |blanks|..];
    SliceOfRest(line, i + 1, |blanks|);
    AssignmentStarts(t, m.prefix, m.key, gap, m.rest);
    AssignmentMatchesSo(t, m.prefix, m.key, gap, m.rest);
    TakeDrop(line, i);
    HashIsNoSpace();
    SpaceRunBehind(m.indent, line[i..]);
    TakeDrop(s, |blanks|);
    BlankRunBehind(blanks, t);
    CommentedAt(line, i, |blanks|, m.prefix, m.key, m.rest);
  }

  lemma AssignmentMatchesSo(s: string, prefix: string, key: string, gap: string, rest: string)
    requires IsAssignment(s, prefix, key, gap, rest)
    ensures MatchAssignment(s) == Some((prefix, key, rest))
  {
    hide MatchAssignment, IsAssignment;
    if prefix == "" {
      BareKeyMatches(s, key, gap, rest);
    } else {
      ExportedKeyMatches(s, prefix, key, gap, rest);
    }
  }

  lemma HashIsNoSpace()
    ensures !IsSpace('#')
  {
  }

  lemma CommentedHasParts(line: string, m: Match)
    requires MatchCommented(line) == Some(m)
    ensures exists blanks, gap :: IsCommentedLine(line, m, blanks, gap)
  {
    hide MatchAssignment, IsAssignment, SpaceRun, BlankRun;
    var i := SpaceRun(line);
    SpaceRunIsSpace(line);
    var s := line[i + 1..];
    var b := BlankRun(s);
    BlankRunIsBlank(s);
    AssignmentIff(s[b..], m.prefix, m.key, m.rest);
    var gap :| IsAssignment(s[b..], m.prefix, m.key, gap, m.rest);
    SliceOfRest(line, i + 1, b);
    assert IsCommentedLine(line, m, s[..b], gap);
  }

  // ----- splitting into lines and joining ---------------------------------------

  predicate NoBreak(s: string) {
    forall i :: 0 <= i < |s| ==> !IsLineBreak(s[i])
  }

  predicate IsEol(s: string) {
    s == "\n" || s == "\r\n"
  }

  /** A line that LF or CR LF ends, and that has no other break. */
  predicate Ended(line: string) {
    exists n :: 0 <= n <= |line| && NoBreak(line[..n]) && IsEol(line[n..])
  }

  /** The lines of a file: every line but a last one is ended; deleted lines are "". */
  predicate Lines(ls: seq<string>) {
    forall i :: 0 <= i < |ls| ==> ls[i] == "" || Ended(ls[i]) || (i == |ls| - 1 && NoBreak(ls[i]))
  }

  lemma {:induction false} LineLengthEnded(body: string, eol: string, rest: string)
    requires NoBreak(body) && IsEol(eol)
    ensures LineLength(body + eol + rest) == |body + eol|
  {
    var s := body + eol + rest;
    if body == "" {
      assert s[0] == eol[0] && (|eol| == 2 ==> s[1] == eol[1]);
    } else {
      assert s[0] == body[0] && !IsLineBreak(body[0]);
      assert forall i :: 0 <= i < |body[1..]| ==> body[1..][i] == body[i + 1];
      assert s[1..] == body[1..] + eol + rest;
      LineLengthEnded(body[1..], eol, rest);
    }
  }

  lemma {:induction false} LineLengthBare(body: string)
    requires NoBreak(body) && body != ""
    ensures LineLength(body) == |body|
  {
    assert !IsLineBreak(body[0]);
    if |body| > 1 {
      assert forall i :: 0 <= i < |body[1..]| ==> body[1..][i] == body[i + 1];
      LineLengthBare(body[1..]);
    }
  }

  /** Splitting after joining gives the lines back, without the deleted ones. */
  lemma {:induction false} SplitJoined(ls: seq<string>)
    requires Lines(ls)
    ensures SplitLinesKeep(Concat(ls)) == NonEmpty(ls)
  {
    if |ls| > 0 {
      var l, t := ls[0], ls[1..];
      assert forall i :: 0 <= i < |t| ==> t[i] == ls[i + 1];
      SplitJoined(t);
      if l == "" {
        assert Concat(ls) == Concat(t);
      } else if Ended(l) {
        var n :| 0 <= n <= |l| && NoBreak(l[..n]) && IsEol(l[n..]);
        TakeDrop(l, n);
        LineLengthEnded(l[..n], l[n..], Concat(t));
      } else {
        LineLengthBare(l);
        assert Concat(ls) == l + "" == l;
      }
    }
  }

  function NonEmpty(ls: seq<string>): seq<string> {
    if |ls| == 0 then []
    else (if ls[0] != "" then [ls[0]] else []) + NonEmpty(ls[1..])
  }

  predicate PlainAt(text: string, i: nat) {
    i < |text| && IsLineBreak(text[i]) ==>
      text[i] == '\n' || (text[i] == '\r' && i + 1 < |text| && text[i + 1] == '\n')
  }

  /** Text whose only breaks are LF and CR LF. */
  predicate PlainBreaks(text: string) {
    forall i: nat :: i < |text| ==> PlainAt(text, i)
  }

  lemma PlainTail(s: string, n: nat)
    requires PlainBreaks(s) && n <= |s|
    ensures PlainBreaks(s[n..])
  {
    var t := s[n..];
    forall i: nat | i < |t| ensures PlainAt(t, i) {
      assert PlainAt(s, n + i);
      assert t[i] == s[n + i] && (i + 1 < |t| ==> t[i + 1] == s[n + i + 1]);
    }
  }

  lemma EndedCons(c: char, l: string)
    requires Ended(l) && !IsLineBreak(c)
    ensures Ended([c] + l)
  {
    var k :| 0 <= k <= |l| && NoBreak(l[..k]) && IsEol(l[k..]);
    var m := [c] + l;
    assert m[..k + 1] == [c] + l[..k] && m[k + 1..] == l[k..];
    assert NoBreak(m[..k + 1]);
  }

  lemma EndedEmpty(eol: string)
    requires IsEol(eol)
    ensures Ended(eol)
  {
    assert NoBreak(eol[..0]) && eol[0..] == eol;
  }

  /** The first line of plain text is ended, or bare and all there is. */
  lemma {:induction false} FirstLinePlain(s: string)
    requires PlainBreaks(s) && s != ""
    ensures var n := LineLength(s); Ended(s[..n]) || (n == |s| && NoBreak(s))
  {
    hide Ended, PlainBreaks;
    var n := LineLength(s);
    assert PlainAt(s, 0) by { PlainHead(s); }
    if s[0] == '\r' {
      assert s[..2] == "\r\n";
      EndedEmpty("\r\n");
    } else if s[0] == '\n' {
      assert s[..1] == "\n";
      EndedEmpty("\n");
    } else if |s| > 1 {
      PlainTail(s, 1);
      FirstLinePlain(s[1..]);
      HeadTail(s);
      assert s[..n] == [s[0]] + s[1..][..n - 1];
      if Ended(s[1..][..n - 1]) {
        EndedCons(s[0], s[1..][..n - 1]);
      }
    }
  }

  lemma PlainHead(s: string)
    requires PlainBreaks(s) && s != ""
    ensures PlainAt(s, 0)
  {
  }

  /** Splitting plain text gives lines that join to it. */
  lemma {:induction false} SplitPlain(s: string)
    requires PlainBreaks(s)
    ensures Lines(SplitLinesKeep(s)) && Concat(SplitLinesKeep(s)) == s
    ensures forall i :: 0 <= i < |SplitLinesKeep(s)| ==> SplitLinesKeep(s)[i] != ""
    decreases |s|
  {
    if s != "" {
      var n := LineLength(s);
      FirstLinePlain(s);
      PlainTail(s, n);
      SplitPlain(s[n..]);
      TakeDrop(s, n);
      var ls, t := SplitLinesKeep(s), SplitLinesKeep(s[n..]);
      assert ls[1..] == t;
      assert n == |s| ==> t == [] && s[..n] == s;
    }
  }
}
