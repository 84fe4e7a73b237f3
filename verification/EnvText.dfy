/**
 The line grammar of the env-file editor (sparkdeck/envfile_settings.py): the two
 line patterns, _split_value, and _shell_literal.
 */
module EnvText {
  import opened Wrappers
  import opened Seqs
  import opened PyText

  predicate IsBlank(c: char) {
    c == ' ' || c == '\t'
  }

  predicate IsKeyStart(c: char) {
    'A' <= c <= 'Z' || 'a' <= c <= 'z' || c == '_'
  }

  predicate IsKeyChar(c: char) {
    IsKeyStart(c) || '0' <= c <= '9'
  }

  /** _KEY_NAME.fullmatch */
  predicate IsKey(s: string) {
    s != "" && IsKeyStart(s[0]) && forall i :: 0 <= i < |s| ==> IsKeyChar(s[i])
  }

  // ----- greedy runs ----------------------------------------------------

  function SpaceRun(s: string): (n: nat)
    ensures n <= |s|
    ensures n < |s| ==> !IsSpace(s[n])
  {
    if s != "" && IsSpace(s[0]) then 1 + SpaceRun(s[1..]) else 0
  }

  function BlankRun(s: string): (n: nat)
    ensures n <= |s|
    ensures n < |s| ==> !IsBlank(s[n])
  {
    if s != "" && IsBlank(s[0]) then 1 + BlankRun(s[1..]) else 0
  }

  function KeyCharRun(s: string): (n: nat)
    ensures n <= |s|
  {
    if s != "" && IsKeyChar(s[0]) then 1 + KeyCharRun(s[1..]) else 0
  }

  predicate AllBlank(s: string) {
    forall i :: 0 <= i < |s| ==> IsBlank(s[i])
  }

  // ----- the two line patterns -------------------------------------------

  /** A matched assignment: `rest` is the text behind the equals sign. */
  datatype Match = Match(indent: string, prefix: string, key: string, rest: string)

  /** key [ \t]* = */
  function MatchKey(s: string): Option<(string, string)> {
    if s == "" || !IsKeyStart(s[0]) then None
    else
      var k := KeyCharRun(s);
      var b := BlankRun(s[k..]);
      if k + b < |s| && s[k + b] == '=' then Some((s[..k], s[k + b + 1..])) else None
  }

  const EXPORT := "export"

  /** (export[ \t]+)? key [ \t]* = : the export group is given up when no key follows it. */
  function MatchAssignment(s: string): Option<(string, string, string)> {
    var e := |EXPORT| + (if StartsWith(s, EXPORT) then BlankRun(s[|EXPORT|..]) else 0);
    if StartsWith(s, EXPORT) && e > |EXPORT| && MatchKey(s[e..]).Some? then
      var (key, rest) := MatchKey(s[e..]).value;
      Some((s[..e], key, rest))
    else
      match MatchKey(s)
      case None => None
      case Some((key, rest)) => Some(("", key, rest))
  }

  /** _ACTIVE_LINE.match */
  function MatchActive(line: string): Option<Match> {
    var i := SpaceRun(line);
    match MatchAssignment(line[i..])
    case None => None
    case Some((prefix, key, rest)) => Some(Match(line[..i], prefix, key, rest))
  }

  /** _COMMENTED_LINE.match */
  function MatchCommented(line: string): Option<Match> {
    var i := SpaceRun(line);
    if i == |line| || line[i] != '#' then None
    else
      var s := line[i + 1..];
      match MatchAssignment(s[BlankRun(s)..])
      case None => None
      case Some((prefix, key, rest)) => Some(Match(line[..i], prefix, key, rest))
  }

  // ----- values ------------------------------------------------------------

  /** Position of the first \s+# , or |s|. */
  function FindMarker(s: string): (n: nat)
    ensures n <= |s|
  {
    if s == "" then 0
    else if IsSpace(s[0]) && SpaceRun(s) < |s| && s[SpaceRun(s)] == '#' then 0
    else 1 + FindMarker(s[1..])
  }

  /** Position of the first single quote, or |s|. */
  function FindQuote(s: string): (n: nat)
    ensures n <= |s|
    ensures n < |s| ==> s[n] == '\''
    ensures forall i :: 0 <= i < n ==> s[i] != '\''
  {
    if s == "" || s[0] == '\'' then 0 else 1 + FindQuote(s[1..])
  }

  /** Position behind the closing double quote at or after index, or |s| + 1 when there is none. */
  function DoubleEnd(s: string, index: nat): (n: nat)
    ensures index < |s| ==> n > index
    ensures n <= |s| + 1 || n == index
    decreases |s| - index
  {
    if index >= |s| then |s| + 1
    else if s[index] == '\\' then DoubleEnd(s, index + 2)
    else if s[index] == '"' then index + 1
    else DoubleEnd(s, index + 1)
  }

  /** The split of text that does not start with whitespace. */
  function SplitText(text: string): (string, string) {
    if text != "" && text[0] == '\'' then
      var closing := 1 + FindQuote(text[1..]);
      if closing < |text| then (text[..closing + 1], text[closing + 1..]) else (text, "")
    else if text != "" && text[0] == '"' then
      var end := DoubleEnd(text, 1);
      if end <= |text| then (text[..end], text[end..]) else (text, "")
    else
      var n := FindMarker(text);
      (text[..n], text[n..])
  }

  /** _split_value: the value, and the trailing inline comment. */
  function SplitValue(raw: string): (string, string) {
    SplitText(LStrip(raw))
  }

  /** _split_value with its scan over a double-quoted value. */
  method SplitValueScan(raw: string) returns (value: string, comment: string)
    ensures (value, comment) == SplitValue(raw)
  {
    var text := LStrip(raw);
    if text != "" && text[0] == '\'' {
      var closing := 1 + FindQuote(text[1..]);
      if closing < |text| {
        return text[..closing + 1], text[closing + 1..];
      }
      return text, "";
    }
    if text != "" && text[0] == '"' {
      var index := 1;
      while index < |text|
        invariant DoubleEnd(text, index) == DoubleEnd(text, 1)
        decreases |text| - index
      {
        if text[index] == '\\' {
          index := index + 2;
          continue;
        }
        if text[index] == '"' {
          return text[..index + 1], text[index + 1..];
        }
        index := index + 1;
      }
      return text, "";
    }
    var n := FindMarker(text);
    return text[..n], text[n..];
  }

  // ----- what a split is, without the scans ------------------------------------

  /** The text between double quotes: a backslash takes the next character with it. */
  predicate IsDoubleBody(w: string) {
    w == ""
    || (w[0] == '\\' && |w| >= 2 && IsDoubleBody(w[2..]))
    || (w[0] != '\\' && w[0] != '"' && IsDoubleBody(w[1..]))
  }

  /** Such a text, or one that a lone backslash ends. */
  predicate IsOpenBody(w: string) {
    IsDoubleBody(w) || (w[|w| - 1] == '\\' && IsDoubleBody(w[..|w| - 1]))
  }

  lemma {:induction false} StripsSpace(space: string, text: string)
    requires AllSpace(space) && (text == "" || !IsSpace(text[0]))
    ensures LStrip(space + text) == text
  {
    if space == "" {
      assert space + text == text;
    } else {
      TailAppend(space, text);
      StripsSpace(space[1..], text);
    }
  }

  /** Where the scan stops behind a body that ends at `from + |w|`. */
  lemma {:induction false} DoubleEndBehind(s: string, from: nat, w: string)
    requires from + |w| <= |s| && s[from..from + |w|] == w && IsDoubleBody(w)
    ensures DoubleEnd(s, from) == DoubleEnd(s, from + |w|)
    decreases |w|
  {
    if w != "" {
      var n := if w[0] == '\\' then 2 else 1;
      assert s[from] == w[0];
      assert s[from + n..from + n + |w[n..]|] == w[n..];
      DoubleEndBehind(s, from + n, w[n..]);
    }
  }

  /**
   A double-quoted value, whatever stands behind its closing quote: exactly the quoted
   text is the value, escaped quotes and comment markers inside included.
   */
  lemma DoubleQuotedSplits(space: string, w: string, rest: string)
    requires AllSpace(space) && IsDoubleBody(w)
    ensures SplitValue(space + ("\"" + w + "\"" + rest)) == ("\"" + w + "\"", rest)
  {
    hide DoubleEnd, FindQuote, FindMarker, LStrip, IsDoubleBody;
    var q := "\"" + w + "\"";
    var text := q + rest;
    StripsSpace(space, text);
    ClosingQuote(w, rest);
    assert text[0] == '"' && |q| == |w| + 2;
    assert text[..|q|] == q && text[|q|..] == rest;
  }

  lemma ClosingQuote(w: string, rest: string)
    requires IsDoubleBody(w)
    ensures DoubleEnd("\"" + w + "\"" + rest, 1) == |w| + 2
  {
    hide IsDoubleBody;
    var text := "\"" + w + "\"" + rest;
    assert text[1..1 + |w|] == w && text[1 + |w|] == '"';
    DoubleEndBehind(text, 1, w);
  }

  /** A double quote that nothing closes takes all of the text. */
  lemma DoubleQuoteUnclosed(space: string, w: string)
    requires AllSpace(space) && IsOpenBody(w)
    ensures SplitValue(space + ("\"" + w)) == ("\"" + w, "")
  {
    var text := "\"" + w;
    StripsSpace(space, text);
    assert text[0] == '"';
    if IsDoubleBody(w) {
      assert text[1..1 + |w|] == w;
      DoubleEndBehind(text, 1, w);
    } else {
      assert text[1..|w|] == w[..|w| - 1] && text[|w|] == '\\';
      DoubleEndBehind(text, 1, w[..|w| - 1]);
    }
  }

  /** Each backslash and double quote with a backslash before it. */
  function EscapeDouble(v: string): string {
    if v == "" then ""
    else (if v[0] == '\\' || v[0] == '"' then ['\\', v[0]] else [v[0]]) + EscapeDouble(v[1..])
  }

  lemma {:induction false} EscapedIsBody(v: string)
    ensures IsDoubleBody(EscapeDouble(v))
  {
    if v != "" {
      EscapedIsBody(v[1..]);
      var e := EscapeDouble(v);
      assert e[if v[0] == '\\' || v[0] == '"' then 2 else 1..] == EscapeDouble(v[1..]);
    }
  }

  /** Without the escaping backslashes. */
  function Unescape(w: string): string {
    if |w| >= 2 && w[0] == '\\' then [w[1]] + Unescape(w[2..])
    else if w == "" then ""
    else [w[0]] + Unescape(w[1..])
  }

  lemma {:induction false} UnescapeEscaped(v: string)
    ensures Unescape(EscapeDouble(v)) == v
  {
    if v != "" {
      UnescapeEscaped(v[1..]);
      var e := EscapeDouble(v);
      assert e[if v[0] == '\\' || v[0] == '"' then 2 else 1..] == EscapeDouble(v[1..]);
      HeadTail(v);
    }
  }

  /** Any value, escaped between double quotes, is read as a whole, and unescaped it is that value. */
  lemma EscapedSplits(v: string, rest: string)
    ensures SplitValue("\"" + EscapeDouble(v) + "\"" + rest) == ("\"" + EscapeDouble(v) + "\"", rest)
    ensures Unescape(EscapeDouble(v)) == v
  {
    EscapedIsBody(v);
    UnescapeEscaped(v);
    DoubleQuotedSplits("", EscapeDouble(v), rest);
    assert "" + ("\"" + EscapeDouble(v) + "\"" + rest) == "\"" + EscapeDouble(v) + "\"" + rest;
  }

  /** A single-quoted value ends at the next single quote, and takes all of the text when there is none. */
  lemma SingleQuotedSplits(space: string, v: string, rest: string)
    requires AllSpace(space) && '\'' !in v
    ensures SplitValue(space + ("'" + v + "'" + rest)) == ("'" + v + "'", rest)
    ensures SplitValue(space + ("'" + v)) == ("'" + v, "")
  {
    var q := "'" + v + "'";
    var text := q + rest;
    StripsSpace(space, text);
    assert text[0] == '\'' && text[1..] == v + "'" + rest;
    QuoteEndsPlain(v, rest);
    assert text[..|v| + 2] == q && text[|v| + 2..] == rest;
    StripsSpace(space, "'" + v);
    assert ("'" + v)[1..] == v && ("'" + v)[0] == '\'';
    NoQuoteFound(v);
  }

  lemma {:induction false} NoQuoteFound(v: string)
    requires '\'' !in v
    ensures FindQuote(v) == |v|
  {
    if v != "" {
      NoQuoteFound(v[1..]);
    }
  }

  /** No white space that a comment sign follows. */
  predicate NoMarker(v: string) {
    forall i :: 1 <= i < |v| && v[i] == '#' ==> !IsSpace(v[i - 1])
  }

  /** White space, then a comment sign. */
  predicate IsComment(c: string) {
    exists n :: 1 <= n < |c| && c[n] == '#' && AllSpace(c[..n])
  }

  lemma {:induction false} SpaceRunSpaces(s: string)
    ensures AllSpace(s[..SpaceRun(s)])
  {
    if s != "" && IsSpace(s[0]) {
      SpaceRunSpaces(s[1..]);
      assert forall i :: 1 <= i < SpaceRun(s) ==> s[i] == s[1..][..SpaceRun(s) - 1][i - 1];
    }
  }

  lemma {:induction false} MarkerSplits(s: string)
    ensures var n := FindMarker(s);
            && NoMarker(s[..n]) && (s[n..] == "" || IsComment(s[n..]))
            && (0 < n < |s| ==> !IsSpace(s[n - 1]))
  {
    hide IsComment, NoMarker, AllSpace;
    if s == "" {
      NothingMarks();
    } else if IsSpace(s[0]) && SpaceRun(s) < |s| && s[SpaceRun(s)] == '#' {
      SpaceRunSpaces(s);
      RunIsComment(s);
      NothingMarks();
      assert s[0..] == s && s[..0] == "";
    } else {
      var t := s[1..];
      var n := FindMarker(t);
      MarkerSplits(t);
      HeadTail(s);
      SplitBehind([s[0]], t, n);
      assert t[0..] == t;
      HashIsMarker(s);
      CommentBehindSpace(s);
      NoMarkerLonger(s[0], t[..n]);
    }
  }

  lemma NothingMarks()
    ensures NoMarker("")
  {
  }

  lemma RunIsComment(s: string)
    requires 1 <= SpaceRun(s) < |s| && s[SpaceRun(s)] == '#' && AllSpace(s[..SpaceRun(s)])
    ensures IsComment(s)
  {
  }

  lemma NoMarkerLonger(c: char, v: string)
    requires NoMarker(v) && !(IsSpace(c) && v != "" && v[0] == '#')
    ensures NoMarker([c] + v)
  {
    var u := [c] + v;
    forall i | 1 <= i < |u| && u[i] == '#' ensures !IsSpace(u[i - 1]) {
      assert u[i] == v[i - 1];
      assert i > 1 ==> u[i - 1] == v[i - 2];
    }
  }

  lemma HashIsMarker(s: string)
    requires s != ""
    ensures |s| >= 2 && IsSpace(s[0]) && s[1] == '#' ==> SpaceRun(s) < |s| && s[SpaceRun(s)] == '#'
  {
    if |s| >= 2 && IsSpace(s[0]) && s[1] == '#' {
      RunReaches(s, 1);
    }
  }

  lemma CommentBehindSpace(s: string)
    requires s != ""
    ensures IsSpace(s[0]) && IsComment(s[1..]) ==> SpaceRun(s) < |s| && s[SpaceRun(s)] == '#'
  {
    var t := s[1..];
    if IsSpace(s[0]) && IsComment(t) {
      var m :| 1 <= m < |t| && t[m] == '#' && AllSpace(t[..m]);
      forall i | 0 <= i <= m ensures IsSpace(s[i]) {
        assert i > 0 ==> t[..m][i - 1] == s[i];
      }
      RunReaches(s, m + 1);
    }
  }

  lemma {:induction false} RunReaches(s: string, n: nat)
    requires n < |s| && s[n] == '#' && forall i :: 0 <= i < n ==> IsSpace(s[i])
    ensures SpaceRun(s) == n
  {
    if n > 0 {
      RunReaches(s[1..], n - 1);
    }
  }

  /**
   An unquoted value is what stands before the first white space that leads to a
   comment sign; the rest is the comment, with all of that white space.
   */
  lemma UnquotedSplitsAtComment(raw: string)
    requires var text := LStrip(raw); text == "" || (text[0] != '\'' && text[0] != '"')
    ensures var (value, comment) := SplitValue(raw);
            && value + comment == LStrip(raw) && NoMarker(value)
            && (comment == "" || IsComment(comment))
            && (comment != "" && value != "" ==> !IsSpace(value[|value| - 1]))
  {
    MarkerSplits(LStrip(raw));
  }

  // ----- serialisation --------------------------------------------------------

  predicate IsSafeChar(c: char) {
    'A' <= c <= 'Z' || 'a' <= c <= 'z' || '0' <= c <= '9' || c in "_./:@%+=,-"
  }

  predicate IsSafe(s: string) {
    s != "" && forall i :: 0 <= i < |s| ==> IsSafeChar(s[i])
  }

  /** value.replace("'", "'\\''") */
  function EscapeQuotes(s: string): string {
    if s == "" then ""
    else (if s[0] == '\'' then "'\\''" else [s[0]]) + EscapeQuotes(s[1..])
  }

  /** _shell_literal */
  function ShellLiteral(value: string): string {
    if value == "" || IsSafe(value) then value else "'" + EscapeQuotes(value) + "'"
  }

  /**
   When a submitted value, put in front of the trailing text that a line already
   has, is read back as itself.
   */
  predicate Survives(value: string, trailing: string) {
    if value == "" then AllSpace(trailing)
    else if IsSafe(value) then FindMarker(trailing) == 0
    else '\'' !in value
  }

  lemma {:induction false} LStripAll(s: string)
    ensures LStrip(s) == "" <==> AllSpace(s)
  {
    if s != "" {
      if IsSpace(s[0]) {
        LStripAll(s[1..]);
        assert forall i :: 1 <= i < |s| ==> s[i] == s[1..][i - 1];
      }
    }
  }

  lemma {:induction false} FindMarkerBehind(v: string, c: string)
    requires forall i :: 0 <= i < |v| ==> !IsSpace(v[i])
    ensures FindMarker(v + c) == |v| + FindMarker(c)
  {
    if v == "" {
      assert v + c == c;
    } else {
      TailAppend(v, c);
      FindMarkerBehind(v[1..], c);
    }
  }

  lemma {:induction false} NoQuoteNoEscape(v: string)
    requires '\'' !in v
    ensures EscapeQuotes(v) == v
  {
    if v != "" {
      HeadTail(v);
      NoQuoteNoEscape(v[1..]);
    }
  }

  /** The first quote of an escaped text ends its literal early. */
  lemma {:induction false} EscapedQuoteComesFirst(v: string, w: string)
    requires '\'' in v
    ensures FindQuote(EscapeQuotes(v) + w) + 3 <= |EscapeQuotes(v)|
  {
    var e := EscapeQuotes(v);
    if v[0] == '\'' {
      assert (e + w)[0] == '\'';
    } else {
      EscapedQuoteComesFirst(v[1..], w);
      TailAppend(e, w);
      assert e[1..] == EscapeQuotes(v[1..]);
    }
  }

  lemma {:induction false} QuoteEndsPlain(v: string, w: string)
    requires '\'' !in v
    ensures FindQuote(v + "'" + w) == |v|
  {
    var s := v + "'" + w;
    if v != "" {
      TailAppend(v, "'" + w);
      Assoc(v, "'", w);
      Assoc(v[1..], "'", w);
      QuoteEndsPlain(v[1..], w);
    } else {
      assert s[0] == '\'';
    }
  }

  lemma UnquotedSplits(text: string)
    requires text != "" && !IsSpace(text[0]) && text[0] != '\'' && text[0] != '"'
    ensures SplitValue(text) == (text[..FindMarker(text)], text[FindMarker(text)..])
  {
    hide FindMarker;
  }

  lemma SafeSplits(v: string, c: string)
    requires IsSafe(v)
    ensures SplitValue(v + c) == (v + c[..FindMarker(c)], c[FindMarker(c)..])
  {
    hide SplitValue, FindMarker;
    assert (v + c)[0] == v[0] && IsSafeChar(v[0]);
    assert forall i :: 0 <= i < |v| ==> IsSafeChar(v[i]) && !IsSpace(v[i]);
    FindMarkerBehind(v, c);
    UnquotedSplits(v + c);
    SplitBehind(v, c, FindMarker(c));
  }

  lemma QuotedSplits(v: string, c: string)
    requires '\'' !in v
    ensures SplitValue("'" + v + "'" + c) == ("'" + v + "'", c)
  {
    var q := "'" + v + "'";
    var text := q + c;
    assert text[0] == '\'';
    assert text[1..] == v + "'" + c;
    QuoteEndsPlain(v, c);
    assert text[..|v| + 2] == q && text[|v| + 2..] == c;
  }

  lemma QuotedFails(v: string, c: string)
    requires '\'' in v
    ensures |SplitValue("'" + EscapeQuotes(v) + "'" + c).0| < |EscapeQuotes(v)| + 2
  {
    var e := EscapeQuotes(v);
    var text := "'" + e + "'" + c;
    assert text[0] == '\'';
    assert text[1..] == e + ("'" + c);
    EscapedQuoteComesFirst(v, "'" + c);
  }

  lemma EmptySplits(c: string)
    ensures SplitValue(c).0 == "" <==> AllSpace(c)
  {
    LStripAll(c);
    var text := LStrip(c);
    if text != "" {
      assert !IsSpace(text[0]);
    }
  }

  /** A submitted value is read back as itself, behind the text that trails it, if and only if it survives. */
  lemma SurvivesIff(value: string, trailing: string)
    ensures SplitValue(ShellLiteral(value) + trailing).0 == ShellLiteral(value) <==> Survives(value, trailing)
    ensures Survives(value, trailing) && value != ""
        ==> SplitValue(ShellLiteral(value) + trailing) == (ShellLiteral(value), trailing)
  {
    hide SplitValue, AllSpace, FindMarker, EscapeQuotes, IsSafe;
    if value == "" {
      EmptySplits(trailing);
      assert "" + trailing == trailing;
    } else if IsSafe(value) {
      SafeSplits(value, trailing);
      var n := FindMarker(trailing);
      assert |value + trailing[..n]| == |value| + n;
      if n == 0 {
        assert value + trailing[..0] == value && trailing[0..] == trailing;
      }
    } else if '\'' in value {
      QuotedFails(value, trailing);
    } else {
      NoQuoteNoEscape(value);
      QuotedSplits(value, trailing);
    }
  }

  /** The value and comment of a line, put back together, split the same way again. */
  lemma KeptValueSplits(raw: string)
    ensures var (value, comment) := SplitValue(raw);
            SplitValue(value + comment) == (value, comment)
  {
    hide SplitText;
    SplitTextJoins(LStrip(raw));
  }

  lemma SplitTextJoins(text: string)
    ensures SplitText(text).0 + SplitText(text).1 == text
  {
    hide FindMarker, FindQuote, DoubleEnd;
    assert text + "" == text;
  }
}
