/**
 Editing commutes with parsing: parsing the rendered text gives the old entries
 with each addressed one replaced or deleted and the new keys appended, exactly
 when every submitted value survives in its line.
 */
module EnvCommutes {
  import opened Wrappers
  import opened Seqs
  import opened PyText
  import opened EnvText
  import opened EnvLines
  import opened EnvFile

  // ----- the expected entries ------------------------------------------------

  function NewEntry(e: Entry, up: Update): Option<Entry> {
    match up
    case Delete => None
    case Set(value, enabled) => Some(Entry(e.key, if value.Some? then ShellLiteral(value.value) else e.value, enabled))
  }

  /** What becomes of the entry of line i. */
  function ExpectedAt(ls: seq<string>, ups: Updates, i: nat): Option<Entry>
    requires i < |ls|
  {
    var e, up := EntryOf(ls[i]), UpdateAt(ls, ups, i);
    if e.Some? && up.Some? then NewEntry(e.value, up.value) else e
  }

  function ExpectedFrom(ls: seq<string>, ups: Updates, i: nat): seq<Entry>
    requires i <= |ls|
    decreases |ls| - i
  {
    if i == |ls| then [] else AsSeq(ExpectedAt(ls, ups, i)) + ExpectedFrom(ls, ups, i + 1)
  }

  function ExpectedNew(ls: seq<string>, ups: Updates): seq<Entry> {
    if |ups| == 0 then []
    else
      var (key, up) := ups[|ups| - 1];
      ExpectedNew(ls, ups[..|ups| - 1])
      + (if up.Set? && !Knows(ls, key) then [Entry(key, ShellLiteral(up.value.GetOr("")), up.enabled)] else [])
  }

  /** The old entry list with every addressed entry replaced or deleted, and the new keys behind it. */
  function Expected(ls: seq<string>, ups: Updates): seq<Entry> {
    ExpectedFrom(ls, ups, 0) + ExpectedNew(ls, ups)
  }

  // ----- when submitted values survive -----------------------------------------

  /** The trailing text that a line's value is followed by. */
  function Trailing(line: string): string {
    match MatchOf(Chomp(line))
    case None => ""
    case Some(m) => SplitValue(m.rest).1
  }

  predicate SurvivesAt(ls: seq<string>, ups: Updates, i: nat)
    requires i < |ls|
  {
    var up := UpdateAt(ls, ups, i);
    up.Some? && up.value.Set? && up.value.value.Some? ==> Survives(up.value.value.value, Trailing(ls[i]))
  }

  predicate AllSurvive(ls: seq<string>, ups: Updates) {
    && (forall i: nat :: i < |ls| ==> SurvivesAt(ls, ups, i))
    && NewSurvive(ls, ups)
  }

  predicate NewSurvive(ls: seq<string>, ups: Updates) {
    |ups| == 0
    || (var (key, up) := ups[|ups| - 1];
        NewSurvive(ls, ups[..|ups| - 1]) && (up.Set? && !Knows(ls, key) ==> Survives(up.value.GetOr(""), "")))
  }

  /** Submitted values have no line break of any kind. */
  predicate BreakFree(ups: Updates) {
    forall i :: 0 <= i < |ups| && ups[i].1.Set? && ups[i].1.value.Some? ==> NoBreak(ups[i].1.value.value)
  }

  // ----- text without breaks ---------------------------------------------------

  lemma NoBreakAppend(a: string, b: string)
    requires NoBreak(a) && NoBreak(b)
    ensures NoBreak(a + b)
  {
  }

  lemma NoBreakTail(s: string, i: nat)
    requires NoBreak(s) && i <= |s|
    ensures NoBreak(s[i..])
  {
    assert forall k :: 0 <= k < |s| - i ==> s[i..][k] == s[i + k];
  }

  lemma NoBreakHead(s: string, i: nat)
    requires NoBreak(s) && i <= |s|
    ensures NoBreak(s[..i])
  {
  }

  lemma KeyNoBreak(key: string)
    requires IsKey(key)
    ensures NoBreak(key)
  {
    assert forall i :: 0 <= i < |key| ==> IsKeyChar(key[i]) ==> !IsLineBreak(key[i]);
  }

  lemma PrefixNoBreak(s: string)
    requires IsPrefix(s)
    ensures NoBreak(s)
  {
    if s != "" {
      var n := |EXPORT|;
      forall i | 0 <= i < |s| ensures !IsLineBreak(s[i]) {
        if i < n {
          assert s[i] == s[..n][i] && !IsLineBreak(EXPORT[i]);
        } else {
          assert s[i] == s[n..][i - n];
        }
      }
    }
  }

  lemma {:induction false} LStripNoBreak(s: string)
    requires NoBreak(s)
    ensures NoBreak(LStrip(s))
  {
    if s != "" && IsSpace(s[0]) {
      NoBreakTail(s, 1);
      LStripNoBreak(s[1..]);
    }
  }

  lemma SplitTextNoBreak(text: string)
    requires NoBreak(text)
    ensures NoBreak(SplitText(text).0) && NoBreak(SplitText(text).1)
  {
    hide SplitText, NoBreak;
    SplitTextJoins(text);
    var (a, b) := SplitText(text);
    NoBreakParts(a, b);
  }

  lemma NoBreakParts(a: string, b: string)
    requires NoBreak(a + b)
    ensures NoBreak(a) && NoBreak(b)
  {
    assert forall i :: 0 <= i < |a| ==> a[i] == (a + b)[i];
    assert forall i :: 0 <= i < |b| ==> b[i] == (a + b)[|a| + i];
  }

  lemma SplitValueNoBreak(raw: string)
    requires NoBreak(raw)
    ensures NoBreak(SplitValue(raw).0) && NoBreak(SplitValue(raw).1)
  {
    hide SplitText, NoBreak;
    LStripNoBreak(raw);
    SplitTextNoBreak(LStrip(raw));
  }

  lemma {:induction false} EscapeNoBreak(s: string)
    requires NoBreak(s)
    ensures NoBreak(EscapeQuotes(s))
  {
    if s != "" {
      NoBreakTail(s, 1);
      EscapeNoBreak(s[1..]);
    }
  }

  lemma LiteralNoBreak(value: string)
    requires NoBreak(value)
    ensures NoBreak(ShellLiteral(value))
  {
    hide EscapeQuotes, IsSafe;
    EscapeNoBreak(value);
  }

  lemma MatchKeyNoBreak(s: string)
    requires NoBreak(s) && MatchKey(s).Some?
    ensures NoBreak(MatchKey(s).value.1)
  {
    var k := KeyCharRun(s);
    NoBreakTail(s, k + BlankRun(s[k..]) + 1);
  }

  lemma MatchAssignmentNoBreak(s: string)
    requires NoBreak(s) && MatchAssignment(s).Some?
    ensures NoBreak(MatchAssignment(s).value.2)
  {
    hide MatchKey, NoBreak;
    var n := |EXPORT|;
    if StartsWith(s, EXPORT) && BlankRun(s[n..]) > 0 && MatchKey(s[n + BlankRun(s[n..])..]).Some? {
      NoBreakTail(s, n + BlankRun(s[n..]));
      MatchKeyNoBreak(s[n + BlankRun(s[n..])..]);
    } else {
      MatchKeyNoBreak(s);
    }
  }

  lemma MatchNoBreak(body: string)
    requires NoBreak(body) && MatchOf(body).Some?
    ensures var m := MatchOf(body).value; IsMatch(m) && NoBreak(m.indent) && NoBreak(m.rest)
  {
    hide MatchAssignment, NoBreak, IsMatch, SpaceRun, BlankRun;
    MatchesHaveParts(body);
    var i := SpaceRun(body);
    NoBreakHead(body, i);
    NoBreakTail(body, i);
    if MatchAssignment(body[i..]).Some? {
      MatchAssignmentNoBreak(body[i..]);
    } else {
      var s := body[i + 1..];
      NoBreakTail(body, i + 1);
      NoBreakTail(s, BlankRun(s));
      MatchAssignmentNoBreak(s[BlankRun(s)..]);
    }
  }

  // ----- a rewritten line ----------------------------------------------------------

  lemma NewTextNoBreak(m: Match, value: Option<string>)
    requires NoBreak(m.rest) && (value.Some? ==> NoBreak(value.value))
    ensures NoBreak(NewText(m, value))
  {
    hide NoBreak, SplitValue, ShellLiteral;
    SplitValueNoBreak(m.rest);
    if value.Some? {
      LiteralNoBreak(value.value);
    }
    var (kept, comment) := SplitValue(m.rest);
    NoBreakAppend(if value.Some? then ShellLiteral(value.value) else kept, comment);
  }

  lemma BodyNoBreak(m: Match, enabled: bool, text: string)
    requires IsMatch(m) && NoBreak(m.indent) && NoBreak(text)
    ensures NoBreak(Body(m, enabled, text))
  {
    hide NoBreak, IsPrefix, IsKey;
    PrefixNoBreak(m.prefix);
    KeyNoBreak(m.key);
    assert NoBreak(Marker(enabled)) by { MarkerNoBreak(enabled); }
    NoBreakAppend(m.indent, Marker(enabled));
    NoBreakAppend(m.indent + Marker(enabled), m.prefix);
    NoBreakAppend(m.indent + Marker(enabled) + m.prefix, m.key);
    assert NoBreak("=") by { MarkerNoBreak(false); }
    NoBreakAppend(m.indent + Marker(enabled) + m.prefix + m.key, "=");
    NoBreakAppend(m.indent + Marker(enabled) + m.prefix + m.key + "=", text);
  }

  lemma MarkerNoBreak(enabled: bool)
    ensures NoBreak(Marker(enabled)) && NoBreak("=")
  {
  }

  /** What is read back from a body with a new value text. */
  lemma NewTextReadBack(m: Match, value: Option<string>)
    ensures value.None? ==> SplitValue(NewText(m, value)).0 == SplitValue(m.rest).0
    ensures value.Some? ==> (SplitValue(NewText(m, value)).0 == ShellLiteral(value.value)
                             <==> Survives(value.value, SplitValue(m.rest).1))
  {
    hide SplitValue, ShellLiteral, Survives;
    KeptValueSplits(m.rest);
    if value.Some? {
      SurvivesIff(value.value, SplitValue(m.rest).1);
    }
  }

  lemma EntryOfRewritten(body: string, up: Update)
    requires MatchOf(body).Some? && IsMatch(MatchOf(body).value) && up.Set?
    ensures var m := MatchOf(body).value;
            EntryOfBody(Body(m, up.enabled, NewText(m, up.value)))
              == Some(Entry(m.key, SplitValue(NewText(m, up.value)).0, up.enabled))
    ensures EntryOfBody(body).Some? && EntryOfBody(body).value.key == MatchOf(body).value.key
            && EntryOfBody(body).value.value == SplitValue(MatchOf(body).value.rest).0
  {
    hide MatchActive, MatchCommented, SplitValue, NewText, Body, IsMatch;
    var m := MatchOf(body).value;
    BodyIsReadBack(m, up.enabled, NewText(m, up.value));
  }

  // ----- one line -------------------------------------------------------------------

  /** An ended or bare line: its body and its terminator. */
  predicate BodyAndEol(line: string, body: string, eol: string) {
    line == body + eol && NoBreak(body) && (eol == "" || IsEol(eol))
  }

  lemma LineParts(line: string) returns (body: string, eol: string)
    requires Ended(line) || NoBreak(line)
    ensures BodyAndEol(line, body, eol) && Chomp(line) == body && StripEol(line) == body
  {
    if Ended(line) {
      var n :| 0 <= n <= |line| && NoBreak(line[..n]) && IsEol(line[n..]);
      TakeDrop(line, n);
      body, eol := line[..n], line[n..];
    } else {
      body, eol := line, "";
      assert line + "" == line;
    }
    ChompParts(body, eol);
    StripParts(body, eol);
  }

  lemma ChompParts(body: string, eol: string)
    requires NoBreak(body) && (eol == "" || IsEol(eol))
    ensures Chomp(body + eol) == body
  {
    var l := body + eol;
    if eol == "" {
      assert l == body;
      assert |l| >= 2 ==> l[|l| - 2..][0] == l[|l| - 2];
    } else if eol == "\n" {
      assert l[|l| - 1] == '\n' && l[..|l| - 1] == body;
      assert |l| >= 2 ==> l[|l| - 2..][0] == body[|body| - 1];
    } else {
      assert l[|l| - 2..] == "\r\n" && l[..|l| - 2] == body;
    }
  }

  lemma StripParts(body: string, eol: string)
    requires NoBreak(body) && (eol == "" || IsEol(eol))
    ensures StripEol(body + eol) == body
  {
    assert StripEol(body) == body;
    if eol == "" {
      assert body + eol == body;
    } else if eol == "\n" {
      assert (body + eol)[..|body|] == body;
    } else {
      var l := body + eol;
      assert l[|l| - 1] == '\n' && l[|l| - 2] == '\r';
      assert l[..|l| - 1][..|body|] == body;
      assert StripEol(l) == StripEol(l[..|l| - 1]) == StripEol(l[..|l| - 1][..|body|]);
    }
  }

  lemma EndedParts(body: string, eol: string)
    requires NoBreak(body) && (eol == "" || IsEol(eol))
    ensures eol != "" ==> Ended(body + eol)
    ensures eol == "" ==> NoBreak(body + eol)
  {
    assert (body + eol)[..|body|] == body && (body + eol)[|body|..] == eol;
  }

  lemma EmptyHasNoEntry()
    ensures EntryOf("") == None && Chomp("") == ""
  {
  }

  /**
   A line after its update: deleted, or an entry of the same key, enabled as
   asked, whose value is the expected one if and only if it survives.
   */
  lemma NewLineReadBack(line: string, up: Update)
    requires Ended(line) || NoBreak(line)
    requires EntryOf(line).Some? && (up.Set? && up.value.Some? ==> NoBreak(up.value.value))
    ensures var after := NewLine(line, up);
            && (after == "" || (Ended(line) && Ended(after)) || NoBreak(after))
            && EntryOf(after).Some? == NewEntry(EntryOf(line).value, up).Some?
            && (EntryOf(after) == NewEntry(EntryOf(line).value, up)
                <==> (up.Set? && up.value.Some? ==> Survives(up.value.value, Trailing(line))))
  {
    hide MatchActive, MatchCommented, SplitValue, NewText, Body, IsMatch, Survives, ShellLiteral, Ended, NoBreak, Chomp, StripEol;
    EmptyHasNoEntry();
    if up.Set? {
      var body, eol := LineParts(line);
      var m := MatchOf(body).value;
      MatchNoBreak(body);
      NewTextNoBreak(m, up.value);
      BodyNoBreak(m, up.enabled, NewText(m, up.value));
      var fresh' := Body(m, up.enabled, NewText(m, up.value));
      assert line[|body|..] == eol by { SplitBehind(body, eol, 0); assert eol[0..] == eol; }
      assert NewLine(line, up) == fresh' + eol;
      ChompParts(fresh', eol);
      EndedParts(fresh', eol);
      EolTells(line, body, eol);
      EntryOfRewritten(body, up);
      NewTextReadBack(m, up.value);
    }
  }

  lemma EolTells(line: string, body: string, eol: string)
    requires BodyAndEol(line, body, eol)
    ensures eol != "" ==> Ended(line)
  {
    EndedParts(body, eol);
  }

  lemma UpdateIsBreakFree(ups: Updates, key: string)
    requires BreakFree(ups) && Lookup(ups, key).Some?
    ensures var up := Lookup(ups, key).value; up.Set? && up.value.Some? ==> NoBreak(up.value.value)
  {
    if ups[|ups| - 1].0 != key {
      var init := ups[..|ups| - 1];
      assert forall i :: 0 <= i < |init| ==> init[i] == ups[i];
      UpdateIsBreakFree(init, key);
    }
  }

  /** Line i after the edit, against what is expected of it. */
  lemma EditLineReadBack(ls: seq<string>, ups: Updates, i: nat)
    requires i < |ls| && Lines(ls) && BreakFree(ups)
    ensures var after := EditLine(ls, ups, i);
            && (after == "" || Ended(after) || (i == |ls| - 1 && NoBreak(after)))
            && EntryOf(after).Some? == ExpectedAt(ls, ups, i).Some?
            && (EntryOf(after) == ExpectedAt(ls, ups, i) <==> SurvivesAt(ls, ups, i))
  {
    hide EntryOf, NewLine, Effective, Ended, NoBreak, Survives, Trailing, BreakFree;
    EmptyHasNoEntry();
    var up := UpdateAt(ls, ups, i);
    if up.Some? {
      UpdateIsBreakFree(ups, EntryOf(ls[i]).value.key);
      EmptyNoBreak();
      NewLineReadBack(ls[i], up.value);
      if Ended(ls[i]) {
        NewLineEnded(ls[i], up.value);
      }
    }
  }

  lemma EmptyNoBreak()
    ensures NoBreak("")
  {
  }

  lemma NewLineEnded(line: string, up: Update)
    requires Ended(line) && EntryOf(line).Some? && (up.Set? && up.value.Some? ==> NoBreak(up.value.value))
    ensures NewLine(line, up) == "" || Ended(NewLine(line, up))
  {
    hide MatchActive, MatchCommented, SplitValue, NewText, Body, IsMatch, ShellLiteral, NoBreak, Chomp, StripEol;
    if up.Set? {
      var n :| 0 <= n <= |line| && NoBreak(line[..n]) && IsEol(line[n..]);
      var body, eol := line[..n], line[n..];
      TakeDrop(line, n);
      ChompParts(body, eol);
      StripParts(body, eol);
      var m := MatchOf(body).value;
      MatchNoBreak(body);
      NewTextNoBreak(m, up.value);
      BodyNoBreak(m, up.enabled, NewText(m, up.value));
      EndedParts(Body(m, up.enabled, NewText(m, up.value)), eol);
    }
  }

  // ----- all lines ------------------------------------------------------------------

  predicate SurviveFrom(ls: seq<string>, ups: Updates, i: nat)
    requires i <= |ls|
    decreases |ls| - i
  {
    i == |ls| || (SurvivesAt(ls, ups, i) && SurviveFrom(ls, ups, i + 1))
  }

  lemma {:induction false} SurviveFromAll(ls: seq<string>, ups: Updates, i: nat)
    requires i <= |ls|
    ensures SurviveFrom(ls, ups, i) <==> forall k: nat :: i <= k < |ls| ==> SurvivesAt(ls, ups, k)
    decreases |ls| - i
  {
    hide SurvivesAt;
    if i < |ls| {
      SurviveFromAll(ls, ups, i + 1);
    }
  }

  lemma SameParts<T>(a: seq<T>, b: seq<T>, x: seq<T>, y: seq<T>)
    requires |a| == |x|
    ensures a + b == x + y <==> a == x && b == y
  {
    if a + b == x + y {
      assert a == (a + b)[..|a|] && x == (x + y)[..|a|];
      assert b == (a + b)[|a|..] && y == (x + y)[|a|..];
    }
  }

  lemma {:induction false} EditedEntries(ls: seq<string>, ups: Updates, i: nat)
    requires i <= |ls| && Lines(ls) && BreakFree(ups)
    ensures |Entries(EditLines(ls, ups)[i..])| == |ExpectedFrom(ls, ups, i)|
    ensures Entries(EditLines(ls, ups)[i..]) == ExpectedFrom(ls, ups, i) <==> SurviveFrom(ls, ups, i)
    decreases |ls| - i
  {
    hide EntryOf, EditLine, ExpectedAt, SurvivesAt, Lines, BreakFree;
    var es := EditLines(ls, ups);
    if i < |ls| {
      EditedEntries(ls, ups, i + 1);
      EditLineReadBack(ls, ups, i);
      assert es[i..][0] == es[i] && es[i..][1..] == es[i + 1..];
      SameParts(AsSeq(EntryOf(es[i])), Entries(es[i + 1..]), AsSeq(ExpectedAt(ls, ups, i)), ExpectedFrom(ls, ups, i + 1));
    }
  }

  /** An appended line is read back as its key, enabled as asked, with its literal if that survives. */
  lemma AppendedReadBack(key: string, up: Update, eol: string)
    requires IsKey(key) && up.Set? && IsEol(eol) && (up.value.Some? ==> NoBreak(up.value.value))
    ensures var line, literal := AppendedLine(key, up, eol), ShellLiteral(up.value.GetOr(""));
            && Ended(line) && EntryOf(line).Some?
            && (EntryOf(line) == Some(Entry(key, literal, up.enabled)) <==> Survives(up.value.GetOr(""), ""))
  {
    hide SplitValue, ShellLiteral, Survives, IsKey, NoBreak, Chomp, Ended, MatchActive, MatchCommented;
    var value := up.value.GetOr("");
    var literal := ShellLiteral(value);
    var m := Match("", "", key, "");
    assert IsMatch(m) by { BareMatch(key); }
    EmptyNoBreak();
    LiteralNoBreak(value);
    BodyNoBreak(m, up.enabled, literal);
    BodyIsReadBack(m, up.enabled, literal);
    var body := Body(m, up.enabled, literal);
    assert AppendedLine(key, up, eol) == body + eol by { BareBody(key, up.enabled, literal); }
    ChompParts(body, eol);
    EndedParts(body, eol);
    SurvivesIff(value, "");
    assert literal + "" == literal;
  }

  lemma BareMatch(key: string)
    requires IsKey(key)
    ensures IsMatch(Match("", "", key, ""))
  {
  }

  lemma BareBody(key: string, enabled: bool, text: string)
    ensures Body(Match("", "", key, ""), enabled, text) == Marker(enabled) + key + "=" + text
  {
    assert "" + Marker(enabled) + "" == Marker(enabled);
  }

  lemma {:induction false} EntriesAppend(a: seq<string>, b: seq<string>)
    ensures Entries(a + b) == Entries(a) + Entries(b)
  {
    hide EntryOf;
    if |a| == 0 {
      assert a + b == b;
    } else {
      EntriesAppend(a[1..], b);
      TailAppend(a, b);
      Assoc(AsSeq(EntryOf(a[0])), Entries(a[1..]), Entries(b));
    }
  }

  lemma {:induction false} AppendedEntries(ls: seq<string>, ups: Updates, eol: string)
    requires ValidUpdates(ups) && BreakFree(ups) && IsEol(eol)
    ensures forall i :: 0 <= i < |Appended(ls, ups, eol)| ==> Ended(Appended(ls, ups, eol)[i])
    ensures |Entries(Appended(ls, ups, eol))| == |ExpectedNew(ls, ups)|
    ensures Entries(Appended(ls, ups, eol)) == ExpectedNew(ls, ups) <==> NewSurvive(ls, ups)
  {
    hide EntryOf, Knows, AppendedLine, Ended, ShellLiteral, Survives, ValidValue, IsKey, NoBreak;
    if |ups| > 0 {
      var init := ups[..|ups| - 1];
      var (key, up) := ups[|ups| - 1];
      assert ValidUpdate(ups[|ups| - 1]);
      assert forall i :: 0 <= i < |init| ==> init[i] == ups[i];
      AppendedEntries(ls, init, eol);
      if up.Set? && !Knows(ls, key) {
        AppendedReadBack(key, up, eol);
        var line := AppendedLine(key, up, eol);
        EntriesAppend(Appended(ls, init, eol), [line]);
        OneEntry(line);
        SameParts(Entries(Appended(ls, init, eol)), AsSeq(EntryOf(line)),
                  ExpectedNew(ls, init), [Entry(key, ShellLiteral(up.value.GetOr("")), up.enabled)]);
      } else {
        assert Appended(ls, ups, eol) == Appended(ls, init, eol) + [] == Appended(ls, init, eol);
        assert ExpectedNew(ls, ups) == ExpectedNew(ls, init) + [] == ExpectedNew(ls, init);
      }
    }
  }

  lemma OneEntry(line: string)
    ensures Entries([line]) == AsSeq(EntryOf(line))
  {
    assert [line][1..] == [];
    assert AsSeq(EntryOf(line)) + [] == AsSeq(EntryOf(line));
  }

  /** Terminating the last line changes no entry and ends every line. */
  lemma CloseLastKeepsEntries(ls: seq<string>, eol: string)
    requires Lines(ls) && IsEol(eol)
    ensures Entries(CloseLast(ls, eol)) == Entries(ls)
    ensures forall i :: 0 <= i < |ls| ==> CloseLast(ls, eol)[i] == "" || Ended(CloseLast(ls, eol)[i])
    ensures |CloseLast(ls, eol)| == |ls|
  {
    hide EntryOf, Ended, NoBreak;
    if ls != [] {
      var n := |ls| - 1;
      var last := ls[n];
      if last != "" && (last[|last| - 1] == '\n' || last[|last| - 1] == '\r') {
        BreakAtEnd(last);
      } else {
        assert NoBreak(last) by { EmptyNoBreak(); NotEndedAtEnd(last); }
        CloseBare(last, eol);
        assert CloseLast(ls, eol) == ls[..n] + [last + eol];
        InitLast(ls);
        EntriesAppend(ls[..n], [last + eol]);
        EntriesAppend(ls[..n], [last]);
        OneEntry(last);
        OneEntry(last + eol);
      }
    }
  }

  lemma CloseBare(last: string, eol: string)
    requires NoBreak(last) && IsEol(eol)
    ensures EntryOf(last + eol) == EntryOf(last) && Ended(last + eol)
  {
    hide EntryOfBody;
    ChompParts(last, eol);
    ChompParts(last, "");
    assert last + "" == last;
    EndedParts(last, eol);
  }

  lemma BreakAtEnd(last: string)
    requires last != "" && IsLineBreak(last[|last| - 1])
    ensures !NoBreak(last)
  {
  }

  lemma NotEndedAtEnd(last: string)
    requires last == "" || !(last[|last| - 1] == '\n' || last[|last| - 1] == '\r')
    ensures !Ended(last)
  {
    EndedEndsInLf(last);
  }

  lemma EndedEndsInLf(last: string)
    ensures Ended(last) ==> last != "" && last[|last| - 1] == '\n'
  {
    if Ended(last) {
      var n :| 0 <= n <= |last| && NoBreak(last[..n]) && IsEol(last[n..]);
      assert last[n..][|last| - n - 1] == last[|last| - 1];
    }
  }

  lemma {:induction false} NonEmptyEntries(ls: seq<string>)
    ensures Entries(NonEmpty(ls)) == Entries(ls)
  {
    hide EntryOf;
    if |ls| > 0 {
      NonEmptyEntries(ls[1..]);
      if ls[0] != "" {
        assert ([ls[0]] + NonEmpty(ls[1..]))[1..] == NonEmpty(ls[1..]);
      } else {
        EmptyHasNoEntry();
        assert AsSeq(EntryOf(ls[0])) + Entries(ls[1..]) == Entries(ls[1..]);
        assert NonEmpty(ls) == NonEmpty(ls[1..]);
      }
    }
  }

  /** The final lines are well-formed, and have the entries of the edited lines and then the appended ones. */
  lemma FinalEntries(ls: seq<string>, ups: Updates)
    requires Lines(ls) && ValidUpdates(ups) && BreakFree(ups)
    ensures Lines(FinalLines(ls, ups))
    ensures Entries(FinalLines(ls, ups)) == Entries(EditLines(ls, ups)) + Entries(Appended(ls, ups, DominantEol(ls)))
  {
    hide Entries, EditLines, Ended, NoBreak, CloseLast, BreakFree, ValidUpdates, DominantEol, Appended, Lines;
    var edited, eol := EditLines(ls, ups), DominantEol(ls);
    var appended := Appended(ls, ups, eol);
    EditedLines(ls, ups);
    AppendedEntries(ls, ups, eol);
    if appended == [] {
      assert Entries(appended) == [] by { NoEntries(); }
      assert Entries(edited) + [] == Entries(edited);
    } else {
      CloseLastKeepsEntries(edited, eol);
      EntriesAppend(CloseLast(edited, eol), appended);
      LinesAppend(CloseLast(edited, eol), appended);
    }
  }

  lemma NoEntries()
    ensures Entries([]) == []
  {
  }

  lemma EditedLines(ls: seq<string>, ups: Updates)
    requires Lines(ls) && BreakFree(ups)
    ensures Lines(EditLines(ls, ups))
  {
    hide EntryOf, EditLine, Ended, NoBreak, BreakFree;
    var edited := EditLines(ls, ups);
    forall i | 0 <= i < |edited| ensures edited[i] == "" || Ended(edited[i]) || (i == |edited| - 1 && NoBreak(edited[i])) {
      EditLineReadBack(ls, ups, i);
    }
  }

  lemma LinesAppend(a: seq<string>, b: seq<string>)
    requires (forall i :: 0 <= i < |a| ==> a[i] == "" || Ended(a[i])) && forall i :: 0 <= i < |b| ==> Ended(b[i])
    ensures Lines(a + b)
  {
    hide Ended, NoBreak;
  }

  /** The entries that parse_env_file finds in text. */
  function ParsedEntries(text: string): seq<Entry> {
    Entries(SplitLinesKeep(text))
  }

  /**
   Parsing the rendered text gives the expected entries if and only if every
   submitted value survives in its line.
   */
  lemma EditCommutesIff(text: string, ups: Updates)
    requires PlainBreaks(text) && BreakFree(ups) && Apply(text, ups).Success?
    ensures ParsedEntries(Apply(text, ups).value) == Expected(SplitLinesKeep(text), ups)
       <==> AllSurvive(SplitLinesKeep(text), ups)
  {
    hide Entries, EditLines, Appended, Lines, ValidUpdates, BreakFree, FinalLines, ExpectedFrom, ExpectedNew, SplitLinesKeep,
         NewSurvive, SurvivesAt, SurviveFrom, PlainBreaks, DeletesUnknown, Concat, Utf8Size;
    var ls := SplitLinesKeep(text);
    SplitPlain(text);
    FinalEntries(ls, ups);
    var final := FinalLines(ls, ups);
    SplitJoined(final);
    NonEmptyEntries(final);
    EditedEntries(ls, ups, 0);
    assert EditLines(ls, ups)[0..] == EditLines(ls, ups);
    AppendedEntries(ls, ups, DominantEol(ls));
    SurviveFromAll(ls, ups, 0);
    SameParts(Entries(EditLines(ls, ups)), Entries(Appended(ls, ups, DominantEol(ls))), ExpectedFrom(ls, ups, 0), ExpectedNew(ls, ups));
  }
}
