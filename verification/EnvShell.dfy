/**
 What the written values of the env-file editor are to a shell that sources the file
 (sparkdeck/envfile_settings.py, _shell_literal), and the limits, terminators and
 refusals of an edit.
 */
module EnvShell {
  import opened Wrappers
  import opened Seqs
  import opened PyText
  import opened EnvText
  import opened EnvLines
  import opened EnvFile

  // ----- a shell's reading of a word --------------------------------------------------

  /** Characters that mean themselves outside quotes: letters, digits and _ . / : @ % + = , - */
  predicate IsPlain(c: char) {
    var k := c as int;
    || 65 <= k <= 90 || 97 <= k <= 122 || 48 <= k <= 57
    || k == 95 || k == 46 || k == 47 || k == 58 || k == 64 || k == 37 || k == 43 || k == 61 || k == 44 || k == 45
  }

  function Cons(c: char, more: Option<string>): Option<string> {
    if more.Some? then Some([c] + more.value) else None
  }

  /**
   The word that a shell reads: plain characters are themselves, anything but a single
   quote is itself between single quotes, and a backslash outside them takes the next
   character. None for whatever a shell would expand, split or execute.
   */
  function ReadWord(s: string, quoted: bool): Option<string>
    decreases |s|
  {
    if s == "" then (if quoted then None else Some(""))
    else if quoted then (if s[0] == '\'' then ReadWord(s[1..], false) else Cons(s[0], ReadWord(s[1..], true)))
    else if s[0] == '\'' then ReadWord(s[1..], true)
    else if s[0] == '\\' then (if |s| >= 2 then Cons(s[1], ReadWord(s[2..], false)) else None)
    else if IsPlain(s[0]) then Cons(s[0], ReadWord(s[1..], false))
    else None
  }

  lemma {:induction false} PlainIsRead(s: string)
    requires forall i :: 0 <= i < |s| ==> IsPlain(s[i])
    ensures ReadWord(s, false) == Some(s)
  {
    if s != "" {
      assert forall i :: 0 <= i < |s| - 1 ==> s[1..][i] == s[i + 1];
      PlainIsRead(s[1..]);
      HeadTail(s);
    }
  }

  lemma {:induction false} EscapedIsRead(v: string)
    ensures ReadWord(EscapeQuotes(v) + "'", true) == Some(v)
  {
    if v == "" {
      assert EscapeQuotes(v) + "'" == "'" && "'"[1..] == "";
    } else {
      var rest := EscapeQuotes(v[1..]) + "'";
      EscapedIsRead(v[1..]);
      HeadTail(v);
      if v[0] == '\'' {
        QuoteIsRead(rest);
        Assoc("'\\''", EscapeQuotes(v[1..]), "'");
      } else {
        Assoc([v[0]], EscapeQuotes(v[1..]), "'");
        assert ([v[0]] + rest)[1..] == rest;
      }
    }
  }

  /** Close the quotes, an escaped quote, open them again. */
  lemma QuoteIsRead(rest: string)
    ensures ReadWord("'\\''" + rest, true) == Cons('\'', ReadWord(rest, true))
  {
    var s, t, u := "'\\''" + rest, "\\''" + rest, "'" + rest;
    assert s[1..] == t && t[2..] == u && u[1..] == rest;
    assert ReadWord(s, true) == ReadWord(t, false);
    assert ReadWord(t, false) == Cons('\'', ReadWord(u, false));
    assert ReadWord(u, false) == ReadWord(rest, true);
  }

  /** A written value is one word to a shell, and that word is the submitted value: nothing in it is expanded, split or executed. */
  lemma LiteralIsRead(value: string)
    ensures ReadWord(ShellLiteral(value), false) == Some(value)
  {
    hide EscapeQuotes;
    if IsSafe(value) {
      forall i | 0 <= i < |value| ensures IsPlain(value[i]) {
        SafeIsPlain(value[i]);
      }
      PlainIsRead(value);
    } else if value != "" {
      EscapedIsRead(value);
      var inner := EscapeQuotes(value) + "'";
      Assoc("'", EscapeQuotes(value), "'");
      assert ("'" + inner)[1..] == inner;
    }
  }

  lemma SafeIsPlain(c: char)
    ensures IsSafeChar(c) <==> IsPlain(c)
  {
  }

  // ----- sizes ----------------------------------------------------------------------------

  /** Section 4 of RFC 3629: these bytes, by their leading byte, encode this character, in the shortest form. */
  predicate IsUtf8(bs: seq<int>, k: int) {
    && (forall i :: 1 <= i < |bs| ==> 0x80 <= bs[i] <= 0xbf)
    && match |bs|
       case 1 => 0 <= bs[0] <= 0x7f && k == bs[0]
       case 2 => 0xc2 <= bs[0] <= 0xdf && k == (bs[0] - 0xc0) * 0x40 + (bs[1] - 0x80)
       case 3 => 0xe0 <= bs[0] <= 0xef && k == (bs[0] - 0xe0) * 0x1000 + (bs[1] - 0x80) * 0x40 + (bs[2] - 0x80) && k >= 0x800
       case 4 => 0xf0 <= bs[0] <= 0xf4 && k >= 0x1_0000
                 && k == (bs[0] - 0xf0) * 0x4_0000 + (bs[1] - 0x80) * 0x1000 + (bs[2] - 0x80) * 0x40 + (bs[3] - 0x80)
       case _ => false
  }

  /** The size of a text is the sum of its characters' sizes, and each of those is the length of the character's UTF-8 form. */
  lemma {:induction false} SizeIsUtf8(s: string, forms: seq<seq<int>>)
    requires |forms| == |s| && forall i :: 0 <= i < |s| ==> IsUtf8(forms[i], s[i] as int)
    ensures Utf8Size(s) == TotalLength(forms)
  {
    hide IsUtf8;
    if s != "" {
      assert IsUtf8(forms[0], s[0] as int);
      FormLength(forms[0], s[0]);
      assert forall i :: 0 <= i < |s| - 1 ==> s[1..][i] == s[i + 1] && forms[1..][i] == forms[i + 1];
      SizeIsUtf8(s[1..], forms[1..]);
    }
  }

  function TotalLength(forms: seq<seq<int>>): nat {
    if |forms| == 0 then 0 else |forms[0]| + TotalLength(forms[1..])
  }

  lemma FormLength(bs: seq<int>, c: char)
    requires IsUtf8(bs, c as int)
    ensures |bs| == if c as int < 0x80 then 1 else if c as int < 0x800 then 2 else if c as int < 0x1_0000 then 3 else 4
  {
  }

  // ----- refusals and limits ----------------------------------------------------------------

  /** An update whose key is a name and whose value, if any, has no CR, LF or NUL and at most 8 KiB. */
  predicate IsAcceptable(up: (string, Update)) {
    && IsKey(up.0)
    && (up.1.Set? && up.1.value.Some? ==>
          var v := up.1.value.value; '\r' !in v && '\n' !in v && '\0' !in v && Utf8Size(v) <= 8192)
  }

  /**
   What an edit comes to: more than 128 updates or an unacceptable one is refused; then a
   file above 256 KiB or 512 entries, before or behind the edit; then a deletion of a key
   that no line has. Any other edit gives the rewritten lines, joined.
   */
  lemma EditOutcome(text: string, ups: Updates)
    ensures var ls := SplitLinesKeep(text);
            var rendered := Concat(FinalLines(ls, ups));
            Apply(text, ups) ==
              if |ups| > 128 || exists i :: 0 <= i < |ups| && !IsAcceptable(ups[i]) then Failure(InvalidUpdates)
              else if Utf8Size(text) > 262144 then Failure(FileTooLarge)
              else if |Numbered(ls)| > 512 then Failure(TooManyEntries)
              else if exists i :: 0 <= i < |ups| && ups[i].1 == Delete && !HasLine(ls, ups[i].0) then Failure(NoSuchVariable)
              else if Utf8Size(rendered) > 262144 then Failure(FileTooLarge)
              else if |Numbered(SplitLinesKeep(rendered))| > 512 then Failure(TooManyEntries)
              else Success(rendered)
  {
    hide Utf8Size, Numbered, FinalLines, SplitLinesKeep, Concat, EntryOf, IsKey;
    var ls := SplitLinesKeep(text);
    forall i | 0 <= i < |ups| ensures ValidUpdate(ups[i]) <==> IsAcceptable(ups[i]) {
    }
    forall key ensures Knows(ls, key) <==> HasLine(ls, key) {
      KnowsIff(ls, key);
    }
  }

  /** Some line is an entry of this key. */
  predicate HasLine(ls: seq<string>, key: string) {
    exists i :: 0 <= i < |ls| && EntryOf(ls[i]).Some? && EntryOf(ls[i]).value.key == key
  }

  lemma KnowsIff(ls: seq<string>, key: string)
    ensures Knows(ls, key) <==> HasLine(ls, key)
  {
    hide EntryOf;
    if i :| 0 <= i < |ls| && EntryOf(ls[i]).Some? && EntryOf(ls[i]).value.key == key {
      assert HasKey(ls, i, key);
    }
  }

  // ----- terminators ------------------------------------------------------------------------

  predicate IsTerminator(s: string) {
    forall i :: 0 <= i < |s| ==> s[i] == '\r' || s[i] == '\n'
  }

  lemma {:induction false} StripSplits(line: string)
    ensures var body := StripEol(line);
            line[..|body|] == body && IsTerminator(line[|body|..])
            && (body != "" ==> body[|body| - 1] != '\r' && body[|body| - 1] != '\n')
  {
    if line != "" && (line[|line| - 1] == '\r' || line[|line| - 1] == '\n') {
      StripSplits(line[..|line| - 1]);
    }
  }

  /** A rewritten line is deleted, or ends in exactly the CRs and LFs that the line ended in. */
  lemma TerminatorIsKept(line: string, up: Update)
    ensures var body := StripEol(line);
            NewLine(line, up) != "" ==>
              exists text :: NewLine(line, up) == text + line[|body|..] && IsTerminator(line[|body|..])
    ensures up == Delete ==> NewLine(line, up) == ""
  {
    StripSplits(line);
  }

  predicate EndsInCrLf(line: string) {
    |line| >= 2 && line[|line| - 2] == '\r' && line[|line| - 1] == '\n'
  }

  /** The indices of the lines that end in CR LF. */
  function CrLfLines(ls: seq<string>): set<int> {
    set i | 0 <= i < |ls| && EndsInCrLf(ls[i])
  }

  lemma {:induction false} CountIsSize(ls: seq<string>)
    ensures CountCrLf(ls) == |CrLfLines(ls)|
  {
    if |ls| > 0 {
      var n := |ls| - 1;
      var init := ls[..n];
      CountIsSize(init);
      assert forall i :: 0 <= i < n ==> init[i] == ls[i];
      assert CrLfLines(ls) == CrLfLines(init) + if EndsInCrLf(ls[n]) then {n} else {};
      assert n !in CrLfLines(init);
      var l := ls[n];
      assert |l| >= 2 ==> (l[|l| - 2..] == "\r\n" <==> l[|l| - 2..][0] == '\r' && l[|l| - 2..][1] == '\n');
    }
  }

  /** Appended lines end in CR LF if more than half of the lines do, and else in LF. */
  lemma AppendedEndAsMost(ls: seq<string>, ups: Updates, k: nat)
    requires k < |Appended(ls, ups, DominantEol(ls))|
    ensures var eol := if 2 * |CrLfLines(ls)| > |ls| then "\r\n" else "\n";
            exists body :: Appended(ls, ups, DominantEol(ls))[k] == body + eol
  {
    hide ShellLiteral, Knows, Marker;
    CountIsSize(ls);
    AppendedEnd(ls, ups, DominantEol(ls), k);
  }

  lemma {:induction false} AppendedEnd(ls: seq<string>, ups: Updates, eol: string, k: nat)
    requires k < |Appended(ls, ups, eol)|
    ensures exists body :: Appended(ls, ups, eol)[k] == body + eol
  {
    hide ShellLiteral, Knows, Marker;
    var init := ups[..|ups| - 1];
    if k < |Appended(ls, init, eol)| {
      AppendedEnd(ls, init, eol, k);
    } else {
      var (key, up) := ups[|ups| - 1];
      assert Appended(ls, ups, eol)[k] == Marker(up.enabled) + key + "=" + ShellLiteral(up.value.GetOr("")) + eol;
    }
  }
}
