/**
 The event-stream format itself, after sections 9.2.5 and 9.2.6 of the WHATWG HTML
 Living Standard, and when the SSE reader (sparkdeck/responses.py, _sse_payloads)
 yields the data of its events. Text is what decoding has given, without a byte
 order mark.
 */
module SseStandard {
  import opened Wrappers
  import opened PyText
  import opened Seqs
  import opened SseReader

  // ----- the standard -------------------------------------------------------------

  /** Section 9.2.5: a line ends in CR LF, LF or CR. The last part is not ended. */
  function StandardLines(s: string): (lines: seq<string>)
    ensures |lines| >= 1
  {
    if s == "" then [""]
    else if |s| >= 2 && s[0] == '\r' && s[1] == '\n' then [""] + StandardLines(s[2..])
    else
      var lines := StandardLines(s[1..]);
      if s[0] == '\r' || s[0] == '\n' then [""] + lines else [[s[0]] + lines[0]] + lines[1..]
  }

  function FirstColon(line: string): (i: nat)
    ensures i <= |line| && (i < |line| ==> line[i] == ':')
  {
    if line == "" || line[0] == ':' then 0 else 1 + FirstColon(line[1..])
  }

  /** One leading space of a value is not part of it. */
  function FieldValue(s: string): string {
    if s != "" && s[0] == ' ' then s[1..] else s
  }

  /** Section 9.2.6: the name and the value of a line's field; a line without a colon is all name. */
  function Field(line: string): (string, string) {
    var i := FirstColon(line);
    if i == |line| then (line, "") else (line[..i], FieldValue(line[i + 1..]))
  }

  /**
   The data of the events that are dispatched: at a blank line, if there was a data
   field. What is pending at the end is discarded.
   */
  function Events(lines: seq<string>, data: seq<string>): seq<string> {
    if |lines| == 0 then []
    else if lines[0] == "" then (if data == [] then [] else [Join("\n", data)]) + Events(lines[1..], [])
    else if Field(lines[0]).0 == "data" then Events(lines[1..], data + [Field(lines[0]).1])
    else Events(lines[1..], data)
  }

  // ----- lines ------------------------------------------------------------------------

  /** Every CR is part of a CR LF. */
  predicate NoLoneCr(s: string) {
    forall i :: 0 <= i < |s| && s[i] == '\r' ==> i + 1 < |s| && s[i + 1] == '\n'
  }

  lemma NoLoneCrTail(s: string, n: nat)
    requires n <= |s| && (forall i :: 0 <= i < n && s[i] == '\r' ==> i + 1 < |s| && s[i + 1] == '\n')
    ensures NoLoneCr(s) <==> NoLoneCr(s[n..])
  {
    var t := s[n..];
    if NoLoneCr(t) {
      forall i | n <= i < |s| && s[i] == '\r' ensures i + 1 < |s| && s[i + 1] == '\n' {
        assert t[i - n] == '\r';
      }
    }
    if NoLoneCr(s) {
      forall i | 0 <= i < |t| && t[i] == '\r' ensures i + 1 < |t| && t[i + 1] == '\n' {
        assert s[n + i] == '\r';
      }
    }
  }

  /** The reader's lines are the standard's if and only if no CR stands alone. */
  lemma {:induction false} LinesAgreeIff(s: string)
    ensures |StandardLines(s)| >= |SplitOn('\n', Normalise(s))|
    ensures |StandardLines(s)| == |SplitOn('\n', Normalise(s))| <==> NoLoneCr(s)
    ensures StandardLines(s) == SplitOn('\n', Normalise(s)) <==> NoLoneCr(s)
    decreases |s|
  {
    hide NoLoneCr;
    if s == "" {
      NoLoneCrTail(s, 0);
      EmptyHasNoCr();
    } else if |s| >= 2 && s[0] == '\r' && s[1] == '\n' {
      LinesAgreeIff(s[2..]);
      NoLoneCrTail(s, 2);
      assert ("\n" + Normalise(s[2..]))[1..] == Normalise(s[2..]);
      SameTail("", StandardLines(s[2..]), SplitOn('\n', Normalise(s[2..])));
    } else {
      var t := s[1..];
      var a, b := StandardLines(t), SplitOn('\n', Normalise(t));
      LinesAgreeIff(t);
      assert ([s[0]] + Normalise(t))[1..] == Normalise(t);
      if s[0] == '\r' {
        LoneCr(s);
      } else {
        NoLoneCrTail(s, 1);
        SameTail("", a, b);
        SameHead(s[0], a, b);
      }
    }
  }

  lemma EmptyHasNoCr()
    ensures NoLoneCr("")
  {
  }

  lemma LoneCr(s: string)
    requires s != "" && s[0] == '\r' && !(|s| >= 2 && s[1] == '\n')
    ensures !NoLoneCr(s)
  {
  }

  lemma SameTail(x: string, a: seq<string>, b: seq<string>)
    ensures [x] + a == [x] + b <==> a == b
  {
    assert ([x] + a)[1..] == a && ([x] + b)[1..] == b;
  }

  lemma SameHead(x: char, a: seq<string>, b: seq<string>)
    requires |a| >= 1 && |b| >= 1
    ensures [[x] + a[0]] + a[1..] == [[x] + b[0]] + b[1..] <==> a == b
  {
    var c, d := [[x] + a[0]] + a[1..], [[x] + b[0]] + b[1..];
    assert c[1..] == a[1..] && d[1..] == b[1..];
    assert ([x] + a[0])[1..] == a[0] && ([x] + b[0])[1..] == b[0];
    assert c == d ==> c[0] == d[0];
    HeadTail(a);
    HeadTail(b);
  }

  // ----- data fields --------------------------------------------------------------------

  /** The line has the same data, or none, for the reader and the standard. */
  predicate LineAgrees(line: string) {
    && (StartsWith(line, DATA) <==> Field(line).0 == "data")
    && (StartsWith(line, DATA) ==> LStrip(line[|DATA|..]) == Field(line).1)
  }

  /** At most one white-space character leads, and then it is a space. */
  predicate LeadsWithOneSpace(value: string) {
    value == "" || !IsSpace(value[0]) || (value[0] == ' ' && (|value| == 1 || !IsSpace(value[1])))
  }

  lemma {:induction false} StripsAgreeIff(value: string)
    ensures LStrip(value) == FieldValue(value) <==> LeadsWithOneSpace(value)
  {
    if value != "" && value[0] == ' ' {
      var rest := value[1..];
      if rest != "" && IsSpace(rest[0]) {
        assert |LStrip(rest[1..])| < |rest|;
      }
    }
  }

  lemma FieldOfDataLine(line: string)
    requires StartsWith(line, DATA)
    ensures Field(line) == ("data", FieldValue(line[|DATA|..]))
  {
    ColonAt(line, 4);
    assert line[..5][..4] == line[..4] == "data";
  }

  lemma {:induction false} ColonAt(line: string, i: nat)
    requires i < |line| && line[i] == ':' && forall j :: 0 <= j < i ==> line[j] != ':'
    ensures FirstColon(line) == i
  {
    if i > 0 {
      ColonAt(line[1..], i - 1);
    }
  }

  lemma DataFieldIff(line: string)
    ensures Field(line).0 == "data" <==> StartsWith(line, DATA) || line == "data"
  {
    if StartsWith(line, DATA) {
      FieldOfDataLine(line);
    } else {
      var i := FirstColon(line);
      assert i < |line| ==> line[..i + 1] == line[..i] + [':'];
      NoColonInData();
    }
  }

  lemma NoColonInData()
    ensures FirstColon("data") == 4
  {
    assert "data"[1..] == "ata" && "ata"[1..] == "ta" && "ta"[1..] == "a" && "a"[1..] == "";
  }

  /** A line agrees if and only if it is not a bare `data` and at most one space leads its value. */
  lemma LineAgreesIff(line: string)
    ensures LineAgrees(line) <==> line != "data" && (StartsWith(line, DATA) ==> LeadsWithOneSpace(line[|DATA|..]))
  {
    hide FirstColon, LStrip, FieldValue, LeadsWithOneSpace;
    DataFieldIff(line);
    if StartsWith(line, DATA) {
      FieldOfDataLine(line);
      StripsAgreeIff(line[|DATA|..]);
    } else {
      BareIsNoPrefix(line);
    }
  }

  lemma BareIsNoPrefix(line: string)
    ensures line == "data" ==> !StartsWith(line, DATA)
  {
  }

  // ----- events -------------------------------------------------------------------------

  function NonEmpty(events: seq<string>): seq<string> {
    if |events| == 0 then []
    else (if events[0] == "" then [] else [events[0]]) + NonEmpty(events[1..])
  }

  predicate AllAgree(lines: seq<string>) {
    forall i :: 0 <= i < |lines| ==> LineAgrees(lines[i])
  }

  lemma NonEmptyCons(event: string, events: seq<string>)
    ensures NonEmpty([event] + events) == (if event == "" then [] else [event]) + NonEmpty(events)
  {
    assert ([event] + events)[1..] == events;
  }

  /** The reader's interpretation is the standard's, without the events whose data is empty. */
  lemma {:induction false} InterpretIsEvents(lines: seq<string>, data: seq<string>)
    requires AllAgree(lines)
    ensures Interpret(lines, data) == NonEmpty(Events(lines, data))
  {
    hide Field, LStrip, NonEmpty, Join;
    if |lines| == 0 {
      assert NonEmpty([]) == [] by { NothingNonEmpty(); }
    } else {
      var rest := lines[1..];
      assert LineAgrees(lines[0]);
      forall i | 0 <= i < |rest| ensures LineAgrees(rest[i]) {
        assert rest[i] == lines[i + 1];
      }
      if lines[0] == "" {
        InterpretIsEvents(rest, []);
        NonEmptyCons(Join("\n", data), Events(rest, []));
        JoinNothing();
        assert [] + Events(rest, []) == Events(rest, []);
        assert [] + Interpret(rest, []) == Interpret(rest, []);
      } else if StartsWith(lines[0], DATA) {
        InterpretIsEvents(rest, data + [LStrip(lines[0][|DATA|..])]);
      } else {
        InterpretIsEvents(rest, data);
      }
    }
  }

  lemma NothingNonEmpty()
    ensures NonEmpty([]) == []
  {
  }

  /**
   The reader yields the non-empty data of the standard's events, with a blank line
   implied at the end of the upstream: for text in which no CR stands alone, every
   line agrees, and the unfinished tail has no line break but LF.
   */
  lemma PayloadsAreEvents(text: string)
    requires NoLoneCr(text) && AllAgree(StandardLines(text)) && OnlyLf(CutFrames(Normalise(text)).rest)
    ensures Payloads(text) == NonEmpty(Events(StandardLines(text) + [""], []))
  {
    hide StandardLines, Events, Interpret, SplitOn, CutFrames, Normalise, NonEmpty, OnlyLf, LineAgrees;
    LinesAgreeIff(text);
    PayloadsAreInterpreted(text);
    assert LineAgrees("") by { LineAgreesIff(""); }
    InterpretIsEvents(StandardLines(text) + [""], []);
  }
}
