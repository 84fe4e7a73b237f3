/**
 Where chunking shows in what the SSE reader yields (sparkdeck/responses.py,
 _sse_payloads): a data line that ends in CR CR LF.
 */
module SseStutter {
  import opened PyText
  import opened Seqs
  import opened SseReader

  // ----- one more character at the end of a line -----------------------------

  /** The last line with one more character. */
  function ExtendLast(lines: seq<string>, c: char): seq<string>
    requires |lines| >= 1
  {
    lines[..|lines| - 1] + [lines[|lines| - 1] + [c]]
  }

  /** Text without a line feed continues the last line. */
  lemma {:induction false} SplitOnExtend(x: string, c: char)
    requires c != '\n'
    ensures SplitOn('\n', x + [c]) == ExtendLast(SplitOn('\n', x), c)
  {
    hide ExtendLast;
    if x == "" {
      SplitOnOne(c);
      assert x + [c] == [c];
    } else {
      SplitOnExtend(x[1..], c);
      TailAppend(x, [c]);
      ExtendBehind(x[0], SplitOn('\n', x[1..]), c);
    }
  }

  lemma SplitOnOne(c: char)
    requires c != '\n'
    ensures SplitOn('\n', [c]) == [[c]] == ExtendLast(SplitOn('\n', ""), c)
  {
    assert [c][1..] == "" && SplitOn('\n', "") == [""];
    assert [c] + "" == [c] == "" + [c];
    assert [[c]] + [""][1..] == [[c]] == [""][..0] + [[c]];
  }

  lemma ExtendBehind(x: char, p: seq<string>, c: char)
    requires |p| >= 1
    ensures |ExtendLast(p, c)| == |p|
    ensures [""] + ExtendLast(p, c) == ExtendLast([""] + p, c)
    ensures [[x] + ExtendLast(p, c)[0]] + ExtendLast(p, c)[1..] == ExtendLast([[x] + p[0]] + p[1..], c)
  {
    Assoc([x], p[0], [c]);
  }

  lemma {:induction false} LStripExtend(s: string, c: char)
    requires LStrip(s) != ""
    ensures LStrip(s + [c]) == LStrip(s) + [c]
  {
    TailAppend(s, [c]);
    if IsSpace(s[0]) {
      LStripExtend(s[1..], c);
    }
  }

  lemma {:induction false} JoinExtend(a: seq<string>, x: string, b: seq<string>, c: char)
    ensures |Join("\n", a + ([x + [c]] + b))| == |Join("\n", a + ([x] + b))| + 1
  {
    if a == [] {
      assert [] + ([x + [c]] + b) == [x + [c]] + b && [] + ([x] + b) == [x] + b;
      assert ([x + [c]] + b)[1..] == b && ([x] + b)[1..] == b;
    } else {
      JoinExtend(a[1..], x, b, c);
      TailAppend(a, [x + [c]] + b);
      TailAppend(a, [x] + b);
    }
  }

  /** The last line is a data line with something to yield. */
  predicate EndsInData(text: string) {
    var lines := SplitOn('\n', text);
    var last := lines[|lines| - 1];
    StartsWith(last, DATA) && LStrip(last[|DATA|..]) != ""
  }

  lemma LastLineData(first: seq<string>, last: string, more: seq<string>)
    requires StartsWith(last, DATA) && LStrip(last[|DATA|..]) != ""
    ensures DataLines(first + ([last] + more)) == DataLines(first) + ([LStrip(last[|DATA|..])] + DataLines(more))
    ensures StartsWith(last + ['\r'], DATA)
    ensures DataLines(first + ([last + ['\r']] + more)) == DataLines(first) + ([LStrip(last[|DATA|..]) + ['\r']] + DataLines(more))
  {
    hide LStrip, StartsWith;
    assert StartsWith(last + ['\r'], DATA) && (last + ['\r'])[|DATA|..] == last[|DATA|..] + ['\r'] by { StartsMore(last); }
    LStripExtend(last[|DATA|..], '\r');
    DataLinesAppend(first, [last] + more);
    DataLinesAppend(first, [last + ['\r']] + more);
    assert ([last] + more)[1..] == more && ([last + ['\r']] + more)[1..] == more;
  }

  lemma StartsMore(last: string)
    requires StartsWith(last, DATA)
    ensures StartsWith(last + ['\r'], DATA) && (last + ['\r'])[|DATA|..] == last[|DATA|..] + ['\r']
  {
    assert (last + ['\r'])[..|DATA|] == last[..|DATA|];
  }

  /** Behind the line end: nothing, or a line feed and more lines. */
  lemma SplitBehindLine(text: string, behind: string)
    requires behind == "" || behind[0] == '\n'
    ensures SplitOn('\n', text + behind) == SplitOn('\n', text) + (if behind == "" then [] else SplitOn('\n', behind[1..]))
  {
    if behind == "" {
      assert text + behind == text && SplitOn('\n', text) + [] == SplitOn('\n', text);
    } else {
      SplitOnAppend(text, behind[1..]);
      assert text + "\n" + behind[1..] == text + behind;
    }
  }

  /** A frame yields something else when its data line has one more CR at the end. */
  lemma FrameYieldDiffers(text: string, behind: string)
    requires EndsInData(text) && (behind == "" || behind[0] == '\n')
    ensures |Yield(SplitOn('\n', text + behind))| == 1 && |Yield(SplitOn('\n', text + ['\r'] + behind))| == 1
    ensures Yield(SplitOn('\n', text + behind)) != Yield(SplitOn('\n', text + ['\r'] + behind))
  {
    hide SplitOn, DataLines, Join, LStrip;
    var lines := SplitOn('\n', text);
    var first, last := lines[..|lines| - 1], lines[|lines| - 1];
    var more := if behind == "" then [] else SplitOn('\n', behind[1..]);
    SplitBehindLine(text, behind);
    SplitBehindLine(text + ['\r'], behind);
    SplitOnExtend(text, '\r');
    InitLast(lines);
    Assoc(first, [last], more);
    Assoc(first, [last + ['\r']], more);
    LastLineData(first, last, more);
    var x := LStrip(last[|DATA|..]);
    JoinExtend(DataLines(first), x, DataLines(more), '\r');
    JoinHolds(DataLines(first), x, DataLines(more));
  }

  lemma {:induction false} JoinHolds(a: seq<string>, x: string, b: seq<string>)
    requires x != ""
    ensures Join("\n", a + ([x] + b)) != ""
  {
    if a == [] {
      assert [] + ([x] + b) == [x] + b;
    } else {
      JoinHolds(a[1..], x, b);
      TailAppend(a, [x] + b);
    }
  }

  // ----- the first frame of what is buffered ------------------------------------

  lemma {:induction false} FirstBlankBehind(a: string, u: string)
    requires FirstBlank(a) == |a| && (a == "" || a[|a| - 1] != '\n')
    ensures FirstBlank(a + u) == |a| + FirstBlank(u)
  {
    if a == "" {
      assert a + u == u;
    } else {
      assert |a| >= 2 ==> !(a[0] == '\n' && a[1] == '\n');
      assert |a| >= 2 ==> FirstBlank(a[1..]) == |a[1..]|;
      FirstBlankBehind(a[1..], u);
      TailAppend(a, u);
      assert |a + u| >= 2 ==> (a + u)[1] == if |a| >= 2 then a[1] else u[0];
    }
  }

  lemma CutAt(s: string)
    requires FirstBlank(s) < |s|
    ensures var i, c := FirstBlank(s), CutFrames(s[FirstBlank(s) + 2..]);
            CutFrames(s) == Cut([s[..i]] + c.frames, c.rest)
  {
    hide FirstBlank;
  }

  lemma CutBehind(a: string, u: string)
    requires FirstBlank(a) == |a| && (a == "" || a[|a| - 1] != '\n') && FirstBlank(u) < |u|
    ensures var i, c := FirstBlank(u), CutFrames(u[FirstBlank(u) + 2..]);
            CutFrames(a + u) == Cut([a + u[..i]] + c.frames, c.rest)
  {
    hide FirstBlank, CutFrames;
    var i := FirstBlank(u);
    FirstBlankBehind(a, u);
    CutAt(a + u);
    SplitBehind(a, u, i);
    SplitBehind(a, u, i + 2);
  }

  /** Text that ends in a line feed, or is empty, has a blank last line. */
  lemma LastLineBlank(text: string)
    ensures text == "" || text[|text| - 1] == '\n' ==> var lines := SplitOn('\n', text); lines[|lines| - 1] == ""
  {
    if text != "" {
      var init := text[..|text| - 1];
      SplitOnAppend(init, "");
      InitLast(text);
      assert init + "\n" + "" == init + "\n";
    }
  }

  lemma DataLineEnd(text: string)
    requires EndsInData(text)
    ensures text != "" && text[|text| - 1] != '\n'
  {
    hide LStrip, SplitOn;
    LastLineBlank(text);
  }

  lemma ExtendUnblanked(a: string)
    requires FirstBlank(a) == |a| && a != "" && a[|a| - 1] != '\n'
    ensures FirstBlank(a + ['\r']) == |a + ['\r']|
  {
    FirstBlankBehind(a, ['\r']);
  }

  /** The buffers that the two chunkings leave, with what follows: only the first frame differs. */
  lemma BuffersDiffer(rest: string, w: string)
    requires EndsInData(rest) && FirstBlank(rest) == |rest| && FirstBlank("\n" + w) < |"\n" + w|
    ensures var c, d := CutFrames(rest + ("\n" + w)), CutFrames(rest + ['\r'] + ("\n" + w));
            && c.rest == d.rest && |c.frames| >= 1 && |d.frames| >= 1 && c.frames[1..] == d.frames[1..]
            && |Yield(SplitOn('\n', c.frames[0]))| == |Yield(SplitOn('\n', d.frames[0]))| == 1
            && Yield(SplitOn('\n', c.frames[0])) != Yield(SplitOn('\n', d.frames[0]))
  {
    hide FirstBlank, CutFrames, EndsInData, Yield, SplitOn;
    var u := "\n" + w;
    var i := FirstBlank(u);
    DataLineEnd(rest);
    ExtendUnblanked(rest);
    CutBehind(rest, u);
    CutBehind(rest + ['\r'], u);
    FrameYieldDiffers(rest, u[..i]);
    var c := CutFrames(u[i + 2..]);
    assert ([rest + u[..i]] + c.frames)[1..] == c.frames && ([rest + ['\r'] + u[..i]] + c.frames)[1..] == c.frames;
  }

  // ----- the two chunkings ------------------------------------------------------------

  lemma ReadOne(frames: seq<string>, c: Cut)
    requires |c.frames| >= 1
    ensures YieldFrames(frames + c.frames) + YieldTail(c.rest)
         == YieldFrames(frames) + (Yield(SplitOn('\n', c.frames[0])) + (YieldFrames(c.frames[1..]) + YieldTail(c.rest)))
  {
    hide Yield, SplitOn, YieldTail;
    YieldFramesAppend(frames, c.frames);
    Assoc(Yield(SplitOn('\n', c.frames[0])), YieldFrames(c.frames[1..]), YieldTail(c.rest));
    Assoc(YieldFrames(frames), Yield(SplitOn('\n', c.frames[0])) + YieldFrames(c.frames[1..]), YieldTail(c.rest));
  }

  lemma DifferAt(a: seq<string>, x: seq<string>, y: seq<string>, b: seq<string>)
    requires |x| == |y| == 1 && x != y
    ensures a + (x + b) != a + (y + b)
  {
    assert (a + (x + b))[|a|] == x[0] && (a + (y + b))[|a|] == y[0];
  }

  /** A text of two chunks cut right behind a CR CR LF, in terms of what the text before leaves buffered. */
  lemma CutThere(z: string, y: string)
    requires NoStutter(z)
    ensures var c := CutFrames(Normalise(z));
            var d := CutFrames(c.rest + ("\n" + Normalise(y)));
            EndsInData(c.rest) ==> FeedAll([z + "\r\r\n", y]) == Reader(c.frames + d.frames, d.rest)
  {
    hide Normalise, CutFrames, NoStutter, EndsInData, FirstBlank, NoCrLf;
    var x := z + "\r\r\n";
    var c := CutFrames(Normalise(z));
    if EndsInData(c.rest) {
      TwoChunks(x, y);
      StutterRemains(z);
      CutFacts(Normalise(z));
      CutRestUnblanked(Normalise(z));
      DataLineEnd(c.rest);
      Assoc(Unframe(c.frames), c.rest, "\r\n");
      var rest := c.rest + "\r\n";
      RestStays(c.rest);
      CutResume(c.frames, rest, CutFrames(rest));
      assert c.frames + [] == c.frames && "" + x == x && [] + c.frames == c.frames;
      assert Feed(Reader([], ""), x) == Reader(c.frames, rest);
      NormaliseClean(z);
      RestIsClean(c.frames, c.rest, Normalise(z));
      RestNormalised(c.rest, y);
    }
  }

  lemma RestStays(rest: string)
    requires FirstBlank(rest) == |rest| && rest != "" && rest[|rest| - 1] != '\n'
    ensures CutFrames(rest + "\r\n") == Cut([], rest + "\r\n")
  {
    FirstBlankBehind(rest, "\r\n");
    assert FirstBlank("\r\n") == 2 by { assert "\r\n"[1..] == "\n"; }
  }

  lemma RestIsClean(frames: seq<string>, rest: string, n: string)
    requires NoCrLf(n) && n == Unframe(frames) + rest
    ensures NoCrLf(rest)
  {
    var p := Unframe(frames);
    forall i | 0 <= i && i + 1 < |rest| ensures !(rest[i] == '\r' && rest[i + 1] == '\n') {
      assert n[|p| + i] == rest[i] && n[|p| + i + 1] == rest[i + 1];
    }
  }

  lemma RestNormalised(rest: string, y: string)
    requires NoCrLf(rest) && rest != "" && rest[|rest| - 1] != '\n'
    ensures Normalise(rest + "\r\n" + y) == rest + ("\n" + Normalise(y))
  {
    hide NoCrLf;
    Assoc(rest, "\r\n", y);
    NormaliseKeeps(rest);
    NormaliseSplit(rest, "\r\n" + y);
    NormalisePair(y);
  }

  lemma FeedOne(x: string)
    ensures var c := CutFrames(Normalise(x)); FeedAll([x]) == Reader(c.frames, c.rest)
  {
    hide CutFrames, Normalise;
    assert [x][..0] == [] && "" + x == x;
    assert FeedAll([x]) == Feed(FeedAll([]), x);
    var c := CutFrames(Normalise(x));
    assert [] + c.frames == c.frames;
  }

  lemma StutterInside(z: string, y: string)
    ensures Normalise(z + "\r\r\n" + y) == Normalise(z) + (['\r'] + ("\n" + Normalise(y)))
  {
    hide Normalise;
    StutterRemains(z);
    NormaliseSplit(z + "\r\r\n", y);
    assert "\r\n" + Normalise(y) == ['\r'] + ("\n" + Normalise(y));
    Assoc(Normalise(z), "\r\n", Normalise(y));
  }

  /** The same text in one chunk. */
  lemma CutNowhere(z: string, y: string)
    ensures var c := CutFrames(Normalise(z));
            var d := CutFrames(c.rest + ['\r'] + ("\n" + Normalise(y)));
            FeedAll([z + "\r\r\n" + y]) == Reader(c.frames + d.frames, d.rest)
  {
    hide Normalise, CutFrames, Unframe, Framed, FeedAll;
    var c := CutFrames(Normalise(z));
    var behind := "\n" + Normalise(y);
    FeedOne(z + "\r\r\n" + y);
    StutterInside(z, y);
    CutFacts(Normalise(z));
    Assoc(Unframe(c.frames), c.rest, ['\r'] + behind);
    Assoc(c.rest, ['\r'], behind);
    CutResume(c.frames, c.rest + ['\r'] + behind, CutFrames(c.rest + ['\r'] + behind));
  }

  /**
   A non-empty data line that ends in CR CR LF, in a frame that is terminated: cut
   behind the CR CR LF the text yields a payload without the CR, and in one chunk the
   same payload with it. So what is yielded depends on the chunks, whatever comes
   before and behind.
   */
  lemma StutteredDataShows(z: string, y: string)
    requires NoStutter(z) && EndsInData(CutFrames(Normalise(z)).rest)
    requires FirstBlank("\n" + Normalise(y)) < |"\n" + Normalise(y)|
    ensures Concat([z + "\r\r\n", y]) == Concat([z + "\r\r\n" + y])
    ensures Read([z + "\r\r\n", y]) != Read([z + "\r\r\n" + y])
  {
    hide Normalise, CutFrames, EndsInData, FirstBlank, Yield, SplitOn, YieldFrames, YieldTail, FeedAll, NoStutter;
    TwoChunks(z + "\r\r\n", y);
    OneChunk(z + "\r\r\n" + y);
    var c := CutFrames(Normalise(z));
    var w := Normalise(y);
    var d, e := CutFrames(c.rest + ("\n" + w)), CutFrames(c.rest + ['\r'] + ("\n" + w));
    CutRestUnblanked(Normalise(z));
    BuffersDiffer(c.rest, w);
    CutThere(z, y);
    CutNowhere(z, y);
    ReadOne(c.frames, d);
    ReadOne(c.frames, e);
    DifferAt(YieldFrames(c.frames), Yield(SplitOn('\n', d.frames[0])), Yield(SplitOn('\n', e.frames[0])),
             YieldFrames(d.frames[1..]) + YieldTail(d.rest));
  }

  lemma OneChunk(x: string)
    ensures Concat([x]) == x
  {
    assert [x][1..] == [] && x + "" == x;
  }

  /** For example. */
  lemma StutteredExample()
    ensures Concat(["data: a\r\r\n", "\n"]) == Concat(["data: a\r\r\n" + "\n"])
    ensures Read(["data: a\r\r\n", "\n"]) != Read(["data: a\r\r\n" + "\n"])
  {
    hide Read, Concat, CutFrames, Normalise, EndsInData, FirstBlank;
    var z := "data: a";
    assert z + "\r\r\n" == "data: a\r\r\n";
    ExampleLine(z);
    LoneFeed();
    StutteredDataShows(z, "\n");
  }

  lemma ExampleLine(z: string)
    requires z == "data: a"
    ensures NoStutter(z) && EndsInData(CutFrames(Normalise(z)).rest)
  {
    hide CutFrames, Normalise, FirstBlank, SplitOn;
    NormaliseKeeps(z);
    NoFeedNoBlank(z);
    NoFeedOneLine(z);
    assert z[..5] == DATA && z[5..] == " a" && " a"[1..] == "a";
    assert LStrip(" a") == LStrip("a") == "a";
  }

  lemma LoneFeed()
    ensures FirstBlank("\n" + Normalise("\n")) == 0 && |"\n" + Normalise("\n")| == 2
  {
    NormaliseKeeps("\n");
  }

  lemma {:induction false} NoFeedOneLine(s: string)
    requires '\n' !in s
    ensures SplitOn('\n', s) == [s]
  {
    if s != "" {
      NoFeedOneLine(s[1..]);
      HeadTail(s);
    }
  }

  lemma {:induction false} NoFeedNoBlank(s: string)
    requires '\n' !in s
    ensures FirstBlank(s) == |s| && CutFrames(s) == Cut([], s)
  {
    if |s| >= 2 {
      NoFeedNoBlank(s[1..]);
    }
  }
}
