/**
 The server-sent-event reader in front of the Responses adapter
 (sparkdeck/responses.py, _sse_payloads). Chunks arrive as decoded text; the
 reader normalises CR LF, cuts the buffer at blank lines and yields the joined
 data lines of each frame.
 */
module SseReader {
  import opened PyText
  import opened Seqs

  const DATA := "data:"

  /** text.replace("\r\n", "\n") */
  function Normalise(s: string): string {
    if s == "" then ""
    else if |s| >= 2 && s[0] == '\r' && s[1] == '\n' then "\n" + Normalise(s[2..])
    else [s[0]] + Normalise(s[1..])
  }

  /** Position of the first "\n\n", or |s| when there is none. */
  function FirstBlank(s: string): (i: nat)
    ensures i <= |s|
    ensures i < |s| ==> i + 1 < |s| && s[i] == '\n' && s[i + 1] == '\n'
  {
    if |s| < 2 then |s|
    else if s[0] == '\n' && s[1] == '\n' then 0
    else 1 + FirstBlank(s[1..])
  }

  datatype Cut = Cut(frames: seq<string>, rest: string)

  /** Split off every frame that a blank line ends. */
  function CutFrames(s: string): Cut
    decreases |s|
  {
    var i := FirstBlank(s);
    if i == |s| then Cut([], s)
    else
      var c := CutFrames(s[i + 2..]);
      Cut([s[..i]] + c.frames, c.rest)
  }

  /** The data lines of a frame: prefix removed, left-stripped. */
  function DataLines(lines: seq<string>): seq<string> {
    if |lines| == 0 then []
    else if StartsWith(lines[0], DATA) then [LStrip(lines[0][|DATA|..])] + DataLines(lines[1..])
    else DataLines(lines[1..])
  }

  /** A frame yields its joined data lines unless they are empty. */
  function Yield(lines: seq<string>): seq<string> {
    var data := Join("\n", DataLines(lines));
    if data == "" then [] else [data]
  }

  function YieldFrames(frames: seq<string>): seq<string> {
    if |frames| == 0 then [] else Yield(SplitOn('\n', frames[0])) + YieldFrames(frames[1..])
  }

  /** What is yielded for the text left over when the upstream ends. */
  function YieldTail(rest: string): seq<string> {
    if AllSpace(rest) then [] else Yield(SplitLines(rest))
  }

  // ----- the reader as a fold over chunks -----------------------------

  datatype Reader = Reader(frames: seq<string>, buffer: string)

  function Feed(r: Reader, chunk: string): Reader {
    var c := CutFrames(Normalise(r.buffer + chunk));
    Reader(r.frames + c.frames, c.rest)
  }

  function FeedAll(chunks: seq<string>): Reader {
    if |chunks| == 0 then Reader([], "")
    else Feed(FeedAll(chunks[..|chunks| - 1]), chunks[|chunks| - 1])
  }

  function Read(chunks: seq<string>): seq<string> {
    var r := FeedAll(chunks);
    YieldFrames(r.frames) + YieldTail(r.buffer)
  }

  lemma {:induction false} YieldFramesAppend(a: seq<string>, b: seq<string>)
    ensures YieldFrames(a + b) == YieldFrames(a) + YieldFrames(b)
  {
    hide Yield, SplitOn;
    if |a| == 0 {
      assert a + b == b;
    } else {
      YieldFramesAppend(a[1..], b);
      assert (a + b)[0] == a[0] && (a + b)[1..] == a[1..] + b;
      Assoc(Yield(SplitOn('\n', a[0])), YieldFrames(a[1..]), YieldFrames(b));
    }
  }

  /** The generator itself: the payloads it yields are exactly those of the fold. */
  method SsePayloads(chunks: seq<string>) returns (payloads: seq<string>)
    ensures payloads == Read(chunks)
  {
    payloads := [];
    var buffer := "";
    for k := 0 to |chunks|
      invariant buffer == FeedAll(chunks[..k]).buffer
      invariant payloads == YieldFrames(FeedAll(chunks[..k]).frames)
    {
      var more;
      more, buffer := YieldFromBuffer(Normalise(buffer + chunks[k]));
      FeedAllStep(chunks, k);
      payloads := payloads + more;
    }
    assert chunks[..|chunks|] == chunks;
    if !AllSpace(buffer) {
      var data := Join("\n", DataLines(SplitLines(buffer)));
      if data != "" {
        payloads := payloads + [data];
      }
    }
  }

  lemma FeedAllStep(chunks: seq<string>, k: nat)
    requires k < |chunks|
    ensures var r, c := FeedAll(chunks[..k]), CutFrames(Normalise(FeedAll(chunks[..k]).buffer + chunks[k]));
            && FeedAll(chunks[..k + 1]) == Reader(r.frames + c.frames, c.rest)
            && YieldFrames(r.frames + c.frames) == YieldFrames(r.frames) + YieldFrames(c.frames)
  {
    assert chunks[..k + 1][..k] == chunks[..k];
    YieldFramesAppend(FeedAll(chunks[..k]).frames, CutFrames(Normalise(FeedAll(chunks[..k]).buffer + chunks[k])).frames);
  }

  lemma CutStep(s: string)
    requires FirstBlank(s) < |s|
    ensures var i := FirstBlank(s);
            && CutFrames(s).rest == CutFrames(s[i + 2..]).rest
            && YieldFrames(CutFrames(s).frames)
               == Yield(SplitOn('\n', s[..i])) + YieldFrames(CutFrames(s[i + 2..]).frames)
  {
    hide FirstBlank, Yield;
    var i := FirstBlank(s);
    assert CutFrames(s).frames[1..] == CutFrames(s[i + 2..]).frames;
  }

  lemma CutEnd(s: string)
    requires FirstBlank(s) == |s|
    ensures CutFrames(s) == Cut([], s) && YieldFrames(CutFrames(s).frames) == []
  {
  }

  /** The inner loop: yield each complete frame of the buffer and keep what is behind the last. */
  method YieldFromBuffer(text: string) returns (payloads: seq<string>, buffer: string)
    ensures payloads == YieldFrames(CutFrames(text).frames)
    ensures buffer == CutFrames(text).rest
  {
    hide CutFrames, YieldFrames, FirstBlank, SplitOn, DataLines, Join;
    payloads, buffer := [], text;
    while FirstBlank(buffer) < |buffer|
      invariant payloads + YieldFrames(CutFrames(buffer).frames) == YieldFrames(CutFrames(text).frames)
      invariant CutFrames(buffer).rest == CutFrames(text).rest
      decreases |buffer|
    {
      var i := FirstBlank(buffer);
      CutStep(buffer);
      var lines := SplitOn('\n', buffer[..i]);
      buffer := buffer[i + 2..];
      Assoc(payloads, Yield(lines), YieldFrames(CutFrames(buffer).frames));
      var data := Join("\n", DataLines(lines));
      if data != "" {
        payloads := payloads + [data];
      }
    }
    CutEnd(buffer);
  }

  // ----- chunking invariance ------------------------------------------

  /** No CR LF pair is itself preceded by a CR. */
  predicate NoStutter(s: string) {
    forall i :: 0 <= i && i + 2 < |s| ==> !(s[i] == '\r' && s[i + 1] == '\r' && s[i + 2] == '\n')
  }

  predicate NoCrLf(s: string) {
    forall i :: 0 <= i && i + 1 < |s| ==> !(s[i] == '\r' && s[i + 1] == '\n')
  }

  lemma NoStutterTail(s: string, n: nat)
    requires NoStutter(s) && n <= |s|
    ensures NoStutter(s[n..])
  {
    var t := s[n..];
    forall i | 0 <= i && i + 2 < |t|
      ensures !(t[i] == '\r' && t[i + 1] == '\r' && t[i + 2] == '\n')
    {
      assert t[i] == s[n + i] && t[i + 1] == s[n + i + 1] && t[i + 2] == s[n + i + 2];
    }
  }

  lemma NoStutterInit(a: string, b: string)
    requires NoStutter(a + b)
    ensures NoStutter(a)
  {
    forall i | 0 <= i && i + 2 < |a|
      ensures !(a[i] == '\r' && a[i + 1] == '\r' && a[i + 2] == '\n')
    {
      var t := a + b;
      assert a[i] == t[i] && a[i + 1] == t[i + 1] && a[i + 2] == t[i + 2];
    }
  }

  /** Normalise steps over a character that does not start a CR LF. */
  lemma NormaliseStep(c: char, s: string)
    requires !(c == '\r' && s != "" && s[0] == '\n')
    ensures Normalise([c] + s) == [c] + Normalise(s)
  {
    assert ([c] + s)[1..] == s;
  }

  lemma NormalisePair(s: string)
    ensures Normalise("\r\n" + s) == "\n" + Normalise(s)
  {
    assert ("\r\n" + s)[2..] == s;
  }

  /** Normalising can only produce a leading LF from a leading LF or CR LF. */
  lemma NormaliseHead(s: string)
    ensures s == "" <==> Normalise(s) == ""
    ensures s != "" && Normalise(s)[0] == '\n' && s[0] != '\n' ==> |s| >= 2 && s[..2] == "\r\n"
  {
  }

  /** Normalising an already normalised prefix again changes nothing, when no CR LF is stuttered. */
  lemma {:induction false} NormaliseTwice(a: string, b: string)
    requires NoStutter(a + b)
    ensures Normalise(Normalise(a) + b) == Normalise(a + b)
    decreases |a|
  {
    if a == "" {
      assert Normalise(a) + b == b && a + b == b;
    } else if |a| >= 2 && a[..2] == "\r\n" {
      hide Normalise, NoStutter;
      assert a == "\r\n" + a[2..];
      NormaliseTwicePair(a[2..], b);
    } else {
      hide Normalise, NoStutter;
      assert a == [a[0]] + a[1..];
      NormaliseTwiceStep(a[0], a[1..], b);
    }
  }

  lemma {:induction false} NormaliseTwicePair(t: string, b: string)
    requires NoStutter("\r\n" + t + b)
    ensures Normalise(Normalise("\r\n" + t) + b) == Normalise("\r\n" + t + b)
    decreases 2 + |t|, 0
  {
    hide Normalise, NoStutter;
    Assoc("\r\n", t, b);
    Assoc("\n", Normalise(t), b);
    assert ("\r\n" + (t + b))[2..] == t + b;
    NoStutterTail("\r\n" + t + b, 2);
    NormaliseTwice(t, b);
    NormalisePair(t);
    NormalisePair(t + b);
    NormaliseStep('\n', Normalise(t) + b);
  }

  lemma {:induction false} NormaliseTwiceStep(c: char, t: string, b: string)
    requires NoStutter([c] + t + b)
    requires !(c == '\r' && t != "" && t[0] == '\n')
    ensures Normalise(Normalise([c] + t) + b) == Normalise([c] + t + b)
    decreases 1 + |t|, 0
  {
    hide Normalise;
    var n, all := Normalise(t), [c] + t + b;
    assert all[1..] == t + b;
    NoStutterTail(all, 1);
    NormaliseTwice(t, b);
    NormaliseStep(c, t);
    NormaliseHead(t);
    Assoc([c], n, b);
    Assoc([c], t, b);
    if t != "" {
      assert |t| >= 2 ==> all[0] == c && all[1] == t[0] && all[2] == t[1];
      assert !(c == '\r' && n[0] == '\n');
      assert (n + b)[0] == n[0] && (t + b)[0] == t[0];
      NormaliseStep(c, n + b);
      NormaliseStep(c, t + b);
    }
  }

  lemma {:induction false} NormaliseClean(s: string)
    requires NoStutter(s)
    ensures NoCrLf(Normalise(s))
    decreases |s|
  {
    if s == "" {
    } else if |s| >= 2 && s[0] == '\r' && s[1] == '\n' {
      NoStutterTail(s, 2);
      NormaliseClean(s[2..]);
    } else {
      NoStutterTail(s, 1);
      NormaliseClean(s[1..]);
      NormaliseHead(s[1..]);
    }
  }

  lemma {:induction false} NormaliseSplit(a: string, b: string)
    requires a != "" && a[|a| - 1] == '\r' ==> b == "" || b[0] != '\n'
    ensures Normalise(a + b) == Normalise(a) + Normalise(b)
    decreases |a|
  {
    if a == "" {
      assert a + b == b;
    } else if |a| >= 2 && a[..2] == "\r\n" {
      hide Normalise;
      var t := a[2..];
      assert a == "\r\n" + t;
      NormaliseSplit(t, b);
      NormalisePair(t);
      NormalisePair(t + b);
      Assoc("\r\n", t, b);
      Assoc("\n", Normalise(t), Normalise(b));
    } else {
      hide Normalise;
      var t := a[1..];
      HeadTail(a);
      NormaliseSplit(t, b);
      NormaliseStep(a[0], t);
      Assoc([a[0]], t, b);
      Assoc([a[0]], Normalise(t), Normalise(b));
      assert t != "" ==> (t + b)[0] == a[1];
      NormaliseStep(a[0], t + b);
    }
  }

  lemma {:induction false} NormaliseKeeps(p: string)
    requires NoCrLf(p)
    ensures Normalise(p) == p
  {
    if p != "" {
      var q := p[1..];
      assert forall i :: 0 <= i < |q| ==> q[i] == p[i + 1];
      NormaliseKeeps(q);
      HeadTail(p);
      NormaliseStep(p[0], q);
    }
  }

  // ----- cutting resumes where it stopped -----------------------------

  /** The text that a list of frames takes up, blank lines included. */
  function Unframe(frames: seq<string>): string {
    if |frames| == 0 then "" else frames[0] + "\n\n" + Unframe(frames[1..])
  }

  /** A frame: no blank line inside it, nor across the one that ends it. */
  predicate IsFrame(f: string) {
    FirstBlank(f + "\n\n") == |f|
  }

  lemma {:induction false} FirstBlankFrame(s: string)
    requires FirstBlank(s) < |s|
    ensures IsFrame(s[..FirstBlank(s)])
  {
    var f := s[..FirstBlank(s)];
    if s[0] == '\n' && s[1] == '\n' {
      assert f + "\n\n" == "\n\n";
    } else {
      FirstBlankFrame(s[1..]);
      assert s[1..][..FirstBlank(s[1..])] == f[1..];
      assert (f + "\n\n")[1..] == f[1..] + "\n\n";
      assert (f + "\n\n")[0] == s[0] && (f + "\n\n")[1] == s[1];
    }
  }

  lemma {:induction false} FrameFirstBlank(f: string, w: string)
    requires IsFrame(f)
    ensures FirstBlank(f + "\n\n" + w) == |f|
  {
    var g, z := f + "\n\n", f + "\n\n" + w;
    assert z[0] == g[0] && z[1] == g[1];
    if f != "" {
      assert g[1..] == f[1..] + "\n\n";
      assert z[1..] == f[1..] + "\n\n" + w;
      FrameFirstBlank(f[1..], w);
    }
  }

  lemma CutOne(f: string, w: string)
    requires IsFrame(f)
    ensures CutFrames(f + "\n\n" + w) == Cut([f] + CutFrames(w).frames, CutFrames(w).rest)
  {
    FrameFirstBlank(f, w);
    var z := f + "\n\n" + w;
    assert z[..|f|] == f && z[|f| + 2..] == w;
  }

  predicate Framed(frames: seq<string>) {
    |frames| == 0 || (IsFrame(frames[0]) && Framed(frames[1..]))
  }

  lemma {:induction false} CutFacts(s: string)
    ensures s == Unframe(CutFrames(s).frames) + CutFrames(s).rest
    ensures Framed(CutFrames(s).frames)
    decreases |s|
  {
    var i := FirstBlank(s);
    if i < |s| {
      var f, t := s[..i], s[i + 2..];
      CutFacts(t);
      FirstBlankFrame(s);
      SplitAtBlank(s, i);
      Assoc(f + "\n\n", Unframe(CutFrames(t).frames), CutFrames(t).rest);
    }
  }

  lemma SplitAtBlank(s: string, i: nat)
    requires i + 1 < |s| && s[i] == '\n' && s[i + 1] == '\n'
    ensures s == s[..i] + "\n\n" + s[i + 2..]
  {
  }

  lemma {:induction false} CutResume(frames: seq<string>, y: string, c: Cut)
    requires Framed(frames) && c == CutFrames(y)
    ensures CutFrames(Unframe(frames) + y) == Cut(frames + c.frames, c.rest)
  {
    hide CutFrames, FirstBlank;
    if |frames| == 0 {
      assert Unframe(frames) + y == y;
    } else {
      var f, more := frames[0], frames[1..];
      var w := Unframe(more) + y;
      CutResume(more, y, c);
      CutOne(f, w);
      Assoc(f + "\n\n", Unframe(more), y);
      assert [f] + (more + c.frames) == frames + c.frames;
    }
  }

  lemma {:induction false} UnframeEnd(frames: seq<string>)
    ensures var p := Unframe(frames); p != "" ==> p[|p| - 1] == '\n'
  {
    if |frames| > 0 {
      UnframeEnd(frames[1..]);
    }
  }

  lemma NoCrLfInit(p: string, x: string)
    requires NoCrLf(p + x)
    ensures NoCrLf(p)
  {
    forall i | 0 <= i && i + 1 < |p| ensures !(p[i] == '\r' && p[i + 1] == '\n') {
      assert p[i] == (p + x)[i] && p[i + 1] == (p + x)[i + 1];
    }
  }

  /** One more chunk: cutting the buffer plus the chunk is cutting the whole text so far. */
  lemma FeedIsCut(t: string, chunk: string)
    requires NoStutter(t + chunk)
    ensures var c, d := CutFrames(Normalise(t)), CutFrames(Normalise(t + chunk));
            Feed(Reader(c.frames, c.rest), chunk) == Reader(d.frames, d.rest)
  {
    hide CutFrames, Normalise, NoStutter, NoCrLf, Framed, Unframe;
    var n := Normalise(t);
    var c := CutFrames(n);
    var p := Unframe(c.frames);
    NoStutterInit(t, chunk);
    NormaliseTwice(t, chunk);
    NormaliseClean(t);
    CutFacts(n);
    NoCrLfInit(p, c.rest);
    UnframeEnd(c.frames);
    NormaliseKeeps(p);
    NormaliseSplit(p, c.rest + chunk);
    Assoc(p, c.rest, chunk);
    var y := Normalise(c.rest + chunk);
    CutResume(c.frames, y, CutFrames(y));
  }

  /** After any chunks, the reader holds exactly what cutting the whole normalised text would give. */
  lemma {:induction false} FeedAllIsCut(chunks: seq<string>)
    requires NoStutter(Concat(chunks))
    ensures var c := CutFrames(Normalise(Concat(chunks)));
            FeedAll(chunks) == Reader(c.frames, c.rest)
  {
    if |chunks| > 0 {
      var init, last := chunks[..|chunks| - 1], chunks[|chunks| - 1];
      ConcatSnoc(init, last);
      assert chunks == init + [last];
      NoStutterInit(Concat(init), last);
      FeedAllIsCut(init);
      FeedIsCut(Concat(init), last);
    }
  }

  lemma ConcatSnoc(init: seq<string>, last: string)
    ensures Concat(init + [last]) == Concat(init) + last
  {
    ConcatAppend(init, [last]);
    assert Concat([last]) == last + Concat([]) == last;
  }

  /** What a whole text yields, read in one piece. */
  function Payloads(text: string): seq<string> {
    var c := CutFrames(Normalise(text));
    YieldFrames(c.frames) + YieldTail(c.rest)
  }

  /** The payloads depend on the concatenated text alone, however chunks split it. */
  lemma ChunkingInvariant(chunks: seq<string>)
    requires NoStutter(Concat(chunks))
    ensures Read(chunks) == Payloads(Concat(chunks))
  {
    FeedAllIsCut(chunks);
  }

  // ----- the condition is exact ---------------------------------------

  /** All normalised text that the reader has taken in, in order. */
  function Seen(r: Reader): string {
    Unframe(r.frames) + r.buffer
  }

  lemma {:induction false} NormaliseShrinks(s: string)
    ensures |Normalise(s)| <= |s|
    ensures !NoCrLf(s) ==> |Normalise(s)| < |s|
    decreases |s|
  {
    if |s| >= 2 && s[0] == '\r' && s[1] == '\n' {
      NormaliseShrinks(s[2..]);
    } else if s != "" {
      NormaliseShrinks(s[1..]);
      if !NoCrLf(s) {
        var i :| 0 <= i && i + 1 < |s| && s[i] == '\r' && s[i + 1] == '\n';
        assert s[1..][i - 1] == '\r' && s[1..][i] == '\n';
      }
    }
  }

  /** Text that ends in CR CR LF still ends in CR LF once normalised. */
  lemma StutterRemains(z: string)
    ensures Normalise(z + "\r\r\n") == Normalise(z) + "\r\n"
  {
    assert z + "\r\r\n" == z + ("\r" + ("\r\n" + ""));
    NormalisePair("");
    NormaliseStep('\r', "\r\n" + "");
    NormaliseSplit(z, "\r" + ("\r\n" + ""));
  }

  lemma {:induction false} UnframeEndsBlank(frames: seq<string>)
    ensures var p := Unframe(frames); p != "" ==> |p| >= 2 && p[|p| - 2] == '\n' && p[|p| - 1] == '\n'
  {
    if |frames| > 0 {
      UnframeEndsBlank(frames[1..]);
    }
  }

  /** What is still buffered after text ending in CR LF ends in CR LF itself. */
  lemma BufferKeepsCrLf(p: string, rest: string, n: string)
    requires p + rest == n + "\r\n"
    requires p != "" ==> |p| >= 2 && p[|p| - 2] == '\n' && p[|p| - 1] == '\n'
    ensures !NoCrLf(rest) && rest[|rest| - 1] == '\n'
  {
    var s := p + rest;
    assert s[|s| - 2] == '\r' && s[|s| - 1] == '\n';
    assert p != "" ==> s[|p| - 2] == '\n' && s[|p| - 1] == '\n';
    assert |rest| >= 2;
    assert rest[|rest| - 2] == s[|s| - 2] && rest[|rest| - 1] == s[|s| - 1];
  }

  /** Cut right behind a CR CR LF, the same text is normalised once too often. */
  lemma StutterShowsCut(z: string, y: string)
    ensures |Seen(Feed(Feed(Reader([], ""), z + "\r\r\n"), y))| < |Normalise(z + "\r\r\n" + y)|
  {
    hide CutFrames, Normalise, NoCrLf, Unframe, Framed;
    var x := z + "\r\r\n";
    var c := CutFrames(Normalise(x));
    assert "" + x == x;
    assert [] + c.frames == c.frames;
    StutterRemains(z);
    CutFacts(Normalise(x));
    UnframeEndsBlank(c.frames);
    BufferKeepsCrLf(Unframe(c.frames), c.rest, Normalise(z));
    FeedShrinks(c.frames, c.rest, y);
    assert x[|x| - 1] == '\n';
    NormaliseSplit(x, y);
  }

  lemma FeedShrinks(frames: seq<string>, rest: string, y: string)
    requires !NoCrLf(rest) && rest[|rest| - 1] == '\n'
    ensures |Seen(Feed(Reader(frames, rest), y))| < |Unframe(frames) + rest| + |Normalise(y)|
  {
    hide CutFrames, Normalise, NoCrLf, Unframe, Framed;
    NormaliseSplit(rest, y);
    NormaliseShrinks(rest);
    var m := Normalise(rest + y);
    CutFacts(m);
    UnframeAppend(frames, CutFrames(m).frames);
    Assoc(Unframe(frames), Unframe(CutFrames(m).frames), CutFrames(m).rest);
  }

  lemma {:induction false} UnframeAppend(a: seq<string>, b: seq<string>)
    ensures Unframe(a + b) == Unframe(a) + Unframe(b)
  {
    if |a| == 0 {
      assert a + b == b;
    } else {
      UnframeAppend(a[1..], b);
      assert (a + b)[1..] == a[1..] + b;
      Assoc(a[0] + "\n\n", Unframe(a[1..]), Unframe(b));
    }
  }

  /**
   The text taken in is the once-normalised text for every chunking if and only
   if no CR LF in it is preceded by a CR.
   */
  lemma NormalisationIsChunkingInvariantIff(text: string)
    ensures NoStutter(text)
       <==> forall chunks | Concat(chunks) == text :: Seen(FeedAll(chunks)) == Normalise(text)
  {
    hide Normalise, Seen, FeedAll, Concat, CutFrames;
    if NoStutter(text) {
      forall chunks | Concat(chunks) == text ensures Seen(FeedAll(chunks)) == Normalise(text) {
        FeedAllIsSeen(chunks);
      }
    } else {
      var i :| 0 <= i && i + 2 < |text| && text[i] == '\r' && text[i + 1] == '\r' && text[i + 2] == '\n';
      StutterHasBadChunking(text, i);
    }
  }

  lemma FeedAllIsSeen(chunks: seq<string>)
    requires NoStutter(Concat(chunks))
    ensures Seen(FeedAll(chunks)) == Normalise(Concat(chunks))
  {
    hide Normalise, FeedAll, Concat, CutFrames, NoStutter, Framed, Unframe;
    FeedAllIsCut(chunks);
    CutFacts(Normalise(Concat(chunks)));
  }

  lemma StutterHasBadChunking(text: string, i: nat)
    requires i + 2 < |text| && text[i] == '\r' && text[i + 1] == '\r' && text[i + 2] == '\n'
    ensures exists chunks :: Concat(chunks) == text && Seen(FeedAll(chunks)) != Normalise(text)
  {
    hide Normalise, Seen, FeedAll, Feed, Concat;
    var z, x, y := text[..i], text[..i + 3], text[i + 3..];
    assert x == z + "\r\r\n";
    TakeDrop(text, i + 3);
    TwoChunks(x, y);
    StutterShowsCut(z, y);
    assert Concat([x, y]) == text && Seen(FeedAll([x, y])) != Normalise(text);
  }

  lemma TwoChunks(x: string, y: string)
    ensures Concat([x, y]) == x + y
    ensures FeedAll([x, y]) == Feed(Feed(Reader([], ""), x), y)
  {
    assert [x, y][1..] == [y] && [y][1..] == [];
    assert Concat([y]) == y + Concat([]) == y;
    assert [x, y][..1] == [x] && [x][..0] == [];
    assert FeedAll([x]) == Feed(FeedAll([]), x);
  }

  // ----- the framing is line-by-line event-stream interpretation -------

  /** An event is dispatched unless its data is empty. */
  function Dispatch(data: seq<string>): seq<string> {
    var joined := Join("\n", data);
    if joined == "" then [] else [joined]
  }

  /**
   Line-by-line reference for the payloads: a blank line dispatches the pending data,
   a data line adds to it, every other line is ignored. Which lines the event-stream
   format itself reads in the same way, SseStandard says.
   */
  function Interpret(lines: seq<string>, data: seq<string>): seq<string> {
    if |lines| == 0 then []
    else if lines[0] == "" then Dispatch(data) + Interpret(lines[1..], [])
    else if StartsWith(lines[0], DATA) then Interpret(lines[1..], data + [LStrip(lines[0][|DATA|..])])
    else Interpret(lines[1..], data)
  }

  /** No line is blank. */
  predicate Solid(lines: seq<string>) {
    forall i :: 0 <= i < |lines| ==> lines[i] != ""
  }

  lemma {:induction false} InterpretSolid(lines: seq<string>, more: seq<string>, data: seq<string>)
    requires Solid(lines)
    ensures Interpret(lines + more, data) == Interpret(more, data + DataLines(lines))
  {
    var all := lines + more;
    if |lines| == 0 {
      assert all == more && data + [] == data;
    } else {
      var l, t := lines[0], lines[1..];
      assert all[0] == l && all[1..] == t + more;
      assert Solid(t) by {
        forall i | 0 <= i < |t| ensures t[i] != "" { assert t[i] == lines[i + 1]; }
      }
      if StartsWith(l, DATA) {
        var item := LStrip(l[|DATA|..]);
        InterpretSolid(t, more, data + [item]);
        Assoc(data, [item], DataLines(t));
      } else {
        InterpretSolid(t, more, data);
      }
    }
  }

  lemma InterpretBlank(more: seq<string>, data: seq<string>)
    ensures Interpret([""] + more, data) == Dispatch(data) + Interpret(more, [])
  {
    assert ([""] + more)[1..] == more;
  }

  /** One frame's lines followed by a blank line. */
  lemma InterpretFrame(lines: seq<string>, more: seq<string>)
    requires |lines| >= 1 && Solid(lines[1..])
    ensures Interpret(lines + ([""] + more), []) == Yield(lines) + Interpret(more, [])
  {
    hide Interpret, Join, LStrip;
    InterpretBlank(more, DataLines(lines));
    assert [] + DataLines(lines) == DataLines(lines);
    assert lines == [lines[0]] + lines[1..];
    if lines[0] == "" {
      InterpretSolid(lines[1..], [""] + more, []);
      Assoc([""], lines[1..], [""] + more);
      InterpretBlank(lines[1..] + ([""] + more), []);
      assert Dispatch([]) == [] by { JoinNothing(); }
    } else {
      assert Solid(lines) by {
        forall i | 0 <= i < |lines| ensures lines[i] != "" {
          if i > 0 { assert lines[i] == lines[1..][i - 1]; }
        }
      }
      InterpretSolid(lines, [""] + more, []);
    }
  }

  lemma JoinNothing()
    ensures Join("\n", []) == ""
  {
  }

  lemma {:induction false} SplitOnAppend(a: string, b: string)
    ensures SplitOn('\n', a + "\n" + b) == SplitOn('\n', a) + SplitOn('\n', b)
  {
    var s := a + "\n" + b;
    if a == "" {
      assert s[0] == '\n' && s[1..] == b;
    } else {
      SplitOnAppend(a[1..], b);
      TailAppend(a, "\n" + b);
      Assoc(a, "\n", b);
      Assoc(a[1..], "\n", b);
      assert s[0] == a[0] && s[1..] == a[1..] + "\n" + b;
      var p := SplitOn('\n', a[1..]);
      if a[0] == '\n' {
        Assoc([""], p, SplitOn('\n', b));
      } else {
        TailAppend(p, SplitOn('\n', b));
        Assoc([[a[0]] + p[0]], p[1..], SplitOn('\n', b));
      }
    }
  }

  /** Only the first line of a frame can be blank. */
  lemma {:induction false} FrameLines(f: string)
    requires IsFrame(f)
    ensures Solid(SplitOn('\n', f)[1..])
    ensures f != "" && f[0] != '\n' ==> Solid(SplitOn('\n', f))
  {
    if f != "" {
      var t := f[1..];
      var g := f + "\n\n";
      assert g[1..] == t + "\n\n" && g[0] == f[0];
      assert g[1] == if t == "" then '\n' else t[0];
      FrameLines(t);
      var p := SplitOn('\n', t);
      if f[0] == '\n' {
        assert ([""] + p)[1..] == p;
      } else {
        assert ([[f[0]] + p[0]] + p[1..])[1..] == p[1..];
        forall i | 0 <= i < |SplitOn('\n', f)| ensures SplitOn('\n', f)[i] != "" {
          if i > 0 { assert SplitOn('\n', f)[i] == p[1..][i - 1]; }
        }
      }
    }
  }

  lemma {:induction false} FramesAreInterpreted(frames: seq<string>, rest: string)
    requires Framed(frames)
    ensures Interpret(SplitOn('\n', Unframe(frames) + rest) + [""], [])
         == YieldFrames(frames) + Interpret(SplitOn('\n', rest) + [""], [])
  {
    hide IsFrame, SplitOn, Interpret;
    if |frames| == 0 {
      assert Unframe(frames) + rest == rest;
    } else {
      var f, more := frames[0], frames[1..];
      var w := Unframe(more) + rest;
      FramesAreInterpreted(more, rest);
      Assoc(f + "\n\n", Unframe(more), rest);
      BlankSplits(f, w);
      FrameLines(f);
      var a, b := SplitOn('\n', f), SplitOn('\n', w);
      Assoc(a, [""] + b, [""]);
      Assoc([""], b, [""]);
      InterpretFrame(a, b + [""]);
      Assoc(Yield(a), YieldFrames(more), Interpret(SplitOn('\n', rest) + [""], []));
    }
  }

  lemma BlankSplits(f: string, w: string)
    ensures SplitOn('\n', f + "\n\n" + w) == SplitOn('\n', f) + ([""] + SplitOn('\n', w))
  {
    SplitOnAppend(f, "\n" + w);
    SplitOnAppend("", w);
    assert "" + "\n" + w == "\n" + w;
    assert f + "\n" + ("\n" + w) == f + "\n\n" + w;
  }

  /** LF is the only line break that occurs. */
  predicate OnlyLf(s: string) {
    forall i :: 0 <= i < |s| && IsLineBreak(s[i]) ==> s[i] == '\n'
  }

  /** The first line of text in which LF is the only break. */
  lemma {:induction false} FirstLine(s: string)
    requires OnlyLf(s) && s != ""
    ensures var n := LineLength(s);
            if s[n - 1] == '\n' then SplitOn('\n', s) == [s[..n - 1]] + SplitOn('\n', s[n..])
            else n == |s| && SplitOn('\n', s) == [s] && !IsLineBreak(s[n - 1])
  {
    assert s[0] == '\n' || !IsLineBreak(s[0]);
    if s[0] == '\n' {
      assert s[..1] == "\n" && s[..0] == "";
    } else if |s| == 1 {
      assert s[1..] == "" && [s[0]] + "" == s;
    } else {
      var t := s[1..];
      FirstLine(t);
      var n, m := LineLength(s), LineLength(t);
      assert n == 1 + m && s[n - 1] == t[m - 1] && s[n..] == t[m..];
      if t[m - 1] == '\n' {
        assert s[..n - 1] == [s[0]] + t[..m - 1];
        assert ([t[..m - 1]] + SplitOn('\n', t[m..]))[1..] == SplitOn('\n', t[m..]);
      } else {
        HeadTail(s);
      }
    }
  }

  lemma ChompFirstLine(l: string)
    requires l != "" && (|l| >= 2 ==> l[|l| - 2] != '\r')
    ensures l[|l| - 1] == '\n' ==> Chomp(l) == l[..|l| - 1]
    ensures !IsLineBreak(l[|l| - 1]) ==> Chomp(l) == l
  {
    assert |l| >= 2 ==> l[|l| - 2..][0] == l[|l| - 2] && l[|l| - 2..][1] == l[|l| - 1];
  }

  /** With LF as the only break, splitlines() drops at most a blank last line of split("\n"). */
  lemma {:induction false} SplitLinesIsSplitOn(s: string)
    requires OnlyLf(s)
    ensures SplitLines(s) == SplitOn('\n', s) || SplitLines(s) + [""] == SplitOn('\n', s)
    decreases |s|
  {
    if s != "" {
      var n := LineLength(s);
      FirstLine(s);
      assert n >= 2 ==> s[n - 2] != '\r';
      ChompFirstLine(s[..n]);
      if s[n - 1] == '\n' {
        assert s[..n][..n - 1] == s[..n - 1];
        forall i | 0 <= i < |s[n..]| && IsLineBreak(s[n..][i]) ensures s[n..][i] == '\n' {
          assert s[n..][i] == s[n + i];
        }
        SplitLinesIsSplitOn(s[n..]);
        Assoc([s[..n - 1]], SplitLines(s[n..]), [""]);
      } else {
        assert s[..n] == s && SplitLines(s[n..]) == [];
      }
    }
  }

  lemma {:induction false} DataLinesAppend(a: seq<string>, b: seq<string>)
    ensures DataLines(a + b) == DataLines(a) + DataLines(b)
  {
    hide LStrip;
    if a == [] {
      assert a + b == b;
    } else {
      DataLinesAppend(a[1..], b);
      TailAppend(a, b);
      if StartsWith(a[0], DATA) {
        Assoc([LStrip(a[0][|DATA|..])], DataLines(a[1..]), DataLines(b));
      }
    }
  }

  lemma YieldSplitLines(s: string)
    requires OnlyLf(s)
    ensures Yield(SplitLines(s)) == Yield(SplitOn('\n', s))
  {
    hide SplitLines, SplitOn, Join;
    SplitLinesIsSplitOn(s);
    DataLinesAppend(SplitLines(s), [""]);
    assert DataLines([""]) == [];
    assert DataLines(SplitLines(s)) + [] == DataLines(SplitLines(s));
  }

  lemma {:induction false} SpaceHasNoData(s: string)
    requires AllSpace(s)
    ensures DataLines(SplitOn('\n', s)) == []
    ensures AllSpace(SplitOn('\n', s)[0])
  {
    if s != "" {
      var t, p := s[1..], SplitOn('\n', s[1..]);
      assert forall i :: 0 <= i < |t| ==> t[i] == s[i + 1];
      SpaceHasNoData(t);
      assert DataLines(p[1..]) == [];
      if s[0] == '\n' {
        assert ([""] + p)[1..] == p;
      } else {
        var l := [s[0]] + p[0];
        assert ([l] + p[1..])[1..] == p[1..];
        assert l[0] != DATA[0];
        assert |l| >= |DATA| ==> l[..|DATA|][0] == l[0];
      }
    }
  }

  /** Text without a blank line is a frame, or a frame and a line feed. */
  lemma {:induction false} UnblankedIsFrame(s: string)
    requires FirstBlank(s) == |s|
    ensures s == "" || s[|s| - 1] != '\n' ==> IsFrame(s)
    ensures s != "" && s[|s| - 1] == '\n' ==> IsFrame(s[..|s| - 1])
  {
    if |s| >= 2 {
      var t := s[1..];
      UnblankedIsFrame(t);
      var g := s + "\n\n";
      assert g[0] == s[0] && g[1] == s[1] && g[1..] == t + "\n\n";
      var u, v := s[..|s| - 1], t[..|t| - 1];
      var h := u + "\n\n";
      assert h[0] == s[0] && h[1] == (if |u| >= 2 then s[1] else '\n') && h[1..] == v + "\n\n";
    } else if |s| == 1 {
      assert s[..0] == "" && "" + "\n\n" == "\n\n";
      assert (s + "\n\n")[1..] == "\n\n";
    }
  }

  lemma FrameIsInterpreted(f: string)
    requires IsFrame(f)
    ensures Interpret(SplitOn('\n', f) + [""], []) == Yield(SplitOn('\n', f))
    ensures Interpret(SplitOn('\n', f + "\n") + [""], []) == Yield(SplitOn('\n', f + "\n"))
  {
    hide Interpret, SplitOn, IsFrame, Join, LStrip;
    var lines := SplitOn('\n', f);
    FrameLines(f);
    InterpretNothing();
    InterpretFrame(lines, []);
    assert [""] + [] == [""];
    InterpretFrame(lines, [""]);
    InterpretBlank([], []);
    JoinNothing();
    SplitOnAppend(f, "");
    SplitOnNothing();
    assert f + "\n" == f + "\n" + "";
    Assoc(lines, [""], [""]);
    DataLinesAppend(lines, [""]);
    assert DataLines([""]) == [];
    assert DataLines(lines) + [] == DataLines(lines);
  }

  lemma TailIsInterpreted(rest: string)
    requires FirstBlank(rest) == |rest| && OnlyLf(rest)
    ensures Interpret(SplitOn('\n', rest) + [""], []) == YieldTail(rest)
  {
    hide Interpret, SplitOn, SplitLines, IsFrame, Join, FirstBlank, LStrip;
    UnblankedIsFrame(rest);
    YieldSplitLines(rest);
    JoinNothing();
    if AllSpace(rest) {
      SpaceHasNoData(rest);
    }
    if rest == "" || rest[|rest| - 1] != '\n' {
      FrameIsInterpreted(rest);
    } else {
      InitLast(rest);
      FrameIsInterpreted(rest[..|rest| - 1]);
    }
  }

  lemma InterpretNothing()
    ensures Interpret([], []) == []
  {
  }

  lemma SplitOnNothing()
    ensures SplitOn('\n', "") == [""]
  {
  }

  /**
   What the reader yields is the line-by-line interpretation of the normalised
   text, with an implied blank line at the end of the upstream; provided the
   unfinished tail has no line break other than LF.
   */
  lemma PayloadsAreInterpreted(text: string)
    requires OnlyLf(CutFrames(Normalise(text)).rest)
    ensures Payloads(text) == Interpret(SplitOn('\n', Normalise(text)) + [""], [])
  {
    hide Interpret, SplitOn, YieldTail, YieldFrames, CutFrames, Normalise, Framed;
    var c := CutFrames(Normalise(text));
    CutFacts(Normalise(text));
    CutRestUnblanked(Normalise(text));
    FramesAreInterpreted(c.frames, c.rest);
    TailIsInterpreted(c.rest);
  }

  lemma {:induction false} CutRestUnblanked(s: string)
    ensures var r := CutFrames(s).rest; FirstBlank(r) == |r|
    decreases |s|
  {
    var i := FirstBlank(s);
    if i < |s| {
      CutRestUnblanked(s[i + 2..]);
    }
  }
}
