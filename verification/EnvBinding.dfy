/**
 What an edit means for a shell that sources the file, in which the last active
 assignment of a variable wins; and what it leaves alone.
 */
module EnvBinding {
  import opened Wrappers
  import opened Seqs
  import opened PyText
  import opened EnvText
  import opened EnvLines
  import opened EnvFile
  import opened EnvCommutes

  // ----- last-wins bindings --------------------------------------------------

  /** The value that one possible entry gives a variable. */
  function Gives(e: Option<Entry>, key: string): Option<string> {
    if e.Some? && e.value.key == key && e.value.enabled then Some(e.value.value) else None
  }

  /** The value of a variable after all entries: the last active one's. */
  function Binding(es: seq<Entry>, key: string): Option<string> {
    if |es| == 0 then None else Later(Gives(Some(es[0]), key), Binding(es[1..], key))
  }

  function Later(first: Option<string>, second: Option<string>): Option<string> {
    if second.Some? then second else first
  }

  lemma {:induction false} BindingAppend(a: seq<Entry>, b: seq<Entry>, key: string)
    ensures Binding(a + b, key) == Later(Binding(a, key), Binding(b, key))
  {
    hide Gives;
    if |a| == 0 {
      assert a + b == b;
    } else {
      BindingAppend(a[1..], b, key);
      TailAppend(a, b);
    }
  }

  lemma BindingOne(e: Option<Entry>, rest: seq<Entry>, key: string)
    ensures Binding(AsSeq(e) + rest, key) == Later(Gives(e, key), Binding(rest, key))
  {
    if e.Some? {
      assert ([e.value] + rest)[1..] == rest;
    } else {
      assert [] + rest == rest;
    }
  }

  // ----- the addressed line ----------------------------------------------------

  /** What an addressed entry gives its variable after the update. */
  function GivesAfter(e: Entry, up: Update): Option<string> {
    match up
    case Delete => None
    case Set(value, enabled) =>
      if !enabled then None else if value.Some? then Some(ShellLiteral(value.value)) else Some(e.value)
  }

  lemma GivesAt(ls: seq<string>, ups: Updates, i: nat, key: string)
    requires i < |ls|
    ensures Gives(ExpectedAt(ls, ups, i), key)
         == if Lookup(ups, key).Some? && Effective(ls, i, key)
            then GivesAfter(EntryOf(ls[i]).value, Lookup(ups, key).value)
            else Gives(EntryOf(ls[i]), key)
  {
    hide EntryOf, ShellLiteral, Lookup;
  }

  /** Behind its effective line no other line gives a variable a value. */
  lemma NothingBehind(ls: seq<string>, t: nat, i: nat, key: string)
    requires Effective(ls, t, key) && i < |ls| && i != t && (t < i || !IsActive(ls, t))
    ensures Gives(EntryOf(ls[i]), key) == None
  {
    hide EntryOf;
    assert HasKey(ls, i, key) ==> !IsActive(ls, i);
  }

  /** An active line of a variable other than its effective one. */
  predicate OtherActive(ls: seq<string>, i: nat, key: string) {
    HasKey(ls, i, key) && IsActive(ls, i) && !Effective(ls, i, key)
  }

  lemma {:induction false} AddressedBinding(ls: seq<string>, ups: Updates, i: nat, t: nat, key: string)
    requires i <= |ls| && t < |ls| && Lookup(ups, key).Some? && Effective(ls, t, key)
    ensures var after := GivesAfter(EntryOf(ls[t]).value, Lookup(ups, key).value);
            && (i <= t && after.Some? ==> Binding(ExpectedFrom(ls, ups, i), key) == after)
            && (i > t ==> Binding(ExpectedFrom(ls, ups, i), key) == None)
            && (after.None? ==> (Binding(ExpectedFrom(ls, ups, i), key).Some?
                                 <==> exists j: nat :: i <= j < |ls| && OtherActive(ls, j, key)))
    decreases |ls| - i
  {
    hide EntryOf, ExpectedAt, Gives, GivesAfter, Lookup, Effective, OtherActive;
    if i < |ls| {
      AddressedBinding(ls, ups, i + 1, t, key);
      BindingOne(ExpectedAt(ls, ups, i), ExpectedFrom(ls, ups, i + 1), key);
      GivesAt(ls, ups, i, key);
      AddressedOrOther(ls, t, i, key);
      assert (exists j: nat :: i <= j < |ls| && OtherActive(ls, j, key))
        <==> OtherActive(ls, i, key) || exists j: nat :: i + 1 <= j < |ls| && OtherActive(ls, j, key);
    }
  }

  lemma AddressedOrOther(ls: seq<string>, t: nat, i: nat, key: string)
    requires Effective(ls, t, key) && i < |ls|
    ensures Effective(ls, i, key) <==> i == t
    ensures i != t ==> (Gives(EntryOf(ls[i]), key).Some? <==> OtherActive(ls, i, key))
    ensures i == t ==> !OtherActive(ls, i, key)
    ensures t < i ==> Gives(EntryOf(ls[i]), key).None?
  {
    hide EntryOf, Effective;
    if Effective(ls, i, key) {
      EffectiveUnique(ls, i, t, key);
    }
    if t < i {
      NothingBehind(ls, t, i, key);
    }
  }

  lemma {:induction false} UnaddressedBinding(ls: seq<string>, ups: Updates, i: nat, key: string)
    requires i <= |ls| && (Lookup(ups, key).None? || !Knows(ls, key))
    ensures Binding(ExpectedFrom(ls, ups, i), key) == Binding(Entries(ls[i..]), key)
    ensures !Knows(ls, key) ==> Binding(Entries(ls[i..]), key) == None
    decreases |ls| - i
  {
    hide EntryOf, ExpectedAt, Gives, Lookup, HasKey;
    if i < |ls| {
      UnaddressedBinding(ls, ups, i + 1, key);
      BindingOne(ExpectedAt(ls, ups, i), ExpectedFrom(ls, ups, i + 1), key);
      assert ls[i..][0] == ls[i] && ls[i..][1..] == ls[i + 1..];
      BindingOne(EntryOf(ls[i]), Entries(ls[i + 1..]), key);
      GivesAt(ls, ups, i, key);
      UnknownHasNoLine(ls, i, key);
    }
  }

  lemma UnknownHasNoLine(ls: seq<string>, i: nat, key: string)
    requires i < |ls|
    ensures !Knows(ls, key) ==> Gives(EntryOf(ls[i]), key) == None && !Effective(ls, i, key)
  {
    hide EntryOf;
    assert !Knows(ls, key) ==> !HasKey(ls, i, key);
  }

  // ----- appended lines -----------------------------------------------------------

  lemma {:induction false} AppendedBinding(ls: seq<string>, ups: Updates, key: string)
    requires DistinctKeys(ups)
    ensures Binding(ExpectedNew(ls, ups), key)
         == if Knows(ls, key) || Lookup(ups, key).None? || !Lookup(ups, key).value.Set? || !Lookup(ups, key).value.enabled
            then None
            else Some(ShellLiteral(Lookup(ups, key).value.value.GetOr("")))
  {
    hide Knows, ShellLiteral;
    if |ups| > 0 {
      var init := ups[..|ups| - 1];
      var (k, up) := ups[|ups| - 1];
      assert forall i :: 0 <= i < |init| ==> init[i] == ups[i];
      AppendedBinding(ls, init, key);
      LookupMissing(init, key);
      var e := if up.Set? && !Knows(ls, k) then Some(Entry(k, ShellLiteral(up.value.GetOr("")), up.enabled)) else None;
      assert ExpectedNew(ls, ups) == ExpectedNew(ls, init) + AsSeq(e);
      BindingAppend(ExpectedNew(ls, init), AsSeq(e), key);
      BindingOne(e, [], key);
      assert AsSeq(e) + [] == AsSeq(e);
    }
  }

  // ----- the whole file ------------------------------------------------------------

  /** The variable's binding in the edited file, from the update that addresses it. */
  ghost predicate IsRequested(ls: seq<string>, up: Option<Update>, key: string, after: Option<string>) {
    match up
    case None => after == Binding(Entries(ls), key)
    case Some(up) =>
      if up.Set? && up.enabled && up.value.Some? then
        after == Some(ShellLiteral(up.value.value))
      else if up.Set? && up.enabled then
        if Knows(ls, key) then exists t: nat :: t < |ls| && Effective(ls, t, key) && after == Some(EntryOf(ls[t]).value.value)
        else after == Some("")
      else
        after.Some? <==> exists j: nat :: j < |ls| && OtherActive(ls, j, key)
  }

  lemma ExpectedBinding(ls: seq<string>, ups: Updates, key: string)
    requires DistinctKeys(ups)
    ensures IsRequested(ls, Lookup(ups, key), key, Binding(Expected(ls, ups), key))
  {
    hide EntryOf, Effective, ExpectedFrom, ExpectedNew, Entries, Lookup, Binding, OtherActive, HasKey;
    BindingAppend(ExpectedFrom(ls, ups, 0), ExpectedNew(ls, ups), key);
    AppendedBinding(ls, ups, key);
    assert ls[0..] == ls;
    if Lookup(ups, key).Some? && Knows(ls, key) {
      var t := EffectiveLine(ls, key);
      AddressedBinding(ls, ups, 0, t, key);
    } else {
      UnaddressedBinding(ls, ups, 0, key);
      NoOtherActive(ls, key);
    }
  }

  lemma NoOtherActive(ls: seq<string>, key: string)
    ensures !Knows(ls, key) ==> !exists j: nat :: j < |ls| && OtherActive(ls, j, key)
  {
    hide EntryOf;
  }

  lemma EffectiveLine(ls: seq<string>, key: string) returns (t: nat)
    requires Knows(ls, key)
    ensures t < |ls| && Effective(ls, t, key)
  {
    hide *;
    var m := RegisterAll(Numbered(ls));
    ByKeyIsEffective(ls);
    KnownIffInTable(m, ls, key);
    t := m[key].line - 1;
  }

  /**
   After an edit whose values survive, a shell that sources the file finds every
   variable as requested: a submitted value, the kept value of an enabled entry,
   nothing for a deleted or disabled one unless another line still assigns it, and
   the old value for a variable that no update names.
   */
  lemma RequestedBindings(text: string, ups: Updates, key: string)
    requires PlainBreaks(text) && BreakFree(ups) && DistinctKeys(ups) && Apply(text, ups).Success?
    requires AllSurvive(SplitLinesKeep(text), ups)
    ensures IsRequested(SplitLinesKeep(text), Lookup(ups, key), key, Binding(ParsedEntries(Apply(text, ups).value), key))
  {
    hide *;
    EditCommutesIff(text, ups);
    ExpectedBinding(SplitLinesKeep(text), ups, key);
  }

  /** A line that no update addresses stays as it is, but for a terminator that a last line may get. */
  lemma UntargetedLines(ls: seq<string>, ups: Updates, i: nat)
    requires i < |ls| && UpdateAt(ls, ups, i).None?
    ensures i < |FinalLines(ls, ups)|
    ensures FinalLines(ls, ups)[i] == ls[i]
         || (i == |ls| - 1 && Appended(ls, ups, DominantEol(ls)) != []
             && (ls[i] == "" || (ls[i][|ls[i]| - 1] != '\n' && ls[i][|ls[i]| - 1] != '\r'))
             && FinalLines(ls, ups)[i] == ls[i] + DominantEol(ls))
  {
    hide UpdateAt, DominantEol, Appended, NewLine;
    assert EditLine(ls, ups, i) == ls[i];
  }

  // ----- values with other line breaks ---------------------------------------------

  lemma {:induction false} FirstLineBody(s: string)
    requires s != ""
    ensures NoBreak(Chomp(s[..LineLength(s)]))
  {
    hide IsLineBreak, Chomp, NoBreak;
    var n := LineLength(s);
    if s[0] == '\r' && |s| >= 2 && s[1] == '\n' {
      assert s[..2] == "\r\n";
      ChompCrLf();
    } else if IsLineBreak(s[0]) || |s| == 1 {
      assert s[..1] == [s[0]];
      ChompOne(s[0]);
    } else {
      FirstLineBody(s[1..]);
      var l := s[1..][..n - 1];
      assert s[..n] == [s[0]] + l;
      ChompCons(s[0], l);
      NoBreakCons(s[0], Chomp(l));
    }
  }

  lemma ChompCrLf()
    ensures NoBreak(Chomp("\r\n"))
  {
    var l := "\r\n";
    assert l[|l| - 2..] == "\r\n" && l[..|l| - 2] == "";
  }

  lemma ChompOne(c: char)
    ensures NoBreak(Chomp([c]))
  {
  }

  lemma NoBreakCons(c: char, s: string)
    requires !IsLineBreak(c) && NoBreak(s)
    ensures NoBreak([c] + s)
  {
  }

  lemma ChompCons(c: char, l: string)
    requires !IsLineBreak(c) && l != ""
    ensures Chomp([c] + l) == [c] + Chomp(l)
  {
    var s := [c] + l;
    if |l| >= 2 {
      SplitBehind([c], l, |l| - 2);
      SplitBehind([c], l, |Chomp(l)|);
    } else {
      ChompPair(c, l[0]);
      assert l == [l[0]];
    }
  }

  lemma ChompPair(c: char, d: char)
    requires !IsLineBreak(c)
    ensures Chomp([c] + [d]) == [c] + Chomp([d])
  {
    var s := [c] + [d];
    assert s[|s| - 2..][0] == c;
    assert s[..|s| - 1] == [c];
    assert [d][..0] == [];
  }

  predicate NoBreakValues(es: seq<Entry>) {
    forall i :: 0 <= i < |es| ==> NoBreak(es[i].value)
  }

  lemma EntryNoBreak(body: string)
    requires NoBreak(body) && EntryOfBody(body).Some?
    ensures NoBreak(EntryOfBody(body).value.value)
  {
    hide MatchActive, MatchCommented, SplitValue, NoBreak;
    MatchNoBreak(body);
    SplitValueNoBreak(MatchOf(body).value.rest);
  }

  /** No value that is ever parsed has a line break, of any kind, in it. */
  lemma {:induction false} ParsedValuesNoBreak(s: string)
    ensures NoBreakValues(Entries(SplitLinesKeep(s)))
  {
    hide EntryOfBody, NoBreak, Chomp, LineLength;
    if s != "" {
      var n := LineLength(s);
      ParsedValuesNoBreak(s[n..]);
      FirstLineBody(s);
      var ls := SplitLinesKeep(s);
      assert ls[0] == s[..n] && ls[1..] == SplitLinesKeep(s[n..]);
      if EntryOf(ls[0]).Some? {
        EntryNoBreak(Chomp(ls[0]));
      }
    }
  }

  lemma {:induction false} EscapeKeepsBreak(s: string)
    requires !NoBreak(s)
    ensures !NoBreak(EscapeQuotes(s))
  {
    var head := if s[0] == '\'' then "'\\''" else [s[0]];
    if IsLineBreak(s[0]) {
      assert EscapeQuotes(s)[0] == s[0];
    } else {
      assert !NoBreak(s[1..]) by {
        if NoBreak(s[1..]) {
          NoBreakCons(s[0], s[1..]);
          HeadTail(s);
        }
      }
      EscapeKeepsBreak(s[1..]);
      BreakBehind(head, EscapeQuotes(s[1..]));
    }
  }

  lemma BreakBehind(a: string, b: string)
    requires !NoBreak(b)
    ensures !NoBreak(a + b)
  {
    if NoBreak(a + b) {
      NoBreakParts(a, b);
    }
  }

  lemma LiteralKeepsBreak(value: string)
    requires !NoBreak(value)
    ensures !NoBreak(ShellLiteral(value))
  {
    hide EscapeQuotes, NoBreak;
    if !IsSafe(value) {
      EmptyNoBreak();
      EscapeKeepsBreak(value);
      BreakBehind("'", EscapeQuotes(value));
      BreakBefore("'" + EscapeQuotes(value), "'");
    }
  }

  lemma BreakBefore(a: string, b: string)
    requires !NoBreak(a)
    ensures !NoBreak(a + b)
  {
    if NoBreak(a + b) {
      NoBreakParts(a, b);
    }
  }

  lemma NoBreakValuesParts(a: seq<Entry>, b: seq<Entry>)
    requires NoBreakValues(a + b)
    ensures NoBreakValues(a) && NoBreakValues(b)
  {
    hide NoBreak;
    assert forall i :: 0 <= i < |a| ==> a[i] == (a + b)[i];
    assert forall i :: 0 <= i < |b| ==> b[i] == (a + b)[|a| + i];
  }

  lemma {:induction false} ExpectedHasEntry(ls: seq<string>, ups: Updates, i: nat, t: nat)
    requires i <= t < |ls| && NoBreakValues(ExpectedFrom(ls, ups, i))
    ensures ExpectedAt(ls, ups, t).Some? ==> NoBreak(ExpectedAt(ls, ups, t).value.value)
    decreases t - i
  {
    hide ExpectedAt, NoBreak;
    NoBreakValuesParts(AsSeq(ExpectedAt(ls, ups, i)), ExpectedFrom(ls, ups, i + 1));
    if i < t {
      ExpectedHasEntry(ls, ups, i + 1, t);
    } else if ExpectedAt(ls, ups, t).Some? {
      assert AsSeq(ExpectedAt(ls, ups, t))[0] == ExpectedAt(ls, ups, t).value;
    }
  }

  lemma {:induction false} AppendedHasEntry(ls: seq<string>, ups: Updates, k: nat)
    requires k < |ups| && ups[k].1.Set? && !Knows(ls, ups[k].0) && NoBreakValues(ExpectedNew(ls, ups))
    ensures NoBreak(ShellLiteral(ups[k].1.value.GetOr("")))
  {
    hide Knows, NoBreak, ShellLiteral;
    var init := ups[..|ups| - 1];
    var (key, up) := ups[|ups| - 1];
    var last := if up.Set? && !Knows(ls, key) then [Entry(key, ShellLiteral(up.value.GetOr("")), up.enabled)] else [];
    NoBreakValuesParts(ExpectedNew(ls, init), last);
    if k < |ups| - 1 {
      AppendedHasEntry(ls, init, k);
    } else {
      assert last[0].value == ShellLiteral(up.value.GetOr(""));
    }
  }

  lemma LookupAt(ups: Updates, k: nat)
    requires DistinctKeys(ups) && k < |ups|
    ensures Lookup(ups, ups[k].0) == Some(ups[k].1)
    decreases |ups|
  {
    if k < |ups| - 1 {
      var init := ups[..|ups| - 1];
      assert forall i :: 0 <= i < |init| ==> init[i] == ups[i];
      LookupAt(init, k);
    }
  }

  /** A submitted value with a line break cannot be expected of any parse. */
  lemma BreakIsExpected(ls: seq<string>, ups: Updates, k: nat)
    requires DistinctKeys(ups) && k < |ups| && ups[k].1.Set? && ups[k].1.value.Some? && !NoBreak(ups[k].1.value.value)
    ensures !NoBreakValues(Expected(ls, ups))
  {
    hide Knows, NoBreak, ShellLiteral, ExpectedFrom, ExpectedNew, NoBreakValues, Lookup, Effective, EntryOf;
    var (key, up) := ups[k];
    LiteralKeepsBreak(up.value.value);
    if NoBreakValues(Expected(ls, ups)) {
      NoBreakValuesParts(ExpectedFrom(ls, ups, 0), ExpectedNew(ls, ups));
      LookupAt(ups, k);
      if Knows(ls, key) {
        var t := EffectiveLine(ls, key);
        EffectiveHasKey(ls, t, key);
        ExpectedHasEntry(ls, ups, 0, t);
      } else {
        AppendedHasEntry(ls, ups, k);
      }
    }
  }

  /**
   The exact condition under which an accepted edit commutes with parsing: no
   submitted value has a line break that the validation lets through (only CR, LF
   and NUL are refused, but splitlines() breaks at ten characters), and every
   submitted value survives in its line.
   */
  lemma EditCommutesExactly(text: string, ups: Updates)
    requires PlainBreaks(text) && DistinctKeys(ups) && Apply(text, ups).Success?
    ensures ParsedEntries(Apply(text, ups).value) == Expected(SplitLinesKeep(text), ups)
       <==> BreakFree(ups) && AllSurvive(SplitLinesKeep(text), ups)
  {
    hide Expected, SplitLinesKeep, AllSurvive, Apply, NoBreakValues, PlainBreaks, Entries, NoBreak, DistinctKeys;
    if BreakFree(ups) {
      EditCommutesIff(text, ups);
    } else {
      var k :| 0 <= k < |ups| && ups[k].1.Set? && ups[k].1.value.Some? && !NoBreak(ups[k].1.value.value);
      BreakIsExpected(SplitLinesKeep(text), ups, k);
      ParsedValuesNoBreak(Apply(text, ups).value);
    }
  }

  lemma {:induction false} SizeBound(s: string)
    ensures Utf8Size(s) <= 4 * |s|
  {
    if s != "" {
      SizeBound(s[1..]);
    }
  }

  lemma {:induction false} LineBound(s: string)
    ensures |SplitLinesKeep(s)| <= |s|
  {
    hide LineLength;
    if s != "" {
      LineBound(s[LineLength(s)..]);
    }
  }

  lemma {:induction false} EntryBound(ls: seq<string>)
    ensures |Numbered(ls)| <= |ls|
  {
    hide EntryOf;
    if |ls| > 0 {
      EntryBound(ls[..|ls| - 1]);
    }
  }

  /** An accepted edit that does not commute: a new variable with a single quote as its value. */
  lemma QuoteDoesNotCommute()
    ensures var ups := [("A", Set(Some("'"), true))];
            Apply("", ups).Success? && ParsedEntries(Apply("", ups).value) != Expected(SplitLinesKeep(""), ups)
  {
    hide *;
    var ups := [("A", Set(Some("'"), true))];
    PlainNothing();
    OneUpdate("A", Set(Some("'"), true));
    NewQuoteIsAccepted();
    NewQuoteIsLost("A");
    EditCommutesExactly("", ups);
  }

  lemma OneUpdate(key: string, up: Update)
    ensures DistinctKeys([(key, up)])
  {
  }

  lemma NewQuoteIsAccepted()
    ensures Apply("", [("A", Set(Some("'"), true))]).Success?
  {
    hide SplitLinesKeep, Numbered, FinalLines, Utf8Size, ValidUpdates, AppendedLine, Concat, Knows;
    var ups := [("A", Set(Some("'"), true))];
    PlainNothing();
    NewFileLines(ups[0].0, ups[0].1);
    var rendered := Concat(FinalLines([], ups));
    QuoteIsShort();
    QuoteIsValid();
    SizeBound("");
    SizeBound(rendered);
    EntryBound(SplitLinesKeep(rendered));
    LineBound(rendered);
    EntryBound([]);
  }

  lemma QuoteIsShort()
    ensures |AppendedLine("A", Set(Some("'"), true), "\n")| <= 20
  {
    var value := "'";
    assert value[1..] == "" && EscapeQuotes("") == "";
    assert value[0] == '\'' && !IsSafeChar(value[0]);
    assert EscapeQuotes(value) == "'\\''" + "";
  }

  lemma QuoteIsValid()
    ensures ValidUpdates([("A", Set(Some("'"), true))])
  {
    hide Utf8Size;
    SizeBound("'");
    assert "A"[0] == 'A';
  }

  lemma PlainNothing()
    ensures PlainBreaks("") && SplitLinesKeep("") == []
  {
  }

  lemma NewFileLines(key: string, up: Update)
    requires up.Set?
    ensures |Concat(FinalLines([], [(key, up)]))| == |AppendedLine(key, up, "\n")|
  {
    var ups := [(key, up)];
    assert ups[..0] == [];
    assert Appended([], ups, "\n") == [] + [AppendedLine(key, up, "\n")] == [AppendedLine(key, up, "\n")];
    assert EditLines([], ups) == [];
    assert FinalLines([], ups) == [] + [AppendedLine(key, up, "\n")] == [AppendedLine(key, up, "\n")];
    assert [AppendedLine(key, up, "\n")][1..] == [];
  }

  lemma NewQuoteIsLost(key: string)
    ensures !AllSurvive([], [(key, Set(Some("'"), true))])
  {
    var ups := [(key, Set(Some("'"), true))];
    assert "'"[0] == '\'' && !IsSafeChar('\'');
    assert !Survives("'", "");
    assert !Knows([], key);
  }
}
