/**
 The env-file editor (sparkdeck/envfile_settings.py): parse_env_file, and the
 rewriting of lines in apply_env_updates for updates addressed by key.
 */
module EnvFile {
  import opened Wrappers
  import opened Seqs
  import opened PyText
  import opened EnvText
  import opened EnvLines

  const MAX_FILE_BYTES := 256 * 1024
  const MAX_ENTRIES := 512
  const MAX_VALUE_BYTES := 8 * 1024
  const MAX_UPDATES := 128

  // ----- parsing -----------------------------------------------------------

  datatype Entry = Entry(key: string, value: string, enabled: bool)

  /** An entry with its 1-based line number. */
  datatype LineEntry = LineEntry(entry: Entry, line: nat)

  function EntryOfBody(body: string): Option<Entry> {
    match MatchActive(body)
    case Some(m) => Some(Entry(m.key, SplitValue(m.rest).0, true))
    case None =>
      match MatchCommented(body)
      case Some(m) => Some(Entry(m.key, SplitValue(m.rest).0, false))
      case None => None
  }

  function EntryOf(line: string): Option<Entry> {
    EntryOfBody(Chomp(line))
  }

  /** The entries of kept lines, in order. */
  function Entries(ls: seq<string>): seq<Entry> {
    if |ls| == 0 then [] else AsSeq(EntryOf(ls[0])) + Entries(ls[1..])
  }

  function AsSeq(e: Option<Entry>): seq<Entry> {
    if e.Some? then [e.value] else []
  }

  function Numbered(ls: seq<string>): seq<LineEntry> {
    if |ls| == 0 then []
    else
      var n := |ls| - 1;
      Numbered(ls[..n]) + (match EntryOf(ls[n]) case Some(e) => [LineEntry(e, n + 1)] case None => [])
  }

  /** What a line is an entry of: an active assignment, else a commented one, else nothing; the value is the first part of the text behind the equals sign. */
  lemma EntryIff(line: string, e: Entry)
    ensures EntryOf(line) == Some(e) <==>
              exists m, gap :: EntryFits(e, m) &&
                if e.enabled then IsActiveLine(Chomp(line), m, gap)
                else !AnyActiveLine(Chomp(line)) && HasCommentedLine(Chomp(line), m, gap)
  {
    hide MatchActive, MatchCommented, SplitValue, Chomp, IsActiveLine, IsCommentedLine;
    var body := Chomp(line);
    NoActiveIff(body);
    if EntryOf(line) == Some(e) {
      if MatchActive(body).Some? {
        var m := MatchActive(body).value;
        ActiveIff(body, m);
        var gap :| IsActiveLine(body, m, gap);
        assert EntryFits(e, m);
      } else {
        var m := MatchCommented(body).value;
        CommentedIff(body, m);
        var blanks, gap :| IsCommentedLine(body, m, blanks, gap);
        assert EntryFits(e, m) && HasCommentedLine(body, m, gap);
      }
    }
    if m, gap :| EntryFits(e, m) && if e.enabled then IsActiveLine(body, m, gap) else !AnyActiveLine(body) && HasCommentedLine(body, m, gap) {
      if e.enabled {
        ActiveIff(body, m);
      } else {
        var blanks :| IsCommentedLine(body, m, blanks, gap);
        CommentedIff(body, m);
      }
    }
  }

  predicate EntryFits(e: Entry, m: Match) {
    e.key == m.key && e.value == SplitValue(m.rest).0
  }

  ghost predicate HasCommentedLine(body: string, m: Match, gap: string) {
    exists blanks :: IsCommentedLine(body, m, blanks, gap)
  }

  ghost predicate AnyActiveLine(body: string) {
    exists m, gap :: IsActiveLine(body, m, gap)
  }

  lemma NoActiveIff(body: string)
    ensures MatchActive(body).Some? <==> AnyActiveLine(body)
  {
    hide MatchActive, IsActiveLine;
    if MatchActive(body).Some? {
      ActiveIff(body, MatchActive(body).value);
    }
    if m, gap :| IsActiveLine(body, m, gap) {
      ActiveIff(body, m);
    }
  }

  /** The parsed entries are those of the lines, with 1-based numbers, in order. */
  lemma {:induction false} NumberedAre(ls: seq<string>, e: LineEntry)
    ensures e in Numbered(ls) <==> 1 <= e.line <= |ls| && EntryOf(ls[e.line - 1]) == Some(e.entry)
    ensures forall i, j :: 0 <= i < j < |Numbered(ls)| ==> Numbered(ls)[i].line < Numbered(ls)[j].line
    ensures forall i :: 0 <= i < |Numbered(ls)| ==> 1 <= Numbered(ls)[i].line <= |ls|
  {
    hide EntryOf;
    if |ls| > 0 {
      NumberedAre(ls[..|ls| - 1], e);
    }
  }

  /** The body of the loop in parse_env_file, for one line. */
  method ParseLine(text: string) returns (entry: Option<Entry>)
    ensures entry == EntryOf(text)
  {
    hide MatchActive, MatchCommented, SplitValue, Chomp;
    var line := Chomp(text);
    var enabled, m := true, MatchActive(line);
    if m.None? {
      enabled, m := false, MatchCommented(line);
    }
    if m.None? {
      return None;
    }
    var value, _ := SplitValueScan(m.value.rest);
    entry := Some(Entry(m.value.key, value, enabled));
  }

  /** parse_env_file */
  method ParseEnvFile(text: string) returns (entries: seq<LineEntry>)
    ensures entries == Numbered(SplitLinesKeep(text))
  {
    hide EntryOf, SplitLinesKeep;
    entries := [];
    var lines := SplitLinesKeep(text);
    for n := 0 to |lines|
      invariant entries == Numbered(lines[..n])
    {
      TakeSnoc(lines, n);
      var entry := ParseLine(lines[n]);
      if entry.Some? {
        entries := entries + [LineEntry(entry.value, n + 1)];
      }
    }
    assert lines[..|lines|] == lines;
  }

  // ----- which line an update addresses ---------------------------------------

  predicate HasKey(ls: seq<string>, i: nat, key: string) {
    i < |ls| && EntryOf(ls[i]).Some? && EntryOf(ls[i]).value.key == key
  }

  predicate IsActive(ls: seq<string>, i: nat) {
    i < |ls| && EntryOf(ls[i]).Some? && EntryOf(ls[i]).value.enabled
  }

  /** Line i is the last active assignment of its key, or its last commented one when none is active. */
  predicate Effective(ls: seq<string>, i: nat, key: string) {
    && HasKey(ls, i, key)
    && forall j: nat :: j < |ls| && j != i && HasKey(ls, j, key) ==>
         if IsActive(ls, i) then !IsActive(ls, j) || j < i else !IsActive(ls, j) && j < i
  }

  lemma EffectiveUnique(ls: seq<string>, i: nat, j: nat, key: string)
    requires Effective(ls, i, key) && Effective(ls, j, key)
    ensures i == j
  {
    hide EntryOf;
  }

  /** One step of the loop that builds by_key. */
  function Register(m: map<string, LineEntry>, e: LineEntry): map<string, LineEntry> {
    var key := e.entry.key;
    if key !in m || e.entry.enabled || !m[key].entry.enabled then m[key := e] else m
  }

  function RegisterAll(es: seq<LineEntry>): map<string, LineEntry> {
    if |es| == 0 then map[] else Register(RegisterAll(es[..|es| - 1]), es[|es| - 1])
  }

  /** The table's entry for a key is the key's effective line. */
  predicate IsTarget(e: LineEntry, ls: seq<string>, key: string) {
    1 <= e.line && EntryAt(ls, e.line - 1) == Some(e.entry) && Effective(ls, e.line - 1, key)
  }

  /** The table knows every key and maps it to its effective line. */
  predicate IsByKey(m: map<string, LineEntry>, ls: seq<string>) {
    && (forall key :: key in m ==> IsTarget(m[key], ls, key))
    && forall i: nat :: i < |ls| && EntryAt(ls, i).Some? ==> EntryAt(ls, i).value.key in m
  }

  function EntryAt(ls: seq<string>, i: nat): Option<Entry> {
    if i < |ls| then EntryOf(ls[i]) else None
  }

  lemma {:induction false} ByKeyIsEffective(ls: seq<string>)
    ensures IsByKey(RegisterAll(Numbered(ls)), ls)
  {
    hide EntryOf;
    if |ls| > 0 {
      var n := |ls| - 1;
      var init := ls[..n];
      ByKeyIsEffective(init);
      match EntryOf(ls[n]) {
        case None =>
          assert Numbered(ls) == Numbered(init) + [] == Numbered(init);
          ByKeyNext(RegisterAll(Numbered(init)), ls);
        case Some(e) =>
          var le := LineEntry(e, n + 1);
          assert Numbered(ls)[..|Numbered(ls)| - 1] == Numbered(init);
          ByKeyNext(RegisterAll(Numbered(init)), ls);
      }
    }
  }

  lemma ByKeyNext(m: map<string, LineEntry>, ls: seq<string>)
    requires |ls| > 0 && IsByKey(m, ls[..|ls| - 1])
    ensures var e := EntryOf(ls[|ls| - 1]);
            IsByKey(if e.Some? then Register(m, LineEntry(e.value, |ls|)) else m, ls)
  {
    hide EntryOf, IsTarget, HasKey;
    var n := |ls| - 1;
    var e := EntryOf(ls[n]);
    var after := if e.Some? then Register(m, LineEntry(e.value, n + 1)) else m;
    forall key | key in after ensures IsTarget(after[key], ls, key) {
      if e.Some? && key == e.value.key {
        LastHasKey(ls, key);
        ByKeyReplaces(m, ls, key);
      } else {
        LastLacksKey(ls, key);
        ByKeyKeeps(ls, m[key], key);
      }
    }
    forall i: nat | i < |ls| && EntryAt(ls, i).Some? ensures EntryAt(ls, i).value.key in after {
      if i < n {
        assert EntryAt(ls[..n], i) == EntryAt(ls, i);
      }
    }
  }

  lemma LastHasKey(ls: seq<string>, key: string)
    requires |ls| > 0 && EntryOf(ls[|ls| - 1]).Some? && EntryOf(ls[|ls| - 1]).value.key == key
    ensures HasKey(ls, |ls| - 1, key)
  {
    hide EntryOf;
  }

  lemma LastLacksKey(ls: seq<string>, key: string)
    requires |ls| > 0 && !(EntryOf(ls[|ls| - 1]).Some? && EntryOf(ls[|ls| - 1]).value.key == key)
    ensures !HasKey(ls, |ls| - 1, key)
  {
    hide EntryOf;
  }

  lemma ByKeyKeeps(ls: seq<string>, e: LineEntry, key: string)
    requires |ls| > 0 && IsTarget(e, ls[..|ls| - 1], key) && !HasKey(ls, |ls| - 1, key)
    ensures IsTarget(e, ls, key)
  {
    hide EntryOf;
    var init, i := ls[..|ls| - 1], e.line - 1;
    forall j: nat | j < |ls| && j != i && HasKey(ls, j, key)
      ensures if IsActive(ls, i) then !IsActive(ls, j) || j < i else !IsActive(ls, j) && j < i
    {
      assert HasKey(init, j, key);
    }
  }

  lemma ByKeyReplaces(m: map<string, LineEntry>, ls: seq<string>, key: string)
    requires |ls| > 0 && IsByKey(m, ls[..|ls| - 1]) && HasKey(ls, |ls| - 1, key)
    ensures IsTarget(Register(m, LineEntry(EntryOf(ls[|ls| - 1]).value, |ls|))[key], ls, key)
  {
    hide EntryOf;
    var n := |ls| - 1;
    var init := ls[..n];
    assert forall i: nat :: i < n ==> EntryAt(init, i) == EntryAt(ls, i);
    assert forall i: nat :: i < n ==> (HasKey(init, i, key) <==> HasKey(ls, i, key)) && (IsActive(init, i) <==> IsActive(ls, i));
    if key in m {
      assert IsTarget(m[key], init, key);
    } else {
      assert forall i: nat :: i < n ==> !HasKey(ls, i, key) by {
        forall i: nat | i < n ensures !HasKey(ls, i, key) {
          assert EntryAt(init, i).Some? ==> EntryAt(init, i).value.key in m;
        }
      }
    }
  }

  // ----- updates ---------------------------------------------------------------

  /** A normalized update: delete, or set the value (None keeps the text) and enable or comment out. */
  datatype Update = Delete | Set(value: Option<string>, enabled: bool)

  /** The items of the updates dictionary, in order. */
  type Updates = seq<(string, Update)>

  predicate DistinctKeys(ups: Updates) {
    forall i, j :: 0 <= i < j < |ups| ==> ups[i].0 != ups[j].0
  }

  function Lookup(ups: Updates, key: string): Option<Update> {
    if |ups| == 0 then None
    else if ups[|ups| - 1].0 == key then Some(ups[|ups| - 1].1)
    else Lookup(ups[..|ups| - 1], key)
  }

  lemma {:induction false} LookupMissing(ups: Updates, key: string)
    ensures Lookup(ups, key).None? <==> forall i :: 0 <= i < |ups| ==> ups[i].0 != key
  {
    if |ups| > 0 {
      LookupMissing(ups[..|ups| - 1], key);
      assert forall i :: 0 <= i < |ups| - 1 ==> ups[..|ups| - 1][i] == ups[i];
    }
  }

  function Utf8Size(s: string): nat {
    if s == "" then 0
    else
      var k := s[0] as int;
      (if k < 0x80 then 1 else if k < 0x800 then 2 else if k < 0x1_0000 then 3 else 4) + Utf8Size(s[1..])
  }

  predicate ValidValue(value: string) {
    '\r' !in value && '\n' !in value && '\0' !in value && Utf8Size(value) <= MAX_VALUE_BYTES
  }

  predicate ValidUpdate(up: (string, Update)) {
    IsKey(up.0) && (up.1.Set? && up.1.value.Some? ==> ValidValue(up.1.value.value))
  }

  predicate ValidUpdates(ups: Updates) {
    |ups| <= MAX_UPDATES && forall i :: 0 <= i < |ups| ==> ValidUpdate(ups[i])
  }

  // ----- rewriting ---------------------------------------------------------------

  /** line.rstrip("\r\n") */
  function StripEol(line: string): (r: string)
    ensures |r| <= |line|
  {
    if line != "" && (line[|line| - 1] == '\r' || line[|line| - 1] == '\n') then StripEol(line[..|line| - 1]) else line
  }

  function MatchOf(body: string): Option<Match> {
    if MatchActive(body).Some? then MatchActive(body) else MatchCommented(body)
  }

  /** The text behind the equals sign of a rewritten line. */
  function NewText(m: Match, value: Option<string>): string {
    var (kept, comment) := SplitValue(m.rest);
    (if value.Some? then ShellLiteral(value.value) else kept) + comment
  }

  /** An addressed line after its update. */
  function NewLine(line: string, up: Update): string {
    var body := StripEol(line);
    if up.Delete? || MatchOf(body).None? then ""
    else
      var m := MatchOf(body).value;
      Body(m, up.enabled, NewText(m, up.value)) + line[|body|..]
  }

  /** The update that addresses line i, if any. */
  function UpdateAt(ls: seq<string>, ups: Updates, i: nat): Option<Update> {
    match EntryAt(ls, i)
    case None => None
    case Some(e) => if Effective(ls, i, e.key) then Lookup(ups, e.key) else None
  }

  function EditLine(ls: seq<string>, ups: Updates, i: nat): string
    requires i < |ls|
  {
    var up := UpdateAt(ls, ups, i);
    if up.Some? then NewLine(ls[i], up.value) else ls[i]
  }

  function EditLines(ls: seq<string>, ups: Updates): (r: seq<string>)
    ensures |r| == |ls| && forall i :: 0 <= i < |ls| ==> r[i] == EditLine(ls, ups, i)
  {
    seq(|ls|, i requires 0 <= i < |ls| => EditLine(ls, ups, i))
  }

  predicate Knows(ls: seq<string>, key: string) {
    exists i: nat :: i < |ls| && HasKey(ls, i, key)
  }

  function AppendedLine(key: string, up: Update, eol: string): string
    requires up.Set?
  {
    Marker(up.enabled) + key + "=" + ShellLiteral(up.value.GetOr("")) + eol
  }

  /** The lines of the keys that the file does not know yet. */
  function Appended(ls: seq<string>, ups: Updates, eol: string): seq<string> {
    if |ups| == 0 then []
    else
      var (key, up) := ups[|ups| - 1];
      Appended(ls, ups[..|ups| - 1], eol)
      + (if up.Set? && !Knows(ls, key) then [AppendedLine(key, up, eol)] else [])
  }

  function CountCrLf(ls: seq<string>): nat {
    if |ls| == 0 then 0
    else CountCrLf(ls[..|ls| - 1]) + (var l := ls[|ls| - 1]; if |l| >= 2 && l[|l| - 2..] == "\r\n" then 1 else 0)
  }

  function DominantEol(ls: seq<string>): (eol: string)
    ensures IsEol(eol)
  {
    if CountCrLf(ls) * 2 > |ls| then "\r\n" else "\n"
  }

  /** An unterminated last line gets a terminator before lines are appended. */
  function CloseLast(ls: seq<string>, eol: string): seq<string> {
    if ls == [] then ls
    else
      var last := ls[|ls| - 1];
      if last != "" && (last[|last| - 1] == '\n' || last[|last| - 1] == '\r') then ls
      else ls[|ls| - 1 := last + eol]
  }

  function FinalLines(ls: seq<string>, ups: Updates): seq<string> {
    var edited, eol := EditLines(ls, ups), DominantEol(ls);
    var appended := Appended(ls, ups, eol);
    if appended == [] then edited else CloseLast(edited, eol) + appended
  }

  datatype EditError = InvalidUpdates | FileTooLarge | TooManyEntries | NoSuchVariable

  predicate DeletesUnknown(ls: seq<string>, ups: Updates) {
    exists i :: 0 <= i < |ups| && ups[i].1.Delete? && !Knows(ls, ups[i].0)
  }

  /** apply_env_updates, from text to rendered text. */
  function Apply(text: string, ups: Updates): Result<string, EditError> {
    var ls := SplitLinesKeep(text);
    if !ValidUpdates(ups) then Failure(InvalidUpdates)
    else if Utf8Size(text) > MAX_FILE_BYTES then Failure(FileTooLarge)
    else if |Numbered(ls)| > MAX_ENTRIES then Failure(TooManyEntries)
    else if DeletesUnknown(ls, ups) then Failure(NoSuchVariable)
    else
      var rendered := Concat(FinalLines(ls, ups));
      if Utf8Size(rendered) > MAX_FILE_BYTES then Failure(FileTooLarge)
      else if |Numbered(SplitLinesKeep(rendered))| > MAX_ENTRIES then Failure(TooManyEntries)
      else Success(rendered)
  }

  // ----- the editor itself -----------------------------------------------------------

  method BuildByKey(entries: seq<LineEntry>) returns (byKey: map<string, LineEntry>)
    ensures byKey == RegisterAll(entries)
  {
    byKey := map[];
    for i := 0 to |entries|
      invariant byKey == RegisterAll(entries[..i])
    {
      TakeSnoc(entries, i);
      var e := entries[i];
      if e.entry.key !in byKey || e.entry.enabled || !byKey[e.entry.key].entry.enabled {
        byKey := byKey[e.entry.key := e];
      }
    }
    assert entries[..|entries|] == entries;
  }

  lemma KnownIffInTable(m: map<string, LineEntry>, ls: seq<string>, key: string)
    requires IsByKey(m, ls)
    ensures Knows(ls, key) <==> key in m
    ensures key in m ==> 1 <= m[key].line <= |ls| && Effective(ls, m[key].line - 1, key)
  {
    hide EntryOf;
    if Knows(ls, key) {
      var i: nat :| i < |ls| && HasKey(ls, i, key);
      assert EntryAt(ls, i).Some?;
    }
    if key in m {
      assert IsTarget(m[key], ls, key);
      assert HasKey(ls, m[key].line - 1, key);
    }
  }

  lemma EditOneMore(ls: seq<string>, ups: Updates, k: nat, i: nat)
    requires k < |ups| && DistinctKeys(ups) && i < |ls| && Effective(ls, i, ups[k].0)
    ensures EditLine(ls, ups[..k], i) == ls[i]
    ensures EditLines(ls, ups[..k + 1]) == EditLines(ls, ups[..k])[i := NewLine(ls[i], ups[k].1)]
  {
    hide EntryOf, NewLine, Effective;
    TakeSnoc(ups, k);
    EffectiveHasKey(ls, i, ups[k].0);
    LookupMissing(ups[..k], ups[k].0);
    var a, b := EditLines(ls, ups[..k + 1]), EditLines(ls, ups[..k])[i := NewLine(ls[i], ups[k].1)];
    forall j | 0 <= j < |ls| ensures a[j] == b[j] {
      if j != i && EntryAt(ls, j).Some? && EntryAt(ls, j).value.key == ups[k].0 && Effective(ls, j, ups[k].0) {
        EffectiveUnique(ls, i, j, ups[k].0);
      }
    }
  }

  lemma EffectiveHasKey(ls: seq<string>, i: nat, key: string)
    requires Effective(ls, i, key)
    ensures EntryAt(ls, i).Some? && EntryAt(ls, i).value.key == key
  {
    hide EntryOf;
  }

  lemma EditUnknown(ls: seq<string>, ups: Updates, k: nat)
    requires k < |ups| && !Knows(ls, ups[k].0)
    ensures EditLines(ls, ups[..k + 1]) == EditLines(ls, ups[..k])
  {
    hide EntryOf, NewLine, Effective;
    TakeSnoc(ups, k);
    forall j | 0 <= j < |ls| ensures EditLine(ls, ups[..k + 1], j) == EditLine(ls, ups[..k], j) {
      assert !HasKey(ls, j, ups[k].0);
    }
  }

  /** The loop over the normalized updates, each addressed to its key's effective line. */
  method RewriteLines(ls: seq<string>, byKey: map<string, LineEntry>, ups: Updates, eol: string)
    returns (ok: bool, lines: seq<string>, appended: seq<string>)
    requires IsByKey(byKey, ls) && DistinctKeys(ups)
    ensures ok <==> !DeletesUnknown(ls, ups)
    ensures ok ==> lines == EditLines(ls, ups) && appended == Appended(ls, ups, eol)
  {
    hide EntryOf, NewLine, Effective, IsByKey, EditLine, AppendedLine, Knows;
    lines, appended := ls, [];
    assert lines == EditLines(ls, ups[..0]) by { EditNothing(ls); }
    for k := 0 to |ups|
      invariant lines == EditLines(ls, ups[..k]) && appended == Appended(ls, ups[..k], eol)
      invariant forall i :: 0 <= i < k ==> !(ups[i].1.Delete? && !Knows(ls, ups[i].0))
    {
      var (key, up) := ups[k];
      TakeSnoc(ups, k);
      KnownIffInTable(byKey, ls, key);
      if up.Delete? && key !in byKey {
        return false, [], [];
      }
      if key in byKey {
        var index := byKey[key].line - 1;
        EditOneMore(ls, ups, k, index);
        lines := lines[index := NewLine(lines[index], up)];
      } else {
        EditUnknown(ls, ups, k);
        appended := appended + [AppendedLine(key, up, eol)];
      }
    }
    assert ups[..|ups|] == ups;
    ok := true;
  }

  lemma EditNothing(ls: seq<string>)
    ensures EditLines(ls, []) == ls
  {
    hide EntryOf, NewLine, Effective;
  }

  method ApplyEnvUpdates(text: string, ups: Updates) returns (r: Result<string, EditError>)
    requires DistinctKeys(ups)
    ensures r == Apply(text, ups)
  {
    hide SplitLinesKeep, ValidUpdate, Utf8Size, Numbered, EditLines, Appended, IsByKey, Concat, CountCrLf;
    if !ValidUpdates(ups) {
      return Failure(InvalidUpdates);
    }
    if Utf8Size(text) > MAX_FILE_BYTES {
      return Failure(FileTooLarge);
    }
    var entries := ParseEnvFile(text);
    if |entries| > MAX_ENTRIES {
      return Failure(TooManyEntries);
    }
    var lines := SplitLinesKeep(text);
    ghost var ls := lines;
    var eol := DominantEol(lines);
    var byKey := BuildByKey(entries);
    ByKeyIsEffective(ls);
    var ok, appended;
    ok, lines, appended := RewriteLines(lines, byKey, ups, eol);
    if !ok {
      return Failure(NoSuchVariable);
    }
    if appended != [] {
      lines := CloseLast(lines, eol) + appended;
    }
    var rendered := Concat(lines);
    if Utf8Size(rendered) > MAX_FILE_BYTES {
      return Failure(FileTooLarge);
    }
    var after := ParseEnvFile(rendered);
    if |after| > MAX_ENTRIES {
      return Failure(TooManyEntries);
    }
    return Success(rendered);
  }
}
