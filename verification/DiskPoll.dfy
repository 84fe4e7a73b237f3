/**
 Polling a background scan (disk_manager.py, DiskScanJobs): the scan thread appends
 changes under the lock, and polls read windows of them, coalesced by path, behind a
 cursor.
 */
module DiskPoll {
  import opened Wrappers
  import opened Seqs
  import opened DiskScan
  import opened DiskTree
  import opened DiskInventory

  datatype Status = Scanning | Complete | Cancelled | Failed

  datatype Reply = Reply(changes: seq<Item>, nextCursor: int, complete: bool)

  const MOST := 10000

  function Least(a: int, b: int): int {
    if a < b then a else b
  }

  /** Where the window of a poll ends. */
  function WindowEnd(length: nat, since: int, limit: int): int {
    var wanted := Least(limit, MOST);
    Least(length, since + if wanted > 1 then wanted else 1)
  }

  /** job["changes"][since:end] */
  function Window(changes: seq<Item>, since: nat, end: nat): seq<Item> {
    if since <= end <= |changes| then changes[since..end] else []
  }

  /** latest[item["path"]] = item, in a dictionary that keeps first-insertion order. */
  function Put(latest: seq<Item>, item: Item): (r: seq<Item>)
    ensures |r| >= 1
  {
    if latest == [] then [item]
    else if latest[0].path == item.path then [item] + latest[1..]
    else [latest[0]] + Put(latest[1..], item)
  }

  function Coalesced(window: seq<Item>): seq<Item> {
    if |window| == 0 then [] else Put(Coalesced(window[..|window| - 1]), window[|window| - 1])
  }

  class ScanJob {
    var changes: seq<Item>
    var status: Status

    constructor ()
      ensures changes == [] && status == Scanning
    {
      changes, status := [], Scanning;
    }

    method OnProgress(entry: Option<Item>)
      modifies this`changes
      ensures changes == old(changes) + if entry.Some? then [entry.value] else []
    {
      if entry.Some? {
        changes := changes + [entry.value];
      }
    }

    method Poll(since: int, limit: int) returns (reply: Option<Reply>)
      ensures since < 0 ==> reply == None
      ensures since >= 0 ==>
                var end := WindowEnd(|changes|, since, limit);
                reply == Some(Reply(Coalesced(Window(changes, since, end)), end, status != Scanning && end == |changes|))
    {
      if since < 0 {
        return None;
      }
      var end := WindowEnd(|changes|, since, limit);
      var window := Window(changes, since, end);
      var latest: seq<Item> := [];
      for i := 0 to |window|
        invariant latest == Coalesced(window[..i])
      {
        TakeSnoc(window, i);
        latest := Put(latest, window[i]);
      }
      assert window[..|window|] == window;
      reply := Some(Reply(latest, end, status != Scanning && end == |changes|));
    }
  }

  // ----- coalescing loses nothing that a view shows ---------------------------------

  predicate Lacks(items: seq<Item>, path: Path) {
    forall i :: 0 <= i < |items| ==> items[i].path != path
  }

  lemma {:induction false} LatestAppend(a: seq<Item>, b: seq<Item>)
    ensures Latest(a + b) == Latest(a) + Latest(b)
  {
    if |b| == 0 {
      assert a + b == a;
    } else {
      var init := b[..|b| - 1];
      LatestAppend(a, init);
      assert (a + b)[..|a + b| - 1] == a + init;
    }
  }

  lemma {:induction false} PutIsLatest(latest: seq<Item>, item: Item)
    requires DistinctPaths(latest)
    ensures Latest(Put(latest, item)) == Latest(latest)[item.path := item]
    ensures DistinctPaths(Put(latest, item))
    ensures forall path :: Lacks(Put(latest, item), path) <==> path != item.path && Lacks(latest, path)
  {
    hide Latest, DistinctPaths, Lacks;
    if latest == [] {
      PutFirst(item);
    } else {
      var rest := latest[1..];
      HeadTail(latest);
      LatestCons(latest[0], rest);
      LacksCons(latest[0], rest);
      if latest[0].path == item.path {
        LatestCons(item, rest);
        LacksCons(item, rest);
      } else {
        PutIsLatest(rest, item);
        LatestCons(latest[0], Put(rest, item));
        LacksCons(latest[0], Put(rest, item));
      }
    }
  }

  lemma PutFirst(item: Item)
    ensures Latest([item]) == Latest([])[item.path := item] && DistinctPaths([item])
    ensures forall path :: Lacks([item], path) <==> path != item.path && Lacks([], path)
  {
    assert [item][..0] == [];
    forall path ensures Lacks([item], path) <==> path != item.path && Lacks([], path) {
      assert [item][0] == item;
    }
  }

  lemma LatestCons(item: Item, rest: seq<Item>)
    ensures Latest([item] + rest) == map[item.path := item] + Latest(rest)
    ensures Lacks(rest, item.path) ==> item.path !in Latest(rest)
  {
    LatestAppend([item], rest);
    assert [item][..0] == [];
    LatestKeys(rest, item.path);
  }

  lemma LacksCons(item: Item, rest: seq<Item>)
    ensures forall path :: Lacks([item] + rest, path) <==> path != item.path && Lacks(rest, path)
    ensures DistinctPaths([item] + rest) <==> DistinctPaths(rest) && Lacks(rest, item.path)
  {
    hide DistinctPaths, Lacks;
    DistinctCons(item, rest);
    forall path ensures Lacks([item] + rest, path) <==> path != item.path && Lacks(rest, path) {
      LacksOne(item, rest, path);
    }
  }

  lemma LacksOne(item: Item, rest: seq<Item>, path: Path)
    ensures Lacks([item] + rest, path) <==> path != item.path && Lacks(rest, path)
  {
    var all := [item] + rest;
    assert all[0] == item && forall i :: 0 <= i < |rest| ==> all[i + 1] == rest[i];
  }

  lemma DistinctCons(item: Item, rest: seq<Item>)
    ensures DistinctPaths([item] + rest) <==> DistinctPaths(rest) && Lacks(rest, item.path)
  {
    var all := [item] + rest;
    assert all[0] == item && forall i :: 0 <= i < |rest| ==> all[i + 1] == rest[i];
    if DistinctPaths(all) {
      forall i, j | 0 <= i < j < |rest| ensures rest[i].path != rest[j].path {
        assert all[i + 1] == rest[i] && all[j + 1] == rest[j];
      }
    }
  }

  /** One item a path, the newest: the coalesced window shows what the window shows. */
  lemma {:induction false} CoalescedShowsWindow(window: seq<Item>)
    ensures Latest(Coalesced(window)) == Latest(window) && DistinctPaths(Coalesced(window))
  {
    hide Put;
    if |window| > 0 {
      CoalescedShowsWindow(window[..|window| - 1]);
      PutIsLatest(Coalesced(window[..|window| - 1]), window[|window| - 1]);
    }
  }

  // ----- a scan and its polls, interleaved -------------------------------------------

  /** The job, and a client's view and cursor. */
  datatype System = System(changes: seq<Item>, status: Status, view: map<Path, Item>, cursor: int, sawComplete: bool)

  datatype Event = Report(item: Item) | Finish(status: Status) | Poll(limit: int)

  const START := System([], Scanning, map[], 0, false)

  function PollReply(s: System, limit: int): Reply {
    var end := WindowEnd(|s.changes|, s.cursor, limit);
    Reply(if 0 <= s.cursor && 0 <= end then Coalesced(Window(s.changes, s.cursor, end)) else [], end,
          s.status != Scanning && end == |s.changes|)
  }

  /** The thread reports only while it scans; the client folds every reply into its view. */
  function Next(s: System, e: Event): System {
    match e
    case Report(item) => if s.status == Scanning then s.(changes := s.changes + [item]) else s
    case Finish(status) => if s.status == Scanning then s.(status := status) else s
    case Poll(limit) =>
      var reply := PollReply(s, limit);
      s.(view := s.view + Latest(reply.changes), cursor := reply.nextCursor, sawComplete := s.sawComplete || reply.complete)
  }

  function Run(events: seq<Event>): System {
    if |events| == 0 then START else Next(Run(events[..|events| - 1]), events[|events| - 1])
  }

  predicate UpToDate(s: System) {
    && 0 <= s.cursor <= |s.changes| && s.view == Latest(s.changes[..s.cursor])
    && (s.sawComplete ==> s.status != Scanning && s.cursor == |s.changes|)
  }

  lemma NextKeeps(s: System, e: Event)
    requires UpToDate(s)
    ensures UpToDate(Next(s, e))
  {
    hide Latest, Coalesced;
    match e {
      case Report(item) => assert (s.changes + [item])[..s.cursor] == s.changes[..s.cursor];
      case Finish(_) =>
      case Poll(limit) =>
        var end := WindowEnd(|s.changes|, s.cursor, limit);
        var window := s.changes[s.cursor..end];
        CoalescedShowsWindow(window);
        LatestAppend(s.changes[..s.cursor], window);
        assert s.changes[..end] == s.changes[..s.cursor] + window;
    }
  }

  /**
   For every interleaving of reports and polls, whatever their limits: the client's
   view shows the changes up to its cursor, and once a reply was complete it shows
   every change of the finished scan.
   */
  lemma {:induction false} ViewIsUpToDate(events: seq<Event>)
    ensures UpToDate(Run(events))
    ensures Run(events).sawComplete ==> Run(events).status != Scanning && Run(events).view == Latest(Run(events).changes)
  {
    hide Latest, Next;
    if |events| == 0 {
      assert START.changes[..0] == [] && Latest([]) == map[] by { LatestEmpty(); }
    } else {
      ViewIsUpToDate(events[..|events| - 1]);
      NextKeeps(Run(events[..|events| - 1]), events[|events| - 1]);
    }
    var s := Run(events);
    assert s.sawComplete ==> s.changes[..s.cursor] == s.changes;
  }

  lemma LatestEmpty()
    ensures Latest([]) == map[]
  {
  }

  /** What the thread reports until it finishes, from the events alone. */
  function Reported(events: seq<Event>): seq<Item> {
    if |events| == 0 then []
    else
      var init, e := events[..|events| - 1], events[|events| - 1];
      Reported(init) + if e.Report? && !HasFinished(init) then [e.item] else []
  }

  predicate HasFinished(events: seq<Event>) {
    exists i :: 0 <= i < |events| && events[i].Finish? && events[i].status != Scanning
  }

  lemma HasFinishedSnoc(events: seq<Event>)
    requires |events| > 0
    ensures var init, e := events[..|events| - 1], events[|events| - 1];
            HasFinished(events) <==> HasFinished(init) || (e.Finish? && e.status != Scanning)
  {
    var init := events[..|events| - 1];
    assert forall i :: 0 <= i < |init| ==> init[i] == events[i];
    if HasFinished(init) {
      var i :| 0 <= i < |init| && init[i].Finish? && init[i].status != Scanning;
      assert events[i].Finish?;
    }
  }

  /** The job's changes are what was reported, and it scans until it finishes. */
  lemma {:induction false} RunReports(events: seq<Event>)
    ensures Run(events).changes == Reported(events) && (Run(events).status == Scanning <==> !HasFinished(events))
  {
    hide HasFinished, PollReply, Latest;
    if |events| == 0 {
      NeverFinished();
    } else {
      RunReports(events[..|events| - 1]);
      HasFinishedSnoc(events);
    }
  }

  lemma NeverFinished()
    ensures !HasFinished([])
  {
  }

  /** A poll moves the cursor by its limit, which counts as at least 1 and at most 10000, but not beyond the changes; it brings at most that many items. */
  lemma PollMovesBy(s: System, limit: int)
    requires UpToDate(s)
    ensures var step := if limit < 1 then 1 else if limit > 10000 then 10000 else limit;
            var t := Next(s, Poll(limit));
            && t.cursor == (if s.cursor + step > |s.changes| then |s.changes| else s.cursor + step)
            && |PollReply(s, limit).changes| <= step && t.changes == s.changes && t.status == s.status
  {
    hide Latest, Coalesced;
    CoalescedIsShort(Window(s.changes, s.cursor, WindowEnd(|s.changes|, s.cursor, limit)));
  }

  lemma {:induction false} CoalescedIsShort(window: seq<Item>)
    ensures |Coalesced(window)| <= |window|
  {
    hide Put;
    if |window| > 0 {
      CoalescedIsShort(window[..|window| - 1]);
      PutIsShort(Coalesced(window[..|window| - 1]), window[|window| - 1]);
    }
  }

  lemma {:induction false} PutIsShort(latest: seq<Item>, item: Item)
    ensures |Put(latest, item)| <= |latest| + 1
  {
    if latest != [] && latest[0].path != item.path {
      PutIsShort(latest[1..], item);
    }
  }

  /** Every poll brings the cursor nearer to the end, so a finished scan is seen complete after finitely many. */
  lemma PollsAdvance(s: System, limit: int)
    requires UpToDate(s)
    ensures Next(s, Poll(limit)).cursor > s.cursor || s.cursor == |s.changes|
    ensures s.cursor == |s.changes| && s.status != Scanning ==> Next(s, Poll(limit)).sawComplete
  {
    hide Latest, Coalesced;
  }

  /** The view has exactly the entries. */
  predicate Shows(view: map<Path, Item>, entries: seq<Item>) {
    && (forall i :: 0 <= i < |entries| ==> entries[i].path in view && view[entries[i].path] == entries[i])
    && forall path :: path in view ==> exists i :: 0 <= i < |entries| && entries[i].path == path
  }

  /** Changes that show the entries: a client that has seen the scan complete has exactly the entries in its view. */
  lemma CompleteViewIsInventory(events: seq<Event>, entries: seq<Item>)
    requires Run(events).sawComplete && Latest(Run(events).changes) == Latest(entries) && DistinctPaths(entries)
    ensures Shows(Run(events).view, entries)
  {
    hide Latest, Run;
    ViewIsUpToDate(events);
    forall i | 0 <= i < |entries|
      ensures entries[i].path in Run(events).view && Run(events).view[entries[i].path] == entries[i]
    {
      LatestOfDistinct(entries, i);
    }
    forall path | path in Run(events).view ensures exists i :: 0 <= i < |entries| && entries[i].path == path {
      LatestKeys(entries, path);
    }
  }

  /** Whatever polls are interleaved with the reports of these changes. */
  ghost predicate EveryPollingShows(changes: seq<Item>, entries: seq<Item>) {
    forall events :: Run(events).changes == changes && Run(events).sawComplete ==> Shows(Run(events).view, entries)
  }

  /**
   A scan of any tree, cancelled anywhere or not, and its polls, from end to end: in
   every run whose reports are the changes of the scan, a client that has seen the scan
   complete has exactly the listed entries in its view; they are nodes of the tree, at a
   prefix of its paths, all of them if the scan was not cancelled, with sizes that add up.
   */
  method WatchedScan(children: seq<Node>, readable: bool, budget: nat)
    returns (entries: seq<Item>, changes: seq<Item>, cancelled: bool)
    requires DistinctNames(children)
    ensures EveryPollingShows(changes, entries)
    ensures AllInTree(entries, children, [], !cancelled)
    ensures Paths(entries) <= PathsOf(readable, children, []) && SizesAreSums(entries)
    ensures !cancelled ==> Paths(entries) == PathsOf(readable, children, [])
  {
    hide Latest, DistinctPaths, Run, Shows, DistinctNames, PathsOf, SizesAreSums, AllInTree;
    var total, scanned, errors, mounts;
    entries, changes, total, scanned, errors, mounts, cancelled := ScanDirectory(children, readable, budget);
    forall events | Run(events).changes == changes && Run(events).sawComplete ensures Shows(Run(events).view, entries) {
      CompleteViewIsInventory(events, entries);
    }
  }
}
