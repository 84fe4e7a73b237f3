/**
 The recursive inventory of the disk manager (disk_manager.py, scan_directory): a
 walk that updates a list of items in place and reports every change. The
 filesystem is a tree; `budget` is how many more times the cancel event is found
 unset, so every budget is one cancellation point.
 */
module DiskScan {
  import opened Wrappers
  import opened Seqs

  /** The components of a relative path. */
  type Path = seq<string>

  datatype Node =
    | File(name: string, size: nat, symlink: bool, modified: int)
    | Dir(name: string, mount: bool, readable: bool, children: seq<Node>, modified: int)
    | Broken(name: string)      // stat() fails

  datatype Kind = IsFile | IsSymlink | IsDirectory | IsMount

  datatype Item = Item(path: Path, kind: Kind, size: nat, modified: int)

  /** What a walk finds: its items, the total it returns, and its counts. */
  datatype Found = Found(items: seq<Item>, total: nat, errors: nat, mounts: nat, budget: nat)

  // ----- the reference: an inventory without any update ---------------------------

  function FileItem(c: Node, parent: Path): Item
    requires c.File?
  {
    Item(parent + [c.name], if c.symlink then IsSymlink else IsFile, c.size, c.modified)
  }

  function DirItem(c: Node, parent: Path, size: nat): Item
    requires c.Dir?
  {
    Item(parent + [c.name], if c.mount then IsMount else IsDirectory, size, c.modified)
  }

  function InventoryOf(readable: bool, children: seq<Node>, path: Path, budget: nat): Found
    decreases children, 1
  {
    if budget == 0 then Found([], 0, 0, 0, 0)
    else if !readable then Found([], 0, 1, 0, budget - 1)
    else InventoryOfChildren(children, path, budget - 1)
  }

  /** The inventory of one child. */
  function InventoryOfChild(c: Node, parent: Path, budget: nat): Found
    decreases c, 0
  {
    match c
    case File(_, size, _, _) => Found([FileItem(c, parent)], size, 0, 0, budget)
    case Broken(_) => Found([], 0, 1, 0, budget)
    case Dir(name, mount, readable, children, _) =>
      if mount then Found([DirItem(c, parent, 0)], 0, 0, 1, budget)
      else
        var sub := InventoryOf(readable, children, parent + [name], budget);
        sub.(items := [DirItem(c, parent, sub.total)] + sub.items)
  }

  function Join(a: Found, b: Found): Found {
    Found(a.items + b.items, a.total + b.total, a.errors + b.errors, a.mounts + b.mounts, b.budget)
  }

  function InventoryOfChildren(children: seq<Node>, parent: Path, budget: nat): Found
    decreases children, 0
  {
    if children == [] || budget == 0 then Found([], 0, 0, 0, budget)
    else
      var first := InventoryOfChild(children[0], parent, budget - 1);
      Join(first, InventoryOfChildren(children[1..], parent, first.budget))
  }

  // ----- the view that changes give ------------------------------------------------

  /** The newest item of every path. */
  function Latest(items: seq<Item>): map<Path, Item> {
    if |items| == 0 then map[] else Latest(items[..|items| - 1])[items[|items| - 1].path := items[|items| - 1]]
  }

  predicate DistinctPaths(items: seq<Item>) {
    forall i, j :: 0 <= i < j < |items| ==> items[i].path != items[j].path
  }

  lemma LatestSnoc(items: seq<Item>, item: Item)
    ensures Latest(items + [item]) == Latest(items)[item.path := item]
  {
    assert (items + [item])[..|items|] == items;
  }

  lemma {:induction false} LatestKeys(items: seq<Item>, path: Path)
    ensures path in Latest(items) <==> exists i :: 0 <= i < |items| && items[i].path == path
  {
    if |items| > 0 {
      var init := items[..|items| - 1];
      LatestKeys(init, path);
      assert forall i :: 0 <= i < |init| ==> init[i] == items[i];
    }
  }

  lemma {:induction false} LatestOfDistinct(items: seq<Item>, i: nat)
    requires DistinctPaths(items) && i < |items|
    ensures items[i].path in Latest(items) && Latest(items)[items[i].path] == items[i]
  {
    if i < |items| - 1 {
      assert DistinctPaths(items[..|items| - 1]);
      LatestOfDistinct(items[..|items| - 1], i);
    }
  }

  /** Updating an item in place is one more change. */
  lemma {:induction false} LatestUpdate(items: seq<Item>, i: nat, item: Item)
    requires DistinctPaths(items) && i < |items| && item.path == items[i].path
    ensures Latest(items[i := item]) == Latest(items)[item.path := item]
  {
    var n := |items| - 1;
    var after := items[i := item];
    if i == n {
      assert after[..n] == items[..n];
    } else {
      assert DistinctPaths(items[..n]);
      LatestUpdate(items[..n], i, item);
      assert after[..n] == items[..n][i := item];
    }
  }

  // ----- distinct names give distinct paths ------------------------------------------

  predicate DistinctNames(children: seq<Node>)
    decreases children
  {
    && (forall i, j :: 0 <= i < j < |children| ==> children[i].name != children[j].name)
    && forall i :: 0 <= i < |children| ==> WellNamed(children[i])
  }

  /** Siblings have distinct names, all the way down. */
  predicate WellNamed(c: Node)
    decreases c
  {
    c.Dir? ==> DistinctNames(c.children)
  }

  predicate Below(path: Path, parent: Path) {
    |path| > |parent| && path[..|parent|] == parent
  }

  predicate AtOrBelow(path: Path, parent: Path) {
    |path| >= |parent| && path[..|parent|] == parent
  }

  predicate AllAtOrBelow(items: seq<Item>, path: Path) {
    forall i :: 0 <= i < |items| ==> AtOrBelow(items[i].path, path)
  }

  predicate AllBelow(items: seq<Item>, path: Path) {
    forall i :: 0 <= i < |items| ==> Below(items[i].path, path)
  }

  predicate NoneAtOrBelow(items: seq<Item>, path: Path) {
    forall i :: 0 <= i < |items| ==> !AtOrBelow(items[i].path, path)
  }

  predicate NoneBelow(items: seq<Item>, path: Path) {
    forall i :: 0 <= i < |items| ==> !Below(items[i].path, path)
  }

  lemma DeeperIsBelow(path: Path, parent: Path, name: string)
    ensures AtOrBelow(path, parent + [name]) <==> Below(path, parent) && path[|parent|] == name
    ensures !Below(path, parent) ==> !AtOrBelow(path, parent + [name])
  {
    var deeper := parent + [name];
    assert deeper[..|parent|] == parent && deeper[|parent|] == name;
    if |path| > |parent| {
      assert path[..|parent| + 1] == path[..|parent|] + [path[|parent|]];
      assert path[..|parent| + 1][..|parent|] == path[..|parent|];
    }
  }

  lemma AllDeeper(items: seq<Item>, parent: Path, name: string)
    ensures NoneBelow(items, parent) ==> NoneAtOrBelow(items, parent + [name])
    ensures AllAtOrBelow(items, parent + [name]) ==> AllBelow(items, parent)
  {
    forall i | 0 <= i < |items|
      ensures AtOrBelow(items[i].path, parent + [name]) ==> Below(items[i].path, parent)
    {
      DeeperIsBelow(items[i].path, parent, name);
    }
  }

  lemma OtherChild(items: seq<Item>, parent: Path, name: string, other: string)
    requires AllAtOrBelow(items, parent + [name]) && name != other
    ensures NoneAtOrBelow(items, parent + [other])
  {
    forall i | 0 <= i < |items| ensures !AtOrBelow(items[i].path, parent + [other]) {
      DeeperIsBelow(items[i].path, parent, name);
      DeeperIsBelow(items[i].path, parent, other);
    }
  }

  lemma {:induction false} InventoryBelow(readable: bool, children: seq<Node>, path: Path, budget: nat)
    ensures AllBelow(InventoryOf(readable, children, path, budget).items, path)
    decreases children, 1
  {
    if budget > 0 && readable {
      ChildrenBelow(children, path, budget - 1);
    }
  }

  lemma {:induction false} ChildAtOrBelow(c: Node, parent: Path, budget: nat)
    ensures AllAtOrBelow(InventoryOfChild(c, parent, budget).items, parent + [c.name])
    decreases c, 0
  {
    if c.Dir? && !c.mount {
      InventoryBelow(c.readable, c.children, parent + [c.name], budget);
    }
  }

  lemma {:induction false} ChildrenBelow(children: seq<Node>, parent: Path, budget: nat)
    ensures AllBelow(InventoryOfChildren(children, parent, budget).items, parent)
    decreases children, 0
  {
    if children != [] && budget > 0 {
      var first := InventoryOfChild(children[0], parent, budget - 1);
      ChildAtOrBelow(children[0], parent, budget - 1);
      AllDeeper(first.items, parent, children[0].name);
      ChildrenBelow(children[1..], parent, first.budget);
    }
  }

  /** The children from the i-th on have no item yet. */
  predicate NotYet(items: seq<Item>, path: Path, children: seq<Node>, i: nat) {
    forall j :: i <= j < |children| ==> NoneAtOrBelow(items, path + [children[j].name])
  }

  lemma NotYetNext(items: seq<Item>, more: seq<Item>, path: Path, children: seq<Node>, i: nat)
    requires i < |children| && DistinctNames(children) && NotYet(items, path, children, i)
    requires AllAtOrBelow(more, path + [children[i].name])
    ensures NotYet(items + more, path, children, i + 1)
  {
    hide AtOrBelow, AllAtOrBelow;
    forall j | i + 1 <= j < |children| ensures NoneAtOrBelow(items + more, path + [children[j].name]) {
      OtherChild(more, path, children[i].name, children[j].name);
      assert NoneAtOrBelow(items, path + [children[j].name]);
    }
  }

  /** The entries, with the size of the directory that is being walked. */
  function Resized(items: seq<Item>, index: Option<nat>, size: nat): (r: seq<Item>)
    ensures |r| == |items|
    ensures forall i :: 0 <= i < |items| ==> r[i].path == items[i].path
  {
    if index.Some? && index.value < |items| then items[index.value := items[index.value].(size := size)] else items
  }

  lemma ResizedNothing(items: seq<Item>, index: Option<nat>)
    requires index.Some? ==> index.value < |items| && items[index.value].size == 0
    ensures Resized(items, index, 0) + [] == items
  {
  }

  lemma ResizedAgain(items: seq<Item>, index: nat, size: nat, again: nat, more: seq<Item>)
    requires index < |items|
    ensures index < |Resized(items, Some(index), size) + more|
    ensures var all := Resized(items, Some(index), size) + more;
            all[index := all[index].(size := again)] == Resized(items, Some(index), again) + more
  {
  }

  lemma ChildIsNew(items: seq<Item>, index: Option<nat>, size: nat, found: seq<Item>, path: Path, children: seq<Node>, i: nat)
    requires i < |children| && NoneBelow(items, path) && NotYet(found, path, children, i)
    ensures NoneAtOrBelow(Resized(items, index, size) + found, path + [children[i].name])
  {
    hide AtOrBelow;
    AllDeeper(items, path, children[i].name);
    assert NoneAtOrBelow(found, path + [children[i].name]);
  }

  // ----- the walk ------------------------------------------------------------------------

  class Scanner {
    var budget: nat
    var entries: seq<Item>
    var changes: seq<Item>      // what the progress callback is given
    var errors: nat
    var mounts: nat
    var scannedSize: nat

    /** The reported changes show the entries as they are. */
    ghost predicate InStep()
      reads this`entries, this`changes
    {
      DistinctPaths(entries) && Latest(changes) == Latest(entries)
    }

    constructor (budget: nat)
      ensures this.budget == budget && entries == [] && changes == [] && errors == mounts == scannedSize == 0
      ensures InStep()
    {
      this.budget := budget;
      entries, changes, errors, mounts, scannedSize := [], [], 0, 0, 0;
    }

    /** cancelled() */
    method Cancelled() returns (set': bool)
      modifies this`budget
      ensures set' == (old(budget) == 0)
      ensures budget == if set' then 0 else old(budget) - 1
    {
      set' := budget == 0;
      if !set' {
        budget := budget - 1;
      }
    }

    /** Errors, skipped mounts and scanned size. */
    function Totals(): (nat, nat, nat)
      reads this`errors, this`mounts, this`scannedSize
    {
      (errors, mounts, scannedSize)
    }

    /** The counters have counted what was found, and every byte of its total was scanned. */
    predicate Counts(before: (nat, nat, nat), found: Found)
      reads this`errors, this`mounts, this`scannedSize, this`budget
    {
      Totals() == (before.0 + found.errors, before.1 + found.mounts, before.2 + found.total) && budget == found.budget
    }

    predicate IsNew(path: Path)
      reads this`entries
    {
      forall i :: 0 <= i < |entries| ==> entries[i].path != path
    }

    /** entries.append(item); emit(item) */
    method Add(item: Item)
      requires InStep() && IsNew(item.path)
      modifies this`entries, this`changes
      ensures InStep() && entries == old(entries) + [item]
    {
      LatestSnoc(entries, item);
      LatestSnoc(changes, item);
      entries := entries + [item];
      changes := changes + [item];
    }

    /** directory_item["size"] = total; emit(directory_item) */
    method Resize(index: nat, size: nat)
      requires InStep() && index < |entries|
      modifies this`entries, this`changes
      ensures InStep() && entries == old(entries)[index := old(entries)[index].(size := size)]
    {
      var item := entries[index].(size := size);
      LatestUpdate(entries, index, item);
      LatestSnoc(changes, item);
      entries := entries[index := item];
      changes := changes + [item];
    }

    /** walk(): `index` is where the directory's own item is; the root has none. */
    method Walk(readable: bool, children: seq<Node>, path: Path, index: Option<nat>) returns (total: nat)
      requires InStep() && DistinctNames(children) && NoneBelow(entries, path)
      requires index.Some? ==> index.value < |entries| && entries[index.value].size == 0
      modifies this
      ensures var found := InventoryOf(readable, children, path, old(budget));
              && InStep() && total == found.total
              && entries == Resized(old(entries), index, total) + found.items
              && Counts(old(Totals()), found)
      decreases children, 1
    {
      total := 0;
      var stop := Cancelled();
      ResizedNothing(entries, index);
      if stop {
        return;
      }
      if !readable {
        errors := errors + 1;
        return;
      }
      total := WalkChildren(children, path, index);
    }

    /** The loop of walk() over a directory's children. */
    method WalkChildren(children: seq<Node>, path: Path, index: Option<nat>) returns (total: nat)
      requires InStep() && DistinctNames(children) && NoneBelow(entries, path)
      requires index.Some? ==> index.value < |entries| && entries[index.value].size == 0
      modifies this
      ensures var found := InventoryOfChildren(children, path, old(budget));
              && InStep() && total == found.total
              && entries == Resized(old(entries), index, total) + found.items
              && Counts(old(Totals()), found)
      decreases children, 0
    {
      hide InStep, NoneAtOrBelow, NoneBelow, AllAtOrBelow, InventoryOfChild, InventoryOfChildren, Resized, NotYet, DistinctNames;
      total := 0;
      ghost var found := Found([], 0, 0, 0, budget);
      ResizedNothing(entries, index);
      NothingYet(path, children);
      assert children[0..] == children;
      JoinNothing(budget, InventoryOfChildren(children, path, budget));
      var i := 0;
      while i < |children|
        invariant 0 <= i <= |children|
        invariant InStep() && total == found.total
        invariant entries == Resized(old(entries), index, total) + found.items
        invariant Counts(old(Totals()), found)
        invariant Join(found, InventoryOfChildren(children[i..], path, budget)) == InventoryOfChildren(children, path, old(budget))
        invariant NotYet(found.items, path, children, i)
        decreases |children| - i
      {
        var stop := Cancelled();
        if stop {
          NextChild(children, i, path, 0);
          NothingJoined(found, 0);
          return;
        }
        NextChild(children, i, path, budget + 1);
        ghost var first := InventoryOfChild(children[i], path, budget);
        ChildIsNew(old(entries), index, total, found.items, path, children, i);
        IsWellNamed(children, i);
        ChildAtOrBelow(children[i], path, budget);
        total := WalkNext(children[i], path, index, total, old(entries), found.items);
        JoinAssoc(found, first, InventoryOfChildren(children[i + 1..], path, first.budget));
        NotYetNext(found.items, first.items, path, children, i);
        found := Join(found, first);
        i := i + 1;
      }
      NextChild(children, |children|, path, budget);
      NothingJoined(found, budget);
    }

    /** One child, and the directory's new size. */
    method WalkNext(c: Node, path: Path, index: Option<nat>, total: nat, ghost base: seq<Item>, ghost found: seq<Item>)
      returns (newTotal: nat)
      requires InStep() && WellNamed(c) && NoneAtOrBelow(entries, path + [c.name])
      requires entries == Resized(base, index, total) + found && (index.Some? ==> index.value < |base|)
      modifies this
      ensures var first := InventoryOfChild(c, path, old(budget));
              && InStep() && newTotal == total + first.total
              && entries == Resized(base, index, newTotal) + (found + first.items)
              && Counts(old(Totals()), first)
      decreases c, 1
    {
      hide InStep, NoneAtOrBelow, InventoryOfChild, Resized, WellNamed;
      ghost var first := InventoryOfChild(c, path, budget);
      var size := WalkChild(c, path);
      Assoc(Resized(base, index, total), found, first.items);
      newTotal := total + size;
      if !c.Broken? {
        if index.Some? {
          ResizedAgain(base, index.value, total, newTotal, found + first.items);
          Resize(index.value, newTotal);
        } else {
          ResizedRoot(base, total, newTotal);
        }
      } else {
        BrokenAddsNothing(c, path, old(budget));
      }
    }

    /** The try block of walk() for one child. */
    method WalkChild(c: Node, parent: Path) returns (size: nat)
      requires InStep() && WellNamed(c) && NoneAtOrBelow(entries, parent + [c.name])
      modifies this
      ensures var found := InventoryOfChild(c, parent, old(budget));
              InStep() && size == found.total && entries == old(entries) + found.items && Counts(old(Totals()), found)
      decreases c, 0
    {
      hide InStep, InventoryOf, Resized, AtOrBelow;
      match c {
        case Broken(_) =>
          errors := errors + 1;
          size := 0;
          assert entries + [] == entries;
        case File(_, bytes, _, _) =>
          scannedSize := scannedSize + bytes;
          AtItself(parent + [c.name]);
          Add(FileItem(c, parent));
          size := bytes;
        case Dir(_, _, _, _, _) =>
          size := WalkDirectory(c, parent);
      }
    }

    method WalkDirectory(c: Node, parent: Path) returns (size: nat)
      requires c.Dir? && InStep() && DistinctNames(c.children) && NoneAtOrBelow(entries, parent + [c.name])
      modifies this
      ensures var found := InventoryOfChild(c, parent, old(budget));
              InStep() && size == found.total && entries == old(entries) + found.items && Counts(old(Totals()), found)
      decreases c.children, 2
    {
      hide InStep, InventoryOf, Resized, AtOrBelow, NoneBelow, DistinctNames;
      var path := parent + [c.name];
      var index := |entries|;
      AtItself(path);
      Add(DirItem(c, parent, 0));
      if c.mount {
        mounts := mounts + 1;
        size := 0;
      } else {
        NewItemIsNotBelow(old(entries), DirItem(c, parent, 0));
        size := Walk(c.readable, c.children, path, Some(index));
        ghost var sub := InventoryOf(c.readable, c.children, path, old(budget));
        ResizedLast(old(entries), DirItem(c, parent, 0), size);
        Assoc(old(entries), [DirItem(c, parent, size)], sub.items);
      }
    }
  }

  lemma AtItself(path: Path)
    ensures AtOrBelow(path, path)
  {
  }

  lemma NewItemIsNotBelow(items: seq<Item>, item: Item)
    requires NoneAtOrBelow(items, item.path)
    ensures NoneBelow(items + [item], item.path)
  {
    assert forall i :: 0 <= i < |items| ==> !AtOrBelow(items[i].path, item.path);
  }

  lemma ResizedLast(items: seq<Item>, item: Item, size: nat)
    ensures Resized(items + [item], Some(|items|), size) == items + [item.(size := size)]
  {
  }

  /** The inventory of the children from the i-th on. */
  lemma NextChild(children: seq<Node>, i: nat, path: Path, budget: nat)
    requires i <= |children|
    ensures InventoryOfChildren(children[i..], path, budget)
         == if i == |children| || budget == 0 then Found([], 0, 0, 0, budget)
            else var first := InventoryOfChild(children[i], path, budget - 1);
                 Join(first, InventoryOfChildren(children[i + 1..], path, first.budget))
  {
    hide InventoryOfChild, Join;
    if i < |children| {
      assert children[i..][0] == children[i] && children[i..][1..] == children[i + 1..];
    }
  }

  lemma NothingYet(path: Path, children: seq<Node>)
    ensures NotYet([], path, children, 0)
  {
  }

  lemma IsWellNamed(children: seq<Node>, i: nat)
    requires DistinctNames(children) && i < |children|
    ensures WellNamed(children[i])
  {
  }

  lemma ResizedRoot(items: seq<Item>, size: nat, again: nat)
    ensures Resized(items, None, size) == Resized(items, None, again)
  {
  }

  lemma BrokenAddsNothing(c: Node, path: Path, budget: nat)
    requires c.Broken?
    ensures InventoryOfChild(c, path, budget).total == 0
  {
  }

  lemma JoinNothing(budget: nat, f: Found)
    ensures Join(Found([], 0, 0, 0, budget), f) == f
  {
    assert [] + f.items == f.items;
  }

  lemma NothingJoined(f: Found, budget: nat)
    ensures Join(f, Found([], 0, 0, 0, budget)) == f.(budget := budget)
  {
    assert f.items + [] == f.items;
  }

  lemma JoinAssoc(a: Found, b: Found, c: Found)
    ensures Join(Join(a, b), c) == Join(a, Join(b, c))
  {
    Assoc(a.items, b.items, c.items);
  }
}
