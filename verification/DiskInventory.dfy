/**
 What an inventory contains: every directory's size is the sum of the files listed
 below it, a cancelled scan lists a prefix of the tree, and an uncancelled one all
 of it.
 */
module DiskInventory {
  import opened Wrappers
  import opened Seqs
  import opened DiskScan
  import opened DiskTree

  // ----- sizes ---------------------------------------------------------------

  predicate IsFileKind(k: Kind) {
    k == IsFile || k == IsSymlink
  }

  /** The bytes of the files that are listed below a path. */
  function FileTotal(items: seq<Item>, path: Path): nat {
    if |items| == 0 then 0
    else FileTotal(items[1..], path) + (if IsFileKind(items[0].kind) && Below(items[0].path, path) then items[0].size else 0)
  }

  lemma {:induction false} FileTotalJoin(a: seq<Item>, b: seq<Item>, path: Path)
    ensures FileTotal(a + b, path) == FileTotal(a, path) + FileTotal(b, path)
  {
    hide Below;
    if |a| == 0 {
      assert a + b == b;
    } else {
      FileTotalJoin(a[1..], b, path);
      TailAppend(a, b);
    }
  }

  lemma {:induction false} NothingBelow(items: seq<Item>, path: Path)
    requires NoneBelow(items, path)
    ensures FileTotal(items, path) == 0
  {
    hide Below;
    if |items| > 0 {
      NothingBelow(items[1..], path);
    }
  }

  /** Below a directory means below everything that the directory is at or below. */
  lemma BelowDeeper(path: Path, inner: Path, outer: Path)
    requires AtOrBelow(inner, outer) && Below(path, inner)
    ensures AtOrBelow(path, outer) && (Below(inner, outer) || inner == outer ==> Below(path, outer))
  {
    assert path[..|inner|][..|outer|] == path[..|outer|];
  }

  lemma {:induction false} FileTotalFrom(items: seq<Item>, inner: Path, outer: Path)
    requires AllBelow(items, inner) && AtOrBelow(inner, outer)
    ensures FileTotal(items, outer) == FileTotal(items, inner)
  {
    hide Below, AtOrBelow;
    if |items| > 0 {
      FileTotalFrom(items[1..], inner, outer);
      assert Below(items[0].path, inner);
      AtOrBelowCases(inner, outer);
      BelowDeeper(items[0].path, inner, outer);
    }
  }

  lemma AtOrBelowCases(path: Path, parent: Path)
    requires AtOrBelow(path, parent)
    ensures Below(path, parent) || path == parent
  {
    if |path| == |parent| {
      assert path[..|parent|] == path;
    }
  }

  predicate SizeIsSum(items: seq<Item>, d: Item) {
    if d.kind == IsDirectory then d.size == FileTotal(items, d.path)
    else d.kind == IsMount ==> d.size == 0 && FileTotal(items, d.path) == 0
  }

  /** Every listed directory has the bytes of the files listed below it. */
  predicate SizesAreSums(items: seq<Item>) {
    forall i :: 0 <= i < |items| ==> SizeIsSum(items, items[i])
  }

  /** Nothing of `b` is below an item of `a`. */
  predicate Apart(a: seq<Item>, b: seq<Item>) {
    forall i :: 0 <= i < |a| ==> NoneBelow(b, a[i].path)
  }

  lemma SizesJoin(a: seq<Item>, b: seq<Item>)
    requires SizesAreSums(a) && SizesAreSums(b) && Apart(a, b) && Apart(b, a)
    ensures SizesAreSums(a + b)
  {
    hide NoneBelow, FileTotal;
    forall i | 0 <= i < |a + b| ensures SizeIsSum(a + b, (a + b)[i]) {
      var d := (a + b)[i];
      FileTotalJoin(a, b, d.path);
      if i < |a| {
        assert SizeIsSum(a, a[i]) && NoneBelow(b, a[i].path);
        NothingBelow(b, d.path);
      } else {
        assert SizeIsSum(b, b[i - |a|]) && NoneBelow(a, b[i - |a|].path);
        NothingBelow(a, d.path);
      }
    }
  }

  lemma SiblingsApart(a: seq<Item>, b: seq<Item>, path: Path)
    requires AllAtOrBelow(a, path) && NoneAtOrBelow(b, path)
    ensures Apart(a, b)
  {
    hide Below, AtOrBelow;
    forall i, j | 0 <= i < |a| && 0 <= j < |b| ensures !Below(b[j].path, a[i].path) {
      assert AtOrBelow(a[i].path, path) && !AtOrBelow(b[j].path, path);
      NotDeeper(b[j].path, a[i].path, path);
    }
  }

  lemma NotDeeper(path: Path, inner: Path, outer: Path)
    requires AtOrBelow(inner, outer) && !AtOrBelow(path, outer)
    ensures !Below(path, inner)
  {
    if Below(path, inner) {
      BelowDeeper(path, inner, outer);
    }
  }

  /** The items of later children are not at or below an earlier child. */
  lemma {:induction false} OthersElsewhere(children: seq<Node>, parent: Path, budget: nat, name: string)
    requires forall i :: 0 <= i < |children| ==> children[i].name != name
    ensures NoneAtOrBelow(InventoryOfChildren(children, parent, budget).items, parent + [name])
    decreases |children|
  {
    hide AtOrBelow, InventoryOfChild;
    if children != [] && budget > 0 {
      var first := InventoryOfChild(children[0], parent, budget - 1);
      ChildAtOrBelow(children[0], parent, budget - 1);
      OtherChild(first.items, parent, children[0].name, name);
      OthersElsewhere(children[1..], parent, first.budget, name);
    }
  }

  /** The first child's items are not below any of the later children's. */
  lemma {:induction false} FirstElsewhere(items: seq<Item>, children: seq<Node>, parent: Path, budget: nat, name: string)
    requires AllAtOrBelow(items, parent + [name]) && forall i :: 0 <= i < |children| ==> children[i].name != name
    ensures Apart(InventoryOfChildren(children, parent, budget).items, items)
    decreases |children|
  {
    hide AtOrBelow, InventoryOfChild, NoneBelow, AllAtOrBelow, NoneAtOrBelow;
    if children != [] && budget > 0 {
      var first := InventoryOfChild(children[0], parent, budget - 1);
      ChildAtOrBelow(children[0], parent, budget - 1);
      OtherChild(items, parent, name, children[0].name);
      SiblingsApart(first.items, items, parent + [children[0].name]);
      FirstElsewhere(items, children[1..], parent, first.budget, name);
    }
  }

  /**
   In the inventory of a tree with distinct names, cancelled anywhere, the total is
   the sum of the listed files, and so is every listed directory's size for the files
   below it.
   */
  lemma {:induction false} InventoryAddsUp(readable: bool, children: seq<Node>, path: Path, budget: nat)
    requires DistinctNames(children)
    ensures var found := InventoryOf(readable, children, path, budget);
            SizesAreSums(found.items) && found.total == FileTotal(found.items, path)
    decreases children, 1
  {
    hide SizesAreSums, FileTotal, InventoryOfChildren;
    if budget > 0 && readable {
      ChildrenAddUp(children, path, budget - 1);
    } else {
      EmptyAddsUp(path);
    }
  }

  lemma {:induction false} ChildrenAddUp(children: seq<Node>, path: Path, budget: nat)
    requires DistinctNames(children)
    ensures var found := InventoryOfChildren(children, path, budget);
            SizesAreSums(found.items) && found.total == FileTotal(found.items, path)
    decreases children, 0
  {
    hide SizesAreSums, InventoryOfChild, FileTotal, Apart, AllAtOrBelow, NoneAtOrBelow, AllBelow;
    if children != [] && budget > 0 {
      var first := InventoryOfChild(children[0], path, budget - 1);
      var name := children[0].name;
      IsWellNamed(children, 0);
      ChildAddsUp(children[0], path, budget - 1);
      ChildrenAddUp(children[1..], path, first.budget);
      var rest := InventoryOfChildren(children[1..], path, first.budget);
      ChildAtOrBelow(children[0], path, budget - 1);
      OthersElsewhere(children[1..], path, first.budget, name);
      SiblingsApart(first.items, rest.items, path + [name]);
      FirstElsewhere(first.items, children[1..], path, first.budget, name);
      SizesJoin(first.items, rest.items);
      FileTotalJoin(first.items, rest.items, path);
    } else {
      EmptyAddsUp(path);
    }
  }

  lemma EmptyAddsUp(path: Path)
    ensures SizesAreSums([]) && FileTotal([], path) == 0
  {
  }

  lemma {:induction false} ChildAddsUp(c: Node, parent: Path, budget: nat)
    requires WellNamed(c)
    ensures var found := InventoryOfChild(c, parent, budget);
            SizesAreSums(found.items) && found.total == FileTotal(found.items, parent)
    decreases c, 0
  {
    hide Below;
    var path := parent + [c.name];
    OneStepBelow(parent, c.name);
    match c {
      case Broken(_) =>
      case File(_, _, _, _) => FileTotalOne(FileItem(c, parent), parent);
      case Dir(_, mount, readable, children, _) =>
        if mount {
          FileTotalOne(DirItem(c, parent, 0), parent);
          FileTotalOne(DirItem(c, parent, 0), path);
        } else {
          InventoryAddsUp(readable, children, path, budget);
          InventoryBelow(readable, children, path, budget);
          DirectoryAddsUp(DirItem(c, parent, InventoryOf(readable, children, path, budget).total),
                          InventoryOf(readable, children, path, budget).items, parent);
        }
    }
  }

  lemma OneStepBelow(parent: Path, name: string)
    ensures Below(parent + [name], parent) && AtOrBelow(parent + [name], parent)
  {
  }

  lemma FileTotalOne(item: Item, path: Path)
    ensures FileTotal([item], path) == if IsFileKind(item.kind) && Below(item.path, path) then item.size else 0
  {
    assert FileTotal([item][1..], path) == 0;
  }

  lemma DirectoryAddsUp(d: Item, items: seq<Item>, parent: Path)
    requires d.kind == IsDirectory && SizesAreSums(items) && AllBelow(items, d.path)
    requires d.size == FileTotal(items, d.path) && AtOrBelow(d.path, parent)
    ensures SizesAreSums([d] + items) && FileTotal([d] + items, parent) == d.size
  {
    hide Below, AtOrBelow, FileTotal;
    FileTotalFrom(items, d.path, parent);
    FileTotalOne(d, parent);
    FileTotalJoin([d], items, parent);
    forall i | 0 <= i < |[d] + items| ensures SizeIsSum([d] + items, ([d] + items)[i]) {
      var e := ([d] + items)[i];
      FileTotalOne(d, e.path);
      FileTotalJoin([d], items, e.path);
      if i > 0 {
        assert SizeIsSum(items, items[i - 1]);
      }
    }
  }

  // ----- which part of the tree is listed ------------------------------------------

  /** Every path that a scan can list, in the order of the walk. */
  function PathsOf(readable: bool, children: seq<Node>, path: Path): seq<Path>
    decreases children, 1
  {
    if readable then PathsOfChildren(children, path) else []
  }

  function PathsOfChildren(children: seq<Node>, path: Path): seq<Path>
    decreases children, 0
  {
    if children == [] then [] else PathsOfChild(children[0], path) + PathsOfChildren(children[1..], path)
  }

  function PathsOfChild(c: Node, parent: Path): seq<Path>
    decreases c, 0
  {
    match c
    case File(name, _, _, _) => [parent + [name]]
    case Broken(_) => []
    case Dir(name, mount, readable, children, _) =>
      [parent + [name]] + if mount then [] else PathsOf(readable, children, parent + [name])
  }

  function Paths(items: seq<Item>): (r: seq<Path>)
    ensures |r| == |items| && forall i :: 0 <= i < |items| ==> r[i] == items[i].path
  {
    seq(|items|, i requires 0 <= i < |items| => items[i].path)
  }

  /** The listed paths are a prefix of all paths, and all of them if the event was still unset at the end. */
  predicate IsPart(found: Found, all: seq<Path>) {
    Paths(found.items) <= all && (found.budget > 0 ==> Paths(found.items) == all)
  }

  lemma PathsJoin(a: seq<Item>, b: seq<Item>)
    ensures Paths(a + b) == Paths(a) + Paths(b)
  {
  }

  lemma PrefixJoin(a: seq<Path>, all: seq<Path>, b: seq<Path>, more: seq<Path>)
    requires a <= all && b <= more && (a == all || b == [])
    ensures a + b <= all + more
  {
  }

  lemma {:induction false} ListsPart(readable: bool, children: seq<Node>, path: Path, budget: nat)
    ensures IsPart(InventoryOf(readable, children, path, budget), PathsOf(readable, children, path))
    decreases children, 1
  {
    if budget > 0 && readable {
      ChildrenListPart(children, path, budget - 1);
    }
  }

  lemma {:induction false} ChildrenListPart(children: seq<Node>, path: Path, budget: nat)
    ensures IsPart(InventoryOfChildren(children, path, budget), PathsOfChildren(children, path))
    decreases children, 0
  {
    hide InventoryOfChild, PathsOfChild;
    if children != [] && budget > 0 {
      var first := InventoryOfChild(children[0], path, budget - 1);
      ChildListsPart(children[0], path, budget - 1);
      ChildrenListPart(children[1..], path, first.budget);
      var rest := InventoryOfChildren(children[1..], path, first.budget);
      PathsJoin(first.items, rest.items);
      BudgetGone(children[1..], path);
      PrefixJoin(Paths(first.items), PathsOfChild(children[0], path), Paths(rest.items), PathsOfChildren(children[1..], path));
    }
  }

  /** A set event stays set: nothing more is listed. */
  lemma BudgetGone(children: seq<Node>, path: Path)
    ensures InventoryOfChildren(children, path, 0) == Found([], 0, 0, 0, 0)
  {
  }

  lemma {:induction false} ChildListsPart(c: Node, parent: Path, budget: nat)
    ensures IsPart(InventoryOfChild(c, parent, budget), PathsOfChild(c, parent))
    decreases c, 0
  {
    hide InventoryOf, PathsOf;
    if c.Dir? && !c.mount {
      var path := parent + [c.name];
      ListsPart(c.readable, c.children, path, budget);
      var sub := InventoryOf(c.readable, c.children, path, budget);
      PathsJoin([DirItem(c, parent, sub.total)], sub.items);
      assert Paths([DirItem(c, parent, sub.total)]) == [path];
      PrefixJoin([path], [path], Paths(sub.items), PathsOf(c.readable, c.children, path));
    }
  }

  /**
   scan_directory: the reported changes show the listed items, each of which is a node
   of the tree; scanned size and total agree and are the sum of the listed files; every
   directory's size is the sum of the files listed below it; the list is a prefix of
   the tree's paths. A scan that was not cancelled lists all of them, and its sizes and
   counts are those of the readable tree; it is cancelled exactly if the event is set
   before the walk has asked for the last time, or right behind.
   */
  method ScanDirectory(children: seq<Node>, readable: bool, budget: nat)
    returns (entries: seq<Item>, changes: seq<Item>, totalSize: nat, scannedSize: nat, errors: nat, mounts: nat, cancelled: bool)
    requires DistinctNames(children)
    ensures Latest(changes) == Latest(entries) && DistinctPaths(entries)
    ensures scannedSize == totalSize == FileTotal(entries, []) && SizesAreSums(entries)
    ensures AllInTree(entries, children, [], !cancelled)
    ensures Paths(entries) <= PathsOf(readable, children, [])
    ensures !cancelled ==> Paths(entries) == PathsOf(readable, children, [])
    ensures !cancelled && readable ==>
              totalSize == AllBytes(children) && errors == AllFaults(children) && mounts == AllMounts(children)
    ensures !cancelled && !readable ==> totalSize == 0 && errors == 1 && mounts == 0
    ensures mounts == MountItems(entries) && (readable ==> totalSize <= AllBytes(children) && errors <= AllFaults(children))
    ensures cancelled <==> budget <= if readable then 1 + AllAsks(children) else 1
  {
    hide InventoryOf, FileTotal, SizesAreSums, Latest, DistinctPaths, PathsOf, DistinctNames, AllInTree, AllBytes, AllFaults, AllMounts, AllAsks, MountItems;
    var scanner := new Scanner(budget);
    totalSize := scanner.Walk(readable, children, [], None);
    entries, changes, scannedSize := scanner.entries, scanner.changes, scanner.scannedSize;
    errors, mounts := scanner.errors, scanner.mounts;
    InventoryAddsUp(readable, children, [], budget);
    ListsPart(readable, children, [], budget);
    ScanInTree(readable, children, [], budget);
    ScanCounts(readable, children, [], budget);
    ScanWithin(readable, children, [], budget);
    ScanAsks(readable, children, [], budget);
    assert Resized([], None, totalSize) + InventoryOf(readable, children, [], budget).items == InventoryOf(readable, children, [], budget).items;
    assert entries == InventoryOf(readable, children, [], budget).items;
    cancelled := scanner.Cancelled();
  }
}
