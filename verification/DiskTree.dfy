/**
 What a scan says of the tree itself: every listed item is a node of the tree, and
 a scan that is not cancelled counts the whole readable part of it.
 */
module DiskTree {
  import opened Wrappers
  import opened Seqs
  import opened DiskScan

  // ----- the tree, without a walk ---------------------------------------------------

  function Named(children: seq<Node>, name: string): Option<Node> {
    if children == [] then None
    else if children[0].name == name then Some(children[0])
    else Named(children[1..], name)
  }

  /** The node at a path, found by names alone. */
  function NodeAt(children: seq<Node>, path: Path): Option<Node>
    decreases |path|
  {
    if path == [] then None
    else
      var c := Named(children, path[0]);
      if |path| == 1 then c
      else if c.Some? && c.value.Dir? then NodeAt(c.value.children, path[1..])
      else None
  }

  /** The bytes of all files that can be read from here, mounts excluded. */
  function Bytes(c: Node): nat
    decreases c, 0
  {
    match c
    case File(_, size, _, _) => size
    case Broken(_) => 0
    case Dir(_, mount, readable, children, _) => if mount || !readable then 0 else AllBytes(children)
  }

  function AllBytes(children: seq<Node>): nat
    decreases children, 0
  {
    if children == [] then 0 else Bytes(children[0]) + AllBytes(children[1..])
  }

  /** The nodes that cannot be read: those that fail, and unreadable directories. */
  function Faults(c: Node): nat
    decreases c, 0
  {
    match c
    case File(_, _, _, _) => 0
    case Broken(_) => 1
    case Dir(_, mount, readable, children, _) => if mount then 0 else if !readable then 1 else AllFaults(children)
  }

  function AllFaults(children: seq<Node>): nat
    decreases children, 0
  {
    if children == [] then 0 else Faults(children[0]) + AllFaults(children[1..])
  }

  function Mounts(c: Node): nat
    decreases c, 0
  {
    match c
    case File(_, _, _, _) => 0
    case Broken(_) => 0
    case Dir(_, mount, readable, children, _) => if mount then 1 else if !readable then 0 else AllMounts(children)
  }

  function AllMounts(children: seq<Node>): nat
    decreases children, 0
  {
    if children == [] then 0 else Mounts(children[0]) + AllMounts(children[1..])
  }

  // ----- counts -----------------------------------------------------------------------

  /** A set event stays set. */
  lemma {:induction false} BudgetShrinks(children: seq<Node>, path: Path, budget: nat)
    ensures InventoryOfChildren(children, path, budget).budget <= budget
    decreases children, 0
  {
    hide InventoryOfChild;
    if children != [] && budget > 0 {
      ChildBudgetShrinks(children[0], path, budget - 1);
      BudgetShrinks(children[1..], path, InventoryOfChild(children[0], path, budget - 1).budget);
    }
  }

  lemma {:induction false} DirectoryBudgetShrinks(readable: bool, children: seq<Node>, path: Path, budget: nat)
    ensures InventoryOf(readable, children, path, budget).budget <= budget
    decreases children, 1
  {
    hide InventoryOfChildren;
    if budget > 0 && readable {
      BudgetShrinks(children, path, budget - 1);
    }
  }

  lemma {:induction false} ChildBudgetShrinks(c: Node, path: Path, budget: nat)
    ensures InventoryOfChild(c, path, budget).budget <= budget
    decreases c, 0
  {
    hide InventoryOf;
    if c.Dir? && !c.mount {
      DirectoryBudgetShrinks(c.readable, c.children, path + [c.name], budget);
    }
  }

  /** What is found before the event is set has been counted completely. */
  predicate CountsAll(found: Found, bytes: nat, faults: nat, mounts: nat) {
    found.budget > 0 ==> found.total == bytes && found.errors == faults && found.mounts == mounts
  }

  /** A scan that is not cancelled has counted all bytes, faults and mounts of the readable tree. */
  lemma {:induction false} ScanCounts(readable: bool, children: seq<Node>, path: Path, budget: nat)
    ensures CountsAll(InventoryOf(readable, children, path, budget), if readable then AllBytes(children) else 0,
                      if readable then AllFaults(children) else 1, if readable then AllMounts(children) else 0)
    decreases children, 1
  {
    hide InventoryOfChildren, AllBytes, AllFaults, AllMounts;
    if budget > 0 && readable {
      ChildrenCount(children, path, budget - 1);
    }
  }

  lemma {:induction false} ChildCounts(c: Node, parent: Path, budget: nat)
    ensures CountsAll(InventoryOfChild(c, parent, budget), Bytes(c), Faults(c), Mounts(c))
    decreases c, 0
  {
    hide InventoryOf, AllBytes, AllFaults, AllMounts;
    if c.Dir? && !c.mount {
      ScanCounts(c.readable, c.children, parent + [c.name], budget);
    }
  }

  lemma {:induction false} ChildrenCount(children: seq<Node>, path: Path, budget: nat)
    ensures CountsAll(InventoryOfChildren(children, path, budget), AllBytes(children), AllFaults(children), AllMounts(children))
    decreases children, 0
  {
    hide InventoryOfChild, Bytes, Faults, Mounts;
    if children != [] && budget > 0 {
      var first := InventoryOfChild(children[0], path, budget - 1);
      ChildCounts(children[0], path, budget - 1);
      ChildrenCount(children[1..], path, first.budget);
      BudgetShrinks(children[1..], path, first.budget);
    }
  }

  // ----- how often the cancel event is asked ------------------------------------------

  /** How often a complete walk asks: once a directory that it enters, and once before each child. */
  function Asks(c: Node): nat
    decreases c, 0
  {
    match c
    case File(_, _, _, _) => 0
    case Broken(_) => 0
    case Dir(_, mount, readable, children, _) => if mount then 0 else if !readable then 1 else 1 + AllAsks(children)
  }

  function AllAsks(children: seq<Node>): nat
    decreases children, 0
  {
    if children == [] then 0 else 1 + Asks(children[0]) + AllAsks(children[1..])
  }

  /** What is left of the budget after so many questions. */
  function Left(budget: nat, asks: nat): nat {
    if budget > asks then budget - asks else 0
  }

  lemma {:induction false} ChildAsks(c: Node, parent: Path, budget: nat)
    requires budget > 0
    ensures InventoryOfChild(c, parent, budget).budget == Left(budget, Asks(c))
    decreases c, 0
  {
    hide InventoryOf, AllAsks;
    if c.Dir? && !c.mount {
      ScanAsks(c.readable, c.children, parent + [c.name], budget);
    }
  }

  lemma {:induction false} ChildrenAsk(children: seq<Node>, path: Path, budget: nat)
    ensures InventoryOfChildren(children, path, budget).budget == Left(budget, AllAsks(children))
    decreases children, 0
  {
    hide InventoryOfChild, Asks;
    if children != [] && budget > 0 {
      var first := InventoryOfChild(children[0], path, budget - 1);
      if budget > 1 {
        ChildAsks(children[0], path, budget - 1);
      } else {
        ChildBudgetShrinks(children[0], path, budget - 1);
      }
      ChildrenAsk(children[1..], path, first.budget);
    }
  }

  /** A walk uses up one unset answer a question, until there are none left: it is cancelled exactly if the event is set before its last question. */
  lemma {:induction false} ScanAsks(readable: bool, children: seq<Node>, path: Path, budget: nat)
    ensures InventoryOf(readable, children, path, budget).budget == Left(budget, if readable then 1 + AllAsks(children) else 1)
    decreases children, 1
  {
    hide InventoryOfChildren, AllAsks;
    if budget > 0 && readable {
      ChildrenAsk(children, path, budget - 1);
    }
  }

  // ----- counts of a scan that is cancelled -------------------------------------------

  function MountItems(items: seq<Item>): nat {
    if |items| == 0 then 0 else MountItems(items[1..]) + if items[0].kind == IsMount then 1 else 0
  }

  lemma {:induction false} MountItemsJoin(a: seq<Item>, b: seq<Item>)
    ensures MountItems(a + b) == MountItems(a) + MountItems(b)
  {
    if |a| == 0 {
      assert a + b == b;
    } else {
      MountItemsJoin(a[1..], b);
      TailAppend(a, b);
    }
  }

  /** Wherever a scan stops: every listed mount is counted, and no more bytes or faults than there are. */
  predicate CountsWithin(found: Found, bytes: nat, faults: nat) {
    found.mounts == MountItems(found.items) && found.total <= bytes && found.errors <= faults
  }

  lemma {:induction false} ChildWithin(c: Node, parent: Path, budget: nat)
    ensures CountsWithin(InventoryOfChild(c, parent, budget), Bytes(c), Faults(c))
    decreases c, 0
  {
    hide InventoryOf, AllBytes, AllFaults;
    if c.Dir? && !c.mount {
      ScanWithin(c.readable, c.children, parent + [c.name], budget);
      var sub := InventoryOf(c.readable, c.children, parent + [c.name], budget);
      MountItemsJoin([DirItem(c, parent, sub.total)], sub.items);
      OneItem(DirItem(c, parent, sub.total));
    } else if c.Dir? {
      OneItem(DirItem(c, parent, 0));
    } else if c.File? {
      OneItem(FileItem(c, parent));
    }
  }

  lemma OneItem(item: Item)
    ensures MountItems([item]) == if item.kind == IsMount then 1 else 0
  {
    assert MountItems([item][1..]) == 0;
  }

  lemma {:induction false} ChildrenWithin(children: seq<Node>, path: Path, budget: nat)
    ensures CountsWithin(InventoryOfChildren(children, path, budget), AllBytes(children), AllFaults(children))
    decreases children, 0
  {
    hide InventoryOfChild, Bytes, Faults;
    if children != [] && budget > 0 {
      var first := InventoryOfChild(children[0], path, budget - 1);
      ChildWithin(children[0], path, budget - 1);
      ChildrenWithin(children[1..], path, first.budget);
      MountItemsJoin(first.items, InventoryOfChildren(children[1..], path, first.budget).items);
    }
  }

  lemma {:induction false} ScanWithin(readable: bool, children: seq<Node>, path: Path, budget: nat)
    ensures CountsWithin(InventoryOf(readable, children, path, budget), if readable then AllBytes(children) else 0,
                         if readable then AllFaults(children) else if budget > 0 then 1 else 0)
    decreases children, 1
  {
    hide InventoryOfChildren, AllBytes, AllFaults;
    if budget > 0 && readable {
      ChildrenWithin(children, path, budget - 1);
    }
  }

  // ----- items ------------------------------------------------------------------------

  /** An item as its node is; `whole` when the scan was not cancelled. */
  predicate IsOfNode(item: Item, c: Node, whole: bool) {
    && (whole ==> item.size == Bytes(c))
    && match c
       case Broken(_) => false
       case File(_, size, symlink, modified) =>
         item.kind == (if symlink then IsSymlink else IsFile) && item.size == size && item.modified == modified
       case Dir(_, mount, _, _, modified) =>
         item.kind == (if mount then IsMount else IsDirectory) && item.modified == modified
  }

  predicate InTree(item: Item, children: seq<Node>, base: Path, whole: bool) {
    && AtOrBelow(item.path, base)
    && NodeAt(children, item.path[|base|..]).Some?
    && IsOfNode(item, NodeAt(children, item.path[|base|..]).value, whole)
  }

  predicate AllInTree(items: seq<Item>, children: seq<Node>, base: Path, whole: bool) {
    forall i :: 0 <= i < |items| ==> InTree(items[i], children, base, whole)
  }

  lemma InTreeJoin(a: seq<Item>, b: seq<Item>, children: seq<Node>, base: Path, whole: bool)
    requires AllInTree(a, children, base, whole) && AllInTree(b, children, base, whole)
    ensures AllInTree(a + b, children, base, whole)
  {
    hide InTree;
  }

  lemma ItselfInTree(item: Item, c: Node, all: seq<Node>, base: Path, whole: bool)
    requires Named(all, c.name) == Some(c) && item.path == base + [c.name] && IsOfNode(item, c, whole)
    ensures InTree(item, all, base, whole)
  {
    assert item.path[|base|..] == [c.name] && item.path[..|base|] == base;
  }

  /** Found below a directory, found below the directory's parent. */
  lemma DeeperInTree(item: Item, c: Node, all: seq<Node>, base: Path, whole: bool)
    requires c.Dir? && Named(all, c.name) == Some(c) && InTree(item, c.children, base + [c.name], whole)
    ensures InTree(item, all, base, whole)
  {
    hide IsOfNode;
    var path, inner := item.path, base + [c.name];
    assert path[..|base|] == path[..|inner|][..|base|] == base;
    assert path[|base|] == path[..|inner|][|base|] == c.name;
    assert path[|base|..][1..] == path[|inner|..];
  }

  lemma {:induction false} ChildInTree(c: Node, all: seq<Node>, parent: Path, budget: nat, whole: bool)
    requires Named(all, c.name) == Some(c) && WellNamed(c)
    requires whole ==> InventoryOfChild(c, parent, budget).budget > 0
    ensures AllInTree(InventoryOfChild(c, parent, budget).items, all, parent, whole)
    decreases c, 0
  {
    hide InTree, NodeAt, Named, DistinctNames;
    match c {
      case Broken(_) =>
      case File(_, _, _, _) => ItselfInTree(FileItem(c, parent), c, all, parent, whole);
      case Dir(name, mount, readable, children, _) =>
        if mount {
          ItselfInTree(DirItem(c, parent, 0), c, all, parent, whole);
        } else {
          DirectoryInTree(c, all, parent, budget, whole);
        }
    }
  }

  lemma {:induction false} DirectoryInTree(c: Node, all: seq<Node>, parent: Path, budget: nat, whole: bool)
    requires c.Dir? && !c.mount && Named(all, c.name) == Some(c) && WellNamed(c)
    requires whole ==> InventoryOfChild(c, parent, budget).budget > 0
    ensures AllInTree(InventoryOfChild(c, parent, budget).items, all, parent, whole)
    decreases c.children, 2
  {
    hide InTree, NodeAt, Named, DistinctNames, InventoryOfChildren;
    var path := parent + [c.name];
    var sub := InventoryOf(c.readable, c.children, path, budget);
    var d := DirItem(c, parent, sub.total);
    ChildCounts(c, parent, budget);
    ItselfInTree(d, c, all, parent, whole);
    if budget > 0 && c.readable {
      ChildrenNamed(c.children);
      ChildrenInTree(c.children, c.children, path, budget - 1, whole);
    }
    forall i | 0 <= i < |sub.items| ensures InTree(sub.items[i], all, parent, whole) {
      DeeperInTree(sub.items[i], c, all, parent, whole);
    }
    InTreeJoin([d], sub.items, all, parent, whole);
  }

  /** Every one of these children is what its name finds. */
  predicate AreNamed(children: seq<Node>, all: seq<Node>) {
    forall i :: 0 <= i < |children| ==> Named(all, children[i].name) == Some(children[i]) && WellNamed(children[i])
  }

  lemma {:induction false} ChildrenNamed(children: seq<Node>)
    requires DistinctNames(children)
    ensures AreNamed(children, children)
  {
    if children != [] {
      var rest := children[1..];
      assert forall i :: 0 <= i < |rest| ==> rest[i] == children[i + 1];
      ChildrenNamed(rest);
      forall i | 0 <= i < |children| ensures Named(children, children[i].name) == Some(children[i]) && WellNamed(children[i]) {
        if i > 0 {
          assert children[0].name != children[i].name;
          assert Named(rest, rest[i - 1].name) == Some(rest[i - 1]);
        }
      }
    }
  }

  lemma {:induction false} ChildrenInTree(children: seq<Node>, all: seq<Node>, path: Path, budget: nat, whole: bool)
    requires AreNamed(children, all)
    requires whole ==> InventoryOfChildren(children, path, budget).budget > 0
    ensures AllInTree(InventoryOfChildren(children, path, budget).items, all, path, whole)
    decreases children, 0
  {
    hide InTree, Named, WellNamed, InventoryOfChild;
    if children != [] && budget > 0 {
      var first := InventoryOfChild(children[0], path, budget - 1);
      BudgetShrinks(children[1..], path, first.budget);
      ChildInTree(children[0], all, path, budget - 1, whole);
      ChildrenInTree(children[1..], all, path, first.budget, whole);
      InTreeJoin(first.items, InventoryOfChildren(children[1..], path, first.budget).items, all, path, whole);
    }
  }

  /**
   Every listed item, wherever the scan was cancelled, is at a node of the tree, with
   that node's kind, modification time and, for a file, size; in a scan that was not
   cancelled a directory's size is all bytes that can be read below it.
   */
  lemma ScanInTree(readable: bool, children: seq<Node>, path: Path, budget: nat)
    requires DistinctNames(children)
    ensures var found := InventoryOf(readable, children, path, budget);
            AllInTree(found.items, children, path, found.budget > 0)
  {
    hide InTree, InventoryOfChildren, DistinctNames;
    if budget > 0 && readable {
      ChildrenNamed(children);
      ChildrenInTree(children, children, path, budget - 1, InventoryOf(readable, children, path, budget).budget > 0);
    }
  }
}
