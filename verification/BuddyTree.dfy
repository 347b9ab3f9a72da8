/** The parent-linked binary search tree of sw_buddy.c.  Live blocks hang below the sentinel
    alloc_tree, the free blocks of each bin hang below free_area[bin] as a tree that has no left
    children, i.e. a sorted chain threaded through rchild.

    Heap shapes are described by ghost values: Tree is the shape below a node, Path is what
    surrounds a subtree.  Linked and LinkedPath tie those values to the pointers. */
module BuddyTree {

  /** struct sw_area */
  class Area {
    var parent: Area?
    var lchild: Area?
    var rchild: Area?
    var memAddr: nat
    var blockSize: nat
    var bin: nat
    var cnt: nat

    constructor ()
      ensures parent == lchild == rchild == null
      ensures memAddr == blockSize == bin == cnt == 0
    {
      parent, lchild, rchild := null, null, null;
      memAddr, blockSize, bin, cnt := 0, 0, 0, 0;
    }
  }

  datatype Tree = Nil | Node(left: Tree, area: Area, key: nat, right: Tree)

  /** The surroundings of a subtree, from the inside out. */
  datatype Path =
    | Top
    | InLeft(up: Path, area: Area, key: nat, right: Tree)
    | InRight(up: Path, left: Tree, area: Area, key: nat)

  ghost function Areas(t: Tree): set<Area> {
    match t
    case Nil => {}
    case Node(l, a, _, r) => Areas(l) + {a} + Areas(r)
  }

  ghost function Keys(t: Tree): set<nat> {
    match t
    case Nil => {}
    case Node(l, _, k, r) => Keys(l) + {k} + Keys(r)
  }

  /** Search order, and no node occurs twice. */
  ghost predicate Wf(t: Tree) {
    match t
    case Nil => true
    case Node(l, a, k, r) =>
      && Wf(l) && Wf(r)
      && (forall x :: x in Keys(l) ==> x < k)
      && (forall x :: x in Keys(r) ==> k < x)
      && a !in Areas(l) && a !in Areas(r) && Areas(l) !! Areas(r)
  }

  /** No left children: the shape of a free list. */
  ghost predicate IsChain(t: Tree) {
    t.Node? ==> t.left.Nil? && IsChain(t.right)
  }

  ghost function PathAreas(p: Path): set<Area> {
    match p
    case Top => {}
    case InLeft(up, a, _, r) => PathAreas(up) + {a} + Areas(r)
    case InRight(up, l, a, _) => PathAreas(up) + {a} + Areas(l)
  }

  ghost function PathKeys(p: Path): set<nat> {
    match p
    case Top => {}
    case InLeft(up, _, k, r) => PathKeys(up) + {k} + Keys(r)
    case InRight(up, l, _, k) => PathKeys(up) + {k} + Keys(l)
  }

  ghost function Plug(p: Path, t: Tree): Tree {
    match p
    case Top => t
    case InLeft(up, a, k, r) => Plug(up, Node(t, a, k, r))
    case InRight(up, l, a, k) => Plug(up, Node(l, a, k, t))
  }

  ghost predicate LeftSpine(p: Path) {
    p == Top || (p.InLeft? && LeftSpine(p.up))
  }

  ghost predicate RightSpine(p: Path) {
    p == Top || (p.InRight? && RightSpine(p.up))
  }

  /** A well-formed tree with keys ks and nodes as may stand in the hole of p. */
  ghost predicate Fits(p: Path, ks: set<nat>, others: set<Area>) {
    match p
    case Top => true
    case InLeft(up, a, k, r) =>
      && Wf(r)
      && (forall x :: x in ks ==> x < k)
      && (forall x :: x in Keys(r) ==> k < x)
      && a !in others && a !in Areas(r) && others !! Areas(r)
      && Fits(up, ks + {k} + Keys(r), others + {a} + Areas(r))
    case InRight(up, l, a, k) =>
      && Wf(l)
      && (forall x :: x in ks ==> k < x)
      && (forall x :: x in Keys(l) ==> x < k)
      && a !in others && a !in Areas(l) && others !! Areas(l)
      && Fits(up, ks + {k} + Keys(l), others + {a} + Areas(l))
  }

  lemma {:induction false} PlugContents(p: Path, t: Tree)
    ensures Areas(Plug(p, t)) == PathAreas(p) + Areas(t)
    ensures Keys(Plug(p, t)) == PathKeys(p) + Keys(t)
  {
    match p
    case Top =>
    case InLeft(up, a, k, r) => PlugContents(up, Node(t, a, k, r));
    case InRight(up, l, a, k) => PlugContents(up, Node(l, a, k, t));
  }

  /** A tree is well formed exactly when the subtree is and it fits its surroundings. */
  lemma {:induction false} PlugWf(p: Path, t: Tree)
    ensures Wf(Plug(p, t)) <==> Wf(t) && Fits(p, Keys(t), Areas(t))
  {
    match p
    case Top =>
    case InLeft(up, a, k, r) =>
      PlugWf(up, Node(t, a, k, r));
      assert Areas(Node(t, a, k, r)) == Areas(t) + {a} + Areas(r);
    case InRight(up, l, a, k) =>
      PlugWf(up, Node(l, a, k, t));
      assert Areas(Node(l, a, k, t)) == Areas(t) + {a} + Areas(l);
      assert Keys(Node(l, a, k, t)) == Keys(t) + {k} + Keys(l);
  }

  lemma {:induction false} FitsSmaller(p: Path, ks: set<nat>, others: set<Area>, ks': set<nat>, as': set<Area>)
    requires Fits(p, ks, others) && ks' <= ks && as' <= others
    ensures Fits(p, ks', as')
  {
    match p
    case Top =>
    case InLeft(up, a, k, r) =>
      FitsSmaller(up, ks + {k} + Keys(r), others + {a} + Areas(r), ks' + {k} + Keys(r), as' + {a} + Areas(r));
    case InRight(up, l, a, k) =>
      FitsSmaller(up, ks + {k} + Keys(l), others + {a} + Areas(l), ks' + {k} + Keys(l), as' + {a} + Areas(l));
  }

  lemma {:induction false} FitsDisjoint(p: Path, ks: set<nat>, others: set<Area>)
    requires Fits(p, ks, others)
    ensures PathKeys(p) !! ks && PathAreas(p) !! others
  {
    match p
    case Top =>
    case InLeft(up, a, k, r) => FitsDisjoint(up, ks + {k} + Keys(r), others + {a} + Areas(r));
    case InRight(up, l, a, k) => FitsDisjoint(up, ks + {k} + Keys(l), others + {a} + Areas(l));
  }

  /** p points to the root of a heap tree of shape t whose parent link is par. */
  ghost predicate Linked(t: Tree, p: Area?, par: Area?)
    reads Areas(t)
  {
    match t
    case Nil => p == null
    case Node(l, a, k, r) =>
      && p == a && a.parent == par && a.memAddr == k
      && Linked(l, a.lchild, a)
      && Linked(r, a.rchild, a)
  }

  /** The nodes of p form the surroundings, below root, of a subtree that is reached through the
      pointer hole and has the parent par. */
  ghost predicate LinkedPath(p: Path, hole: Area?, par: Area?, root: Area?, rootPar: Area?)
    reads PathAreas(p)
  {
    match p
    case Top => hole == root && par == rootPar
    case InLeft(up, a, k, r) =>
      && par == a && a.lchild == hole && a.memAddr == k
      && Linked(r, a.rchild, a)
      && LinkedPath(up, a, a.parent, root, rootPar)
    case InRight(up, l, a, k) =>
      && par == a && a.rchild == hole && a.memAddr == k
      && Linked(l, a.lchild, a)
      && LinkedPath(up, a, a.parent, root, rootPar)
  }

  lemma LinkedRoot(t: Tree, p: Area?, par: Area?)
    requires Linked(t, p, par)
    ensures p == null <==> t == Nil
    ensures p != null ==> t.area == p && p in Areas(t) && p.parent == par && p.memAddr == t.key
  {
  }

  lemma LinkedStep(l: Tree, a: Area, r: Tree, par: Area?)
    ensures Linked(Node(l, a, a.memAddr, r), a, par) <==>
      a.parent == par && Linked(l, a.lchild, a) && Linked(r, a.rchild, a)
  {
  }

  lemma LinkedNil()
    ensures forall par :: Linked(Nil, null, par)
  {
  }

  /** One step of LinkedPath, in both directions. */
  lemma LinkedPathStep(p: Path, hole: Area?, par: Area?, root: Area?, rootPar: Area?)
    requires p != Top
    ensures LinkedPath(p, hole, par, root, rootPar) <==>
      && par == p.area && p.area.memAddr == p.key
      && LinkedPath(p.up, p.area, p.area.parent, root, rootPar)
      && (p.InLeft? ==> p.area.lchild == hole && Linked(p.right, p.area.rchild, p.area))
      && (p.InRight? ==> p.area.rchild == hole && Linked(p.left, p.area.lchild, p.area))
  {
  }

  lemma {:induction false} PlugLinked(p: Path, t: Tree, hole: Area?, par: Area?, root: Area?, rootPar: Area?)
    requires LinkedPath(p, hole, par, root, rootPar)
    requires Linked(t, hole, par)
    ensures Linked(Plug(p, t), root, rootPar)
  {
    match p
    case Top =>
    case InLeft(up, a, k, r) => PlugLinked(up, Node(t, a, k, r), a, a.parent, root, rootPar);
    case InRight(up, l, a, k) => PlugLinked(up, Node(l, a, k, t), a, a.parent, root, rootPar);
  }

  lemma {:induction false} KeysAreAddresses(t: Tree, p: Area?, par: Area?)
    requires Linked(t, p, par)
    ensures Keys(t) == set a | a in Areas(t) :: a.memAddr
  {
    match t
    case Nil =>
    case Node(l, a, k, r) =>
      KeysAreAddresses(l, a.lchild, a);
      KeysAreAddresses(r, a.rchild, a);
  }

  lemma {:induction false} AddressesDiffer(t: Tree, p: Area?, par: Area?)
    requires Linked(t, p, par) && Wf(t)
    ensures forall a, b :: a in Areas(t) && b in Areas(t) && a.memAddr == b.memAddr ==> a == b
  {
    match t
    case Nil =>
    case Node(l, a, k, r) =>
      AddressesDiffer(l, a.lchild, a);
      AddressesDiffer(r, a.rchild, a);
      KeysAreAddresses(l, a.lchild, a);
      KeysAreAddresses(r, a.rchild, a);
      forall x, y | x in Areas(t) && y in Areas(t) && x.memAddr == y.memAddr
        ensures x == y
      {
        assert x in Areas(l) ==> x.memAddr in Keys(l);
        assert y in Areas(l) ==> y.memAddr in Keys(l);
        assert x in Areas(r) ==> x.memAddr in Keys(r);
        assert y in Areas(r) ==> y.memAddr in Keys(r);
      }
  }

  /** Putting a subtree sub into the surroundings p gives a linked, well-formed tree again. */
  lemma Rebuild(p: Path, sub: Tree, hole: Area?, par: Area?, root: Area, ks: set<nat>, others: set<Area>)
    requires LinkedPath(p, hole, par, root, null) && Linked(sub, hole, par)
    requires Wf(sub) && Fits(p, ks, others) && Keys(sub) <= ks && Areas(sub) <= others
    ensures Linked(Plug(p, sub), root, null) && Wf(Plug(p, sub))
    ensures Areas(Plug(p, sub)) == PathAreas(p) + Areas(sub)
    ensures Keys(Plug(p, sub)) == PathKeys(p) + Keys(sub)
  {
    hide LinkedPath;
    PlugLinked(p, sub, hole, par, root, null);
    FitsSmaller(p, ks, others, Keys(sub), Areas(sub));
    PlugWf(p, sub);
    PlugContents(p, sub);
  }

  /** The left subtree of a node, together with ks and others, fits below that node. */
  lemma StepLeft(p: Path, s: Tree, ks: set<nat>, others: set<Area>)
    requires s.Node? && Wf(s) && Fits(p, Keys(s) + ks, Areas(s) + others)
    requires (forall x :: x in ks ==> x < s.key) && others !! Areas(s)
    ensures Fits(InLeft(p, s.area, s.key, s.right), Keys(s.left) + ks, Areas(s.left) + others)
  {
    assert Keys(s.left) + ks + {s.key} + Keys(s.right) == Keys(s) + ks;
    assert Areas(s.left) + others + {s.area} + Areas(s.right) == Areas(s) + others;
  }

  lemma StepRight(p: Path, s: Tree, ks: set<nat>, others: set<Area>)
    requires s.Node? && Wf(s) && Fits(p, Keys(s) + ks, Areas(s) + others)
    requires (forall x :: x in ks ==> s.key < x) && others !! Areas(s)
    ensures Fits(InRight(p, s.left, s.area, s.key), Keys(s.right) + ks, Areas(s.right) + others)
  {
    assert Keys(s.right) + ks + {s.key} + Keys(s.left) == Keys(s) + ks;
    assert Areas(s.right) + others + {s.area} + Areas(s.left) == Areas(s) + others;
  }

  /** search_btree_node: the node at address data, or NULL if there is none. */
  method SearchBtreeNode(parent: Area, data: nat, ghost t: Tree) returns (found: Area?)
    requires Linked(t, parent, null) && Wf(t)
    ensures found != null ==> found in Areas(t) && found.memAddr == data
    ensures found == null ==> data !in Keys(t)
  {
    ghost var p, s, par: Area? := Top, t, null;
    var node: Area? := parent;
    while node != null
      invariant Plug(p, s) == t
      invariant Linked(s, node, par)
      invariant Wf(s) && Fits(p, Keys(s) + {data}, Areas(s) + {})
      decreases s
    {
      if node.memAddr == data {
        PlugContents(p, s);
        return node;
      } else if data < node.memAddr {
        StepLeft(p, s, {data}, {});
        p, s, par, node := InLeft(p, s.area, s.key, s.right), s.left, node, node.lchild;
      } else {
        StepRight(p, s, {data}, {});
        p, s, par, node := InRight(p, s.left, s.area, s.key), s.right, node, node.rchild;
      }
    }
    FitsDisjoint(p, Keys(s) + {data}, Areas(s) + {});
    PlugContents(p, s);
    return null;
  }

  ghost predicate Detached(a: Area)
    reads a
  {
    a.parent == a.lchild == a.rchild == null
  }

  lemma Leaf(a: Area, k: nat)
    ensures Wf(Node(Nil, a, k, Nil)) && Areas(Node(Nil, a, k, Nil)) == {a} && Keys(Node(Nil, a, k, Nil)) == {k}
  {
  }

  lemma LeafLeft(s: Tree, a: Area, k: nat)
    requires s.Node? && s.left == Nil && Wf(s) && a !in Areas(s) && k < s.key
    ensures var sub := Node(Node(Nil, a, k, Nil), s.area, s.key, s.right);
            Wf(sub) && Keys(sub) == Keys(s) + {k} && Areas(sub) == Areas(s) + {a}
  {
    Leaf(a, k);
    assert Areas(Nil) == {} && Keys(Nil) == {};
  }

  lemma LeafRight(s: Tree, a: Area, k: nat)
    requires s.Node? && s.right == Nil && Wf(s) && a !in Areas(s) && s.key < k
    ensures var sub := Node(s.left, s.area, s.key, Node(Nil, a, k, Nil));
            Wf(sub) && Keys(sub) == Keys(s) + {k} && Areas(sub) == Areas(s) + {a}
  {
    Leaf(a, k);
    assert Areas(Nil) == {} && Keys(Nil) == {};
  }

  /** The leaf step to the left of add_btree_node. */
  method AttachLeft(parent: Area, newNode: Area, ghost s: Tree) returns (ghost sub: Tree)
    requires s.Node? && Linked(s, parent, parent.parent) && Wf(s)
    requires parent.lchild == null && Detached(newNode) && newNode !in Areas(s) && newNode.memAddr < s.key
    modifies parent`lchild, newNode`parent
    ensures Linked(sub, parent, parent.parent) && Wf(sub)
    ensures sub == Node(Node(Nil, newNode, newNode.memAddr, Nil), s.area, s.key, s.right)
    ensures Keys(sub) == Keys(s) + {newNode.memAddr} && Areas(sub) == Areas(s) + {newNode}
  {
    sub := Node(Node(Nil, newNode, newNode.memAddr, Nil), parent, parent.memAddr, s.right);
    assert s.left == Nil;
    LeafLeft(s, newNode, newNode.memAddr);
    hide Wf, Keys;
    parent.lchild := newNode;
    newNode.parent := parent;
    assert Linked(s.right, parent.rchild, parent);
    assert Linked(sub.left, newNode, parent);
  }

  /** The leaf step to the right of add_btree_node and add_sorted_btree_node. */
  method AttachRight(parent: Area, newNode: Area, ghost s: Tree) returns (ghost sub: Tree)
    requires s.Node? && Linked(s, parent, parent.parent) && Wf(s)
    requires parent.rchild == null && Detached(newNode) && newNode !in Areas(s) && s.key < newNode.memAddr
    modifies parent`rchild, newNode`parent
    ensures Linked(sub, parent, parent.parent) && Wf(sub)
    ensures sub == Node(s.left, s.area, s.key, Node(Nil, newNode, newNode.memAddr, Nil))
    ensures Keys(sub) == Keys(s) + {newNode.memAddr} && Areas(sub) == Areas(s) + {newNode}
  {
    sub := Node(s.left, parent, parent.memAddr, Node(Nil, newNode, newNode.memAddr, Nil));
    assert s.right == Nil;
    LeafRight(s, newNode, newNode.memAddr);
    hide Wf, Keys;
    parent.rchild := newNode;
    newNode.parent := parent;
    assert Linked(s.left, parent.lchild, parent);
    assert Linked(sub.right, newNode, parent);
  }

  lemma KeyAbsent(p: Path, s: Tree, key: nat, extra: set<Area>)
    requires s.Node? && Wf(s) && Fits(p, Keys(s) + {key}, Areas(s) + extra)
    requires (key < s.key && s.left == Nil) || (s.key < key && s.right == Nil)
    ensures key !in Keys(Plug(p, s))
  {
    PlugContents(p, s);
    FitsDisjoint(p, Keys(s) + {key}, Areas(s) + extra);
  }

  /** The descent of add_btree_node: the node at key, or the node below which key belongs. */
  method FindSlot(root: Area, key: nat, ghost t: Tree, ghost extra: set<Area>)
    returns (parent: Area, ghost p: Path, ghost s: Tree)
    requires Linked(t, root, null) && Wf(t) && extra !! Areas(t)
    ensures s.Node? && Plug(p, s) == t && Wf(s)
    ensures Linked(s, parent, parent.parent) && LinkedPath(p, parent, parent.parent, root, null)
    ensures Fits(p, Keys(s) + {key}, Areas(s) + extra) && extra !! Areas(s)
    ensures key == s.key || (key !in Keys(t) && parent.memAddr != key)
    ensures key < s.key ==> parent.lchild == null
    ensures s.key < key ==> parent.rchild == null
  {
    parent := root;
    p, s := Top, t;
    while key != parent.memAddr
      invariant s.Node? && Plug(p, s) == t
      invariant Linked(s, parent, parent.parent) && LinkedPath(p, parent, parent.parent, root, null)
      invariant Wf(s) && Fits(p, Keys(s) + {key}, Areas(s) + extra) && extra !! Areas(s)
      decreases s
    {
      if key < parent.memAddr {
        if parent.lchild == null {
          KeyAbsent(p, s, key, extra);
          return;
        }
        StepLeft(p, s, {key}, extra);
        p, s, parent := InLeft(p, s.area, s.key, s.right), s.left, parent.lchild;
      } else {
        if parent.rchild == null {
          KeyAbsent(p, s, key, extra);
          return;
        }
        StepRight(p, s, {key}, extra);
        p, s, parent := InRight(p, s.left, s.area, s.key), s.right, parent.rchild;
      }
    }
  }

  /** add_btree_node: newNode enters the tree unless its address is there already. */
  method AddBtreeNode(root: Area, newNode: Area, ghost t: Tree, ghost others: set<Area>) returns (ghost t': Tree)
    requires Linked(t, root, null) && Wf(t) && others == Areas(t)
    requires newNode !in Areas(t) && Detached(newNode)
    modifies others`parent, others`lchild, others`rchild, newNode`parent, newNode`rchild
    ensures Linked(t', root, null) && Wf(t')
    ensures newNode.memAddr !in Keys(t) ==> Areas(t') == Areas(t) + {newNode}
    ensures newNode.memAddr in Keys(t) ==> t' == t && Detached(newNode)
  {
    hide Linked, LinkedPath, Wf, Fits, Plug, Areas, Keys, PathAreas, PathKeys;
    var parent;
    ghost var p, s;
    parent, p, s := FindSlot(root, newNode.memAddr, t, {newNode});
    ghost var ks, areas, sub := Keys(s) + {newNode.memAddr}, Areas(s) + {newNode}, s;
    PlugContents(p, s);
    FitsDisjoint(p, ks, areas);
    LinkedNode(s, parent, parent.parent);
    AreaInTree(s);
    if newNode.memAddr < parent.memAddr {
      sub := AttachLeft(parent, newNode, s);
    } else if parent.memAddr < newNode.memAddr {
      sub := AttachRight(parent, newNode, s);
    }
    assert PathAreas(p) !! areas;
    assert LinkedPath(p, parent, parent.parent, root, null);
    Rebuild(p, sub, parent, parent.parent, root, ks, areas);
    t' := Plug(p, sub);
  }

  /** The descent of add_sorted_btree_node on a free list: the last node before key. */
  method FindSortedSlot(root: Area, key: nat, ghost t: Tree, ghost newNode: Area)
    returns (parent: Area, ghost p: Path, ghost s: Tree)
    requires Linked(t, root, null) && Wf(t) && IsChain(t) && newNode !in Areas(t)
    requires root.memAddr < key && key !in Keys(t)
    ensures s.Node? && Plug(p, s) == t && Wf(s) && IsChain(s)
    ensures Linked(s, parent, parent.parent) && LinkedPath(p, parent, parent.parent, root, null)
    ensures Fits(p, Keys(s) + {key}, Areas(s) + {newNode}) && newNode !in Areas(s)
    ensures s.key < key && (parent.rchild != null ==> key < parent.rchild.memAddr)
  {
    parent := root;
    p, s := Top, t;
    PlugContents(p, s);
    while parent.rchild != null && parent.rchild.memAddr <= key
      invariant s.Node? && Plug(p, s) == t && IsChain(s) && s.key < key && Keys(s) <= Keys(t)
      invariant Linked(s, parent, parent.parent) && LinkedPath(p, parent, parent.parent, root, null)
      invariant Wf(s) && Fits(p, Keys(s) + {key}, Areas(s) + {newNode}) && newNode !in Areas(s)
      decreases s
    {
      StepRight(p, s, {key}, {newNode});
      assert s.right.key in Keys(s);
      p, s, parent := InRight(p, s.left, s.area, s.key), s.right, parent.rchild;
    }
    if parent.rchild != null {
      assert s.right.key in Keys(s);
    }
  }

  /** add_sorted_btree_node on a free list: newNode enters the chain at its place. */
  method AddSortedBtreeNode(root: Area, newNode: Area, ghost t: Tree, ghost others: set<Area>) returns (ghost t': Tree)
    requires Linked(t, root, null) && Wf(t) && IsChain(t) && others == Areas(t)
    requires newNode !in Areas(t) && Detached(newNode)
    requires root.memAddr < newNode.memAddr && newNode.memAddr !in Keys(t)
    modifies others`parent, others`lchild, others`rchild, newNode`parent, newNode`rchild
    ensures Linked(t', root, null) && Wf(t') && IsChain(t')
    ensures Areas(t') == Areas(t) + {newNode}
  {
    hide Linked, LinkedPath, Wf, Fits, Plug, Areas, Keys, PathAreas, PathKeys;
    var parent;
    ghost var p, s;
    parent, p, s := FindSortedSlot(root, newNode.memAddr, t, newNode);
    ghost var ks, areas, sub := Keys(s) + {newNode.memAddr}, Areas(s) + {newNode}, s;
    PlugContents(p, s);
    FitsDisjoint(p, ks, areas);
    LinkedNode(s, parent, parent.parent);
    AreaInTree(s);
    LinkedRoot(s.right, parent.rchild, parent);
    WfNode(s);
    if parent.rchild != null {
      sub := InsertBetween(parent, newNode, s);
    } else {
      sub := AttachRight(parent, newNode, s);
    }
    assert PathAreas(p) !! areas;
    assert LinkedPath(p, parent, parent.parent, root, null);
    Rebuild(p, sub, parent, parent.parent, root, ks, areas);
    assert IsChain(s.right) && IsChain(sub);
    ChainPlug(p, s, sub);
    t' := Plug(p, sub);
  }

  lemma {:induction false} ChainPlug(p: Path, s: Tree, s': Tree)
    requires IsChain(Plug(p, s)) && s.Node?
    ensures IsChain(s) && (IsChain(s') ==> IsChain(Plug(p, s')))
  {
    match p
    case Top =>
    case InLeft(up, a, k, r) => ChainPlug(up, Node(s, a, k, r), Node(s', a, k, r));
    case InRight(up, l, a, k) => ChainPlug(up, Node(l, a, k, s), Node(l, a, k, s'));
  }

  /** The inner insertion step of add_sorted_btree_node, between parent and its right child. */
  method InsertBetween(parent: Area, newNode: Area, ghost s: Tree) returns (ghost sub: Tree)
    requires s.Node? && Linked(s, parent, parent.parent) && Wf(s) && IsChain(s)
    requires parent.rchild != null && Detached(newNode) && newNode !in Areas(s)
    requires s.key < newNode.memAddr < parent.rchild.memAddr
    modifies parent`rchild, parent.rchild`parent, newNode`parent, newNode`rchild
    ensures Linked(sub, parent, parent.parent) && Wf(sub)
    ensures sub == Node(Nil, s.area, s.key, Node(Nil, newNode, newNode.memAddr, s.right))
    ensures Keys(sub) == Keys(s) + {newNode.memAddr} && Areas(sub) == Areas(s) + {newNode}
  {
    sub := Node(Nil, parent, parent.memAddr, Node(Nil, newNode, newNode.memAddr, s.right));
    InsertedWf(s, newNode, newNode.memAddr);
    newNode.parent := parent;
    newNode.rchild := parent.rchild;
    assert Linked(s.right, parent.rchild, parent);
    SetParent(parent.rchild, newNode, s.right);
    parent.rchild := newNode;
    assert Linked(s.right, newNode.rchild, newNode);
  }

  lemma InsertedWf(s: Tree, newNode: Area, key: nat)
    requires IsChain(s) && s.Node? && s.right.Node? && Wf(s) && newNode !in Areas(s) && s.key < key < s.right.key
    ensures var sub := Node(Nil, s.area, s.key, Node(Nil, newNode, key, s.right));
            Wf(sub) && Keys(sub) == Keys(s) + {key} && Areas(sub) == Areas(s) + {newNode}
  {
    ChainKeys(s.right);
  }

  /** Hanging the tree t, rooted at node, below another parent. */
  method SetParent(node: Area, par: Area?, ghost t: Tree)
    requires Linked(t, node, node.parent) && Wf(t)
    modifies node`parent
    ensures Linked(t, node, par) && node.parent == par
  {
    node.parent := par;
  }

  /** The first key of a chain is its least. */
  lemma {:induction false} ChainKeys(t: Tree)
    requires t.Node? && IsChain(t) && Wf(t)
    ensures forall x :: x in Keys(t) ==> t.key <= x
  {
  }

  /** get_min_node, with the path from node to the minimum. */
  method GetMinNode(node: Area, ghost s: Tree)
    returns (m: Area, ghost p: Path, ghost r: Tree)
    requires s.Node? && Linked(s, node, node.parent)
    ensures s == Plug(p, Node(Nil, m, m.memAddr, r)) && LeftSpine(p)
    ensures if p == Top then m == node else node in PathAreas(p)
    ensures LinkedPath(p, m, m.parent, node, node.parent) && m.lchild == null && Linked(r, m.rchild, m)
  {
    m := node;
    p := Top;
    ghost var cur := s;
    while m.lchild != null
      invariant if p == Top then m == node else node in PathAreas(p)
      invariant cur.Node? && Plug(p, cur) == s && LeftSpine(p)
      invariant Linked(cur, m, m.parent) && LinkedPath(p, m, m.parent, node, node.parent)
      decreases cur
    {
      p, cur, m := InLeft(p, cur.area, cur.key, cur.right), cur.left, m.lchild;
    }
    r := cur.right;
  }

  /** get_max_node, with the path from node to the maximum. */
  method GetMaxNode(node: Area, ghost s: Tree)
    returns (m: Area, ghost p: Path, ghost l: Tree)
    requires s.Node? && Linked(s, node, node.parent)
    ensures s == Plug(p, Node(l, m, m.memAddr, Nil)) && RightSpine(p)
    ensures if p == Top then m == node else node in PathAreas(p)
    ensures LinkedPath(p, m, m.parent, node, node.parent) && m.rchild == null && Linked(l, m.lchild, m)
  {
    m := node;
    p := Top;
    ghost var cur := s;
    while m.rchild != null
      invariant if p == Top then m == node else node in PathAreas(p)
      invariant cur.Node? && Plug(p, cur) == s && RightSpine(p)
      invariant Linked(cur, m, m.parent) && LinkedPath(p, m, m.parent, node, node.parent)
      decreases cur
    {
      p, cur, m := InRight(p, cur.left, cur.area, cur.key), cur.right, m.rchild;
    }
    l := cur.left;
  }


  lemma PathDistinct(p: Path, ks: set<nat>, others: set<Area>)
    requires Fits(p, ks, others) && p != Top
    ensures p.area !in PathAreas(p.up) && p.area !in others
    ensures p.InLeft? ==> p.area !in Areas(p.right) && PathAreas(p.up) !! Areas(p.right)
    ensures p.InRight? ==> p.area !in Areas(p.left) && PathAreas(p.up) !! Areas(p.left)
    ensures PathAreas(p) !! others
  {
    FitsDisjoint(p, ks, others);
    if p.InLeft? {
      FitsDisjoint(p.up, ks + {p.key} + Keys(p.right), others + {p.area} + Areas(p.right));
    } else {
      FitsDisjoint(p.up, ks + {p.key} + Keys(p.left), others + {p.area} + Areas(p.left));
    }
  }

  /** The step repeated in every case of remove_btree_node: the child pointer of del's parent that
      leads to del now leads to sub. */
  method Relink(del: Area, sub: Area?, ghost p: Path, ghost root: Area, ghost ks: set<nat>, ghost others: set<Area>)
    requires p != Top && LinkedPath(p, del, del.parent, root, null)
    requires del in others && Fits(p, ks, others)
    modifies PathAreas(p)`lchild, PathAreas(p)`rchild
    ensures LinkedPath(p, sub, del.parent, root, null)
  {
    PathDistinct(p, ks, others);
    if del.parent.rchild == del {
      del.parent.rchild := sub;
    } else if del.parent.lchild == del {
      del.parent.lchild := sub;
    }
    hide Fits, Linked;
    if p.InLeft? {
      assert LinkedPath(p.up, del.parent, del.parent.parent, root, null);
    } else {
      assert LinkedPath(p.up, del.parent, del.parent.parent, root, null);
    }
  }

  lemma MinNode(c: Path, m: Area, mk: nat, r: Tree)
    requires Wf(Plug(c, Node(Nil, m, mk, r)))
    ensures var n := Node(Nil, m, mk, r);
            Wf(n) && Keys(n) == {mk} + Keys(r) && Areas(n) == {m} + Areas(r) && Fits(c, Keys(n), Areas(n))
    ensures Wf(r) && m !in Areas(r) && mk !in Keys(r) && forall x :: x in Keys(r) ==> mk < x
  {
    PlugWf(c, Node(Nil, m, mk, r));
  }

  /** Taking the minimum m out of a tree. */
  lemma RestOfMin(c: Path, m: Area, mk: nat, r: Tree)
    requires LeftSpine(c) && Wf(Plug(c, Node(Nil, m, mk, r)))
    ensures Wf(Plug(c, r)) && Wf(r) && m !in Areas(r)
    ensures m !in Areas(Plug(c, r)) && Areas(Plug(c, Node(Nil, m, mk, r))) == Areas(Plug(c, r)) + {m}
    ensures Keys(Plug(c, Node(Nil, m, mk, r))) == Keys(Plug(c, r)) + {mk}
    ensures forall x :: x in Keys(Plug(c, r)) ==> mk < x
    ensures Fits(c, {mk} + Keys(r), {m} + Areas(r))
  {
    hide *;
    var n := Node(Nil, m, mk, r);
    MinNode(c, m, mk, r);
    PlugContents(c, n);
    PlugContents(c, r);
    FitsSmaller(c, Keys(n), Areas(n), Keys(r), Areas(r));
    PlugWf(c, r);
    FitsDisjoint(c, Keys(n), Areas(n));
    LeftSpineAbove(c, Keys(n), Areas(n), mk);
  }

  lemma {:induction false} LeftSpineAbove(c: Path, ks: set<nat>, others: set<Area>, mk: nat)
    requires Fits(c, ks, others) && LeftSpine(c) && mk in ks
    ensures forall x :: x in PathKeys(c) ==> mk < x
  {
    if c.InLeft? {
      LeftSpineAbove(c.up, ks + {c.key} + Keys(c.right), others + {c.area} + Areas(c.right), mk);
    }
  }

  lemma MaxNode(c: Path, m: Area, mk: nat, l: Tree)
    requires Wf(Plug(c, Node(l, m, mk, Nil)))
    ensures var n := Node(l, m, mk, Nil);
            Wf(n) && Keys(n) == {mk} + Keys(l) && Areas(n) == {m} + Areas(l) && Fits(c, Keys(n), Areas(n))
    ensures Wf(l) && m !in Areas(l) && mk !in Keys(l) && forall x :: x in Keys(l) ==> x < mk
  {
    PlugWf(c, Node(l, m, mk, Nil));
  }

  /** Taking the maximum m out of a tree. */
  lemma RestOfMax(c: Path, m: Area, mk: nat, l: Tree)
    requires RightSpine(c) && Wf(Plug(c, Node(l, m, mk, Nil)))
    ensures Wf(Plug(c, l)) && Wf(l) && m !in Areas(l)
    ensures m !in Areas(Plug(c, l)) && Areas(Plug(c, Node(l, m, mk, Nil))) == Areas(Plug(c, l)) + {m}
    ensures Keys(Plug(c, Node(l, m, mk, Nil))) == Keys(Plug(c, l)) + {mk}
    ensures forall x :: x in Keys(Plug(c, l)) ==> x < mk
    ensures Fits(c, {mk} + Keys(l), {m} + Areas(l))
  {
    hide *;
    var n := Node(l, m, mk, Nil);
    MaxNode(c, m, mk, l);
    PlugContents(c, n);
    PlugContents(c, l);
    FitsSmaller(c, Keys(n), Areas(n), Keys(l), Areas(l));
    PlugWf(c, l);
    FitsDisjoint(c, Keys(n), Areas(n));
    RightSpineBelow(c, Keys(n), Areas(n), mk);
  }

  lemma {:induction false} RightSpineBelow(c: Path, ks: set<nat>, others: set<Area>, mk: nat)
    requires Fits(c, ks, others) && RightSpine(c) && mk in ks
    ensures forall x :: x in PathKeys(c) ==> x < mk
  {
    if c.InRight? {
      RightSpineBelow(c.up, ks + {c.key} + Keys(c.left), others + {c.area} + Areas(c.left), mk);
    }
  }

  /** The in-order successor m of a deleted node takes its place; rest is the right subtree
      without m. */
  lemma PromoteMinWf(s: Tree, m: Area, mk: nat, rest: Tree)
    requires s.Node? && Wf(s) && Wf(rest)
    requires Areas(s.right) == Areas(rest) + {m} && m !in Areas(rest)
    requires Keys(s.right) == Keys(rest) + {mk} && forall x :: x in Keys(rest) ==> mk < x
    ensures var sub := Node(s.left, m, mk, rest);
            Wf(sub) && Keys(sub) == Keys(s) - {s.key} && Areas(sub) == Areas(s) - {s.area}
  {
  }

  /** The in-order predecessor m of a deleted node takes its place; rest is the left subtree
      without m. */
  lemma PromoteMaxWf(s: Tree, m: Area, mk: nat, rest: Tree)
    requires s.Node? && Wf(s) && Wf(rest)
    requires Areas(s.left) == Areas(rest) + {m} && m !in Areas(rest)
    requires Keys(s.left) == Keys(rest) + {mk} && forall x :: x in Keys(rest) ==> x < mk
    ensures var sub := Node(rest, m, mk, s.right);
            Wf(sub) && Keys(sub) == Keys(s) - {s.key} && Areas(sub) == Areas(s) - {s.area}
  {
  }

  /** The deeper case of remove_btree_node: the minimum min leaves the tree below top.
      region is any set of nodes that holds that tree. */
  method UnhookMin(min: Area, ghost c: Path, ghost r: Tree, ghost top: Area?, ghost par: Area, ghost region: set<Area>)
    requires LeftSpine(c) && c != Top && Wf(Plug(c, Node(Nil, min, min.memAddr, r)))
    requires LinkedPath(c, min, min.parent, top, par) && Linked(r, min.rchild, min)
    requires PathAreas(c) + Areas(r) <= region
    modifies PathAreas(c)`lchild, Areas(r)`parent
    ensures Linked(Plug(c, r), top, par)
  {
    hide Linked, LinkedPath, Wf, Fits;
    MinNode(c, min, min.memAddr, r);
    PathDistinct(c, {min.memAddr} + Keys(r), {min} + Areas(r));
    LinkedPathStep(c, min, min.parent, top, par);
    LinkedRoot(r, min.rchild, min);
    if min.rchild != null {
      min.parent.lchild := min.rchild;
      assert Linked(r, min.rchild, min);
      SetParent(min.rchild, min.parent, r);
    } else {
      min.parent.lchild := null;
      LinkedNil();
    }
    assert Linked(c.right, c.area.rchild, c.area);
    assert LinkedPath(c.up, c.area, c.area.parent, top, par);
    LinkedPathStep(c, c.area.lchild, c.area, top, par);
    PlugLinked(c, r, c.area.lchild, c.area, top, par);
  }

  /** The deeper case of remove_btree_node: the maximum max leaves the tree below top. */
  method UnhookMax(max: Area, ghost c: Path, ghost l: Tree, ghost top: Area?, ghost par: Area, ghost region: set<Area>)
    requires RightSpine(c) && c != Top && Wf(Plug(c, Node(l, max, max.memAddr, Nil)))
    requires LinkedPath(c, max, max.parent, top, par) && Linked(l, max.lchild, max)
    requires PathAreas(c) + Areas(l) <= region
    modifies PathAreas(c)`rchild, Areas(l)`parent
    ensures Linked(Plug(c, l), top, par)
  {
    hide Linked, LinkedPath, Wf, Fits;
    MaxNode(c, max, max.memAddr, l);
    PathDistinct(c, {max.memAddr} + Keys(l), {max} + Areas(l));
    LinkedPathStep(c, max, max.parent, top, par);
    LinkedRoot(l, max.lchild, max);
    if max.lchild != null {
      max.parent.rchild := max.lchild;
      assert Linked(l, max.lchild, max);
      SetParent(max.lchild, max.parent, l);
    } else {
      max.parent.rchild := null;
      LinkedNil();
    }
    assert Linked(c.left, c.area.lchild, c.area);
    assert LinkedPath(c.up, c.area, c.area.parent, top, par);
    LinkedPathStep(c, c.area.rchild, c.area, top, par);
    PlugLinked(c, l, c.area.rchild, c.area, top, par);
  }

  /** The minimum min of the tree t right below del becomes the parent of the rest of t. */
  method HoistMin(del: Area, min: Area, ghost t: Tree, ghost c: Path, ghost r: Tree, ghost region: set<Area>)
    requires LeftSpine(c) && t == Plug(c, Node(Nil, min, min.memAddr, r)) && Wf(t)
    requires Areas(t) <= region && del !in Areas(t)
    requires LinkedPath(c, min, min.parent, del.rchild, del) && Linked(r, min.rchild, min)
    requires min != del.rchild <==> c != Top
    modifies Areas(t)`parent, Areas(t)`lchild, Areas(t)`rchild
    ensures Linked(Plug(c, r), min.rchild, min)
    ensures min.lchild == old(min.lchild)
  {
    hide Linked, LinkedPath, Wf, Fits;
    PlugContents(c, Node(Nil, min, min.memAddr, r));
    PlugContents(c, r);
    RestOfMin(c, min, min.memAddr, r);
    if min != del.rchild {
      UnhookMin(min, c, r, del.rchild, del, region);
      LinkedRoot(Plug(c, r), del.rchild, del);
      assert Plug(c, r) != Nil;
      min.rchild := del.rchild;
      assert Linked(Plug(c, r), min.rchild, del);
      SetParent(min.rchild, min, Plug(c, r));
    }
  }

  /** The maximum max of the tree t left below del becomes the parent of the rest of t. */
  method HoistMax(del: Area, max: Area, ghost t: Tree, ghost c: Path, ghost l: Tree, ghost region: set<Area>)
    requires RightSpine(c) && t == Plug(c, Node(l, max, max.memAddr, Nil)) && Wf(t)
    requires Areas(t) <= region && del !in Areas(t)
    requires LinkedPath(c, max, max.parent, del.lchild, del) && Linked(l, max.lchild, max)
    requires max != del.lchild <==> c != Top
    modifies Areas(t)`parent, Areas(t)`lchild, Areas(t)`rchild
    ensures Linked(Plug(c, l), max.lchild, max)
    ensures max.rchild == old(max.rchild)
  {
    hide Linked, LinkedPath, Wf, Fits;
    PlugContents(c, Node(l, max, max.memAddr, Nil));
    PlugContents(c, l);
    RestOfMax(c, max, max.memAddr, l);
    if max != del.lchild {
      UnhookMax(max, c, l, del.lchild, del, region);
      LinkedRoot(Plug(c, l), del.lchild, del);
      assert Plug(c, l) != Nil;
      max.lchild := del.lchild;
      assert Linked(Plug(c, l), max.lchild, del);
      SetParent(max.lchild, max, Plug(c, l));
    }
  }

  /** The left subtree l of del moves below min. */
  method TakeLeft(del: Area, min: Area, ghost l: Tree)
    requires Linked(l, del.lchild, del) && Wf(l) && min !in Areas(l) && del != min && min.lchild == null
    modifies min`lchild, Areas(l)`parent
    ensures Linked(l, min.lchild, min)
  {
    hide Linked, Wf;
    LinkedRoot(l, del.lchild, del);
    if del.lchild != null {
      min.lchild := del.lchild;
      assert Linked(l, min.lchild, del);
      SetParent(min.lchild, min, l);
    } else {
      LinkedNil();
    }
  }

  /** The right subtree r of del moves below max. */
  method TakeRight(del: Area, max: Area, ghost r: Tree)
    requires Linked(r, del.rchild, del) && Wf(r) && max !in Areas(r) && del != max && max.rchild == null
    modifies max`rchild, Areas(r)`parent
    ensures Linked(r, max.rchild, max)
  {
    hide Linked, Wf;
    LinkedRoot(r, del.rchild, del);
    if del.rchild != null {
      max.rchild := del.rchild;
      assert Linked(r, max.rchild, del);
      SetParent(max.rchild, max, r);
    } else {
      LinkedNil();
    }
  }

  lemma WfNode(s: Tree)
    requires Wf(s) && s.Node?
    ensures Wf(s.left) && Wf(s.right)
    ensures Areas(s.left) !! Areas(s.right) && s.area !in Areas(s.left) + Areas(s.right)
    ensures Areas(s) == Areas(s.left) + {s.area} + Areas(s.right)
  {
  }

  /** The last assignments of remove_btree_node: heir gets del's parent, del loses its links. */
  method Succeed(del: Area, heir: Area, ghost l: Tree, ghost r: Tree)
    requires Linked(l, heir.lchild, heir) && Linked(r, heir.rchild, heir)
    requires del != heir && {del, heir} !! Areas(l) + Areas(r)
    modifies heir`parent, del`parent, del`lchild, del`rchild
    ensures Linked(Node(l, heir, heir.memAddr, r), heir, old(del.parent)) && Detached(del)
  {
    hide Linked;
    heir.parent := del.parent;
    del.parent, del.lchild, del.rchild := null, null, null;
    LinkedStep(l, heir, r, old(del.parent));
  }

  /** The left subtree l of del moves below heir, which takes the place of del. */
  method SucceedLeft(del: Area, heir: Area, ghost l: Tree, ghost r: Tree, ghost region: set<Area>)
    requires Linked(l, del.lchild, del) && Wf(l) && Linked(r, heir.rchild, heir) && heir.lchild == null
    requires del != heir && {del, heir} !! Areas(l) + Areas(r) && Areas(l) !! Areas(r) && Areas(l) + Areas(r) <= region
    modifies heir`parent, heir`lchild, Areas(l)`parent, del`parent, del`lchild, del`rchild
    ensures Linked(Node(l, heir, heir.memAddr, r), heir, old(del.parent)) && Detached(del)
  {
    hide *;
    TakeLeft(del, heir, l);
    assert Linked(r, heir.rchild, heir);
    Succeed(del, heir, l, r);
  }

  /** The right subtree r of del moves below heir, which takes the place of del. */
  method SucceedRight(del: Area, heir: Area, ghost l: Tree, ghost r: Tree, ghost region: set<Area>)
    requires Linked(r, del.rchild, del) && Wf(r) && Linked(l, heir.lchild, heir) && heir.rchild == null
    requires del != heir && {del, heir} !! Areas(l) + Areas(r) && Areas(l) !! Areas(r) && Areas(l) + Areas(r) <= region
    modifies heir`parent, heir`rchild, Areas(r)`parent, del`parent, del`lchild, del`rchild
    ensures Linked(Node(l, heir, heir.memAddr, r), heir, old(del.parent)) && Detached(del)
  {
    hide *;
    TakeRight(del, heir, r);
    assert Linked(l, heir.lchild, heir);
    Succeed(del, heir, l, r);
  }

  /** remove_btree_node for a node with a right child: its in-order successor takes its place. */
  method PromoteMin(del: Area, min: Area, ghost s: Tree, ghost c: Path, ghost r: Tree, ghost region: set<Area>)
    returns (ghost sub: Tree)
    requires s.Node? && s.area == del && Wf(s) && Areas(s) <= region
    requires LeftSpine(c) && s.right == Plug(c, Node(Nil, min, min.memAddr, r))
    requires Linked(s.left, del.lchild, del) && min.lchild == null
    requires LinkedPath(c, min, min.parent, del.rchild, del) && Linked(r, min.rchild, min)
    requires min != del.rchild <==> c != Top
    modifies Areas(s)`parent, Areas(s)`lchild, Areas(s)`rchild
    ensures sub == Node(s.left, min, min.memAddr, Plug(c, r)) && Linked(sub, min, old(del.parent)) && Detached(del)
  {
    sub := Node(s.left, min, min.memAddr, Plug(c, r));
    hide *;
    WfNode(s);
    RestOfMin(c, min, min.memAddr, r);
    HoistMin(del, min, s.right, c, r, region);
    assert Linked(s.left, del.lchild, del);
    SucceedLeft(del, min, s.left, Plug(c, r), region);
  }

  /** remove_btree_node for a node with only a left child: its in-order predecessor takes its place. */
  method PromoteMax(del: Area, max: Area, ghost s: Tree, ghost c: Path, ghost l: Tree, ghost region: set<Area>)
    returns (ghost sub: Tree)
    requires s.Node? && s.area == del && Wf(s) && Areas(s) <= region
    requires RightSpine(c) && s.left == Plug(c, Node(l, max, max.memAddr, Nil))
    requires Linked(s.right, del.rchild, del) && max.rchild == null
    requires LinkedPath(c, max, max.parent, del.lchild, del) && Linked(l, max.lchild, max)
    requires max != del.lchild <==> c != Top
    modifies Areas(s)`parent, Areas(s)`lchild, Areas(s)`rchild
    ensures sub == Node(Plug(c, l), max, max.memAddr, s.right) && Linked(sub, max, old(del.parent)) && Detached(del)
  {
    sub := Node(Plug(c, l), max, max.memAddr, s.right);
    hide *;
    WfNode(s);
    RestOfMax(c, max, max.memAddr, l);
    HoistMax(del, max, s.left, c, l, region);
    assert Linked(s.right, del.rchild, del);
    SucceedRight(del, max, Plug(c, l), s.right, region);
  }

  /** The cases of remove_btree_node that call get_min_node. */
  method RemoveByMin(del: Area, ghost s: Tree, ghost p: Path, ghost root: Area, ghost region: set<Area>)
    returns (min: Area, ghost sub: Tree)
    requires s.Node? && Wf(s) && Linked(s, del, del.parent) && del.rchild != null
    requires p != Top && LinkedPath(p, del, del.parent, root, null) && Fits(p, Keys(s), Areas(s))
    requires Areas(s) + PathAreas(p) <= region
    modifies region`parent, region`lchild, region`rchild
    ensures LinkedPath(p, min, old(del.parent), root, null) && Linked(sub, min, old(del.parent)) && Detached(del)
    ensures Wf(sub) && Keys(sub) == Keys(s) - {s.key} && Areas(sub) == Areas(s) - {s.area}
    ensures IsChain(s) ==> IsChain(sub)
  {
    hide *;
    WfNode(s);
    LinkedNode(s, del, del.parent);
    ghost var c, r;
    min, c, r := GetMinNode(del.rchild, s.right);
    RestOfMin(c, min, min.memAddr, r);
    PromoteMinWf(s, min, min.memAddr, Plug(c, r));
    SpineTop(s.right, c, min, Node(Nil, min, min.memAddr, r), del.rchild, del);
    ChainPromoteMin(s, c, min, min.memAddr, r);
    MinNode(c, min, min.memAddr, r);
    PlugContents(c, Node(Nil, min, min.memAddr, r));
    Relink(del, min, p, root, Keys(s), Areas(s));
    FitsDisjoint(p, Keys(s), Areas(s));
    assert Linked(s.left, del.lchild, del);
    assert LinkedPath(c, min, min.parent, del.rchild, del) && Linked(r, min.rchild, min);
    sub := PromoteMin(del, min, s, c, r, region);
    assert LinkedPath(p, min, old(del.parent), root, null);
  }

  lemma ChainPromoteMin(s: Tree, c: Path, m: Area, mk: nat, r: Tree)
    requires s.Node? && s.right == Plug(c, Node(Nil, m, mk, r))
    ensures IsChain(s) ==> IsChain(Node(s.left, m, mk, Plug(c, r)))
  {
    if IsChain(s) {
      ChainPlug(c, Node(Nil, m, mk, r), r);
    }
  }

  lemma LinkedNode(s: Tree, a: Area, par: Area?)
    requires s.Node? && Linked(s, a, par)
    ensures a == s.area && a.parent == par && a.memAddr == s.key
    ensures Linked(s.left, a.lchild, a) && Linked(s.right, a.rchild, a)
    ensures a.lchild == null <==> s.left == Nil
    ensures a.rchild == null <==> s.right == Nil
  {
  }

  /** The node m reached along c is the root of the tree t only if c is empty. */
  lemma SpineTop(t: Tree, c: Path, m: Area, n: Tree, root: Area, par: Area?)
    requires t == Plug(c, n) && n.Node? && n.area == m && Wf(t)
    requires if c == Top then m == root else root in PathAreas(c)
    ensures m == root <==> c == Top
  {
    PlugWf(c, n);
    FitsDisjoint(c, Keys(n), Areas(n));
  }

  /** The case of remove_btree_node that calls get_max_node. */
  method RemoveByMax(del: Area, ghost s: Tree, ghost p: Path, ghost root: Area, ghost region: set<Area>)
    returns (max: Area, ghost sub: Tree)
    requires s.Node? && Wf(s) && Linked(s, del, del.parent) && del.lchild != null
    requires p != Top && LinkedPath(p, del, del.parent, root, null) && Fits(p, Keys(s), Areas(s))
    requires Areas(s) + PathAreas(p) <= region
    modifies region`parent, region`lchild, region`rchild
    ensures LinkedPath(p, max, old(del.parent), root, null) && Linked(sub, max, old(del.parent)) && Detached(del)
    ensures Wf(sub) && Keys(sub) == Keys(s) - {s.key} && Areas(sub) == Areas(s) - {s.area}
  {
    hide *;
    WfNode(s);
    LinkedNode(s, del, del.parent);
    ghost var c, l;
    max, c, l := GetMaxNode(del.lchild, s.left);
    RestOfMax(c, max, max.memAddr, l);
    PromoteMaxWf(s, max, max.memAddr, Plug(c, l));
    SpineTop(s.left, c, max, Node(l, max, max.memAddr, Nil), del.lchild, del);
    MaxNode(c, max, max.memAddr, l);
    PlugContents(c, Node(l, max, max.memAddr, Nil));
    Relink(del, max, p, root, Keys(s), Areas(s));
    FitsDisjoint(p, Keys(s), Areas(s));
    assert Linked(s.right, del.rchild, del);
    assert LinkedPath(c, max, max.parent, del.lchild, del) && Linked(l, max.lchild, max);
    sub := PromoteMax(del, max, s, c, l, region);
    assert LinkedPath(p, max, old(del.parent), root, null);
  }

  /** The leaf case of remove_btree_node. */
  method RemoveLeaf(del: Area, ghost s: Tree, ghost p: Path, ghost root: Area)
    requires s.Node? && Wf(s) && Linked(s, del, del.parent) && del.lchild == del.rchild == null
    requires p != Top && LinkedPath(p, del, del.parent, root, null) && Fits(p, Keys(s), Areas(s))
    modifies PathAreas(p)`lchild, PathAreas(p)`rchild, del`parent
    ensures LinkedPath(p, null, old(del.parent), root, null) && Detached(del)
    ensures Keys(s) == {s.key} && Areas(s) == {del}
  {
    hide LinkedPath, Fits;
    FitsDisjoint(p, Keys(s), Areas(s));
    Relink(del, null, p, root, Keys(s), Areas(s));
    del.parent := null;
    assert LinkedPath(p, null, old(del.parent), root, null);
  }

  /** remove_btree_node: del leaves the tree below the sentinel root; every other node stays. */
  method RemoveBtreeNode(root: Area, del: Area, ghost t: Tree, ghost region: set<Area>) returns (ghost t': Tree)
    requires Linked(t, root, null) && Wf(t) && region == Areas(t) && del != root
    requires del in region || del.memAddr !in Keys(t)
    modifies region`parent, region`lchild, region`rchild
    ensures Linked(t', root, null) && Wf(t')
    ensures if del in region then Areas(t') == Areas(t) - {del} && Detached(del) else t' == t
    ensures IsChain(t) ==> IsChain(t')
  {
    hide Linked, LinkedPath, Wf, Fits, Plug, Areas, Keys, PathAreas, PathKeys;
    KeysAreAddresses(t, root, null);
    AddressesDiffer(t, root, null);
    var parent;
    ghost var p, s;
    parent, p, s := FindSlot(root, del.memAddr, t, {});
    LinkedNode(s, parent, parent.parent);
    PlugContents(p, s);
    AreaInTree(s);
    if parent.memAddr != del.memAddr {
      return t;
    }
    assert parent == del;
    FitsSmaller(p, Keys(s) + {del.memAddr}, Areas(s) + {}, Keys(s), Areas(s));
    FitsDisjoint(p, Keys(s), Areas(s));
    ghost var par := del.parent;
    var heir: Area? := null;
    ghost var sub := Nil;
    if del.rchild != null {
      heir, sub := RemoveByMin(del, s, p, root, region);
    } else if del.lchild != null {
      heir, sub := RemoveByMax(del, s, p, root, region);
    } else {
      RemoveLeaf(del, s, p, root);
      LinkedNil();
    }
    if IsChain(t) {
      ChainPlug(p, s, sub);
    }
    Rebuild(p, sub, heir, par, root, Keys(s), Areas(s));
    t' := Plug(p, sub);
  }

  lemma AreaInTree(s: Tree)
    requires s.Node?
    ensures s.area in Areas(s) && s.key in Keys(s)
  {
  }
}
