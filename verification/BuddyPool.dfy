/** struct sw_buddy_pool and the functions of sw_buddy.c on it.  Each is proved to move the pool
    between the states of BuddySpec. */
module BuddyPool {
  import opened Options
  import opened SwMath
  import opened BuddySpec
  import opened BuddyTree
  import opened BuddyTheory

  /** Where a descriptor is: unused, in no list, in the live tree, or in a free list. */
  datatype Place = Spare | Hand | InTree | InBin(bin: nat)

  ghost function At(place: map<Area, Place>, p: Place): set<Area> {
    set n | n in place && place[n] == p
  }

  ghost function Addrs(members: set<Area>): set<nat>
    reads members`memAddr
  {
    set n | n in members :: n.memAddr
  }

  /** A free list: its nodes, in a chain below head, are the blocks addrs of one bin. */
  ghost predicate ChainOk(t: Tree, head: Area, members: set<Area>, addrs: set<nat>, bin: nat, size: nat, top: bool)
    reads head, members
  {
    && Areas(t) == {head} + members && head !in members
    && Linked(t, head, null) && Wf(t) && IsChain(t)
    && head.memAddr == 0 && addrs == Addrs(members)
    && head.cnt == |addrs|
    && (forall n :: n in members ==> n.bin == bin && (!top ==> n.blockSize == size))
  }

  /** The live tree: its nodes are the blocks of live. */
  ghost predicate TreeOk(c: Config, t: Tree, root: Area, members: set<Area>, live: map<nat, nat>)
    reads root, members
  {
    && Areas(t) == {root} + members && root !in members
    && Linked(t, root, null) && Wf(t)
    && root.memAddr == root.blockSize == 0 && live.Keys == Addrs(members)
    && (forall n :: n in members ==> n.bin == live[n.memAddr] && n.blockSize == Size(c, n.bin))
  }

  /** Nodes of one tree have different addresses. */
  lemma AddrsWithout(t: Tree, root: Area, members: set<Area>, node: Area)
    requires Linked(t, root, null) && Wf(t) && Areas(t) == {root} + members && node in members && root !in members
    ensures Addrs(members - {node}) == Addrs(members) - {node.memAddr}
    ensures node.memAddr != root.memAddr
  {
    AddressesDiffer(t, root, null);
  }

  lemma AddrsWith(members: set<Area>, node: Area)
    ensures Addrs(members + {node}) == Addrs(members) + {node.memAddr}
  {
  }

  /** A node leaves its free list. */
  method ChainRemove(head: Area, node: Area, ghost t: Tree, ghost members: set<Area>, ghost addrs: set<nat>,
                     ghost bin: nat, ghost size: nat, ghost top: bool)
    returns (ghost t': Tree)
    requires ChainOk(t, head, members, addrs, bin, size, top) && node in members
    modifies ({head} + members)`parent, ({head} + members)`lchild, ({head} + members)`rchild, head`cnt
    ensures ChainOk(t', head, members - {node}, addrs - {node.memAddr}, bin, size, top)
    ensures Detached(node) && node.memAddr in addrs && node.memAddr != 0
  {
    hide Linked, Wf, Areas;
    AddrsWithout(t, head, members, node);
    assert node.memAddr in addrs && 0 < |addrs|;
    t' := RemoveBtreeNode(head, node, t, {head} + members);
    LinkedRoot(t', head, null);
    SetCnt(head, head.cnt - 1, t');
  }

  lemma FreshKey(t: Tree, root: Area, members: set<Area>, node: Area)
    requires Linked(t, root, null) && Areas(t) == {root} + members && root.memAddr == 0
    requires node.memAddr !in Addrs(members) && 0 < node.memAddr
    ensures node.memAddr !in Keys(t)
  {
    KeysAreAddresses(t, root, null);
  }

  /** A node enters a free list. */
  method ChainInsert(head: Area, node: Area, ghost t: Tree, ghost members: set<Area>, ghost addrs: set<nat>,
                     ghost bin: nat, ghost size: nat, ghost top: bool)
    returns (ghost t': Tree)
    requires ChainOk(t, head, members, addrs, bin, size, top) && node !in members && node != head
    requires Detached(node) && 0 < node.memAddr && node.memAddr !in addrs
    requires node.bin == bin && (!top ==> node.blockSize == size)
    modifies ({head} + members)`parent, ({head} + members)`lchild, ({head} + members)`rchild, head`cnt
    modifies node`parent, node`rchild
    ensures ChainOk(t', head, members + {node}, addrs + {node.memAddr}, bin, size, top)
  {
    hide Linked, Wf, Areas, Keys, IsChain, Addrs;
    FreshKey(t, head, members, node);
    AddrsWith(members, node);
    assert |addrs + {node.memAddr}| == |addrs| + 1;
    ghost var all := {head} + members;
    assert all + {node} == {head} + (members + {node});
    t' := AddSortedBtreeNode(head, node, t, all);
    LinkedRoot(t', head, null);
    SetCnt(head, head.cnt + 1, t');
  }

  /** A node leaves the live tree. */
  method TreeRemove(ghost c: Config, root: Area, node: Area, ghost t: Tree, ghost members: set<Area>, ghost live: map<nat, nat>)
    returns (ghost t': Tree)
    requires TreeOk(c, t, root, members, live) && node in members
    modifies ({root} + members)`parent, ({root} + members)`lchild, ({root} + members)`rchild
    ensures TreeOk(c, t', root, members - {node}, live - {node.memAddr})
    ensures Detached(node) && node.memAddr in live && node.memAddr != 0
  {
    hide Linked, Wf, Areas;
    AddrsWithout(t, root, members, node);
    AddressesDiffer(t, root, null);
    assert node.memAddr in live.Keys;
    t' := RemoveBtreeNode(root, node, t, {root} + members);
  }

  /** A node enters the live tree. */
  method TreeInsert(ghost c: Config, root: Area, node: Area, ghost t: Tree, ghost members: set<Area>, ghost live: map<nat, nat>)
    returns (ghost t': Tree)
    requires TreeOk(c, t, root, members, live) && node !in members && node != root
    requires Detached(node) && 0 < node.memAddr && node.memAddr !in live && node.blockSize == Size(c, node.bin)
    modifies ({root} + members)`parent, ({root} + members)`lchild, ({root} + members)`rchild
    modifies node`parent, node`rchild
    ensures TreeOk(c, t', root, members + {node}, live[node.memAddr := node.bin])
  {
    hide Linked, Wf, Areas, Keys;
    FreshKey(t, root, members, node);
    t' := AddBtreeNode(root, node, t, {root} + members);
    forall n | n in members
      ensures n.memAddr in live && n.memAddr != node.memAddr
    {
      assert n.memAddr in live.Keys;
    }
  }

  /** The count of a sentinel is no link. */
  method SetCnt(head: Area, cnt: nat, ghost t: Tree)
    requires t.Node? && Linked(t, head, null) && Wf(t)
    modifies head`cnt
    ensures head.cnt == cnt && Linked(t, head, null)
  {
    hide Linked, Wf;
    LinkedNode(t, head, null);
    WfNode(t);
    head.cnt := cnt;
    LinkedStep(t.left, head, t.right, null);
  }

  // ---- the pool's lists taken together ----

  /** Every free list k holds the blocks free[k]. */
  ghost predicate BinsOk(c: Config, trees: seq<Tree>, heads: seq<Area>, place: map<Area, Place>, free: seq<set<nat>>)
    reads heads, place.Keys
  {
    && c.maxBin < |heads| && |trees| == |free| == c.maxBin + 1
    && forall k :: 0 <= k <= c.maxBin ==>
         ChainOk(trees[k], heads[k], At(place, InBin(k)), free[k], k, Size(c, k), k == c.maxBin)
  }

  /** A descriptor is unused exactly if its address is 0; no place beyond the top bin. */
  ghost predicate AddrsOk(c: Config, place: map<Area, Place>)
    reads place.Keys`memAddr
  {
    && (forall n :: n in place ==> (n.memAddr == 0 <==> place[n] == Spare))
    && (forall n :: n in place && place[n].InBin? ==> place[n].bin <= c.maxBin)
  }

  /** A descriptor in no list has no links. */
  ghost predicate HandsOk(hands: set<Area>)
    reads hands
  {
    forall n :: n in hands ==> Detached(n)
  }

  lemma BinsAll(c: Config, trees: seq<Tree>, heads: seq<Area>, place: map<Area, Place>, free: seq<set<nat>>)
    requires BinsOk(c, trees, heads, place, free)
    ensures c.maxBin < |heads| && |trees| == |free| == c.maxBin + 1
    ensures forall k :: 0 <= k <= c.maxBin ==>
      ChainOk(trees[k], heads[k], At(place, InBin(k)), free[k], k, Size(c, k), k == c.maxBin)
  {
  }

  lemma BinsFromAll(c: Config, trees: seq<Tree>, heads: seq<Area>, place: map<Area, Place>, free: seq<set<nat>>,
                    place': map<Area, Place>)
    requires c.maxBin < |heads| && |trees| == |free| == c.maxBin + 1
    requires forall k :: 0 <= k <= c.maxBin ==>
      ChainOk(trees[k], heads[k], At(place, InBin(k)), free[k], k, Size(c, k), k == c.maxBin)
    requires forall k :: At(place', InBin(k)) == At(place, InBin(k))
    ensures BinsOk(c, trees, heads, place', free)
  {
    hide ChainOk, At;
  }

  /** The bins after one chain has changed and one node has moved between that bin and a place p outside the bins. */
  lemma BinsUpdated(c: Config, trees: seq<Tree>, heads: seq<Area>, place: map<Area, Place>, free: seq<set<nat>>,
                    bin: nat, tree: Tree, place': map<Area, Place>, addrs: set<nat>)
    requires c.maxBin < |heads| && |trees| == |free| == c.maxBin + 1 && bin <= c.maxBin
    requires forall k :: 0 <= k <= c.maxBin && k != bin ==>
      ChainOk(trees[k], heads[k], At(place, InBin(k)), free[k], k, Size(c, k), k == c.maxBin)
    requires forall k :: 0 <= k <= c.maxBin && k != bin ==> At(place', InBin(k)) == At(place, InBin(k))
    requires ChainOk(tree, heads[bin], At(place', InBin(bin)), addrs, bin, Size(c, bin), bin == c.maxBin)
    ensures BinsOk(c, trees[bin := tree], heads, place', free[bin := addrs])
  {
    hide ChainOk, At;
  }

  /** Moving one node changes the two places concerned. */
  lemma AtMove(place: map<Area, Place>, n: Area, p: Place)
    requires n in place && place[n] != p
    ensures var q := place[n := p];
            && q.Keys == place.Keys
            && At(q, place[n]) == At(place, place[n]) - {n} && n in At(place, place[n])
            && At(q, p) == At(place, p) + {n} && n !in At(place, p)
            && (forall r :: r != p && r != place[n] ==> At(q, r) == At(place, r))
  {
  }

  lemma AtApart(place: map<Area, Place>)
    ensures forall p :: At(place, p) <= place.Keys
    ensures forall p, q :: p != q ==> At(place, p) !! At(place, q)
  {
  }

  lemma AtOnly(place: map<Area, Place>, n: Area)
    requires n in place
    ensures forall p :: n in At(place, p) <==> p == place[n]
  {
  }

  /** Moving a used node between used places. */
  lemma AddrsMoved(c: Config, place: map<Area, Place>, n: Area, p: Place)
    requires AddrsOk(c, place) && n in place && place[n] != Spare && p != Spare && (p.InBin? ==> p.bin <= c.maxBin)
    ensures AddrsOk(c, place[n := p]) && 0 < n.memAddr && (place[n].InBin? ==> place[n].bin <= c.maxBin)
  {
  }

  /** A node leaves its free list; the other lists stay. */
  method BinsRemove(ghost c: Config, heads: seq<Area>, bin: nat, node: Area, ghost trees: seq<Tree>,
                    ghost place: map<Area, Place>, ghost free: seq<set<nat>>)
    returns (ghost trees': seq<Tree>)
    requires BinsOk(c, trees, heads, place, free) && HeadsApart(heads, place)
    requires bin <= c.maxBin && node in place && place[node] == InBin(bin)
    requires |free| == c.maxBin + 1 && c.maxBin < |heads|
    modifies ({heads[bin]} + At(place, InBin(bin)))`parent, ({heads[bin]} + At(place, InBin(bin)))`lchild
    modifies ({heads[bin]} + At(place, InBin(bin)))`rchild, {heads[bin]}`cnt
    ensures node.memAddr in free[bin] && Detached(node)
    ensures BinsOk(c, trees', heads, place[node := Hand], free[bin := free[bin] - {node.memAddr}])
  {
    hide ChainOk, BinsOk;
    AtMove(place, node, Hand);
    BinsAll(c, trees, heads, place, free);
    ghost var t' := ChainRemove(heads[bin], node, trees[bin], At(place, InBin(bin)), free[bin],
                                bin, Size(c, bin), bin == c.maxBin);
    BinsUpdated(c, trees, heads, place, free, bin, t', place[node := Hand], free[bin] - {node.memAddr});
    trees' := trees[bin := t'];
  }

  /** A node enters a free list; the other lists stay. */
  method BinsInsert(ghost c: Config, heads: seq<Area>, bin: nat, node: Area, ghost trees: seq<Tree>,
                    ghost place: map<Area, Place>, ghost free: seq<set<nat>>)
    returns (ghost trees': seq<Tree>)
    requires BinsOk(c, trees, heads, place, free) && HeadsApart(heads, place)
    requires bin <= c.maxBin && node in place && place[node] == Hand && Detached(node)
    requires |free| == c.maxBin + 1 && c.maxBin < |heads|
    requires 0 < node.memAddr && node.memAddr !in free[bin] && node.bin == bin
    requires bin != c.maxBin ==> node.blockSize == Size(c, bin)
    modifies ({heads[bin], node} + At(place, InBin(bin)))`parent, ({heads[bin]} + At(place, InBin(bin)))`lchild
    modifies ({heads[bin], node} + At(place, InBin(bin)))`rchild, {heads[bin]}`cnt
    ensures BinsOk(c, trees', heads, place[node := InBin(bin)], free[bin := free[bin] + {node.memAddr}])
  {
    hide ChainOk, BinsOk;
    AtMove(place, node, InBin(bin));
    BinsAll(c, trees, heads, place, free);
    ghost var t' := ChainInsert(heads[bin], node, trees[bin], At(place, InBin(bin)), free[bin],
                                bin, Size(c, bin), bin == c.maxBin);
    BinsUpdated(c, trees, heads, place, free, bin, t', place[node := InBin(bin)], free[bin] + {node.memAddr});
    trees' := trees[bin := t'];
  }

  ghost predicate HeadsApart(heads: seq<Area>, place: map<Area, Place>) {
    && (forall i, j :: 0 <= i < j < |heads| ==> heads[i] != heads[j])
    && (forall h :: h in heads ==> h !in place)
  }

  lemma HandsAdd(hands: set<Area>, n: Area)
    requires HandsOk(hands) && Detached(n)
    ensures HandsOk(hands + {n})
  {
  }

  lemma HandsFewer(hands: set<Area>, n: Area)
    requires HandsOk(hands)
    ensures HandsOk(hands - {n}) && (n in hands ==> Detached(n))
  {
  }

  /** The state of the pool and the shapes of its lists. */
  datatype Shadow = Shadow(st: State, liveTree: Tree, trees: seq<Tree>, place: map<Area, Place>)

  /** The descriptors nodes, the sentinels heads and root: what the pool's lists look like. */
  ghost predicate ListsOk(c: Config, g: Shadow, heads: seq<Area>, root: Area, nodes: set<Area>)
    reads heads, root, nodes
  {
    && g.place.Keys == nodes && HeadsApart(heads, g.place) && root !in nodes && root !in heads
    && BinsOk(c, g.trees, heads, g.place, g.st.free)
    && TreeOk(c, g.liveTree, root, At(g.place, InTree), g.st.live)
    && AddrsOk(c, g.place)
    && HandsOk(At(g.place, Hand))
    && g.st.spare == |At(g.place, Spare)|
  }

  /** remove_btree_node on a free list, and the step of its count. */
  method Unlink(ghost c: Config, heads: seq<Area>, ghost root: Area, bin: nat, node: Area, ghost g: Shadow, ghost nodes: set<Area>)
    returns (ghost g': Shadow)
    requires ListsOk(c, g, heads, root, nodes) && bin < |heads| && node in g.place && g.place[node] == InBin(bin)
    modifies ({heads[bin]} + nodes)`parent, ({heads[bin]} + nodes)`lchild, ({heads[bin]} + nodes)`rchild, {heads[bin]}`cnt
    ensures ListsOk(c, g', heads, root, nodes) && g'.place == g.place[node := Hand]
    ensures bin < |g.st.free| && node.memAddr in g.st.free[bin] && g'.st == DropFree(g.st, bin, node.memAddr)
  {
    hide ChainOk, TreeOk, BinsOk, HandsOk, AddrsOk;
    AtMove(g.place, node, Hand);
    AddrsMoved(c, g.place, node, Hand);
    BinsAll(c, g.trees, heads, g.place, g.st.free);
    ghost var trees := BinsRemove(c, heads, bin, node, g.trees, g.place, g.st.free);
    HandsAdd(At(g.place, Hand), node);
    assert TreeOk(c, g.liveTree, root, At(g.place, InTree), g.st.live);
    g' := Shadow(DropFree(g.st, bin, node.memAddr), g.liveTree, trees, g.place[node := Hand]);
  }

  /** add_sorted_btree_node, and the step of the count. */
  method Link(ghost c: Config, heads: seq<Area>, ghost root: Area, bin: nat, node: Area, ghost g: Shadow, ghost nodes: set<Area>)
    returns (ghost g': Shadow)
    requires ListsOk(c, g, heads, root, nodes) && bin <= c.maxBin && bin < |heads| && bin < |g.st.free|
    requires node in g.place && g.place[node] == Hand && node.memAddr !in g.st.free[bin]
    requires node.bin == bin && (bin != c.maxBin ==> node.blockSize == Size(c, bin))
    modifies ({heads[bin]} + nodes)`parent, ({heads[bin]} + nodes)`lchild, ({heads[bin]} + nodes)`rchild, {heads[bin]}`cnt
    ensures ListsOk(c, g', heads, root, nodes) && g'.place == g.place[node := InBin(bin)]
    ensures g'.st == AddFree(g.st, bin, node.memAddr)
  {
    hide ChainOk, TreeOk, BinsOk, HandsOk, AddrsOk;
    AtMove(g.place, node, InBin(bin));
    AddrsMoved(c, g.place, node, InBin(bin));
    BinsAll(c, g.trees, heads, g.place, g.st.free);
    HandsFewer(At(g.place, Hand), node);
    ghost var trees := BinsInsert(c, heads, bin, node, g.trees, g.place, g.st.free);
    assert TreeOk(c, g.liveTree, root, At(g.place, InTree), g.st.live);
    g' := Shadow(AddFree(g.st, bin, node.memAddr), g.liveTree, trees, g.place[node := InBin(bin)]);
  }

  /** remove_btree_node on the live tree. */
  method Disown(ghost c: Config, ghost heads: seq<Area>, root: Area, node: Area, ghost g: Shadow, ghost nodes: set<Area>)
    returns (ghost g': Shadow)
    requires ListsOk(c, g, heads, root, nodes) && node in g.place && g.place[node] == InTree
    modifies ({root} + nodes)`parent, ({root} + nodes)`lchild, ({root} + nodes)`rchild
    ensures ListsOk(c, g', heads, root, nodes) && g'.place == g.place[node := Hand]
    ensures node.memAddr in g.st.live && node.bin == g.st.live[node.memAddr] && node.blockSize == Size(c, node.bin)
    ensures g'.st == g.st.(live := g.st.live - {node.memAddr})
  {
    hide ChainOk, BinsOk, HandsOk, AddrsOk, Linked, Wf, At;
    AtOnly(g.place, node);
    AtApart(g.place);
    AtMove(g.place, node, Hand);
    AddrsMoved(c, g.place, node, Hand);
    BinsAll(c, g.trees, heads, g.place, g.st.free);
    ghost var tree := TreeRemove(c, root, node, g.liveTree, At(g.place, InTree), g.st.live);
    assert forall k :: 0 <= k <= c.maxBin ==>
      ChainOk(g.trees[k], heads[k], At(g.place, InBin(k)), g.st.free[k], k, Size(c, k), k == c.maxBin);
    BinsFromAll(c, g.trees, heads, g.place, g.st.free, g.place[node := Hand]);
    HandsAdd(At(g.place, Hand), node);
    g' := Shadow(g.st.(live := g.st.live - {node.memAddr}), tree, g.trees, g.place[node := Hand]);
  }

  /** add_btree_node on the live tree. */
  method Adopt(ghost c: Config, ghost heads: seq<Area>, root: Area, node: Area, ghost g: Shadow, ghost nodes: set<Area>)
    returns (ghost g': Shadow)
    requires ListsOk(c, g, heads, root, nodes) && node in g.place && g.place[node] == Hand
    requires node.memAddr !in g.st.live && node.blockSize == Size(c, node.bin)
    modifies ({root} + nodes)`parent, ({root} + nodes)`lchild, ({root} + nodes)`rchild
    ensures ListsOk(c, g', heads, root, nodes) && g'.place == g.place[node := InTree]
    ensures g'.st == g.st.(live := g.st.live[node.memAddr := node.bin])
  {
    hide ChainOk, BinsOk, HandsOk, AddrsOk, TreeOk, At;
    AtOnly(g.place, node);
    AtApart(g.place);
    AtMove(g.place, node, InTree);
    AddrsMoved(c, g.place, node, InTree);
    BinsAll(c, g.trees, heads, g.place, g.st.free);
    HandsFewer(At(g.place, Hand), node);
    ghost var tree := TreeInsert(c, root, node, g.liveTree, At(g.place, InTree), g.st.live);
    assert forall k :: 0 <= k <= c.maxBin ==>
      ChainOk(g.trees[k], heads[k], At(g.place, InBin(k)), g.st.free[k], k, Size(c, k), k == c.maxBin);
    BinsFromAll(c, g.trees, heads, g.place, g.st.free, g.place[node := InTree]);
    g' := Shadow(g.st.(live := g.st.live[node.memAddr := node.bin]), tree, g.trees, g.place[node := InTree]);
  }

  /** A zeroed descriptor becomes a block. */
  method Claim(ghost c: Config, ghost heads: seq<Area>, ghost root: Area, node: Area, addr: nat, bin: nat, size: nat,
               ghost g: Shadow, ghost nodes: set<Area>)
    returns (ghost g': Shadow)
    requires ListsOk(c, g, heads, root, nodes) && node in g.place && g.place[node] == Spare && Detached(node) && 0 < addr
    modifies node`memAddr, node`bin, node`blockSize
    ensures ListsOk(c, g', heads, root, nodes) && g'.place == g.place[node := Hand]
    ensures 0 < g.st.spare && g'.st == g.st.(spare := g.st.spare - 1)
    ensures node.memAddr == addr && node.bin == bin && node.blockSize == size
  {
    hide ChainOk, BinsOk, HandsOk, TreeOk, At;
    AtOnly(g.place, node);
    AtMove(g.place, node, Hand);
    BinsAll(c, g.trees, heads, g.place, g.st.free);
    node.bin := bin;
    node.blockSize := size;
    node.memAddr := addr;
    assert forall k :: 0 <= k <= c.maxBin ==>
      ChainOk(g.trees[k], heads[k], At(g.place, InBin(k)), g.st.free[k], k, Size(c, k), k == c.maxBin);
    BinsFromAll(c, g.trees, heads, g.place, g.st.free, g.place[node := Hand]);
    assert TreeOk(c, g.liveTree, root, At(g.place, InTree), g.st.live);
    HandsAdd(At(g.place, Hand), node);
    g' := Shadow(g.st.(spare := g.st.spare - 1), g.liveTree, g.trees, g.place[node := Hand]);
  }

  /** The descriptor of a merged block is given up. */
  method Discard(ghost c: Config, ghost heads: seq<Area>, ghost root: Area, node: Area, ghost g: Shadow, ghost nodes: set<Area>)
    returns (ghost g': Shadow)
    requires ListsOk(c, g, heads, root, nodes) && node in g.place && g.place[node] == Hand
    modifies node`memAddr
    ensures ListsOk(c, g', heads, root, nodes) && g'.place == g.place[node := Spare]
    ensures g'.st == g.st.(spare := g.st.spare + 1) && node.memAddr == 0
  {
    hide ChainOk, BinsOk, HandsOk, TreeOk, At;
    AtOnly(g.place, node);
    AtMove(g.place, node, Spare);
    BinsAll(c, g.trees, heads, g.place, g.st.free);
    HandsFewer(At(g.place, Hand), node);
    node.memAddr := 0;
    assert forall k :: 0 <= k <= c.maxBin ==>
      ChainOk(g.trees[k], heads[k], At(g.place, InBin(k)), g.st.free[k], k, Size(c, k), k == c.maxBin);
    BinsFromAll(c, g.trees, heads, g.place, g.st.free, g.place[node := Spare]);
    assert TreeOk(c, g.liveTree, root, At(g.place, InTree), g.st.live);
    assert HandsOk(At(g.place, Hand) - {node});
    g' := Shadow(g.st.(spare := g.st.spare + 1), g.liveTree, g.trees, g.place[node := Spare]);
  }

  /** Bin and size of a block in no list. */
  method SetBlock(ghost c: Config, ghost heads: seq<Area>, ghost root: Area, node: Area, bin: nat, size: nat,
                  ghost g: Shadow, ghost nodes: set<Area>)
    requires ListsOk(c, g, heads, root, nodes) && node in g.place && g.place[node] == Hand
    modifies node`bin, node`blockSize
    ensures ListsOk(c, g, heads, root, nodes) && node.bin == bin && node.blockSize == size
  {
    hide ChainOk, BinsOk, HandsOk, TreeOk, At;
    AtOnly(g.place, node);
    BinsAll(c, g.trees, heads, g.place, g.st.free);
    HandsFewer(At(g.place, Hand), node);
    node.bin := bin;
    node.blockSize := size;
    assert forall k :: 0 <= k <= c.maxBin ==>
      ChainOk(g.trees[k], heads[k], At(g.place, InBin(k)), g.st.free[k], k, Size(c, k), k == c.maxBin);
    BinsFromAll(c, g.trees, heads, g.place, g.st.free, g.place);
    assert TreeOk(c, g.liveTree, root, At(g.place, InTree), g.st.live);
    assert HandsOk(At(g.place, Hand) - {node});
    HandsAdd(At(g.place, Hand) - {node}, node);
    assert At(g.place, Hand) - {node} + {node} == At(g.place, Hand);
  }

  /** The memset of get_free_node. */
  method ZeroArea(ghost c: Config, ghost heads: seq<Area>, ghost root: Area, node: Area, ghost g: Shadow, ghost nodes: set<Area>)
    requires ListsOk(c, g, heads, root, nodes) && node in g.place && node.memAddr == 0
    modifies node
    ensures ListsOk(c, g, heads, root, nodes) && g.place[node] == Spare && Detached(node)
  {
    hide ChainOk, BinsOk, HandsOk, TreeOk, At;
    AtOnly(g.place, node);
    BinsAll(c, g.trees, heads, g.place, g.st.free);
    node.parent, node.lchild, node.rchild := null, null, null;
    node.memAddr, node.blockSize, node.bin, node.cnt := 0, 0, 0, 0;
    assert forall k :: 0 <= k <= c.maxBin ==>
      ChainOk(g.trees[k], heads[k], At(g.place, InBin(k)), g.st.free[k], k, Size(c, k), k == c.maxBin);
    BinsFromAll(c, g.trees, heads, g.place, g.st.free, g.place);
    assert TreeOk(c, g.liveTree, root, At(g.place, InTree), g.st.live);
    assert HandsOk(At(g.place, Hand));
  }

  /** The first node of a free list is its lowest block. */
  lemma ChainFirst(t: Tree, head: Area, members: set<Area>, addrs: set<nat>, bin: nat, size: nat, top: bool)
    requires ChainOk(t, head, members, addrs, bin, size, top)
    ensures head.rchild == null <==> addrs == {}
    ensures head.rchild != null ==> head.rchild in members && IsLowest(addrs, head.rchild.memAddr)
  {
    LinkedNode(t, head, null);
    WfNode(t);
    assert t.left == Nil;
    if head.rchild != null {
      LinkedRoot(t.right, head.rchild, head);
      KeysAreAddresses(t.right, head.rchild, head);
      ChainKeys(t.right);
    } else {
      assert members == {};
    }
  }

  lemma BinFirst(c: Config, heads: seq<Area>, root: Area, bin: nat, g: Shadow, nodes: set<Area>)
    requires ListsOk(c, g, heads, root, nodes) && bin <= c.maxBin
    ensures bin < |heads| && bin < |g.st.free|
    ensures var first := heads[bin].rchild;
            && (first == null <==> g.st.free[bin] == {})
            && (first != null ==> first in g.place && g.place[first] == InBin(bin) && IsLowest(g.st.free[bin], first.memAddr)
                                  && first.bin == bin && (bin < c.maxBin ==> first.blockSize == Size(c, bin)))
  {
    hide ChainOk, BinsOk, TreeOk, AddrsOk, HandsOk;
    BinsAll(c, g.trees, heads, g.place, g.st.free);
    ChainFirst(g.trees[bin], heads[bin], At(g.place, InBin(bin)), g.st.free[bin], bin, Size(c, bin), bin == c.maxBin);
    ChainData(g.trees[bin], heads[bin], At(g.place, InBin(bin)), g.st.free[bin], bin, Size(c, bin), bin == c.maxBin);
  }

  lemma ChainData(t: Tree, head: Area, members: set<Area>, addrs: set<nat>, bin: nat, size: nat, top: bool)
    requires ChainOk(t, head, members, addrs, bin, size, top)
    ensures forall n :: n in members ==> n.bin == bin && (!top ==> n.blockSize == size) && n.memAddr in addrs
    ensures forall m, n :: m in members && n in members && m.memAddr == n.memAddr ==> m == n
    ensures head.cnt == |addrs|
  {
    AddressesDiffer(t, head, null);
  }

  /** search_btree_node on a free list. */
  method SearchBin(ghost c: Config, heads: seq<Area>, ghost root: Area, bin: nat, data: nat, ghost g: Shadow, ghost nodes: set<Area>)
    returns (found: Area?)
    requires ListsOk(c, g, heads, root, nodes) && bin <= c.maxBin && bin < |heads| && bin < |g.st.free| && 0 < data
    ensures found != null ==> found in g.place && g.place[found] == InBin(bin) && found.memAddr == data
    ensures found != null <==> data in g.st.free[bin]
  {
    hide ChainOk, BinsOk, TreeOk, AddrsOk, HandsOk, At;
    BinsAll(c, g.trees, heads, g.place, g.st.free);
    ghost var members := At(g.place, InBin(bin));
    ChainTree(g.trees[bin], heads[bin], members, g.st.free[bin], bin, Size(c, bin), bin == c.maxBin);
    found := SearchBtreeNode(heads[bin], data, g.trees[bin]);
    if found != null {
      AtMember(g.place, InBin(bin), found);
    }
  }

  lemma AtMember(place: map<Area, Place>, p: Place, n: Area)
    requires n in At(place, p)
    ensures n in place && place[n] == p
  {
  }

  /** A chain is a search tree of the addresses; its head is the only node that is no member. */
  lemma ChainTree(t: Tree, head: Area, members: set<Area>, addrs: set<nat>, bin: nat, size: nat, top: bool)
    requires ChainOk(t, head, members, addrs, bin, size, top)
    ensures Linked(t, head, null) && Wf(t) && head.memAddr == 0 && Areas(t) == {head} + members
    ensures Keys(t) == addrs + {0} && forall n :: n in members ==> n.memAddr in addrs
  {
    KeysAreAddresses(t, head, null);
  }

  /** Among the sentinel and the live blocks only the sentinel is at the null address; it has no parent. */
  lemma OnlySentinelNull(c: Config, heads: seq<Area>, root: Area, g: Shadow, nodes: set<Area>)
    requires ListsOk(c, g, heads, root, nodes)
    ensures root.parent == null && root.blockSize == 0
    ensures forall n :: n in Areas(g.liveTree) ==> (n.memAddr == 0 <==> n == root)
  {
    hide ChainOk, BinsOk, HandsOk, AddrsOk;
    AddressesDiffer(g.liveTree, root, null);
    LinkedNode(g.liveTree, root, null);
  }

  /** A search result is the entry of the live map; the address 0 belongs to the sentinel alone. */
  lemma FoundLive(c: Config, t: Tree, root: Area, members: set<Area>, live: map<nat, nat>, data: nat, found: Area?)
    requires TreeOk(c, t, root, members, live)
    requires found != null ==> found in Areas(t) && found.memAddr == data
    requires found == null ==> data !in Keys(t)
    ensures (found == root <==> data == 0) && root.blockSize == 0
    ensures 0 < data && found != null ==> found in members
    ensures 0 < data ==> (found != null <==> data in live)
    ensures 0 < data && found != null ==> found.bin == live[data] && found.blockSize == Size(c, found.bin)
  {
    hide Size;
    KeysAreAddresses(t, root, null);
    AddressesDiffer(t, root, null);
    assert root in Areas(t);
    if data in live {
      var n :| n in members && n.memAddr == data;
    }
  }

  /** search_btree_node on the live tree: it finds the sentinel, which has no parent, exactly for a null pointer. */
  method SearchTree(ghost c: Config, ghost heads: seq<Area>, root: Area, data: nat, ghost g: Shadow, ghost nodes: set<Area>)
    returns (found: Area?)
    requires ListsOk(c, g, heads, root, nodes)
    ensures (found == root <==> data == 0) && root.parent == null && root.blockSize == 0
    ensures 0 < data && found != null ==> found in g.place && g.place[found] == InTree && found.memAddr == data
    ensures 0 < data ==> (found != null <==> data in g.st.live)
    ensures 0 < data && found != null ==> found.bin == g.st.live[data] && found.blockSize == Size(c, found.bin)
  {
    hide ChainOk, BinsOk, HandsOk, AddrsOk, Size;
    OnlySentinelNull(c, heads, root, g, nodes);
    found := SearchBtreeNode(root, data, g.liveTree);
    FoundLive(c, g.liveTree, root, At(g.place, InTree), g.st.live, data, found);
  }

  /** x << k on words. */
  function ShiftLeft(x: nat, k: nat): nat { x * Pow2(k) % WORD }

  lemma BlockSizeFits(c: Config, k: nat)
    requires ValidConfig(c) && k <= c.maxBin
    ensures ShiftLeft(c.minSize, k) == Size(c, k) && 0 < Size(c, k) <= Extent(c)
  {
    SizeMonotonic(c, k, c.maxBin);
    SizePositive(c, k);
  }

  /** The first half of a merge: both blocks leave their list, the descriptor of the upper one is given up. */
  method TakeNeighbours(ghost c: Config, heads: seq<Area>, ghost root: Area, idx: nat,
                        freenode: Area, mergeNode: Area, ghost g: Shadow, ghost nodes: set<Area>)
    returns (ghost g': Shadow)
    requires ListsOk(c, g, heads, root, nodes) && idx < |heads| && idx < |g.st.free| && freenode != mergeNode
    requires freenode in g.place && g.place[freenode] == InBin(idx) && mergeNode in g.place && g.place[mergeNode] == InBin(idx)
    modifies ({heads[idx]} + nodes)`parent, ({heads[idx]} + nodes)`lchild, ({heads[idx]} + nodes)`rchild, {heads[idx]}`cnt
    modifies mergeNode`memAddr
    ensures ListsOk(c, g', heads, root, nodes) && g'.place == g.place[freenode := Hand][mergeNode := Spare]
    ensures g'.st == DropFree(DropFree(g.st, idx, freenode.memAddr), idx, old(mergeNode.memAddr)).(spare := g.st.spare + 1)
    ensures mergeNode.memAddr == 0
  {
    hide *;
    g' := Unlink(c, heads, root, idx, freenode, g, nodes);
    DropFreeShape(g.st, idx, freenode.memAddr);
    g' := Unlink(c, heads, root, idx, mergeNode, g', nodes);
    DropFreeShape(DropFree(g.st, idx, freenode.memAddr), idx, mergeNode.memAddr);
    g' := Discard(c, heads, root, mergeNode, g', nodes);
  }

  lemma DropFreeShape(s: State, bin: nat, addr: nat)
    requires bin < |s.free|
    ensures |DropFree(s, bin, addr).free| == |s.free| && DropFree(s, bin, addr).spare == s.spare
  {
  }

  /** One merge of return_to_free_area: freenode and its right neighbour mergeNode become one block
      of the next bin. */
  method JoinNeighbours(ghost c: Config, heads: seq<Area>, ghost root: Area, idx: nat, size: nat,
                        freenode: Area, mergeNode: Area, ghost g: Shadow, ghost nodes: set<Area>)
    returns (ghost g': Shadow)
    requires ListsOk(c, g, heads, root, nodes) && idx + 1 < |heads| && idx < c.maxBin && |g.st.free| == c.maxBin + 1
    requires freenode in g.place && g.place[freenode] == InBin(idx) && mergeNode in g.place && g.place[mergeNode] == InBin(idx)
    requires mergeNode.memAddr == freenode.memAddr + Size(c, idx) && 0 < Size(c, idx) && size == Size(c, idx + 1)
    requires freenode.memAddr !in g.st.free[idx + 1]
    modifies (set h | h in heads)`parent, (set h | h in heads)`lchild, (set h | h in heads)`rchild, (set h | h in heads)`cnt
    modifies nodes`parent, nodes`lchild, nodes`rchild, mergeNode`memAddr, freenode`bin, freenode`blockSize
    ensures ListsOk(c, g', heads, root, nodes) && g'.st == MergeOnce(c, g.st, idx, freenode.memAddr)
    ensures g'.place == g.place[freenode := Hand][mergeNode := Spare][freenode := InBin(idx + 1)] && mergeNode.memAddr == 0
  {
    hide ListsOk, Size;
    ghost var hs := set h | h in heads;
    assert heads[idx] in hs && heads[idx + 1] in hs;
    g' := TakeNeighbours(c, heads, root, idx, freenode, mergeNode, g, nodes);
    SetBlock(c, heads, root, freenode, idx + 1, size, g', nodes);
    g' := Link(c, heads, root, idx + 1, freenode, g', nodes);
  }

  /** What one round of the merge loop may do, told by the rest of the loop. */
  ghost predicate RoundOk(c: Config, s: State, idx: nat, tracked: nat, s': State, tracked': nat, going: bool) {
    && |s.free| == |s'.free| == c.maxBin + 1 && idx <= c.maxBin
    && var goal := Merge(c, s, idx, tracked);
       if going && idx < c.maxBin then Merge(c, s', idx + 1, tracked') == goal else s' == goal
  }

  lemma RoundEmpty(c: Config, s: State, idx: nat, tracked: nat)
    requires |s.free| == c.maxBin + 1 && idx <= c.maxBin && s.free[idx] == {}
    ensures RoundOk(c, s, idx, tracked, s, tracked, false)
  {
  }

  lemma RoundJoined(c: Config, s: State, idx: nat, tracked: nat, addr: nat)
    requires |s.free| == c.maxBin + 1 && idx < c.maxBin
    requires IsLowest(s.free[idx], addr) && addr + Size(c, idx) in s.free[idx]
    ensures RoundOk(c, s, idx, tracked, MergeOnce(c, s, idx, addr), if tracked == addr + Size(c, idx) then 0 else tracked,
                    idx + 1 != c.maxBin)
  {
    hide Size;
    assert addr == Lowest(s.free[idx]);
  }

  lemma RoundPassed(c: Config, s: State, idx: nat, tracked: nat, addr: nat)
    requires |s.free| == c.maxBin + 1 && idx <= c.maxBin
    requires IsLowest(s.free[idx], addr) && addr + Size(c, idx) !in s.free[idx]
    ensures RoundOk(c, s, idx, tracked, s, tracked, tracked != addr)
  {
    hide Size;
    assert addr == Lowest(s.free[idx]);
  }

  // ---- sw_buddy_init ----

  const PAGE_SIZE: nat := 4096
  const AREA_BYTES: nat := 28

  /** get_manage_area: the bytes of the descriptor array, in whole pages. */
  function GetManageArea(heapSize: nat, minAllocSize: nat): nat {
    var len := ShiftRight(heapSize, LogOf2(minAllocSize)) * AREA_BYTES % WORD;
    if len % PAGE_SIZE != 0 then (len - len % PAGE_SIZE + PAGE_SIZE) % WORD else len
  }

  /** get_manage_area returns the fewest whole pages that hold a descriptor for each minimal block, exactly if
      their bytes do not exceed the last page below 2^32; beyond, the area wraps. */
  lemma AreaHoldsIff(heapSize: nat, minAllocSize: nat)
    ensures var need := ShiftRight(heapSize, LogOf2(minAllocSize)) * AREA_BYTES;
            var len := GetManageArea(heapSize, minAllocSize);
            need <= len < need + PAGE_SIZE && len % PAGE_SIZE == 0 <==> need <= WORD - PAGE_SIZE
  {
    hide LogOf2, ShiftRight;
    var need := ShiftRight(heapSize, LogOf2(minAllocSize)) * AREA_BYTES;
    RoundedArea(need);
  }

  lemma RoundedArea(need: nat)
    ensures var low := need % WORD;
            var len := if low % PAGE_SIZE != 0 then (low - low % PAGE_SIZE + PAGE_SIZE) % WORD else low;
            need <= len < need + PAGE_SIZE && len % PAGE_SIZE == 0 <==> need <= WORD - PAGE_SIZE
  {
    var low := need % WORD;
    var len := if low % PAGE_SIZE != 0 then (low - low % PAGE_SIZE + PAGE_SIZE) % WORD else low;
    if need < WORD {
      assert low == need;
      if low % PAGE_SIZE != 0 && need > WORD - PAGE_SIZE {
        assert low - low % PAGE_SIZE + PAGE_SIZE == WORD;
      }
    }
  }

  /** The bin of the first block, as an unsigned word. */
  function Bins(minAlloc: bv32, maxAlloc: bv32): nat {
    (LogOf2(Val(maxAlloc)) + WORD - LogOf2(Val(minAlloc)) % WORD + 1) % WORD
  }

  function InitConfig(poolStart: nat, poolSize: nat, minAlloc: bv32, maxAlloc: bv32): Config {
    var len := GetManageArea(Val(maxAlloc), Val(minAlloc));
    Config(poolStart + len, Val(minAlloc), Bins(minAlloc, maxAlloc), (poolSize - len) % WORD,
           ShiftRight(Val(maxAlloc), LogOf2(Val(minAlloc))))
  }

  /** The checks of sw_buddy_init. */
  predicate Accepted(poolSize: nat, minAlloc: bv32, maxAlloc: bv32) {
    && IsPowOf2(minAlloc) && IsPowOf2(maxAlloc)
    && Bins(minAlloc, maxAlloc) <= MAX_BINS
    && poolSize != GetManageArea(Val(maxAlloc), Val(minAlloc))
    && ShiftRight(Val(maxAlloc), LogOf2(Val(minAlloc))) != 0
  }

  /** What sw_buddy_init takes for granted: the 2 * max_alloc_size bytes behind the descriptors, which
      the first block stands for, have word addresses, and free_area has an entry for that block.  How
      many of these bytes the pool has does not matter here. */
  ghost predicate Addressable(poolStart: nat, minAlloc: bv32, maxAlloc: bv32) {
    var len := GetManageArea(Val(maxAlloc), Val(minAlloc));
    && 1 < Val(minAlloc)
    && 0 < poolStart && poolStart + len + 2 * Val(maxAlloc) < WORD
    && Bins(minAlloc, maxAlloc) != MAX_BINS
  }

  /** The extent is twice max_alloc_size. */
  lemma InitConfigValid(poolStart: nat, poolSize: nat, minAlloc: bv32, maxAlloc: bv32)
    requires Accepted(poolSize, minAlloc, maxAlloc) && Addressable(poolStart, minAlloc, maxAlloc)
    ensures var c := InitConfig(poolStart, poolSize, minAlloc, maxAlloc);
            ValidConfig(c) && Size(c, c.maxBin - 1) == Val(maxAlloc) && Extent(c) == 2 * Val(maxAlloc)
  {
    hide LogOf2, IsPowOf2, Val, ShiftRight, GetManageArea, Bins, Extent, Size, Accepted, Addressable, ValidConfig;
    var c := InitConfig(poolStart, poolSize, minAlloc, maxAlloc);
    var m, n := InitExponents(poolSize, minAlloc, maxAlloc);
    InitSizes(c, m, n);
    InitValid(poolStart, poolSize, minAlloc, maxAlloc, m, n);
  }

  lemma InitExponents(poolSize: nat, minAlloc: bv32, maxAlloc: bv32) returns (m: nat, n: nat)
    requires Accepted(poolSize, minAlloc, maxAlloc)
    ensures m <= n < 32 && Val(minAlloc) == Pow2(m) && Val(maxAlloc) == Pow2(n)
    ensures LogOf2(Val(minAlloc)) == m && Bins(minAlloc, maxAlloc) == n - m + 1
    ensures ShiftRight(Val(maxAlloc), m) == Pow2(n - m)
  {
    hide LogOf2, IsPowOf2, Val, ShiftRight, GetManageArea;
    IsPowOf2Iff(minAlloc);
    IsPowOf2Iff(maxAlloc);
    WordValue(minAlloc);
    WordValue(maxAlloc);
    m := PowerExponent(Val(minAlloc));
    n := PowerExponent(Val(maxAlloc));
    LogOfPow2(m);
    LogOfPow2(n);
    ShiftPow2(n, m);
  }

  /** start lies whole pages behind poolStart, and is the first such address behind count descriptors. */
  ghost predicate Behind(start: nat, poolStart: nat, count: nat) {
    && poolStart + AREA_BYTES * count <= start < poolStart + AREA_BYTES * count + PAGE_SIZE
    && (start - poolStart) % PAGE_SIZE == 0
  }

  /** The managed memory starts on the first page boundary behind the descriptors, whose array of accepted
      parameters never wraps, and ends where the pool ends, in 32-bit addresses. */
  lemma DescriptorsFit(poolStart: nat, poolSize: nat, minAlloc: bv32, maxAlloc: bv32)
    requires Accepted(poolSize, minAlloc, maxAlloc)
    ensures var c := InitConfig(poolStart, poolSize, minAlloc, maxAlloc);
            Behind(c.start, poolStart, c.total) && (c.start + c.memSize - (poolStart + poolSize)) % WORD == 0
  {
    hide LogOf2, IsPowOf2, Val, ShiftRight, GetManageArea, Bins, Accepted, Pow2;
    var m, n := InitExponents(poolSize, minAlloc, maxAlloc);
    assert n - m < MAX_BINS by { AcceptedBins(poolSize, minAlloc, maxAlloc); }
    Pow2Monotonic(n - m, MAX_BINS - 1);
    Pow2Values();
    AreaHoldsIff(Val(maxAlloc), Val(minAlloc));
  }

  lemma AcceptedBins(poolSize: nat, minAlloc: bv32, maxAlloc: bv32)
    requires Accepted(poolSize, minAlloc, maxAlloc)
    ensures Bins(minAlloc, maxAlloc) <= MAX_BINS
  {
  }

  lemma InitSizes(c: Config, m: nat, n: nat)
    requires m <= n && c.minSize == Pow2(m) && c.maxBin == n - m + 1
    ensures Size(c, c.maxBin - 1) == Pow2(n) && Extent(c) == 2 * Pow2(n)
  {
    Pow2Add(m, n - m);
    Pow2Add(m, n - m + 1);
    assert Pow2(n + 1) == 2 * Pow2(n);
  }

  lemma InitValid(poolStart: nat, poolSize: nat, minAlloc: bv32, maxAlloc: bv32, m: nat, n: nat)
    requires Accepted(poolSize, minAlloc, maxAlloc) && Addressable(poolStart, minAlloc, maxAlloc)
    requires m <= n < 32 && Val(minAlloc) == Pow2(m) && Val(maxAlloc) == Pow2(n)
    requires LogOf2(Val(minAlloc)) == m && Bins(minAlloc, maxAlloc) == n - m + 1
    requires ShiftRight(Val(maxAlloc), m) == Pow2(n - m)
    requires Extent(InitConfig(poolStart, poolSize, minAlloc, maxAlloc)) == 2 * Pow2(n)
    ensures ValidConfig(InitConfig(poolStart, poolSize, minAlloc, maxAlloc))
    ensures InitConfig(poolStart, poolSize, minAlloc, maxAlloc).maxBin == n - m + 1
  {
    hide LogOf2, IsPowOf2, Val, ShiftRight, GetManageArea, Extent, Bins;
    assert IsPower(Val(minAlloc));
  }

  /** The fields of the pool before the first block is added. */
  lemma InitStart(poolStart: nat, poolSize: nat, minAlloc: bv32, maxAlloc: bv32)
    requires Accepted(poolSize, minAlloc, maxAlloc) && Addressable(poolStart, minAlloc, maxAlloc)
    ensures var c := InitConfig(poolStart, poolSize, minAlloc, maxAlloc);
            var len := GetManageArea(Val(maxAlloc), Val(minAlloc));
            && c.start == (poolStart + len) % WORD
            && c.memSize == (poolSize - len) % WORD
            && c.total == ShiftRight(Val(maxAlloc), LogOf2(Val(minAlloc)))
            && c.minSize == Val(minAlloc) && c.maxBin == Bins(minAlloc, maxAlloc)
  {
    hide LogOf2, IsPowOf2, Val, ShiftRight, GetManageArea, Bins;
  }

  method Clear(a: Area)
    modifies a
    ensures a.memAddr == a.blockSize == a.bin == a.cnt == 0 && Detached(a)
  {
    a.parent, a.lchild, a.rchild := null, null, null;
    a.memAddr, a.blockSize, a.bin, a.cnt := 0, 0, 0, 0;
  }

  method ClearAll(heads: seq<Area>, root: Area)
    requires root !in heads
    modifies set h | h in heads
    ensures forall h :: h in heads ==> h.memAddr == h.cnt == 0 && Detached(h)
  {
    var i := 0;
    while i < |heads|
      invariant 0 <= i <= |heads|
      invariant forall j :: 0 <= j < i ==> heads[j].memAddr == heads[j].cnt == 0 && Detached(heads[j])
    {
      Clear(heads[i]);
      i := i + 1;
    }
  }

  method NewAreas(count: nat) returns (area: seq<Area>)
    ensures |area| == count && (forall a :: a in area ==> fresh(a) && a.memAddr == 0)
    ensures |set a | a in area| == count
  {
    area := [];
    while |area| < count
      invariant |area| <= count && (forall a :: a in area ==> fresh(a) && a.memAddr == 0)
      invariant |set a | a in area| == |area|
    {
      var a := new Area();
      ghost var before := set b | b in area;
      area := area + [a];
      assert (set b | b in area) == before + {a};
    }
  }

  /** The sentinels of the free lists. */
  method NewHeads() returns (heads: seq<Area>)
    ensures |heads| == MAX_BINS && (forall h :: h in heads ==> fresh(h))
    ensures forall i, j :: 0 <= i < j < |heads| ==> heads[i] != heads[j]
  {
    heads := [];
    while |heads| < MAX_BINS
      invariant |heads| <= MAX_BINS && (forall h :: h in heads ==> fresh(h))
      invariant forall i, j :: 0 <= i < j < |heads| ==> heads[i] != heads[j]
    {
      var head := new Area();
      heads := heads + [head];
    }
  }

  ghost function UnusedState(c: Config): State {
    State(seq(c.maxBin + 1, k => {}), map[], {}, c.total, c.memSize)
  }

  /** Every descriptor unused, every list empty. */
  ghost function Unused(c: Config, heads: seq<Area>, root: Area, nodes: set<Area>): Shadow
    requires c.maxBin < |heads|
  {
    Shadow(UnusedState(c), Node(Nil, root, 0, Nil),
           seq(c.maxBin + 1, k requires 0 <= k <= c.maxBin => Node(Nil, heads[k], 0, Nil)), map n | n in nodes :: Spare)
  }

  lemma UnusedLists(c: Config, heads: seq<Area>, root: Area, area: seq<Area>)
    requires c.maxBin < |heads| && |set n | n in area| == c.total
    requires forall i, j :: 0 <= i < j < |heads| ==> heads[i] != heads[j]
    requires root !in heads && root !in area && (forall h :: h in heads ==> h !in area)
    requires root.memAddr == root.blockSize == 0 && Detached(root)
    requires forall h :: h in heads ==> h.memAddr == h.cnt == 0 && Detached(h)
    requires forall n :: n in area ==> n.memAddr == 0
    ensures ListsOk(c, Unused(c, heads, root, set n | n in area), heads, root, set n | n in area)
  {
    hide ChainOk, TreeOk, BinsOk;
    var nodes := set n | n in area;
    var g := Unused(c, heads, root, nodes);
    UnusedAt(g.place, nodes);
    UnusedBins(c, heads, root, nodes);
    UnusedTree(c, root);
  }

  lemma UnusedAt(place: map<Area, Place>, nodes: set<Area>)
    requires place == map n | n in nodes :: Spare
    ensures forall p :: At(place, p) == if p == Spare then nodes else {}
  {
  }

  lemma UnusedBins(c: Config, heads: seq<Area>, root: Area, nodes: set<Area>)
    requires c.maxBin < |heads| && (forall h :: h in heads ==> h.memAddr == h.cnt == 0 && Detached(h))
    ensures var g := Unused(c, heads, root, nodes); BinsOk(c, g.trees, heads, g.place, g.st.free)
  {
    hide ChainOk, At;
    var g := Unused(c, heads, root, nodes);
    UnusedAt(g.place, nodes);
    forall k | 0 <= k <= c.maxBin
      ensures ChainOk(g.trees[k], heads[k], At(g.place, InBin(k)), g.st.free[k], k, Size(c, k), k == c.maxBin)
    {
      UnusedChain(heads[k], k, Size(c, k), k == c.maxBin);
    }
  }

  lemma UnusedShape(c: Config, heads: seq<Area>, root: Area, nodes: set<Area>)
    requires c.maxBin < |heads|
    ensures var g := Unused(c, heads, root, nodes);
            && g.st == UnusedState(c) && g.st.heap == c.memSize && |g.st.live| == 0
            && |g.st.free| == c.maxBin + 1 && g.place.Keys == nodes
  {
  }

  lemma FirstBlockState(c: Config)
    requires ValidConfig(c)
    ensures var s := UnusedState(c);
            && 0 < c.start && 0 < s.spare && c.maxBin < |s.free| && c.start !in s.free[c.maxBin]
            && Initial(c) == AddFree(s.(spare := s.spare - 1), c.maxBin, c.start)
  {
    var s := UnusedState(c);
    var t := AddFree(s.(spare := s.spare - 1), c.maxBin, c.start);
    forall k | 0 <= k <= c.maxBin
      ensures t.free[k] == Initial(c).free[k]
    {
    }
    assert t.free == Initial(c).free;
  }

  lemma UnusedChain(head: Area, bin: nat, size: nat, top: bool)
    requires head.memAddr == 0 && head.cnt == 0 && Detached(head)
    ensures ChainOk(Node(Nil, head, 0, Nil), head, {}, {}, bin, size, top)
  {
  }

  lemma UnusedTree(c: Config, root: Area)
    requires root.memAddr == root.blockSize == 0 && Detached(root)
    ensures TreeOk(c, Node(Nil, root, 0, Nil), root, {}, map[])
  {
  }

  class Pool {
    var area: seq<Area>
    var totalAreaCnt: nat
    var nextFreeIndex: nat
    var allocCnt: nat
    const allocTree: Area
    var maxAllocSize: nat
    var minAllocSize: nat
    var currHeapSize: nat
    var maxBin: nat
    const freeArea: seq<Area>

    ghost var cfg: Config
    ghost var g: Shadow

    /** The structure before sw_buddy_init: the sentinels it embeds, all zero. */
    constructor ()
      ensures Blank() && fresh(All())
    {
      var heads := NewHeads();
      allocTree := new Area();
      freeArea, area := heads, [];
    }

    /** The sentinels are distinct structures; there is no descriptor array yet. */
    ghost predicate Blank()
      reads this`area
    {
      && |freeArea| == MAX_BINS && area == [] && allocTree !in freeArea
      && forall i, j :: 0 <= i < j < |freeArea| ==> freeArea[i] != freeArea[j]
    }

    ghost function Nodes(): set<Area>
      reads this`area
    {
      set n | n in area
    }

    ghost function All(): set<Area>
      reads this`area
    {
      Nodes() + (set h | h in freeArea) + {allocTree}
    }

    /** The parts of the pool that no operation changes. */
    ghost predicate Fixed()
      reads this`area, this`totalAreaCnt
      reads this`maxAllocSize, this`minAllocSize, this`maxBin, this`cfg
    {
      && ValidConfig(cfg)
      && |area| == totalAreaCnt == cfg.total
      && |freeArea| == MAX_BINS
      && maxBin == cfg.maxBin < MAX_BINS && minAllocSize == cfg.minSize
      && maxAllocSize == Size(cfg, cfg.maxBin - 1)
    }

    ghost predicate Valid()
      reads this, freeArea, allocTree, Nodes()
    {
      && Fixed()
      && ListsOk(cfg, g, freeArea, allocTree, Nodes())
      && |g.st.free| == cfg.maxBin + 1 && g.place.Keys == Nodes()
      && currHeapSize == g.st.heap
      && allocCnt == |g.st.live|
      && nextFreeIndex < totalAreaCnt
    }

    lemma Shape()
      requires Fixed()
      ensures ValidConfig(cfg) && |area| == totalAreaCnt && |freeArea| == MAX_BINS && cfg.maxBin < MAX_BINS
      ensures maxBin == cfg.maxBin && minAllocSize == cfg.minSize && maxAllocSize == Size(cfg, cfg.maxBin - 1)
      ensures 1 <= cfg.maxBin
    {
    }

    /** Between calls: the blocks tile the extent and everything is accounted for. */
    ghost predicate Ready()
      reads this, freeArea, allocTree, Nodes()
    {
      Valid() && Inv(cfg, g.st)
    }

    /** node is in no list and describes the block of bin at addr. */
    ghost predicate Holds(node: Area, addr: nat, bin: nat)
      reads this`g, this`cfg, node
    {
      && node in g.place && g.place[node] == Hand
      && node.memAddr == addr && node.bin == bin && node.blockSize == Size(cfg, bin)
    }

    /** i comes before k in a circular search from start. */
    ghost predicate Earlier(start: nat, i: nat, k: nat) {
      if start <= k then start <= i < k else start <= i || i < k
    }

    /** The descriptor behind which the next search starts. */
    function LastTaken(): int
      reads this`nextFreeIndex, this`totalAreaCnt
    {
      if nextFreeIndex == 0 then totalAreaCnt - 1 else nextFreeIndex - 1
    }

    /** get_free_node: the first unused descriptor, in a circular search from next_free_index, which moves
        behind it. */
    method GetFreeNode() returns (node: Area?)
      requires Valid()
      modifies this`nextFreeIndex, Nodes()
      ensures Valid() && g == old(g)
      ensures node == null <==> g.st.spare == 0
      ensures node != null ==> node in g.place && g.place[node] == Spare && Detached(node)
      ensures node != null ==>
                && 0 <= LastTaken() < |area| && node == area[LastTaken()]
                && forall i :: 0 <= i < |area| && Earlier(old(nextFreeIndex), i, LastTaken()) ==> area[i].memAddr != 0
      ensures node == null ==> nextFreeIndex == old(nextFreeIndex)
      ensures forall n :: n in Nodes() && n != node ==> unchanged(n)
    {
      hide BinsOk, TreeOk, HandsOk;
      var startIndex := nextFreeIndex;
      var index := startIndex;
      while index < totalAreaCnt
        invariant startIndex <= index <= totalAreaCnt
        invariant forall i :: startIndex <= i < index ==> area[i].memAddr != 0
        modifies {}
      {
        if area[index].memAddr == 0 {
          break;
        }
        index := index + 1;
      }
      if index == totalAreaCnt {
        index := 0;
        while index < startIndex
          invariant 0 <= index <= startIndex
          invariant forall i :: 0 <= i < index ==> area[i].memAddr != 0
          modifies {}
        {
          if area[index].memAddr == 0 {
            break;
          }
          index := index + 1;
        }
        if index == startIndex {
          NoneSpare(g.place, area);
          return null;
        }
      }
      node := area[index];
      ZeroArea(cfg, freeArea, allocTree, node, g, Nodes());
      assert node in At(g.place, Spare);
      nextFreeIndex := if index + 1 != totalAreaCnt then index + 1 else 0;
    }

    /** One round of the splitting loop of get_free_buddy: the upper half of the block in hand
        becomes a free block of bin idx - 1, or, without a descriptor, the block is dropped. */
    method SplitOnce(node: Area, idx: nat) returns (ok: bool)
      requires Valid() && 0 < idx <= maxBin && node in g.place && g.place[node] == Hand
      requires InvHeld(cfg, g.st, node.memAddr, idx)
      modifies this`nextFreeIndex, this`g, freeArea, Nodes()
      ensures Valid() && node.memAddr == old(node.memAddr) && node in g.place && g.place[node] == Hand
      ensures ok == (0 < old(g.st.spare))
      ensures ok ==> g.st == AddFree(old(g.st), idx - 1, node.memAddr + Size(cfg, idx - 1)).(spare := old(g.st.spare) - 1)
                     && InvHeld(cfg, g.st, node.memAddr, idx - 1)
      ensures !ok ==> g.st == old(g.st).(lost := old(g.st.lost) + {Block(node.memAddr, idx)}) && Inv(cfg, g.st)
    {
      hide ListsOk, Inv, InvHeld, Split, Fixed, ValidConfig, Nodes;
      Shape();
      var freenode := GetFreeNode();
      if freenode == null {
        LoseStep(cfg, g.st, node.memAddr, idx);
        DroppingLists(cfg, g, freeArea, allocTree, Nodes(), node.memAddr, idx);
        g := Dropping(g, node.memAddr, idx);
        return false;
      }
      AddHalf(node, freenode, idx);
      return true;
    }

    /** The upper half of the block in hand enters its free list in the descriptor freenode. */
    method AddHalf(node: Area, freenode: Area, idx: nat)
      requires Valid() && 0 < idx <= maxBin && node in g.place && g.place[node] == Hand
      requires InvHeld(cfg, g.st, node.memAddr, idx) && 0 < g.st.spare
      requires freenode in g.place && g.place[freenode] == Spare && Detached(freenode)
      modifies this`g, freeArea, Nodes()
      ensures Valid() && node.memAddr == old(node.memAddr) && node in g.place && g.place[node] == Hand
      ensures g.st == AddFree(old(g.st), idx - 1, node.memAddr + Size(cfg, idx - 1)).(spare := old(g.st.spare) - 1)
              && InvHeld(cfg, g.st, node.memAddr, idx - 1)
    {
      hide ListsOk, Inv, InvHeld, Fixed, ValidConfig, Size, Nodes;
      Shape();
      var size := ShiftLeft(minAllocSize, idx - 1);
      HeldFits(cfg, g.st, node.memAddr, idx);
      BlockSizeFits(cfg, idx - 1);
      SplitStep(cfg, g.st, node.memAddr, idx);
      g := Claim(cfg, freeArea, allocTree, freenode, (node.memAddr + size) % WORD, idx - 1, size, g, Nodes());
      g := Link(cfg, freeArea, allocTree, idx - 1, freenode, g, Nodes());
    }

    /** get_free_buddy: the splitting loop. */
    method SplitDown(node: Area, idx: nat, bin: nat) returns (r: Area?)
      requires Valid() && bin < idx <= maxBin && node in g.place && g.place[node] == Hand
      requires InvHeld(cfg, g.st, node.memAddr, idx)
      modifies this`nextFreeIndex, this`g, freeArea, Nodes()
      ensures Valid()
      ensures var (s, o) := Split(cfg, old(g.st), old(node.memAddr), idx, bin);
              g.st == s && (r == null <==> o == None) && (r != null ==> r == node && Holds(node, o.value, bin))
      ensures if r == null then Inv(cfg, g.st) else InvHeld(cfg, g.st, r.memAddr, bin)
    {
      hide ListsOk, Inv, InvHeld, Nodes;
      var idx2 := idx;
      while idx2 > bin
        invariant bin <= idx2 <= idx && Valid() && node.memAddr == old(node.memAddr)
        invariant node in g.place && g.place[node] == Hand && InvHeld(cfg, g.st, node.memAddr, idx2)
        invariant idx2 < |g.st.free|
        invariant Split(cfg, g.st, node.memAddr, idx2, bin) == Split(cfg, old(g.st), old(node.memAddr), idx, bin)
      {
        var ok := SplitOnce(node, idx2);
        if !ok {
          return null;
        }
        idx2 := idx2 - 1;
      }
      var size := ShiftLeft(minAllocSize, bin);
      BlockSizeFits(cfg, bin);
      SetBlock(cfg, freeArea, allocTree, node, bin, size, g, Nodes());
      return node;
    }

    /** get_free_buddy: the loop that looks for a bin. */
    method GetFreeBuddy(bin: nat) returns (node: Area?)
      requires Ready() && bin < maxBin
      modifies this`nextFreeIndex, this`g, freeArea, Nodes()
      ensures Valid()
      ensures var (s, r) := BuddySpec.GetFreeBuddy(cfg, old(g.st), bin);
              g.st == s && (node == null <==> r == None) && (node != null ==> Holds(node, r.value, bin))
      ensures if node == null then Inv(cfg, g.st) else InvHeld(cfg, g.st, node.memAddr, bin)
    {
      hide ListsOk, Inv, InvHeld, ValidConfig, Nodes;
      var idx := bin;
      while idx <= maxBin
        invariant bin <= idx <= maxBin + 1
        invariant FirstBin(g.st.free, bin) == FirstBin(g.st.free, idx)
        modifies {}
      {
        BinFirst(cfg, freeArea, allocTree, idx, g, Nodes());
        if freeArea[idx].rchild != null {
          break;
        }
        idx := idx + 1;
      }
      if idx > maxBin {
        return null;
      }
      BinFirst(cfg, freeArea, allocTree, idx, g, Nodes());
      node := freeArea[idx].rchild;
      assert node.memAddr == Lowest(g.st.free[idx]);
      TakeFree(cfg, g.st, idx, node.memAddr);
      g := Unlink(cfg, freeArea, allocTree, idx, node, g, Nodes());
      if idx != bin {
        node := SplitDown(node, idx, bin);
      }
    }

    /** One round of the loop of return_to_free_area; temp is the descriptor of the block that was
        freed.  The sum in buddy does not wrap, so mergeNode is always the upper neighbour. */
    method MergeRound(idx: nat, temp: Area) returns (going: bool)
      requires Ready() && idx <= maxBin
      requires temp in g.place && (g.place[temp] == Spare || g.place[temp].InBin?)
      modifies this`g, freeArea, Nodes()
      ensures Ready() && temp in g.place && (g.place[temp] == Spare || g.place[temp].InBin?)
      ensures RoundOk(cfg, old(g.st), idx, old(temp.memAddr), g.st, temp.memAddr, going)
    {
      hide ListsOk, Inv, Fixed, ValidConfig, RoundOk, Size, Nodes;
      Shape();
      BinFirst(cfg, freeArea, allocTree, idx, g, Nodes());
      var freenode := freeArea[idx].rchild;
      if freenode == null {
        RoundEmpty(cfg, g.st, idx, temp.memAddr);
        return false;
      }
      FreeFits(cfg, g.st, idx, freenode.memAddr);
      BlockSizeFits(cfg, idx);
      var buddy := (freenode.memAddr + ShiftLeft(minAllocSize, idx)) % WORD;
      var mergeNode := SearchBin(cfg, freeArea, allocTree, idx, buddy, g, Nodes());
      if mergeNode != null {
        SameNode(cfg, freeArea, allocTree, g, Nodes(), temp, mergeNode);
        JoinRound(idx, freenode, mergeNode, temp);
        going := idx + 1 != maxBin;
      } else {
        SameNode(cfg, freeArea, allocTree, g, Nodes(), temp, freenode);
        RoundPassed(cfg, g.st, idx, temp.memAddr, freenode.memAddr);
        going := temp != freenode;
      }
    }

    /** The merging branch of the loop of return_to_free_area. */
    method JoinRound(idx: nat, freenode: Area, mergeNode: Area, temp: Area)
      requires Ready() && idx <= maxBin
      requires temp in g.place && (g.place[temp] == Spare || g.place[temp].InBin?)
      requires freenode in g.place && g.place[freenode] == InBin(idx) && IsLowest(g.st.free[idx], freenode.memAddr)
      requires mergeNode in g.place && g.place[mergeNode] == InBin(idx) && mergeNode.memAddr in g.st.free[idx]
      requires mergeNode.memAddr == freenode.memAddr + Size(cfg, idx)
      requires temp.memAddr == mergeNode.memAddr <==> temp == mergeNode
      modifies this`g, freeArea, Nodes()
      ensures Ready() && idx < maxBin && temp in g.place && (g.place[temp] == Spare || g.place[temp].InBin?)
      ensures RoundOk(cfg, old(g.st), idx, old(temp.memAddr), g.st, temp.memAddr, idx + 1 != maxBin)
    {
      hide ListsOk, Inv, Fixed, ValidConfig, RoundOk, Size, Nodes;
      Shape();
      BlockSizeFits(cfg, idx);
      MergeStep(cfg, g.st, idx, freenode.memAddr);
      RoundJoined(cfg, g.st, idx, temp.memAddr, freenode.memAddr);
      BlockSizeFits(cfg, idx + 1);
      g := JoinNeighbours(cfg, freeArea, allocTree, idx, ShiftLeft(minAllocSize, idx + 1), freenode, mergeNode, g, Nodes());
    }

    /** return_to_free_area */
    method ReturnToFreeArea(node: Area, bin: nat)
      requires Valid() && bin <= maxBin && node in g.place && g.place[node] == Hand
      requires InvHeld(cfg, g.st, node.memAddr, bin)
      modifies this`g, freeArea, Nodes()
      ensures Ready() && g.st == BuddySpec.ReturnToFreeArea(cfg, old(g.st), old(node.memAddr), bin)
    {
      hide ListsOk, Inv, InvHeld, Fixed, ValidConfig, Merge, Nodes;
      Shape();
      ghost var addr := node.memAddr;
      GiveFree(cfg, g.st, addr, bin);
      BlockSizeFits(cfg, bin);
      SetBlock(cfg, freeArea, allocTree, node, bin, ShiftLeft(minAllocSize, bin), g, Nodes());
      g := Link(cfg, freeArea, allocTree, bin, node, g, Nodes());
      if bin == maxBin {
        return;
      }
      ghost var goal := Merge(cfg, g.st, bin, addr);
      var idx := bin;
      var going := true;
      while going && idx <= maxBin
        invariant bin <= idx <= maxBin + 1 && Ready()
        invariant node in g.place && (g.place[node] == Spare || g.place[node].InBin?)
        invariant if going && idx <= maxBin then Merge(cfg, g.st, idx, node.memAddr) == goal else g.st == goal
        decreases maxBin + 1 - idx, going
      {
        going := MergeRound(idx, node);
        idx := idx + 1;
      }
    }

    /** sw_buddy_init.  The descriptor array at pool_start is a sequence of new structures.  The
        last loop of the source runs once, as max_alloc_size >> log_of_2(max_alloc_size) is 1. */
    method SwBuddyInit(poolStart: nat, poolSize: nat, minAlloc: bv32, maxAlloc: bv32) returns (ok: bool)
      requires Blank()
      requires Accepted(poolSize, minAlloc, maxAlloc) ==> Addressable(poolStart, minAlloc, maxAlloc)
      modifies this, allocTree, freeArea
      ensures ok <==> Accepted(poolSize, minAlloc, maxAlloc)
      ensures ok ==> Ready() && cfg == InitConfig(poolStart, poolSize, minAlloc, maxAlloc) && g.st == Initial(cfg)
      ensures ok ==> fresh(Nodes()) && Behind(cfg.start, poolStart, |area|)
    {
      hide LogOf2, IsPowOf2, Val, ShiftRight, ListsOk, InitConfig, Addressable, GetManageArea, Bins, Behind;
      if !IsPowOf2(minAlloc) || !IsPowOf2(maxAlloc) {
        return false;
      }
      var minAllocShift, maxAllocShift := LogOf2(Val(minAlloc)), LogOf2(Val(maxAlloc));
      totalAreaCnt := ShiftRight(Val(maxAlloc), minAllocShift);
      var manageAreaLen := GetManageArea(Val(maxAlloc), Val(minAlloc));
      var bins := Bins(minAlloc, maxAlloc);
      if bins > MAX_BINS {
        return false;
      }
      var memSize := poolSize - manageAreaLen;
      if memSize == 0 {
        return false;
      }
      ok := Prepare(memSize, bins, manageAreaLen, poolStart, poolSize, minAlloc, maxAlloc);
    }

    /** sw_buddy_init after its first checks. */
    method Prepare(memSize: int, bins: nat, manageAreaLen: nat, poolStart: nat, ghost poolSize: nat, minAlloc: bv32,
                   maxAlloc: bv32) returns (ok: bool)
      requires Blank() && IsPowOf2(minAlloc) && IsPowOf2(maxAlloc) && bins == Bins(minAlloc, maxAlloc) <= MAX_BINS
      requires manageAreaLen == GetManageArea(Val(maxAlloc), Val(minAlloc)) && memSize == poolSize - manageAreaLen != 0
      requires totalAreaCnt == ShiftRight(Val(maxAlloc), LogOf2(Val(minAlloc)))
      requires totalAreaCnt != 0 ==> Addressable(poolStart, minAlloc, maxAlloc)
      modifies this, allocTree, freeArea
      ensures ok <==> old(totalAreaCnt) != 0
      ensures ok ==> Ready() && cfg == InitConfig(poolStart, poolSize, minAlloc, maxAlloc) && g.st == Initial(cfg)
      ensures ok ==> fresh(Nodes()) && Behind(cfg.start, poolStart, |area|)
    {
      hide LogOf2, IsPowOf2, Val, ShiftRight, ListsOk, InitConfig, Addressable, GetManageArea, Bins, Behind;
      nextFreeIndex, allocCnt, currHeapSize := 0, 0, memSize % WORD;
      minAllocSize, maxAllocSize, maxBin := Val(minAlloc), Val(maxAlloc), bins;
      Clear(allocTree);
      ClearAll(freeArea, allocTree);
      area := NewAreas(totalAreaCnt);
      if totalAreaCnt == 0 {
        return false;
      }
      ghost var nodes := Nodes();
      assert fresh(nodes);
      InitStart(poolStart, poolSize, minAlloc, maxAlloc);
      Populate((poolStart + manageAreaLen) % WORD, poolStart, poolSize, minAlloc, maxAlloc);
      assert Nodes() == nodes;
      return true;
    }

    /** The end of sw_buddy_init: the lists are empty, the first block enters the top bin. */
    method Populate(memStart: nat, ghost poolStart: nat, ghost poolSize: nat, ghost minAlloc: bv32, ghost maxAlloc: bv32)
      requires Accepted(poolSize, minAlloc, maxAlloc) && Addressable(poolStart, minAlloc, maxAlloc)
      requires |freeArea| == MAX_BINS && allocTree !in freeArea && allocTree !in area
      requires forall i, j :: 0 <= i < j < |freeArea| ==> freeArea[i] != freeArea[j]
      requires forall h :: h in freeArea ==> h !in area && h.memAddr == h.cnt == 0 && Detached(h)
      requires allocTree.memAddr == allocTree.blockSize == 0 && Detached(allocTree) && (forall n :: n in area ==> n.memAddr == 0)
      requires var c := InitConfig(poolStart, poolSize, minAlloc, maxAlloc);
               && |Nodes()| == |area| == totalAreaCnt == c.total && currHeapSize == c.memSize && minAllocSize == c.minSize
               && maxBin == c.maxBin && nextFreeIndex == 0 && allocCnt == 0
      requires maxAllocSize == Val(maxAlloc) && memStart == InitConfig(poolStart, poolSize, minAlloc, maxAlloc).start
      modifies this`nextFreeIndex, this`g, this`cfg, freeArea, Nodes()
      ensures Ready() && cfg == InitConfig(poolStart, poolSize, minAlloc, maxAlloc) && g.st == Initial(cfg)
      ensures Behind(cfg.start, poolStart, |area|)
    {
      hide LogOf2, IsPowOf2, Val, ShiftRight, ListsOk, Inv, InitConfig, Addressable, Accepted, Initial, Unused, Behind;
      DescriptorsFit(poolStart, poolSize, minAlloc, maxAlloc);
      cfg := InitConfig(poolStart, poolSize, minAlloc, maxAlloc);
      InitConfigValid(poolStart, poolSize, minAlloc, maxAlloc);
      UnusedLists(cfg, freeArea, allocTree, area);
      g := Unused(cfg, freeArea, allocTree, Nodes());
      UnusedShape(cfg, freeArea, allocTree, Nodes());
      AddFirstBlock(memStart);
    }

    /** The block that sw_buddy_init puts into the top bin; its recorded size is max_alloc_size. */
    method AddFirstBlock(memStart: nat)
      requires Valid() && memStart == cfg.start && g.st == UnusedState(cfg)
      modifies this`nextFreeIndex, this`g, freeArea, Nodes()
      ensures Ready() && g.st == Initial(cfg)
    {
      hide ListsOk, Inv, Fixed, ValidConfig, UnusedState, Initial, Nodes;
      Shape();
      FirstBlockState(cfg);
      var freenode := GetFreeNode();
      g := Claim(cfg, freeArea, allocTree, freenode, memStart, maxBin, maxAllocSize, g, Nodes());
      g := Link(cfg, freeArea, allocTree, maxBin, freenode, g, Nodes());
      InitialSound(cfg);
    }

    /** get_contiguous_block, as sw_buddy_alloc calls it: more than one block of the top bin never exists. */
    method GetContiguousBlock(numBlocks: nat, bin: nat) returns (node: Area?)
      requires Ready() && bin == maxBin && 1 < numBlocks
      ensures node == null
    {
      hide ListsOk, Inv, Fixed, ValidConfig, Nodes;
      Shape();
      if bin > maxBin {
        return null;
      }
      BinFirst(cfg, freeArea, allocTree, bin, g, Nodes());
      if freeArea[bin].rchild == null {
        return null;
      }
      BinCount(cfg, freeArea, allocTree, bin, g, Nodes());
      TopBinSingle(cfg, g.st);
      if freeArea[bin].cnt < numBlocks {
        return null;
      }
      assert false;
      node := null;
    }

    /** sw_buddy_alloc; 0 is NULL. */
    method SwBuddyAlloc(size: bv32) returns (addr: nat)
      requires Ready()
      modifies this`nextFreeIndex, this`currHeapSize, this`allocCnt, this`g, freeArea, allocTree, Nodes()
      ensures Ready()
      ensures var (s, r) := Alloc(cfg, old(g.st), size);
              g.st == s && addr == (if r.Some? then r.value else 0) && (r.Some? ==> 0 < r.value)
    {
      hide ListsOk, Inv, Fixed, ValidConfig, NextPow, LogOf2, ShiftRight, Val, Size, Tiles, BuddySpec.GetFreeBuddy, Nodes;
      Shape();
      ValIsInt(size);
      if size as int > currHeapSize {
        return 0;
      }
      var rounded := NextPowOf2(size);
      ValIsInt(rounded);
      var nextPowSize := rounded as int;
      if nextPowSize > currHeapSize {
        return 0;
      }
      if nextPowSize > maxAllocSize {
        TooLarge(cfg, size);
        var none := GetContiguousBlock(ShiftRight(nextPowSize, maxBin), maxBin);
        return 0;
      }
      addr := AllocRounded(nextPowSize, size);
    }

    /** sw_buddy_alloc for a rounded size that passed its checks. */
    method AllocRounded(nextPowSize: nat, ghost size: bv32) returns (addr: nat)
      requires Ready() && Admitted(cfg, g.st, size) && nextPowSize == Val(NextPow(size))
      modifies this`nextFreeIndex, this`currHeapSize, this`allocCnt, this`g, freeArea, allocTree, Nodes()
      ensures Ready()
      ensures var (s, r) := Alloc(cfg, old(g.st), size);
              g.st == s && addr == (if r.Some? then r.value else 0) && (r.Some? ==> 0 < r.value)
    {
      hide ListsOk, Inv, InvHeld, Fixed, ValidConfig, NextPow, LogOf2, ShiftRight, Val, Size, Nodes;
      Shape();
      var minAllocShift := LogOf2(minAllocSize);
      var bin := LogOf2(ShiftRight(nextPowSize, minAllocShift));
      BinFits(cfg, size);
      AllocKeeps(cfg, g.st, size);
      var node := GetFreeBuddy(bin);
      if node == null {
        return 0;
      }
      addr := TakeLiveBlock(node, bin);
    }

    /** The last steps of sw_buddy_alloc. */
    method TakeLiveBlock(node: Area, bin: nat) returns (addr: nat)
      requires Valid() && bin < maxBin && Holds(node, node.memAddr, bin) && InvHeld(cfg, g.st, node.memAddr, bin)
      modifies this`currHeapSize, this`allocCnt, this`g, allocTree, Nodes()
      ensures Ready() && addr == old(node.memAddr) && 0 < addr
      ensures g.st == old(g.st).(live := old(g.st.live)[addr := bin],
                heap := HeapLess(old(g.st.heap), Size(cfg, bin)))
    {
      hide ListsOk, Inv, InvHeld, Fixed, ValidConfig, Size, Nodes;
      Shape();
      HeldFits(cfg, g.st, node.memAddr, bin);
      GiveLive(cfg, g.st, node.memAddr, bin);
      currHeapSize := HeapLess(currHeapSize, node.blockSize);
      g := Adopt(cfg, freeArea, allocTree, node, g, Nodes());
      HeapLists(cfg, g, freeArea, allocTree, Nodes(), currHeapSize);
      g := g.(st := g.st.(heap := currHeapSize));
      allocCnt := allocCnt + 1;
      return node.memAddr;
    }

    /** sw_buddy_free.  A null pointer finds the sentinel of the live tree, whose null parent
        remove_btree_node then follows; that call is excluded. */
    method SwBuddyFree(ptr: nat)
      requires Ready() && 0 < ptr
      modifies this`currHeapSize, this`allocCnt, this`g, freeArea, allocTree, Nodes()
      ensures Ready() && g.st == Release(cfg, old(g.st), ptr)
    {
      hide ListsOk, Inv, InvHeld, Fixed, ValidConfig, Size, Nodes;
      Shape();
      var node := SearchTree(cfg, freeArea, allocTree, ptr, g, Nodes());
      if node == null {
        return;
      }
      DropLiveBlock(node);
      ReturnToFreeArea(node, node.bin);
    }

    /** The first steps of sw_buddy_free. */
    method DropLiveBlock(node: Area)
      requires Ready() && node in g.place && g.place[node] == InTree && node.memAddr in g.st.live
      requires node.bin == g.st.live[node.memAddr] && node.blockSize == Size(cfg, node.bin)
      modifies this`currHeapSize, this`allocCnt, this`g
      modifies Nodes()`parent, Nodes()`lchild, Nodes()`rchild, allocTree`parent, allocTree`lchild, allocTree`rchild
      ensures Valid() && node in g.place && g.place[node] == Hand && node.bin <= maxBin
      ensures g.st == old(g.st).(live := old(g.st.live) - {node.memAddr}, heap := (old(g.st.heap) + Size(cfg, node.bin)) % WORD)
      ensures InvHeld(cfg, g.st, node.memAddr, node.bin)
    {
      hide ListsOk, Inv, InvHeld, Fixed, ValidConfig, Size, Nodes;
      Shape();
      TakeLive(cfg, g.st, node.memAddr);
      currHeapSize := (currHeapSize + node.blockSize) % WORD;
      g := Disown(cfg, freeArea, allocTree, node, g, Nodes());
      HeapLists(cfg, g, freeArea, allocTree, Nodes(), currHeapSize);
      g := g.(st := g.st.(heap := currHeapSize));
      allocCnt := allocCnt - 1;
    }

    /** get_buddy_ptr_size; a null pointer finds the sentinel, whose size is 0. */
    method GetBuddyPtrSize(ptr: nat) returns (size: nat)
      requires Ready()
      ensures size == if ptr in g.st.live then Size(cfg, g.st.live[ptr]) else 0
    {
      var node := SearchTree(cfg, freeArea, allocTree, ptr, g, Nodes());
      return if node == null then 0 else node.blockSize;
    }
  }

  lemma ValIsInt(x: bv32)
    ensures Val(x) == x as int
  {
  }

  lemma BinCount(c: Config, heads: seq<Area>, root: Area, bin: nat, g: Shadow, nodes: set<Area>)
    requires ListsOk(c, g, heads, root, nodes) && bin <= c.maxBin
    ensures bin < |heads| && bin < |g.st.free| && heads[bin].cnt == |g.st.free[bin]|
  {
    hide ChainOk, BinsOk, TreeOk, AddrsOk, HandsOk;
    BinsAll(c, g.trees, heads, g.place, g.st.free);
    ChainData(g.trees[bin], heads[bin], At(g.place, InBin(bin)), g.st.free[bin], bin, Size(c, bin), bin == c.maxBin);
  }

  /** Two blocks of the top bin would not fit into the extent. */
  lemma TopBinSingle(c: Config, s: State)
    requires Inv(c, s)
    ensures |s.free[c.maxBin]| <= 1
  {
    var top := s.free[c.maxBin];
    PiecesHas(s);
    if top != {} {
      var a :| a in top;
      forall b | b in top
        ensures b == a
      {
        var p, q := Piece(Free, a, c.maxBin), Piece(Free, b, c.maxBin);
        assert Has(s, p) && Has(s, q);
        if p != q {
          TwoTopsTooMany(c, p, q);
        }
      }
      assert top == {a};
    }
  }

  /** A rounded size above max_alloc_size asks for at least min_alloc_size blocks of the top bin. */
  lemma TooLarge(c: Config, size: bv32)
    requires ValidConfig(c) && Size(c, c.maxBin - 1) < Val(NextPow(size))
    ensures 1 < ShiftRight(Val(NextPow(size)), c.maxBin)
  {
    hide NextPow, LogOf2, Val, IsPowOf2, ShiftRight;
    SizeWord(c, 0);
    assert Pow2(0) == 1;
    var m := PowerExponent(c.minSize);
    if Val(size) == 0 {
      Zero(size);
      SizePositive(c, c.maxBin - 1);
    } else if Val(size) <= 0x8000_0000 {
      var r := RoundedPow(size);
      Pow2Add(m, c.maxBin - 1);
      if r < m + c.maxBin {
        Pow2Monotonic(r, m + (c.maxBin - 1));
      } else {
        ShiftPow2(r, c.maxBin);
        Pow2Monotonic(m, r - c.maxBin);
      }
    } else {
      NextPowWraps(size);
    }
  }

  lemma HeapLists(c: Config, g: Shadow, heads: seq<Area>, root: Area, nodes: set<Area>, heap: nat)
    requires ListsOk(c, g, heads, root, nodes)
    ensures ListsOk(c, g.(st := g.st.(heap := heap)), heads, root, nodes)
  {
    hide BinsOk, TreeOk, AddrsOk, HandsOk;
  }

  ghost function Dropping(g: Shadow, addr: nat, bin: nat): Shadow {
    g.(st := g.st.(lost := g.st.lost + {Block(addr, bin)}))
  }

  lemma DroppingLists(c: Config, g: Shadow, heads: seq<Area>, root: Area, nodes: set<Area>, addr: nat, bin: nat)
    requires ListsOk(c, g, heads, root, nodes)
    ensures ListsOk(c, Dropping(g, addr, bin), heads, root, nodes)
  {
    hide BinsOk, TreeOk, AddrsOk, HandsOk;
  }

  /** The held block lies in the extent, below the end of the address space. */
  lemma HeldFits(c: Config, s: State, addr: nat, bin: nat)
    requires InvHeld(c, s, addr, bin)
    ensures bin <= c.maxBin && 0 < addr && addr + Size(c, bin) < WORD
    ensures 0 < bin ==> addr + Size(c, bin - 1) < WORD
  {
    hide Pieces, Bytes, LivePieces, Size;
    assert Inside(c, Piece(Held, addr, bin));
    if 0 < bin {
      SizeStep(c, bin - 1);
    }
  }

  lemma FreeFits(c: Config, s: State, bin: nat, addr: nat)
    requires Inv(c, s) && bin <= c.maxBin && addr in s.free[bin]
    ensures 0 < addr && addr + Size(c, bin) < WORD
  {
    PiecesHas(s);
    assert Has(s, Piece(Free, addr, bin));
    assert Inside(c, Piece(Free, addr, bin));
  }

  /** In the free lists an address determines the descriptor. */
  lemma SameNode(c: Config, heads: seq<Area>, root: Area, g: Shadow, nodes: set<Area>, m: Area, n: Area)
    requires ListsOk(c, g, heads, root, nodes) && Inv(c, g.st)
    requires m in g.place && n in g.place && g.place[n].InBin? && (g.place[m] == Spare || g.place[m].InBin?)
    ensures m.memAddr == n.memAddr <==> m == n
  {
    hide ChainOk, TreeOk, HandsOk, BinsOk, Tiles, Bytes, Pieces, ValidConfig;
    if m.memAddr == n.memAddr {
      BinsAll(c, g.trees, heads, g.place, g.st.free);
      assert 0 < n.memAddr && g.place[m].InBin?;
      var j, k := g.place[m].bin, g.place[n].bin;
      ChainData(g.trees[j], heads[j], At(g.place, InBin(j)), g.st.free[j], j, Size(c, j), j == c.maxBin);
      ChainData(g.trees[k], heads[k], At(g.place, InBin(k)), g.st.free[k], k, Size(c, k), k == c.maxBin);
      PiecesHas(g.st);
      assert Has(g.st, Piece(Free, m.memAddr, j)) && Has(g.st, Piece(Free, n.memAddr, k));
      MinPositive(c);
      OneBlockAt(c, Pieces(g.st), Piece(Free, m.memAddr, j), Piece(Free, n.memAddr, k));
    }
  }

  lemma MinPositive(c: Config)
    ensures ValidConfig(c) ==> 0 < c.minSize
  {
  }

  lemma NoneSpare(place: map<Area, Place>, area: seq<Area>)
    requires place.Keys == (set n | n in area)
    requires forall n :: n in place ==> place[n] != Spare
    ensures |At(place, Spare)| == 0
  {
    assert At(place, Spare) == {};
  }
}
