/** sw_link.h: intrusive circular doubly linked lists, with a sentinel or as a headless queue. */
module SwLink {

  /** struct link; the poison values of remove_link are null here. */
  class Link {
    var next: Link?
    var prev: Link?
    var data: object?

    /** A structure that has not been initialised yet. */
    constructor ()
      ensures next == null && prev == null && data == null
    {
      next, prev, data := null, null, null;
    }
  }

  /** s is a ring: each element's next is the following one, the last one's next is the first, and
      prev is the inverse of next. */
  ghost predicate Ring(s: seq<Link>)
    reads s`next, s`prev
  {
    && 0 < |s|
    && (forall i, j :: 0 <= i < j < |s| ==> s[i] != s[j])
    && (forall i {:trigger s[i].next} :: 0 <= i < |s| - 1 ==> s[i].next == s[i + 1])
    && (forall i {:trigger s[i].prev} :: 0 < i < |s| ==> s[i].prev == s[i - 1])
    && s[|s| - 1].next == s[0] && s[0].prev == s[|s| - 1]
  }

  /** s with x put in front of position i. */
  ghost function With<T>(s: seq<T>, i: nat, x: T): (r: seq<T>)
    requires i <= |s|
    ensures |r| == |s| + 1
    ensures forall j :: 0 <= j < |r| ==> r[j] == if j < i then s[j] else if j == i then x else s[j - 1]
  {
    s[..i] + [x] + s[i..]
  }

  /** s with position i taken out. */
  ghost function Without<T>(s: seq<T>, i: nat): (r: seq<T>)
    requires i < |s|
    ensures |r| == |s| - 1
    ensures forall j :: 0 <= j < |r| ==> r[j] == if j < i then s[j] else s[j + 1]
  {
    s[..i] + s[i + 1..]
  }

  /** link_init */
  method LinkInit(head: Link)
    modifies head
    ensures Ring([head]) && head.data == null
  {
    head.next := head;
    head.prev := head;
    head.data := null;
  }

  /** link_empty, for the sentinel of a ring. */
  method LinkEmpty(head: Link, ghost s: seq<Link>) returns (empty: bool)
    requires Ring(s) && s[0] == head
    ensures empty <==> s == [head]
  {
    return head.next == head;
  }

  datatype Pos = Head | Tail

  /** How many elements of the ring s come before a node that add_link puts next to the element i. */
  ghost function Place(s: seq<Link>, i: nat, pos: Pos): (j: nat)
    requires i < |s|
    ensures 0 < j <= |s|
  {
    if pos == Head then i + 1 else if i == 0 then |s| else i
  }

  /** The links lead from the first element to s[j] and from there round and round, never back. */
  ghost predicate Circles(s: seq<Link>, j: nat)
    reads s`next
  {
    && 0 < j < |s|
    && s[0].next == s[j] && s[j].next == s[1]
    && (forall i {:trigger s[i].next} :: 1 <= i < j ==> s[i].next == s[i + 1])
    && s[0] !in s[1..]
  }

  /** A walk from the first element, however long, next goes to one of s[1..j + 1]. */
  lemma WalkStays(s: seq<Link>, j: nat, r: seq<Link>)
    requires Circles(s, j) && r != [] && r[0] == s[0]
    requires forall i {:trigger r[i].next} :: 0 <= i < |r| - 1 ==> r[i].next == r[i + 1]
    ensures r[|r| - 1].next in s[1..j + 1]
  {
    var k: nat, at: nat := 0, j;
    while k < |r| - 1
      invariant k < |r| && 1 <= at <= j && r[k].next == s[at]
    {
      at := if at == j then 1 else at + 1;
      k := k + 1;
    }
    assert s[at] == s[1..j + 1][at - 1];
  }

  /** Then the first element heads no ring. */
  lemma CirclesNoRing(s: seq<Link>, j: nat, r: seq<Link>)
    requires Circles(s, j) && r != [] && r[0] == s[0]
    ensures !Ring(r)
  {
    if Ring(r) {
      WalkStays(s, j, r);
    }
  }

  /** add_link: a node that is not in the ring enters it right after (Head) or right before (Tail) the
      element at; nothing outside the ring and the node is written.  With Head at the sentinel, and any
      other node, the sentinel heads a ring afterwards exactly if the node was not in it. */
  method AddLink(at: Link, node: Link, pos: Pos, ghost s: seq<Link>, ghost i: nat)
    requires Ring(s) && i < |s| && s[i] == at
    modifies s`next, s`prev, node`next, node`prev
    ensures node !in s ==> Ring(With(s, Place(s, i, pos), node))
    ensures pos == Head && i == 0 && node in s && node != at ==>
              exists j: nat :: 0 < j < |s| && s[j] == node && Circles(s, j)
    ensures pos == Head && i == 0 && node != at ==>
              ((exists r: seq<Link> :: r != [] && r[0] == at && Ring(r)) <==> node !in s)
  {
    var prev: Link, next: Link;
    if pos == Head {
      prev, next := at, at.next;
    } else {
      prev, next := at.prev, at;
    }
    LinkBetween(prev, next, node, s, Place(s, i, pos));
    if pos == Head && i == 0 && node != at {
      HeadsRingIff(s, node);
    }
  }

  lemma HeadsRingIff(s: seq<Link>, node: Link)
    requires s != [] && node != s[0]
    requires node !in s ==> Ring(With(s, 1, node))
    requires node in s ==> exists j: nat :: 0 < j < |s| && s[j] == node && Circles(s, j)
    ensures (exists r: seq<Link> :: r != [] && r[0] == s[0] && Ring(r)) <==> node !in s
  {
    if node in s {
      var j: nat :| 0 < j < |s| && s[j] == node && Circles(s, j);
      forall r: seq<Link> | r != [] && r[0] == s[0]
        ensures !Ring(r)
      {
        CirclesNoRing(s, j, r);
      }
    } else {
      assert With(s, 1, node)[0] == s[0];
    }
  }

  /** A ring in which the links around position j lead to a new node. */
  lemma RingWith(s: seq<Link>, j: nat, node: Link)
    requires 0 < j <= |s| && node !in s
    requires forall i, k :: 0 <= i < k < |s| ==> s[i] != s[k]
    requires forall i :: 0 <= i < |s| - 1 && i != j - 1 ==> s[i].next == s[i + 1]
    requires forall i :: 0 < i < |s| && i != j ==> s[i].prev == s[i - 1]
    requires s[j - 1].next == node && node.prev == s[j - 1]
    requires if j < |s| then node.next == s[j] && s[j].prev == node && s[|s| - 1].next == s[0] && s[0].prev == s[|s| - 1]
             else node.next == s[0] && s[0].prev == node
    ensures Ring(With(s, j, node))
  {
    var r := With(s, j, node);
    forall i, k | 0 <= i < k < |r|
      ensures r[i] != r[k]
    {
      assert r[i] == (if i < j then s[i] else if i == j then node else s[i - 1]);
      assert r[k] == (if k < j then s[k] else if k == j then node else s[k - 1]);
    }
    forall i {:trigger r[i].next} | 0 <= i < |r| - 1
      ensures r[i].next == r[i + 1]
    {
      if j < i {
        assert r[i] == s[i - 1] && s[i - 1].next == s[i];
      }
    }
    forall i {:trigger r[i].prev} | 0 < i < |r|
      ensures r[i].prev == r[i - 1]
    {
      if j + 1 < i {
        assert r[i] == s[i - 1] && s[i - 1].prev == s[i - 2];
      }
    }
    assert r[0] == s[0] && r[|s|] == if j < |s| then s[|s| - 1] else node;
  }

  /** The four assignments of add_link. */
  method LinkBetween(prev: Link, next: Link, node: Link, ghost s: seq<Link>, ghost j: nat)
    requires Ring(s) && 0 < j <= |s| && s[j - 1] == prev && next == s[if j < |s| then j else 0]
    modifies prev`next, next`prev, node`next, node`prev
    ensures node !in s ==> Ring(With(s, j, node))
    ensures j == 1 && node in s && node != s[0] ==>
              exists k: nat :: 0 < k < |s| && s[k] == node && Circles(s, k)
  {
    node.prev := prev;
    node.next := next;
    prev.next := node;
    next.prev := node;
    if node !in s {
      RingWith(s, j, node);
    } else if j == 1 && node != s[0] {
      ghost var k: nat :| k < |s| && s[k] == node;
      assert Circles(s, k);
    }
  }

  /** remove_link: the element i of the ring, which is not its first, leaves; the others stay in order. */
  method RemoveLink(node: Link, ghost s: seq<Link>, ghost i: nat)
    requires Ring(s) && 0 < i < |s| && s[i] == node
    modifies s`next, s`prev
    ensures Ring(Without(s, i)) && node.next == null && node.prev == null
  {
    var next, prev := node.next, node.prev;
    prev.next := node.next;
    next.prev := node.prev;
    node.next := null;
    node.prev := null;
  }

  // ---- the queue interface: no sentinel, head is null or the first element ----

  ghost predicate IsQueue(head: Link?, q: seq<Link>)
    reads q
  {
    if head == null then q == [] else Ring(q) && q[0] == head
  }

  /** queue_insert_tail */
  method QueueInsertTail(head: Link?, node: Link, ghost q: seq<Link>) returns (head': Link)
    requires IsQueue(head, q) && node !in q
    modifies q`next, q`prev, node
    ensures IsQueue(head', q + [node])
  {
    if head != null {
      AddLink(head, node, Tail, q, 0);
      assert With(q, |q|, node) == q + [node];
      return head;
    }
    LinkInit(node);
    return node;
  }

  /** queue_remove_head */
  method QueueRemoveHead(head: Link, ghost q: seq<Link>) returns (head': Link?)
    requires IsQueue(head, q)
    modifies q`next, q`prev
    ensures IsQueue(head', q[1..])
  {
    if head.next == head {
      return null;
    }
    head' := head.next;
    RotateRing(q);
    RemoveLink(head, q[1..] + [head], |q| - 1);
    assert q[1..] + [head] == q[1..] + [q[0]];
    assert Without(q[1..] + [head], |q| - 1) == q[1..];
  }

  /** A ring can be read from any element. */
  lemma RotateRing(s: seq<Link>)
    requires Ring(s)
    ensures Ring(s[1..] + [s[0]])
  {
    var r := s[1..] + [s[0]];
    forall i {:trigger r[i].next} | 0 <= i < |r| - 1
      ensures r[i].next == r[i + 1]
    {
      assert s[i + 1].next == if i + 2 < |s| then s[i + 2] else s[0];
    }
    forall i {:trigger r[i].prev} | 0 < i < |r|
      ensures r[i].prev == r[i - 1]
    {
      if i == |s| - 1 {
        assert s[0].prev == s[|s| - 1];
      } else {
        assert s[i + 1].prev == s[i];
      }
    }
  }
}
