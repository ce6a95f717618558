/** Doubly linked rings of nodes, and the iterators that walk them. */
module PtrLists {
  import opened Options

  class Node<T> {
    var data: T
    var next: Node?<T>
    var prev: Node?<T>

    constructor (data: T)
      ensures this.data == data
    {
      this.data := data;
      next, prev := null, null;
    }
  }

  // ----- places on a ring of n -----

  function After(i: nat, n: nat): nat
    requires i < n
  {
    if i + 1 == n then 0 else i + 1
  }

  function Before(i: nat, n: nat): nat
    requires i < n
  {
    if i == 0 then n - 1 else i - 1
  }

  /** The sequence without the element at k. */
  function Dropped<A>(s: seq<A>, k: nat): seq<A>
    requires k < |s|
  {
    s[..k] + s[k + 1..]
  }

  ghost predicate Distinct<A>(s: seq<A>) {
    forall i, j :: 0 <= i < j < |s| ==> s[i] != s[j]
  }

  ghost function NextsOf<T>(ring: seq<Node<T>>): (s: seq<Node?<T>>)
    reads ring
    ensures |s| == |ring|
  {
    seq(|ring|, i requires 0 <= i < |ring| reads ring => ring[i].next)
  }

  ghost function PrevsOf<T>(ring: seq<Node<T>>): (s: seq<Node?<T>>)
    reads ring
    ensures |s| == |ring|
  {
    seq(|ring|, i requires 0 <= i < |ring| reads ring => ring[i].prev)
  }

  ghost function DataOf<T>(ring: seq<Node<T>>): (s: seq<T>)
    reads ring
    ensures |s| == |ring|
  {
    seq(|ring|, i requires 0 <= i < |ring| reads ring => ring[i].data)
  }

  /** Each node is followed by the next of the sequence and preceded by the one before, the ends by each other. */
  ghost predicate Ordered<T>(ring: seq<Node<T>>, nexts: seq<Node?<T>>, prevs: seq<Node?<T>>) {
    && |nexts| == |prevs| == |ring|
    && (forall i: nat {:trigger nexts[i]} :: i < |ring| ==> nexts[i] == ring[After(i, |ring|)])
    && (forall i: nat {:trigger prevs[i]} :: i < |ring| ==> prevs[i] == ring[Before(i, |ring|)])
  }

  ghost predicate Linked<T>(ring: seq<Node<T>>)
    reads ring
  {
    Ordered(ring, NextsOf(ring), PrevsOf(ring))
  }

  /** A place in a list while it is walked. */
  datatype Iterator<T> = Iterator(node: Node?<T>, isFirst: bool, hasNext: bool, counter: nat)

  /** Where the first element that satisfies a test stands, or the length when none does. */
  function FirstMatch<T>(s: seq<T>, test: T -> bool): (k: nat)
    ensures k <= |s|
    ensures forall i :: 0 <= i < k ==> !test(s[i])
    ensures k < |s| ==> test(s[k])
  {
    if s == [] then 0 else if test(s[0]) then 0 else 1 + FirstMatch(s[1..], test)
  }

  lemma {:induction false} FirstMatchIs<T>(s: seq<T>, test: T -> bool, k: nat)
    requires k <= |s| && (forall i :: 0 <= i < k ==> !test(s[i])) && (k < |s| ==> test(s[k]))
    ensures FirstMatch(s, test) == k
  {
    if k > 0 {
      FirstMatchIs(s[1..], test, k - 1);
    }
  }

  // ----- the links after a change -----

  /** A node closed over can stand at either end. */
  lemma CloseOver<T>(ring: seq<Node<T>>, nexts: seq<Node?<T>>, prevs: seq<Node?<T>>, node: Node<T>)
    requires Ordered(ring, nexts, prevs)
    ensures ring == [] ==>
      nexts == [] && prevs == [] && Ordered(ring + [node], nexts + [node], prevs + [node])
      && Ordered([node] + ring, [node] + nexts, [node] + prevs)
    ensures ring != [] ==>
      var ns, ps := nexts[|ring| - 1 := node], prevs[0 := node];
      && Ordered(ring + [node], ns + [ring[0]], ps + [ring[|ring| - 1]])
      && Ordered([node] + ring, [ring[0]] + ns, [ring[|ring| - 1]] + ps)
  {
  }

  lemma DistinctWith<A>(s: seq<A>, x: A)
    requires Distinct(s) && x !in s
    ensures Distinct(s + [x]) && Distinct([x] + s)
  {
  }

  lemma DistinctDropped<A>(s: seq<A>, k: nat)
    requires k < |s| && Distinct(s)
    ensures Distinct(Dropped(s, k)) && s[k] !in Dropped(s, k)
    ensures |Dropped(s, k)| == |s| - 1
    ensures |s| > 1 ==> Dropped(s, k)[0] == s[if k == 0 then 1 else 0]
    ensures |s| > 1 ==> Dropped(s, k)[|s| - 2] == s[if k == |s| - 1 then |s| - 2 else |s| - 1]
    ensures forall x :: x in Dropped(s, k) <==> x in s && x != s[k]
  {
    forall x | x in s && x != s[k]
      ensures x in Dropped(s, k)
    {
      var i: nat :| i < |s| && s[i] == x;
      assert x == Dropped(s, k)[if i < k then i else i - 1];
    }
  }

  lemma LinksAt<T>(ring: seq<Node<T>>, nexts: seq<Node?<T>>, prevs: seq<Node?<T>>, k: nat)
    requires k < |ring| && Ordered(ring, nexts, prevs)
    ensures nexts[k] == ring[After(k, |ring|)] && prevs[k] == ring[Before(k, |ring|)]
  {
  }

  lemma LinkedPast<T>(ring: seq<Node<T>>, nexts: seq<Node?<T>>, prevs: seq<Node?<T>>, k: nat)
    requires k < |ring| && Ordered(ring, nexts, prevs)
    ensures
      var ns, ps := nexts[Before(k, |ring|) := nexts[k]], prevs[After(k, |ring|) := prevs[k]];
      Ordered(Dropped(ring, k), Dropped(ns, k), Dropped(ps, k))
  {
    var n := |ring|;
    var ns, ps := nexts[Before(k, n) := nexts[k]], prevs[After(k, n) := prevs[k]];
    var rest := Dropped(ring, k);
    forall i: nat | i < |rest|
      ensures Dropped(ns, k)[i] == rest[After(i, n - 1)] && Dropped(ps, k)[i] == rest[Before(i, n - 1)]
    {
      var j := if i < k then i else i + 1;
      LinksAt(ring, nexts, prevs, j);
      LinksAt(ring, nexts, prevs, k);
    }
  }

  lemma LinksOfDropped<T>(ring: seq<Node<T>>, k: nat)
    requires k < |ring|
    ensures NextsOf(Dropped(ring, k)) == Dropped(NextsOf(ring), k)
    ensures PrevsOf(Dropped(ring, k)) == Dropped(PrevsOf(ring), k)
    ensures DataOf(Dropped(ring, k)) == Dropped(DataOf(ring), k)
  {
  }

  lemma LinksAre<T>(ring: seq<Node<T>>, nexts: seq<Node?<T>>, prevs: seq<Node?<T>>, data: seq<T>)
    requires |ring| == |nexts| == |prevs| == |data|
    requires forall i: nat ::
             i < |ring| ==> ring[i].next == nexts[i] && ring[i].prev == prevs[i] && ring[i].data == data[i]
    ensures NextsOf(ring) == nexts && PrevsOf(ring) == prevs && DataOf(ring) == data
  {
  }

  lemma LinksOf<T>(ring: seq<Node<T>>)
    ensures forall i: nat :: i < |ring| ==>
      ring[i].next == NextsOf(ring)[i] && ring[i].prev == PrevsOf(ring)[i] && ring[i].data == DataOf(ring)[i]
  {
  }

  lemma LinksOfBoth<T>(a: seq<Node<T>>, b: seq<Node<T>>)
    ensures NextsOf(a + b) == NextsOf(a) + NextsOf(b)
    ensures PrevsOf(a + b) == PrevsOf(a) + PrevsOf(b)
    ensures DataOf(a + b) == DataOf(a) + DataOf(b)
  {
  }

  lemma LinksOfOne<T>(node: Node<T>)
    ensures NextsOf([node]) == [node.next] && PrevsOf([node]) == [node.prev] && DataOf([node]) == [node.data]
  {
  }

  lemma OthersDiffer<A>(s: seq<A>, k: nat)
    requires k < |s| && Distinct(s)
    ensures forall i: nat :: i < |s| && i != k ==> s[i] != s[k]
  {
  }

  class List<T> {
    var head: Node?<T>
    var tail: Node?<T>
    var length: nat

    /** The nodes from the head to the tail. */
    ghost var ring: seq<Node<T>>

    ghost predicate Valid()
      reads this, ring
    {
      && length == |ring|
      && (ring == [] ==> head == null && tail == null)
      && (ring != [] ==> head == ring[0] && tail == ring[|ring| - 1])
      && Distinct(ring)
      && Linked(ring)
    }

    ghost function Contents(): (s: seq<T>)
      reads this, ring
    {
      DataOf(ring)
    }

    /** The node at a place, its neighbours and its data. */
    lemma NodeAt(k: nat)
      requires Valid() && k < |ring|
      ensures ring[k].next == ring[After(k, |ring|)] && ring[k].prev == ring[Before(k, |ring|)]
      ensures |Contents()| == |ring| && Contents()[k] == ring[k].data
      ensures forall i: nat :: i < |ring| && i != k ==> ring[i] != ring[k]
    {
      LinksOf(ring);
      LinksAt(ring, NextsOf(ring), PrevsOf(ring), k);
      OthersDiffer(ring, k);
    }

    lemma SameLength()
      ensures |Contents()| == |ring|
    {
    }

    constructor ()
      ensures Valid() && Contents() == [] && ring == []
    {
      head, tail, length := null, null, 0;
      ring := [];
    }

    predicate IsEmpty()
      reads this
    {
      head == null
    }

    /** Closes the ring over a new node, which can then stand at either end. */
    method LinkBetweenEnds(node: Node<T>)
      requires Distinct(ring) && Linked(ring) && node !in ring
      requires if ring == [] then head == tail == node else head == ring[0] && tail == ring[|ring| - 1]
      modifies node, ring
      ensures Linked(ring + [node]) && Linked([node] + ring)
      ensures DataOf(ring + [node]) == old(DataOf(ring)) + [old(node.data)]
      ensures DataOf([node] + ring) == [old(node.data)] + old(DataOf(ring))
    {
      hide NextsOf, PrevsOf, DataOf, Distinct, Ordered;
      if ring != [] {
        OthersDiffer(ring, |ring| - 1);
        OthersDiffer(ring, 0);
      }
      LinksOf(ring);
      ghost var nexts, prevs, datas := NextsOf(ring), PrevsOf(ring), DataOf(ring);
      CloseOver(ring, nexts, prevs, node);
      tail.next := node;
      head.prev := node;
      node.prev := tail;
      node.next := head;
      if ring != [] {
        nexts, prevs := nexts[|ring| - 1 := node], prevs[0 := node];
      }
      LinksAre(ring, nexts, prevs, datas);
      LinksOfOne(node);
      LinksOfBoth(ring, [node]);
      LinksOfBoth([node], ring);
    }

    method Append(x: T) returns (node: Node<T>)
      requires Valid()
      modifies this, ring
      ensures Valid() && fresh(node)
      ensures ring == old(ring) + [node]
      ensures Contents() == old(Contents()) + [x]
    {
      hide Linked, DataOf, Distinct;
      node := new Node(x);
      if head == tail && head == null {
        head, tail := node, node;
      }
      DistinctWith(ring, node);
      LinkBetweenEnds(node);
      tail := node;
      length := length + 1;
      ring := ring + [node];
    }

    method Prepend(x: T) returns (node: Node<T>)
      requires Valid()
      modifies this, ring
      ensures Valid() && fresh(node)
      ensures ring == [node] + old(ring)
      ensures Contents() == [x] + old(Contents())
    {
      hide Linked, DataOf, Distinct;
      node := new Node(x);
      if head == tail && head == null {
        head, tail := node, node;
      }
      DistinctWith(ring, node);
      LinkBetweenEnds(node);
      head := node;
      length := length + 1;
      ring := [node] + ring;
    }

    /** Leads the neighbours of a node past it; the node itself still knows them. */
    method LinkPast(node: Node<T>, ghost k: nat)
      requires k < |ring| && node == ring[k] && Distinct(ring) && Linked(ring)
      modifies ring
      ensures Linked(Dropped(ring, k)) && DataOf(Dropped(ring, k)) == Dropped(old(DataOf(ring)), k)
      ensures node.data == old(node.data)
      ensures |ring| > 1 ==> node.next == ring[After(k, |ring|)] && node.prev == ring[Before(k, |ring|)]
    {
      hide NextsOf, PrevsOf, DataOf, Distinct, Ordered;
      ghost var before, after := Before(k, |ring|), After(k, |ring|);
      OthersDiffer(ring, before);
      OthersDiffer(ring, after);
      LinksOf(ring);
      ghost var nexts, prevs, datas := NextsOf(ring), PrevsOf(ring), DataOf(ring);
      LinksAt(ring, nexts, prevs, k);
      LinkedPast(ring, nexts, prevs, k);
      node.prev.next := node.next;
      node.next.prev := node.prev;
      LinksAre(ring, nexts[before := nexts[k]], prevs[after := prevs[k]], datas);
      LinksOfDropped(ring, k);
    }

    /** Takes out a node of the list; null is no node and takes out nothing. */
    method RemoveLink(node: Node?<T>) returns (data: Option<T>)
      requires Valid()
      requires node != null ==> node in ring
      modifies this, ring
      ensures Valid()
      ensures node == null ==> data == None && ring == old(ring) && Contents() == old(Contents())
      ensures node != null ==> data == Some(old(node.data)) && node !in ring && node.next == null && node.prev == null
      ensures forall k: nat :: k < |old(ring)| && old(ring)[k] == node ==>
        ring == Dropped(old(ring), k) && Contents() == Dropped(old(Contents()), k)
    {
      hide Linked, DataOf, Distinct, Dropped;
      if node == null {
        return None;
      }
      data := Some(node.data);
      ghost var k: nat :| k < |ring| && ring[k] == node;
      OthersDiffer(ring, k);
      OthersDiffer(ring, |ring| - 1);
      DistinctDropped(ring, k);
      LinkPast(node, k);
      if head == tail && node == head {
        head, tail := null, null;
      } else {
        if node == head {
          head := node.next;
        }
        if node == tail {
          tail := node.prev;
        }
      }
      ring := Dropped(ring, k);
      node.next, node.prev := null, null;
      length := length - 1;
    }

    method RemoveFirstLink() returns (data: Option<T>)
      requires Valid()
      modifies this, ring
      ensures Valid()
      ensures if old(ring) == [] then data == None && ring == []
              else data == Some(old(Contents())[0]) && ring == old(ring)[1..] && Contents() == old(Contents())[1..]
    {
      data := RemoveLink(head);
    }

    method RemoveLastLink() returns (data: Option<T>)
      requires Valid()
      modifies this, ring
      ensures Valid()
      ensures if old(ring) == [] then data == None && ring == []
              else
                var n := |old(ring)| - 1;
                data == Some(old(Contents())[n]) && ring == old(ring)[..n] && Contents() == old(Contents())[..n]
    {
      data := RemoveLink(tail);
    }

    method Clear()
      requires Valid()
      modifies this, ring
      ensures Valid() && Contents() == [] && ring == []
    {
      while tail != null
        invariant Valid()
        invariant length <= |old(ring)| && ring == old(ring)[..length]
        decreases length
      {
        var _ := RemoveLastLink();
      }
    }

    // ----- walking -----

    function IteratorCreate(): Iterator<T>
      reads this
    {
      Iterator(head, true, head != null, 0)
    }

    function Iterate(it: Iterator<T>): Iterator<T>
      requires it.node != null
      reads this, it.node
    {
      Iterator(it.node.next, false, it.node.next != head, it.counter + 1)
    }

    /** The iterator stands at place k of the list, or past its last. */
    ghost predicate At(it: Iterator<T>, k: nat)
      reads this
    {
      && k <= |ring| && it.counter == k
      && (it.isFirst <==> k == 0)
      && (it.hasNext <==> k < |ring|)
      && (ring != [] ==> it.node == ring[if k < |ring| then k else 0])
    }

    lemma CreateStandsFirst()
      requires Valid()
      ensures At(IteratorCreate(), 0)
    {
    }

    lemma IterateMovesOn(it: Iterator<T>, k: nat)
      requires Valid() && At(it, k) && it.hasNext
      ensures At(Iterate(it), k + 1)
    {
      hide NextsOf, PrevsOf, DataOf, Distinct, Ordered, Linked;
      NodeAt(k);
      NodeAt(0);
    }

    /** What a loop over an iterator sees, each element with the counter at it. */
    ghost function Walk(it: Iterator<T>): seq<(nat, T)>
      requires Valid() && At(it, it.counter)
      reads this, ring
      decreases |ring| - it.counter
    {
      if !it.hasNext then []
      else
        IterateMovesOn(it, it.counter);
        [(it.counter, it.node.data)] + Walk(Iterate(it))
    }

    /** The items of an indexed suffix. */
    static function Numbered<A>(s: seq<A>, from: nat): (r: seq<(nat, A)>)
      requires from <= |s|
      ensures |r| == |s| - from
      decreases |s| - from
    {
      if from == |s| then [] else [(from, s[from])] + Numbered(s, from + 1)
    }

    lemma {:induction false} WalkSeesTheRest(it: Iterator<T>)
      requires Valid() && At(it, it.counter)
      ensures Walk(it) == Numbered(Contents(), it.counter)
      decreases |ring| - it.counter
    {
      hide NextsOf, PrevsOf, DataOf, Distinct, Ordered, Linked;
      if it.hasNext {
        IterateMovesOn(it, it.counter);
        NodeAt(it.counter);
        WalkSeesTheRest(Iterate(it));
      }
    }

    /** A loop over the list sees its elements in order, each with its place, and then stops. */
    lemma WalkSeesAll()
      requires Valid()
      ensures At(IteratorCreate(), 0)
      ensures Walk(IteratorCreate()) == Numbered(Contents(), 0)
    {
      CreateStandsFirst();
      WalkSeesTheRest(IteratorCreate());
    }

    /** The links go round: forward and back undo each other at every node. */
    lemma LinksAreInverse(node: Node<T>)
      requires Valid() && node in ring
      ensures node.next in ring && node.prev in ring
      ensures node.next.prev == node && node.prev.next == node
    {
      hide NextsOf, PrevsOf, DataOf, Distinct, Ordered, Linked;
      var k: nat :| k < |ring| && ring[k] == node;
      NodeAt(k);
      NodeAt(After(k, |ring|));
      NodeAt(Before(k, |ring|));
    }

    // ----- searching -----

    method Find(query: T, same: (T, T) -> bool) returns (found: Node?<T>)
      requires Valid()
      ensures
        var k := FirstMatch(Contents(), x => same(query, x));
        found == if k < |ring| then ring[k] else null
    {
      hide NextsOf, PrevsOf, DataOf, Distinct, Ordered, Linked;
      var it := IteratorCreate();
      CreateStandsFirst();
      SameLength();
      while it.hasNext
        invariant At(it, it.counter)
        invariant forall i :: 0 <= i < it.counter ==> !same(query, Contents()[i])
        decreases |ring| - it.counter
      {
        NodeAt(it.counter);
        if same(query, it.node.data) {
          FirstMatchIs(Contents(), x => same(query, x), it.counter);
          return it.node;
        }
        IterateMovesOn(it, it.counter);
        it := Iterate(it);
      }
      FirstMatchIs(Contents(), x => same(query, x), |ring|);
      return null;
    }

    method IndexOf(query: T, same: (T, T) -> bool) returns (index: int)
      requires Valid()
      ensures
        var k := FirstMatch(Contents(), x => same(query, x));
        index == if k < |ring| then k else -1
    {
      hide NextsOf, PrevsOf, DataOf, Distinct, Ordered, Linked;
      var it := IteratorCreate();
      CreateStandsFirst();
      SameLength();
      while it.hasNext
        invariant At(it, it.counter)
        invariant forall i :: 0 <= i < it.counter ==> !same(query, Contents()[i])
        decreases |ring| - it.counter
      {
        NodeAt(it.counter);
        if same(query, it.node.data) {
          FirstMatchIs(Contents(), x => same(query, x), it.counter);
          return it.counter;
        }
        IterateMovesOn(it, it.counter);
        it := Iterate(it);
      }
      FirstMatchIs(Contents(), x => same(query, x), |ring|);
      return -1;
    }

    method NthElement(index: nat) returns (found: Node?<T>)
      requires Valid()
      ensures found == if index < |ring| then ring[index] else null
    {
      if index >= length {
        return null;
      }
      var it := IteratorCreate();
      CreateStandsFirst();
      while it.hasNext
        invariant At(it, it.counter) && it.counter <= index
        decreases |ring| - it.counter
      {
        if it.counter == index {
          return it.node;
        }
        IterateMovesOn(it, it.counter);
        it := Iterate(it);
      }
      return null;
    }

    method Replace(query: T, same: (T, T) -> bool, replacement: T) returns (found: Node?<T>)
      requires Valid()
      modifies ring
      ensures Valid() && ring == old(ring)
      ensures
        var k := FirstMatch(old(Contents()), x => same(query, x));
        if k < |ring| then found == ring[k] && Contents() == old(Contents())[k := replacement]
        else found == null && Contents() == old(Contents())
    {
      hide NextsOf, PrevsOf, DataOf, Distinct, Ordered;
      SameLength();
      found := Find(query, same);
      if found == null {
        return null;
      }
      ghost var k := FirstMatch(Contents(), x => same(query, x));
      ghost var nexts, prevs, data := NextsOf(ring), PrevsOf(ring), DataOf(ring);
      LinksOf(ring);
      OthersDiffer(ring, k);
      found.data := replacement;
      LinksAre(ring, nexts, prevs, data[k := replacement]);
    }
  }
}
