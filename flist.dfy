/** The forward list: a chain of cells hanging off an always-present
    sentinel cell, with a cached pointer to the first cell and a cached
    size.  Positions are iterator values over cells (module Iterators). */
module ForwardList {
  import opened Nodes
  import opened Iterators

  /** The two exceptions the list raises: `std::length_error` from `front()`
      and `std::domain_error` from `insert_after` and `pop_front`. */
  datatype Error = LengthError | DomainError

  datatype Result<+R> = Ok(value: R) | Err(error: Error)

  datatype Outcome = Pass | Fail(error: Error)

  /** `s` with `x` placed after its first `k` elements. */
  function Insert<X>(s: seq<X>, k: nat, x: X): seq<X>
    requires k <= |s|
  {
    s[..k] + [x] + s[k..]
  }

  /** No cell occurs twice in the chain (so the chain has no cycle). */
  ghost predicate Distinct<X>(s: seq<X>) {
    forall i, j :: 0 <= i < j < |s| ==> s[i] != s[j]
  }

  /** The cell the sentinel links to: the first cell, or null when there is none. */
  function First<T(0)>(s: seq<Node<T>>): Node?<T>
  {
    if s == [] then null else s[0]
  }

  /** The cell that the i-th cell of the chain links to: the next one, or null at the last. */
  function After<T(0)>(s: seq<Node<T>>, i: nat): Node?<T>
    requires i < |s|
  {
    if i + 1 < |s| then s[i + 1] else null
  }

  lemma InsertAtEnd<X>(s: seq<X>, x: X)
    ensures Insert(s, |s|, x) == s + [x]
  {
    assert s[..|s|] == s;
  }

  lemma PrefixExtend<X>(s: seq<X>, k: nat)
    requires k < |s|
    ensures s[..k + 1] == s[..k] + [s[k]]
  {
  }

  /** Splicing a cell that is not yet in the chain keeps the chain free of repeats. */
  lemma InsertKeepsDistinct<X>(s: seq<X>, k: nat, x: X)
    requires k <= |s| && Distinct(s) && x !in s
    ensures Distinct(Insert(s, k, x))
  {
    var t := Insert(s, k, x);
    forall i, j | 0 <= i < j < |t| ensures t[i] != t[j] {
      var i' := if i < k then i else i - 1;
      var j' := if j < k then j else j - 1;
      assert i == k || t[i] == s[i'];
      assert j == k || t[j] == s[j'];
    }
  }

  /** Linking `cell` after the k-th position of a chain (the sentinel when
      k == 0), with `cell` taking over that position's old link, gives the
      chain with `cell` inserted at k. */
  lemma InsertKeepsLinks<T(0)>(bb: Node<T>, s: seq<Node<T>>, k: nat, cell: Node<T>)
    requires k <= |s|
    requires (if k == 0 then bb else s[k - 1]).next == cell
    requires cell.next == (if k < |s| then s[k] else null)
    requires k > 0 ==> bb.next == First(s)
    requires forall i {:trigger s[i].next} :: 0 <= i < |s| && i + 1 != k ==> s[i].next == After(s, i)
    ensures bb.next == First(Insert(s, k, cell))
    ensures forall i {:trigger Insert(s, k, cell)[i].next} :: 0 <= i < |s| + 1 ==>
      Insert(s, k, cell)[i].next == After(Insert(s, k, cell), i)
  {
    var t := Insert(s, k, cell);
    forall i | 0 <= i < |t| ensures t[i].next == After(t, i) {
      if i + 1 < k {
        assert t[i] == s[i] && t[i + 1] == s[i + 1];
      } else if i > k {
        assert t[i] == s[i - 1] && After(t, i) == After(s, i - 1);
      }
    }
  }

  /** The elements held by a chain with `cell` inserted at k are the
      elements `c` it held, with `cell`'s element inserted at k. */
  lemma InsertKeepsData<T(0)>(s: seq<Node<T>>, k: nat, cell: Node<T>, c: seq<T>)
    requires k <= |s| == |c|
    requires forall i :: 0 <= i < |s| ==> s[i].data == c[i]
    ensures forall i :: 0 <= i < |s| + 1 ==> Insert(s, k, cell)[i].data == Insert(c, k, cell.data)[i]
  {
    var t := Insert(s, k, cell);
    forall i | 0 <= i < |t| ensures t[i].data == Insert(c, k, cell.data)[i] {
      if i < k {
        assert t[i] == s[i];
      } else if i > k {
        assert t[i] == s[i - 1];
      }
    }
  }

  class FList<T(0)> {
    const beforeBegin: Node<T>
    var begin: Node?<T>
    /** Null from the default constructor; only the copy and initializer-list
        constructors point it at a cell, and nothing updates it later; see EndAsWritten. */
    var end: Node?<T>
    var size: nat

    /** The cells after the sentinel, in chain order, and their elements. */
    ghost var nodes: seq<Node<T>>
    ghost var contents: seq<T>
    ghost var Repr: set<object>

    /** The representation invariant: the sentinel links through exactly the
        cells of `nodes`, in order, to null; the cells hold `contents`;
        `begin` caches the sentinel's link and `size` the number of cells. */
    ghost predicate Valid()
      reads this, Repr
      ensures Valid() ==> this in Repr
    {
      this in Repr && beforeBegin in Repr
      && (forall i :: 0 <= i < |nodes| ==> nodes[i] in Repr)
      && beforeBegin !in nodes
      && Distinct(nodes)
      && beforeBegin.next == First(nodes)
      && (forall i {:trigger nodes[i].next} :: 0 <= i < |nodes| ==> nodes[i].next == After(nodes, i))
      && |contents| == |nodes|
      && (forall i :: 0 <= i < |nodes| ==> nodes[i].data == contents[i])
      && begin == beforeBegin.next
      && size == |nodes|
    }

    /** How many elements precede a position: 0 for the sentinel, i + 1 for the i-th cell. */
    ghost function Slot(p: Node<T>): (k: nat)
      reads this
      requires p == beforeBegin || p in nodes
      ensures k <= |nodes|
      ensures p == beforeBegin ==> k == 0
      ensures p != beforeBegin ==> 0 < k && nodes[k - 1] == p
    {
      if p == beforeBegin then 0
      else var i :| 0 <= i < |nodes| && nodes[i] == p; i + 1
    }

    /** In a valid list the i-th cell has slot i + 1. */
    lemma SlotOfCell(i: nat)
      requires Valid() && i < |nodes|
      ensures Slot(nodes[i]) == i + 1
    {
    }

    /** The default constructor: a fresh sentinel and nothing after it. */
    constructor ()
      ensures Valid() && fresh(Repr)
      ensures contents == [] && end == null
      ensures EndAsWritten() == null
    {
      beforeBegin := new Node.Sentinel();
      begin := null;
      end := null;
      size := 0;
      nodes, contents := [], [];
      new;
      Repr := {this, beforeBegin};
    }

    /** The initializer-list constructor: links one fresh cell per element,
        in order, behind a running cursor. */
    constructor FromSeq(init: seq<T>)
      ensures Valid() && fresh(Repr)
      ensures contents == init
      ensures end == (if init == [] then beforeBegin else nodes[|nodes| - 1])
      ensures EndAsWritten() == null
    {
      beforeBegin := new Node.Sentinel();
      size := 0;
      new;
      nodes, contents := [], [];
      Repr := {this, beforeBegin};
      var current := beforeBegin;
      var i := 0;
      while i < |init|
        invariant 0 <= i <= |init| && |nodes| == i && size == i && |contents| == i
        invariant this in Repr && beforeBegin in Repr && fresh(Repr)
        invariant forall j :: 0 <= j < i ==> nodes[j] in Repr
        invariant beforeBegin !in nodes && Distinct(nodes)
        invariant beforeBegin.next == First(nodes)
        invariant forall j {:trigger nodes[j].next} :: 0 <= j < i ==> nodes[j].next == After(nodes, j)
        invariant forall j :: 0 <= j < i ==> nodes[j].data == contents[j]
        invariant current == (if i == 0 then beforeBegin else nodes[i - 1])
        invariant contents == init[..i]
      {
        ghost var was, oldContents := nodes, contents;
        var cell := new Node(init[i], null);
        current.next := cell;
        current := cell;
        size := size + 1;
        InsertAtEnd(was, cell);
        InsertAtEnd(oldContents, init[i]);
        InsertKeepsDistinct(was, i, cell);
        InsertKeepsLinks(beforeBegin, was, i, cell);
        InsertKeepsData(was, i, cell, oldContents);
        PrefixExtend(init, i);
        nodes, contents := was + [cell], oldContents + [init[i]];
        Repr := Repr + {cell};
        i := i + 1;
      }
      assert init[..i] == init;
      begin := beforeBegin.next;
      end := current;
    }

    /** The copy constructor: walks `rhs` from its first cell to its end
        position and inserts a copy of each element after a running cursor.
        The end position is the corrected null one (see EndAsWritten). */
    constructor Copy(rhs: FList<T>)
      requires rhs.Valid()
      ensures Valid() && fresh(Repr)
      ensures contents == rhs.contents
      ensures end == (if nodes == [] then beforeBegin else nodes[|nodes| - 1])
      ensures EndAsWritten() == null
    {
      beforeBegin := new Node.Sentinel();
      // `_begin` is left uninitialised by the source and stays so when no cell
      // is copied; the model chooses null, the value `Valid()` asks for
      begin := null;
      size := 0;
      new;
      nodes, contents := [], [];
      Repr := {this, beforeBegin};
      var it := BeforeBegin();
      var rhsIt, rhsEnd := rhs.CBegin(), rhs.CEnd();
      ghost var src, srcNodes := rhs.contents, rhs.nodes;
      ghost var k := 0;
      while rhsIt.NotEquals(rhsEnd)
        invariant Valid() && fresh(Repr)
        invariant 0 <= k <= |src| && |nodes| == k
        invariant contents == src[..k]
        invariant rhsIt.node == (if k < |srcNodes| then srcNodes[k] else null)
        invariant rhsEnd.node == null
        invariant it.node == (if k == 0 then beforeBegin else nodes[k - 1])
        invariant !it.isConst
        decreases |src| - k
      {
        ghost var before, beforeNodes := contents, nodes;
        // the cells of `rhs` are never written here
        assert rhsIt.node.next == old(rhsIt.node.next) == After(srcNodes, k);
        assert rhsIt.node.data == old(rhsIt.node.data) == src[k];
        if k > 0 {
          SlotOfCell(k - 1);
        }
        var r := InsertAfter(it, rhsIt.Deref());
        InsertAtEnd(before, src[k]);
        InsertAtEnd(beforeNodes, r.value.node);
        PrefixExtend(src, k);
        it := r.value;
        rhsIt := rhsIt.Increment();
        k := k + 1;
      }
      assert src[..k] == src;
      end := it.node;
    }

    /** `front()`: the first cell, whose `data` is the reference the source
        returns; a length error on an empty list. */
    function Front(): (r: Result<Node<T>>)
      reads this, Repr
      requires Valid()
      ensures r.Ok? <==> contents != []
      ensures r.Err? ==> r.error == LengthError
      ensures r.Ok? ==> r.value == nodes[0] && r.value.data == contents[0]
    {
      if begin == null then Err(LengthError) else Ok(begin)
    }

    /** `size()`: the cached count, which is the number of elements. */
    function Size(): (n: nat)
      reads this, Repr
      requires Valid()
      ensures n == |contents|
    {
      size
    }

    /** `empty()`. */
    predicate Empty()
      reads this, Repr
      requires Valid()
      ensures Empty() <==> contents == []
    {
      size == 0
    }

    /** `insert_after(pos, value)`: a domain error when `pos` designates no
        cell; otherwise a fresh cell holding `value` is linked right after
        `pos`'s cell and an iterator to it is returned. */
    method InsertAfter(pos: ListIterator<T>, value: T) returns (r: Result<ListIterator<T>>)
      requires Valid()
      requires !pos.isConst
      requires pos.node == null || pos.node == beforeBegin || pos.node in nodes
      modifies this, pos.node
      ensures Valid() && end == old(end)
      ensures pos.node == null ==> r == Err(DomainError) && unchanged(this)
      ensures pos.node != null ==>
        && r.Ok? && !r.value.isConst && r.value.node != null && fresh(r.value.node)
        && Repr == old(Repr) + {r.value.node}
        && nodes == Insert(old(nodes), old(Slot(pos.node)), r.value.node)
        && contents == Insert(old(contents), old(Slot(pos.node)), value)
    {
      var p := pos.node;
      if p == null {
        return Err(DomainError);
      }
      ghost var k, was, oldContents := Slot(p), nodes, contents;
      var newNode := new Node(value, p.next);
      p.next := newNode;
      if p == beforeBegin {
        begin := if begin != null then p.next else newNode;
      }
      size := size + 1;
      nodes, contents := Insert(was, k, newNode), Insert(oldContents, k, value);
      Repr := Repr + {newNode};
      InsertKeepsDistinct(was, k, newNode);
      InsertKeepsLinks(beforeBegin, was, k, newNode);
      InsertKeepsData(was, k, newNode, oldContents);
      r := Ok(ListIterator(newNode, false));
    }

    /** `push_front(value)`: `insert_after(before_begin(), value)`. */
    method PushFront(value: T)
      requires Valid()
      modifies this, beforeBegin
      ensures Valid() && fresh(Repr - old(Repr)) && end == old(end)
      ensures |nodes| == |old(nodes)| + 1 && nodes[1..] == old(nodes)
      ensures contents == [value] + old(contents)
    {
      var r := InsertAfter(BeforeBegin(), value);
    }

    /** `pop_front()`: a domain error on an empty list; otherwise the first
        cell leaves the chain and the sentinel links to its successor. */
    method PopFront() returns (r: Outcome)
      requires Valid()
      modifies this, beforeBegin
      ensures Valid() && Repr <= old(Repr) && end == old(end)
      ensures old(contents) == [] ==> r == Fail(DomainError) && unchanged(this, beforeBegin)
      ensures old(contents) != [] ==>
        r == Pass && nodes == old(nodes[1..]) && contents == old(contents[1..])
    {
      if begin == null {
        return Fail(DomainError);
      }
      var beginNext := begin.next;
      // the source frees the cell here; in the model it only leaves the chain
      Repr := Repr - {begin};
      begin := beginNext;
      beforeBegin.next := begin;
      size := size - 1;
      nodes, contents := nodes[1..], contents[1..];
      r := Pass;
    }

    /** `clear()`: pops the front while the size is not zero; never fails. */
    method Clear()
      requires Valid()
      modifies this, beforeBegin
      ensures Valid() && Repr <= old(Repr) && end == old(end)
      ensures contents == [] && size == 0
    {
      while size != 0
        invariant Valid() && Repr <= old(Repr) && end == old(end)
        decreases size
      {
        var r := PopFront();
      }
    }

    /** `emplace_after(pos, value)`: forwards to `insert_after`, whose domain
        error propagates. */
    method EmplaceAfter(pos: ListIterator<T>, value: T) returns (r: Result<ListIterator<T>>)
      requires Valid()
      requires !pos.isConst
      requires pos.node == null || pos.node == beforeBegin || pos.node in nodes
      modifies this, pos.node
      ensures Valid() && end == old(end)
      ensures pos.node == null ==> r == Err(DomainError) && unchanged(this)
      ensures pos.node != null ==>
        && r.Ok? && !r.value.isConst && r.value.node != null && fresh(r.value.node)
        && Repr == old(Repr) + {r.value.node}
        && nodes == Insert(old(nodes), old(Slot(pos.node)), r.value.node)
        && contents == Insert(old(contents), old(Slot(pos.node)), value)
    {
      r := InsertAfter(pos, value);
    }

    /** `emplace_front(value)`: emplaces after the sentinel, re-caches the
        first cell and returns an iterator to it. */
    method EmplaceFront(value: T) returns (it: ListIterator<T>)
      requires Valid()
      modifies this, beforeBegin
      ensures Valid() && fresh(Repr - old(Repr)) && end == old(end)
      ensures |nodes| == |old(nodes)| + 1 && nodes[1..] == old(nodes)
      ensures contents == [value] + old(contents)
      ensures !it.isConst && it.node == begin && it.node == First(nodes)
    {
      var r := EmplaceAfter(BeforeBegin(), value);
      it := r.value;
      begin := it.node;
    }

    /** `before_begin()`: an iterator at the sentinel. */
    function BeforeBegin(): (it: ListIterator<T>)
      reads this
      ensures it.node == beforeBegin && !it.isConst
    {
      ListIterator(beforeBegin, false)
    }

    /** `begin()`: an iterator at the first cell, or the end position when empty. */
    function Begin(): (it: ListIterator<T>)
      reads this, Repr
      requires Valid()
      ensures it.node == First(nodes) && !it.isConst
    {
      ListIterator(begin, false)
    }

    /** `end()`: the position after the last cell, which is null. */
    function End(): (it: ListIterator<T>)
      ensures it.node == null && !it.isConst
    {
      ListIterator(null, false)
    }

    /** `cbefore_begin()`. */
    function CBeforeBegin(): (it: ListIterator<T>)
      reads this
      ensures it.node == beforeBegin && it.isConst
    {
      ListIterator(beforeBegin, true)
    }

    /** `cbegin()`. */
    function CBegin(): (it: ListIterator<T>)
      reads this, Repr
      requires Valid()
      ensures it.node == First(nodes) && it.isConst
    {
      ListIterator(begin, true)
    }

    /** `cend()`. */
    function CEnd(): (it: ListIterator<T>)
      ensures it.node == null && it.isConst
    {
      ListIterator(null, true)
    }

    /** The cell `end()` designates as the source computes it: the successor
        of the `end` field.  The field is fixed at construction, so later
        insertions and removals can move this position into the chain. */
    function EndAsWritten(): (r: Node?<T>)
      reads this, end
      ensures end == null ==> r == null
    {
      if end != null then end.next else null
    }

    /** Walking an iterator from `begin()` to `end()`, one increment at a
        time, takes `size()` steps and reads the elements in order. */
    method Traverse() returns (count: nat, visited: seq<T>)
      requires Valid()
      ensures count == Size() && visited == contents
    {
      var it, last := Begin(), End();
      count, visited := 0, [];
      while it.NotEquals(last)
        invariant count <= |nodes|
        invariant it.node == (if count < |nodes| then nodes[count] else null)
        invariant visited == contents[..count]
        decreases |nodes| - count
      {
        visited := visited + [it.Deref()];
        it := it.Increment();
        count := count + 1;
      }
      assert contents[..count] == contents;
    }
  }

  /** Once the `end` field is still the sentinel while cells exist (an empty
      list copied, then grown), `end()` as written lands on the first cell:
      `begin() == end()` although the list is not empty. */
  lemma EndAsWrittenAtSentinel<T(0)>(l: FList<T>)
    requires l.Valid() && l.end == l.beforeBegin && l.contents != []
    ensures l.EndAsWritten() == l.nodes[0] == l.begin
  {
  }
}
