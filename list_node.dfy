/** The storage cell of the forward list: one element and the link to the
    next cell (null at the end of the chain). */
module Nodes {

  class Node<T(0)> {
    var data: T
    var next: Node?<T>

    /** A cell built as `node{value, next}`: the element first, then the link. */
    constructor (data: T, next: Node?<T>)
      ensures this.data == data && this.next == next
    {
      this.data := data;
      this.next := next;
    }

    /** The sentinel cell, built as `new node`.  The cell's declaration is not
        part of this model; that a fresh cell's link is null is inferred: the
        destructor walks the chain from the sentinel and stops only at a null
        link, and an initializer-list constructor with no elements caches the
        sentinel's link as `_begin`, which `front()` and `pop_front()` take
        for an empty list only when it is null.  Its element is
        default-constructed and never read. */
    constructor Sentinel()
      ensures next == null
    {
      next := null;
    }
  }
}
