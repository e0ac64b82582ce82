/** The forward iterator over the list's cells.  It is a value that borrows
    the cell it designates and never owns it; a null cell is the
    past-the-end position.  The const and mutable variants of the source are
    one type here, told apart by `isConst`. */
module Iterators {
  import opened Nodes

  datatype ListIterator<T(0)> = ListIterator(node: Node?<T>, isConst: bool)
  {
    /** `*it`: the element held by the designated cell, which must exist. */
    function Deref(): (r: T)
      reads node
      requires node != null
      ensures r == node.data
    {
      node.data
    }

    /** `++it`: the iterator at the following cell; at the end position it
        stays there and never fails. */
    function Increment(): (r: ListIterator<T>)
      reads node
      ensures r.isConst == isConst
      ensures node == null ==> r.node == null
      ensures node != null ==> r.node == node.next
    {
      ListIterator(if node != null then node.next else null, isConst)
    }

    /** `it++`: the copy taken before stepping, and the receiver after one step. */
    function PostIncrement(): (r: (ListIterator<T>, ListIterator<T>))
      reads node
      ensures r.0 == this
      ensures r.1 == Increment()
    {
      var copy := this;
      (copy, Increment())
    }

    /** `==`: both iterators designate the same cell, whatever their variants. */
    predicate Equals(other: ListIterator<T>)
      ensures Equals(other) <==> node == other.node
    {
      node == other.node
    }

    /** `!=`: exactly the negation of `==`. */
    predicate NotEquals(other: ListIterator<T>)
      ensures NotEquals(other) <==> !Equals(other)
    {
      node != other.node
    }

    /** The conversion from a mutable to a const iterator: the same cell. */
    function ToConst(): (r: ListIterator<T>)
      ensures r.isConst
      ensures r.Equals(this) && this.Equals(r)
    {
      ListIterator(node, true)
    }
  }
}
