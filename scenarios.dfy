/** The unit tests of the list, replayed as client code: each method builds
    its own lists, performs the test's calls and returns what the test
    observes, and its postcondition states the values the test expects. */
module Scenarios {
  import opened Nodes
  import opened Iterators
  import opened ForwardList

  /** What `front()` reports, as a value: the first element or the exception. */
  function FrontValue(l: FList<int>): (r: Result<int>)
    reads l, l.Repr
    requires l.Valid()
    ensures l.contents == [] ==> r == Err(LengthError)
    ensures l.contents != [] ==> r == Ok(l.contents[0])
  {
    var f := l.Front();
    if f.Ok? then Ok(f.value.data) else Err(f.error)
  }

  /** `++` applied to the element reference that `front()` or `operator*`
      hands out for the i-th cell.  The cell is written in place; `contents`
      is the model's record of the elements and is brought along with it. */
  method IncrementElement(l: FList<int>, i: nat, cell: Node<int>)
    requires l.Valid() && i < |l.nodes| && cell == l.nodes[i]
    modifies l, cell
    ensures l.Valid() && l.Repr == old(l.Repr) && l.nodes == old(l.nodes)
    ensures l.contents == old(l.contents)[i := old(l.contents[i]) + 1]
    ensures l.begin == old(l.begin) && l.size == old(l.size) && l.end == old(l.end)
  {
    cell.data := cell.data + 1;
    l.contents := l.contents[i := cell.data];
  }

  /** `pop_front` undoes `push_front` on any list: the element comes off
      again and the remaining elements are the original ones. */
  method PushThenPop<T(0)>(l: FList<T>, value: T) returns (r: Outcome)
    requires l.Valid()
    modifies l, l.beforeBegin
    ensures l.Valid() && r == Pass
    ensures l.contents == old(l.contents) && l.size == old(l.size)
  {
    l.PushFront(value);
    r := l.PopFront();
  }

  /** Constructors test (tests/flist_tst.cpp, lines 5-31), the empty list. */
  method ConstructorsEmpty() returns (isEmpty: bool, size: nat, beginIsEnd: bool)
    ensures isEmpty && size == 0 && beginIsEnd
  {
    var empty := new FList<int>();
    isEmpty, size := empty.Empty(), empty.Size();
    beginIsEnd := empty.Begin().Equals(empty.End());
  }

  /** Constructors test, the list built from {1, 2, 3, 4, 5}.  The list the
      test builds from a temporary `flist<int>{1, 2, 3, 4, 5}` is initialised
      directly by the initializer-list constructor, so no move constructor
      runs and this case covers it too. */
  method ConstructorsInitList() returns (isEmpty: bool, size: nat, front: Result<int>, distance: nat)
    ensures !isEmpty && size == 5 && front == Ok(1) && distance == 5
  {
    var lst := new FList<int>.FromSeq([1, 2, 3, 4, 5]);
    isEmpty, size, front := lst.Empty(), lst.Size(), FrontValue(lst);
    var visited;
    distance, visited := lst.Traverse();
  }

  /** Constructors and assignment-operators tests (lines 5-49): a copy that
      has 10 pushed onto its front has six elements, and the original keeps
      its five.  (`flist<int> lst_cpy = lst;` is an initialisation, so it
      runs the copy constructor.) */
  method ConstructorsCopy()
    returns (size: nat, front: Result<int>, copyIsEmpty: bool, copySize: nat,
             copyFront: Result<int>, copyDistance: nat, copyEndAsWritten: Node?<int>)
    ensures size == 5 && front == Ok(1)
    ensures !copyIsEmpty && copySize == 6 && copyFront == Ok(10) && copyDistance == 6
    ensures copyEndAsWritten == null
  {
    var lst := new FList<int>.FromSeq([1, 2, 3, 4, 5]);
    var copy := new FList<int>.Copy(lst);
    copy.PushFront(10);
    size, front := lst.Size(), FrontValue(lst);
    copyIsEmpty, copySize, copyFront := copy.Empty(), copy.Size(), FrontValue(copy);
    var visited;
    copyDistance, visited := copy.Traverse();
    // the walk's end as the source computes it is the null end walked to
    copyEndAsWritten := copy.EndAsWritten();
  }

  /** front test (lines 51-65): a length error on the empty list. */
  method FrontOfEmpty() returns (front: Result<int>)
    ensures front == Err(LengthError)
  {
    var empty := new FList<int>();
    front := FrontValue(empty);
  }

  /** front test: the returned reference writes the list's first element. */
  method FrontWrite() returns (front: Result<int>)
    ensures front == Ok(101)
  {
    var lst := new FList<int>.FromSeq([1, 2, 3]);
    lst.PushFront(100);
    var f := lst.Front();
    IncrementElement(lst, 0, f.value);
    front := FrontValue(lst);
  }

  /** size test (lines 67-82): {1} after pushing 1 and 3 and popping once. */
  method SizeAfterPushAndPop() returns (size: nat)
    ensures size == 2
  {
    var lst := new FList<int>.FromSeq([1]);
    lst.PushFront(1);
    lst.PushFront(3);
    var popped := lst.PopFront();
    size := lst.Size();
  }

  /** empty test (lines 84-100): {1} popped once is empty, {} pushed once is not. */
  method EmptyAfterPopAndPush() returns (popped: bool, pushed: bool)
    ensures popped && !pushed
  {
    var lst2 := new FList<int>.FromSeq([1]);
    var lst3 := new FList<int>();
    var r := lst2.PopFront();
    lst3.PushFront(1);
    popped, pushed := lst2.Empty(), lst3.Empty();
  }

  /** insert_after test (lines 103-122): inserting 1 after the sentinel, 2
      after the first cell and 3 after the sentinel gives 3, 1, 2. */
  method InsertAfterOrder() returns (front: Result<int>, second: int, elements: seq<int>)
    ensures front == Ok(3) && second == 1 && elements == [3, 1, 2]
  {
    var lst := new FList<int>();
    var r := lst.InsertAfter(lst.BeforeBegin(), 1);
    assert lst.contents == [1];
    lst.SlotOfCell(0);
    r := lst.InsertAfter(lst.Begin(), 2);
    assert lst.contents == [1, 2];
    r := lst.InsertAfter(lst.BeforeBegin(), 3);
    assert lst.contents == [3, 1, 2];
    front := FrontValue(lst);
    second := lst.Begin().Increment().Deref();
    var count;
    count, elements := lst.Traverse();
  }

  /** insert_after test: after `begin()` of an empty list is a domain error,
      after its `before_begin()` succeeds, and a single insertion there
      becomes the front. */
  method InsertAfterPositions() returns (bad: Result<ListIterator<int>>, goodOk: bool, front: Result<int>)
    ensures bad == Err(DomainError) && goodOk && front == Ok(100)
  {
    var empty := new FList<int>();
    bad := empty.InsertAfter(empty.Begin(), 1);
    var good := empty.InsertAfter(empty.BeforeBegin(), 1);
    goodOk := good.Ok?;
    var lst := new FList<int>();
    var r := lst.InsertAfter(lst.BeforeBegin(), 100);
    front := FrontValue(lst);
  }

  /** pop_front test (lines 124-138). */
  method PopFrontScenario() returns (emptyPop: Outcome, size: nat, front: Result<int>)
    ensures emptyPop == Fail(DomainError)
    ensures size == 3 && front == Ok(4)
  {
    var empty := new FList<int>();
    emptyPop := empty.PopFront();
    var lst := new FList<int>.FromSeq([1, 2, 3, 4, 5, 6]);
    var popped := lst.PopFront();
    popped := lst.PopFront();
    popped := lst.PopFront();
    size, front := lst.Size(), FrontValue(lst);
  }

  /** clear test (lines 140-154): clearing never fails, and a cleared list
      refuses `pop_front`. */
  method ClearScenario() returns (emptyCleared: bool, pop: Outcome, isEmpty: bool, size: nat)
    ensures emptyCleared
    ensures pop == Fail(DomainError) && isEmpty && size == 0
  {
    var empty := new FList<int>();
    empty.Clear();
    emptyCleared := empty.Empty();
    var lst := new FList<int>.FromSeq([1, 2, 3]);
    lst.Clear();
    pop := lst.PopFront();
    isEmpty, size := lst.Empty(), lst.Size();
  }

  /** emplace_after test (lines 157-175): emplacing after `begin()` of an
      empty list is a domain error. */
  method EmplaceAfterEmpty() returns (bad: Result<ListIterator<int>>)
    ensures bad == Err(DomainError)
  {
    var empty := new FList<int>();
    bad := empty.EmplaceAfter(empty.Begin(), 1);
  }

  /** emplace_after test: 1 after the sentinel, 2 after the first cell, 3
      after the second; line 173 increments the first element through
      `*begin()` and observes 2. */
  method EmplaceAfterOrder()
    returns (isEmpty: bool, size: nat, front: Result<int>, incremented: int, third: int, elements: seq<int>)
    ensures !isEmpty && size == 3 && front == Ok(1)
    ensures incremented == 2 && third == 3
    ensures elements == [2, 2, 3]
  {
    var lst := new FList<int>();
    var r := lst.EmplaceAfter(lst.BeforeBegin(), 1);
    assert lst.contents == [1];
    lst.SlotOfCell(0);
    r := lst.EmplaceAfter(lst.Begin(), 2);
    assert lst.contents == [1, 2];
    lst.SlotOfCell(1);
    r := lst.EmplaceAfter(lst.Begin().Increment(), 3);
    assert lst.contents == [1, 2, 3];
    isEmpty, size, front := lst.Empty(), lst.Size(), FrontValue(lst);
    var first := lst.Begin();
    IncrementElement(lst, 0, first.node);
    incremented := first.Deref();
    third := lst.Begin().Increment().Increment().Deref();
    var count;
    count, elements := lst.Traverse();
  }

  /** emplace_front returns an iterator at the new first element. */
  method EmplaceFrontScenario() returns (atNew: int, front: Result<int>, elements: seq<int>)
    ensures atNew == 7 && front == Ok(7) && elements == [7, 1, 2]
  {
    var lst := new FList<int>.FromSeq([1, 2]);
    var it := lst.EmplaceFront(7);
    atNew, front := it.Deref(), FrontValue(lst);
    var count;
    count, elements := lst.Traverse();
  }

  /** An iterator taken before `push_front` still designates its cell of
      the list afterwards and can be inserted after. */
  method IteratorSurvivesPushFront() returns (elements: seq<int>)
    ensures elements == [0, 1, 5, 2]
  {
    var lst := new FList<int>.FromSeq([1, 2]);
    var it := lst.Begin();
    lst.PushFront(0);
    assert it.node == lst.nodes[1];
    lst.SlotOfCell(1);
    var r := lst.InsertAfter(it, 5);
    assert lst.contents == [0, 1, 5, 2];
    var count;
    count, elements := lst.Traverse();
  }

  /** Copying an empty list leaves its `end` field at the copy's sentinel;
      after one `push_front` the source's `end()` is then the first cell,
      so `begin() == end()` holds of a list of size 1, while the null end
      position does not meet `begin()`.  In the source, the `push_front`
      here first reads the copy's uninitialised `_begin`, which the model
      takes to be null. */
  method StaleEndScenario() returns (size: nat, beginIsEndAsWritten: bool, beginIsEnd: bool, copyLoopRuns: bool)
    ensures size == 1 && beginIsEndAsWritten && !beginIsEnd
    ensures !copyLoopRuns
  {
    var empty := new FList<int>();
    var copy := new FList<int>.Copy(empty);
    copy.PushFront(5);
    EndAsWrittenAtSentinel(copy);
    size := copy.Size();
    beginIsEndAsWritten := copy.Begin().node == copy.EndAsWritten();
    beginIsEnd := copy.Begin().Equals(copy.End());
    // the guard of the copy constructor's loop over this list, with `cend()` as written
    copyLoopRuns := copy.CBegin().NotEquals(ListIterator(copy.EndAsWritten(), true));
  }

  /** `{1}` keeps its `end` field at its only cell; after inserting 2 behind
      that cell, `end()` as the source computes it is the second cell, so a
      walk to it, like the copy constructor's, stops after one element. */
  method StaleEndAfterInsert()
    returns (size: nat, secondIsEndAsWritten: bool, copyLoopRunsOnce: bool, copyLoopRunsTwice: bool)
    ensures size == 2 && secondIsEndAsWritten
    ensures copyLoopRunsOnce && !copyLoopRunsTwice
  {
    var lst := new FList<int>.FromSeq([1]);
    var r := lst.InsertAfter(lst.Begin(), 2);
    assert lst.nodes[0].next == lst.nodes[1];
    size := lst.Size();
    var second := lst.Begin().Increment();
    secondIsEndAsWritten := second.node == lst.EndAsWritten();
    // the guard of the copy constructor's loop over this list, with `cend()`
    // as written, before the first and before the second step
    var writtenEnd := ListIterator(lst.EndAsWritten(), true);
    var first := lst.CBegin();
    copyLoopRunsOnce := first.NotEquals(writtenEnd);
    copyLoopRunsTwice := first.Increment().NotEquals(writtenEnd);
  }
}
