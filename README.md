# Verified model of `flist<T>`, a singly-linked forward list

`flist<T>` is a generic singly-linked list in the style of `std::forward_list`.
It owns a chain of heap cells (`node{data, next}`) that starts at a dummy
cell, `_before_begin`, which is always allocated. It caches a pointer to the
first cell (`_begin`) and the number of cells (`_size`). It also keeps an
`_end` pointer: the default constructor sets it to null, and only the copy and
initializer-list constructors point it at a cell. The list's operations relink
`next` pointers in place:

- `insert_after` splices a cell after a position;
- `push_front`, `emplace_after` and `emplace_front` delegate to `insert_after`;
- `pop_front` unlinks the first cell;
- `clear` pops until the size is zero;
- the copy and initializer-list constructors build the chain behind a running cursor.

`_list_iterator<Const, T>` is a non-owning cursor over a cell pointer.
Dereferencing it reads the cell's data, incrementing it follows `next` (and
stays put at null), and equality compares the cells.

The Dafny project has four modules:

- `Nodes` (`list_node.dfy`): the cell class `Node<T>`.
- `Iterators` (`list_iterator.dfy`): the iterator `ListIterator<T>`. It is a value holding a
  `Node?` (null is the end position) and an `isConst` flag that stands for
  the `Const` template argument.
- `ForwardList` (`flist.dfy`): the class `FList<T>`, which has the source's fields. The
  representation invariant `Valid()` ties them to three ghost fields:
  - `nodes`: the cells after the sentinel, in chain order;
  - `contents`: the elements those cells hold;
  - `Repr`: the footprint.

  `Valid()` requires that:
  - the sentinel is not in `nodes` and no cell repeats, so the chain is acyclic;
  - each cell links to the next one, and the last links to null;
  - `begin` is the sentinel's link;
  - `size` is the number of cells.

  Every operation is stated against `contents`: what it becomes, and when the
  operation fails instead.
- `Scenarios` (`scenarios.dfy`): the repository's unit tests as client code. Each method builds
  its lists, makes the test's calls and returns what the test observes. Its
  postcondition states the values the test expects.

The source throws exceptions. In the model these are results:
- `Result<R>` is `Ok(value)` or `Err(error)`;
- `Outcome` is `Pass` or `Fail(error)`;
- the error is `LengthError` (from `front`) or `DomainError` (from `insert_after` and `pop_front`).

## Model

| member | source | states |
|---|---|---|
| Nodes.Node.constructor | forward-list/inc/flist/flist.hpp:161 | a cell `node{value, next}` holds the given element and link (the same shape is built at line 107) |
| Nodes.Node.Sentinel | forward-list/inc/flist/flist.hpp:73 | the sentinel `new node` has a null link (inferred, as the node's declaration is not part of this model: the destructor loop at lines 119-123 starts at the sentinel and stops only at a null link, and for an empty initializer list line 112 caches the sentinel's link as `_begin`, which `front()` and `pop_front()` (lines 131 and 179) treat as empty only when it is null) |
| Iterators.ListIterator.Deref | forward-list/inc/flist/_list_iterator.hpp:55-60 | dereferencing a non-null iterator yields its cell's data |
| Iterators.ListIterator.Increment | forward-list/inc/flist/_list_iterator.hpp:62-68 | pre-increment moves to the cell's `next`; at null it stays null and never fails; constness is kept |
| Iterators.ListIterator.PostIncrement | forward-list/inc/flist/_list_iterator.hpp:70-77 | post-increment yields a copy at the old cell, together with the iterator advanced by one pre-increment |
| Iterators.ListIterator.Equals | forward-list/inc/flist/_list_iterator.hpp:79-84 | `==` holds exactly when both iterators are at the same cell, regardless of constness |
| Iterators.ListIterator.NotEquals | forward-list/inc/flist/_list_iterator.hpp:86-91 | `!=` is exactly the negation of `==` |
| Iterators.ListIterator.ToConst | forward-list/inc/flist/_list_iterator.hpp:93-97 | the conversion gives a const iterator at the same cell, which is equal to the original in both directions |
| ForwardList.InsertKeepsDistinct | forward-list/inc/flist/flist.hpp:161-162 | splicing a freshly allocated cell into the chain keeps every cell in the chain distinct |
| ForwardList.InsertKeepsLinks | forward-list/inc/flist/flist.hpp:161-162 | linking a cell after position k, with the old successor as its `next`, gives exactly the chain with that cell inserted at k, still ending in null |
| ForwardList.InsertKeepsData | forward-list/inc/flist/flist.hpp:161 | the elements of the spliced chain are the old elements with the new cell's element inserted at k |
| ForwardList.FList.constructor | forward-list/inc/flist/flist.hpp:72-77 | a default-constructed list is valid, consists only of freshly allocated objects, has no elements and a null `_end`, so `end()` as line 236 computes it is null |
| ForwardList.FList.FromSeq | forward-list/inc/flist/flist.hpp:100-114 | the initializer-list constructor yields exactly the given elements, in order, from fresh cells; `_end` is the last cell, or the sentinel when the list is empty, and `end()` as line 236 computes it is null |
| ForwardList.FList.Copy | forward-list/inc/flist/flist.hpp:79-91 | the copy constructor, walking `rhs` up to the corrected (null) `cend()`, yields the same elements as `rhs`, in fresh cells separate from `rhs`'s; `_end` is the last cell inserted, or the sentinel, and `end()` as line 236 computes it is null (see Left out for the prefix the source copies when `rhs`'s `_end` is stale) |
| ForwardList.FList.Front | forward-list/inc/flist/flist.hpp:128-135 | `front()` is a length error exactly when the list is empty; otherwise it is the first cell, whose data is the first element |
| ForwardList.FList.Size | forward-list/inc/flist/flist.hpp:137-142 | `size()` is the number of elements |
| ForwardList.FList.Empty | forward-list/inc/flist/flist.hpp:146-150 | `empty()` holds exactly when there are no elements |
| ForwardList.FList.InsertAfter | forward-list/inc/flist/flist.hpp:156-168 | the position is a mutable iterator; a null position is a domain error and changes nothing; otherwise a fresh cell holding the value is placed right after the position, the other elements keep their order, the size grows by one, `_begin` stays the sentinel's link, and the returned iterator references the new cell |
| ForwardList.FList.PushFront | forward-list/inc/flist/flist.hpp:170-174 | `push_front(v)` makes the elements `[v]` followed by the old ones, and the old cells stay in the chain, in order, after the one new cell |
| ForwardList.FList.PopFront | forward-list/inc/flist/flist.hpp:176-187 | on an empty list it is a domain error and changes nothing; otherwise the elements and cells lose their first entry, and the invariant (including `_before_begin->next == _begin`) holds again |
| ForwardList.FList.Clear | forward-list/inc/flist/flist.hpp:189-194 | `clear()` always succeeds and leaves no elements and size 0 |
| ForwardList.FList.EmplaceAfter | forward-list/inc/flist/flist.hpp:198-204 | same contract as `insert_after`, whose domain error it passes on |
| ForwardList.FList.EmplaceFront | forward-list/inc/flist/flist.hpp:206-214 | `emplace_front(v)` makes the elements `[v]` followed by the old ones, keeps the old cells in the chain, in order, after the one new cell, and returns an iterator at the new first cell, which is `_begin` |
| ForwardList.FList.BeforeBegin | forward-list/inc/flist/flist.hpp:218-223 | `before_begin()` is a mutable iterator at the sentinel |
| ForwardList.FList.Begin | forward-list/inc/flist/flist.hpp:225-230 | `begin()` is a mutable iterator at the first cell, or at null when the list is empty |
| ForwardList.FList.End | forward-list/inc/flist/flist.hpp:232-237 | `end()` is the null position (corrected; see Findings) |
| ForwardList.FList.CBeforeBegin | forward-list/inc/flist/flist.hpp:239-244 | `cbefore_begin()` is a const iterator at the sentinel |
| ForwardList.FList.CBegin | forward-list/inc/flist/flist.hpp:246-251 | `cbegin()` is a const iterator at the first cell, or at null |
| ForwardList.FList.CEnd | forward-list/inc/flist/flist.hpp:253-258 | `cend()` is the const null position (corrected; see Findings) |
| ForwardList.FList.EndAsWritten | forward-list/inc/flist/flist.hpp:236 | the position line 236 computes from `_end`; null when `_end` is null |
| ForwardList.FList.Traverse | forward-list/inc/flist/_list_iterator.hpp:64-68 | starting at `begin()` and pre-incrementing until the iterator equals `end()` takes exactly `size()` steps and reads the elements in order |
| ForwardList.EndAsWrittenAtSentinel | forward-list/inc/flist/flist.hpp:236 | when `_end` is still the sentinel but the list has cells, line 236 yields the first cell, so `begin() == end()` although the list is not empty |
| Scenarios.FrontValue | forward-list/inc/flist/flist.hpp:128-135 | what `front()` reports, as a value: a length error on an empty list, the first element otherwise |
| Scenarios.PushThenPop | forward-list/inc/flist/flist.hpp:170-187 | on any valid list, `pop_front` right after `push_front(v)` succeeds and restores the elements and the size |
| Scenarios.IncrementElement | forward-list/tests/flist_tst.cpp:59 | writing through the reference to the i-th element changes that element and nothing else, and keeps the list valid |
| Scenarios.ConstructorsEmpty | forward-list/tests/flist_tst.cpp:16-18 | a default-constructed list is empty, has size 0 and `begin() == end()` |
| Scenarios.ConstructorsInitList | forward-list/tests/flist_tst.cpp:20-30 | `{1, 2, 3, 4, 5}` is not empty, has size 5 and front 1, and the walk from `begin()` to `end()` takes 5 steps |
| Scenarios.ConstructorsCopy | forward-list/tests/flist_tst.cpp:9-27 | a copy with 10 pushed onto it has size 6, front 10 and a walk of 6 steps, while the original keeps size 5 and front 1; the copy's `end()` as line 236 computes it is still the null end the walk stops at |
| Scenarios.FrontOfEmpty | forward-list/tests/flist_tst.cpp:62 | `front()` of an empty list is a length error |
| Scenarios.FrontWrite | forward-list/tests/flist_tst.cpp:54-64 | after `push_front(100)` and `++front()`, `front()` is 101 |
| Scenarios.SizeAfterPushAndPop | forward-list/tests/flist_tst.cpp:71-81 | `{1}`, after two pushes and one pop, has size 2 |
| Scenarios.EmptyAfterPopAndPush | forward-list/tests/flist_tst.cpp:88-99 | `{1}` popped once is empty, and `{}` pushed once is not |
| Scenarios.InsertAfterOrder | forward-list/tests/flist_tst.cpp:107-121 | inserting 1 after `before_begin()`, 2 after `begin()`, then 3 after `before_begin()` gives the elements 3, 1, 2 |
| Scenarios.InsertAfterPositions | forward-list/tests/flist_tst.cpp:105-119 | `insert_after(begin())` on an empty list is a domain error, `insert_after(before_begin())` succeeds, and a single insertion becomes the front |
| Scenarios.PopFrontScenario | forward-list/tests/flist_tst.cpp:126-137 | `pop_front` on an empty list is a domain error; `{1, ..., 6}` popped three times has size 3 and front 4 |
| Scenarios.ClearScenario | forward-list/tests/flist_tst.cpp:142-153 | clearing an empty list succeeds; after `clear()`, `pop_front` is a domain error and the list is empty with size 0 |
| Scenarios.EmplaceAfterEmpty | forward-list/tests/flist_tst.cpp:168 | `emplace_after(begin())` on an empty list is a domain error |
| Scenarios.EmplaceAfterOrder | forward-list/tests/flist_tst.cpp:160-174 | emplacing 1, then 2, then 3, each after the previous one, gives a list of size 3 with front 1; incrementing `*begin()` yields 2, and the third element is 3 |
| Scenarios.EmplaceFrontScenario | forward-list/inc/flist/flist.hpp:206-214 | `emplace_front(7)` on `{1, 2}` returns an iterator at 7 and gives the elements 7, 1, 2 |
| Scenarios.IteratorSurvivesPushFront | forward-list/inc/flist/flist.hpp:161-162 | an iterator at the first cell of `{1, 2}`, taken before `push_front(0)`, can still be inserted after: inserting 5 there gives 0, 1, 5, 2 |
| Scenarios.StaleEndScenario | forward-list/inc/flist/flist.hpp:79-91 | copy an empty list, then push one element: `begin()` equals `end()` as line 236 computes it while the size is 1, but it is not the null end position; the copy constructor's loop guard (line 87) over that list, with `cend()` as line 257 computes it, is false at once |
| Scenarios.StaleEndAfterInsert | forward-list/inc/flist/flist.hpp:236 | `{1}` with 2 inserted after `begin()` has size 2, `end()` as line 236 computes it is the second cell, and the copy constructor's loop guard over that list, with `cend()` as written, holds before the first step and fails before the second, so a copy gets only `1` |

## Left out

- Move constructor and both assignment operators (flist.hpp:93-97, 262-278). `operator=(self&&)` calls itself unconditionally, and the other two reach it. They have no terminating behaviour to model.
- Destructor and `delete` (flist.hpp:116-124, 183). Deallocation has no Dafny counterpart. `PopFront` unlinks the cell from the chain and drops it from `Repr`.
- The self-copy guard `this == &rhs` (flist.hpp:84). An object under construction cannot be its own argument in Dafny.
- ForwardList.FList.Copy: the source leaves `_begin` uninitialised (flist.hpp:80-83). Line 164 reads it in its own condition. When no cell is copied, line 164 never runs, so `begin()`, `front()` and `pop_front()` of the copy read an indeterminate pointer, which is undefined behaviour. `Copy` instead sets `begin` to null first. That choice is what makes `begin == beforeBegin.next` in its `Valid()` hold, and it makes `front()` of an empty copy a length error.
- ForwardList.FList.Copy: it walks `rhs` up to the corrected null `cend()`. The source's loop (flist.hpp:87) stops at `rhs.cend()` as line 257 computes it. When `rhs`'s `_end` is stale, the source copies only a prefix: nothing at all for the list of `Scenarios.StaleEndScenario`, and only `1` for `{1}` after `insert_after(begin(), 2)`. The model promises all of `rhs`'s elements. The constructors' `EndAsWritten() == null` postconditions show that the two ends agree on every freshly constructed list, and `Scenarios.ConstructorsCopy` shows they still agree on the copy the tests walk after `push_front(10)` (tests/flist_tst.cpp:27). See Findings.
- `_end` as a tail pointer. It is kept as a field that the default constructor sets to null and that only the copy and initializer-list constructors point at a cell; nothing updates it later. `End` and `CEnd` are the null position; see Findings. After the last cell is popped, `_end` dangles in the source; the model does not free cells, so it cannot express that.
- Variadic forwarding in `emplace_after` and `emplace_front` (flist.hpp:198-214). Both take one element.
- `size_type` overflow. `size` is an unbounded `nat`.
- Iterators.ListIterator.Increment: the iterator is a value, so `++` returns the advanced iterator instead of updating `_node` in place. Aliasing of iterator objects is not captured. `PostIncrement` returns the pair (old copy, advanced iterator).
- Reference types. The difference between `const T&` and `T&` is not modelled; `isConst` only records which iterator type a value has. Writing through the element reference that `front()` or `operator*` hands out is a write to `Node.data`. `Scenarios.IncrementElement` also updates the ghost `contents` along with it.
- ForwardList.FList.InsertAfter: the position must be null, the sentinel, or a cell of this list. The source accepts any cell pointer, and a cell of another list would be relinked there.
- ForwardList.FList.EmplaceAfter: has the same position requirement as `InsertAfter`, for the same reason.
- Iterators.ListIterator.Deref: requires a non-null cell. The source dereferences null without a check, which is undefined behaviour.
- The gtest harness and `main` (flist_tst.cpp:177-181). The tests appear as `Scenarios` methods.
- The `AssignmentOperators` test (flist_tst.cpp:33-49). Its declarations are initialisations, so it exercises the same copy and initializer-list constructors as `Scenarios.ConstructorsCopy` and `Scenarios.ConstructorsInitList`.

## Findings

| source | as written | input that shows it | evidently intended | confidence | as-written member | corrected member |
|---|---|---|---|---|---|---|
| forward-list/inc/flist/flist.hpp:236 | `end()` and `cend()` return `_end->next`, where `_end` is fixed when the list is constructed and never maintained, so growing the list can make it refer to a cell of the chain | build `{1}` (`_end` is its only cell), then `insert_after(begin(), 2)`: `end()` is the second cell, so a walk from `begin()` to `end()` visits one element of two, and the copy constructor's loop (line 87), which uses the same end, copies only `1`. A second input, which passes through the undefined read of the copy's `_begin` described under Left out: copy an empty list (`_end` becomes the copy's sentinel), then `push_front(5)`; `end()` is the new first cell, so `begin() == end()` while `size() == 1` | `end()` is the position after the last cell, the null position | not executed | ForwardList.FList.EndAsWritten | ForwardList.FList.End |
