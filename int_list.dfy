/** FasterIntArrayList: an int list over a backing array that can be handed in and out
    without copying. Its size pointer is set directly: `popTo` drops trailing elements
    without clearing them, and `get` reads the array rather than the list. */
module IntLists {
  import opened Wrappers
  import opened JavaNumbers

  /** The list's state: the backing array and the size pointer. */
  datatype ListState = ListState(items: array<int>, size: int32)

  /** The state `popTo(index)` leaves: the same array, size `index + 1` in `int`
      arithmetic (so `popTo(-1)` empties the list). */
  function PopToState(s: ListState, index: int32): (r: ListState)
    ensures r.items == s.items
    ensures index < INT32_MAX ==> r.size == index + 1
    ensures index == INT32_MAX ==> r.size == INT32_MIN
  {
    s.(size := Int32(index + 1))
  }

  /** `popTo` with the same index twice leaves what one call leaves, and only the index
      matters, not the size before. */
  lemma PopToIdempotent(s: ListState, t: ListState, index: int32)
    requires s.items == t.items
    ensures PopToState(PopToState(s, index), index) == PopToState(s, index)
    ensures PopToState(s, index) == PopToState(t, index)
  {
  }

  /** The elements the list holds: the first `size` array cells, when the size pointer
      lies within the array. */
  function Elements(s: ListState): (r: Option<seq<int>>)
    reads s.items
    ensures r.Some? <==> 0 <= s.size <= s.items.Length
    ensures r.Some? ==> |r.value| == s.size as int
  {
    if 0 <= s.size <= s.items.Length then Some(s.items[..s.size]) else None
  }

  /** Popping to an index inside the list (or to -1) keeps exactly its first
      `index + 1` elements; popping past the end exposes the stale cells behind it. */
  lemma PopToTruncates(s: ListState, index: int32)
    requires -1 <= index < s.size <= s.items.Length
    ensures Elements(PopToState(s, index)) == Some(Elements(s).value[..index + 1])
  {
    assert PopToState(s, index).size == index + 1;
    assert s.items[..s.size][..index + 1] == s.items[..index + 1];
  }

  lemma PopToExposesBuffer(s: ListState, index: int32)
    requires 0 <= index < INT32_MAX && index + 1 <= s.items.Length
    ensures Elements(PopToState(s, index)) == Some(s.items[..index + 1])
  {
    assert PopToState(s, index).size == index + 1;
  }

  class FasterIntArrayList {
    var items: array<int>
    var size: int32

    function State(): ListState
      reads this
    {
      ListState(items, size)
    }

    /** The zero-copy constructor: the given buffer is the backing array, and the list
        starts empty. */
    constructor FromBuffer(zeroCopyBuffer: array<int>)
      ensures items == zeroCopyBuffer && size == 0
      ensures Elements(State()) == Some([])
    {
      items := zeroCopyBuffer;
      size := 0;
    }

    /** `array()`: the backing array itself, not a copy. */
    method Array() returns (a: array<int>)
      ensures a == items
    {
      a := items;
    }

    /** `get(index)`: the array cell, checked against the array's length only (an
        index outside it throws); an index between size and length is read as is. */
    method Get(index: int32) returns (r: Option<int>)
      ensures r.Some? <==> 0 <= index < items.Length
      ensures r.Some? ==> r.value == items[index]
      ensures r.Some? && Elements(State()).Some? && index < size ==> r.value == Elements(State()).value[index]
    {
      if 0 <= index < items.Length {
        r := Some(items[index]);
      } else {
        r := None;
      }
    }

    /** `popTo(index)`: the size pointer becomes `index + 1`; the array is left as it
        is. */
    method PopTo(index: int32)
      modifies this`size
      ensures State() == PopToState(old(State()), index)
    {
      size := Int32(index + 1);
    }
  }
}
