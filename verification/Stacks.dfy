/** The stack of pkg/controller/etree/helpers.go; its bottom is the first value. */
module Stacks {
  import opened Slices

  class Stack<T> {
    ghost var data: seq<T>  // bottom first
    var slots: seq<Slot<T>>
    var len: nat

    /** The slots hold the data, and those past the top are nil. */
    ghost predicate Valid()
      reads this
    {
      && len == |data| <= |slots|
      && (forall i :: 0 <= i < len ==> slots[i] == Full(data[i]))
      && (forall i :: len <= i < |slots| ==> slots[i] == Nil)
    }

    constructor ()
      ensures Valid() && data == []
    {
      slots, len, data := [], 0, [];
    }

    predicate Empty()
      requires Valid()
      reads this
      ensures Empty() <==> data == []
    {
      len == 0
    }

    method Push(value: T)
      requires Valid()
      modifies this
      ensures Valid() && data == old(data) + [value]
    {
      if len == |slots| {
        slots := slots + seq(len + 1, _ => Nil);
      }
      slots := slots[len := Full(value)];
      len := len + 1;
      data := data + [value];
    }

    /** The slot that held the value is left nil, which is part of Valid. */
    method Pop() returns (value: T)
      requires Valid() && data != []
      modifies this
      ensures Valid() && old(data) == data + [value]
    {
      value := slots[len - 1].value;
      slots := slots[len - 1 := Nil];
      len := len - 1;
      data := data[..len];
    }

    function Peek(): (value: T)
      requires Valid() && data != []
      reads this
      ensures value == data[|data| - 1]
    {
      slots[len - 1].value
    }
  }

  // ---------------------------------------------------------------- runs

  datatype Call<T> = Push(value: T) | Pop

  /** What is on the stack after some calls. */
  function After<T>(data: seq<T>, calls: seq<Call<T>>): seq<T>
    decreases |calls|
  {
    if calls == [] then data
    else
      match calls[0]
      case Push(value) => After(data + [value], calls[1..])
      case Pop => After(if data == [] then [] else data[..|data| - 1], calls[1..])
  }

  /** Pushes less pops. */
  function Height<T>(calls: seq<Call<T>>): int {
    if calls == [] then 0 else (if calls[0].Push? then 1 else -1) + Height(calls[1..])
  }

  /** Calls that never pop what they have not pushed themselves leave everything below in its place. */
  lemma {:induction false} AfterRun<T>(data: seq<T>, pushed: seq<T>, calls: seq<Call<T>>)
    requires forall i :: 0 <= i <= |calls| ==> |pushed| + Height(calls[..i]) >= 0
    ensures |After(data + pushed, calls)| == |data + pushed| + Height(calls) && data <= After(data + pushed, calls)
    decreases |calls|
  {
    if calls != [] {
      forall i | 0 <= i <= |calls[1..]| ensures Height(calls[..i + 1]) == Height(calls[..1]) + Height(calls[1..][..i]) {
        assert calls[..i + 1][1..] == calls[1..][..i];
        assert calls[..1][1..] == [];
      }
      assert Height(calls[..1]) == if calls[0].Push? then 1 else -1;
      assert |pushed| + Height(calls[..1]) >= 0;
      match calls[0]
      case Push(value) =>
        assert data + pushed + [value] == data + (pushed + [value]);
        AfterRun(data, pushed + [value], calls[1..]);
      case Pop =>
        assert (data + pushed)[..|data + pushed| - 1] == data + pushed[..|pushed| - 1];
        AfterRun(data, pushed[..|pushed| - 1], calls[1..]);
    }
  }

  /** A push and its matching pop: whatever is pushed and popped in between, the value comes out again. */
  lemma MatchingPop<T>(data: seq<T>, value: T, calls: seq<Call<T>>)
    requires Height(calls) == 0 && forall i :: 0 <= i <= |calls| ==> Height(calls[..i]) >= 0
    ensures After(data, [Push(value)] + calls) == data + [value]
  {
    assert ([Push(value)] + calls)[1..] == calls;
    assert (data + [value]) + [] == data + [value];
    AfterRun(data + [value], [], calls);
  }
}
