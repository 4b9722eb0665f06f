/** The growing ring buffer of pkg/controller/etree/helpers.go. */
module Fifo {

  import opened Slices

  /** True of the slots that lie in the live window of a ring. */
  predicate Live(i: nat, head: nat, tail: nat) {
    if head <= tail then head <= i < tail else head <= i || i < tail
  }

  /** The slot that holds the k-th oldest value of a ring of the given capacity. */
  function At(k: nat, head: nat, capacity: nat): (i: int) {
    if head + k < capacity then head + k else head + k - capacity
  }

  /** Go's `copy` of `n` values between two different buffers. */
  method Copy<T>(dst: array<T>, to: nat, src: array<T>, from: nat, n: nat)
    requires dst != src && to + n <= dst.Length && from + n <= src.Length
    modifies dst
    ensures forall i :: 0 <= i < dst.Length ==>
              dst[i] == if to <= i < to + n then src[from + i - to] else old(dst[i])
  {
    forall i | 0 <= i < n { dst[to + i] := src[from + i]; }
  }

  class Queue<T> {
    ghost var contents: seq<T>  // oldest value first
    ghost var adds: nat         // calls of Add so far
    ghost var copied: nat       // slots moved by Grow so far

    var data: array<Slot<T>>
    var head: nat
    var tail: nat

    ghost predicate Valid()
      reads this, data
    {
      && (if data.Length == 0 then head == tail == 0 else head < data.Length && tail < data.Length)
      && |contents| == (if head <= tail then tail - head else data.Length - head + tail)
      && (forall k :: 0 <= k < |contents| ==> data[At(k, head, data.Length)] == Full(contents[k]))
      && (forall i :: 0 <= i < data.Length && !Live(i, head, tail) ==> data[i] == Nil)
      && Amortised()
    }

    /** Storage only doubles after enough calls of Add, which bounds the copying. */
    ghost predicate Amortised()
      reads this, data
    {
      && |contents| <= adds
      && (data.Length == 0 ==> copied == 0)
      && (data.Length > 0 ==> 4 <= data.Length && copied <= data.Length - 4)
      && (data.Length > 4 ==> data.Length <= 2 * adds)
    }

    constructor ()
      ensures Valid() && fresh(data) && contents == [] && adds == copied == 0
    {
      data := new Slot<T>[0];
      head, tail, adds, copied := 0, 0, 0, 0;
      contents := [];
    }

    method Len() returns (n: nat)
      requires Valid()
      ensures n == |contents|
    {
      if tail >= head {
        n := tail - head;
      } else {
        n := data.Length - head + tail;
      }
    }

    /** The part of Grow that puts the values in order at the start of the new buffer. */
    method Unwrap(buf: array<Slot<T>>)
      requires Valid() && buf != data && |contents| <= buf.Length
      modifies buf
      ensures forall i :: 0 <= i < buf.Length ==> buf[i] == if i < |contents| then Full(contents[i]) else old(buf[i])
    {
      if tail >= head {
        Copy(buf, 0, data, head, tail - head);
        assert forall k :: 0 <= k < |contents| ==> data[At(k, head, data.Length)] == data[head + k];
      } else {
        var hindex := data.Length - head;
        Copy(buf, 0, data, head, hindex);
        Copy(buf, hindex, data, 0, tail);
        assert forall k :: 0 <= k < |contents| ==>
                 data[At(k, head, data.Length)] == if k < hindex then data[head + k] else data[k - hindex];
      }
    }

    method Grow()
      requires Valid() && |contents| + 1 >= data.Length && adds > |contents|
      modifies this
      ensures Valid() && fresh(data) && contents == old(contents)
      ensures |contents| + 1 < data.Length
      ensures adds == old(adds) && copied == old(copied) + |contents|
    {
      var c := data.Length * 2;
      if c == 0 {
        c := 4;
      }
      var count := Len();
      var buf := new Slot<T>[c](_ => Nil);
      Unwrap(buf);
      copied := copied + count;
      data, head, tail := buf, 0, count;
    }

    method Add(value: T)
      requires Valid()
      modifies this, data
      ensures Valid() && (data == old(data) || fresh(data))
      ensures contents == old(contents) + [value]
      ensures adds == old(adds) + 1
      ensures copied <= 2 * adds
    {
      adds := adds + 1;
      var n := Len();
      if n + 1 >= data.Length {
        Grow();
      }
      Put(value);
    }

    /** The part of Add after the capacity test: store at the tail and step it around the ring. */
    method Put(value: T)
      requires Valid() && |contents| + 1 < data.Length && |contents| < adds
      modifies this, data
      ensures Valid() && data == old(data) && contents == old(contents) + [value]
      ensures adds == old(adds) && copied == old(copied)
    {
      data[tail] := Full(value);
      tail := tail + 1;
      if tail == data.Length {
        tail := 0;
      }
      contents := contents + [value];
    }

    method Remove() returns (value: T)
      requires Valid() && contents != []
      modifies this, data
      ensures Valid() && data == old(data)
      ensures value == old(contents)[0] && contents == old(contents)[1..]
      ensures adds == old(adds) && copied == old(copied)
    {
      assert data[At(0, head, data.Length)] == Full(contents[0]);
      value := data[head].value;
      data[head] := Nil;
      head := head + 1;
      if head == data.Length {
        head := 0;
      }
      contents := contents[1..];
      assert forall k :: 0 <= k < |contents| ==> At(k, head, data.Length) == At(k + 1, old(head), data.Length);
    }
  }
}
