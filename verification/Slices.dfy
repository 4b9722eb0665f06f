/** Go slices over a backing array: appending writes in place while capacity lasts. */
module Slices {

  /** A slot of a buffer; `Nil` is what is left of a value that has been taken out. */
  datatype Slot<+T> = Nil | Full(value: T)

  datatype Slice<T> = Slice(buf: array<T>, len: nat)

  ghost predicate Fits<T>(s: Slice<T>) {
    s.len <= s.buf.Length
  }

  ghost function View<T>(s: Slice<T>): seq<T>
    reads s.buf
    requires Fits(s)
  {
    s.buf[..s.len]
  }

  /** make([]T, 0) */
  method Empty<T>() returns (s: Slice<T>)
    ensures Fits(s) && fresh(s.buf) && View(s) == []
  {
    var buf := new T[0];
    s := Slice(buf, 0);
  }

  /** s[0:0]: no values, the same storage. */
  function Reset<T>(s: Slice<T>): (r: Slice<T>)
    ensures r.buf == s.buf && Fits(r)
  {
    s.(len := 0)
  }

  /** append(s, x); spare slots of new storage hold x instead of Go's zero value. */
  method Append<T>(s: Slice<T>, x: T) returns (r: Slice<T>)
    requires Fits(s)
    modifies s.buf
    ensures Fits(r) && (r.buf == s.buf || fresh(r.buf))
    ensures View(r) == old(View(s)) + [x]
  {
    if s.len < s.buf.Length {
      s.buf[s.len] := x;
      r := Slice(s.buf, s.len + 1);
    } else {
      var buf := new T[2 * s.len + 1](i requires 0 <= i reads s.buf => if i < s.buf.Length then s.buf[i] else x);
      r := Slice(buf, s.len + 1);
    }
  }
}
