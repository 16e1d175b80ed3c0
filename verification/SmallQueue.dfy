/** SmallQueue: the queue of errors that wait for an id to be unlocked. */
module SmallQueues {
  import opened Basics
  import opened Rings

  /** A queue of a few slots in place that overflows into a deque. */
  class SmallQueue<T> {
    var begin: nat
    var size: nat
    const c: array<T>
    var full: seq<T>

    ghost predicate Valid()
      reads this, c
    {
      begin < c.Length && size <= c.Length
    }

    ghost function Contents(): seq<T>
      requires Valid()
      reads this, c
    {
      Ring(c[..], begin, size) + full
    }

    constructor (n: nat, zero: T)
      requires n > 0
      ensures Valid() && Contents() == [] && fresh(c)
    {
      c := new T[n](_ => zero);
      begin, size, full := 0, 0, [];
    }

    method Push(x: T)
      requires Valid()
      modifies this, c
      ensures Valid() && Contents() == old(Contents()) + [x]
    {
      if full != [] {
        full := full + [x];
      } else if size < c.Length {
        RingPush(c[..], begin, size, x);
        var tail := begin + size;
        if tail >= c.Length { tail := tail - c.Length; }
        c[tail] := x;
        size := size + 1;
      } else {
        full := full + [x];
      }
    }

    method Pop() returns (x: Option<T>)
      requires Valid()
      modifies this
      ensures Valid()
      ensures x == None ==> old(Contents()) == [] && Contents() == []
      ensures x.Some? ==> old(Contents()) == [x.value] + Contents()
    {
      if size > 0 {
        RingPop(c[..], begin, size);
        x := Some(c[begin]);
        begin := begin + 1;
        if begin >= c.Length { begin := begin - c.Length; }
        size := size - 1;
      } else if full != [] {
        x := Some(full[0]);
        full := full[1..];
      } else {
        x := None;
      }
    }

    predicate Empty()
      requires Valid()
      reads this, c
      ensures Empty() <==> Contents() == []
    {
      size == 0 && full == []
    }

    method Clear()
      requires Valid()
      modifies this
      ensures Valid() && Contents() == []
    {
      size, begin, full := 0, 0, [];
    }
  }
}
