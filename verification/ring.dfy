/** The circular buffers: the frame ring of user.c (64 entries) and the keyboard buffer of io.c (32 characters).
    Both are bounded queues that drop what arrives while they are full. */
module Rings {

  const FRAME_RING: nat := 64

  /** The queue after an arrival. */
  function Pushed<T>(q: seq<T>, cap: nat, x: T): (r: seq<T>) {
    if |q| < cap then q + [x] else q
  }

  class Ring<T> {
    const buff: array<T>
    var head: nat
    var tail: nat
    var isFull: bool

    predicate Valid()
      reads this
    {
      head < buff.Length && tail < buff.Length && (isFull ==> head == tail)
    }

    function Count(): (n: nat)
      requires Valid()
      reads this
      ensures n <= buff.Length
    {
      if head < tail then head + buff.Length - tail
      else if head > tail then head - tail
      else if isFull then buff.Length else 0
    }

    function At(k: nat): nat
      requires Valid() && k < buff.Length
      reads this
    {
      if tail + k < buff.Length then tail + k else tail + k - buff.Length
    }

    /** What is in the buffer, oldest first. */
    ghost function Contents(): (q: seq<T>)
      requires Valid()
      reads this, buff
      ensures |q| == Count()
    {
      seq(Count(), k requires Valid() && 0 <= k < Count() reads this, buff => buff[At(k)])
    }

    constructor (size: nat, fill: T)
      requires size > 0
      ensures Valid() && buff.Length == size && fresh(buff) && Contents() == []
    {
      buff := new T[size](_ => fill);
      head, tail, isFull := 0, 0, false;
    }

    /** pending_frames */
    method Pending() returns (n: nat)
      requires Valid()
      ensures n == |Contents()|
    {
      if head < tail {
        return head + buff.Length - tail;
      } else if head > tail {
        return head - tail;
      } else {
        if isFull {
          return buff.Length;
        } else {
          return 0;
        }
      }
    }

    /** push_frame, write_to_buffer */
    method Push(x: T)
      requires Valid()
      modifies this, buff
      ensures Valid() && Contents() == Pushed(old(Contents()), buff.Length, x)
    {
      if !isFull {
        ghost var was := Contents();
        Next(head, buff.Length);
        buff[head] := x;
        head := (head + 1) % buff.Length;
        if head == tail {
          isFull := true;
        }
        assert Count() == |was| + 1;
        assert Contents() == was + [x];
      }
    }

    /** read_frame, read_from_buffer: there is nothing to read exactly when the queue is empty. */
    method Pop() returns (found: bool, x: T)
      requires Valid() && buff.Length > 0
      modifies this
      ensures Valid() && (found <==> old(Contents()) != [])
      ensures found ==> old(Contents()) == [x] + Contents()
      ensures !found ==> Contents() == []
    {
      if head == tail && !isFull {
        return false, buff[tail];
      } else {
        ghost var was := Contents();
        x := buff[tail];
        Next(tail, buff.Length);
        tail := (tail + 1) % buff.Length;
        isFull := false;
        assert was == [x] + Contents();
        return true, x;
      }
    }

    /** Any sequence of writes and reads, from an empty ring: what is read and what is left is what Run says. */
    method Perform(ops: seq<Op<T>>) returns (taken: seq<T>)
      requires Valid() && buff.Length > 0 && Contents() == []
      modifies this, buff
      ensures Valid() && Contents() == Run(ops, buff.Length).queue && taken == Run(ops, buff.Length).taken
    {
      taken := [];
      var i := 0;
      while i < |ops|
        invariant 0 <= i <= |ops| && Valid()
        invariant Contents() == Run(ops[..i], buff.Length).queue && taken == Run(ops[..i], buff.Length).taken
      {
        assert ops[..i + 1][..i] == ops[..i];
        match ops[i] {
          case PushOp(x) => Push(x);
          case PopOp =>
            var found, x := Pop();
            if found {
              taken := taken + [x];
            }
        }
        i := i + 1;
      }
      assert ops[..i] == ops;
    }
  }

  lemma Next(i: nat, n: nat)
    requires i < n
    ensures (i + 1) % n == if i + 1 == n then 0 else i + 1
  {
  }

  // ---------------------------------------------------------------- any sequence of operations

  datatype Op<T> = PushOp(x: T) | PopOp

  /** What has gone through a queue: the arrivals in order, whether each was let in, and what was read. */
  datatype Traffic<T> = Traffic(queue: seq<T>, entered: seq<T>, taken: seq<T>, dropped: nat)

  /** A queue of capacity cap after a sequence of operations. */
  function Run<T>(ops: seq<Op<T>>, cap: nat): Traffic<T> {
    if ops == [] then Traffic([], [], [], 0)
    else
      var t := Run(ops[..|ops| - 1], cap);
      match ops[|ops| - 1]
      case PushOp(x) =>
        if |t.queue| < cap then t.(queue := Pushed(t.queue, cap, x), entered := t.entered + [x])
        else t.(queue := Pushed(t.queue, cap, x), dropped := t.dropped + 1)
      case PopOp =>
        if t.queue == [] then t else t.(queue := t.queue[1..], taken := t.taken + [t.queue[0]])
  }

  function Arrivals<T>(ops: seq<Op<T>>): nat {
    if ops == [] then 0 else Arrivals(ops[..|ops| - 1]) + if ops[|ops| - 1].PushOp? then 1 else 0
  }

  /** Whatever is done with a ring (Ring.Perform): everything that entered has been read or is still there, in the order of
      arrival; nothing else was read; every other arrival was dropped. */
  lemma {:induction false} FirstInFirstOut<T>(ops: seq<Op<T>>, cap: nat)
    ensures var t := Run(ops, cap);
            && t.entered == t.taken + t.queue && |t.queue| <= cap
            && |t.entered| + t.dropped == Arrivals(ops)
  {
    if ops != [] {
      FirstInFirstOut(ops[..|ops| - 1], cap);
    }
  }

  /** Nothing is dropped if and only if never more than cap arrivals are unread. */
  lemma {:induction false} DropsOnlyWhenFull<T>(ops: seq<Op<T>>, cap: nat)
    ensures Run(ops, cap).dropped == 0 <==> forall n :: 0 <= n <= |ops| ==> Backlog(ops[..n], cap) <= cap
  {
    assert ops[..|ops|] == ops;
    FirstInFirstOut(ops, cap);
    if ops != [] {
      var before := ops[..|ops| - 1];
      DropsOnlyWhenFull(before, cap);
      FirstInFirstOut(before, cap);
      assert forall n :: 0 <= n <= |before| ==> before[..n] == ops[..n];
      if Run(ops, cap).dropped == 0 {
        forall n | 0 <= n <= |ops| ensures Backlog(ops[..n], cap) <= cap {
          if n < |ops| {
            assert before[..n] == ops[..n];
          }
        }
      }
    }
  }

  /** Arrivals that have not been read, whether they were let in or not. */
  function Backlog<T>(ops: seq<Op<T>>, cap: nat): int {
    Arrivals(ops) - |Run(ops, cap).taken|
  }
}
