/** `src/rl/buffer.py`: `ReplayBuffer`, a store of transitions bounded by
    `capacity` (a `deque` with `maxlen`) that drops its oldest entry on
    overflow, and whose `sample(k)` is the positional prefix `[:k]`. */
module Buffer {

  import opened Common

  /** `Transition = (state, action, reward, next_state, done)`. */
  datatype Transition = Transition(state: seq<real>, action: real, reward: real, nextState: seq<real>, done: bool)

  /** The default of the `capacity` constructor argument. */
  const DefaultCapacity: nat := 100_000

  /** The last `min(|s|, n)` elements of `s`, in order. */
  function Window<T>(s: seq<T>, n: nat): (r: seq<T>)
    ensures |r| == Min(|s|, n) && r == s[|s| - |r|..]
  {
    if |s| <= n then s else s[|s| - n..]
  }

  /** `deque.append(x)` on a deque whose `maxlen` is `maxlen`: append at the
      right, then drop from the left while the deque is over its bound. */
  function Appended<T>(s: seq<T>, maxlen: nat, x: T): (r: seq<T>)
    requires |s| <= maxlen
  {
    if |s| < maxlen then s + [x]
    else if maxlen == 0 then []
    else s[1..] + [x]
  }

  /** Appending to the window of a history gives the window of the longer
      history: the deque keeps the last `maxlen` items ever appended. */
  lemma {:induction false} AppendedWindow<T>(h: seq<T>, maxlen: nat, x: T)
    ensures Appended(Window(h, maxlen), maxlen, x) == Window(h + [x], maxlen)
  {
    var w := Window(h, maxlen);
    var h' := h + [x];
    if |h| < maxlen {
      assert w == h;
    } else if maxlen > 0 {
      assert w[1..] + [x] == h'[|h'| - maxlen..];
    }
  }

  /** The storage after appending `xs` one at a time. */
  function AppendAll<T>(s: seq<T>, maxlen: nat, xs: seq<T>): seq<T>
    requires |s| <= maxlen
    decreases |xs|
  {
    if xs == [] then s
    else
      var next := Appended(s, maxlen, xs[0]);
      assert |next| <= maxlen;
      AppendAll(next, maxlen, xs[1..])
  }

  lemma {:induction false} AppendAllCons<T>(s: seq<T>, maxlen: nat, xs: seq<T>)
    requires |s| <= maxlen && xs != []
    ensures |Appended(s, maxlen, xs[0])| <= maxlen
    ensures AppendAll(s, maxlen, xs) == AppendAll(Appended(s, maxlen, xs[0]), maxlen, xs[1..])
  {
  }

  lemma {:induction false} ShiftHead<T>(h: seq<T>, xs: seq<T>)
    requires xs != []
    ensures (h + [xs[0]]) + xs[1..] == h + xs
  {
  }

  /** Whatever was added, the storage is the last `maxlen` additions in their
      order of arrival. */
  lemma {:induction false} AppendAllWindow<T>(h: seq<T>, maxlen: nat, xs: seq<T>)
    ensures AppendAll(Window(h, maxlen), maxlen, xs) == Window(h + xs, maxlen)
    decreases |xs|
  {
    if xs == [] {
      assert h + xs == h;
    } else {
      var h' := h + [xs[0]];
      AppendAllCons(Window(h, maxlen), maxlen, xs);
      AppendedWindow(h, maxlen, xs[0]);
      AppendAllWindow(h', maxlen, xs[1..]);
      ShiftHead(h, xs);
    }
  }

  /** Capacity 2, transitions T1, T2, T3 added in order: T2 and T3 remain. */
  lemma {:induction false} CapacityTwoExample<T>(t1: T, t2: T, t3: T)
    ensures AppendAll([], 2, [t1, t2, t3]) == [t2, t3]
  {
    AppendAllWindow([], 2, [t1, t2, t3]);
    assert [] + [t1, t2, t3] == [t1, t2, t3];
  }

  class ReplayBuffer {
    const capacity: nat
    var storage: seq<Transition>
    /** Every transition ever added, oldest first. */
    ghost var added: seq<Transition>

    /** The storage is the newest `capacity` additions. */
    ghost predicate Valid()
      reads this
    {
      storage == Window(added, capacity)
    }

    constructor (capacity: nat)
      ensures Valid() && this.capacity == capacity && storage == [] && added == []
    {
      this.capacity := capacity;
      storage := [];
      added := [];
    }

    /** `ReplayBuffer()` with the default capacity. */
    constructor Default()
      ensures Valid() && capacity == DefaultCapacity && storage == [] && added == []
    {
      capacity := DefaultCapacity;
      storage := [];
      added := [];
    }

    method Add(transition: Transition)
      requires Valid()
      modifies this
      ensures Valid() && added == old(added) + [transition]
      ensures storage == Appended(old(storage), capacity, transition)
      ensures |storage| <= capacity
    {
      AppendedWindow(added, capacity, transition);
      var next := storage + [transition];
      if |next| > capacity {
        assert next[1..] == if capacity == 0 then [] else storage[1..] + [transition];
        next := next[1..];
      }
      storage := next;
      added := added + [transition];
    }

    /** `sample(batch_size)`: a copy of the storage cut to `[:batch_size]`. */
    method Sample(batchSize: int) returns (batch: seq<Transition>)
      ensures batch == Prefix(storage, batchSize)
      ensures batchSize >= 0 ==> batch == storage[..Min(batchSize, |storage|)]
      ensures storage == [] ==> batch == []
    {
      var all := storage;
      batch := Prefix(all, batchSize);
    }

    /** `__len__`. */
    method Len() returns (n: nat)
      ensures n == |storage|
      ensures Valid() ==> n <= capacity
    {
      n := |storage|;
    }
  }
}
