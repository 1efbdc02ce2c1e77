/**
 * `FramePool` of main.py: a lock-protected `deque(maxlen=max_size)` of released
 * numpy buffers. `get` pops the most recently released buffer and hands it out only
 * when its shape and dtype match the request; a mismatching buffer is dropped and a
 * fresh one is allocated instead.
 */
module FramePool {
  import opened Wrappers
  import opened Frames
  import BoundedDeque

  /** What `get` hands back: the popped buffer itself, or a newly allocated `np.empty`. */
  datatype Acquired = Reused(frame: Frame) | Allocated(shape: Shape, dtype: DType)

  /** Outcome of `get` on pool contents `pool` (oldest first): the remaining contents and the buffer. */
  function Take(pool: seq<Frame>, shape: Shape, dtype: DType): (r: (seq<Frame>, Acquired))
    ensures pool == [] ==> r == ([], Allocated(shape, dtype))
    ensures pool != [] ==> r.0 == pool[..|pool| - 1]
    ensures r.1.Reused? <==> pool != [] && pool[|pool| - 1].shape == shape && pool[|pool| - 1].dtype == dtype
    ensures r.1.Reused? ==> r.1.frame == pool[|pool| - 1]
    ensures r.1.Allocated? ==> r.1 == Allocated(shape, dtype)
  {
    if pool == [] then ([], Allocated(shape, dtype))
    else
      var top := pool[|pool| - 1];
      if top.shape == shape && top.dtype == dtype then (pool[..|pool| - 1], Reused(top))
      else (pool[..|pool| - 1], Allocated(shape, dtype))
  }

  /** Contents after `release(frame)`: `None` changes nothing, a buffer is appended with `maxlen` eviction. */
  function Put(pool: seq<Frame>, frame: Option<Frame>, maxSize: nat): (r: seq<Frame>)
    requires |pool| <= maxSize
    ensures |r| <= maxSize
    ensures frame.None? ==> r == pool
    ensures frame.Some? && |pool| < maxSize ==> r == pool + [frame.value]
    ensures frame.Some? && |pool| == maxSize && maxSize > 0 ==> r == pool[1..] + [frame.value]
  {
    match frame
    case None => pool
    case Some(f) => BoundedDeque.Append(pool, f, maxSize)
  }

  /** Releasing a buffer and asking for its own shape and dtype returns that very buffer. */
  lemma ReleaseThenGetReturnsSame(pool: seq<Frame>, f: Frame, maxSize: nat)
    requires |pool| <= maxSize && maxSize > 0
    ensures Take(Put(pool, Some(f), maxSize), f.shape, f.dtype).1 == Reused(f)
  {

  }

  /** A release followed by a get, whatever it returns, leaves the pool as it was unless the release evicted. */
  lemma ReleaseThenGetRestores(pool: seq<Frame>, f: Frame, maxSize: nat, shape: Shape, dtype: DType)
    requires |pool| < maxSize
    ensures Take(Put(pool, Some(f), maxSize), shape, dtype).0 == pool
  {
    assert (pool + [f])[..|pool|] == pool;
  }

  class Pool {
    /** `deque(maxlen=max_size)`: the deque's capacity. */
    const maxSize: nat
    /** The deque's contents, oldest release first. */
    var buffers: seq<Frame>

    ghost predicate Valid()
      reads this
    {
      |buffers| <= maxSize
    }

    /** `FramePool(max_size)`: an empty pool. */
    constructor (maxSize: nat)
      ensures Valid()
      ensures this.maxSize == maxSize && buffers == []
    {
      this.maxSize := maxSize;
      buffers := [];
    }

    /** `get(shape, dtype)`: always removes the newest buffer; returns it only if it fits. */
    method Get(shape: Shape, dtype: DType) returns (a: Acquired)
      requires Valid()
      modifies this
      ensures Valid()
      ensures (buffers, a) == Take(old(buffers), shape, dtype)
      ensures |buffers| == if old(buffers) == [] then 0 else |old(buffers)| - 1
    {
      if buffers == [] {
        // IndexError from pop(): fall through to allocation.
        a := Allocated(shape, dtype);
      } else {
        var top := buffers[|buffers| - 1];
        buffers := buffers[..|buffers| - 1];
        if top.shape == shape && top.dtype == dtype {
          a := Reused(top);
        } else {
          a := Allocated(shape, dtype);
        }
      }
    }

    /** `release(frame)`: `None` is ignored; a full pool drops its oldest buffer. */
    method Release(frame: Option<Frame>)
      requires Valid()
      modifies this
      ensures Valid()
      ensures buffers == Put(old(buffers), frame, maxSize)
    {
      if frame.Some? {
        buffers := BoundedDeque.Append(buffers, frame.value, maxSize);
      }
    }

    /** `clear()`: the pool holds nothing afterwards. */
    method Clear()
      requires Valid()
      modifies this
      ensures Valid() && buffers == []
    {
      buffers := [];
    }
  }
}
