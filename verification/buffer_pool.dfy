/** The memory manager the Communicator draws row buffers from. Only its
    request/return contract is modelled: a buffer is an abstract handle, the
    pool records which handles are out with a caller, and a request always
    yields as many handles as asked for, none of them already out. How the
    manager reuses returned memory is not part of this model, so handles are
    named from a counter that never repeats a name. */
module BufferPool {
  import opened Seqs

  type Handle = nat

  datatype Pool = Pool(outstanding: multiset<Handle>, next: Handle)

  /** Every handle out with a caller was named before `next`. */
  ghost predicate Valid(p: Pool) {
    forall h :: h in p.outstanding ==> h < p.next
  }

  /** The pool after a request, and the handles handed out. */
  datatype Draw = Draw(pool: Pool, handles: seq<Handle>)

  /** `RequestBlocks(n, blocks)`: `n` distinct handles, none already out,
      all of them now out. */
  function Acquire(p: Pool, n: nat): (d: Draw)
    requires Valid(p)
    ensures Valid(d.pool)
    ensures |d.handles| == n
    ensures Distinct(d.handles)
    ensures forall i :: 0 <= i < n ==> d.handles[i] !in p.outstanding
    ensures d.pool.outstanding == p.outstanding + multiset(d.handles)
  {
    var hs := seq(n, i requires 0 <= i < n => p.next + i);
    Draw(Pool(p.outstanding + multiset(hs), p.next + n), hs)
  }

  /** `ReturnBlocks(blocks)`: only handles that are out may be returned, and
      afterwards exactly those are no longer out. */
  function Release(p: Pool, hs: seq<Handle>): (q: Pool)
    requires Valid(p)
    requires multiset(hs) <= p.outstanding
    ensures Valid(q)
    ensures q.outstanding + multiset(hs) == p.outstanding
  {
    Pool(p.outstanding - multiset(hs), p.next)
  }

  /** Returning what a request handed out restores the outstanding handles. */
  lemma AcquireRelease(p: Pool, n: nat)
    requires Valid(p)
    ensures Release(Acquire(p, n).pool, Acquire(p, n).handles).outstanding == p.outstanding
  {
  }

  /** Two requests followed by returning both batches, in the order the
      Communicator does it, restore the outstanding handles. */
  lemma AcquireTwiceReleaseTwice(p: Pool, n1: nat, n2: nat)
    requires Valid(p)
    ensures var d1 := Acquire(p, n1);
            var d2 := Acquire(d1.pool, n2);
            Release(Release(d2.pool, d1.handles), d2.handles).outstanding == p.outstanding
  {
    var d1 := Acquire(p, n1);
    var d2 := Acquire(d1.pool, n2);
    var o, h1, h2 := p.outstanding, multiset(d1.handles), multiset(d2.handles);
    assert d2.pool.outstanding == o + h1 + h2;
    assert (o + h1 + h2) - h1 == o + h2;
  }
}
