/** A freelist of slabs.c in the heap: chunks in a doubly linked list that starts at `slots`. */
module SlabFreelist {

  /** The header of a chunk. */
  class Chunk {
    var next: Chunk?
    var prev: Chunk?
    var slabbed: bool
    var fetched: bool
    var refcount: nat

    constructor ()
      ensures next == null && prev == null && !slabbed && !fetched && refcount == 0
    {
      next, prev, slabbed, fetched, refcount := null, null, false, false, 0;
    }
  }

  ghost predicate Distinct<T>(q: seq<T>) {
    forall i, j :: 0 <= i < j < |q| ==> q[i] != q[j]
  }

  ghost function Without<T>(q: seq<T>, i: nat): seq<T>
    requires i < |q|
  {
    q[..i] + q[i + 1..]
  }

  ghost predicate NodeOk(q: seq<Chunk>, i: nat)
    requires i < |q|
    reads q
  {
    && q[i].prev == (if i > 0 then q[i - 1] else null)
    && q[i].next == (if i + 1 < |q| then q[i + 1] else null)
  }

  /** Free: ITEM_SLABBED and nothing else. */
  ghost predicate FreeMark(c: Chunk)
    reads c`slabbed, c`fetched
  {
    c.slabbed && !c.fetched
  }

  class Freelist {
    var slots: Chunk?
    var slCurr: nat

    /** The free chunks, the one handed out next first. */
    ghost var q: seq<Chunk>

    ghost predicate Linked()
      reads `slots, `q, q
    {
      && slots == (if q == [] then null else q[0])
      && Distinct(q)
      && (forall i {:trigger NodeOk(q, i)} :: 0 <= i < |q| ==> NodeOk(q, i))
      && (forall i {:trigger FreeMark(q[i])} :: 0 <= i < |q| ==> FreeMark(q[i]))
    }

    /** A doubly linked list of exactly slCurr distinct chunks, all marked as free. */
    ghost predicate Valid()
      reads `slots, `slCurr, `q, q
    {
      Linked() && slCurr == |q|
    }

    constructor ()
      ensures Valid() && q == []
    {
      slots, slCurr, q := null, 0, [];
    }

    /** The list work of do_slabs_free. */
    method Push(it: Chunk)
      requires Valid() && it !in q
      modifies this, q, it
      ensures Valid() && q == [it] + old(q)
      ensures forall c <- old(q) :: c.refcount == old(c.refcount)
    {
      it.slabbed, it.fetched := true, false;
      it.prev := null;
      it.next := slots;
      if it.next != null {
        it.next.prev := it;
      }
      slots := it;
      slCurr := slCurr + 1;
      q := [it] + q;
      forall i | 0 <= i < |q| ensures NodeOk(q, i) && FreeMark(q[i]) {
        if i > 0 {
          assert old(NodeOk(q, i - 1)) && old(FreeMark(q[i - 1]));
        }
      }
    }

    /** The list work of do_slabs_alloc: the first chunk loses its mark under the lock and gets its first
        reference. */
    method Pop() returns (it: Chunk)
      requires Valid() && slCurr > 0
      modifies this, q
      ensures Valid() && old(q) == [it] + q && it !in q
      ensures !it.slabbed && it.refcount == 1
      ensures forall c <- old(q) :: c != it ==> c.refcount == old(c.refcount)
    {
      assert NodeOk(q, 0) && (|q| > 1 ==> NodeOk(q, 1));
      it := slots;
      slots := it.next;
      if it.next != null {
        it.next.prev := null;
      }
      it.slabbed := false;
      it.refcount := 1;
      slCurr := slCurr - 1;
      q := q[1..];
      forall i | 0 <= i < |q| ensures NodeOk(q, i) && FreeMark(q[i]) {
        assert old(NodeOk(q, i + 1)) && old(FreeMark(q[i + 1]));
      }
    }

    /** slab_rebalance_cut_free for the chunk at `i`, and the mark of a cleared chunk. */
    method Cut(it: Chunk, ghost i: nat)
      requires Valid() && i < |q| && q[i] == it
      modifies this, q
      ensures Valid() && q == Without(old(q), i) && it !in q
      ensures it.slabbed && it.fetched && it.refcount == 0
      ensures forall c <- q :: c.refcount == old(c.refcount)
    {
      assert FreeMark(q[i]);
      CutPointers(it, i);
      it.refcount := 0;
      it.fetched := true;
      slCurr := slCurr - 1;
    }

    method CutPointers(it: Chunk, ghost i: nat)
      requires Linked() && i < |q| && q[i] == it
      modifies `slots, `q, q`next, q`prev
      ensures Linked() && q == Without(old(q), i) && it !in q
    {
      assert NodeOk(q, i) && (i + 1 < |q| ==> NodeOk(q, i + 1)) && (i > 0 ==> NodeOk(q, i - 1)) && FreeMark(q[i]);
      if slots == it {
        slots := it.next;
      }
      if it.next != null {
        it.next.prev := it.prev;
      }
      if it.prev != null {
        it.prev.next := it.next;
      }
      q := Without(q, i);
      forall j | 0 <= j < |q| ensures NodeOk(q, j) {
        assert old(NodeOk(q, if j < i then j else j + 1));
      }
      forall j | 0 <= j < |q| ensures FreeMark(q[j]) {
        assert old(FreeMark(q[if j < i then j else j + 1]));
      }
    }
  }
}
