/** The slab allocator of slabs.c as an object. Each method does what its function in `Slabs` says. */
module SlabAllocator {
  import opened Common
  import opened Slabs
  import opened SlabAnswers

  /** The class with the first `x` chunks of a page in front of its freelist. */
  function Pushed(k: SlabClass, p: PageId, x: nat): SlabClass {
    k.(slots := Cut(p, x) + k.slots, slCurr := k.slCurr + x)
  }

  lemma PushedNone(k: SlabClass, p: PageId)
    ensures Pushed(k, p, 0) == k
  {
    assert Cut(p, 0) + k.slots == k.slots;
  }

  lemma PushedMore(k: SlabClass, p: PageId, x: nat)
    ensures var c := Pushed(k, p, x);
            Pushed(k, p, x + 1) == c.(slots := [Chunk(p, x)] + c.slots, slCurr := c.slCurr + 1)
  {
    assert Cut(p, x + 1) + k.slots == [Chunk(p, x)] + (Cut(p, x) + k.slots);
  }

  class Allocator {
    const g: Config
    var classes: seq<SlabClass>
    var malloced: nat

    /** Not part of the program's state: see `Slabs.State`. */
    ghost var used: set<Chunk>
    ghost var cleared: set<Chunk>
    ghost var lost: nat

    ghost function View(): State
      reads this
    {
      State(classes, malloced, used, cleared, lost)
    }

    ghost predicate Sound()
      reads this
    {
      Valid(g, View())
    }

    /** do_slabs_free: the chunk becomes the head of its class's freelist. */
    method Free(c: Chunk, id: nat)
      requires Sound() && 0 < id < |classes| && c in used && Owns(classes[id], c)
      modifies this
      ensures View() == Push(old(View()), id, c) && Sound()
    {
      PushValid(g, View(), id, c);
      var k := classes[id];
      classes := classes[id := k.(slots := [c] + k.slots, slCurr := k.slCurr + 1)];
      used := used - {c};
    }

    /** split_slab_page_into_freelist. */
    method SplitPage(p: PageId, id: nat)
      requires id < |classes|
      modifies `classes
      ensures classes == old(classes)[id := Pushed(old(classes)[id], p, old(classes)[id].perslab)]
    {
      var x := 0;
      var k := classes[id];
      PushedNone(k, p);
      while x < k.perslab
        invariant x <= k.perslab
        invariant classes == old(classes)[id := Pushed(k, p, x)]
      {
        PushedMore(k, p, x);
        var c := classes[id];
        classes := classes[id := c.(slots := [Chunk(p, x)] + c.slots, slCurr := c.slCurr + 1)];
        x := x + 1;
      }
    }

    /** get_page_from_global_pool. */
    method PoolPage() returns (r: Option<PageId>)
      requires |classes| > 0
      modifies `classes
      ensures old(classes[POOL].slabList) == [] ==> r == None && classes == old(classes)
      ensures old(classes[POOL].slabList) != [] ==>
                && r == Some(old(classes[POOL].slabList[|classes[POOL].slabList| - 1]))
                && View() == TakePool(old(View()))
    {
      var k := classes[POOL];
      if k.slabList == [] {
        return None;
      }
      var last := |k.slabList| - 1;
      r := Some(k.slabList[last]);
      classes := classes[POOL := k.(slabList := k.slabList[..last])];
    }

    /** memory_allocate without a preallocated block: the bytes are counted whatever malloc says. */
    method Malloc(len: nat, room: bool)
      modifies `malloced, `lost
      ensures malloced == old(malloced) + len && lost == old(lost) + if room then 0 else len
    {
      malloced := malloced + len;
      if !room {
        lost := lost + len;
      }
    }

    /** The end of do_slabs_newslab: the page is cut up and listed. */
    method AddPage(id: nat, p: PageId)
      requires 0 < id < |classes|
      modifies `classes
      ensures View() == Join(old(View()), id, p)
    {
      SplitPage(p, id);
      classes := classes[id := classes[id].(slabList := classes[id].slabList + [p])];
    }

    /** do_slabs_newslab. `p` is the page that malloc gives if it has room. */
    method MakePage(id: nat, grow: bool, room: bool, p: PageId) returns (ok: bool)
      requires Sound() && 0 < id < |classes| && Unlisted(View(), p)
      modifies this
      ensures (View(), ok) == NewSlab(g, old(View()), id, grow, room, p)
      ensures Sound() && (ok <==> !Refuses(g, old(View()), id, grow, room))
    {
      NewSlabValid(g, View(), id, grow, room, p);
      NewSlabMeaning(g, View(), id, grow, room, p);
      var k := classes[id];
      var len := if g.wholePages then g.pageSize else k.size * k.perslab;
      if g.memLimit != 0 && malloced + len > g.memLimit && k.slabList != [] && classes[POOL].slabList == [] {
        return false;
      }
      if !grow {
        return false;
      }
      var page := PoolPage();
      if page.Some? {
        AddPage(id, page.value);
        return true;
      }
      Malloc(len, room);
      if room {
        AddPage(id, p);
      }
      return room;
    }

    /** do_slabs_alloc. */
    method TakeChunk(id: nat, newPage: bool, grow: bool, room: bool, p: PageId) returns (r: Option<Chunk>)
      requires Sound() && Unlisted(View(), p)
      modifies this
      ensures (View(), r) == Alloc(g, old(View()), id, newPage, grow, room, p)
      ensures Sound() && (r.None? <==> NoChunk(g, old(View()), id, newPage, grow, room))
    {
      AllocMeaning(g, View(), id, newPage, grow, room, p);
      AllocAnswers(g, View(), id, newPage, grow, room, p);
      if id == 0 || id >= |classes| {
        return None;
      }
      if classes[id].slCurr == 0 && newPage {
        var _ := MakePage(id, grow, room, p);
      }
      if classes[id].slCurr == 0 {
        assert ClassOk(View(), classes[id]);
        return None;
      }
      assert ClassOk(View(), classes[id]);
      var c := PopChunk(id);
      r := Some(c);
    }

    method PopChunk(id: nat) returns (c: Chunk)
      requires id < |classes| && classes[id].slots != [] && classes[id].slCurr > 0
      modifies `classes, `used
      ensures c == old(classes)[id].slots[0] && View() == Pop(old(View()), id)
    {
      var k := classes[id];
      c := k.slots[0];
      classes := classes[id := k.(slots := k.slots[1..], slCurr := k.slCurr - 1)];
      used := used + {c};
    }

    // ----- moving a page

    /** slab_rebalance_start: 0 and the page, or the code of the last check that failed. */
    method Start(src: nat, dst: nat, grow: bool) returns (code: int, page: Option<PageId>)
      requires Sound() && src < |classes|
      ensures code == 0 <==> src != POOL && dst < |classes| && src != dst && grow && |classes[src].slabList| >= 2
      ensures code == 0 ==> page == Some(classes[src].slabList[0])
      ensures code < 0 ==> page == None
    {
      code, page := 0, None;
      if src == POOL || dst >= |classes| || src == dst {
        code := -2;
      }
      if !grow {
        code := -1;
      }
      if |classes[src].slabList| < 2 {
        code := -3;
      }
      if code == 0 {
        page := Some(classes[src].slabList[0]);
      }
    }

    /** slab_rebalance_cut_free, and the mark of a cleared chunk. */
    method CutOut(id: nat, ghost i: nat, c: Chunk)
      requires Sound() && 0 < id < |classes| && i < |classes[id].slots| && classes[id].slots[i] == c
      modifies this
      ensures View() == CutFree(old(View()), id, i) && Sound()
    {
      CutFreeValid(g, View(), id, i);
      assert ClassOk(View(), classes[id]);
      var k := classes[id];
      var rest := Remove(k.slots, c);
      RemoveAt(k.slots, i);
      classes := classes[id := k.(slots := rest, slCurr := k.slCurr - 1)];
      cleared := cleared + {c};
    }

    /** slab_rebalance_alloc. */
    method TakeOutside(id: nat, page: PageId) returns (r: Option<Chunk>)
      requires Sound() && 0 < id < |classes|
      modifies this
      ensures (View(), r) == Skim(old(View()), id, page, old(classes)[id].perslab)
      ensures Sound()
    {
      ghost var n := classes[id].perslab;
      SkimMeaning(g, View(), id, page, n);
      var x := 0;
      r := None;
      while x < classes[id].perslab
        invariant 0 < id < |classes| && classes[id].perslab == n && x <= n && r == None
        invariant Skim(View(), id, page, n - x) == Skim(old(View()), id, page, n)
      {
        if classes[id].slCurr == 0 || classes[id].slots == [] {
          return;
        }
        var c := PopChunk(id);
        if c.page == page {
          cleared := cleared + {c};
          used := used - {c};
        } else {
          return Some(c);
        }
        x := x + 1;
      }
    }

    /** memory_release. */
    method ReleasePool()
      requires Sound() && g.wholePages
      modifies this
      ensures View() == Release(g, old(View())) && Sound()
    {
      ReleaseValid(g, View());
      while malloced > g.memLimit && classes[POOL].slabList != []
        invariant Sound() && Release(g, View()) == Release(g, old(View()))
        decreases |classes[POOL].slabList|
      {
        FreeOneValid(g, View());
        var p := PoolPage();
        malloced := malloced - g.pageSize;
      }
    }

    /** slab_rebalance_finish. */
    method FinishMove(src: nat, dst: nat)
      requires Sound() && g.wholePages && 0 < src < |classes| && dst < |classes| && src != dst
      requires |classes[src].slabList| > 1 && Empty(View(), src, classes[src].slabList[0])
      modifies this
      ensures View() == Finish(g, old(View()), src, dst) && Sound()
    {
      FinishValid(g, View(), src, dst);
      if dst == POOL {
        ToPoolValid(g, View(), src);
      }
      var k := classes[src];
      var p := k.slabList[0];
      classes := classes[src := k.(slabList := k.slabList[1..])];
      cleared := set c <- cleared | c.page != p;
      if dst > POOL {
        AddPage(dst, p);
      } else {
        classes := classes[POOL := classes[POOL].(slabList := classes[POOL].slabList + [p])];
        ReleasePool();
      }
    }
  }

  function Remove(q: seq<Chunk>, c: Chunk): seq<Chunk> {
    if q == [] then [] else if q[0] == c then q[1..] else [q[0]] + Remove(q[1..], c)
  }

  lemma {:induction false} RemoveAt(q: seq<Chunk>, i: nat)
    requires i < |q| && Distinct(q)
    ensures Remove(q, q[i]) == q[..i] + q[i + 1..]
  {
    if i > 0 {
      RemoveAt(q[1..], i - 1);
    }
  }
}
