/** What the slab allocator answers, and what it has done then (slabs.c:202-301, 513-526, 675-705, 959-1005), told from
    the state before the call and the answers of malloc alone. */
module SlabAnswers {
  import opened Common
  import opened Slabs

  // ----- a new page

  /** No page is to be had: the limit would be passed by a class that has a page, the list of pages cannot grow, or
      malloc has nothing; a page in the pool saves from the first and the last. */
  predicate Refuses(g: Config, s: State, id: nat, grow: bool, room: bool)
    requires 0 < id < |s.classes|
  {
    var k, empty := s.classes[id], s.classes[POOL].slabList == [];
    || (g.memLimit != 0 && s.malloced + Len(g, k) > g.memLimit && k.slabList != [] && empty)
    || !grow
    || (empty && !room)
  }

  /** malloc was asked in vain. */
  predicate AskedInVain(g: Config, s: State, id: nat, grow: bool, room: bool)
    requires 0 < id < |s.classes|
  {
    && !(g.memLimit != 0 && s.malloced + Len(g, s.classes[id]) > g.memLimit && s.classes[id].slabList != [])
    && grow && s.classes[POOL].slabList == [] && !room
  }

  /** The class has one page more at the end of its list, and its chunks, the last one first, in front of the
      freelist. */
  ghost predicate GainsPage(k: SlabClass, k': SlabClass, p: PageId) {
    && k'.size == k.size && k'.perslab == k.perslab && k'.slabList == k.slabList + [p]
    && k'.slCurr == k.slCurr + k.perslab && |k'.slots| == k.perslab + |k.slots| && k'.slots[k.perslab..] == k.slots
    && forall i {:trigger k'.slots[i]} :: 0 <= i < k.perslab ==> k'.slots[i] == Chunk(p, k.perslab - 1 - i)
  }

  /** Nothing else is different but the class, the pool and the count of bytes. */
  ghost predicate OnlyClass(s: State, t: State, id: nat) {
    && |t.classes| == |s.classes| && t.used == s.used && t.cleared == s.cleared
    && forall j {:trigger t.classes[j]} :: POOL < j < |s.classes| && j != id ==> t.classes[j] == s.classes[j]
  }

  lemma {:induction false} CutAt(p: PageId, n: nat, i: nat)
    requires i < n
    ensures |Cut(p, n)| == n && Cut(p, n)[i] == Chunk(p, n - 1 - i)
  {
    if i > 0 {
      CutAt(p, n - 1, i - 1);
    } else if n > 1 {
      CutAt(p, n - 1, 0);
    }
  }

  lemma JoinGains(s: State, id: nat, p: PageId)
    requires id < |s.classes| && s.classes[id].perslab > 0
    ensures GainsPage(s.classes[id], Join(s, id, p).classes[id], p)
  {
    var k := s.classes[id];
    CutAt(p, k.perslab, 0);
    forall i | 0 <= i < k.perslab ensures (Cut(p, k.perslab) + k.slots)[i] == Chunk(p, k.perslab - 1 - i) {
      CutAt(p, k.perslab, i);
    }
  }

  /** do_slabs_newslab: there is a new page unless it is refused. It is the pool's last one, which costs nothing, or
      else fresh memory, which is counted. Without one nothing changes, but that malloc's refusal is counted, too. */
  lemma NewSlabMeaning(g: Config, s: State, id: nat, grow: bool, room: bool, p: PageId)
    requires 0 < id < |s.classes| && s.classes[id].perslab > 0
    ensures var (t, ok) := NewSlab(g, s, id, grow, room, p);
            && (ok <==> !Refuses(g, s, id, grow, room)) && OnlyClass(s, t, id)
            && var pool, len := s.classes[POOL].slabList, Len(g, s.classes[id]);
               if !ok then
                 && t.classes == s.classes
                 && t.malloced == s.malloced + (if AskedInVain(g, s, id, grow, room) then len else 0)
               else if pool != [] then
                 && GainsPage(s.classes[id], t.classes[id], pool[|pool| - 1]) && t.malloced == s.malloced
                 && t.classes[POOL] == s.classes[POOL].(slabList := pool[..|pool| - 1])
               else
                 && GainsPage(s.classes[id], t.classes[id], p) && t.malloced == s.malloced + len
                 && t.classes[POOL] == s.classes[POOL]
  {
    JoinGains(s.(malloced := s.malloced + Len(g, s.classes[id])), id, p);
    if s.classes[POOL].slabList != [] {
      JoinGains(TakePool(s), id, s.classes[POOL].slabList[|s.classes[POOL].slabList| - 1]);
    }
  }

  // ----- a chunk

  /** There is no chunk to hand out. */
  predicate NoChunk(g: Config, s: State, id: nat, newPage: bool, grow: bool, room: bool) {
    || id == 0 || id >= |s.classes|
    || (s.classes[id].slots == [] && (!newPage || Refuses(g, s, id, grow, room)))
  }

  /** do_slabs_alloc: there is a chunk exactly if the class is one, and its freelist is not empty or a page can be had.
      It is the first of the freelist; a page is made only for an empty one. */
  lemma AllocAnswers(g: Config, s: State, id: nat, newPage: bool, grow: bool, room: bool, p: PageId)
    requires Valid(g, s)
    ensures var (t, r) := Alloc(g, s, id, newPage, grow, room, p);
            && (r.None? <==> NoChunk(g, s, id, newPage, grow, room))
            && (0 < id < |s.classes| && s.classes[id].slots != [] ==>
                  var k := s.classes[id];
                  && r == Some(k.slots[0]) && t.malloced == s.malloced && t.used == s.used + {k.slots[0]}
                  && t.classes == s.classes[id := k.(slots := k.slots[1..], slCurr := k.slCurr - 1)])
            && (r.Some? && s.classes[id].slots == [] ==>
                  var pool, k := s.classes[POOL].slabList, s.classes[id];
                  var page := if pool != [] then pool[|pool| - 1] else p;
                  && r == Some(Chunk(page, k.perslab - 1)) && t.used == s.used + {Chunk(page, k.perslab - 1)}
                  && |t.classes| == |s.classes|
                  && t.classes[id].slabList == k.slabList + [page]
                  && t.classes[id].slCurr == |t.classes[id].slots| == k.perslab - 1
                  && t.malloced == s.malloced + if pool != [] then 0 else Len(g, k))
  {
    if 0 < id < |s.classes| {
      assert ClassOk(s, s.classes[id]) && s.classes[id].perslab > 0;
      NewSlabMeaning(g, s, id, grow, room, p);
    }
  }

  // ----- a chunk outside a page

  /** How many chunks of the page the freelist starts with. */
  function Leading(q: seq<Chunk>, page: PageId): (n: nat)
    ensures n <= |q| && (n < |q| ==> q[n].page != page) && forall j :: 0 <= j < n ==> q[j].page == page
  {
    if q == [] || q[0].page != page then 0 else 1 + Leading(q[1..], page)
  }

  /** slab_rebalance_alloc, which looks at `n` chunks: those of the page in front are cleared, and the next one is
      handed out; there is none exactly if the freelist or the `n` are used up before. */
  lemma {:induction false} SkimAnswers(s: State, id: nat, page: PageId, n: nat)
    requires id < |s.classes| && s.classes[id].slCurr == |s.classes[id].slots|
    ensures var q, t, r := s.classes[id].slots, Skim(s, id, page, n).0, Skim(s, id, page, n).1;
            var i := Leading(q, page);
            && |t.classes| == |s.classes| && (r.None? <==> i == |q| || i >= n)
            && (r.Some? ==> r.value == q[i] && t.classes[id].slots == q[i + 1..])
            && s.cleared <= t.cleared && forall j {:trigger q[j]} :: 0 <= j < i && j < n ==> q[j] in t.cleared
    decreases n
  {
    var q := s.classes[id].slots;
    if n > 0 && q != [] && q[0].page == page {
      var u := Retire(Pop(s, id), q[0]);
      SkimAnswers(u, id, page, n - 1);
      var t, i := Skim(s, id, page, n).0, Leading(q, page);
      forall j {:trigger q[j]} | 0 <= j < i && j < n ensures q[j] in t.cleared {
        assert q[0] in u.cleared;
        assert j > 0 ==> q[j] == q[1..][j - 1];
      }
      assert Skim(s, id, page, n).1.Some? ==> q[i] == q[1..][i - 1] && q[i + 1..] == q[1..][i..];
    }
  }

  // ----- the end of a move

  /** Pages from the end of the pool have been given back, as many as the limit asked for and no more. */
  ghost predicate GivenBack(g: Config, s: State, t: State)
    requires |s.classes| > 0 && |t.classes| > 0
  {
    var pool, m := s.classes[POOL].slabList, |t.classes[POOL].slabList|;
    && m <= |pool| && t.classes == s.classes[POOL := s.classes[POOL].(slabList := pool[..m])]
    && t.malloced == s.malloced - g.pageSize * (|pool| - m)
    && (m < |pool| ==> t.malloced + g.pageSize > g.memLimit)
    && (t.malloced > g.memLimit ==> m == 0 || t.malloced < g.pageSize)
  }

  lemma OnePageMore(size: nat, n: int)
    ensures size * (n + 1) == size * n + size
  {
  }

  lemma OneMoreGivenBack(g: Config, s: State, t: State)
    requires |s.classes| > 0 && s.classes[POOL].slabList != [] && s.malloced >= g.pageSize && s.malloced > g.memLimit
    requires |t.classes| > 0 && GivenBack(g, FreeOne(g, s), t)
    ensures GivenBack(g, s, t)
  {
    var pool, m := s.classes[POOL].slabList, |t.classes[POOL].slabList|;
    OnePageMore(g.pageSize, |pool| - 1 - m);
    assert pool[..|pool| - 1][..m] == pool[..m];
  }

  /** memory_release. */
  lemma {:induction false} ReleaseAnswers(g: Config, s: State)
    requires |s.classes| > 0
    ensures GivenBack(g, s, Release(g, s))
    decreases |s.classes[POOL].slabList|
  {
    var pool := s.classes[POOL].slabList;
    if s.malloced > g.memLimit && pool != [] && s.malloced >= g.pageSize {
      ReleaseAnswers(g, FreeOne(g, s));
      OneMoreGivenBack(g, s, Release(g, s));
    } else {
      assert pool[..|pool|] == pool;
    }
  }

  /** slab_rebalance_finish: the page leaves the head of its class, and the new class gains it with all its chunks; or
      it goes to the end of the pool, from which pages are then given back. */
  lemma FinishMeaning(g: Config, s: State, src: nat, dst: nat)
    requires Valid(g, s) && 0 < src < |s.classes| && dst < |s.classes| && src != dst && s.classes[src].slabList != []
    ensures var t, k := Finish(g, s, src, dst), s.classes[src];
            && |t.classes| == |s.classes| && t.classes[src] == k.(slabList := k.slabList[1..])
            && (dst > POOL ==> GainsPage(s.classes[dst], t.classes[dst], k.slabList[0]))
            && (dst > POOL ==> t.malloced == s.malloced)
            && (dst == POOL ==> GivenBack(g, AddPool(Leave(s, src), k.slabList[0]), t))
            && forall j {:trigger t.classes[j]} ::
                 0 < j < |s.classes| && j != src && j != dst ==> t.classes[j] == s.classes[j]
  {
    var u, p := Leave(s, src), s.classes[src].slabList[0];
    if dst > POOL {
      JoinGains(u, dst, p);
    } else {
      ReleaseAnswers(g, AddPool(u, p));
    }
  }
}
