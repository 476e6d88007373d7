/** The slab allocator of slabs.c: classes of fixed-size chunks cut from pages, a freelist for each class,
    a pool of whole pages, and a memory limit. A freelist is a sequence here; `Freelist` shows the linked
    list in the heap to be one. The pages and chunks are named, not addressed. */
module Slabs {
  import opened Common

  type PageId = nat

  datatype Chunk = Chunk(page: PageId, ix: nat)

  /** slabclass_t: `slots` starts with the chunk handed out next. */
  datatype SlabClass = SlabClass(size: nat, perslab: nat, slots: seq<Chunk>, slCurr: nat, slabList: seq<PageId>)

  /** settings.slab_reassign or a chunk limit makes every page `pageSize` long. */
  datatype Config = Config(pageSize: nat, wholePages: bool, memLimit: nat)

  /** Class 0 is the pool. `used` are the chunks handed out, `cleared` those emptied for a page move, and `lost`
      the bytes that memory_allocate counted although malloc gave no memory; these three are not part of the
      program's state. */
  datatype State = State(classes: seq<SlabClass>, malloced: nat, used: set<Chunk>, cleared: set<Chunk>, lost: nat)

  const POOL: nat := 0

  // ----- the invariant

  predicate Owns(k: SlabClass, c: Chunk) {
    c.page in k.slabList && c.ix < k.perslab
  }

  ghost predicate Distinct<T>(q: seq<T>) {
    forall i, j :: 0 <= i < j < |q| ==> q[i] != q[j]
  }

  /** Each of the class's chunks is free, handed out or cleared, and only one of these. */
  ghost predicate ChunkOk(s: State, k: SlabClass, c: Chunk) {
    && (c in k.slots ==> Owns(k, c))
    && (Owns(k, c) ==>
          && (c in k.slots || c in s.used || c in s.cleared)
          && !(c in k.slots && c in s.used) && !(c in k.slots && c in s.cleared) && !(c in s.used && c in s.cleared))
  }

  ghost predicate ClassOk(s: State, k: SlabClass) {
    && k.slCurr == |k.slots| && Distinct(k.slots) && Distinct(k.slabList)
    && forall c {:trigger ChunkOk(s, k, c)} :: ChunkOk(s, k, c)
  }

  /** No page is in two lists. */
  ghost predicate Apart(s: State, i: nat, j: nat)
    requires i < |s.classes| && j < |s.classes|
  {
    forall p <- s.classes[i].slabList :: p !in s.classes[j].slabList
  }

  /** A chunk that is handed out or cleared is one of some class. */
  ghost predicate Placed(s: State, c: Chunk) {
    c in s.used || c in s.cleared ==> exists i :: 0 < i < |s.classes| && Owns(s.classes[i], c)
  }

  function Len(g: Config, k: SlabClass): nat {
    if g.wholePages then g.pageSize else k.size * k.perslab
  }

  /** The classes that own a page, the pool not counted. */
  ghost function Owners(ks: seq<SlabClass>, n: nat): nat
    requires n <= |ks|
  {
    if n <= 1 then 0 else Owners(ks, n - 1) + if ks[n - 1].slabList != [] then 1 else 0
  }

  ghost function Pages(ks: seq<SlabClass>, n: nat): nat
    requires n <= |ks|
  {
    if n == 0 then 0 else Pages(ks, n - 1) + |ks[n - 1].slabList|
  }

  /** Only the first page of a class may pass the limit; and the count is that of the pages there are. */
  ghost predicate Bounded(g: Config, s: State) {
    && (g.memLimit != 0 ==> s.malloced <= g.memLimit + g.pageSize * Owners(s.classes, |s.classes|) + s.lost)
    && (g.wholePages ==> s.malloced == g.pageSize * Pages(s.classes, |s.classes|) + s.lost)
  }

  ghost predicate Shaped(g: Config, s: State) {
    && |s.classes| > 0 && s.classes[POOL].slots == [] && s.classes[POOL].perslab == 0
    && (forall i {:trigger s.classes[i]} :: 0 < i < |s.classes| ==>
       s.classes[i].perslab > 0 && Len(g, s.classes[i]) <= g.pageSize)
  }

  ghost predicate AllClassesOk(s: State) {
    forall i {:trigger s.classes[i]} :: 0 <= i < |s.classes| ==> ClassOk(s, s.classes[i])
  }

  ghost predicate AllPlaced(s: State) {
    forall c {:trigger Placed(s, c)} :: Placed(s, c)
  }

  /** Every chunk and page is in one place. */
  ghost predicate Laid(g: Config, s: State) {
    && Shaped(g, s) && AllClassesOk(s) && AllPlaced(s)
    && (forall i, j {:trigger Apart(s, i, j)} :: 0 <= i < |s.classes| && 0 <= j < |s.classes| && i != j ==>
       Apart(s, i, j))
  }

  ghost predicate Valid(g: Config, s: State) {
    Laid(g, s) && Bounded(g, s)
  }

  // ----- what the operations do

  function Pop(s: State, id: nat): State
    requires id < |s.classes| && s.classes[id].slots != [] && s.classes[id].slCurr > 0
  {
    var k := s.classes[id];
    s.(classes := s.classes[id := k.(slots := k.slots[1..], slCurr := k.slCurr - 1)], used := s.used + {k.slots[0]})
  }

  function Push(s: State, id: nat, c: Chunk): State
    requires id < |s.classes|
  {
    var k := s.classes[id];
    s.(classes := s.classes[id := k.(slots := [c] + k.slots, slCurr := k.slCurr + 1)], used := s.used - {c})
  }

  /** The chunks of a page in the order that pushing them one after the other leaves them in. */
  function Cut(p: PageId, n: nat): seq<Chunk> {
    if n == 0 then [] else [Chunk(p, n - 1)] + Cut(p, n - 1)
  }

  /** A page joins a class, cut into free chunks. */
  function Join(s: State, id: nat, p: PageId): State
    requires id < |s.classes|
  {
    var k := s.classes[id];
    s.(classes := s.classes[id := k.(slots := Cut(p, k.perslab) + k.slots, slCurr := k.slCurr + k.perslab,
                                     slabList := k.slabList + [p])])
  }

  /** The last page of the pool is taken. */
  function TakePool(s: State): State
    requires |s.classes| > 0 && s.classes[POOL].slabList != []
  {
    var g := s.classes[POOL];
    s.(classes := s.classes[POOL := g.(slabList := g.slabList[..|g.slabList| - 1])])
  }

  // ----- each keeps the invariant

  ghost predicate SameClass(s: State, t: State, i: nat)
    requires i < |s.classes| == |t.classes|
  {
    var k, l := s.classes[i], t.classes[i];
    k.size == l.size && k.perslab == l.perslab && k.slabList == l.slabList
  }

  /** Same pages everywhere. */
  ghost predicate SamePages(s: State, t: State) {
    && |s.classes| == |t.classes| && s.malloced == t.malloced && s.lost == t.lost && |s.classes| > 0
    && s.classes[POOL] == t.classes[POOL]
    && forall i {:trigger SameClass(s, t, i)} :: 0 <= i < |s.classes| ==> SameClass(s, t, i)
  }

  lemma {:induction false} OwnersSame(s: State, t: State, n: nat)
    requires SamePages(s, t) && n <= |s.classes|
    ensures Owners(s.classes, n) == Owners(t.classes, n) && Pages(s.classes, n) == Pages(t.classes, n)
  {
    if n > 0 {
      OwnersSame(s, t, n - 1);
      assert SameClass(s, t, n - 1);
    }
  }

  lemma SamePagesValid(g: Config, s: State, t: State)
    requires Valid(g, s) && SamePages(s, t) && AllClassesOk(t) && AllPlaced(t)
    ensures Valid(g, t)
  {
    OwnersSame(s, t, |s.classes|);
    forall i | 0 < i < |t.classes| ensures t.classes[i].perslab > 0 && Len(g, t.classes[i]) <= g.pageSize {
      assert SameClass(s, t, i);
    }
    forall i, j | 0 <= i < |t.classes| && 0 <= j < |t.classes| && i != j ensures Apart(t, i, j) {
      assert Apart(s, i, j) && SameClass(s, t, i) && SameClass(s, t, j);
    }
  }

  /** A chunk belongs to one class. */
  lemma OneOwner(g: Config, s: State, i: nat, j: nat, c: Chunk)
    requires Valid(g, s) && i < |s.classes| && j < |s.classes| && i != j
    requires Owns(s.classes[i], c)
    ensures !Owns(s.classes[j], c) && c !in s.classes[j].slots
  {
    assert Apart(s, i, j);
    assert ClassOk(s, s.classes[j]) && ChunkOk(s, s.classes[j], c);
  }

  /** Only chunk `c` of class `id` changes its state, and the class's freelist with it. */
  ghost predicate OneMoves(s: State, t: State, id: nat, c: Chunk) {
    && 0 < id < |s.classes| && SamePages(s, t) && Owns(s.classes[id], c)
    && (forall j {:trigger t.classes[j]} :: 0 <= j < |s.classes| && j != id ==> t.classes[j] == s.classes[j])
    && (forall d {:trigger d in t.used} :: d != c ==> (d in t.used <==> d in s.used))
    && (forall d {:trigger d in t.cleared} :: d != c ==> (d in t.cleared <==> d in s.cleared))
    && (forall d {:trigger d in t.classes[id].slots} :: d != c ==>
       (d in t.classes[id].slots <==> d in s.classes[id].slots))
  }

  lemma OneMovesValid(g: Config, s: State, t: State, id: nat, c: Chunk)
    requires Valid(g, s) && OneMoves(s, t, id, c)
    requires ChunkOk(t, t.classes[id], c) && Distinct(t.classes[id].slots) &&
             t.classes[id].slCurr == |t.classes[id].slots|
    ensures Valid(g, t)
  {
    forall j | 0 <= j < |t.classes| ensures ClassOk(t, t.classes[j]) {
      assert ClassOk(s, s.classes[j]) && SameClass(s, t, j);
      forall d ensures ChunkOk(t, t.classes[j], d) {
        assert ChunkOk(s, s.classes[j], d);
        if d == c && j != id {
          OneOwner(g, s, id, j, c);
        }
      }
    }
    forall d ensures Placed(t, d) {
      assert Placed(s, d);
      if d in t.used || d in t.cleared {
        var i := if d == c then id else var i :| 0 < i < |s.classes| && Owns(s.classes[i], d); i;
        assert SameClass(s, t, i);
        assert Owns(t.classes[i], d);
      }
    }
    SamePagesValid(g, s, t);
  }

  lemma PopValid(g: Config, s: State, id: nat)
    requires Valid(g, s) && 0 < id < |s.classes| && s.classes[id].slots != []
    ensures s.classes[id].slCurr > 0 && Valid(g, Pop(s, id))
    ensures var c := s.classes[id].slots[0]; c !in s.used && c !in s.cleared && Owns(s.classes[id], c)
  {
    var k := s.classes[id];
    assert ClassOk(s, k) && ChunkOk(s, k, k.slots[0]);
    var t := Pop(s, id);
    assert k.slots == [k.slots[0]] + k.slots[1..];
    assert ChunkOk(t, t.classes[id], k.slots[0]);
    forall j | 0 <= j < |s.classes| ensures SameClass(s, t, j) {
    }
    OneMovesValid(g, s, t, id, k.slots[0]);
  }

  lemma PushValid(g: Config, s: State, id: nat, c: Chunk)
    requires Valid(g, s) && 0 < id < |s.classes| && c in s.used && Owns(s.classes[id], c)
    ensures Valid(g, Push(s, id, c))
  {
    var k := s.classes[id];
    assert ClassOk(s, k) && ChunkOk(s, k, c);
    var t := Push(s, id, c);
    forall j | 0 <= j < |s.classes| ensures SameClass(s, t, j) {
    }
    assert ChunkOk(t, t.classes[id], c);
    OneMovesValid(g, s, t, id, c);
  }

  // ----- pages come and go

  ghost predicate Absent(s: State, p: PageId, i: nat)
    requires i < |s.classes|
  {
    p !in s.classes[i].slabList
  }

  /** The page is in no list. */
  ghost predicate Unlisted(s: State, p: PageId) {
    forall i {:trigger Absent(s, p, i)} :: 0 <= i < |s.classes| ==> Absent(s, p, i)
  }

  lemma UnlistedChunks(g: Config, s: State, p: PageId, c: Chunk)
    requires Laid(g, s) && Unlisted(s, p) && c.page == p
    ensures c !in s.used && c !in s.cleared
    ensures forall i {:trigger s.classes[i]} :: 0 <= i < |s.classes| ==> c !in s.classes[i].slots
  {
    assert Placed(s, c);
    forall i | 0 <= i < |s.classes| ensures !Owns(s.classes[i], c) && c !in s.classes[i].slots {
      assert Absent(s, p, i) && ClassOk(s, s.classes[i]) && ChunkOk(s, s.classes[i], c);
    }
  }

  lemma {:induction false} CutFacts(p: PageId, n: nat)
    ensures |Cut(p, n)| == n && Distinct(Cut(p, n))
    ensures forall c {:trigger c in Cut(p, n)} :: c in Cut(p, n) <==> c.page == p && c.ix < n
  {
    if n > 0 {
      CutFacts(p, n - 1);
      DistinctConcat([Chunk(p, n - 1)], Cut(p, n - 1));
    }
  }

  lemma DistinctConcat<T>(a: seq<T>, b: seq<T>)
    requires Distinct(a) && Distinct(b) && forall x <- a :: x !in b
    ensures Distinct(a + b)
  {
    forall i, j | 0 <= i < j < |a + b| ensures (a + b)[i] != (a + b)[j] {
      if i < |a| <= j {
        assert (a + b)[i] in a && (a + b)[j] in b;
      }
    }
  }

  lemma JoinClassOk(g: Config, s: State, id: nat, p: PageId)
    requires Laid(g, s) && 0 < id < |s.classes| && Unlisted(s, p)
    ensures ClassOk(Join(s, id, p), Join(s, id, p).classes[id])
  {
    var t, k := Join(s, id, p), s.classes[id];
    assert ClassOk(s, k) && Absent(s, p, id);
    CutFacts(p, k.perslab);
    forall c <- Cut(p, k.perslab) ensures c !in k.slots {
      UnlistedChunks(g, s, p, c);
    }
    DistinctConcat(Cut(p, k.perslab), k.slots);
    DistinctConcat(k.slabList, [p]);
    forall c ensures ChunkOk(t, t.classes[id], c) {
      assert ChunkOk(s, k, c);
      if c.page == p {
        UnlistedChunks(g, s, p, c);
      }
    }
  }

  lemma JoinLaid(g: Config, s: State, id: nat, p: PageId)
    requires Laid(g, s) && 0 < id < |s.classes| && Unlisted(s, p)
    ensures Laid(g, Join(s, id, p))
  {
    var t := Join(s, id, p);
    JoinClassOk(g, s, id, p);
    forall j | 0 <= j < |t.classes| ensures ClassOk(t, t.classes[j]) {
      if j != id {
        assert ClassOk(s, s.classes[j]);
        forall c ensures ChunkOk(t, t.classes[j], c) {
          assert ChunkOk(s, s.classes[j], c);
        }
      }
    }
    forall c ensures Placed(t, c) {
      assert Placed(s, c);
      if c in t.used || c in t.cleared {
        var i :| 0 < i < |s.classes| && Owns(s.classes[i], c);
        assert Owns(t.classes[i], c);
      }
    }
    forall i, j | 0 <= i < |t.classes| && 0 <= j < |t.classes| && i != j ensures Apart(t, i, j) {
      assert Apart(s, i, j) && Absent(s, p, i) && Absent(s, p, j);
    }
  }

  lemma {:induction false} JoinOwners(s: State, id: nat, p: PageId, n: nat)
    requires 0 < id < |s.classes| && n <= |s.classes|
    ensures Owners(Join(s, id, p).classes, n) ==
              Owners(s.classes, n) + if id < n && s.classes[id].slabList == [] then 1 else 0
    ensures Pages(Join(s, id, p).classes, n) == Pages(s.classes, n) + if id < n then 1 else 0
  {
    if n > 0 {
      JoinOwners(s, id, p, n - 1);
    }
  }

  lemma OneMore(g: Config, n: nat)
    ensures g.pageSize * (n + 1) == g.pageSize * n + g.pageSize
    ensures g.pageSize * n >= 0
  {
  }

  /** Fresh memory for a page is charged to the limit, or to the class that had no page yet. */
  lemma GrowValid(g: Config, s: State, id: nat, p: PageId)
    requires Valid(g, s) && 0 < id < |s.classes| && Unlisted(s, p)
    requires g.memLimit != 0 && s.classes[id].slabList != [] ==> s.malloced + Len(g, s.classes[id]) <= g.memLimit
    ensures Valid(g, Join(s.(malloced := s.malloced + Len(g, s.classes[id])), id, p))
  {
    var u := s.(malloced := s.malloced + Len(g, s.classes[id]));
    assert Laid(g, u) by {
      MallocedLaid(g, s, u);
    }
    assert forall i :: 0 <= i < |s.classes| ==> Absent(s, p, i) ==> Absent(u, p, i);
    JoinLaid(g, u, id, p);
    JoinOwners(u, id, p, |s.classes|);
    OneMore(g, Owners(s.classes, |s.classes|));
    OneMore(g, Pages(s.classes, |s.classes|));
  }

  /** malloc fails, and the bytes are counted all the same. */
  lemma LostValid(g: Config, s: State, n: nat)
    requires Valid(g, s)
    ensures Valid(g, s.(malloced := s.malloced + n, lost := s.lost + n))
  {
    var t := s.(malloced := s.malloced + n, lost := s.lost + n);
    MallocedLaid(g, s, t);
  }

  lemma MallocedLaid(g: Config, s: State, t: State)
    requires Laid(g, s) && t == s.(malloced := t.malloced, lost := t.lost)
    ensures Laid(g, t)
  {
    forall i | 0 <= i < |t.classes| ensures ClassOk(t, t.classes[i]) {
      assert ClassOk(s, s.classes[i]);
      forall c ensures ChunkOk(t, t.classes[i], c) {
        assert ChunkOk(s, s.classes[i], c);
      }
    }
    forall c ensures Placed(t, c) {
      assert Placed(s, c);
    }
    forall i, j | 0 <= i < |t.classes| && 0 <= j < |t.classes| && i != j ensures Apart(t, i, j) {
      assert Apart(s, i, j);
    }
  }

  // ----- pool pages

  lemma TakePoolLaid(g: Config, s: State)
    requires Laid(g, s) && s.classes[POOL].slabList != []
    ensures var p := s.classes[POOL].slabList[|s.classes[POOL].slabList| - 1];
            Laid(g, TakePool(s)) && Unlisted(TakePool(s), p)
  {
    var t, l := TakePool(s), s.classes[POOL].slabList;
    var p := l[|l| - 1];
    assert ClassOk(s, s.classes[POOL]);
    forall j | 0 <= j < |t.classes| ensures ClassOk(t, t.classes[j]) {
      assert ClassOk(s, s.classes[j]);
      forall c ensures ChunkOk(t, t.classes[j], c) {
        assert ChunkOk(s, s.classes[j], c);
      }
    }
    forall c ensures Placed(t, c) {
      assert Placed(s, c);
      if c in t.used || c in t.cleared {
        var i :| 0 < i < |s.classes| && Owns(s.classes[i], c);
        assert Owns(t.classes[i], c);
      }
    }
    forall i, j | 0 <= i < |t.classes| && 0 <= j < |t.classes| && i != j ensures Apart(t, i, j) {
      assert Apart(s, i, j);
    }
    forall i | 0 <= i < |t.classes| ensures Absent(t, p, i) {
      assert i != POOL ==> Apart(s, POOL, i);
    }
  }

  lemma {:induction false} TakePoolOwners(s: State, n: nat)
    requires |s.classes| > 0 && s.classes[POOL].slabList != [] && n <= |s.classes|
    ensures Owners(TakePool(s).classes, n) == Owners(s.classes, n)
    ensures Pages(TakePool(s).classes, n) == Pages(s.classes, n) - if n > 0 then 1 else 0
  {
    if n > 0 {
      TakePoolOwners(s, n - 1);
    }
  }

  /** A page from the pool costs no memory. */
  lemma FromPoolValid(g: Config, s: State, id: nat)
    requires Valid(g, s) && 0 < id < |s.classes| && s.classes[POOL].slabList != []
    ensures var p := s.classes[POOL].slabList[|s.classes[POOL].slabList| - 1];
            Unlisted(TakePool(s), p) && Valid(g, Join(TakePool(s), id, p))
  {
    var p := s.classes[POOL].slabList[|s.classes[POOL].slabList| - 1];
    TakePoolLaid(g, s);
    JoinLaid(g, TakePool(s), id, p);
    JoinOwners(TakePool(s), id, p, |s.classes|);
    TakePoolOwners(s, |s.classes|);
    OneMore(g, Owners(s.classes, |s.classes|));
  }

  // ----- moving a page

  /** The free chunk at `i` is cut out of the freelist and marked as cleared. */
  function CutFree(s: State, id: nat, i: nat): State
    requires id < |s.classes| && i < |s.classes[id].slots| && s.classes[id].slCurr > 0
  {
    var k := s.classes[id];
    s.(classes := s.classes[id := k.(slots := k.slots[..i] + k.slots[i + 1..], slCurr := k.slCurr - 1)],
       cleared := s.cleared + {k.slots[i]})
  }

  /** A chunk that was handed out is marked as cleared, without going over the freelist. */
  function Retire(s: State, c: Chunk): State {
    s.(used := s.used - {c}, cleared := s.cleared + {c})
  }

  lemma CutFreeValid(g: Config, s: State, id: nat, i: nat)
    requires Valid(g, s) && 0 < id < |s.classes| && i < |s.classes[id].slots|
    ensures s.classes[id].slCurr > 0 && Valid(g, CutFree(s, id, i))
  {
    var k := s.classes[id];
    var c := k.slots[i];
    assert ClassOk(s, k) && ChunkOk(s, k, c);
    var t := CutFree(s, id, i);
    var rest := k.slots[..i] + k.slots[i + 1..];
    assert k.slots == k.slots[..i] + [c] + k.slots[i + 1..];
    assert c !in rest;
    assert ChunkOk(t, t.classes[id], c);
    forall j | 0 <= j < |s.classes| ensures SameClass(s, t, j) {
    }
    OneMovesValid(g, s, t, id, c);
  }

  lemma RetireValid(g: Config, s: State, id: nat, c: Chunk)
    requires Valid(g, s) && 0 < id < |s.classes| && c in s.used && Owns(s.classes[id], c)
    ensures Valid(g, Retire(s, c))
  {
    var k := s.classes[id];
    assert ClassOk(s, k) && ChunkOk(s, k, c);
    var t := Retire(s, c);
    forall j | 0 <= j < |s.classes| ensures SameClass(s, t, j) {
    }
    assert ChunkOk(t, t.classes[id], c);
    OneMovesValid(g, s, t, id, c);
  }

  /** The first page of a class leaves it; its chunks are no chunks any more. */
  function Leave(s: State, id: nat): State
    requires id < |s.classes| && s.classes[id].slabList != []
  {
    var k := s.classes[id];
    s.(classes := s.classes[id := k.(slabList := k.slabList[1..])],
       cleared := set c <- s.cleared | c.page != k.slabList[0])
  }

  /** All chunks of the page have been cleared. */
  ghost predicate Empty(s: State, id: nat, p: PageId)
    requires id < |s.classes|
  {
    forall ix {:trigger Chunk(p, ix)} :: 0 <= ix < s.classes[id].perslab ==> Chunk(p, ix) in s.cleared
  }

  lemma LeaveClassOk(g: Config, s: State, id: nat, j: nat)
    requires Laid(g, s) && 0 < id < |s.classes| && s.classes[id].slabList != [] && j < |s.classes|
    requires Empty(s, id, s.classes[id].slabList[0])
    ensures ClassOk(Leave(s, id), Leave(s, id).classes[j])
  {
    var t, k, p := Leave(s, id), s.classes[id], s.classes[id].slabList[0];
    assert ClassOk(s, k) && ClassOk(s, s.classes[j]);
    assert k.slabList == [p] + k.slabList[1..];
    forall c ensures ChunkOk(t, t.classes[j], c) {
      assert ChunkOk(s, s.classes[j], c) && ChunkOk(s, k, c);
      assert c.page == p && c.ix < k.perslab ==> c == Chunk(p, c.ix) && c in s.cleared;
      if j != id {
        assert Apart(s, id, j);
      }
    }
  }

  lemma LeaveLaid(g: Config, s: State, id: nat)
    requires Laid(g, s) && 0 < id < |s.classes| && s.classes[id].slabList != []
    requires Empty(s, id, s.classes[id].slabList[0])
    ensures Laid(g, Leave(s, id)) && Unlisted(Leave(s, id), s.classes[id].slabList[0])
  {
    var t, k, p := Leave(s, id), s.classes[id], s.classes[id].slabList[0];
    assert ClassOk(s, k);
    forall j | 0 <= j < |t.classes| ensures ClassOk(t, t.classes[j]) && Absent(t, p, j) {
      LeaveClassOk(g, s, id, j);
      assert j != id ==> Apart(s, id, j);
    }
    forall c ensures Placed(t, c) {
      assert Placed(s, c) && ChunkOk(s, k, c);
      if c in t.used || c in t.cleared {
        var i :| 0 < i < |s.classes| && Owns(s.classes[i], c);
        assert c.page == p && i == id ==> c == Chunk(p, c.ix) && c in s.cleared;
        assert Owns(t.classes[i], c);
      }
    }
    forall i, j | 0 <= i < |t.classes| && 0 <= j < |t.classes| && i != j ensures Apart(t, i, j) {
      assert Apart(s, i, j);
    }
  }

  lemma {:induction false} LeaveOwners(s: State, id: nat, n: nat)
    requires 0 < id < |s.classes| && |s.classes[id].slabList| > 1 && n <= |s.classes|
    ensures Owners(Leave(s, id).classes, n) == Owners(s.classes, n) &&
            Pages(Leave(s, id).classes, n) == Pages(s.classes, n) - if id < n then 1 else 0
  {
    if n > 0 {
      LeaveOwners(s, id, n - 1);
    }
  }

  /** The page that leaves one class joins another. */
  lemma MoveValid(g: Config, s: State, src: nat, dst: nat)
    requires Valid(g, s) && 0 < src < |s.classes| && 0 < dst < |s.classes| && |s.classes[src].slabList| > 1
    requires Empty(s, src, s.classes[src].slabList[0])
    ensures Valid(g, Join(Leave(s, src), dst, s.classes[src].slabList[0]))
  {
    var t, p := Leave(s, src), s.classes[src].slabList[0];
    LeaveLaid(g, s, src);
    JoinLaid(g, t, dst, p);
    LeaveOwners(s, src, |s.classes|);
    JoinOwners(t, dst, p, |s.classes|);
    OneMore(g, Owners(s.classes, |s.classes|));
  }

  /** A page joins the pool whole. */
  function AddPool(s: State, p: PageId): State
    requires |s.classes| > 0
  {
    s.(classes := s.classes[POOL := s.classes[POOL].(slabList := s.classes[POOL].slabList + [p])])
  }

  lemma AddPoolLaid(g: Config, s: State, p: PageId)
    requires Laid(g, s) && Unlisted(s, p)
    ensures Laid(g, AddPool(s, p))
  {
    var t := AddPool(s, p);
    assert Absent(s, p, POOL) && ClassOk(s, s.classes[POOL]);
    DistinctConcat(s.classes[POOL].slabList, [p]);
    forall j | 0 <= j < |t.classes| ensures ClassOk(t, t.classes[j]) {
      assert ClassOk(s, s.classes[j]);
      forall c ensures ChunkOk(t, t.classes[j], c) {
        assert ChunkOk(s, s.classes[j], c);
      }
    }
    forall c ensures Placed(t, c) {
      assert Placed(s, c);
      if c in t.used || c in t.cleared {
        var i :| 0 < i < |s.classes| && Owns(s.classes[i], c);
        assert Owns(t.classes[i], c);
      }
    }
    forall i, j | 0 <= i < |t.classes| && 0 <= j < |t.classes| && i != j ensures Apart(t, i, j) {
      assert Apart(s, i, j) && Absent(s, p, i) && Absent(s, p, j);
    }
  }

  lemma {:induction false} AddPoolOwners(s: State, p: PageId, n: nat)
    requires |s.classes| > 0 && n <= |s.classes|
    ensures Owners(AddPool(s, p).classes, n) == Owners(s.classes, n) &&
            Pages(AddPool(s, p).classes, n) == Pages(s.classes, n) + if n > 0 then 1 else 0
  {
    if n > 0 {
      AddPoolOwners(s, p, n - 1);
    }
  }

  lemma ToPoolValid(g: Config, s: State, src: nat)
    requires Valid(g, s) && 0 < src < |s.classes| && |s.classes[src].slabList| > 1
    requires Empty(s, src, s.classes[src].slabList[0])
    ensures Valid(g, AddPool(Leave(s, src), s.classes[src].slabList[0]))
  {
    var t, p := Leave(s, src), s.classes[src].slabList[0];
    LeaveLaid(g, s, src);
    AddPoolLaid(g, t, p);
    LeaveOwners(s, src, |s.classes|);
    AddPoolOwners(t, p, |s.classes|);
  }

  /** A pool page is given back to the system. */
  function FreeOne(g: Config, s: State): State
    requires |s.classes| > 0 && s.classes[POOL].slabList != [] && s.malloced >= g.pageSize
  {
    TakePool(s).(malloced := s.malloced - g.pageSize)
  }

  lemma {:induction false} PoolPages(s: State, n: nat)
    requires 0 < n <= |s.classes|
    ensures Pages(s.classes, n) >= |s.classes[POOL].slabList|
  {
    if n > 1 {
      PoolPages(s, n - 1);
    }
  }

  lemma FreeOneValid(g: Config, s: State)
    requires Valid(g, s) && s.classes[POOL].slabList != [] && g.wholePages
    ensures s.malloced >= g.pageSize && Valid(g, FreeOne(g, s))
  {
    var n := |s.classes|;
    PoolPages(s, n);
    OneMore(g, Pages(s.classes, n) - 1);
    TakePoolLaid(g, s);
    TakePoolOwners(s, n);
    MallocedLaid(g, TakePool(s), FreeOne(g, s));
  }

  // ----- counting chunks

  ghost function PageChunks(p: PageId, n: nat): set<Chunk> {
    if n == 0 then {} else PageChunks(p, n - 1) + {Chunk(p, n - 1)}
  }

  lemma {:induction false} PageChunksFacts(p: PageId, n: nat)
    ensures |PageChunks(p, n)| == n
    ensures forall c :: c in PageChunks(p, n) <==> c.page == p && c.ix < n
  {
    if n > 0 {
      PageChunksFacts(p, n - 1);
    }
  }

  ghost function ChunksOf(pages: seq<PageId>, n: nat): set<Chunk> {
    if pages == [] then {} else PageChunks(pages[0], n) + ChunksOf(pages[1..], n)
  }

  lemma OneMoreTimes(a: nat, n: nat)
    ensures (a + 1) * n == a * n + n
  {
  }

  lemma {:induction false} ChunksOfFacts(pages: seq<PageId>, n: nat)
    requires Distinct(pages)
    ensures |ChunksOf(pages, n)| == |pages| * n
    ensures forall c :: c in ChunksOf(pages, n) <==> c.page in pages && c.ix < n
  {
    if pages != [] {
      var rest := pages[1..];
      var first, others := PageChunks(pages[0], n), ChunksOf(rest, n);
      PageChunksFacts(pages[0], n);
      ChunksOfFacts(rest, n);
      forall c ensures !(c in first && c in others) {
      }
      assert first !! others;
      assert |first + others| == |first| + |others|;
      OneMoreTimes(|rest|, n);
    }
  }

  ghost function ElementsOf<T>(q: seq<T>): set<T> {
    set x <- q
  }

  lemma {:induction false} DistinctCount<T>(q: seq<T>)
    requires Distinct(q)
    ensures |ElementsOf(q)| == |q|
  {
    if q != [] {
      DistinctCount(q[1..]);
      assert q == [q[0]] + q[1..];
      assert ElementsOf(q) == {q[0]} + ElementsOf(q[1..]);
      assert q[0] !in q[1..];
    }
  }

  ghost function Of(k: SlabClass, chunks: set<Chunk>): set<Chunk> {
    set c <- chunks | Owns(k, c)
  }

  ghost function FreeOf(k: SlabClass): set<Chunk> {
    ElementsOf(k.slots)
  }

  /** The chunks of a class's pages are free, handed out or cleared, and only one of these. */
  lemma KindsOfChunks(g: Config, s: State, id: nat)
    requires Valid(g, s) && id < |s.classes|
    ensures var k := s.classes[id];
            && FreeOf(k) + Of(k, s.used) + Of(k, s.cleared) == ChunksOf(k.slabList, k.perslab)
            && FreeOf(k) !! Of(k, s.used) && (FreeOf(k) + Of(k, s.used)) !! Of(k, s.cleared)
  {
    var k := s.classes[id];
    assert ClassOk(s, k);
    ChunksOfFacts(k.slabList, k.perslab);
    forall c ensures c in FreeOf(k) + Of(k, s.used) + Of(k, s.cleared) <==> c in ChunksOf(k.slabList, k.perslab) {
      assert ChunkOk(s, k, c);
    }
    forall c ensures !(c in FreeOf(k) && c in Of(k, s.used)) &&
      !(c in FreeOf(k) + Of(k, s.used) && c in Of(k, s.cleared)) {
      assert ChunkOk(s, k, c);
    }
  }

  lemma ThreeParts(a: set<Chunk>, b: set<Chunk>, c: set<Chunk>)
    requires a !! b && (a + b) !! c
    ensures |a + b + c| == |a| + |b| + |c|
  {
  }

  /** Free, handed-out and cleared chunks of a class add up to the chunks of its pages. */
  lemma ChunksAddUp(g: Config, s: State, id: nat)
    requires Valid(g, s) && id < |s.classes|
    ensures var k := s.classes[id];
            k.slCurr + |Of(k, s.used)| + |Of(k, s.cleared)| == |k.slabList| * k.perslab
  {
    var k := s.classes[id];
    assert ClassOk(s, k);
    DistinctCount(k.slots);
    ChunksOfFacts(k.slabList, k.perslab);
    KindsOfChunks(g, s, id);
    ThreeParts(FreeOf(k), Of(k, s.used), Of(k, s.cleared));
  }

  // ----- the limit

  /** The limit with one page for each class that owns one. */
  ghost predicate WithinLimit(g: Config, s: State) {
    g.memLimit != 0 ==> s.malloced <= Allowed(g, Owners(s.classes, |s.classes|))
  }

  function Allowed(g: Config, owners: nat): nat {
    OneMore(g, owners);
    g.memLimit + g.pageSize * owners
  }

  /** While malloc has not failed the limit is kept. */
  lemma LimitKept(g: Config, s: State)
    requires Valid(g, s) && s.lost == 0
    ensures WithinLimit(g, s)
  {
  }

  /** do_slabs_newslab for a page of `len` bytes; the result says whether there is a new page. `grow` is the
      answer of grow_slab_list, `room` that of malloc, `p` the page it would give. */
  function NewPage(g: Config, s: State, id: nat, len: nat, grow: bool, room: bool, p: PageId): (State, bool)
    requires 0 < id < |s.classes|
  {
    var k, pool := s.classes[id], s.classes[POOL].slabList;
    if g.memLimit != 0 && s.malloced + len > g.memLimit && k.slabList != [] && pool == [] then (s, false)
    else if !grow then (s, false)
    else if pool != [] then (Join(TakePool(s), id, pool[|pool| - 1]), true)
    else if !room then (s.(malloced := s.malloced + len, lost := s.lost + len), false)
    else (Join(s.(malloced := s.malloced + len), id, p), true)
  }

  function NewSlab(g: Config, s: State, id: nat, grow: bool, room: bool, p: PageId): (State, bool)
    requires 0 < id < |s.classes|
  {
    NewPage(g, s, id, Len(g, s.classes[id]), grow, room, p)
  }

  lemma NewSlabValid(g: Config, s: State, id: nat, grow: bool, room: bool, p: PageId)
    requires Valid(g, s) && 0 < id < |s.classes| && Unlisted(s, p)
    ensures var (t, ok) := NewSlab(g, s, id, grow, room, p);
            && Valid(g, t) && t.used == s.used && t.cleared == s.cleared
            && (!ok ==> t.classes == s.classes) && (ok ==> t.classes[id].slots != [])
  {
    if s.classes[POOL].slabList != [] {
      FromPoolValid(g, s, id);
    } else if room {
      if g.memLimit == 0 || s.malloced + Len(g, s.classes[id]) <= g.memLimit || s.classes[id].slabList == [] {
        GrowValid(g, s, id, p);
      }
    } else {
      LostValid(g, s, Len(g, s.classes[id]));
    }
    assert s.classes[id].perslab > 0;
    CutFacts(p, s.classes[id].perslab);
    if s.classes[POOL].slabList != [] {
      CutFacts(s.classes[POOL].slabList[|s.classes[POOL].slabList| - 1], s.classes[id].perslab);
    }
  }

  /** The call counts memory that malloc did not give. */
  predicate Loses(g: Config, s: State, id: nat, len: nat, grow: bool, room: bool)
    requires 0 < id < |s.classes|
  {
    && grow && !room && s.classes[POOL].slabList == []
    && (g.memLimit == 0 || s.malloced + len <= g.memLimit || s.classes[id].slabList == [])
  }

  lemma NewPageOwners(g: Config, s: State, id: nat, len: nat, grow: bool, room: bool, p: PageId)
    requires 0 < id < |s.classes|
    ensures var (t, ok) := NewPage(g, s, id, len, grow, room, p);
            && |t.classes| == |s.classes|
            && Owners(t.classes, |t.classes|) ==
                 Owners(s.classes, |s.classes|) + (if ok && s.classes[id].slabList == [] then 1 else 0)
  {
    if s.classes[POOL].slabList != [] {
      PoolJoinOwners(s, id, s.classes[POOL].slabList[|s.classes[POOL].slabList| - 1]);
    }
    JoinOwners(s.(malloced := s.malloced + len), id, p, |s.classes|);
  }

  lemma PoolJoinOwners(s: State, id: nat, p: PageId)
    requires 0 < id < |s.classes| && s.classes[POOL].slabList != []
    ensures Owners(Join(TakePool(s), id, p).classes, |s.classes|)
              == Owners(s.classes, |s.classes|) + if s.classes[id].slabList == [] then 1 else 0
  {
    TakePoolOwners(s, |s.classes|);
    JoinOwners(TakePool(s), id, p, |s.classes|);
  }

  /** A call keeps within the limit exactly unless it counts memory that malloc did not give, and that
      passes the limit. */
  lemma NewPageKeepsLimit(g: Config, s: State, id: nat, len: nat, grow: bool, room: bool, p: PageId)
    requires 0 < id < |s.classes| && len <= g.pageSize && WithinLimit(g, s) && g.memLimit != 0
    ensures WithinLimit(g, NewPage(g, s, id, len, grow, room, p).0) <==>
              !(Loses(g, s, id, len, grow, room) && s.malloced + len > Allowed(g, Owners(s.classes, |s.classes|)))
  {
    NewPageOwners(g, s, id, len, grow, room, p);
    AllowedMore(g, Owners(s.classes, |s.classes|));
  }

  lemma AllowedMore(g: Config, n: nat)
    ensures g.memLimit <= Allowed(g, n) && Allowed(g, n + 1) == Allowed(g, n) + g.pageSize
  {
    OneMore(g, n);
  }

  // ----- handing out chunks

  /** do_slabs_alloc. `newPage` is false for SLABS_ALLOC_NO_NEWPAGE. */
  function Alloc(g: Config, s: State, id: nat, newPage: bool, grow: bool, room: bool, p: PageId)
    : (State, Option<Chunk>)
  {
    if id == 0 || id >= |s.classes| then (s, None)
    else
      var t := if s.classes[id].slCurr == 0 && newPage then NewSlab(g, s, id, grow, room, p).0 else s;
      if id < |t.classes| && t.classes[id].slCurr > 0 && t.classes[id].slots != []
      then (Pop(t, id), Some(t.classes[id].slots[0]))
      else (t, None)
  }

  /** The chunk was free or in a new page, belongs to the class, and is nobody else's. */
  lemma AllocMeaning(g: Config, s: State, id: nat, newPage: bool, grow: bool, room: bool, p: PageId)
    requires Valid(g, s) && Unlisted(s, p)
    ensures var (t, r) := Alloc(g, s, id, newPage, grow, room, p);
            && Valid(g, t) && t.cleared == s.cleared
            && (r.None? ==> t.used == s.used)
            && (r.Some? ==> 0 < id < |t.classes| && Owns(t.classes[id], r.value)
                            && r.value !in s.used && r.value !in s.cleared && t.used == s.used + {r.value})
            && (0 < id < |s.classes| && s.classes[id].slots != [] ==> r.Some?)
  {
    if 0 < id < |s.classes| {
      assert ClassOk(s, s.classes[id]);
      NewSlabValid(g, s, id, grow, room, p);
      var t := if s.classes[id].slCurr == 0 && newPage then NewSlab(g, s, id, grow, room, p).0 else s;
      assert |t.classes| == |s.classes|;
      assert ClassOk(t, t.classes[id]);
      if t.classes[id].slots != [] {
        PopValid(g, t, id);
      }
    }
  }

  /** slab_rebalance_alloc: free chunks of the page that is moved are cleared on the way. */
  function Skim(s: State, id: nat, page: PageId, n: nat): (State, Option<Chunk>)
    requires id < |s.classes|
    decreases n
  {
    if n == 0 || s.classes[id].slots == [] || s.classes[id].slCurr == 0 then (s, None)
    else
      var c, t := s.classes[id].slots[0], Pop(s, id);
      if c.page == page then Skim(Retire(t, c), id, page, n - 1) else (t, Some(c))
  }

  /** What is handed out is not of that page, and only chunks of that page have been cleared. */
  lemma {:induction false} SkimMeaning(g: Config, s: State, id: nat, page: PageId, n: nat)
    requires Valid(g, s) && 0 < id < |s.classes|
    ensures var (t, r) := Skim(s, id, page, n);
            && Valid(g, t) && SamePages(s, t)
            && (r.Some? ==> r.value.page != page && Owns(t.classes[id], r.value)
                            && r.value !in s.used && r.value !in s.cleared)
            && t.used == s.used + (if r.Some? then {r.value} else {})
            && s.cleared <= t.cleared && (forall c <- t.cleared :: c in s.cleared || c.page == page)
    decreases n
  {
    forall j | 0 <= j < |s.classes| ensures SameClass(s, s, j) {
    }
    if n > 0 && s.classes[id].slots != [] {
      PopValid(g, s, id);
      var c, t := s.classes[id].slots[0], Pop(s, id);
      forall j | 0 <= j < |s.classes| ensures SameClass(s, t, j) {
      }
      if c.page == page {
        RetireValid(g, t, id, c);
        var u := Retire(t, c);
        SkimMeaning(g, u, id, page, n - 1);
        var v := Skim(u, id, page, n - 1).0;
        forall j | 0 <= j < |s.classes| ensures SameClass(s, v, j) {
          assert SameClass(u, v, j);
        }
        assert u.used == s.used;
      }
    }
  }

  // ----- finishing a move

  /** memory_release: pool pages go back to the system while the limit is passed. */
  function Release(g: Config, s: State): (t: State)
    requires |s.classes| > 0
    ensures |t.classes| == |s.classes| && t.used == s.used && t.cleared == s.cleared
    ensures forall i :: 0 < i < |s.classes| ==> t.classes[i] == s.classes[i]
    decreases |s.classes[POOL].slabList|
  {
    if s.malloced > g.memLimit && s.classes[POOL].slabList != [] && s.malloced >= g.pageSize
    then Release(g, FreeOne(g, s))
    else s
  }

  lemma {:induction false} ReleaseValid(g: Config, s: State)
    requires Valid(g, s) && g.wholePages
    ensures Valid(g, Release(g, s))
    ensures Release(g, s).malloced <= g.memLimit || Release(g, s).classes[POOL].slabList == []
    decreases |s.classes[POOL].slabList|
  {
    if s.malloced > g.memLimit && s.classes[POOL].slabList != [] {
      FreeOneValid(g, s);
      ReleaseValid(g, FreeOne(g, s));
    }
  }

  /** slab_rebalance_finish. */
  function Finish(g: Config, s: State, src: nat, dst: nat): State
    requires src < |s.classes| && dst < |s.classes| && s.classes[src].slabList != []
  {
    var p := s.classes[src].slabList[0];
    if dst > POOL then Join(Leave(s, src), dst, p) else Release(g, AddPool(Leave(s, src), p))
  }

  /** The page changes its class or goes to the pool whole; the source class keeps a page. */
  lemma FinishValid(g: Config, s: State, src: nat, dst: nat)
    requires Valid(g, s) && g.wholePages && 0 < src < |s.classes| && dst < |s.classes| && src != dst
    requires |s.classes[src].slabList| > 1 && Empty(s, src, s.classes[src].slabList[0])
    ensures var t, p := Finish(g, s, src, dst), s.classes[src].slabList[0];
            && Valid(g, t) && t.used == s.used && (forall c <- t.cleared :: c.page != p)
            && |t.classes| == |s.classes| && t.classes[src].slabList == s.classes[src].slabList[1..] != []
            && (dst > 0 ==> p in t.classes[dst].slabList && t.malloced == s.malloced)
  {
    if dst > 0 {
      MoveValid(g, s, src, dst);
    } else {
      ToPoolValid(g, s, src);
      ReleaseValid(g, AddPool(Leave(s, src), s.classes[src].slabList[0]));
    }
  }
}
