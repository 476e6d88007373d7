/** The slab mover's view of its class is a state of the allocator (slabs.c:675-957, 991-1005): whatever the workers
    do, chunks and pages are in order, and when a move is done the allocator may give the page away. */
module SlabPages {
  import opened Slabs
  import SlabRuns
  import SlabMover

  type Sys = SlabMover.Sys
  type Id = SlabMover.Id

  // ----- chunks by page and position

  ghost predicate At(m: Sys, id: Id, i: nat, ix: nat) {
    i < |m.pages| && ix < |m.pages[i]| && m.pages[i][ix] == id
  }

  ghost predicate OnPage(m: Sys, id: Id) {
    exists i: nat, ix: nat {:trigger At(m, id, i, ix)} :: At(m, id, i, ix)
  }

  /** All pages have `n` chunks, and they are the chunks there are. */
  ghost predicate Paged(m: Sys, n: nat) {
    && (forall i {:trigger m.pages[i]} :: 0 <= i < |m.pages| ==> |m.pages[i]| == n)
    && (forall id <- m.chunks {:trigger OnPage(m, id)} :: OnPage(m, id))
  }

  ghost predicate Grows(step: SlabMover.Step, n: nat) {
    step.Grow? ==> |step.spare| == n
  }

  lemma SameChunks(m: Sys, step: SlabMover.Step)
    requires SlabMover.Inv(m) && SlabMover.Enabled(m, step) && !step.Grow? && !step.Finish?
    ensures var t := SlabMover.Next(m, step); t.chunks.Keys == m.chunks.Keys && t.pages == m.pages
  {
    match step
    case Rescuing => SlabMover.RescuingKeepsChunks(m);
    case TryRescues(_) =>
      SlabMover.SeizedKeeps(m);
      SlabMover.SkimKeeps(SlabMover.Seized(m), |m.page|, m.page[m.mover.pos]);
    case _ =>
  }

  lemma StepKeepsPaged(m: Sys, step: SlabMover.Step, n: nat)
    requires SlabMover.Inv(m) && SlabMover.Enabled(m, step) && Paged(m, n) && Grows(step, n)
    ensures Paged(SlabMover.Next(m, step), n)
  {
    var t := SlabMover.Next(m, step);
    if step.Grow? {
      GrowKeepsPaged(m, step.spare, n);
    } else if step.Finish? {
      FinishKeepsPaged(m, n);
    } else {
      SameChunks(m, step);
      forall id <- t.chunks ensures OnPage(t, id) {
        assert OnPage(m, id);
        var i: nat, ix: nat :| At(m, id, i, ix);
        assert At(t, id, i, ix);
      }
    }
  }

  lemma GrowKeepsPaged(m: Sys, ids: seq<Id>, n: nat)
    requires SlabMover.Enabled(m, SlabMover.Grow(ids)) && Paged(m, n) && |ids| == n
    ensures Paged(SlabMover.Next(m, SlabMover.Grow(ids)), n)
  {
    var t := SlabMover.Next(m, SlabMover.Grow(ids));
    forall id <- t.chunks ensures OnPage(t, id) {
      if id in ids {
        var ix :| 0 <= ix < n && ids[ix] == id;
        assert At(t, id, |m.pages|, ix);
      } else {
        assert OnPage(m, id);
        var i: nat, ix: nat :| At(m, id, i, ix);
        assert At(t, id, i, ix);
      }
    }
  }

  lemma FinishKeepsPaged(m: Sys, n: nat)
    requires SlabMover.Inv(m) && SlabMover.Enabled(m, SlabMover.Finish) && Paged(m, n)
    ensures Paged(SlabMover.Next(m, SlabMover.Finish), n)
  {
    var t := SlabMover.Next(m, SlabMover.Finish);
    forall id <- t.chunks ensures OnPage(t, id) {
      assert OnPage(m, id);
      var i: nat, ix: nat :| At(m, id, i, ix);
      assert i > 0;
      var j := i - 1;
      assert At(t, id, j, ix);
    }
  }

  lemma {:induction false} RunKeepsPaged(states: seq<Sys>, steps: seq<SlabMover.Step>, n: nat, i: nat)
    requires SlabMover.IsRun(states, steps) && i <= |steps| && forall step <- steps :: Grows(step, n)
    ensures SlabMover.Inv(states[i]) && Paged(states[i], n)
  {
    SlabMover.RunKeepsInv(states, steps, i);
    if i > 0 {
      var p := i - 1;
      RunKeepsPaged(states, steps, n, p);
      assert SlabMover.StepAt(states, steps, p);
      assert steps[p] in steps;
      StepKeepsPaged(states[p], steps[p], n);
    }
  }

  // ----- the allocator's state

  /** A page is named by its first chunk. */
  ghost function NameOf(m: Sys, id: Id): Chunk {
    if OnPage(m, id) then
      var i: nat, ix: nat :| At(m, id, i, ix);
      Chunk(m.pages[i][0], ix)
    else Chunk(id, 0)
  }

  lemma OnePlace(m: Sys, id: Id, i: nat, ix: nat, j: nat, jx: nat)
    requires SlabMover.Inv(m) && At(m, id, i, ix) && At(m, id, j, jx)
    ensures i == j && ix == jx
  {
    assert id in m.pages[i] && id in m.pages[j];
    assert i != j ==> SlabMover.Apart(m, i, j);
    assert SlabMover.PageOk(m, i);
  }

  lemma NameAt(m: Sys, id: Id, i: nat, ix: nat)
    requires SlabMover.Inv(m) && At(m, id, i, ix)
    ensures NameOf(m, id) == Chunk(m.pages[i][0], ix)
  {
    assert OnPage(m, id);
    var j: nat, jx: nat :| At(m, id, j, jx) && NameOf(m, id) == Chunk(m.pages[j][0], jx);
    OnePlace(m, id, i, ix, j, jx);
  }

  lemma SameName(m: Sys, a: Id, b: Id)
    requires SlabMover.Inv(m) && OnPage(m, a) && OnPage(m, b) && NameOf(m, a) == NameOf(m, b)
    ensures a == b
  {
    var i: nat, ix: nat :| At(m, a, i, ix);
    var j: nat, jx: nat :| At(m, b, j, jx);
    NameAt(m, a, i, ix);
    NameAt(m, b, j, jx);
    assert m.pages[i][0] in m.pages[i] && m.pages[j][0] in m.pages[j];
    assert i != j ==> SlabMover.Apart(m, i, j);
  }

  ghost function Names(m: Sys, q: seq<Id>): seq<Chunk> {
    seq(|q|, k requires 0 <= k < |q| => NameOf(m, q[k]))
  }

  ghost function Firsts(m: Sys, n: nat): (r: seq<PageId>)
    requires Paged(m, n) && n > 0
    ensures |r| == |m.pages| && forall i :: 0 <= i < |r| ==> r[i] == m.pages[i][0]
  {
    seq(|m.pages|, i requires 0 <= i < |m.pages| => m.pages[i][0])
  }

  ghost function Used(m: Sys): set<Chunk> {
    set id <- m.chunks | !m.chunks[id].slabbed :: NameOf(m, id)
  }

  ghost function ClearedChunks(m: Sys): set<Chunk> {
    set id <- m.chunks | SlabMover.Cleared(m, id) :: NameOf(m, id)
  }

  ghost function ClassOf(m: Sys, size: nat, n: nat): SlabClass
    requires Paged(m, n) && n > 0
  {
    SlabClass(size, n, Names(m, m.free), |m.free|, Firsts(m, n))
  }

  /** The class of the mover beside an empty pool, with whole pages and no limit. */
  ghost function View(g: Config, m: Sys, size: nat, n: nat): State
    requires Paged(m, n) && n > 0
  {
    State([SlabClass(0, 0, [], 0, []), ClassOf(m, size, n)], g.pageSize * |m.pages|, Used(m), ClearedChunks(m), 0)
  }

  ghost predicate Named(m: Sys, c: Chunk, id: Id) {
    id in m.chunks && NameOf(m, id) == c
  }

  lemma OwnedIsNamed(m: Sys, size: nat, n: nat, c: Chunk) returns (id: Id)
    requires SlabMover.Inv(m) && Paged(m, n) && n > 0 && Owns(ClassOf(m, size, n), c)
    ensures Named(m, c, id)
  {
    var i :| 0 <= i < |m.pages| && Firsts(m, n)[i] == c.page;
    id := m.pages[i][c.ix];
    assert SlabMover.PageOk(m, i);
    assert At(m, id, i, c.ix);
    NameAt(m, id, i, c.ix);
  }

  lemma NamedIsOwned(m: Sys, size: nat, n: nat, c: Chunk, id: Id)
    requires SlabMover.Inv(m) && Paged(m, n) && n > 0 && Named(m, c, id)
    ensures Owns(ClassOf(m, size, n), c)
  {
    assert OnPage(m, id);
    var i: nat, ix: nat :| At(m, id, i, ix);
    NameAt(m, id, i, ix);
    assert Firsts(m, n)[i] == c.page;
  }

  /** Where a chunk of the class is: free, handed out or cleared, as its header says. */
  lemma WhereNamed(m: Sys, n: nat, c: Chunk, id: Id)
    requires SlabMover.Inv(m) && Paged(m, n) && Named(m, c, id)
    ensures var h := m.chunks[id];
            && (c in Names(m, m.free) <==> h.slabbed && !h.fetched)
            && (c in Used(m) <==> !h.slabbed) && (c in ClearedChunks(m) <==> h.slabbed && h.fetched)
  {
    assert OnPage(m, id) && SlabMover.ChunkOk(m, id);
    if c in Names(m, m.free) {
      var k :| 0 <= k < |m.free| && NameOf(m, m.free[k]) == c;
      FreeOnPage(m, n, k);
      SameName(m, id, m.free[k]);
    }
    if id in m.free {
      var k :| 0 <= k < |m.free| && m.free[k] == id;
      assert Names(m, m.free)[k] == c;
    }
    forall j <- m.chunks | NameOf(m, j) == c ensures j == id {
      assert OnPage(m, j);
      SameName(m, j, id);
    }
  }

  lemma FreeOnPage(m: Sys, n: nat, k: nat)
    requires SlabMover.Inv(m) && Paged(m, n) && k < |m.free|
    ensures m.free[k] in m.chunks && OnPage(m, m.free[k])
  {
    assert SlabMover.ChunkOk(m, m.free[k]);
    assert m.free[k] in m.free;
  }

  lemma FirstsDistinct(m: Sys, n: nat)
    requires SlabMover.Inv(m) && Paged(m, n) && n > 0
    ensures Distinct(Firsts(m, n))
  {
    forall i, j | 0 <= i < j < |m.pages| ensures Firsts(m, n)[i] != Firsts(m, n)[j] {
      assert SlabMover.Apart(m, i, j);
      assert m.pages[i][0] in m.pages[i];
    }
  }

  lemma NamesDistinct(m: Sys, n: nat)
    requires SlabMover.Inv(m) && Paged(m, n)
    ensures Distinct(Names(m, m.free))
  {
    forall i, j | 0 <= i < j < |m.free| ensures NameOf(m, m.free[i]) != NameOf(m, m.free[j]) {
      FreeOnPage(m, n, i);
      FreeOnPage(m, n, j);
      if NameOf(m, m.free[i]) == NameOf(m, m.free[j]) {
        SameName(m, m.free[i], m.free[j]);
      }
    }
  }

  lemma ChunkInOrder(g: Config, m: Sys, size: nat, n: nat, c: Chunk)
    requires SlabMover.Inv(m) && Paged(m, n) && n > 0
    ensures ChunkOk(View(g, m, size, n), ClassOf(m, size, n), c)
  {
    var k := ClassOf(m, size, n);
    if Owns(k, c) {
      var id := OwnedIsNamed(m, size, n, c);
      WhereNamed(m, n, c, id);
      assert SlabMover.ChunkOk(m, id);
    }
    if c in k.slots {
      var i :| 0 <= i < |m.free| && NameOf(m, m.free[i]) == c;
      FreeOnPage(m, n, i);
      NamedIsOwned(m, size, n, c, m.free[i]);
    }
  }

  lemma ChunkPlaced(g: Config, m: Sys, size: nat, n: nat, c: Chunk)
    requires SlabMover.Inv(m) && Paged(m, n) && n > 0
    ensures Placed(View(g, m, size, n), c)
  {
    var s := View(g, m, size, n);
    if c in s.used || c in s.cleared {
      var id :| id in m.chunks && NameOf(m, id) == c;
      NamedIsOwned(m, size, n, c, id);
      assert Owns(s.classes[1], c);
    }
  }

  /** In every state of the mover the class is in order for the allocator. */
  lemma ViewValid(g: Config, m: Sys, size: nat, n: nat)
    requires SlabMover.Inv(m) && Paged(m, n) && n > 0 && g.wholePages && g.memLimit == 0
    ensures Valid(g, View(g, m, size, n))
  {
    var s := View(g, m, size, n);
    FirstsDistinct(m, n);
    NamesDistinct(m, n);
    forall c ensures ChunkOk(s, s.classes[1], c) && ChunkOk(s, s.classes[0], c) && Placed(s, c) {
      ChunkInOrder(g, m, size, n, c);
      ChunkPlaced(g, m, size, n, c);
    }
    forall i | 0 <= i < 2 ensures ClassOk(s, s.classes[i]) {
    }
    assert Pages(s.classes, 2) == Pages(s.classes, 1) + |m.pages| && Pages(s.classes, 1) == Pages(s.classes, 0) == 0;
  }

  /** In every run, when a move is done, the first page of the class is empty for the allocator, which may give it to
      the pool; and then everything is in order there. */
  lemma DonePageMayMove(g: Config, states: seq<Sys>, steps: seq<SlabMover.Step>, size: nat, n: nat, i: nat)
    requires SlabMover.IsRun(states, steps) && i <= |steps| && states[i].mover.Done?
    requires n > 0 && g.wholePages && g.memLimit == 0 && forall step <- steps :: Grows(step, n)
    ensures Paged(states[i], n) && |states[i].page| == n
    ensures var s, op := View(g, states[i], size, n), SlabRuns.MoveEnds(1, POOL);
            && Valid(g, s) && Empty(s, 1, states[i].page[0])
            && SlabRuns.Enabled(g, s, op) && Valid(g, SlabRuns.Next(g, s, op))
  {
    var m := states[i];
    RunKeepsPaged(states, steps, n, i);
    ViewValid(g, m, size, n);
    SlabMover.DoneMeansEmpty(m);
    assert |m.pages[0]| == n;
    forall ix | 0 <= ix < n ensures Chunk(m.page[0], ix) in ClearedChunks(m) {
      assert m.page[ix] in m.page && At(m, m.page[ix], 0, ix);
      NameAt(m, m.page[ix], 0, ix);
    }
    SlabRuns.StepKeepsValid(g, View(g, m, size, n), SlabRuns.MoveEnds(1, POOL));
  }
}
