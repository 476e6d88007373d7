/** The slab mover (slabs.c:675-957) against the workers: a page of a class is emptied chunk by chunk while
    other threads allocate, link, fetch, unlink and free items of the same class. Each step is what a thread
    does between two points where another can come in: under the slabs lock, under an item lock, or
    on memory that only it can reach. */
module SlabMover {
  import opened Common

  type Id = nat

  /** The header fields that decide the fate of a chunk. */
  datatype Head = Head(slabbed: bool, linked: bool, fetched: bool, refcount: nat)

  /** What the mover does once it holds the item lock of the chunk at `pos`, outside the slabs lock. */
  datatype Phase = Unlinking | Linking | Marking | Freeing | Leaving

  datatype Mover =
    | Idle
    | Scan(pos: nat, busy: nat)
    | Check(pos: nat, busy: nat)
    | Rescue(pos: nat, busy: nat, spare: Option<Id>, phase: Phase)
    | Done

  /** `held` counts the references of threads other than the mover, `dying` are the chunks whose last
      reference such a thread has given up and which it has not yet freed. */
  datatype Sys = Sys(chunks: map<Id, Head>, free: seq<Id>, pages: seq<seq<Id>>, table: set<Id>,
                     held: map<Id, nat>, dying: set<Id>, mover: Mover, page: seq<Id>)

  function Held(s: Sys, id: Id): nat {
    if id in s.held then s.held[id] else 0
  }

  /** ITEM_SLABBED and ITEM_FETCHED, and nothing else. */
  predicate Cleared(s: Sys, id: Id) {
    id in s.chunks && s.chunks[id] == Head(true, false, true, 0)
  }

  /** The mover holds the item lock of the chunk and a reference to it. */
  predicate Locked(s: Sys, id: Id) {
    s.mover.Rescue? && !s.mover.phase.Leaving? && s.mover.pos < |s.page| && s.page[s.mover.pos] == id
  }

  /** Other threads cannot come at the item: the lock of its key is held, also when the copy has been linked. */
  predicate Barred(s: Sys, id: Id) {
    Locked(s, id) || (s.mover.Rescue? && s.mover.phase.Marking? && s.mover.spare == Some(id))
  }

  /** The chunk the mover copies to, not yet known to anyone else. */
  predicate Spare(s: Sys, id: Id) {
    s.mover.Rescue? && (s.mover.phase.Unlinking? || s.mover.phase.Linking?) && s.mover.spare == Some(id)
  }

  // ----- steps

  datatype Step =
    | Alloc
    | Grow(spare: seq<Id>)
    | Link(id: Id)
    | Get(id: Id)
    | Hit(id: Id)
    | Unlink(id: Id)
    | Release(id: Id)
    | Free(id: Id)
    | StartMove
    | Look
    | TryFails
    | TryRescues(save: bool)
    | Rescuing
    | Wrap
    | Finish

  /** The mover keeps the slabs lock between reading the flags and trying the item lock. */
  predicate SlabsFree(s: Sys) {
    !s.mover.Check?
  }

  ghost predicate Enabled(s: Sys, step: Step) {
    match step
    case Alloc => SlabsFree(s) && s.free != [] && s.free[0] in s.chunks
    case Grow(spare) => SlabsFree(s) && Distinct(spare) && forall id <- spare :: id !in s.chunks
    case Link(id) => id in s.chunks && !s.chunks[id].slabbed && !s.chunks[id].linked && Held(s, id) > 0 &&
      !Barred(s, id)
    case Get(id) => id in s.table && id in s.chunks && !Barred(s, id)
    case Hit(id) => id in s.chunks && Held(s, id) > 0 && s.chunks[id].linked && !Barred(s, id)
    case Unlink(id) => id in s.table && id in s.chunks && s.chunks[id].refcount > 0 && !Barred(s, id)
    case Release(id) => id in s.chunks && Held(s, id) > 0 && s.chunks[id].refcount > 0 && !Barred(s, id)
    case Free(id) => SlabsFree(s) && id in s.dying && id in s.chunks
    case StartMove => s.mover.Idle? && |s.pages| >= 2
    case Look => s.mover.Scan? && s.mover.pos < |s.page| && s.page[s.mover.pos] in s.chunks
    case TryFails => s.mover.Check?
    case TryRescues(save) =>
      && s.mover.Check? && s.mover.pos < |s.page| && s.page[s.mover.pos] in s.chunks
      && s.chunks[s.page[s.mover.pos]].linked && s.chunks[s.page[s.mover.pos]].refcount == 1
    case Rescuing => s.mover.Rescue? && s.mover.pos < |s.page| && s.page[s.mover.pos] in s.chunks
    case Wrap => s.mover.Scan? && s.mover.pos >= |s.page|
    case Finish => s.mover.Done? && s.pages != []
  }

  ghost predicate Distinct(q: seq<Id>) {
    forall i, j :: 0 <= i < j < |q| ==> q[i] != q[j]
  }

  function SetHead(s: Sys, id: Id, h: Head): Sys {
    s.(chunks := s.chunks[id := h])
  }

  /** The last reference given up makes the chunk the thread's to free. */
  function Drop(s: Sys, id: Id, h: Head): Sys {
    SetHead(s, id, h).(dying := if h.refcount == 0 then s.dying + {id} else s.dying)
  }

  function FreeAll(chunks: map<Id, Head>, spare: seq<Id>): map<Id, Head> {
    map id <- chunks.Keys + (set i <- spare) :: if id in spare then Head(true, false, false, 0) else chunks[id]
  }

  /** slab_rebalance_alloc: free chunks of the page are cleared, the first other one is handed out. */
  function Skim(s: Sys, n: nat): (r: (Sys, Option<Id>))
    ensures r.0.mover == s.mover
    decreases n
  {
    if n == 0 || s.free == [] then (s, None)
    else
      var id, t := s.free[0], s.(free := s.free[1..]);
      if id in s.page then Skim(SetHead(t, id, Head(true, false, true, 0)), n - 1)
      else (SetHead(t, id, Head(false, false, false, 0)), Some(id))
  }

  function Without(q: seq<Id>, id: Id): seq<Id> {
    if q == [] then [] else if q[0] == id then q[1..] else [q[0]] + Without(q[1..], id)
  }

  /** One look at the chunk at `pos`: passed, cut off the freelist and cleared, busy, or linked. */
  function LookAt(s: Sys): Sys
    requires s.mover.Scan? && s.mover.pos < |s.page| && s.page[s.mover.pos] in s.chunks
  {
    var id, pos, busy := s.page[s.mover.pos], s.mover.pos, s.mover.busy;
    var h := s.chunks[id];
    if h.slabbed && h.fetched then s.(mover := Scan(pos + 1, busy))
    else if h.slabbed then
      SetHead(s, id, Head(true, false, true, 0)).(free := Without(s.free, id), mover := Scan(pos + 1, busy))
    else if h.linked then s.(mover := Check(pos, busy))
    else s.(mover := Scan(pos + 1, busy + 1))
  }

  /** The item lock is held, with the only reference besides the link. */
  function Seized(s: Sys): (t: Sys)
    requires s.mover.Check? && s.mover.pos < |s.page| && s.page[s.mover.pos] in s.chunks
    ensures t.mover.Rescue?
  {
    var id := s.page[s.mover.pos];
    SetHead(s, id, s.chunks[id].(refcount := s.chunks[id].refcount + 1)).(
      mover := Rescue(s.mover.pos, s.mover.busy, None, Unlinking))
  }

  /** With the item lock and an exclusive reference the mover looks for a free chunk outside the page, unless
      the item has expired, and drops the slabs lock. */
  function TakeOver(s: Sys, save: bool): Sys
    requires s.mover.Check? && s.mover.pos < |s.page| && s.page[s.mover.pos] in s.chunks
  {
    var t := Seized(s);
    if save then
      var (u, spare) := Skim(t, |s.page|);
      u.(mover := u.mover.(spare := spare))
    else t
  }

  /** The item moves to the spare chunk and the old one is cleared; or it is unlinked and its chunk freed,
      to be met again in the next round. */
  function Rescued(s: Sys): Sys
    requires s.mover.Rescue? && s.mover.pos < |s.page| && s.page[s.mover.pos] in s.chunks
  {
    var id, m := s.page[s.mover.pos], s.mover;
    var h := s.chunks[id];
    match m.phase
    case Unlinking =>
      SetHead(s, id, h.(linked := false, refcount := if h.refcount > 0 then h.refcount - 1 else 0)).(
        table := s.table - {id}, mover := m.(phase := if m.spare.Some? then Linking else Freeing))
    case Linking =>
      if m.spare.None? then s
      else SetHead(s, m.spare.value, Head(false, true, h.fetched, 1)).(
             table := s.table + {m.spare.value}, mover := m.(phase := Marking))
    case Marking => SetHead(s, id, Head(true, false, true, 0)).(mover := m.(phase := Leaving))
    case Freeing =>
      SetHead(s, id, Head(true, false, false, h.refcount)).(free := [id] + s.free, mover := m.(phase := Leaving))
    case Leaving => s.(mover := Scan(m.pos + 1, if m.spare.Some? then m.busy else m.busy + 1))
  }

  ghost function Next(s: Sys, step: Step): Sys
    requires Enabled(s, step)
  {
    match step
    case Alloc =>
      var id := s.free[0];
      SetHead(s, id, s.chunks[id].(slabbed := false, refcount := 1)).(free := s.free[1..], held := s.held[id := 1])
    case Grow(spare) =>
      s.(chunks := FreeAll(s.chunks, spare), free := spare + s.free, pages := s.pages + [spare])
    case Link(id) =>
      var h := s.chunks[id];
      SetHead(s, id, h.(linked := true, refcount := h.refcount + 1)).(table := s.table + {id})
    case Get(id) =>
      var h := s.chunks[id];
      SetHead(s, id, h.(refcount := h.refcount + 1)).(held := s.held[id := Held(s, id) + 1])
    case Hit(id) => SetHead(s, id, s.chunks[id].(fetched := true))
    case Unlink(id) =>
      var h := s.chunks[id];
      Drop(s, id, h.(linked := false, refcount := h.refcount - 1)).(table := s.table - {id})
    case Release(id) =>
      var h := s.chunks[id];
      Drop(s, id, h.(refcount := h.refcount - 1)).(held := s.held[id := Held(s, id) - 1])
    case Free(id) =>
      SetHead(s, id, Head(true, false, false, s.chunks[id].refcount)).(free := [id] + s.free, dying := s.dying - {id})
    case StartMove => s.(page := s.pages[0], mover := Scan(0, 0))
    case Look => LookAt(s)
    case TryFails => s.(mover := Scan(s.mover.pos + 1, s.mover.busy + 1))
    case TryRescues(save) => TakeOver(s, save)
    case Rescuing => Rescued(s)
    case Wrap => if s.mover.busy > 0 then s.(mover := Scan(0, 0)) else s.(mover := Done)
    case Finish => s.(chunks := s.chunks - (set id <- s.page), pages := s.pages[1..], mover := Idle)
  }

  // ----- the invariant

  ghost predicate ChunkOk(s: Sys, id: Id) {
    if id !in s.chunks then id !in s.free && id !in s.table && id !in s.dying && Held(s, id) == 0 && !Spare(s, id)
    else
      var h := s.chunks[id];
      && (id in s.free <==> h.slabbed && !h.fetched)
      && (h.slabbed ==> !h.linked && Held(s, id) == 0 && id !in s.dying && !Spare(s, id) && !Locked(s, id))
      && (h.slabbed && h.fetched ==> h.refcount == 0)
      && (id in s.table <==> h.linked)
      && (!h.slabbed ==> h.refcount == (if h.linked then 1 else 0) + Held(s, id) + (if Locked(s, id) then 1 else 0))
      && (id in s.dying ==> !h.linked && h.refcount == 0 && !Spare(s, id))
      && (Spare(s, id) ==> !h.linked && h.refcount == 0 && id !in s.page)
      && (Locked(s, id) ==> Held(s, id) == 0 && (h.linked <==> s.mover.phase.Unlinking?))
  }

  ghost predicate AllChunks(s: Sys) {
    forall id {:trigger ChunkOk(s, id)} :: ChunkOk(s, id)
  }

  ghost predicate PageOk(s: Sys, i: nat)
    requires i < |s.pages|
  {
    Distinct(s.pages[i]) && forall id <- s.pages[i] :: id in s.chunks
  }

  ghost predicate Apart(s: Sys, i: nat, j: nat)
    requires i < |s.pages| && j < |s.pages|
  {
    forall id <- s.pages[i] :: id !in s.pages[j]
  }

  ghost predicate AllPages(s: Sys) {
    && (forall i {:trigger PageOk(s, i)} :: 0 <= i < |s.pages| ==> PageOk(s, i))
    && (forall i, j {:trigger Apart(s, i, j)} :: 0 <= i < |s.pages| && 0 <= j < |s.pages| && i != j ==> Apart(s, i, j))
  }

  /** How many of the page's first `n` chunks have not been cleared. */
  ghost function Uncleared(s: Sys, n: nat): nat
    requires n <= |s.page|
  {
    if n == 0 then 0 else Uncleared(s, n - 1) + if Cleared(s, s.page[n - 1]) then 0 else 1
  }

  /** The page that is moved stays the first of its class, and what was passed uncleared has been counted. */
  ghost predicate MoverOk(s: Sys) {
    && (!s.mover.Idle? ==> |s.pages| >= 2 && s.page == s.pages[0])
    && match s.mover
       case Idle => true
       case Scan(pos, busy) => pos <= |s.page| && Uncleared(s, pos) <= busy
       case Check(pos, busy) => pos < |s.page| && Uncleared(s, pos) <= busy
       case Rescue(pos, busy, spare, phase) =>
         && pos < |s.page| && Uncleared(s, pos) <= busy
         && (phase.Freeing? ==> spare.None?) && (phase.Linking? || phase.Marking? ==> spare.Some?)
         && (phase.Leaving? && spare.Some? ==> Cleared(s, s.page[pos]))
         && (!phase.Leaving? ==> s.page[pos] in s.chunks && !s.chunks[s.page[pos]].slabbed)
         && (spare.Some? && (phase.Unlinking? || phase.Linking?) ==>
            spare.value in s.chunks && !s.chunks[spare.value].slabbed)
       case Done => Uncleared(s, |s.page|) == 0
  }

  ghost predicate Inv(s: Sys) {
    AllChunks(s) && AllPages(s) && Distinct(s.free) && MoverOk(s)
  }

  /** Nothing that concerns the chunk is different. */
  ghost predicate SameFor(s: Sys, t: Sys, i: Id) {
    && (i in s.chunks <==> i in t.chunks) && (i in s.chunks ==> s.chunks[i] == t.chunks[i])
    && (i in s.free <==> i in t.free) && (i in s.table <==> i in t.table) && (i in s.dying <==> i in t.dying)
    && Held(s, i) == Held(t, i) && (Locked(s, i) <==> Locked(t, i)) && (Spare(s, i) <==> Spare(t, i))
    && (Locked(s, i) ==> (s.mover.phase.Unlinking? <==> t.mover.phase.Unlinking?))
    && (Spare(t, i) ==> i in s.page || i !in t.page)
  }

  ghost predicate OthersSame(s: Sys, t: Sys, id: Id) {
    forall i {:trigger SameFor(s, t, i)} :: i != id ==> SameFor(s, t, i)
  }

  lemma OneChange(s: Sys, t: Sys, id: Id)
    requires AllChunks(s) && OthersSame(s, t, id) && ChunkOk(t, id)
    ensures AllChunks(t)
  {
    forall i ensures ChunkOk(t, i) {
      assert ChunkOk(s, i);
      assert i != id ==> SameFor(s, t, i);
    }
  }

  // ----- the steps of the workers

  /** Steps of workers on one chunk. */
  function Target(s: Sys, step: Step): Id {
    match step
    case Alloc => if s.free == [] then 0 else s.free[0]
    case Link(id) => id
    case Get(id) => id
    case Hit(id) => id
    case Unlink(id) => id
    case Release(id) => id
    case Free(id) => id
    case _ => 0
  }

  predicate WorkerStep(step: Step) {
    step.Alloc? || step.Link? || step.Get? || step.Hit? || step.Unlink? || step.Release? || step.Free?
  }

  lemma WorkerTarget(s: Sys, step: Step)
    requires Inv(s) && Enabled(s, step) && WorkerStep(step)
    ensures ChunkOk(Next(s, step), Target(s, step))
    ensures Distinct(Next(s, step).free)
  {
    var id := Target(s, step);
    assert ChunkOk(s, id);
    if step.Alloc? {
      assert s.free == [id] + s.free[1..];
      assert id !in s.free[1..];
    }
  }

  lemma WorkerOthers(s: Sys, step: Step)
    requires Enabled(s, step) && WorkerStep(step)
    ensures OthersSame(s, Next(s, step), Target(s, step))
    ensures var t := Next(s, step);
            t.pages == s.pages && t.page == s.page && t.mover == s.mover && t.chunks.Keys == s.chunks.Keys
  {
    if step.Alloc? {
      assert s.free == [s.free[0]] + s.free[1..];
    }
  }

  lemma WorkerKeepsChunks(s: Sys, step: Step)
    requires Inv(s) && Enabled(s, step) && WorkerStep(step)
    ensures AllChunks(Next(s, step))
  {
    WorkerTarget(s, step);
    WorkerOthers(s, step);
    OneChange(s, Next(s, step), Target(s, step));
  }

  /** A cleared chunk stays cleared. */
  ghost predicate KeepsCleared(s: Sys, t: Sys) {
    forall id {:trigger Cleared(t, id)} {:trigger Cleared(s, id)} :: Cleared(s, id) ==> Cleared(t, id)
  }

  lemma {:induction false} FewerUncleared(s: Sys, t: Sys, n: nat)
    requires s.page == t.page && n <= |s.page| && KeepsCleared(s, t)
    ensures Uncleared(t, n) <= Uncleared(s, n)
  {
    if n > 0 {
      FewerUncleared(s, t, n - 1);
    }
  }

  lemma WorkerKeepsCleared(s: Sys, step: Step)
    requires Inv(s) && Enabled(s, step) && WorkerStep(step)
    ensures KeepsCleared(s, Next(s, step)) && !Cleared(s, Target(s, step))
    ensures !Locked(s, Target(s, step)) && !Spare(s, Target(s, step))
  {
    var t, id := Next(s, step), Target(s, step);
    assert ChunkOk(s, id);
    WorkerOthers(s, step);
    forall i | Cleared(s, i) ensures Cleared(t, i) {
      assert i != id ==> SameFor(s, t, i);
    }
  }

  lemma SamePages(s: Sys, t: Sys)
    requires AllPages(s) && t.pages == s.pages && s.chunks.Keys <= t.chunks.Keys
    ensures AllPages(t)
  {
    forall i | 0 <= i < |t.pages| ensures PageOk(t, i) {
      assert PageOk(s, i);
    }
    forall i, j | 0 <= i < |t.pages| && 0 <= j < |t.pages| && i != j ensures Apart(t, i, j) {
      assert Apart(s, i, j);
    }
  }

  lemma WorkerKeepsMover(s: Sys, step: Step)
    requires Inv(s) && Enabled(s, step) && WorkerStep(step)
    ensures MoverOk(Next(s, step))
  {
    var t, id := Next(s, step), Target(s, step);
    WorkerKeepsCleared(s, step);
    WorkerOthers(s, step);
    match s.mover {
      case Scan(pos, _) => FewerUncleared(s, t, pos);
      case Check(pos, _) => FewerUncleared(s, t, pos);
      case Rescue(pos, _, spare, phase) =>
        FewerUncleared(s, t, pos);
        assert Locked(s, s.page[pos]) ==> SameFor(s, t, s.page[pos]);
        assert spare.Some? && Spare(s, spare.value) ==> SameFor(s, t, spare.value);
      case Done => FewerUncleared(s, t, |s.page|);
      case Idle =>
    }
  }

  lemma WorkerKeepsInv(s: Sys, step: Step)
    requires Inv(s) && Enabled(s, step) && WorkerStep(step)
    ensures Inv(Next(s, step))
  {
    WorkerKeepsChunks(s, step);
    WorkerTarget(s, step);
    WorkerOthers(s, step);
    WorkerKeepsMover(s, step);
    SamePages(s, Next(s, step));
  }

  // ----- a new page

  lemma GrowKeepsChunks(s: Sys, ids: seq<Id>)
    requires AllChunks(s) && Enabled(s, Grow(ids))
    requires s.mover.Rescue? && !s.mover.phase.Leaving? && s.mover.pos < |s.page| ==> s.page[s.mover.pos] in s.chunks
    ensures AllChunks(Next(s, Grow(ids)))
  {
    var t := Next(s, Grow(ids));
    forall id ensures ChunkOk(t, id) {
      assert ChunkOk(s, id);
    }
  }

  lemma GrowKeepsInv(s: Sys, ids: seq<Id>)
    requires Inv(s) && Enabled(s, Grow(ids))
    ensures Inv(Next(s, Grow(ids)))
  {
    var t := Next(s, Grow(ids));
    GrowKeepsChunks(s, ids);
    forall i | 0 <= i < |t.pages| ensures PageOk(t, i) {
      assert i < |s.pages| ==> PageOk(s, i);
    }
    forall i, j | 0 <= i < |t.pages| && 0 <= j < |t.pages| && i != j ensures Apart(t, i, j) {
      assert i < |s.pages| ==> PageOk(s, i);
      assert j < |s.pages| ==> PageOk(s, j);
      assert i < |s.pages| && j < |s.pages| ==> Apart(s, i, j);
    }
    forall id ensures id in s.free ==> id !in ids {
      assert ChunkOk(s, id);
    }
    DistinctConcat(ids, s.free);
    GrowKeepsMover(s, ids);
  }

  lemma DistinctConcat(a: seq<Id>, b: seq<Id>)
    requires Distinct(a) && Distinct(b) && forall x <- a :: x !in b
    ensures Distinct(a + b)
  {
    forall i, j | 0 <= i < j < |a + b| ensures (a + b)[i] != (a + b)[j] {
      if i < |a| <= j {
        assert (a + b)[i] in a && (a + b)[j] in b;
      }
    }
  }

  lemma GrowKeepsMover(s: Sys, ids: seq<Id>)
    requires Inv(s) && Enabled(s, Grow(ids))
    ensures MoverOk(Next(s, Grow(ids)))
  {
    var t := Next(s, Grow(ids));
    forall i | Cleared(s, i) ensures Cleared(t, i) {
    }
    match s.mover {
      case Scan(pos, _) => FewerUncleared(s, t, pos);
      case Check(pos, _) => FewerUncleared(s, t, pos);
      case Rescue(pos, _, _, _) => FewerUncleared(s, t, pos);
      case Done => FewerUncleared(s, t, |s.page|);
      case Idle =>
    }
  }

  // ----- the steps of the mover

  lemma {:induction false} WithoutFacts(q: seq<Id>, id: Id)
    requires Distinct(q)
    ensures Distinct(Without(q, id)) && forall x :: x in Without(q, id) <==> x in q && x != id
  {
    if q != [] {
      WithoutFacts(q[1..], id);
      assert q == [q[0]] + q[1..];
      assert q[0] !in q[1..];
    }
  }

  lemma LookKeepsInv(s: Sys)
    requires Inv(s) && Enabled(s, Look)
    ensures Inv(Next(s, Look)) && KeepsCleared(s, Next(s, Look))
  {
    var id, pos := s.page[s.mover.pos], s.mover.pos;
    var t := Next(s, Look);
    assert ChunkOk(s, id);
    WithoutFacts(s.free, id);
    forall i | Cleared(s, i) ensures Cleared(t, i) {
    }
    assert OthersSame(s, t, id);
    OneChange(s, t, id);
    SamePages(s, t);
    FewerUncleared(s, t, pos);
    if t.mover.Scan? {
      assert Uncleared(t, pos + 1) == Uncleared(t, pos) + if Cleared(t, id) then 0 else 1;
    }
  }

  lemma MoverOnly(s: Sys, t: Sys)
    requires AllChunks(s) && t == s.(mover := t.mover)
    requires forall i {:trigger Locked(s, i)} :: Locked(s, i) == Locked(t, i)
    requires forall i {:trigger Spare(s, i)} :: Spare(s, i) == Spare(t, i)
    requires s.mover.Rescue? && t.mover.Rescue? ==> s.mover.phase == t.mover.phase
    ensures AllChunks(t) && KeepsCleared(s, t)
  {
    forall i ensures ChunkOk(t, i) {
      assert ChunkOk(s, i);
      assert Locked(s, i) == Locked(t, i) && Spare(s, i) == Spare(t, i);
    }
  }

  lemma TryFailsKeepsInv(s: Sys)
    requires Inv(s) && Enabled(s, TryFails)
    ensures Inv(Next(s, TryFails)) && KeepsCleared(s, Next(s, TryFails))
  {
    var t := Next(s, TryFails);
    MoverOnly(s, t);
    SamePages(s, t);
    FewerUncleared(s, t, s.mover.pos);
    var m := s.mover.pos + 1;
    assert Uncleared(t, m) <= Uncleared(t, s.mover.pos) + 1;
  }

  lemma WrapKeepsInv(s: Sys)
    requires Inv(s) && Enabled(s, Wrap)
    ensures Inv(Next(s, Wrap)) && KeepsCleared(s, Next(s, Wrap))
  {
    var t := Next(s, Wrap);
    MoverOnly(s, t);
    SamePages(s, t);
    FewerUncleared(s, t, |s.page|);
  }

  lemma StartMoveKeepsInv(s: Sys)
    requires Inv(s) && Enabled(s, StartMove)
    ensures Inv(Next(s, StartMove)) && KeepsCleared(s, Next(s, StartMove))
  {
    var t := Next(s, StartMove);
    SamePages(s, t);
    forall i ensures ChunkOk(t, i) {
      assert ChunkOk(s, i);
    }
  }

  // ----- taking over an item

  lemma SeizedKeeps(s: Sys)
    requires Inv(s) && Enabled(s, TryRescues(true))
    ensures AllChunks(Seized(s)) && KeepsCleared(s, Seized(s))
  {
    var t, id := Seized(s), s.page[s.mover.pos];
    assert ChunkOk(s, id);
    OneChange(s, t, id);
  }

  /** A chunk popped off the freelist and cleared, or kept by the mover. */
  lemma PopKeeps(s: Sys, h: Head)
    requires AllChunks(s) && Distinct(s.free) && s.free != []
    requires h == Head(true, false, true, 0) || h == Head(false, false, false, 0)
    ensures var t := SetHead(s.(free := s.free[1..]), s.free[0], h);
            && AllChunks(t) && Distinct(t.free) && KeepsCleared(s, t) && OthersSame(s, t, s.free[0])
            && t.chunks.Keys == s.chunks.Keys && !Locked(s, s.free[0]) && !Spare(s, s.free[0])
  {
    var id := s.free[0];
    var t := SetHead(s.(free := s.free[1..]), id, h);
    assert s.free == [id] + s.free[1..];
    assert ChunkOk(s, id);
    assert id !in s.free[1..];
    assert OthersSame(s, t, id);
    OneChange(s, t, id);
  }

  ghost predicate SpareReady(s: Sys, id: Id) {
    && id in s.chunks && s.chunks[id] == Head(false, false, false, 0) && id !in s.page
    && Held(s, id) == 0 && id !in s.dying && id !in s.table && id !in s.free
  }

  lemma {:induction false} SkimKeeps(s: Sys, n: nat, locked: Id)
    requires AllChunks(s) && Distinct(s.free) && Locked(s, locked) && locked in s.chunks
    ensures var (t, r) := Skim(s, n);
            && AllChunks(t) && Distinct(t.free) && KeepsCleared(s, t) && t.chunks.Keys == s.chunks.Keys
            && t.pages == s.pages && t.page == s.page && t.chunks[locked] == s.chunks[locked]
            && (r.Some? ==> SpareReady(t, r.value) && r.value != locked)
    decreases n
  {
    if n > 0 && s.free != [] {
      var id := s.free[0];
      var t := s.(free := s.free[1..]);
      assert ChunkOk(s, id);
      PopKeeps(s, Head(true, false, true, 0));
      PopKeeps(s, Head(false, false, false, 0));
      var u := SetHead(t, id, Head(true, false, true, 0));
      if id in s.page {
        SkimKeeps(u, n - 1, locked);
        assert KeepsCleared(u, Skim(u, n - 1).0);
      } else {
        assert ChunkOk(SetHead(t, id, Head(false, false, false, 0)), id);
      }
    }
  }

  lemma TryRescuesKeepsInv(s: Sys, save: bool)
    requires Inv(s) && Enabled(s, TryRescues(save))
    ensures Inv(Next(s, TryRescues(save))) && KeepsCleared(s, Next(s, TryRescues(save)))
  {
    var id, pos := s.page[s.mover.pos], s.mover.pos;
    var t, v := Seized(s), Next(s, TryRescues(save));
    assert ChunkOk(s, id);
    SeizedKeeps(s);
    SkimKeeps(t, |s.page|, id);
    var u := if save then Skim(t, |s.page|).0 else t;
    if v.mover.spare.Some? {
      SpareKeeps(u, v, v.mover.spare.value);
    }
    SamePages(s, v);
    FewerUncleared(s, v, pos);
  }

  lemma SpareKeeps(s: Sys, t: Sys, id: Id)
    requires AllChunks(s) && s.mover.Rescue? && s.mover.phase.Unlinking? && s.mover.spare.None? && SpareReady(s, id)
    requires t == s.(mover := s.mover.(spare := Some(id)))
    ensures AllChunks(t)
  {
    assert ChunkOk(s, id);
    assert OthersSame(s, t, id);
    OneChange(s, t, id);
  }

  // ----- rescuing

  lemma RescuingKeepsChunks(s: Sys)
    requires Inv(s) && Enabled(s, Rescuing)
    ensures AllChunks(Next(s, Rescuing)) && Distinct(Next(s, Rescuing).free)
    ensures KeepsCleared(s, Next(s, Rescuing)) && Next(s, Rescuing).chunks.Keys == s.chunks.Keys
  {
    var t, id := Next(s, Rescuing), s.page[s.mover.pos];
    assert ChunkOk(s, id);
    if s.mover.phase.Leaving? {
      MoverOnly(s, t);
    } else if s.mover.phase.Linking? {
      var sp := s.mover.spare.value;
      assert ChunkOk(s, sp);
      assert OthersSame(s, t, sp);
      OneChange(s, t, sp);
    } else {
      assert OthersSame(s, t, id);
      OneChange(s, t, id);
    }
  }

  lemma RescuingKeepsInv(s: Sys)
    requires Inv(s) && Enabled(s, Rescuing)
    ensures Inv(Next(s, Rescuing)) && KeepsCleared(s, Next(s, Rescuing))
  {
    var t, pos := Next(s, Rescuing), s.mover.pos;
    RescuingKeepsChunks(s);
    SamePages(s, t);
    FewerUncleared(s, t, pos);
    if s.mover.phase.Leaving? {
      assert Uncleared(t, pos + 1) == Uncleared(t, pos) + if Cleared(t, s.page[pos]) then 0 else 1;
    }
  }

  // ----- the end of a move

  lemma {:induction false} NoneUncleared(s: Sys, n: nat)
    requires n <= |s.page| && Uncleared(s, n) == 0
    ensures forall i :: 0 <= i < n ==> Cleared(s, s.page[i])
  {
    if n > 0 {
      NoneUncleared(s, n - 1);
    }
  }

  /** When `done` is set every chunk of the page is cleared: on no freelist, not linked, and referenced by
      nobody. And the class keeps a page. */
  lemma DoneMeansEmpty(s: Sys)
    requires Inv(s) && s.mover.Done?
    ensures |s.pages| >= 2 && s.page == s.pages[0]
    ensures forall id <- s.page ::
              Cleared(s, id) && id !in s.free && id !in s.table && id !in s.dying && Held(s, id) == 0
  {
    NoneUncleared(s, |s.page|);
    forall id <- s.page ensures Cleared(s, id) && id !in s.free && id !in s.table && id !in s.dying &&
      Held(s, id) == 0 {
      assert ChunkOk(s, id);
    }
  }

  lemma FinishKeepsInv(s: Sys)
    requires Inv(s) && Enabled(s, Finish)
    ensures Inv(Next(s, Finish))
  {
    var t := Next(s, Finish);
    DoneMeansEmpty(s);
    forall id ensures ChunkOk(t, id) {
      assert ChunkOk(s, id);
    }
    forall i | 0 <= i < |t.pages| ensures PageOk(t, i) {
      var j := i + 1;
      assert PageOk(s, j) && Apart(s, j, 0);
    }
    forall i, j | 0 <= i < |t.pages| && 0 <= j < |t.pages| && i != j ensures Apart(t, i, j) {
      var i', j' := i + 1, j + 1;
      assert Apart(s, i', j');
    }
  }

  // ----- runs

  lemma StepKeepsInv(s: Sys, step: Step)
    requires Inv(s) && Enabled(s, step)
    ensures Inv(Next(s, step))
  {
    match step
    case Grow(ids) => GrowKeepsInv(s, ids);
    case StartMove => StartMoveKeepsInv(s);
    case Look => LookKeepsInv(s);
    case TryFails => TryFailsKeepsInv(s);
    case TryRescues(save) => TryRescuesKeepsInv(s, save);
    case Rescuing => RescuingKeepsInv(s);
    case Wrap => WrapKeepsInv(s);
    case Finish => FinishKeepsInv(s);
    case _ => WorkerKeepsInv(s, step);
  }

  /** Until its page has left, a cleared chunk of the page that is moved stays cleared, and the page
      stays the first of its class. */
  lemma StepKeepsCleared(s: Sys, step: Step)
    requires Inv(s) && Enabled(s, step) && !step.Finish?
    ensures KeepsCleared(s, Next(s, step))
    ensures s.pages != [] ==> Next(s, step).pages != [] && Next(s, step).pages[0] == s.pages[0]
  {
    match step
    case Grow(ids) =>
    case StartMove => StartMoveKeepsInv(s);
    case Look => LookKeepsInv(s);
    case TryFails => TryFailsKeepsInv(s);
    case TryRescues(save) =>
      TryRescuesKeepsInv(s, save);
      TryRescuesPages(s, save);
    case Rescuing => RescuingKeepsInv(s);
    case Wrap => WrapKeepsInv(s);
    case _ => WorkerKeepsCleared(s, step);
  }

  lemma TryRescuesPages(s: Sys, save: bool)
    requires Inv(s) && Enabled(s, TryRescues(save))
    ensures Next(s, TryRescues(save)).pages == s.pages
  {
    SeizedKeeps(s);
    SkimKeeps(Seized(s), |s.page|, s.page[s.mover.pos]);
  }

  function Start(): Sys {
    Sys(map[], [], [], {}, map[], {}, Idle, [])
  }

  ghost predicate StepAt(states: seq<Sys>, steps: seq<Step>, i: nat)
    requires i < |steps| && |states| == |steps| + 1
  {
    Enabled(states[i], steps[i]) && states[i + 1] == Next(states[i], steps[i])
  }

  ghost predicate IsRun(states: seq<Sys>, steps: seq<Step>) {
    && |states| == |steps| + 1 && states[0] == Start()
    && forall i {:trigger StepAt(states, steps, i)} :: 0 <= i < |steps| ==> StepAt(states, steps, i)
  }

  lemma {:induction false} RunKeepsInv(states: seq<Sys>, steps: seq<Step>, i: nat)
    requires IsRun(states, steps) && i <= |steps|
    ensures Inv(states[i])
  {
    if i == 0 {
      forall id ensures ChunkOk(states[0], id) {
      }
    } else {
      var p := i - 1;
      RunKeepsInv(states, steps, p);
      assert StepAt(states, steps, p);
      StepKeepsInv(states[p], steps[p]);
    }
  }

  /** In every run, whatever the workers do: at `done` the page is empty. */
  lemma EveryMoveEmptiesThePage(states: seq<Sys>, steps: seq<Step>, i: nat, id: Id)
    requires IsRun(states, steps) && i <= |steps| && states[i].mover.Done? && id in states[i].page
    ensures Cleared(states[i], id) && id !in states[i].free && id !in states[i].table
    ensures id !in states[i].dying && Held(states[i], id) == 0
    ensures |states[i].pages| >= 2 && states[i].page == states[i].pages[0]
  {
    RunKeepsInv(states, steps, i);
    DoneMeansEmpty(states[i]);
  }
}
