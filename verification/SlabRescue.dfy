/** What becomes of the items on a page that is moved (slabs.c:741-957): no chunk is ever lost, and an item that is
    rescued has exactly one entry, the copy, when the lock of its key is given back. */
module SlabRescue {
  import opened Common
  import opened SlabMover

  // ----- no chunk is lost

  /** A chunk in use is linked, held by a thread, about to be freed by one, or the mover's. */
  ghost predicate Accounted(s: Sys, id: Id) {
    id in s.chunks && !s.chunks[id].slabbed ==>
      s.chunks[id].linked || Held(s, id) > 0 || id in s.dying || Locked(s, id) || Spare(s, id)
  }

  lemma WorkerAccounts(s: Sys, step: Step, id: Id)
    requires Inv(s) && Enabled(s, step) && WorkerStep(step) && Accounted(s, id)
    ensures Accounted(Next(s, step), id)
  {
    var t := Next(s, step);
    WorkerKeepsInv(s, step);
    assert ChunkOk(s, id) && ChunkOk(t, id);
    if id != Target(s, step) {
      WorkerOthers(s, step);
      assert SameFor(s, t, id);
    }
  }

  lemma {:induction false} SkimAccounts(s: Sys, n: nat, id: Id)
    requires AllChunks(s) && Distinct(s.free) && s.mover.Rescue? && s.mover.phase.Unlinking? && Accounted(s, id)
    requires s.mover.spare.None?
    ensures var (t, r) := Skim(s, n); Accounted(t, id) || r == Some(id)
    decreases n
  {
    if n > 0 && s.free != [] {
      var head, t := s.free[0], s.(free := s.free[1..]);
      PopKeeps(s, Head(true, false, true, 0));
      if head in s.page {
        SkimAccounts(SetHead(t, head, Head(true, false, true, 0)), n - 1, id);
      }
    }
  }

  lemma StepAccounts(s: Sys, step: Step, id: Id)
    requires Inv(s) && Enabled(s, step) && Accounted(s, id)
    ensures Accounted(Next(s, step), id)
  {
    assert ChunkOk(s, id);
    if WorkerStep(step) {
      WorkerAccounts(s, step, id);
    } else if step.TryRescues? {
      SeizedKeeps(s);
      SkimAccounts(Seized(s), |s.page|, id);
    }
  }

  /** In every reachable state. */
  lemma {:induction false} NoChunkIsLost(states: seq<Sys>, steps: seq<Step>, i: nat, id: Id)
    requires IsRun(states, steps) && i <= |steps|
    ensures Accounted(states[i], id)
  {
    if i > 0 {
      var p := i - 1;
      NoChunkIsLost(states, steps, p, id);
      RunKeepsInv(states, steps, p);
      assert StepAt(states, steps, p);
      StepAccounts(states[p], steps[p], id);
    }
  }

  // ----- an item that is rescued

  /** The entries after what the workers have linked and unlinked. */
  ghost function Worked(entries: set<Id>, steps: seq<Step>): set<Id> {
    if steps == [] then entries
    else WorkedOnce(Worked(entries, steps[..|steps| - 1]), steps[|steps| - 1])
  }

  ghost function WorkedOnce(entries: set<Id>, step: Step): set<Id> {
    match step
    case Link(id) => entries + {id}
    case Unlink(id) => entries - {id}
    case _ => entries
  }

  /** The mover holds the lock of the item in chunk `id`, which had the hit mark `fetched`, and `entries` are the
      entries but for its own steps: the item has its old entry until it is unlinked, and the new one once it is
      linked. */
  ghost predicate Carried(s: Sys, page: seq<Id>, pos: nat, id: Id, spare: Option<Id>, fetched: bool, entries: set<Id>) {
    && s.page == page
    && s.mover.Rescue? && !s.mover.phase.Leaving? && s.mover.pos == pos && s.mover.spare == spare
    && pos < |s.page| && s.page[pos] == id && id in s.chunks && s.chunks[id].fetched == fetched
    && id in entries
    && (spare.Some? ==> spare.value != id && spare.value !in entries && spare.value !in s.page)
    && (forall x {:trigger x in s.table} :: x != id && spare != Some(x) ==> (x in s.table <==> x in entries))
    && (s.mover.phase.Marking? && spare.Some? ==>
          var x := spare.value;
          x in s.chunks && s.chunks[x] == Head(false, true, fetched, 1) && Held(s, x) == 0)
  }

  lemma {:induction false} SkimTable(s: Sys, n: nat)
    ensures Skim(s, n).0.table == s.table
    decreases n
  {
    if n > 0 && s.free != [] && s.free[0] in s.page {
      SkimTable(SetHead(s.(free := s.free[1..]), s.free[0], Head(true, false, true, 0)), n - 1);
    }
  }

  /** The lock is got: the item still has its entry, and the spare chunk has none. */
  lemma CarryStarts(s: Sys, save: bool)
    requires Inv(s) && Enabled(s, TryRescues(save))
    ensures var t, id := Next(s, TryRescues(save)), s.page[s.mover.pos];
            Carried(t, s.page, s.mover.pos, id, t.mover.spare, s.chunks[id].fetched, s.table)
  {
    var id, u := s.page[s.mover.pos], Seized(s);
    assert ChunkOk(s, id);
    SeizedKeeps(s);
    SkimKeeps(u, |s.page|, id);
    SkimTable(u, |s.page|);
  }

  lemma WorkerCarries(s: Sys, step: Step, pos: nat, id: Id, spare: Option<Id>, fetched: bool, entries: set<Id>)
    requires Inv(s) && Enabled(s, step) && (WorkerStep(step) || step.Grow?)
    requires Carried(s, s.page, pos, id, spare, fetched, entries)
    ensures Carried(Next(s, step), s.page, pos, id, spare, fetched, WorkedOnce(entries, step))
  {
    var t := Next(s, step);
    assert ChunkOk(s, id);
    if spare.Some? {
      assert ChunkOk(s, spare.value);
    }
    if WorkerStep(step) {
      assert ChunkOk(s, Target(s, step));
    }
  }

  lemma MoverCarries(s: Sys, pos: nat, id: Id, spare: Option<Id>, fetched: bool, entries: set<Id>)
    requires Inv(s) && Enabled(s, Rescuing) && Carried(s, s.page, pos, id, spare, fetched, entries)
    requires s.mover.phase.Unlinking? || s.mover.phase.Linking?
    ensures Carried(Next(s, Rescuing), s.page, pos, id, spare, fetched, entries)
  {
    assert ChunkOk(s, id);
    if spare.Some? {
      assert ChunkOk(s, spare.value);
    }
  }

  /** Between the try for the lock in step `i` and state `j` the mover has held it. */
  ghost predicate Rescues(states: seq<Sys>, steps: seq<Step>, i: nat, j: nat) {
    && IsRun(states, steps) && i < j <= |steps| && steps[i].TryRescues?
    && forall m {:trigger states[m]} :: i < m <= j ==> states[m].mover.Rescue? && !states[m].mover.phase.Leaving?
  }

  lemma {:induction false} RunCarries(states: seq<Sys>, steps: seq<Step>, i: nat, j: nat)
    requires Rescues(states, steps, i, j)
    ensures Inv(states[i]) && Enabled(states[i], steps[i])
    ensures var s := states[i];
            Carried(states[j], s.page, s.mover.pos, s.page[s.mover.pos], states[j].mover.spare,
                    s.chunks[s.page[s.mover.pos]].fetched, Worked(s.table, steps[i + 1..j]))
    decreases j
  {
    RunKeepsInv(states, steps, i);
    assert StepAt(states, steps, i);
    if j == i + 1 {
      CarryStarts(states[i], steps[i].save);
      assert steps[i + 1..j] == [];
    } else {
      var p, k := j - 1, i + 1;
      RunCarries(states, steps, i, p);
      RunKeepsInv(states, steps, p);
      assert StepAt(states, steps, p);
      assert steps[k..j] == steps[k..p] + [steps[p]];
      var s, u, id := states[i], states[p], states[i].page[states[i].mover.pos];
      var entries := Worked(s.table, steps[k..p]);
      assert Worked(s.table, steps[k..j]) == WorkedOnce(entries, steps[p]);
      if steps[p].Rescuing? {
        MoverCarries(u, s.mover.pos, id, u.mover.spare, s.chunks[id].fetched, entries);
      } else {
        WorkerCarries(u, steps[p], s.mover.pos, id, u.mover.spare, s.chunks[id].fetched, entries);
      }
    }
  }

  /** Whatever the workers do meanwhile: when the lock of an item's key is given back, its old entry is gone. If the
      mover had a spare chunk, that is linked in its place, with the hit mark and one reference, and the old chunk is
      cleared; if not, the old chunk is at the head of the freelist. All other entries are those that the workers
      left. */
  lemma RescueKeepsEntry(states: seq<Sys>, steps: seq<Step>, i: nat, j: nat)
    requires Rescues(states, steps, i, j) && j < |steps| && steps[j].Rescuing? && states[j + 1].mover.Rescue?
    requires states[j + 1].mover.phase.Leaving?
    ensures Enabled(states[i], steps[i])
    ensures var s, t := states[i], states[j + 1];
            var id, spare, entries := s.page[s.mover.pos], t.mover.spare, Worked(s.table, steps[i + 1..j]);
            && id in s.chunks && id in t.chunks && id in s.table && id in entries
            && (spare.Some? ==> spare.value !in s.page && spare.value !in entries)
            && t.table == entries - {id} + (if spare.Some? then {spare.value} else {})
            && (spare.Some? ==>
                  && spare.value in t.chunks && t.chunks[spare.value] == Head(false, true, s.chunks[id].fetched, 1)
                  && Held(t, spare.value) == 0 && Cleared(t, id))
            && (spare.None? ==> t.free != [] && t.free[0] == id && t.chunks[id].slabbed && !t.chunks[id].fetched)
  {
    RunCarries(states, steps, i, j);
    RunKeepsInv(states, steps, j);
    assert StepAt(states, steps, j);
    var s, id := states[i], states[i].page[states[i].mover.pos];
    assert ChunkOk(s, id);
    var entries := Worked(s.table, steps[i + 1..j]);
    LockGivenBack(states[j], s.mover.pos, id, states[j].mover.spare, s.chunks[id].fetched, entries);
  }

  lemma LockGivenBack(s: Sys, pos: nat, id: Id, spare: Option<Id>, fetched: bool, entries: set<Id>)
    requires Inv(s) && Enabled(s, Rescuing) && Carried(s, s.page, pos, id, spare, fetched, entries)
    requires s.mover.phase.Marking? || s.mover.phase.Freeing?
    ensures var t := Next(s, Rescuing);
            && t.table == entries - {id} + (if spare.Some? then {spare.value} else {})
            && (spare.Some? ==>
                  && spare.value in t.chunks && t.chunks[spare.value] == Head(false, true, fetched, 1)
                  && Held(t, spare.value) == 0 && Cleared(t, id))
            && (spare.None? ==>
                  t.free != [] && t.free[0] == id && id in t.chunks && t.chunks[id].slabbed && !t.chunks[id].fetched)
  {
    var t := Next(s, Rescuing);
    assert ChunkOk(s, id);
    if spare.Some? {
      assert ChunkOk(s, spare.value);
    }
    forall x ensures x in t.table <==> x in entries - {id} + (if spare.Some? then {spare.value} else {}) {
      if x != id && spare != Some(x) {
        assert x in s.table <==> x in entries;
      }
    }
  }

  // ----- when there is a spare chunk

  /** How many chunks of the page the freelist starts with. */
  function Leading(q: seq<Id>, page: seq<Id>): (n: nat)
    ensures n <= |q| && (n < |q| ==> q[n] !in page) && forall j :: 0 <= j < n ==> q[j] in page
  {
    if q == [] || q[0] !in page then 0 else 1 + Leading(q[1..], page)
  }

  lemma {:induction false} SkimLeads(s: Sys, n: nat)
    ensures Skim(s, n).1.Some? <==> Leading(s.free, s.page) < |s.free| && Leading(s.free, s.page) < n
    ensures Skim(s, n).1.Some? ==> Skim(s, n).1.value == s.free[Leading(s.free, s.page)]
    decreases n
  {
    if n > 0 && s.free != [] && s.free[0] in s.page {
      SkimLeads(SetHead(s.(free := s.free[1..]), s.free[0], Head(true, false, true, 0)), n - 1);
    }
  }

  ghost function ElementsOf(q: seq<Id>): set<Id> {
    set id <- q
  }

  lemma {:induction false} DistinctCount(q: seq<Id>)
    requires Distinct(q)
    ensures |ElementsOf(q)| == |q|
  {
    if q != [] {
      var rest := q[1..];
      DistinctCount(rest);
      assert ElementsOf(q) == {q[0]} + ElementsOf(rest);
    }
  }

  lemma {:induction false} FewElements(q: seq<Id>)
    ensures |ElementsOf(q)| <= |q|
  {
    if q != [] {
      var rest := q[1..];
      FewElements(rest);
      assert ElementsOf(q) == {q[0]} + ElementsOf(rest);
    }
  }

  lemma SmallerSet(a: set<Id>, b: set<Id>, x: Id)
    requires a <= b && x in b && x !in a
    ensures |a| < |b|
  {
    assert a <= b - {x};
    Within(a, b - {x});
  }

  lemma {:induction false} Within(a: set<Id>, b: set<Id>)
    requires a <= b
    ensures |a| <= |b|
    decreases |a|
  {
    if a != {} {
      var x :| x in a;
      Within(a - {x}, b - {x});
    }
  }

  /** The freelist starts with fewer chunks of the page than the page has, as the item's own chunk is not free. */
  lemma FewLead(free: seq<Id>, page: seq<Id>, id: Id)
    requires Distinct(free) && id in page && id !in free
    ensures Leading(free, page) < |page|
  {
    var q := free[..Leading(free, page)];
    forall x <- q ensures x in page && x in free {
    }
    DistinctCount(q);
    FewElements(page);
    SmallerSet(ElementsOf(q), ElementsOf(page), id);
  }

  /** An item is given a spare chunk exactly if it is worth saving and any chunk outside the page is free. */
  lemma SparedExactly(s: Sys, save: bool)
    requires Inv(s) && Enabled(s, TryRescues(save))
    ensures Next(s, TryRescues(save)).mover.Rescue?
    ensures Next(s, TryRescues(save)).mover.spare.Some? <==> save && exists id <- s.free :: id !in s.page
  {
    var id, q := s.page[s.mover.pos], s.free;
    assert ChunkOk(s, id);
    SeizedKeeps(s);
    SkimLeads(Seized(s), |s.page|);
    FewLead(q, s.page, id);
    var n := Leading(q, s.page);
    if n < |q| {
      assert q[n] in s.free;
    } else {
      forall x <- q ensures x in s.page {
      }
    }
  }

  // ----- a scan that nobody disturbs

  /** The state after `n` steps of the mover alone over chunks that nobody uses. */
  ghost function Scanned(s: Sys, n: nat): Sys
    decreases n
  {
    if n == 0 || !Enabled(s, Look) then s else Scanned(LookAt(s), n - 1)
  }

  /** Over chunks that nobody uses, cleared or free, the mover goes straight to the end of the page, which then is done:
      each chunk is cleared and off the freelist. */
  lemma {:induction false} UndisturbedScan(s: Sys, n: nat)
    requires Inv(s) && s.mover.Scan? && s.mover.busy == 0 && n == |s.page| - s.mover.pos
    requires AllUnused(s, s.mover.pos)
    ensures var t := Scanned(s, n);
            && Inv(t) && t.mover == Scan(|s.page|, 0) && t.page == s.page
            && (forall id <- s.page :: Cleared(t, id) && id !in t.free)
            && Enabled(t, Wrap) && Next(t, Wrap).mover == Done
    decreases n
  {
    if n == 0 {
      NoneUncleared(s, |s.page|);
      forall id <- s.page ensures Cleared(s, id) && id !in s.free {
        assert ChunkOk(s, id);
      }
    } else {
      assert UnusedAt(s, s.mover.pos);
      var t := LookAt(s);
      assert Enabled(s, Look) && t == Next(s, Look);
      LookKeepsInv(s);
      forall i | t.mover.pos <= i < |t.page| ensures UnusedAt(t, i) {
        assert UnusedAt(s, i);
      }
      UndisturbedScan(t, n - 1);
    }
  }

  ghost predicate UnusedAt(s: Sys, i: nat)
    requires i < |s.page|
  {
    s.page[i] in s.chunks && s.chunks[s.page[i]].slabbed
  }

  ghost predicate AllUnused(s: Sys, from: nat) {
    forall i {:trigger UnusedAt(s, i)} :: from <= i < |s.page| ==> UnusedAt(s, i)
  }

  // ----- a rescue that nobody disturbs

  /** One look at a chunk: a cleared one is passed, a free one is cleared and off the freelist, one with a linked item
      is checked, and any other is counted as busy. No other chunk is touched. */
  lemma LookAnswers(s: Sys)
    requires Inv(s) && Enabled(s, Look)
    ensures var t, id, m := Next(s, Look), s.page[s.mover.pos], s.mover;
            var h := s.chunks[id];
            && t.pages == s.pages && t.page == s.page && t.table == s.table && t.held == s.held && t.dying == s.dying
            && t.chunks == s.chunks[id := if h.slabbed then Head(true, false, true, 0) else h]
            && (forall x :: x in t.free <==> x in s.free && x != id)
            && t.mover == if h.slabbed then Scan(m.pos + 1, m.busy)
                          else if h.linked then Check(m.pos, m.busy)
                          else Scan(m.pos + 1, m.busy + 1)
  {
    var id := s.page[s.mover.pos];
    assert ChunkOk(s, id);
    WithoutFacts(s.free, id);
  }

  /** `n` more steps of the mover in a rescue, with nobody else. */
  ghost function Alone(s: Sys, n: nat): Sys
    decreases n
  {
    if n == 0 || !Enabled(s, Rescuing) then s else Alone(Next(s, Rescuing), n - 1)
  }

  /** A linked item that nobody else holds, of which the mover gets the lock, is moved to the first free chunk outside
      the page, with its hit mark; if there is none, or the item has expired, it is unlinked, and its chunk is free and
      to be met again in another round. */
  lemma UndisturbedRescue(s: Sys, save: bool)
    requires Inv(s) && Enabled(s, Look)
    requires var h := s.chunks[s.page[s.mover.pos]]; h.linked && !h.slabbed && h.refcount == 1
    ensures Enabled(Next(s, Look), TryRescues(save))
    ensures var id, m, q := s.page[s.mover.pos], s.mover, s.free;
            var t, n := Next(Next(s, Look), TryRescues(save)), Leading(s.free, s.page);
            if save && n < |q| then
              var u, x := Alone(t, 4), q[n];
              && u.mover == Scan(m.pos + 1, m.busy) && u.table == s.table - {id} + {x} && Cleared(u, id)
              && x in u.chunks && u.chunks[x] == Head(false, true, s.chunks[id].fetched, 1)
            else
              var u := Alone(t, 3);
              && u.mover == Scan(m.pos + 1, m.busy + 1) && u.table == s.table - {id}
              && u.free != [] && u.free[0] == id && id in u.chunks && u.chunks[id].slabbed && !u.chunks[id].fetched
  {
    var id, c := s.page[s.mover.pos], Next(s, Look);
    LookKeepsInv(s);
    var seized := Seized(c);
    assert ChunkOk(c, id);
    SeizedKeeps(c);
    SkimKeeps(seized, |s.page|, id);
    SkimTable(seized, |s.page|);
    SkimLeads(seized, |s.page|);
    FewLead(c.free, c.page, id);
    var t := Next(c, TryRescues(save));
    if save && Leading(s.free, s.page) < |s.free| {
      var x := s.free[Leading(s.free, s.page)];
      assert t.mover.spare == Some(x);
      RescueAlone(t, id, x);
    } else {
      assert t.mover.spare == None;
      DropAlone(t, id);
    }
  }

  lemma AloneStep(t: Sys, n: nat)
    requires n > 0 && Enabled(t, Rescuing)
    ensures Alone(t, n) == Alone(Next(t, Rescuing), n - 1)
  {
  }

  lemma RescueAlone(t: Sys, id: Id, x: Id)
    requires t.mover.Rescue? && t.mover.phase.Unlinking? && t.mover.spare == Some(x) && x != id
    requires t.mover.pos < |t.page| && t.page[t.mover.pos] == id && id in t.chunks && x in t.chunks && x !in t.table
    ensures var u := Alone(t, 4);
            && u.mover == Scan(t.mover.pos + 1, t.mover.busy) && u.table == t.table - {id} + {x} && Cleared(u, id)
            && x in u.chunks && u.chunks[x] == Head(false, true, t.chunks[id].fetched, 1)
  {
    var t1 := Next(t, Rescuing);
    var t2 := Next(t1, Rescuing);
    var t3 := Next(t2, Rescuing);
    var t4 := Next(t3, Rescuing);
    AloneStep(t, 4);
    AloneStep(t1, 3);
    AloneStep(t2, 2);
    AloneStep(t3, 1);
    assert Alone(t, 4) == t4;
  }

  lemma DropAlone(t: Sys, id: Id)
    requires t.mover.Rescue? && t.mover.phase.Unlinking? && t.mover.spare == None
    requires t.mover.pos < |t.page| && t.page[t.mover.pos] == id && id in t.chunks
    ensures var u := Alone(t, 3);
            && u.mover == Scan(t.mover.pos + 1, t.mover.busy + 1) && u.table == t.table - {id}
            && u.free == [id] + t.free && id in u.chunks && u.chunks[id].slabbed && !u.chunks[id].fetched
  {
    var t1 := Next(t, Rescuing);
    var t2 := Next(t1, Rescuing);
    var t3 := Next(t2, Rescuing);
    AloneStep(t, 3);
    AloneStep(t1, 2);
    AloneStep(t2, 1);
    assert Alone(t, 3) == t3;
  }
}
