/** Why one item lock is enough while the hash table expands (assoc.c:222-225). Workers hold the
    item lock of a hash value and read `expanding` and `expand_bucket` in separate steps; the
    maintenance thread holds the item lock of the bucket it moves and also works in small steps.
    The item locks are numbered by fewer low bits of the hash value than either table. */
module AssocLocks {
  import opened Common
  import opened Assoc

  datatype Worker =
    | Outside                                       // holds no item lock
    | Holding(hv: nat)                              // item_lock(hv) returned
    | SawExpanding(hv: nat, e: bool)                // has read `expanding`
    | AtChain(hv: nat, inOld: bool)                 // has chosen a table

  /** The maintenance thread: between buckets; moving the items of bucket `from`; past the increment
      of `expand_bucket`. `bucket` is the one whose item lock it holds. */
  datatype Migrator = Waiting | MovingItems(bucket: nat) | Counted(bucket: nat)

  datatype Sys = Sys(t: Tables, workers: seq<Worker>, migrator: Migrator)

  datatype Step =
    | Lock(w: nat, hv: nat)
    | ReadExpanding(w: nat)
    | ReadBucket(w: nat)
    | Change(w: nat, chain: seq<Item>)              // insert into or delete from the chosen chain
    | Unlock(w: nat)
    | TryLockBucket
    | MoveItem
    | CountBucket
    | StopExpanding
    | UnlockBucket
    | Expand                                        // while every worker is parked

  ghost function LockOf(hv: nat, locks: nat): nat {
    Low(hv, locks)
  }

  ghost predicate HoldsLock(s: Sys, w: nat, locks: nat, lock: nat)
    requires w < |s.workers|
  {
    !s.workers[w].Outside? && LockOf(s.workers[w].hv, locks) == lock
  }

  ghost predicate LockFree(s: Sys, locks: nat, lock: nat) {
    && (forall w {:trigger HoldsLock(s, w, locks, lock)} :: 0 <= w < |s.workers| ==> !HoldsLock(s, w, locks, lock))
    && (!s.migrator.Waiting? ==> LockOf(s.migrator.bucket, locks) != lock)
  }

  /** The items of a chain hash to its bucket. */
  ghost predicate ChainOf(hash: Hash, chain: seq<Item>, b: nat, n: nat) {
    forall it <- chain :: Low(hash(it.key), n) == b
  }

  ghost predicate AllChains(hash: Hash, chains: Chains, n: nat) {
    forall b {:trigger ChainOf(hash, chains[b], b, n)} :: 0 <= b < |chains| ==> ChainOf(hash, chains[b], b, n)
  }

  // ----- the steps

  ghost predicate Enabled(hash: Hash, locks: nat, s: Sys, step: Step)
    requires s.t.Shaped()
  {
    match step
    case Lock(w, hv) => w < |s.workers| && s.workers[w].Outside? && LockFree(s, locks, LockOf(hv, locks))
    case ReadExpanding(w) => w < |s.workers| && s.workers[w].Holding?
    case ReadBucket(w) => w < |s.workers| && s.workers[w].SawExpanding? && s.t.power > 0
    case Change(w, chain) =>
      && w < |s.workers| && s.workers[w].AtChain?
      && (if s.workers[w].inOld
          then s.t.expanding && ChainOf(hash, chain, Low(s.workers[w].hv, s.t.power - 1), s.t.power - 1)
          else ChainOf(hash, chain, Low(s.workers[w].hv, s.t.power), s.t.power))
    case Unlock(w) => w < |s.workers| && !s.workers[w].Outside?
    case TryLockBucket =>
      && s.migrator.Waiting? && s.t.expanding && s.t.from < |s.t.oldTable|
      && LockFree(s, locks, LockOf(s.t.from, locks))
    case MoveItem => s.migrator.MovingItems? && s.t.expanding && s.t.from < |s.t.oldTable| &&
      s.t.oldTable[s.t.from] != []
    case CountBucket => s.migrator.MovingItems? && s.t.expanding && s.t.from < |s.t.oldTable| &&
      s.t.oldTable[s.t.from] == []
    case StopExpanding => s.migrator.Counted? && s.t.expanding && s.t.from == |s.t.oldTable|
    case UnlockBucket => s.migrator.Counted? && (s.t.expanding ==> s.t.from < |s.t.oldTable|)
    case Expand => s.migrator.Waiting? && !s.t.expanding && forall w <- s.workers :: w.Outside?
  }

  ghost function ChangeChain(t: Tables, hv: nat, inOld: bool, chain: seq<Item>): Tables
    requires t.Shaped() && (inOld ==> t.expanding)
  {
    if inOld then t.(oldTable := t.oldTable[Low(hv, t.power - 1) := chain])
    else t.(primary := t.primary[Low(hv, t.power) := chain])
  }

  ghost function Next(hash: Hash, locks: nat, s: Sys, step: Step): Sys
    requires s.t.Shaped() && Enabled(hash, locks, s, step)
  {
    match step
    case Lock(w, hv) => s.(workers := s.workers[w := Holding(hv)])
    case ReadExpanding(w) => s.(workers := s.workers[w := SawExpanding(s.workers[w].hv, s.t.expanding)])
    case ReadBucket(w) =>
      var hv := s.workers[w].hv;
      s.(workers := s.workers[w := AtChain(hv, s.workers[w].e && Low(hv, s.t.power - 1) >= s.t.from)])
    case Change(w, chain) => s.(t := ChangeChain(s.t, s.workers[w].hv, s.workers[w].inOld, chain))
    case Unlock(w) => s.(workers := s.workers[w := Outside])
    case TryLockBucket => s.(migrator := MovingItems(s.t.from))
    case MoveItem => s.(t := MovedOne(hash, s.t))
    case CountBucket => s.(t := s.t.(from := s.t.from + 1), migrator := Counted(s.migrator.bucket))
    case StopExpanding => s.(t := s.t.(expanding := false, oldTable := []))
    case UnlockBucket => s.(migrator := Waiting)
    case Expand => s.(t := Expanded(s.t))
  }

  // ----- the invariant

  /** The lock table is narrower than both bucket tables (thread.c:712-717). */
  ghost predicate Narrow(t: Tables, locks: nat) {
    t.Shaped() && locks < t.power
  }

  /** No two threads hold the same item lock. */
  ghost predicate Exclusive(s: Sys, locks: nat) {
    && (forall v, w {:trigger Apart(s, v, w, locks)} :: 0 <= v < w < |s.workers| ==> Apart(s, v, w, locks))
    && (!s.migrator.Waiting? ==>
          forall w {:trigger ApartFromMigrator(s, w, locks)} :: 0 <= w < |s.workers| ==> ApartFromMigrator(s, w, locks))
  }

  ghost predicate Apart(s: Sys, v: nat, w: nat, locks: nat)
    requires v < |s.workers| && w < |s.workers|
  {
    s.workers[v].Outside? || s.workers[w].Outside? ||
    LockOf(s.workers[v].hv, locks) != LockOf(s.workers[w].hv, locks)
  }

  ghost predicate ApartFromMigrator(s: Sys, w: nat, locks: nat)
    requires w < |s.workers| && !s.migrator.Waiting?
  {
    s.workers[w].Outside? || LockOf(s.workers[w].hv, locks) != LockOf(s.migrator.bucket, locks)
  }

  /** What a worker knows is still so: the table it chose is the one a lookup would choose now. */
  ghost predicate Knows(t: Tables, w: Worker)
    requires t.Shaped() && t.power > 0
  {
    match w
    case Outside => true
    case Holding(_) => true
    case SawExpanding(hv, e) => if e then t.expanding || Low(hv, t.power - 1) < t.from else !t.expanding
    case AtChain(hv, inOld) => inOld == t.InOld(hv)
  }

  ghost predicate AllKnow(s: Sys)
    requires s.t.Shaped() && s.t.power > 0
  {
    forall w {:trigger Knows(s.t, s.workers[w])} :: 0 <= w < |s.workers| ==> Knows(s.t, s.workers[w])
  }

  ghost predicate Placed(hash: Hash, t: Tables)
    requires t.Shaped() && t.power > 0
  {
    AllChains(hash, t.oldTable, t.power - 1) && AllChains(hash, t.primary, t.power)
  }

  /** Where the maintenance thread is agrees with the counters. */
  ghost predicate InStep(s: Sys) {
    match s.migrator
    case Waiting => s.t.expanding ==> s.t.from < |s.t.oldTable|
    case MovingItems(b) => s.t.expanding && b == s.t.from < |s.t.oldTable|
    case Counted(b) => true
  }

  ghost predicate Inv(hash: Hash, locks: nat, s: Sys) {
    Narrow(s.t, locks) && Placed(hash, s.t) && InStep(s) && Exclusive(s, locks) && AllKnow(s)
  }

  // ----- a step of another thread leaves a locked hash value alone

  /** The value's home chain and the choice of its table are the same in both states. */
  ghost predicate SameHome(t: Tables, t': Tables, hv: nat) {
    t.Shaped() && t'.Shaped() && t'.InOld(hv) == t.InOld(hv) && t'.Home(hv) == t.Home(hv)
  }

  /** Two hash values with different locks are in different buckets of each table. */
  lemma DifferentBuckets(h: nat, g: nat, n: nat, locks: nat)
    requires locks <= n && LockOf(h, locks) != LockOf(g, locks)
    ensures Low(h, n) != Low(g, n)
  {
    LowLow(h, n, locks);
    LowLow(g, n, locks);
  }

  lemma ChangeKeepsOthers(t: Tables, hv: nat, inOld: bool, chain: seq<Item>, other: nat, locks: nat)
    requires Narrow(t, locks) && inOld == t.InOld(hv) && LockOf(hv, locks) != LockOf(other, locks)
    ensures SameHome(t, ChangeChain(t, hv, inOld, chain), other)
  {
    DifferentBuckets(hv, other, t.power, locks);
    DifferentBuckets(hv, other, t.power - 1, locks);
  }

  lemma MoveKeepsOthers(hash: Hash, t: Tables, other: nat, locks: nat)
    requires Narrow(t, locks) && t.expanding && t.from < |t.oldTable| && t.oldTable[t.from] != []
    requires AllChains(hash, t.oldTable, t.power - 1) && LockOf(t.from, locks) != LockOf(other, locks)
    ensures SameHome(t, MovedOne(hash, t), other)
  {
    var h := hash(t.oldTable[t.from][0].key);
    assert Low(h, t.power) != Low(other, t.power) by {
      FirstInBucket(hash, t);
      LowLow(h, t.power - 1, locks);
      DifferentBuckets(h, other, t.power, locks);
    }
    assert t.from != Low(other, t.power - 1) by {
      LowOfSmall(t.from, t.power - 1);
      DifferentBuckets(t.from, other, t.power - 1, locks);
    }
  }

  lemma FirstInBucket(hash: Hash, t: Tables)
    requires t.Shaped() && t.expanding && t.from < |t.oldTable| && t.oldTable[t.from] != []
    requires AllChains(hash, t.oldTable, t.power - 1)
    ensures Low(hash(t.oldTable[t.from][0].key), t.power - 1) == t.from
  {
    assert ChainOf(hash, t.oldTable[t.from], t.from, t.power - 1);
    assert t.oldTable[t.from][0] in t.oldTable[t.from];
  }

  lemma MoveKeepsChains(hash: Hash, t: Tables)
    requires t.Shaped() && t.expanding && t.from < |t.oldTable| && t.oldTable[t.from] != []
    requires AllChains(hash, t.oldTable, t.power - 1) && AllChains(hash, t.primary, t.power)
    ensures var t' := MovedOne(hash, t);
            AllChains(hash, t'.oldTable, t.power - 1) && AllChains(hash, t'.primary, t.power)
  {
    var t' := MovedOne(hash, t);
    forall b | 0 <= b < |t'.primary| ensures ChainOf(hash, t'.primary[b], b, t.power) {
      assert ChainOf(hash, t.primary[b], b, t.power);
    }
    forall b | 0 <= b < |t'.oldTable| ensures ChainOf(hash, t'.oldTable[b], b, t.power - 1) {
      assert ChainOf(hash, t.oldTable[b], b, t.power - 1);
    }
  }

  lemma CountKeepsOthers(t: Tables, other: nat, locks: nat)
    requires Narrow(t, locks) && t.expanding && t.from < |t.oldTable| && LockOf(t.from, locks) != LockOf(other, locks)
    ensures SameHome(t, t.(from := t.from + 1), other)
  {
    LowOfSmall(t.from, t.power - 1);
    DifferentBuckets(t.from, other, t.power - 1, locks);
  }

  /** While worker `w` holds the lock of a hash value, whatever any other thread does next leaves the
      choice of table and the chain for that value as they are. */
  lemma OthersKeepHome(hash: Hash, locks: nat, s: Sys, step: Step, w: nat)
    requires Inv(hash, locks, s) && Enabled(hash, locks, s, step)
    requires w < |s.workers| && !s.workers[w].Outside?
    requires step.Change? ==> step.w != w
    ensures SameHome(s.t, Next(hash, locks, s, step).t, s.workers[w].hv)
  {
    var hv := s.workers[w].hv;
    match step
    case Change(v, chain) =>
      assert Knows(s.t, s.workers[v]);
      assert if v < w then Apart(s, v, w, locks) else Apart(s, w, v, locks);
      ChangeKeepsOthers(s.t, s.workers[v].hv, s.workers[v].inOld, chain, hv, locks);
    case MoveItem =>
      assert ApartFromMigrator(s, w, locks);
      MoveKeepsOthers(hash, s.t, hv, locks);
    case CountBucket =>
      assert ApartFromMigrator(s, w, locks);
      CountKeepsOthers(s.t, hv, locks);
    case StopExpanding =>
    case Expand =>
      assert false;
    case _ =>
  }

  // ----- every step keeps the invariant

  lemma StepKeepsTables(hash: Hash, locks: nat, s: Sys, step: Step)
    requires Inv(hash, locks, s) && Enabled(hash, locks, s, step)
    ensures var s' := Next(hash, locks, s, step);
            Narrow(s'.t, locks) && Placed(hash, s'.t) && InStep(s')
  {
    match step
    case Change(w, chain) =>
      assert Knows(s.t, s.workers[w]);
      ChangeKeepsChains(hash, s.t, s.workers[w].hv, s.workers[w].inOld, chain);
    case MoveItem => MoveKeepsChains(hash, s.t);
    case Expand =>
      var n := s.t.power + 1;
      forall b | 0 <= b < Pow2(n) ensures ChainOf(hash, [], b, n) {
      }
    case _ =>
  }

  lemma ChangeKeepsChains(hash: Hash, t: Tables, hv: nat, inOld: bool, chain: seq<Item>)
    requires t.Shaped() && t.power > 0 && Placed(hash, t) && (inOld ==> t.expanding)
    requires if inOld then ChainOf(hash, chain, Low(hv, t.power - 1), t.power - 1)
             else ChainOf(hash, chain, Low(hv, t.power), t.power)
    ensures var t' := ChangeChain(t, hv, inOld, chain); t'.Shaped() && Placed(hash, t')
  {
    var t' := ChangeChain(t, hv, inOld, chain);
    forall b | 0 <= b < |t'.primary| ensures ChainOf(hash, t'.primary[b], b, t.power) {
      assert ChainOf(hash, t.primary[b], b, t.power);
    }
    forall b | 0 <= b < |t'.oldTable| ensures ChainOf(hash, t'.oldTable[b], b, t.power - 1) {
      assert ChainOf(hash, t.oldTable[b], b, t.power - 1);
    }
  }

  lemma StepKeepsExclusive(hash: Hash, locks: nat, s: Sys, step: Step)
    requires Inv(hash, locks, s) && Enabled(hash, locks, s, step)
    ensures Exclusive(Next(hash, locks, s, step), locks)
  {
    var s' := Next(hash, locks, s, step);
    forall v, w | 0 <= v < w < |s'.workers| ensures Apart(s', v, w, locks) {
      assert Apart(s, v, w, locks);
      if step.Lock? {
        assert !HoldsLock(s, v, locks, LockOf(step.hv, locks)) && !HoldsLock(s, w, locks, LockOf(step.hv, locks));
      }
    }
    forall w | 0 <= w < |s'.workers| && !s'.migrator.Waiting? ensures ApartFromMigrator(s', w, locks) {
      if step.TryLockBucket? {
        assert !HoldsLock(s, w, locks, LockOf(s.t.from, locks));
      } else {
        assert ApartFromMigrator(s, w, locks);
      }
    }
  }

  lemma StepKeepsKnowledge(hash: Hash, locks: nat, s: Sys, step: Step)
    requires Inv(hash, locks, s) && Enabled(hash, locks, s, step)
    requires Narrow(Next(hash, locks, s, step).t, locks)
    ensures AllKnow(Next(hash, locks, s, step))
  {
    var s' := Next(hash, locks, s, step);
    forall w | 0 <= w < |s'.workers| ensures Knows(s'.t, s'.workers[w]) {
      assert Knows(s.t, s.workers[w]);
      if !s.workers[w].Outside? && !step.Change? {
        OthersKeepHome(hash, locks, s, step, w);
      }
      assert s.workers[w] in s.workers;
    }
  }

  lemma StepKeepsInv(hash: Hash, locks: nat, s: Sys, step: Step)
    requires Inv(hash, locks, s) && Enabled(hash, locks, s, step)
    ensures Inv(hash, locks, Next(hash, locks, s, step))
  {
    StepKeepsTables(hash, locks, s, step);
    StepKeepsExclusive(hash, locks, s, step);
    StepKeepsKnowledge(hash, locks, s, step);
  }

  // ----- the size of the lock table

  /** memcached_thread_init: more locks for more threads. */
  function LockPower(nthreads: nat): nat {
    if nthreads < 3 then 10
    else if nthreads < 4 then 11
    else if nthreads < 5 then 12
    else if nthreads <= 10 then 13
    else if nthreads <= 20 then 14
    else 15
  }

  /** The state it starts in, with an empty table, or nothing if it gives up because the lock table is not
      narrower than the hash table. */
  ghost function Startup(nthreads: nat, hashpower: nat): Option<Sys> {
    if LockPower(nthreads) >= hashpower then None
    else Some(Sys(Tables(seq(Pow2(hashpower), _ => []), [], hashpower, false, 0), seq(nthreads, _ => Outside), Waiting))
  }

  lemma StartupStarts(hash: Hash, nthreads: nat, hashpower: nat)
    ensures Startup(nthreads, hashpower).Some? ==>
              Start(hash, LockPower(nthreads), Startup(nthreads, hashpower).value)
  {
  }

  ghost predicate Separates(n: nat, locks: nat, h: nat, g: nat) {
    LockOf(h, locks) != LockOf(g, locks) ==> Low(h, n) != Low(g, n)
  }

  lemma {:induction false} LowOfPower(n: nat)
    ensures Low(Pow2(n), n) == 0
  {
    if n > 0 {
      LowOfPower(n - 1);
    }
  }

  lemma {:induction false} PowersGrow(n: nat, m: nat)
    requires n < m
    ensures Pow2(n) < Pow2(m)
  {
    if n + 1 < m {
      PowersGrow(n, m - 1);
    }
  }

  /** The check that memcached_thread_init makes is the right one. While a table of n + 1 bits is filled from one of
      n bits, different locks mean different buckets of both tables exactly if the lock table has at most n bits. */
  lemma NarrowIsExact(n: nat, locks: nat)
    ensures (forall h: nat, g: nat {:trigger Separates(n, locks, h, g)} :: Separates(n, locks, h, g)) <==> locks < n + 1
    ensures locks < n + 1 ==> forall h: nat, g: nat {:trigger LockOf(h, locks), LockOf(g, locks)} ::
              LockOf(h, locks) != LockOf(g, locks) ==> Low(h, n) != Low(g, n) && Low(h, n + 1) != Low(g, n + 1)
  {
    if locks <= n {
      forall h: nat, g: nat {:trigger LockOf(h, locks), LockOf(g, locks)} | LockOf(h, locks) != LockOf(g, locks)
        ensures Low(h, n) != Low(g, n) && Low(h, n + 1) != Low(g, n + 1)
      {
        DifferentBuckets(h, g, n, locks);
        DifferentBuckets(h, g, n + 1, locks);
      }
    } else {
      var g := Pow2(n);
      PowersGrow(n, locks);
      LowOfSmall(g, locks);
      LowOfSmall(0, locks);
      LowOfSmall(0, n);
      LowOfPower(n);
      assert !Separates(n, locks, 0, g);
    }
  }

  // ----- over whole runs

  ghost predicate Start(hash: Hash, locks: nat, s: Sys) {
    && Narrow(s.t, locks) && !s.t.expanding && Placed(hash, s.t)
    && s.migrator.Waiting? && forall w <- s.workers :: w.Outside?
  }

  ghost predicate StepAt(hash: Hash, locks: nat, states: seq<Sys>, steps: seq<Step>, i: nat)
    requires i < |steps| && |states| == |steps| + 1
  {
    && states[i].t.Shaped() && Enabled(hash, locks, states[i], steps[i])
    && states[i + 1] == Next(hash, locks, states[i], steps[i])
  }

  ghost predicate IsRun(hash: Hash, locks: nat, states: seq<Sys>, steps: seq<Step>) {
    && |states| == |steps| + 1 && Start(hash, locks, states[0])
    && forall i {:trigger StepAt(hash, locks, states, steps, i)} :: 0 <= i < |steps| ==>
         StepAt(hash, locks, states, steps, i)
  }

  lemma {:induction false} RunKeepsInv(hash: Hash, locks: nat, states: seq<Sys>, steps: seq<Step>, i: nat)
    requires IsRun(hash, locks, states, steps) && i <= |steps|
    ensures Inv(hash, locks, states[i])
  {
    if i > 0 {
      RunKeepsInv(hash, locks, states, steps, i - 1);
      assert StepAt(hash, locks, states, steps, i - 1);
      StepKeepsInv(hash, locks, states[i - 1], steps[i - 1]);
    }
  }

  /** Reading `expanding` and `expand_bucket` in separate steps is harmless: in every reachable state
      a worker that has chosen a table stands at the chain a lookup in that state would choose. */
  lemma SplitReadsChooseRight(hash: Hash, locks: nat, states: seq<Sys>, steps: seq<Step>, i: nat, w: nat)
    requires IsRun(hash, locks, states, steps) && i <= |steps| && w < |states[i].workers|
    requires states[i].workers[w].AtChain?
    ensures states[i].t.Shaped() && states[i].workers[w].inOld == states[i].t.InOld(states[i].workers[w].hv)
  {
    RunKeepsInv(hash, locks, states, steps, i);
    assert Knows(states[i].t, states[i].workers[w]);
  }

  /** From the moment a worker holds the lock of a hash value until it releases it or changes the
      chain itself, no steps of other workers or of the maintenance thread change the table that
      holds the value or the chain there. */
  lemma {:induction false} LockedChainIsStable(hash: Hash, locks: nat, states: seq<Sys>, steps: seq<Step>, i: nat,
                                               j: nat, w: nat)
    requires IsRun(hash, locks, states, steps) && i <= j <= |steps|
    requires w < |states[i].workers| && !states[i].workers[w].Outside?
    requires forall m :: i <= m < j ==> !(steps[m].Change? && steps[m].w == w) && steps[m] != Unlock(w)
    ensures |states[j].workers| == |states[i].workers|
    ensures !states[j].workers[w].Outside? && states[j].workers[w].hv == states[i].workers[w].hv
    ensures SameHome(states[i].t, states[j].t, states[i].workers[w].hv)
    decreases j - i
  {
    RunKeepsInv(hash, locks, states, steps, j);
    if i < j {
      LockedChainIsStable(hash, locks, states, steps, i, j - 1, w);
      RunKeepsInv(hash, locks, states, steps, j - 1);
      assert StepAt(hash, locks, states, steps, j - 1);
      OthersKeepHome(hash, locks, states[j - 1], steps[j - 1], w);
    }
  }
}
