/** What the hash table holds while it expands under worker threads (assoc.c:67-218, 222-290): the interleaving of
    `AssocLocks` with the map that the workers' links and unlinks stand for. In every state that can be reached, also
    in the middle of a bucket's move, a worker at its chain finds there exactly the map's entry. */
module AssocMaps {
  import opened Common
  import opened Assoc
  import Locks = AssocLocks

  type Sys = Locks.Sys

  /** What a worker does at the chain it has chosen, besides all other steps of `AssocLocks`. */
  datatype Op = Other(step: Locks.Step) | Link(w: nat, it: Item) | Cut(w: nat, i: nat)

  ghost function Chosen(t: Tables, hv: nat, inOld: bool): seq<Item>
    requires t.Shaped() && (inOld ==> t.expanding)
  {
    if inOld then t.oldTable[Low(hv, t.power - 1)] else t.primary[Low(hv, t.power)]
  }

  ghost predicate AtTable(s: Sys, w: nat) {
    && s.t.Shaped() && w < |s.workers| && s.workers[w].AtChain? && (s.workers[w].inOld ==> s.t.expanding)
  }

  ghost function ChainAt(s: Sys, w: nat): seq<Item>
    requires AtTable(s, w)
  {
    Chosen(s.t, s.workers[w].hv, s.workers[w].inOld)
  }

  /** Workers link an item of a new key, and unlink one that they have found, of keys with the locked hash value. */
  ghost predicate Allowed(hash: Hash, s: Sys, c: Content, op: Op) {
    match op
    case Other(step) => !step.Change?
    case Link(w, it) => AtTable(s, w) && hash(it.key) == s.workers[w].hv && it.key !in c
    case Cut(w, i) => AtTable(s, w) && i < |ChainAt(s, w)| && hash(ChainAt(s, w)[i].key) == s.workers[w].hv
  }

  ghost function StepOf(hash: Hash, s: Sys, c: Content, op: Op): Locks.Step
    requires Allowed(hash, s, c, op)
  {
    match op
    case Other(step) => step
    case Link(w, it) => Locks.Change(w, [it] + ChainAt(s, w))
    case Cut(w, i) => Locks.Change(w, Without(ChainAt(s, w), i))
  }

  ghost function ContentAfter(hash: Hash, s: Sys, c: Content, op: Op): Content
    requires Allowed(hash, s, c, op)
  {
    match op
    case Other(_) => c
    case Link(_, it) => c[it.key := it]
    case Cut(w, i) => c - {ChainAt(s, w)[i].key}
  }

  // ----- the invariant

  /** Past the last bucket the old table is no longer looked at. */
  ghost function Settled(t: Tables): Tables {
    if t.expanding && t.from == |t.oldTable| then t.(oldTable := [], expanding := false) else t
  }

  ghost predicate Stands(hash: Hash, c: Content, s: Sys) {
    if s.migrator.MovingItems? then Moving(hash, c, s.t) else Represents(hash, c, Settled(s.t))
  }

  ghost predicate Inv(hash: Hash, locks: nat, c: Content, s: Sys) {
    Locks.Inv(hash, locks, s) && Stands(hash, c, s)
  }

  lemma SettledHome(t: Tables, hv: nat)
    requires t.Shaped()
    ensures Settled(t).Shaped() && Settled(t).InOld(hv) == t.InOld(hv) && Settled(t).Home(hv) == t.Home(hv)
  {
  }

  lemma SettledRehome(t: Tables, hv: nat, chain: seq<Item>)
    requires t.Shaped()
    ensures Settled(t).Shaped() && Settled(t.Rehome(hv, chain)) == Settled(t).Rehome(hv, chain)
  {
    SettledHome(t, hv);
  }

  /** The migrator's bucket is not that of a hash value that a worker has locked. */
  lemma NotTheirBucket(hash: Hash, locks: nat, s: Sys, w: nat)
    requires Locks.Inv(hash, locks, s) && w < |s.workers| && !s.workers[w].Outside? && s.migrator.MovingItems?
    ensures s.t.expanding && s.t.power > 0 && Low(s.workers[w].hv, s.t.power - 1) != s.t.from
  {
    assert Locks.ApartFromMigrator(s, w, locks);
    LowOfSmall(s.t.from, s.t.power - 1);
    Locks.DifferentBuckets(s.workers[w].hv, s.t.from, s.t.power - 1, locks);
  }

  /** A worker stands at the home chain of its hash value. */
  lemma ChainIsHome(hash: Hash, locks: nat, s: Sys, w: nat)
    requires Locks.Inv(hash, locks, s) && w < |s.workers| && s.workers[w].AtChain?
    ensures AtTable(s, w) && s.workers[w].inOld == s.t.InOld(s.workers[w].hv)
    ensures ChainAt(s, w) == s.t.Home(s.workers[w].hv)
  {
    assert Locks.Knows(s.t, s.workers[w]);
  }

  // ----- links and unlinks while a bucket is being moved

  lemma SplitAfterRehome(t: Tables, hv: nat, chain: seq<Item>)
    requires t.Shaped() && t.expanding && Split(t, t.from + 1)
    ensures Split(t.Rehome(hv, chain), t.from + 1)
  {
    LowLow(hv, t.power, t.power - 1);
    var t', m := t.Rehome(hv, chain), t.from + 1;
    forall b | 0 <= b < |t'.primary| ensures FromMigrated(t', b, m) {
      assert FromMigrated(t, b, m);
    }
  }

  lemma LinkBelongs(hash: Hash, c: Content, t: Tables, it: Item)
    requires Moving(hash, c, t) && it.key !in c
    ensures var t' := Inserted(t, hash(it.key), it);
            AllBelong(hash, c[it.key := it], t'.primary, t.power) &&
              AllBelong(hash, c[it.key := it], t'.oldTable, t.power - 1)
  {
    BelongsAfterInsert(hash, c, t.primary, t.power, it);
    BelongsAfterInsert(hash, c, t.oldTable, t.power - 1, it);
  }

  lemma LinkSomewhere(hash: Hash, c: Content, t: Tables, it: Item, k: Key)
    requires t.Shaped() && t.expanding && it.key !in c && (k in c ==> Somewhere(hash, c, t, k)) &&
             (k in c || k == it.key)
    ensures Somewhere(hash, c[it.key := it], Inserted(t, hash(it.key), it), k)
  {
    var chain := [it] + t.Home(hash(it.key));
    assert chain[0] == it;
  }

  lemma LinkNotAhead(hash: Hash, c: Content, t: Tables, it: Item)
    requires Moving(hash, c, t) && it.key !in c && Low(hash(it.key), t.power - 1) != t.from
    ensures var t' := Inserted(t, hash(it.key), it);
            t'.oldTable[t.from] == t.oldTable[t.from] && forall x <- t.oldTable[t.from] :: NotAhead(hash, t', x)
  {
    var t' := Inserted(t, hash(it.key), it);
    forall x <- t.oldTable[t.from] ensures NotAhead(hash, t', x) {
      assert NotAhead(hash, t, x);
      assert Belongs(hash, c, t.oldTable[t.from], t.from, t.power - 1);
    }
  }

  lemma LinkKeepsMoving(hash: Hash, c: Content, t: Tables, it: Item)
    requires Moving(hash, c, t) && it.key !in c && Low(hash(it.key), t.power - 1) != t.from
    ensures Moving(hash, c[it.key := it], Inserted(t, hash(it.key), it))
  {
    var c' := c[it.key := it];
    forall k <- c' ensures Somewhere(hash, c', Inserted(t, hash(it.key), it), k) {
      assert k in c ==> Somewhere(hash, c, t, k);
      LinkSomewhere(hash, c, t, it, k);
    }
    LinkBelongs(hash, c, t, it);
    SplitAfterRehome(t, hash(it.key), [it] + t.Home(hash(it.key)));
    LinkNotAhead(hash, c, t, it);
  }

  /** The table that is not the home of the key holds no chain with its item. */
  lemma CutElsewhere(hash: Hash, c: Content, t: Tables, k: Key)
    requires Moving(hash, c, t) && k in c && Low(hash(k), t.power - 1) != t.from
    ensures if t.InOld(hash(k)) then AllBelong(hash, c - {k}, t.primary, t.power)
            else AllBelong(hash, c - {k}, t.oldTable, t.power - 1)
  {
    LowLow(hash(k), t.power, t.power - 1);
    if t.InOld(hash(k)) {
      forall b | 0 <= b < |t.primary| ensures Belongs(hash, c - {k}, t.primary[b], b, t.power) {
        assert Belongs(hash, c, t.primary[b], b, t.power);
        assert FromMigrated(t, b, t.from + 1);
      }
    } else {
      forall b | 0 <= b < |t.oldTable| ensures Belongs(hash, c - {k}, t.oldTable[b], b, t.power - 1) {
        assert Belongs(hash, c, t.oldTable[b], b, t.power - 1);
      }
    }
  }

  lemma CutBelongs(hash: Hash, c: Content, t: Tables, k: Key, i: nat)
    requires Moving(hash, c, t) && k in c && c[k].key == k && Low(hash(k), t.power - 1) != t.from
    requires i < |t.Home(hash(k))| && t.Home(hash(k))[i] == c[k]
    ensures var t' := Deleted(t, hash(k), i);
            AllBelong(hash, c - {k}, t'.primary, t.power) && AllBelong(hash, c - {k}, t'.oldTable, t.power - 1)
  {
    CutElsewhere(hash, c, t, k);
    if t.InOld(hash(k)) {
      BelongsAfterDelete(hash, c, t.oldTable, t.power - 1, k, i);
    } else {
      BelongsAfterDelete(hash, c, t.primary, t.power, k, i);
    }
  }

  lemma CutSomewhere(hash: Hash, c: Content, t: Tables, k: Key, i: nat, x: Key)
    requires t.Shaped() && t.expanding && k in c && c[k].key == k && Low(hash(k), t.power - 1) != t.from
    requires i < |t.Home(hash(k))| && t.Home(hash(k))[i] == c[k]
    requires x in c && x != k && Somewhere(hash, c, t, x)
    ensures Somewhere(hash, c - {k}, Deleted(t, hash(k), i), x)
  {
    var t', rest := Deleted(t, hash(k), i), Without(t.Home(hash(k)), i);
    if c[x] in t.Home(hash(k)) {
      WithoutOne(t.Home(hash(k)), i, c[x]);
    }
    if AtHome(hash, c, t, x) {
      RehomedHome(t, hash(k), rest, hash(x));
    } else {
      LowLow(hash(k), t.power, t.power - 1);
      LowLow(hash(x), t.power, t.power - 1);
    }
  }

  lemma RehomedHome(t: Tables, hv: nat, chain: seq<Item>, other: nat)
    requires t.Shaped()
    ensures var t' := t.Rehome(hv, chain);
            t'.Home(other) == t.Home(other) || (t'.Home(other) == chain && t.Home(other) == t.Home(hv))
  {
  }

  lemma WithoutSubset<T>(s: seq<T>, i: nat)
    requires i < |s|
    ensures forall x <- Without(s, i) :: x in s
  {
  }

  lemma CutNotAhead(hash: Hash, t: Tables, hv: nat, i: nat)
    requires t.Shaped() && t.expanding && t.from < |t.oldTable| && Low(hv, t.power - 1) != t.from && i < |t.Home(hv)|
    requires forall x <- t.oldTable[t.from] {:trigger NotAhead(hash, t, x)} :: NotAhead(hash, t, x)
    ensures var t' := Deleted(t, hv, i);
            t'.oldTable[t.from] == t.oldTable[t.from] && forall x <- t.oldTable[t.from] :: NotAhead(hash, t', x)
  {
    WithoutSubset(t.Home(hv), i);
    var t' := Deleted(t, hv, i);
    forall x <- t.oldTable[t.from] ensures NotAhead(hash, t', x) {
      assert NotAhead(hash, t, x);
    }
  }

  lemma CutKeepsMoving(hash: Hash, c: Content, t: Tables, k: Key, i: nat)
    requires Moving(hash, c, t) && k in c && c[k].key == k && Low(hash(k), t.power - 1) != t.from
    requires i < |t.Home(hash(k))| && t.Home(hash(k))[i] == c[k]
    ensures Moving(hash, c - {k}, Deleted(t, hash(k), i))
  {
    forall x <- c - {k} ensures Somewhere(hash, c - {k}, Deleted(t, hash(k), i), x) {
      assert Somewhere(hash, c, t, x);
      CutSomewhere(hash, c, t, k, i, x);
    }
    CutBelongs(hash, c, t, k, i);
    SplitAfterRehome(t, hash(k), Without(t.Home(hash(k)), i));
    CutNotAhead(hash, t, hash(k), i);
  }

  // ----- every step keeps the map

  /** What stands in a home chain is the map's. */
  lemma HomeIsTheMaps(hash: Hash, c: Content, s: Sys, hv: nat, i: nat)
    requires s.t.Shaped() && Stands(hash, c, s) && i < |s.t.Home(hv)|
    ensures var it := s.t.Home(hv)[i]; it.key in c && c[it.key] == it
  {
    var t := s.t;
    SettledHome(t, hv);
    if t.InOld(hv) {
      assert Belongs(hash, c, t.oldTable[Low(hv, t.power - 1)], Low(hv, t.power - 1), t.power - 1);
    } else {
      assert Belongs(hash, c, t.primary[Low(hv, t.power)], Low(hv, t.power), t.power);
    }
  }

  lemma LinkKeepsMap(hash: Hash, locks: nat, c: Content, s: Sys, w: nat, it: Item)
    requires Inv(hash, locks, c, s) && w < |s.workers| && s.workers[w].AtChain? && hash(it.key) == s.workers[w].hv
    requires it.key !in c
    ensures Stands(hash, c[it.key := it], s.(t := Inserted(s.t, hash(it.key), it)))
  {
    var chain := [it] + s.t.Home(hash(it.key));
    if s.migrator.MovingItems? {
      NotTheirBucket(hash, locks, s, w);
      LinkKeepsMoving(hash, c, s.t, it);
    } else {
      SettledHome(s.t, hash(it.key));
      SettledRehome(s.t, hash(it.key), chain);
      InsertRepresents(hash, c, Settled(s.t), it);
    }
  }

  lemma CutKeepsMap(hash: Hash, locks: nat, c: Content, s: Sys, w: nat, i: nat, k: Key)
    requires Inv(hash, locks, c, s) && w < |s.workers| && s.workers[w].AtChain? && hash(k) == s.workers[w].hv
    requires i < |s.t.Home(hash(k))| && s.t.Home(hash(k))[i].key == k
    ensures Stands(hash, c - {k}, s.(t := Deleted(s.t, hash(k), i)))
  {
    HomeIsTheMaps(hash, c, s, hash(k), i);
    if s.migrator.MovingItems? {
      NotTheirBucket(hash, locks, s, w);
      CutKeepsMoving(hash, c, s.t, k, i);
    } else {
      SettledHome(s.t, hash(k));
      SettledRehome(s.t, hash(k), Without(s.t.Home(hash(k)), i));
      DeleteRepresents(hash, c, Settled(s.t), k, i);
    }
  }

  lemma OtherKeepsMap(hash: Hash, locks: nat, c: Content, s: Sys, step: Locks.Step)
    requires Inv(hash, locks, c, s) && Locks.Enabled(hash, locks, s, step) && !step.Change?
    ensures Stands(hash, c, Locks.Next(hash, locks, s, step))
  {
    match step
    case TryLockBucket => MoveStarts(hash, c, s.t);
    case MoveItem => MoveOne(hash, c, s.t);
    case CountBucket => MoveEnds(hash, c, s.t);
    case Expand => ExpandRepresents(hash, c, s.t);
    case _ =>
  }

  lemma StepKeepsMap(hash: Hash, locks: nat, c: Content, s: Sys, op: Op)
    requires Inv(hash, locks, c, s) && Allowed(hash, s, c, op) && Locks.Enabled(hash, locks, s, StepOf(hash, s, c, op))
    ensures Inv(hash, locks, ContentAfter(hash, s, c, op), Locks.Next(hash, locks, s, StepOf(hash, s, c, op)))
  {
    Locks.StepKeepsInv(hash, locks, s, StepOf(hash, s, c, op));
    match op
    case Other(step) => OtherKeepsMap(hash, locks, c, s, step);
    case Link(w, it) =>
      ChainIsHome(hash, locks, s, w);
      LinkKeepsMap(hash, locks, c, s, w, it);
    case Cut(w, i) =>
      ChainIsHome(hash, locks, s, w);
      CutKeepsMap(hash, locks, c, s, w, i, ChainAt(s, w)[i].key);
  }

  /** What a worker wants to do at its chain it can do. */
  lemma ChangeIsEnabled(hash: Hash, locks: nat, c: Content, s: Sys, op: Op)
    requires Inv(hash, locks, c, s) && Allowed(hash, s, c, op) && !op.Other?
    ensures Locks.Enabled(hash, locks, s, StepOf(hash, s, c, op))
  {
    var t, w := s.t, op.w;
    var hv := s.workers[w].hv;
    if s.workers[w].inOld {
      assert Locks.ChainOf(hash, t.oldTable[Low(hv, t.power - 1)], Low(hv, t.power - 1), t.power - 1);
    } else {
      assert Locks.ChainOf(hash, t.primary[Low(hv, t.power)], Low(hv, t.power), t.power);
    }
    if op.Cut? {
      WithoutSubset(ChainAt(s, w), op.i);
    }
  }

  // ----- over whole runs

  ghost predicate StepAt(hash: Hash, locks: nat, ss: seq<Sys>, cs: seq<Content>, ops: seq<Op>, i: nat)
    requires i < |ops| && |ss| == |cs| == |ops| + 1
  {
    && ss[i].t.Shaped() && Allowed(hash, ss[i], cs[i], ops[i])
    && Locks.Enabled(hash, locks, ss[i], StepOf(hash, ss[i], cs[i], ops[i]))
    && ss[i + 1] == Locks.Next(hash, locks, ss[i], StepOf(hash, ss[i], cs[i], ops[i]))
    && cs[i + 1] == ContentAfter(hash, ss[i], cs[i], ops[i])
  }

  /** It starts with a table that stands for a map and does not expand, and with every thread outside. */
  ghost predicate IsRun(hash: Hash, locks: nat, ss: seq<Sys>, cs: seq<Content>, ops: seq<Op>) {
    && |ss| == |cs| == |ops| + 1
    && Locks.Start(hash, locks, ss[0]) && Represents(hash, cs[0], ss[0].t)
    && forall i {:trigger StepAt(hash, locks, ss, cs, ops, i)} :: 0 <= i < |ops| ==> StepAt(hash, locks, ss, cs, ops, i)
  }

  lemma {:induction false} RunKeepsMap(hash: Hash, locks: nat, ss: seq<Sys>, cs: seq<Content>, ops: seq<Op>, i: nat)
    requires IsRun(hash, locks, ss, cs, ops) && i <= |ops|
    ensures Inv(hash, locks, cs[i], ss[i])
  {
    if i > 0 {
      var p := i - 1;
      RunKeepsMap(hash, locks, ss, cs, ops, p);
      assert StepAt(hash, locks, ss, cs, ops, p);
      StepKeepsMap(hash, locks, cs[p], ss[p], ops[p]);
    }
  }

  /** The chain answers a lookup of the key as the map does. */
  ghost predicate Answers(c: Content, chain: seq<Item>, k: Key) {
    (k in c ==> c[k].key == k && c[k] in chain) && (forall it <- chain :: it.key == k ==> k in c && c[k] == it)
  }

  lemma HomeAnswers(hash: Hash, locks: nat, c: Content, s: Sys, w: nat, k: Key)
    requires Inv(hash, locks, c, s) && w < |s.workers| && !s.workers[w].Outside? && s.workers[w].hv == hash(k)
    ensures Answers(c, s.t.Home(hash(k)), k)
  {
    if s.migrator.MovingItems? {
      NotTheirBucket(hash, locks, s, w);
      assert k in c ==> Somewhere(hash, c, s.t, k);
      forall it <- s.t.Home(hash(k)) ensures it.key in c && c[it.key] == it {
        var i :| 0 <= i < |s.t.Home(hash(k))| && s.t.Home(hash(k))[i] == it;
        HomeIsTheMaps(hash, c, s, hash(k), i);
      }
    } else {
      SettledHome(s.t, hash(k));
      HomeAnswersLookup(hash, c, Settled(s.t), k);
    }
  }

  /** In every reachable state, while other workers link and unlink and the maintenance thread moves items: the chain
      at which a worker stands answers lookups of all keys with the locked hash value. */
  lemma LockedChainAnswers(hash: Hash, locks: nat, ss: seq<Sys>, cs: seq<Content>, ops: seq<Op>, i: nat, w: nat, k: Key)
    requires IsRun(hash, locks, ss, cs, ops) && i <= |ops| && w < |ss[i].workers|
    requires ss[i].workers[w].AtChain? && ss[i].workers[w].hv == hash(k)
    ensures AtTable(ss[i], w) && Answers(cs[i], ChainAt(ss[i], w), k)
  {
    RunKeepsMap(hash, locks, ss, cs, ops, i);
    ChainIsHome(hash, locks, ss[i], w);
    HomeAnswers(hash, locks, cs[i], ss[i], w, k);
  }

  ghost predicate SameEntry(c: Content, d: Content, k: Key) {
    (k in c <==> k in d) && (k in c ==> c[k] == d[k])
  }

  /** The entries of a locked hash value change only by the steps of the worker that holds the lock. */
  lemma OthersKeepEntry(hash: Hash, locks: nat, c: Content, s: Sys, op: Op, w: nat, k: Key)
    requires Inv(hash, locks, c, s) && Allowed(hash, s, c, op)
    requires w < |s.workers| && !s.workers[w].Outside? && s.workers[w].hv == hash(k) && (!op.Other? ==> op.w != w)
    ensures SameEntry(c, ContentAfter(hash, s, c, op), k)
  {
    if !op.Other? {
      assert if op.w < w then Locks.Apart(s, op.w, w, locks) else Locks.Apart(s, w, op.w, locks);
    }
  }

  /** So from the lock to the unlock, whatever the others do, a worker that does not change the chain itself looks at
      one unchanging chain, and finds in it the one entry that the map has had for the key since the lock. */
  lemma {:induction false} LockedEntryIsStable(hash: Hash, locks: nat, ss: seq<Sys>, cs: seq<Content>, ops: seq<Op>,
                                               i: nat, j: nat, w: nat, k: Key)
    requires IsRun(hash, locks, ss, cs, ops) && i <= j <= |ops|
    requires w < |ss[i].workers| && !ss[i].workers[w].Outside? && ss[i].workers[w].hv == hash(k)
    requires forall m :: i <= m < j ==> ops[m] != Other(Locks.Unlock(w)) && (!ops[m].Other? ==> ops[m].w != w)
    ensures |ss[j].workers| == |ss[i].workers| && !ss[j].workers[w].Outside? && ss[j].workers[w].hv == hash(k)
    ensures SameEntry(cs[i], cs[j], k) && Locks.SameHome(ss[i].t, ss[j].t, hash(k))
    ensures Answers(cs[i], ss[j].t.Home(hash(k)), k)
    decreases j - i
  {
    RunKeepsMap(hash, locks, ss, cs, ops, j);
    if i < j {
      var p := j - 1;
      LockedEntryIsStable(hash, locks, ss, cs, ops, i, p, w, k);
      RunKeepsMap(hash, locks, ss, cs, ops, p);
      assert StepAt(hash, locks, ss, cs, ops, p);
      OthersKeepEntry(hash, locks, cs[p], ss[p], ops[p], w, k);
      Locks.OthersKeepHome(hash, locks, ss[p], StepOf(hash, ss[p], cs[p], ops[p]), w);
    }
    HomeAnswers(hash, locks, cs[j], ss[j], w, k);
  }

  // ----- a bucket's move that nobody disturbs

  /** `n` items are moved, one after the other. */
  ghost function MovedItems(hash: Hash, locks: nat, s: Sys, n: nat): Sys
    decreases n
  {
    if n == 0 || !s.t.Shaped() || !Locks.Enabled(hash, locks, s, Locks.MoveItem) then s
    else MovedItems(hash, locks, Locks.Next(hash, locks, s, Locks.MoveItem), n - 1)
  }

  lemma {:induction false} AllItemsMove(hash: Hash, locks: nat, c: Content, s: Sys, n: nat)
    requires Inv(hash, locks, c, s) && s.migrator.MovingItems? && s.t.from < |s.t.oldTable|
    requires n == |s.t.oldTable[s.t.from]|
    ensures var t := MovedItems(hash, locks, s, n);
            && Inv(hash, locks, c, t) && t.migrator == s.migrator && t.workers == s.workers
            && t.t.from == s.t.from && |t.t.oldTable| == |s.t.oldTable| && t.t.power == s.t.power
            && t.t.expanding && t.t.oldTable[s.t.from] == []
    decreases n
  {
    if n > 0 {
      var op := Other(Locks.MoveItem);
      StepKeepsMap(hash, locks, c, s, op);
      AllItemsMove(hash, locks, c, Locks.Next(hash, locks, s, Locks.MoveItem), n - 1);
    }
  }

  /** The maintenance thread alone: it gets the lock of the next bucket, moves all its items, counts it and gives the
      lock back; the expansion ends with the last bucket, and the tables stand for the same map. */
  lemma UndisturbedMove(hash: Hash, locks: nat, c: Content, s: Sys)
    requires Inv(hash, locks, c, s) && Locks.Enabled(hash, locks, s, Locks.TryLockBucket)
    ensures var from, last := s.t.from, s.t.from + 1 == |s.t.oldTable|;
            var s1 := Locks.Next(hash, locks, s, Locks.TryLockBucket);
            var s2 := MovedItems(hash, locks, s1, |s.t.oldTable[from]|);
            && s2.t.Shaped() && Locks.Enabled(hash, locks, s2, Locks.CountBucket)
            && var s3 := Locks.Next(hash, locks, s2, Locks.CountBucket);
               && s3.t.Shaped() && (last ==> Locks.Enabled(hash, locks, s3, Locks.StopExpanding))
               && var s4 := if last then Locks.Next(hash, locks, s3, Locks.StopExpanding) else s3;
                  && s4.t.Shaped() && Locks.Enabled(hash, locks, s4, Locks.UnlockBucket)
                  && var s5 := Locks.Next(hash, locks, s4, Locks.UnlockBucket);
                     && Inv(hash, locks, c, s5) && s5.migrator.Waiting? && s5.workers == s.workers
                     && s5.t.from == from + 1 && (s5.t.expanding <==> !last)
  {
    StepKeepsMap(hash, locks, c, s, Other(Locks.TryLockBucket));
    var s1 := Locks.Next(hash, locks, s, Locks.TryLockBucket);
    AllItemsMove(hash, locks, c, s1, |s.t.oldTable[s.t.from]|);
    var s2 := MovedItems(hash, locks, s1, |s.t.oldTable[s.t.from]|);
    BucketEnds(hash, locks, c, s2);
  }

  lemma BucketEnds(hash: Hash, locks: nat, c: Content, s: Sys)
    requires Inv(hash, locks, c, s) && s.migrator.MovingItems? && s.t.expanding && s.t.from < |s.t.oldTable|
    requires s.t.oldTable[s.t.from] == []
    ensures Locks.Enabled(hash, locks, s, Locks.CountBucket)
    ensures var last, t := s.t.from + 1 == |s.t.oldTable|, Locks.Next(hash, locks, s, Locks.CountBucket);
            && t.t.Shaped() && (last ==> Locks.Enabled(hash, locks, t, Locks.StopExpanding))
            && var u := if last then Locks.Next(hash, locks, t, Locks.StopExpanding) else t;
               && u.t.Shaped() && Locks.Enabled(hash, locks, u, Locks.UnlockBucket)
               && var v := Locks.Next(hash, locks, u, Locks.UnlockBucket);
                  && Inv(hash, locks, c, v) && v.migrator.Waiting? && v.workers == s.workers
                  && v.t.from == s.t.from + 1 && (v.t.expanding <==> !last)
  {
    StepKeepsMap(hash, locks, c, s, Other(Locks.CountBucket));
    var t := Locks.Next(hash, locks, s, Locks.CountBucket);
    if s.t.from + 1 == |s.t.oldTable| {
      StepKeepsMap(hash, locks, c, t, Other(Locks.StopExpanding));
      var u := Locks.Next(hash, locks, t, Locks.StopExpanding);
      StepKeepsMap(hash, locks, c, u, Other(Locks.UnlockBucket));
    } else {
      StepKeepsMap(hash, locks, c, t, Other(Locks.UnlockBucket));
    }
  }
}
