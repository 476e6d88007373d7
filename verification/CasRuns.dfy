/** CAS ids over whole runs (items.c:107-113, 432-452; memcached.c:2600-2744): every link draws a larger
    id, so of all `cas` stores for one key with one token at most one is ever accepted. A run is made of stores,
    fetches, updates, pulls and the item operations, in any order. */
module CasRuns {
  import opened Common
  import opened ItemIndex
  import opened PullTail
  import opened ItemOps
  import opened ItemRuns

  /** The key's item, if it has one afterwards, is the same with the same id, or newer than all before. */
  ghost predicate KeepsCas(x: Index, y: Index, k: Key) {
    k in y.table && y.table[k] in y.items ==>
      || (k in x.table && x.table[k] == y.table[k] && x.table[k] in x.items &&
         y.items[y.table[k]].cas == x.items[x.table[k]].cas)
      || x.lastCas < y.items[y.table[k]].cas <= y.lastCas
  }

  ghost predicate CasGrows(x: Index, y: Index) {
    && y.lastCas >= x.lastCas
    && forall k {:trigger KeepsCas(x, y, k)} :: KeepsCas(x, y, k)
  }

  lemma GrowsChain(x: Index, y: Index, z: Index)
    requires CasGrows(x, y) && CasGrows(y, z)
    ensures CasGrows(x, z)
  {
    forall k ensures KeepsCas(x, z, k) {
      assert KeepsCas(x, y, k) && KeepsCas(y, z, k);
    }
  }

  lemma NothingGrows(x: Index)
    ensures CasGrows(x, x)
  {
    forall k ensures KeepsCas(x, x, k) {
    }
  }

  // ----- every operation draws growing ids

  lemma RetainGrows(x: Index, id: Id)
    requires id in x.items
    ensures CasGrows(x, Retain(x, id))
  {
    forall k ensures KeepsCas(x, Retain(x, id), k) {
    }
  }

  lemma ReleaseGrows(x: Index, id: Id)
    requires id in x.items
    ensures CasGrows(x, Release(x, id))
  {
    forall k ensures KeepsCas(x, Release(x, id), k) {
    }
  }

  lemma UnlinkGrows(x: Index, id: Id)
    requires id in x.items
    ensures CasGrows(x, Unlink(x, id))
  {
    forall k ensures KeepsCas(x, Unlink(x, id), k) {
    }
  }

  lemma LinkGrows(x: Index, id: Id, now: Time)
    requires id in x.items && forall k <- x.table :: x.table[k] != id
    ensures CasGrows(x, Link(x, id, now, true))
  {
    forall k ensures KeepsCas(x, Link(x, id, now, true), k) {
    }
  }

  lemma AllocateGrows(x: Index, id: Id, it: Item)
    requires id !in x.items && forall k <- x.table :: x.table[k] in x.items
    ensures CasGrows(x, Allocate(x, id, it))
  {
    forall k ensures KeepsCas(x, Allocate(x, id, it), k) {
    }
  }

  lemma UpdateGrows(s: Settings, x: Index, id: Id, now: Clock)
    requires id in x.items
    ensures CasGrows(x, Update(s, x, id, now))
  {
    UpdateBumps(s, x, id, now);
    forall k ensures KeepsCas(x, Update(s, x, id, now), k) {
    }
  }

  lemma LoseGrows(x: Index, id: Id)
    requires id in x.items && x.items[id].refcount > 0
    ensures CasGrows(x, Lose(x, id))
  {
    var x1 := Retain(x, id);
    var x2 := Unlink(x1, id);
    RetainGrows(x, id);
    UnlinkGrows(x1, id);
    ReleaseGrows(x2, id);
    GrowsChain(x, x1, x2);
    GrowsChain(x, x2, Release(x2, id));
  }

  lemma PullGrows(c: Call, s: Settings, x: Index, nodes: seq<Node>)
    requires Valid(x) && Strip(nodes) == ListOf(x, c.l)
    ensures CasGrows(x, Run(c, s, Start(c, x, nodes)).x)
  {
    PullTailMeaning(c, s, x, nodes);
    var y := Run(c, s, Start(c, x, nodes)).x;
    forall k ensures KeepsCas(x, y, k) {
      if k in y.table {
        assert KeyOk(y, k);
        assert Account(c, s, x, y, y.table[k]);
        assert ItemOk(x, y.table[k]);
      }
    }
  }

  lemma FetchGrows(s: Settings, x: Index, k: Key, now: Clock)
    requires Findable(x, k)
    ensures CasGrows(x, Fetch(s, x, k, now).0)
  {
    if k in x.table {
      RetainGrows(x, x.table[k]);
      LoseGrows(x, x.table[k]);
    } else {
      forall k' ensures KeepsCas(x, x, k') {
      }
    }
  }

  lemma RefuseGrows(s: Settings, x: Index, k: Key, now: Clock, bump: bool)
    requires Findable(x, k)
    ensures CasGrows(x, Refuse(s, x, k, now, bump))
  {
    FetchGrows(s, x, k, now);
    var (y, r) := Fetch(s, x, k, now);
    if r.Some? {
      if bump {
        UpdateGrows(s, y, r.value, now);
        GrowsChain(x, y, Update(s, y, r.value, now));
      }
      var z := if bump then Update(s, y, r.value, now) else y;
      ReleaseGrows(z, r.value);
      GrowsChain(x, z, Release(z, r.value));
    }
  }

  lemma PutGrows(s: Settings, x: Index, prev: Option<Id>, id: Id, k: Key, now: Clock)
    requires s.useCas && Valid(x) && Unlinked(x, id, k)
    requires prev.Some? ==> prev.value in x.items && prev.value != id
    ensures CasGrows(x, Put(s, x, prev, id, now))
  {
    forall k' <- x.table ensures x.table[k'] != id {
      assert KeyOk(x, k');
    }
    match prev {
      case None => LinkGrows(x, id, now);
      case Some(o) =>
        UnlinkGrows(x, o);
        LinkGrows(Unlink(x, o), id, now);
        GrowsChain(x, Unlink(x, o), Put(s, x, prev, id, now));
    }
  }

  lemma SwapGrows(s: Settings, x: Index, prev: Option<Id>, id: Id, k: Key, now: Clock, joined: bool)
    requires s.useCas && Valid(x) && Unlinked(x, id, k)
    requires prev.Some? ==> prev.value in x.items && prev.value != id
    ensures CasGrows(x, Swap(s, x, prev, id, now, joined))
  {
    PutGrows(s, x, prev, id, k, now);
    var y := Put(s, x, prev, id, now);
    if prev.Some? && prev.value in y.items {
      ReleaseGrows(y, prev.value);
      GrowsChain(x, y, Release(y, prev.value));
    }
    var z := if prev.Some? && prev.value in y.items then Release(y, prev.value) else y;
    if joined && id in z.items {
      ReleaseGrows(z, id);
      GrowsChain(x, z, Release(z, id));
    }
  }

  lemma PutNewGrows(s: Settings, x: Index, k: Key, id: Id, now: Clock)
    requires s.useCas && Valid(x) && Unlinked(x, id, k)
    ensures CasGrows(x, PutNew(s, x, k, id, now))
  {
    FetchMeaning(s, x, k, now);
    FetchKeeps(s, x, k, id, now);
    FetchGrows(s, x, k, now);
    var (y, r) := Fetch(s, x, k, now);
    SwapGrows(s, y, r, id, k, now, false);
    GrowsChain(x, y, Swap(s, y, r, id, now, false));
  }

  lemma MarkGrows(x: Index, id: Id, time: Time, fetched: bool, active: bool)
    requires id in x.items
    ensures CasGrows(x, Mark(x, id, time, fetched, active))
  {
    forall k ensures KeepsCas(x, Mark(x, id, time, fetched, active), k) {
    }
  }

  lemma RelistGrows(x: Index, id: Id, l: ListId, now: Time, active: bool)
    requires id in x.items
    ensures CasGrows(x, Relist(x, id, l, now, active))
  {
    forall k ensures KeepsCas(x, Relist(x, id, l, now, active), k) {
    }
  }

  lemma HitGrows(s: Settings, x: Index, id: Id, now: Clock, queued: bool)
    requires id in x.items
    ensures CasGrows(x, Hit(s, x, id, now, queued))
  {
    var it := x.items[id];
    NothingGrows(x);
    if !s.segmented {
      var y := Mark(x, id, it.time, true, it.active);
      MarkGrows(x, id, it.time, true, it.active);
      UpdateGrows(s, y, id, now);
      GrowsChain(x, y, Update(s, y, id, now));
    } else if !it.active && it.fetched {
      var y := Mark(x, id, it.time, it.fetched, true);
      MarkGrows(x, id, it.time, it.fetched, true);
      MarkGrows(x, id, it.time, it.fetched, false);
      UpdateGrows(s, y, id, now);
      RetainGrows(y, id);
      GrowsChain(x, y, Update(s, y, id, now));
      GrowsChain(x, y, Retain(y, id));
    } else {
      MarkGrows(x, id, it.time, true, it.active);
    }
  }

  lemma PullLeadGrows(s: Settings, now: Time, x: Index, y: Index, k: Key)
    requires PullLeads(s, now, x, y, k)
    ensures CasGrows(x, y)
  {
    var p :| CanPull(now, x, k, p) && y == AfterPull(s, now, x, k, p);
    PullGrows(p.c, s, x, p.nodes);
  }

  lemma {:induction false} PullsGrow(s: Settings, now: Time, k: Key, xs: seq<Index>, i: nat)
    requires PullsTo(s, now, k, xs) && i < |xs|
    ensures CasGrows(xs[0], xs[i])
  {
    if i == 0 {
      NothingGrows(xs[0]);
    } else {
      var p := i - 1;
      PullsGrow(s, now, k, xs, p);
      assert PullAt(s, now, k, xs, p);
      PullLeadGrows(s, now, xs[p], xs[i], k);
      GrowsChain(xs[0], xs[p], xs[i]);
    }
  }

  lemma PulledGrows(s: Settings, now: Time, x: Index, y: Index, k: Key)
    requires Valid(x) && Pulled(s, now, x, y, k)
    ensures CasGrows(x, y)
  {
    var xs :| PullsTo(s, now, k, xs) && xs[0] == x && xs[|xs| - 1] == y;
    PullsGrow(s, now, k, xs, |xs| - 1);
  }

  // ----- do_store_item draws growing ids

  lemma JoinGrows(s: Settings, x: Index, y: Index, z: Index, k: Key, o: Id, nid: Id, it: Item, now: Clock)
    requires s.useCas && CasGrows(x, y) && CasGrows(y, z) && Valid(z) && nid !in z.items && it.key == k
    requires Valid(Allocate(z, nid, it)) && o in z.items && o != nid
    ensures CasGrows(x, Swap(s, Allocate(z, nid, it), Some(o), nid, now, true))
  {
    var w := Allocate(z, nid, it);
    forall k' <- z.table ensures z.table[k'] in z.items {
      assert KeyOk(z, k');
    }
    AllocateGrows(z, nid, it);
    SwapGrows(s, w, Some(o), nid, k, now, true);
    GrowsChain(x, y, z);
    GrowsChain(x, z, w);
    GrowsChain(x, w, Swap(s, w, Some(o), nid, now, true));
  }

  lemma JoinedInGrows(s: Settings, x: Index, y: Index, k: Key, now: Clock, r: Record, z: Index, nid: Id, it: Item)
    requires s.useCas && Valid(x) && Findable(x, k) && JoinedIn(s, x, y, k, now, r, z, nid, it)
    ensures CasGrows(x, y)
  {
    var (f, o) := Fetch(s, x, k, now);
    FetchMeaning(s, x, k, now);
    FetchGrows(s, x, k, now);
    PulledShrinks(s, now, f, z, k);
    PulledGrows(s, now, f, z, k);
    AllocateValid(z, nid, it);
    JoinGrows(s, x, f, z, k, o.value, nid, it, now);
  }

  lemma LeftAloneGrows(s: Settings, x: Index, y: Index, k: Key, now: Clock, z: Index)
    requires Valid(x) && Findable(x, k) && LeftAlone(s, x, y, k, now, z)
    ensures CasGrows(x, y)
  {
    var (f, o) := Fetch(s, x, k, now);
    FetchMeaning(s, x, k, now);
    FetchGrows(s, x, k, now);
    PulledGrows(s, now, f, z, k);
    ReleaseGrows(z, o.value);
    GrowsChain(x, f, z);
    GrowsChain(x, z, y);
  }

  lemma StoresGrow(s: Settings, x: Index, y: Index, cmd: Command, id: Id, now: Clock, room: bool, result: Result)
    requires s.useCas && CanStore(x, id) && Stores(s, x, y, cmd, id, now, room, result)
    ensures CasGrows(x, y)
  {
    var k, e := x.items[id].key, RecordOf(s, x.items[id]);
    var prev := Lookup(s, now, x, k);
    RealData(s, now, x, id);
    var (r, stored) := Meaning(cmd, prev, e, room);
    if stored.Some? {
      if Joins(cmd) {
        var z, nid, it :| JoinedIn(s, x, y, k, now, stored.value, z, nid, it);
        JoinedInGrows(s, x, y, k, now, stored.value, z, nid, it);
      } else {
        PutNewGrows(s, x, k, id, now);
      }
    } else if Joins(cmd) && prev.Some? && r.NotStored? {
      var z :| LeftAlone(s, x, y, k, now, z);
      LeftAloneGrows(s, x, y, k, now, z);
    } else {
      RefuseGrows(s, x, k, now, cmd.Add?);
    }
  }

  // ----- runs

  /** What the threads do. `result` is what the store told its client. */
  datatype Act =
    | Basic(op: Op)
    | Get(k: Key, now: Clock, update: bool, queued: bool)
    | Bump(id: Id, now: Clock)
    | Pull(c: Call, nodes: seq<Node>)
    | Store(cmd: Command, id: Id, now: Clock, room: bool, result: Result)

  ghost function AfterGet(s: Settings, x: Index, k: Key, now: Clock, update: bool, queued: bool): Index
    requires Findable(x, k)
  {
    var (y, r) := Fetch(s, x, k, now);
    if r.Some? && update && r.value in y.items then Hit(s, y, r.value, now, queued) else y
  }

  ghost predicate Does(s: Settings, x: Index, y: Index, a: Act) {
    match a
    case Basic(op) => Enabled(x, op) && (op.Enter? ==> op.useCas == s.useCas) && y == Next(x, op)
    case Get(k, now, update, queued) => Findable(x, k) && y == AfterGet(s, x, k, now, update, queued)
    case Bump(id, now) => id in x.items && y == Update(s, x, id, now)
    case Pull(c, nodes) => Valid(x) && Strip(nodes) == ListOf(x, c.l) && y == Run(c, s, Start(c, x, nodes)).x
    case Store(cmd, id, now, room, result) => CanStore(x, id) && Stores(s, x, y, cmd, id, now, room, result)
  }

  lemma DoesValid(s: Settings, x: Index, y: Index, a: Act)
    requires Valid(x) && Does(s, x, y, a)
    ensures Valid(y)
  {
    match a {
      case Basic(op) => StepKeepsValid(x, op);
      case Get(k, now, update, queued) => GetValid(s, x, k, now, update, queued);
      case Bump(id, now) => UpdateValid(s, x, id, now);
      case Pull(c, nodes) => PullTailMeaning(c, s, x, nodes);
      case Store(cmd, id, now, room, result) => StoresValid(s, x, y, cmd, id, now, room, result);
    }
  }

  lemma GetValid(s: Settings, x: Index, k: Key, now: Clock, update: bool, queued: bool)
    requires Valid(x) && Findable(x, k)
    ensures Valid(AfterGet(s, x, k, now, update, queued))
  {
    FetchMeaning(s, x, k, now);
    var (y, r) := Fetch(s, x, k, now);
    if r.Some? && r.value in y.items {
      HitValid(s, y, r.value, now, queued);
    }
  }

  lemma GetGrows(s: Settings, x: Index, k: Key, now: Clock, update: bool, queued: bool)
    requires Findable(x, k)
    ensures CasGrows(x, AfterGet(s, x, k, now, update, queued))
  {
    FetchGrows(s, x, k, now);
    var (y, r) := Fetch(s, x, k, now);
    if r.Some? && r.value in y.items {
      HitGrows(s, y, r.value, now, queued);
      GrowsChain(x, y, Hit(s, y, r.value, now, queued));
    }
  }

  lemma StepGrows(s: Settings, x: Index, op: Op)
    requires s.useCas && Valid(x) && Enabled(x, op) && (op.Enter? ==> op.useCas)
    ensures CasGrows(x, Next(x, op))
  {
    forall k' <- x.table ensures x.table[k'] in x.items && x.items[x.table[k']].key == k' {
      assert KeyOk(x, k');
    }
    NothingGrows(x);
    match op {
      case Make(id, it) => AllocateGrows(x, id, it);
      case Enter(id, now, _) => LinkGrows(x, id, now);
      case Leave(id) => UnlinkGrows(x, id);
      case Take(id) => RetainGrows(x, id);
      case Give(id) => ReleaseGrows(x, id);
      case Move(id, l, now, active) => RelistGrows(x, id, l, now, active);
      case Touch(id, now, fetched, active) => MarkGrows(x, id, now, fetched, active);
    }
  }

  lemma DoesGrows(s: Settings, x: Index, y: Index, a: Act)
    requires s.useCas && Valid(x) && Does(s, x, y, a)
    ensures CasGrows(x, y)
  {
    match a {
      case Basic(op) => StepGrows(s, x, op);
      case Get(k, now, update, queued) => GetGrows(s, x, k, now, update, queued);
      case Bump(id, now) => UpdateGrows(s, x, id, now);
      case Pull(c, nodes) => PullGrows(c, s, x, nodes);
      case Store(cmd, id, now, room, result) => StoresGrow(s, x, y, cmd, id, now, room, result);
    }
  }

  ghost predicate DoesAt(s: Settings, xs: seq<Index>, acts: seq<Act>, i: nat)
    requires i < |acts| && |xs| == |acts| + 1
  {
    Does(s, xs[i], xs[i + 1], acts[i])
  }

  ghost predicate IsRun(s: Settings, xs: seq<Index>, acts: seq<Act>) {
    && |xs| == |acts| + 1 && xs[0] == Empty()
    && forall i: nat {:trigger DoesAt(s, xs, acts, i)} :: i < |acts| ==> DoesAt(s, xs, acts, i)
  }

  lemma {:induction false} RunValid(s: Settings, xs: seq<Index>, acts: seq<Act>, i: nat)
    requires IsRun(s, xs, acts) && i <= |acts|
    ensures Valid(xs[i])
  {
    if i == 0 {
      EmptyValid();
    } else {
      var p := i - 1;
      RunValid(s, xs, acts, p);
      assert DoesAt(s, xs, acts, p);
      DoesValid(s, xs[p], xs[i], acts[p]);
    }
  }

  lemma RunGrows(s: Settings, xs: seq<Index>, acts: seq<Act>, i: nat)
    requires s.useCas && IsRun(s, xs, acts) && i < |acts|
    ensures CasGrows(xs[i], xs[i + 1])
  {
    RunValid(s, xs, acts, i);
    assert DoesAt(s, xs, acts, i);
    DoesGrows(s, xs[i], xs[i + 1], acts[i]);
  }

  ghost predicate NoNewer(x: Index, k: Key) {
    k in x.table && x.table[k] in x.items ==> x.items[x.table[k]].cas <= x.lastCas
  }

  /** In every reachable state, no linked item is newer than the last id drawn. */
  lemma {:induction false} RunBounded(s: Settings, xs: seq<Index>, acts: seq<Act>, i: nat, k: Key)
    requires s.useCas && IsRun(s, xs, acts) && i <= |acts|
    ensures NoNewer(xs[i], k)
  {
    if i > 0 {
      var p := i - 1;
      RunBounded(s, xs, acts, p, k);
      RunGrows(s, xs, acts, p);
      assert KeepsCas(xs[p], xs[i], k);
    }
  }

  ghost predicate Newer(x: Index, k: Key, cas: nat) {
    k in x.table && x.table[k] in x.items ==> x.items[x.table[k]].cas > cas
  }

  lemma {:induction false} StaysNewer(s: Settings, xs: seq<Index>, acts: seq<Act>, i: nat, j: nat, k: Key, cas: nat)
    requires s.useCas && IsRun(s, xs, acts) && i <= j <= |acts|
    requires Newer(xs[i], k, cas) && cas <= xs[i].lastCas
    ensures Newer(xs[j], k, cas) && cas <= xs[j].lastCas
    decreases j
  {
    if j > i {
      var p := j - 1;
      StaysNewer(s, xs, acts, i, p, k, cas);
      RunGrows(s, xs, acts, p);
      assert KeepsCas(xs[p], xs[j], k);
    }
  }

  /** In this step a `cas` store for the key, whose client sent the token, returned STORED. */
  ghost predicate CasStored(xs: seq<Index>, acts: seq<Act>, i: nat, k: Key, token: nat)
    requires |xs| == |acts| + 1
  {
    && i < |acts| && acts[i].Store? && acts[i].cmd.Cas? && acts[i].result.Stored?
    && acts[i].id in xs[i].items && xs[i].items[acts[i].id].key == k && xs[i].items[acts[i].id].cas == token
  }

  /** The token was the id of the live entry, and the entry has a new one afterwards. */
  lemma CasStoreDraws(s: Settings, x: Index, y: Index, id: Id, now: Clock, room: bool)
    requires s.useCas && CanStore(x, id) && Stores(s, x, y, Cas, id, now, room, Stored)
    ensures var k, token := x.items[id].key, x.items[id].cas;
            && Lookup(s, now, x, k).Some? && Lookup(s, now, x, k).value.cas == token
            && k in x.table && x.table[k] in x.items && x.items[x.table[k]].cas == token
            && Newer(y, k, x.lastCas) && y.lastCas == x.lastCas + 1
  {
    RealData(s, now, x, id);
    PutNewMeaning(s, x, x.items[id].key, id, now, false);
  }

  lemma CasStoredDraws(s: Settings, xs: seq<Index>, acts: seq<Act>, i: nat, k: Key, token: nat)
    requires s.useCas && IsRun(s, xs, acts) && CasStored(xs, acts, i, k, token)
    ensures k in xs[i].table && xs[i].table[k] in xs[i].items && xs[i].items[xs[i].table[k]].cas == token
    ensures Newer(xs[i + 1], k, xs[i].lastCas) && xs[i].lastCas <= xs[i + 1].lastCas
  {
    var a := acts[i];
    assert DoesAt(s, xs, acts, i);
    CasStoreDraws(s, xs[i], xs[i + 1], a.id, a.now, a.room);
  }

  /** Of two `cas` stores for one key with one token in a run, at most one returns STORED. */
  lemma OneWinner(s: Settings, xs: seq<Index>, acts: seq<Act>, i: nat, j: nat, k: Key, token: nat)
    requires s.useCas && IsRun(s, xs, acts) && i < j
    ensures !(CasStored(xs, acts, i, k, token) && CasStored(xs, acts, j, k, token))
  {
    if CasStored(xs, acts, i, k, token) && CasStored(xs, acts, j, k, token) {
      CasStoredDraws(s, xs, acts, i, k, token);
      CasStoredDraws(s, xs, acts, j, k, token);
      RunBounded(s, xs, acts, i, k);
      StaysNewer(s, xs, acts, i + 1, j, k, xs[i].lastCas);
    }
  }

  // ----- without ids

  /** With the ids switched off the token that the client sent is not kept, and that of every entry reads as 0: a
      `cas` store for a live key is accepted, whatever the token. */
  lemma WithoutIdsAllWin(s: Settings, x: Index, y: Index, id: Id, now: Clock, room: bool, result: Result)
    requires !s.useCas && CanStore(x, id) && Stores(s, x, y, Cas, id, now, room, result)
    ensures result == if Lookup(s, now, x, x.items[id].key).Some? then Stored else NotFound
  {
    RealData(s, now, x, id);
  }

  ghost predicate Untouched(x: Index, y: Index, i: Id) {
    i in x.items && i in y.items && y.items[i] == x.items[i] && Held(y, i) == Held(x, i)
  }

  lemma OthersUntouched(x: Index, id: Id, i: Id, now: Time)
    requires id in x.items && i in x.items && i != id
    ensures Untouched(x, Retain(x, id), i) && Untouched(x, Release(x, id), i)
    ensures Untouched(x, Unlink(x, id), i) && Untouched(x, Link(x, id, now, false), i)
  {
  }

  lemma PutOthers(s: Settings, x: Index, o: Id, id: Id, now: Clock, i: Id)
    requires !s.useCas && o in x.items && id in x.items && i in x.items && o != id && i != o && i != id
    ensures Untouched(x, Put(s, x, Some(o), id, now), i)
  {
    OthersUntouched(x, o, i, now);
    OthersUntouched(Unlink(x, o), id, i, now);
  }

  /** A store touches no item but the one that was found and its own. */
  lemma SwapOthers(s: Settings, x: Index, o: Id, id: Id, now: Clock, i: Id)
    requires !s.useCas && o in x.items && id in x.items && i in x.items && o != id && i != o && i != id
    ensures Untouched(x, Swap(s, x, Some(o), id, now, false), i)
  {
    PutOthers(s, x, o, id, now, i);
    var y := Put(s, x, Some(o), id, now);
    if o in y.items {
      OthersUntouched(y, o, i, now);
    }
  }

  lemma PutNewOthers(s: Settings, x: Index, k: Key, id: Id, now: Clock, other: Id)
    requires !s.useCas && Valid(x) && Unlinked(x, id, k) && Unlinked(x, other, k) && other != id
    requires Lookup(s, now, x, k).Some?
    ensures Untouched(x, PutNew(s, x, k, id, now), other)
  {
    FetchMeaning(s, x, k, now);
    FetchKeeps(s, x, k, id, now);
    FetchKeeps(s, x, k, other, now);
    var (y, r) := Fetch(s, x, k, now);
    OthersUntouched(x, r.value, other, now);
    SwapOthers(s, y, r.value, id, now, other);
  }

  /** A new item that does not expire is live while nothing has been flushed. */
  lemma StoredIsLive(s: Settings, x: Index, k: Key, id: Id, now: Clock)
    requires Valid(x) && Unlinked(x, id, k) && x.items[id].exptime == 0 && s.oldestLive == 0
    ensures Valid(PutNew(s, x, k, id, now)) && Lookup(s, now, PutNew(s, x, k, id, now), k).Some?
  {
    PutNewMeaning(s, x, k, id, now, false);
  }

  lemma LiveCasStores(s: Settings, x: Index, id: Id, now: Clock)
    requires !s.useCas && CanStore(x, id) && Lookup(s, now, x, x.items[id].key).Some?
    ensures Stores(s, x, PutNew(s, x, x.items[id].key, id, now), Cas, id, now, true, Stored)
  {
    RealData(s, now, x, id);
  }

  const KEY_K: Key := [107]

  /** ASCII "k" with an empty value, for ever, as an item of 58 bytes in all; `cas` is what the client sent. */
  function Unborn(token: nat): Item {
    Item(KEY_K, [13, 10], 0, 0, 0, token, 58, ListId(1, Cold), false, false, false, 1)
  }

  const IDS_OFF := Settings(false, false, true, 32, 32, 0, 0, false, 61)

  /** One item is linked, and two clients have sent theirs. */
  lemma ThreeItems(token: nat) returns (xs: seq<Index>, acts: seq<Act>)
    ensures IsRun(IDS_OFF, xs, acts) && |acts| == 4
    ensures var x := xs[4];
            && Valid(x) && Lookup(IDS_OFF, 62, x, KEY_K).Some?
            && Unlinked(x, 1, KEY_K) && x.items[1] == Unborn(token) && Unlinked(x, 2, KEY_K) &&
               x.items[2] == Unborn(token)
  {
    acts := [Basic(Make(0, Unborn(0))), Basic(Enter(0, 62, false)), Basic(Make(1, Unborn(token))),
      Basic(Make(2, Unborn(token)))];
    var x1 := Allocate(Empty(), 0, Unborn(0));
    var x2 := Link(x1, 0, 62, false);
    var x3 := Allocate(x2, 1, Unborn(token));
    var x4 := Allocate(x3, 2, Unborn(token));
    xs := [Empty(), x1, x2, x3, x4];
    assert DoesAt(IDS_OFF, xs, acts, 0) && DoesAt(IDS_OFF, xs, acts, 1);
    assert DoesAt(IDS_OFF, xs, acts, 2) && DoesAt(IDS_OFF, xs, acts, 3);
    RunValid(IDS_OFF, xs, acts, 4);
  }

  lemma RunSnoc(s: Settings, xs: seq<Index>, acts: seq<Act>, y: Index, a: Act)
    requires IsRun(s, xs, acts) && Does(s, xs[|acts|], y, a)
    ensures IsRun(s, xs + [y], acts + [a])
  {
    forall i: nat | i < |acts| + 1 ensures DoesAt(s, xs + [y], acts + [a], i) {
      assert i < |acts| ==> DoesAt(s, xs, acts, i);
    }
  }

  /** A client's item is ready to be stored in place of a live entry. */
  ghost predicate Ready(x: Index, id: Id, token: nat) {
    CanStore(x, id) && x.items[id] == Unborn(token) && Lookup(IDS_OFF, 62, x, KEY_K).Some?
  }

  ghost predicate StoredFrom(x: Index, y: Index, id: Id) {
    Does(IDS_OFF, x, y, Store(Cas, id, 62, true, Stored))
  }

  lemma ReadyStores(x: Index, id: Id, other: Id, token: nat) returns (y: Index)
    requires Ready(x, id, token) && other != id
    ensures StoredFrom(x, y, id) && (Ready(x, other, token) ==> Ready(y, other, token))
  {
    y := PutNew(IDS_OFF, x, KEY_K, id, 62);
    StoredIsLive(IDS_OFF, x, KEY_K, id, 62);
    LiveCasStores(IDS_OFF, x, id, 62);
    if Ready(x, other, token) {
      PutNewOthers(IDS_OFF, x, KEY_K, id, 62, other);
    }
  }

  /** Two clients send `cas` for one key with the same token, and both are told STORED. */
  lemma BothAreStored(token: nat) returns (xs: seq<Index>, acts: seq<Act>)
    ensures IsRun(IDS_OFF, xs, acts) && |acts| == 6
    ensures CasStored(xs, acts, 4, KEY_K, token) && CasStored(xs, acts, 5, KEY_K, token)
  {
    xs, acts := ThreeItems(token);
    var x := xs[4];
    var y := ReadyStores(x, 1, 2, token);
    var z := ReadyStores(y, 2, 1, token);
    var a, b := Store(Cas, 1, 62, true, Stored), Store(Cas, 2, 62, true, Stored);
    RunSnoc(IDS_OFF, xs, acts, y, a);
    xs, acts := xs + [y], acts + [a];
    assert xs[4] == x && xs[5] == y && acts[4] == a;
    RunSnoc(IDS_OFF, xs, acts, z, b);
    xs, acts := xs + [z], acts + [b];
  }
}
