/** do_item_update, do_item_get, do_item_replace (items.c) and do_store_item (memcached.c) as functions of
    the item index, and the finite map with compare-and-swap ids that they implement. */
module ItemOps {
  import opened Common
  import opened ItemIndex
  import opened PullTail

  datatype Command = Add | Set | Replace | Append | Prepend | Cas
  datatype Result = Stored | NotStored | Exists | NotFound

  /** What a client can see of an item. The data ends with the line end of two bytes. */
  datatype Record = Record(data: seq<byte>, flags: nat, exptime: Time, cas: nat)

  function RecordOf(s: Settings, it: Item): Record {
    Record(it.data, it.flags, it.exptime, CasOf(s, it))
  }

  /** Neither flushed nor expired, as do_item_get sees it. */
  predicate Live(s: Settings, now: Time, it: Item) {
    !Flushed(s, now, it) && (it.exptime == 0 || it.exptime > now)
  }

  /** The map from keys to entries that clients see. */
  function Lookup(s: Settings, now: Time, x: Index, k: Key): Option<Record> {
    if k in x.table && x.table[k] in x.items && Live(s, now, x.items[x.table[k]])
    then Some(RecordOf(s, x.items[x.table[k]])) else None
  }

  predicate Findable(x: Index, k: Key) {
    k in x.table ==> x.table[k] in x.items && x.items[x.table[k]].refcount > 0
  }

  // ----- the commands on a map

  /** The result, and the entry that is stored if one is; its cas id is drawn when it is stored. `room`
      says whether the memory for a joined value can be had. */
  function Meaning(cmd: Command, prev: Option<Record>, e: Record, room: bool): (Result, Option<Record>)
    requires |e.data| >= 2 && (prev.Some? ==> |prev.value.data| >= 2)
  {
    match cmd
    case Set => (Stored, Some(e))
    case Add => if prev.Some? then (NotStored, None) else (Stored, Some(e))
    case Replace => if prev.Some? then (Stored, Some(e)) else (NotStored, None)
    case Cas =>
      if prev.None? then (NotFound, None)
      else if e.cas == prev.value.cas then (Stored, Some(e))
      else (Exists, None)
    case _ =>
      if prev.None? then (NotStored, None)
      else if e.cas != 0 && e.cas != prev.value.cas then (Exists, None)
      else if !room then (NotStored, None)
      else (Stored, Some(Joined(cmd, prev.value, e)))
  }

  /** The new data goes behind or in front of the old, with one line end; flags and expiry stay. */
  function Joined(cmd: Command, prev: Record, e: Record): Record
    requires |e.data| >= 2 && |prev.data| >= 2
  {
    Record(JoinedData(cmd, prev.data, e.data), prev.flags, prev.exptime, 0)
  }

  function JoinedData(cmd: Command, found: seq<byte>, data: seq<byte>): seq<byte>
    requires |found| >= 2 && |data| >= 2
  {
    if cmd.Append? then found[..|found| - 2] + data else data[..|data| - 2] + found
  }

  /** The data without its line end. */
  function ValueOf(data: seq<byte>): seq<byte>
    requires |data| >= 2
  {
    data[..|data| - 2]
  }

  /** Clients see the two values behind each other, and the joined data ends as the last part does. */
  lemma JoinedValues(cmd: Command, found: seq<byte>, data: seq<byte>)
    requires |found| >= 2 && |data| >= 2
    ensures var j := JoinedData(cmd, found, data);
            && |j| == |found| + |data| - 2
            && ValueOf(j) == (if cmd.Append? then ValueOf(found) + ValueOf(data) else ValueOf(data) + ValueOf(found))
            && j[|j| - 2..] == (if cmd.Append? then data[|data| - 2..] else found[|found| - 2..])
  {
  }

  /** One `cas` id is drawn for each link, unless they are switched off. */
  function NextCas(s: Settings, x: Index): nat {
    if s.useCas then x.lastCas + 1 else x.lastCas
  }

  // ----- the item operations

  function Update(s: Settings, x: Index, id: Id, now: Clock): Index
    requires id in x.items
  {
    var it := x.items[id];
    if s.segmented then
      if !it.linked then x
      else if it.place.lru.Cold? && it.active then Relist(x, id, ListId(it.place.cls, Warm), now, false)
      else if it.time < Elapsed(now, 60) then Mark(x, id, now, it.fetched, it.active)
      else x
    else if it.time < Elapsed(now, 60) && it.linked then Relist(x, id, it.place, now, it.active)
    else x
  }

  /** The hit marks of a fetch. `queued` says whether a bump buffer had room for the item. */
  function Hit(s: Settings, x: Index, id: Id, now: Clock, queued: bool): Index
    requires id in x.items
  {
    var it := x.items[id];
    if !s.segmented then Update(s, Mark(x, id, it.time, true, it.active), id, now)
    else if it.active then x
    else if !it.fetched then Mark(x, id, it.time, true, it.active)
    else
      var y := Mark(x, id, it.time, it.fetched, true);
      if !it.place.lru.Cold? then Update(s, y, id, now)
      else if queued then Retain(y, id)
      else Mark(x, id, it.time, it.fetched, false)
  }

  /** do_item_get without the hit marks: what is found is retained, or unlinked if it is not live. */
  function Fetch(s: Settings, x: Index, k: Key, now: Clock): (Index, Option<Id>)
    requires Findable(x, k)
  {
    if k !in x.table then (x, None)
    else
      var id := x.table[k];
      if Live(s, now, x.items[id]) then (Retain(x, id), Some(id)) else (Lose(x, id), None)
  }

  /** The item is linked in place of the old one, or where there was none. */
  function Put(s: Settings, x: Index, prev: Option<Id>, id: Id, now: Clock): Index
    requires id in x.items && (prev.Some? ==> prev.value in x.items && prev.value != id)
  {
    match prev
    case None => Link(x, id, now, s.useCas)
    case Some(o) => Link(Unlink(x, o), id, now, s.useCas)
  }

  // ----- they show clients what the map says

  ghost predicate SameFor(s: Settings, now: Time, x: Index, y: Index, k: Key) {
    Lookup(s, now, x, k) == Lookup(s, now, y, k)
  }

  /** In order as before, with the same map, and no `cas` id drawn. */
  ghost predicate Unseen(s: Settings, now: Time, x: Index, y: Index) {
    && Valid(y) && y.lastCas == x.lastCas
    && forall k {:trigger SameFor(s, now, x, y, k)} :: SameFor(s, now, x, y, k)
  }

  lemma UnseenChain(s: Settings, now: Time, x: Index, y: Index, z: Index)
    requires Unseen(s, now, x, y) && Unseen(s, now, y, z)
    ensures Unseen(s, now, x, z)
  {
    forall k ensures SameFor(s, now, x, z, k) {
      assert SameFor(s, now, x, y, k) && SameFor(s, now, y, z, k);
    }
  }

  lemma RetainUnseen(s: Settings, now: Time, x: Index, id: Id)
    requires Valid(x) && id in x.items
    ensures Unseen(s, now, x, Retain(x, id))
  {
    RetainValid(x, id);
    forall k ensures SameFor(s, now, x, Retain(x, id), k) {
    }
  }

  lemma ReleaseUnseen(s: Settings, now: Time, x: Index, id: Id)
    requires Valid(x) && id in x.items && Held(x, id) > 0
    ensures Unseen(s, now, x, Release(x, id))
  {
    ReleaseValid(x, id);
    var y := Release(x, id);
    forall k ensures SameFor(s, now, x, y, k) {
      if k in x.table {
        assert KeyOk(x, k) && KeyOk(y, k);
      }
    }
  }

  /** Only an item that clients cannot see any more is dropped by a fetch. */
  lemma LoseUnseen(s: Settings, now: Time, x: Index, id: Id)
    requires Valid(x) && id in x.items && x.items[id].linked && !Live(s, now, x.items[id])
    ensures x.items[id].refcount > 0 && Unseen(s, now, x, Lose(x, id))
  {
    LoseFacts(x, id);
    LinkedFacts(x, id);
    var y := Lose(x, id);
    forall k ensures SameFor(s, now, x, y, k) {
      if k in x.table {
        assert KeyOk(x, k);
        assert x.table[k] != id ==> SameAt(x, y, x.table[k]);
      }
    }
  }

  /** Same map, references and items but for the list, time and hit mark of one. */
  ghost predicate Bumps(x: Index, y: Index, id: Id, now: Time)
    requires id in x.items
  {
    && y.table == x.table && y.lastCas == x.lastCas && y.held == x.held && id in y.items
    && y.items == x.items[id := y.items[id]]
    && (exists l, active, time {:trigger x.items[id].(place := l, time := time, active := active)} ::
         (time == x.items[id].time || time == now) &&
           y.items[id] == x.items[id].(place := l, time := time, active := active))
  }

  lemma RelistBumps(x: Index, id: Id, l: ListId, now: Time, active: bool)
    requires id in x.items
    ensures Bumps(x, Relist(x, id, l, now, active), id, now)
  {
    var y := Relist(x, id, l, now, active);
    assert y.items[id] == x.items[id].(place := l, time := now, active := active);
  }

  lemma UpdateBumps(s: Settings, x: Index, id: Id, now: Clock)
    requires id in x.items
    ensures Bumps(x, Update(s, x, id, now), id, now)
  {
    var it := x.items[id];
    RelistBumps(x, id, ListId(it.place.cls, Warm), now, false);
    RelistBumps(x, id, it.place, now, it.active);
    var y := Mark(x, id, now, it.fetched, it.active);
    assert y.items[id] == it.(place := it.place, time := now, active := it.active);
    assert x.items == x.items[id := it.(place := it.place, time := it.time, active := it.active)];
  }

  lemma UpdateUnseen(s: Settings, x: Index, id: Id, now: Clock)
    requires Valid(x) && id in x.items && Live(s, now, x.items[id]) && x.items[id].time <= now
    ensures Unseen(s, now, x, Update(s, x, id, now))
  {
    UpdateBumps(s, x, id, now);
    UpdateValid(s, x, id, now);
    BumpsUnseen(s, now, x, Update(s, x, id, now), id);
  }

  lemma BumpsUnseen(s: Settings, now: Time, x: Index, y: Index, id: Id)
    requires id in x.items && Bumps(x, y, id, now) && Live(s, now, x.items[id]) && x.items[id].time <= now
    ensures forall k {:trigger SameFor(s, now, x, y, k)} :: SameFor(s, now, x, y, k)
  {
    assert Live(s, now, y.items[id]);
    forall k ensures SameFor(s, now, x, y, k) {
    }
  }

  lemma UpdateValid(s: Settings, x: Index, id: Id, now: Clock)
    requires Valid(x) && id in x.items
    ensures Valid(Update(s, x, id, now))
  {
    var it := x.items[id];
    if s.segmented {
      if it.linked && it.place.lru.Cold? && it.active {
        RelistValid(x, id, ListId(it.place.cls, Warm), now, false);
      } else {
        MarkValid(x, id, now, it.fetched, it.active);
      }
    } else if it.linked {
      RelistValid(x, id, it.place, now, it.active);
    }
  }

  /** Every thread and queue holds what it held. */
  ghost predicate SameRefs(x: Index, y: Index) {
    forall i {:trigger Held(y, i)} :: Held(y, i) == Held(x, i)
  }

  lemma Finds(x: Index, k: Key)
    requires Valid(x)
    ensures Findable(x, k)
  {
    if k in x.table {
      assert KeyOk(x, k);
      assert ItemOk(x, x.table[k]);
    }
  }

  /** The thread has taken a reference to what it found. */
  ghost predicate Took(x: Index, y: Index, found: Option<Id>) {
    forall i: Id {:trigger Held(y, i)} :: Held(y, i) == Held(x, i) + (if found == Some(i) then 1 else 0)
  }

  lemma FetchLive(s: Settings, now: Time, x: Index, id: Id)
    requires Valid(x) && id in x.items
    ensures Unseen(s, now, x, Retain(x, id)) && Took(x, Retain(x, id), Some(id))
  {
    RetainUnseen(s, now, x, id);
  }

  lemma FetchDead(s: Settings, now: Time, x: Index, id: Id)
    requires Valid(x) && id in x.items && x.items[id].linked && !Live(s, now, x.items[id])
    ensures x.items[id].refcount > 0 && x.items[id].key !in Lose(x, id).table
    ensures Unseen(s, now, x, Lose(x, id)) && Took(x, Lose(x, id), None)
  {
    LoseUnseen(s, now, x, id);
    LoseFacts(x, id);
    forall i ensures Held(Lose(x, id), i) == Held(x, i) {
      assert i != id ==> SameAt(x, Lose(x, id), i);
    }
  }

  /** A fetch finds what the map holds, and retains it. What it does not find is not in the table. */
  lemma FetchMeaning(s: Settings, x: Index, k: Key, now: Clock)
    requires Valid(x)
    ensures Findable(x, k)
    ensures var (y, r) := Fetch(s, x, k, now);
            && Unseen(s, now, x, y)
            && (r.None? <==> Lookup(s, now, x, k).None?) && (r.None? <==> k !in y.table)
            && Took(x, y, r)
            && (r.Some? ==> k in x.table && r.value == x.table[k] && y == Retain(x, r.value)
                            && Live(s, now, y.items[r.value])
                            && Lookup(s, now, x, k) == Some(RecordOf(s, y.items[r.value]))
                            && y.items[r.value].linked && y.items[r.value].key == k)
  {
    Finds(x, k);
    if k in x.table {
      assert KeyOk(x, k);
      var id := x.table[k];
      if Live(s, now, x.items[id]) {
        FetchLive(s, now, x, id);
      } else {
        FetchDead(s, now, x, id);
      }
    }
  }

  /** The key holds a record that was linked at a time. */
  ghost predicate StoredAs(s: Settings, x: Index, k: Key, id: Id, r: Record, now: Time) {
    && k in x.table && x.table[k] == id && id in x.items
    && RecordOf(s, x.items[id]) == r && x.items[id].time == now
  }

  lemma ReleaseStored(s: Settings, x: Index, i: Id, k: Key, id: Id, r: Record, now: Time)
    requires Valid(x) && i in x.items && Held(x, i) > 0 && StoredAs(s, x, k, id, r, now)
    ensures StoredAs(s, Release(x, i), k, id, r, now)
  {
    assert KeyOk(x, k);
    ReleaseValid(x, i);
  }

  function Drawn(s: Settings, x: Index, r: Record): Record {
    r.(cas := if s.useCas then x.lastCas + 1 else 0)
  }

  ghost predicate Unlinked(x: Index, id: Id, k: Key) {
    id in x.items && !x.items[id].linked && x.items[id].key == k && Held(x, id) > 0
  }

  lemma LinkMeaning(s: Settings, x: Index, id: Id, now: Clock)
    requires Valid(x) && id in x.items && x.items[id].key !in x.table
    ensures var y, k := Link(x, id, now, s.useCas), x.items[id].key;
            && Valid(y) && y.lastCas == NextCas(s, x) && SameRefs(x, y)
            && StoredAs(s, y, k, id, Drawn(s, x, RecordOf(s, x.items[id])), now)
            && (forall k' {:trigger SameFor(s, now, x, y, k')} :: k' != k ==> SameFor(s, now, x, y, k'))
  {
    LinkValid(x, id, now, s.useCas);
    var y, k := Link(x, id, now, s.useCas), x.items[id].key;
    assert ItemOk(x, id);
    forall k' | k' != k ensures SameFor(s, now, x, y, k') {
      if k' in x.table {
        assert KeyOk(x, k');
      }
    }
  }

  lemma UnlinkMeaning(s: Settings, x: Index, o: Id, now: Clock)
    requires Valid(x) && o in x.items && x.items[o].linked && Held(x, o) > 0
    ensures var y, k := Unlink(x, o), x.items[o].key;
            && Valid(y) && y.lastCas == x.lastCas && SameRefs(x, y) && k !in y.table && o in y.items
            && (forall i <- x.items :: i != o ==> i in y.items && y.items[i] == x.items[i])
            && (forall k' {:trigger SameFor(s, now, x, y, k')} :: k' != k ==> SameFor(s, now, x, y, k'))
  {
    forall k' <- x.table ensures k' != x.items[o].key ==> x.table[k'] != o {
      assert KeyOk(x, k');
    }
    UnlinkOthers(s, x, o, now);
    UnlinkValid(x, o);
  }

  lemma UnlinkOthers(s: Settings, x: Index, o: Id, now: Clock)
    requires o in x.items && forall k' {:trigger x.table[k']} :: k' in x.table && k' != x.items[o].key ==>
             x.table[k'] != o
    ensures var y, k := Unlink(x, o), x.items[o].key;
            forall k' {:trigger SameFor(s, now, x, y, k')} :: k' != k ==> SameFor(s, now, x, y, k')
  {
    var y, k := Unlink(x, o), x.items[o].key;
    forall k' | k' != k ensures SameFor(s, now, x, y, k') {
    }
  }

  /** A record has been linked for a key; the map is the same for all other keys. */
  ghost predicate Swapped(s: Settings, now: Time, x: Index, y: Index, k: Key, id: Id, r: Record) {
    && Valid(y) && y.lastCas == NextCas(s, x) && StoredAs(s, y, k, id, r, now)
    && (forall k' {:trigger SameFor(s, now, x, y, k')} :: k' != k ==> SameFor(s, now, x, y, k'))
  }

  lemma PutChain(s: Settings, now: Time, x: Index, y: Index, z: Index, k: Key)
    requires forall k' {:trigger SameFor(s, now, x, y, k')} :: k' != k ==> SameFor(s, now, x, y, k')
    requires forall k' {:trigger SameFor(s, now, y, z, k')} :: k' != k ==> SameFor(s, now, y, z, k')
    requires SameRefs(x, y) && SameRefs(y, z)
    ensures forall k' {:trigger SameFor(s, now, x, z, k')} :: k' != k ==> SameFor(s, now, x, z, k')
    ensures SameRefs(x, z)
  {
    forall k' | k' != k ensures SameFor(s, now, x, z, k') {
      assert SameFor(s, now, x, y, k') && SameFor(s, now, y, z, k');
    }
    forall i: Id ensures Held(z, i) == Held(x, i) {
      assert Held(y, i) == Held(x, i);
    }
  }

  lemma PutMeaning(s: Settings, x: Index, prev: Option<Id>, id: Id, k: Key, now: Clock)
    requires Valid(x) && Unlinked(x, id, k)
    requires match prev
             case None => k !in x.table
             case Some(o) => o in x.items && x.items[o].linked && x.items[o].key == k && Held(x, o) > 0
    ensures var y := Put(s, x, prev, id, now);
            && Swapped(s, now, x, y, k, id, Drawn(s, x, RecordOf(s, x.items[id]))) && SameRefs(x, y)
            && (prev.Some? ==> prev.value in y.items)
  {
    match prev {
      case None => LinkMeaning(s, x, id, now);
      case Some(o) =>
        UnlinkMeaning(s, x, o, now);
        var z := Unlink(x, o);
        LinkMeaning(s, z, id, now);
        PutChain(s, now, x, z, Link(z, id, now, s.useCas), k);
    }
  }

  lemma HitValid(s: Settings, x: Index, id: Id, now: Clock, queued: bool)
    requires Valid(x) && id in x.items
    ensures Valid(Hit(s, x, id, now, queued))
  {
    var it := x.items[id];
    if !s.segmented {
      MarkValid(x, id, it.time, true, it.active);
      UpdateValid(s, Mark(x, id, it.time, true, it.active), id, now);
    } else if !it.active {
      if !it.fetched {
        MarkValid(x, id, it.time, true, it.active);
      } else {
        var y := Mark(x, id, it.time, it.fetched, true);
        MarkValid(x, id, it.time, it.fetched, true);
        if !it.place.lru.Cold? {
          UpdateValid(s, y, id, now);
        } else if queued {
          RetainValid(y, id);
        } else {
          MarkValid(x, id, it.time, it.fetched, false);
        }
      }
    }
  }

  // ----- do_store_item

  /** What a store does to the map and the references. `partial` allows entries of other keys to have been
      reclaimed or evicted to make room for a joined value. */
  ghost predicate StoreEffect(s: Settings, now: Time, x: Index, y: Index, k: Key, r: Option<Record>, partial: bool) {
    && Valid(y) && SameRefs(x, y)
    && (match r
        case None => SameFor(s, now, x, y, k) && y.lastCas == x.lastCas
        case Some(e) =>
          y.lastCas == NextCas(s, x) && k in y.table && StoredAs(s, y, k, y.table[k], Drawn(s, x, e), now))
    && (forall k' {:trigger SameFor(s, now, x, y, k')} :: k' != k ==>
          SameFor(s, now, x, y, k') || (partial && Lookup(s, now, y, k').None?))
  }

  /** Nothing is stored; what an add found is bumped. */
  ghost function Refuse(s: Settings, x: Index, k: Key, now: Clock, bump: bool): Index
    requires Findable(x, k)
  {
    var (y, r) := Fetch(s, x, k, now);
    if r.None? then y
    else
      var z := if bump then Update(s, y, r.value, now) else y;
      assert r.value in z.items;
      Release(z, r.value)
  }

  lemma GiveBack(x: Index, y: Index, z: Index, id: Id)
    requires Took(x, y, Some(id)) && z.held == y.held && id in z.items
    ensures SameRefs(x, Release(z, id))
  {
    forall i: Id ensures Held(Release(z, id), i) == Held(x, i) {
      assert Held(y, i) == Held(x, i) + (if i == id then 1 else 0);
    }
  }

  lemma RefuseMeaning(s: Settings, x: Index, k: Key, now: Clock, bump: bool, partial: bool)
    requires Valid(x) && (bump && k in x.table && x.table[k] in x.items ==> x.items[x.table[k]].time <= now)
    ensures Findable(x, k) && StoreEffect(s, now, x, Refuse(s, x, k, now, bump), k, None, partial)
  {
    FetchMeaning(s, x, k, now);
    var (y, r) := Fetch(s, x, k, now);
    if r.Some? {
      var id := r.value;
      var z := if bump then Update(s, y, id, now) else y;
      if bump {
        UpdateUnseen(s, y, id, now);
        UpdateBumps(s, y, id, now);
        UnseenChain(s, now, x, y, z);
      }
      ReleaseUnseen(s, now, z, id);
      UnseenChain(s, now, x, z, Release(z, id));
      GiveBack(x, y, z, id);
    }
  }

  /** The item is linked, in place of the one that was found, and the references that the store itself
      took are given back: to the item found, and to a joined item. */
  ghost function Swap(s: Settings, x: Index, prev: Option<Id>, id: Id, now: Clock, joined: bool): Index
    requires id in x.items && (prev.Some? ==> prev.value in x.items && prev.value != id)
  {
    var y := Put(s, x, prev, id, now);
    var z := if prev.Some? && prev.value in y.items then Release(y, prev.value) else y;
    if joined && id in z.items then Release(z, id) else z
  }

  /** Held references go down for the item found and for a joined item, by one each. */
  ghost predicate GivenBack(x: Index, y: Index, prev: Option<Id>, id: Id, joined: bool) {
    forall i {:trigger Held(y, i)} ::
      Held(y, i) == Held(x, i) - (if prev == Some(i) then 1 else 0) - (if joined && i == id then 1 else 0)
  }

  lemma ReleaseSwapped(s: Settings, now: Time, x: Index, y: Index, k: Key, id: Id, r: Record, i: Id)
    requires Swapped(s, now, x, y, k, id, r) && i in y.items && Held(y, i) > 0
    ensures Swapped(s, now, x, Release(y, i), k, id, r)
    ensures forall j {:trigger Held(Release(y, i), j)} ::
            Held(Release(y, i), j) == Held(y, j) - (if j == i then 1 else 0)
    ensures id in Release(y, i).items
  {
    ReleaseUnseen(s, now, y, i);
    ReleaseStored(s, y, i, k, id, r, now);
    forall k' | k' != k ensures SameFor(s, now, x, Release(y, i), k') {
      assert SameFor(s, now, x, y, k') && SameFor(s, now, y, Release(y, i), k');
    }
  }

  lemma SwapMeaning(s: Settings, x: Index, prev: Option<Id>, id: Id, k: Key, now: Clock, joined: bool)
    requires Valid(x) && Unlinked(x, id, k)
    requires match prev
             case None => k !in x.table
             case Some(o) => o in x.items && x.items[o].linked && x.items[o].key == k && Held(x, o) > 0
    ensures var y := Swap(s, x, prev, id, now, joined);
            && Swapped(s, now, x, y, k, id, Drawn(s, x, RecordOf(s, x.items[id]))) && GivenBack(x, y, prev, id, joined)
  {
    SwapFirst(s, x, prev, id, k, now);
    if joined {
      ReleaseSwapped(s, now, x, Swap(s, x, prev, id, now, false), k, id, Drawn(s, x, RecordOf(s, x.items[id])), id);
    }
  }

  lemma SwapFirst(s: Settings, x: Index, prev: Option<Id>, id: Id, k: Key, now: Clock)
    requires Valid(x) && Unlinked(x, id, k)
    requires match prev
             case None => k !in x.table
             case Some(o) => o in x.items && x.items[o].linked && x.items[o].key == k && Held(x, o) > 0
    ensures var y := Swap(s, x, prev, id, now, false);
            && Swapped(s, now, x, y, k, id, Drawn(s, x, RecordOf(s, x.items[id]))) && GivenBack(x, y, prev, id, false)
            && id in y.items && Held(y, id) > 0
  {
    PutMeaning(s, x, prev, id, k, now);
    var y := Put(s, x, prev, id, now);
    assert forall i {:trigger Held(y, i)} :: Held(y, i) == Held(x, i);
    if prev.Some? {
      ReleaseSwapped(s, now, x, y, k, id, Drawn(s, x, RecordOf(s, x.items[id])), prev.value);
    }
  }

  /** Each reference given back in a swap is there to be given back. */
  lemma SwapSteps(s: Settings, x: Index, prev: Option<Id>, id: Id, k: Key, now: Clock)
    requires Valid(x) && Unlinked(x, id, k)
    requires match prev
             case None => k !in x.table
             case Some(o) => o in x.items && x.items[o].linked && x.items[o].key == k && Held(x, o) > 0
    ensures var y := Put(s, x, prev, id, now);
            && (prev.Some? ==> prev.value in y.items && y.items[prev.value].refcount > 0)
            && var z := if prev.Some? && prev.value in y.items then Release(y, prev.value) else y;
               id in z.items && z.items[id].refcount > 0
  {
    PutMeaning(s, x, prev, id, k, now);
    var y := Put(s, x, prev, id, now);
    assert ItemOk(y, id);
    assert Held(y, id) == Held(x, id);
    if prev.Some? {
      assert ItemOk(y, prev.value);
    }
  }

  /** The caller's item is stored. */
  ghost function PutNew(s: Settings, x: Index, k: Key, id: Id, now: Clock): Index
    requires Valid(x) && Unlinked(x, id, k)
  {
    FetchMeaning(s, x, k, now);
    var (y, r) := Fetch(s, x, k, now);
    FetchKeeps(s, x, k, id, now);
    Swap(s, y, r, id, now, false)
  }

  lemma FetchKeeps(s: Settings, x: Index, k: Key, id: Id, now: Clock)
    requires Valid(x) && Unlinked(x, id, k)
    ensures Findable(x, k)
    ensures var (y, r) := Fetch(s, x, k, now);
            && Unlinked(y, id, k) && y.items[id] == x.items[id] && r != Some(id)
            && (r.Some? ==> r.value in y.items && Held(y, r.value) == Held(x, r.value) + 1)
  {
    Finds(x, k);
    if k in x.table {
      assert KeyOk(x, k);
      if !Live(s, now, x.items[x.table[k]]) {
        LoseFacts(x, x.table[k]);
        assert SameAt(x, Lose(x, x.table[k]), id);
      }
    }
  }

  lemma PutNewMeaning(s: Settings, x: Index, k: Key, id: Id, now: Clock, partial: bool)
    requires Valid(x) && Unlinked(x, id, k)
    ensures StoreEffect(s, now, x, PutNew(s, x, k, id, now), k, Some(RecordOf(s, x.items[id])), partial)
  {
    FetchMeaning(s, x, k, now);
    FetchKeeps(s, x, k, id, now);
    var (y, r) := Fetch(s, x, k, now);
    SwapMeaning(s, y, r, id, k, now, false);
    PutNewSwapped(s, x, y, PutNew(s, x, k, id, now), k, r, id, RecordOf(s, x.items[id]), now, partial);
  }

  lemma PutNewSwapped(s: Settings, x: Index, y: Index, z: Index, k: Key, r: Option<Id>, id: Id, e: Record,
                      now: Clock, partial: bool)
    requires Swapped(s, now, y, z, k, id, Drawn(s, x, e)) && GivenBack(y, z, r, id, false)
    requires Took(x, y, r) && Unseen(s, now, x, y) && y.lastCas == x.lastCas
    ensures StoreEffect(s, now, x, z, k, Some(e), partial)
  {
    Settle(x, y, z, r, id);
    SwappedEffect(s, now, x, y, z, k, id, e, partial);
  }

  lemma Settle(x: Index, y: Index, z: Index, found: Option<Id>, id: Id)
    requires Took(x, y, found) && GivenBack(y, z, found, id, false)
    ensures SameRefs(x, z)
  {
    forall i: Id ensures Held(z, i) == Held(x, i) {
      assert Held(y, i) == Held(x, i) + (if found == Some(i) then 1 else 0);
    }
  }

  lemma SwappedEffect(s: Settings, now: Time, x: Index, y: Index, z: Index, k: Key, id: Id, e: Record, partial: bool)
    requires Swapped(s, now, y, z, k, id, Drawn(s, x, e)) && y.lastCas == x.lastCas && SameRefs(x, z)
    requires forall k' {:trigger SameFor(s, now, x, y, k')} :: k' != k ==>
               SameFor(s, now, x, y, k') || (partial && Lookup(s, now, y, k').None?)
    ensures StoreEffect(s, now, x, z, k, Some(e), partial)
  {
    forall k' | k' != k ensures SameFor(s, now, x, z, k') || (partial && Lookup(s, now, z, k').None?) {
      assert SameFor(s, now, y, z, k');
      assert SameFor(s, now, x, y, k') || (partial && Lookup(s, now, y, k').None?);
    }
  }

  // ----- making room for a joined value

  ghost predicate SameOrGone(s: Settings, now: Time, x: Index, y: Index, k: Key) {
    Lookup(s, now, x, k) == Lookup(s, now, y, k) || Lookup(s, now, y, k).None?
  }

  /** Entries may have been reclaimed or evicted, but no item with the key `k` was touched. */
  ghost predicate Shrunk(s: Settings, now: Time, x: Index, y: Index, k: Key) {
    && Valid(y) && y.lastCas == x.lastCas && SameRefs(x, y) && y.items.Keys <= x.items.Keys
    && (forall k' {:trigger SameOrGone(s, now, x, y, k')} :: SameOrGone(s, now, x, y, k'))
    && (forall id <- x.items {:trigger SameAt(x, y, id)} :: x.items[id].key == k ==> SameAt(x, y, id))
  }

  lemma ShrunkChain(s: Settings, now: Time, x: Index, y: Index, z: Index, k: Key)
    requires Shrunk(s, now, x, y, k) && Shrunk(s, now, y, z, k)
    ensures Shrunk(s, now, x, z, k)
  {
    forall k' ensures SameOrGone(s, now, x, z, k') {
      assert SameOrGone(s, now, x, y, k') && SameOrGone(s, now, y, z, k');
    }
    forall id <- x.items ensures x.items[id].key == k ==> SameAt(x, z, id) {
      if x.items[id].key == k {
        assert SameAt(x, y, id);
        assert SameAt(y, z, id);
      }
    }
    forall i: Id ensures Held(z, i) == Held(x, i) {
      assert Held(y, i) == Held(x, i);
    }
  }

  lemma StartShrunk(s: Settings, now: Time, x: Index, k: Key)
    requires Valid(x)
    ensures Shrunk(s, now, x, x, k)
  {
    forall k' ensures SameOrGone(s, now, x, x, k') {
    }
  }

  /** A pull by a thread that holds the key's item lock. */
  lemma PullShrinks(c: Call, s: Settings, x: Index, nodes: seq<Node>, k: Key)
    requires Valid(x) && Strip(nodes) == ListOf(x, c.l) && Owned(c, k)
    ensures Shrunk(s, c.now, x, Run(c, s, Start(c, x, nodes)).x, k)
  {
    PullTailMeaning(c, s, x, nodes);
    var y := Run(c, s, Start(c, x, nodes)).x;
    forall k' ensures SameOrGone(s, c.now, x, y, k') {
      PullKeepsEntry(c, s, x, y, k');
    }
    forall id <- x.items ensures x.items[id].key == k ==> SameAt(x, y, id) {
      assert Account(c, s, x, y, id);
    }
    forall id <- y.items ensures id in x.items {
      assert Account(c, s, x, y, id);
    }
    forall i: Id ensures Held(y, i) == Held(x, i) {
      assert Account(c, s, x, y, i);
    }
  }

  lemma PullKeepsEntry(c: Call, s: Settings, x: Index, y: Index, k: Key)
    requires Valid(x) && Valid(y) && Accounts(c, s, x, y)
    ensures SameOrGone(s, c.now, x, y, k)
  {
    if k in y.table {
      var id := y.table[k];
      assert KeyOk(y, k);
      assert Account(c, s, x, y, id);
      assert id in x.items && x.items[id].key == k && x.items[id].linked;
      assert ItemOk(x, id);
    }
  }

  /** The item that was found is still there, and the new chunk is a new, unlinked item. */
  lemma JoinReady(s: Settings, y: Index, z: Index, k: Key, o: Id, nid: Id, it: Item, now: Time)
    requires Shrunk(s, now, y, z, k) && o in y.items && y.items[o].linked && y.items[o].key == k && Held(y, o) > 0
    requires nid !in z.items && it.key == k && Real(it)
    ensures var w := Allocate(z, nid, it);
            && Valid(w) && w.lastCas == y.lastCas && Unlinked(w, nid, k) && RecordOf(s, w.items[nid]) == RecordOf(s, it)
            && o in w.items && w.items[o] == y.items[o] && Held(w, o) == Held(y, o)
            && (forall k' {:trigger SameOrGone(s, now, y, w, k')} :: SameOrGone(s, now, y, w, k'))
            && (forall i: Id {:trigger Held(w, i)} :: Held(w, i) == Held(y, i) + (if i == nid then 1 else 0))
  {
    AllocateValid(z, nid, it);
    var w := Allocate(z, nid, it);
    assert SameAt(y, z, o);
    forall k' ensures SameOrGone(s, now, y, w, k') {
      assert SameOrGone(s, now, y, z, k');
      if k' in z.table {
        assert KeyOk(z, k');
      }
    }
    forall i: Id ensures Held(w, i) == Held(y, i) + (if i == nid then 1 else 0) {
      assert Held(z, i) == Held(y, i);
    }
  }

  /** The state after a fetch that found the item `o`. */
  ghost predicate Found(s: Settings, now: Time, x: Index, y: Index, k: Key, o: Id) {
    && Unseen(s, now, x, y) && Took(x, y, Some(o))
    && o in y.items && y.items[o].linked && y.items[o].key == k && Held(y, o) > 0
    && Lookup(s, now, x, k) == Some(RecordOf(s, y.items[o]))
  }

  lemma FetchFinds(s: Settings, x: Index, k: Key, now: Clock)
    requires Valid(x) && Lookup(s, now, x, k).Some?
    ensures Findable(x, k) && Found(s, now, x, Fetch(s, x, k, now).0, k, x.table[k])
    ensures Fetch(s, x, k, now).1 == Some(x.table[k])
  {
    FetchMeaning(s, x, k, now);
  }

  /** The joined item is stored in place of the one that was found. */
  lemma JoinMeaning(s: Settings, x: Index, y: Index, z: Index, k: Key, o: Id, nid: Id, it: Item, now: Clock)
    requires Valid(x) && Found(s, now, x, y, k, o) && Shrunk(s, now, y, z, k) && nid !in z.items && it.key == k &&
             Real(it)
    ensures var w := Allocate(z, nid, it);
            && o in w.items && o != nid
            && StoreEffect(s, now, x, Swap(s, w, Some(o), nid, now, true), k, Some(RecordOf(s, it)), true)
  {
    JoinReady(s, y, z, k, o, nid, it, now);
    JoinSwap(s, x, y, Allocate(z, nid, it), k, o, nid, RecordOf(s, it), now);
  }

  lemma JoinSwap(s: Settings, x: Index, y: Index, w: Index, k: Key, o: Id, nid: Id, e: Record, now: Clock)
    requires Valid(w) && w.lastCas == x.lastCas && Unlinked(w, nid, k) && RecordOf(s, w.items[nid]) == e
    requires o in w.items && w.items[o].linked && w.items[o].key == k && Held(w, o) > 0
    requires Unseen(s, now, x, y) && forall k' {:trigger SameOrGone(s, now, y, w, k')} :: SameOrGone(s, now, y, w, k')
    requires Took(x, y, Some(o))
    requires forall i: Id {:trigger Held(w, i)} :: Held(w, i) == Held(y, i) + (if i == nid then 1 else 0)
    ensures StoreEffect(s, now, x, Swap(s, w, Some(o), nid, now, true), k, Some(e), true)
  {
    SwapOver(s, x, w, k, o, nid, e, now);
    JoinSwapped(s, x, y, w, Swap(s, w, Some(o), nid, now, true), k, o, nid, e, now);
  }

  lemma SwapOver(s: Settings, x: Index, w: Index, k: Key, o: Id, nid: Id, e: Record, now: Clock)
    requires Valid(w) && w.lastCas == x.lastCas && Unlinked(w, nid, k) && RecordOf(s, w.items[nid]) == e
    requires o in w.items && w.items[o].linked && w.items[o].key == k && Held(w, o) > 0
    ensures var u := Swap(s, w, Some(o), nid, now, true);
            Swapped(s, now, w, u, k, nid, Drawn(s, x, e)) && GivenBack(w, u, Some(o), nid, true)
  {
    SwapMeaning(s, w, Some(o), nid, k, now, true);
  }

  lemma JoinSwapped(s: Settings, x: Index, y: Index, w: Index, u: Index, k: Key, o: Id, nid: Id, e: Record, now: Clock)
    requires Swapped(s, now, w, u, k, nid, Drawn(s, x, e)) && GivenBack(w, u, Some(o), nid, true) &&
             w.lastCas == x.lastCas
    requires Unseen(s, now, x, y) && forall k' {:trigger SameOrGone(s, now, y, w, k')} :: SameOrGone(s, now, y, w, k')
    requires Took(x, y, Some(o))
    requires forall i: Id {:trigger Held(w, i)} :: Held(w, i) == Held(y, i) + (if i == nid then 1 else 0)
    ensures StoreEffect(s, now, x, u, k, Some(e), true)
  {
    SettleJoin(x, y, w, u, o, nid);
    OthersJoin(s, x, y, w, k, now);
    SwappedEffect(s, now, x, w, u, k, nid, e, true);
  }

  lemma OthersJoin(s: Settings, x: Index, y: Index, w: Index, k: Key, now: Time)
    requires Unseen(s, now, x, y) && forall k' {:trigger SameOrGone(s, now, y, w, k')} :: SameOrGone(s, now, y, w, k')
    ensures forall k' {:trigger SameFor(s, now, x, w, k')} :: k' != k ==>
            SameFor(s, now, x, w, k') || Lookup(s, now, w, k').None?
  {
    forall k' | k' != k ensures SameFor(s, now, x, w, k') || Lookup(s, now, w, k').None? {
      assert SameOrGone(s, now, y, w, k') && SameFor(s, now, x, y, k');
    }
  }

  lemma SettleJoin(x: Index, y: Index, w: Index, u: Index, o: Id, nid: Id)
    requires Took(x, y, Some(o)) && GivenBack(w, u, Some(o), nid, true)
    requires forall i: Id {:trigger Held(w, i)} :: Held(w, i) == Held(y, i) + (if i == nid then 1 else 0)
    ensures SameRefs(x, u)
  {
    forall i: Id ensures Held(u, i) == Held(x, i) {
      assert Held(y, i) == Held(x, i) + (if Some(o) == Some(i) then 1 else 0);
      assert Held(w, i) == Held(y, i) + (if i == nid then 1 else 0);
    }
  }

  /** There was no memory for the joined item. */
  lemma NoRoomMeaning(s: Settings, x: Index, y: Index, z: Index, k: Key, o: Id, now: Clock)
    requires Valid(x) && Found(s, now, x, y, k, o) && Shrunk(s, now, y, z, k)
    ensures o in z.items && StoreEffect(s, now, x, Release(z, o), k, None, true)
  {
    assert SameAt(y, z, o) && Held(z, o) == Held(y, o);
    assert ItemOk(z, o) && ItemOk(y, o) && SameFor(s, now, y, z, k);
    ReleaseUnseen(s, now, z, o);
    var u := Release(z, o);
    forall k' ensures SameFor(s, now, x, u, k') || (k' != k && Lookup(s, now, u, k').None?) {
      assert SameFor(s, now, x, y, k') && SameOrGone(s, now, y, z, k') && SameFor(s, now, z, u, k');
    }
    forall i: Id ensures Held(u, i) == Held(x, i) {
      assert Held(z, i) == Held(y, i) == Held(x, i) + (if Some(o) == Some(i) then 1 else 0);
    }
  }

  // ----- any number of pulls, and do_store_item as one step

  datatype PullArgs = PullArgs(c: Call, nodes: seq<Node>)

  ghost predicate CanPull(now: Time, x: Index, k: Key, p: PullArgs) {
    Valid(x) && p.c.now == now && Owned(p.c, k) && Strip(p.nodes) == ListOf(x, p.c.l)
  }

  ghost function AfterPull(s: Settings, now: Time, x: Index, k: Key, p: PullArgs): Index
    requires CanPull(now, x, k, p)
  {
    Run(p.c, s, Start(p.c, x, p.nodes)).x
  }

  /** One pull leads from `x` to `y`, by a thread that holds the item lock of the key. */
  ghost predicate PullLeads(s: Settings, now: Time, x: Index, y: Index, k: Key) {
    exists p {:trigger CanPull(now, x, k, p)} :: CanPull(now, x, k, p) && y == AfterPull(s, now, x, k, p)
  }

  /** The states after the pulls, one after the other. */
  ghost predicate PullsTo(s: Settings, now: Time, k: Key, xs: seq<Index>) {
    xs != [] && forall i: nat {:trigger PullAt(s, now, k, xs, i)} :: i < |xs| - 1 ==> PullAt(s, now, k, xs, i)
  }

  ghost predicate PullAt(s: Settings, now: Time, k: Key, xs: seq<Index>, i: nat)
    requires i < |xs| - 1
  {
    PullLeads(s, now, xs[i], xs[i + 1], k)
  }

  ghost predicate Pulled(s: Settings, now: Time, x: Index, y: Index, k: Key) {
    exists xs {:trigger PullsTo(s, now, k, xs)} :: PullsTo(s, now, k, xs) && xs[0] == x && xs[|xs| - 1] == y
  }

  lemma PulledNothing(s: Settings, now: Time, x: Index, k: Key)
    ensures Pulled(s, now, x, x, k)
  {
    assert PullsTo(s, now, k, [x]);
  }

  lemma PulledOnce(c: Call, s: Settings, x: Index, nodes: seq<Node>, k: Key)
    requires Valid(x) && Strip(nodes) == ListOf(x, c.l) && Owned(c, k)
    ensures Pulled(s, c.now, x, Run(c, s, Start(c, x, nodes)).x, k)
  {
    assert CanPull(c.now, x, k, PullArgs(c, nodes));
    var xs := [x, AfterPull(s, c.now, x, k, PullArgs(c, nodes))];
    assert PullsTo(s, c.now, k, xs);
  }

  lemma PulledChain(s: Settings, now: Time, x: Index, y: Index, z: Index, k: Key)
    requires Pulled(s, now, x, y, k) && Pulled(s, now, y, z, k)
    ensures Pulled(s, now, x, z, k)
  {
    var xs :| PullsTo(s, now, k, xs) && xs[0] == x && xs[|xs| - 1] == y;
    var ys :| PullsTo(s, now, k, ys) && ys[0] == y && ys[|ys| - 1] == z;
    var all := xs + ys[1..];
    forall i: nat | i < |all| - 1 ensures PullAt(s, now, k, all, i) {
      if i < |xs| - 1 {
        assert PullAt(s, now, k, xs, i);
      } else {
        assert PullAt(s, now, k, ys, i - (|xs| - 1));
      }
    }
    assert PullsTo(s, now, k, all);
  }

  lemma PullLeadShrinks(s: Settings, now: Time, x: Index, y: Index, k: Key)
    requires PullLeads(s, now, x, y, k)
    ensures Shrunk(s, now, x, y, k)
  {
    var p :| CanPull(now, x, k, p) && y == AfterPull(s, now, x, k, p);
    PullShrinks(p.c, s, x, p.nodes, k);
  }

  lemma {:induction false} PullsShrink(s: Settings, now: Time, k: Key, xs: seq<Index>, i: nat)
    requires PullsTo(s, now, k, xs) && Valid(xs[0]) && i < |xs|
    ensures Shrunk(s, now, xs[0], xs[i], k)
  {
    if i == 0 {
      StartShrunk(s, now, xs[0], k);
    } else {
      var p := i - 1;
      PullsShrink(s, now, k, xs, p);
      assert PullAt(s, now, k, xs, p);
      PullLeadShrinks(s, now, xs[p], xs[i], k);
      ShrunkChain(s, now, xs[0], xs[p], xs[i], k);
    }
  }

  lemma PulledShrinks(s: Settings, now: Time, x: Index, y: Index, k: Key)
    requires Valid(x) && Pulled(s, now, x, y, k)
    ensures Shrunk(s, now, x, y, k)
  {
    var xs :| PullsTo(s, now, k, xs) && xs[0] == x && xs[|xs| - 1] == y;
    PullsShrink(s, now, k, xs, |xs| - 1);
  }

  /** An item of the key that somebody holds. */
  ghost predicate OwnKey(x: Index, i: Id, k: Key) {
    i in x.items && x.items[i].key == k && Held(x, i) > 0
  }

  /** It is still there after the pulls of a thread that holds the item lock of the key. */
  lemma StillHeld(s: Settings, now: Time, x: Index, y: Index, k: Key, i: Id)
    requires Valid(x) && Pulled(s, now, x, y, k) && OwnKey(x, i, k)
    ensures Shrunk(s, now, x, y, k) && OwnKey(y, i, k) && y.items[i] == x.items[i] && y.items[i].refcount > 0
  {
    PulledShrinks(s, now, x, y, k);
    assert SameAt(x, y, i);
    assert ItemOk(y, i);
  }

  /** What a fetch found has a key and a line end. */
  lemma FoundKey(s: Settings, x: Index, y: Index, k: Key, o: Id, now: Clock)
    requires Valid(x) && Findable(x, k) && Fetch(s, x, k, now) == (y, Some(o))
    ensures OwnKey(y, o, k) && y.items[o].linked && Real(y.items[o])
  {
    FetchMeaning(s, x, k, now);
    assert Held(y, o) == Held(x, o) + 1;
    assert ItemOk(y, o);
  }

  predicate Joins(cmd: Command) {
    cmd.Append? || cmd.Prepend?
  }

  /** After pulls that made room, the new item with the joined record is stored in place of the one found. */
  ghost predicate JoinedIn(s: Settings, x: Index, y: Index, k: Key, now: Clock, r: Record, z: Index, nid: Id, it: Item)
    requires Findable(x, k)
  {
    var (f, o) := Fetch(s, x, k, now);
    && o.Some? && Pulled(s, now, f, z, k) && o.value in z.items
    && nid !in z.items && it.key == k && Real(it) && RecordOf(s, it) == r
    && y == Swap(s, Allocate(z, nid, it), o, nid, now, true)
  }

  /** After pulls that did not, the reference to the item found is given back. */
  ghost predicate LeftAlone(s: Settings, x: Index, y: Index, k: Key, now: Clock, z: Index)
    requires Findable(x, k)
  {
    var (f, o) := Fetch(s, x, k, now);
    o.Some? && Pulled(s, now, f, z, k) && o.value in z.items && y == Release(z, o.value)
  }

  /** A store by the holder of an item that is not linked. The thread holds the item lock of the key. */
  ghost predicate CanStore(x: Index, id: Id) {
    Valid(x) && id in x.items && Unlinked(x, id, x.items[id].key)
  }

  lemma RealData(s: Settings, now: Time, x: Index, id: Id)
    requires CanStore(x, id)
    ensures |x.items[id].data| >= 2 && Findable(x, x.items[id].key)
    ensures var prev := Lookup(s, now, x, x.items[id].key); prev.Some? ==> |prev.value.data| >= 2
  {
    var k := x.items[id].key;
    Finds(x, k);
    assert ItemOk(x, id);
    assert k in x.table ==> ItemOk(x, x.table[k]);
  }

  /** What the result and the record say of the index afterwards. */
  ghost predicate Settled(s: Settings, x: Index, y: Index, cmd: Command, id: Id, now: Clock, result: Result,
                          r: Option<Record>)
    requires CanStore(x, id) && Findable(x, x.items[id].key)
  {
    var k := x.items[id].key;
    match r
    case None =>
      if Joins(cmd) && Lookup(s, now, x, k).Some? && result.NotStored?
      then exists z {:trigger LeftAlone(s, x, y, k, now, z)} :: LeftAlone(s, x, y, k, now, z)
      else y == Refuse(s, x, k, now, cmd.Add?)
    case Some(e) =>
      if Joins(cmd)
      then exists z, nid, it {:trigger JoinedIn(s, x, y, k, now, e, z, nid, it)} ::
           JoinedIn(s, x, y, k, now, e, z, nid, it)
      else y == PutNew(s, x, k, id, now)
  }

  /** What the command means for the entry of the key, and for the item handed in. */
  ghost function Answer(s: Settings, x: Index, cmd: Command, id: Id, now: Clock, room: bool): (Result, Option<Record>)
    requires CanStore(x, id)
  {
    RealData(s, now, x, id);
    Meaning(cmd, Lookup(s, now, x, x.items[id].key), RecordOf(s, x.items[id]), room)
  }

  /** do_store_item takes the index from `x` to `y` and gives this result. */
  ghost predicate Stores(s: Settings, x: Index, y: Index, cmd: Command, id: Id, now: Clock, room: bool, result: Result)
    requires CanStore(x, id)
  {
    var (r, stored) := Answer(s, x, cmd, id, now, room);
    RealData(s, now, x, id);
    result == r && Settled(s, x, y, cmd, id, now, r, stored)
  }

  lemma RefuseValid(s: Settings, x: Index, k: Key, now: Clock, bump: bool)
    requires Valid(x)
    ensures Findable(x, k) && Valid(Refuse(s, x, k, now, bump))
  {
    FetchMeaning(s, x, k, now);
    var (y, r) := Fetch(s, x, k, now);
    if r.Some? {
      var z := if bump then Update(s, y, r.value, now) else y;
      if bump {
        UpdateValid(s, y, r.value, now);
        UpdateBumps(s, y, r.value, now);
      }
      assert Held(y, r.value) == Held(x, r.value) + 1;
      ReleaseValid(z, r.value);
    }
  }

  lemma JoinedInMeaning(s: Settings, x: Index, y: Index, k: Key, now: Clock, r: Record, z: Index, nid: Id, it: Item)
    requires Valid(x) && Findable(x, k) && JoinedIn(s, x, y, k, now, r, z, nid, it)
    ensures StoreEffect(s, now, x, y, k, Some(r), true)
  {
    var (f, o) := Fetch(s, x, k, now);
    FetchMeaning(s, x, k, now);
    FetchFinds(s, x, k, now);
    PulledShrinks(s, now, f, z, k);
    JoinMeaning(s, x, f, z, k, o.value, nid, it, now);
  }

  lemma LeftAloneMeaning(s: Settings, x: Index, y: Index, k: Key, now: Clock, z: Index)
    requires Valid(x) && Findable(x, k) && LeftAlone(s, x, y, k, now, z)
    ensures StoreEffect(s, now, x, y, k, None, true)
  {
    var (f, o) := Fetch(s, x, k, now);
    FetchMeaning(s, x, k, now);
    FetchFinds(s, x, k, now);
    PulledShrinks(s, now, f, z, k);
    NoRoomMeaning(s, x, f, z, k, o.value, now);
  }

  lemma StoresValid(s: Settings, x: Index, y: Index, cmd: Command, id: Id, now: Clock, room: bool, result: Result)
    requires CanStore(x, id) && Stores(s, x, y, cmd, id, now, room, result)
    ensures Valid(y)
  {
    var k, e := x.items[id].key, RecordOf(s, x.items[id]);
    var prev := Lookup(s, now, x, k);
    RealData(s, now, x, id);
    var (r, stored) := Meaning(cmd, prev, e, room);
    if stored.Some? {
      if Joins(cmd) {
        var z, nid, it :| JoinedIn(s, x, y, k, now, stored.value, z, nid, it);
        JoinedInMeaning(s, x, y, k, now, stored.value, z, nid, it);
      } else {
        PutNewMeaning(s, x, k, id, now, false);
      }
    } else if Joins(cmd) && prev.Some? && r.NotStored? {
      var z :| LeftAlone(s, x, y, k, now, z);
      LeftAloneMeaning(s, x, y, k, now, z);
    } else {
      RefuseValid(s, x, k, now, cmd.Add?);
    }
  }

  /** The item that a fetch finds was not touched in the future. */
  ghost predicate Timely(x: Index, k: Key, now: Time) {
    k in x.table && x.table[k] in x.items ==> x.items[x.table[k]].time <= now
  }

  /** A store does to the map what its command means; for the other keys nothing changes, but that entries may
      have gone to make room for a joined value. */
  lemma StoresMeaning(s: Settings, x: Index, y: Index, cmd: Command, id: Id, now: Clock, room: bool, result: Result)
    requires CanStore(x, id) && Stores(s, x, y, cmd, id, now, room, result)
    requires cmd.Add? ==> Timely(x, x.items[id].key, now)
    ensures var k, e := x.items[id].key, RecordOf(s, x.items[id]);
            var prev := Lookup(s, now, x, k);
            && |e.data| >= 2 && (prev.Some? ==> |prev.value.data| >= 2)
            && result == Meaning(cmd, prev, e, room).0
            && StoreEffect(s, now, x, y, k, Meaning(cmd, prev, e, room).1, Joins(cmd))
  {
    var k, e := x.items[id].key, RecordOf(s, x.items[id]);
    var prev := Lookup(s, now, x, k);
    RealData(s, now, x, id);
    var (r, stored) := Meaning(cmd, prev, e, room);
    if stored.Some? {
      if Joins(cmd) {
        var z, nid, it :| JoinedIn(s, x, y, k, now, stored.value, z, nid, it);
        JoinedInMeaning(s, x, y, k, now, stored.value, z, nid, it);
      } else {
        PutNewMeaning(s, x, k, id, now, false);
      }
    } else if Joins(cmd) && prev.Some? && r.NotStored? {
      var z :| LeftAlone(s, x, y, k, now, z);
      LeftAloneMeaning(s, x, y, k, now, z);
    } else {
      RefuseMeaning(s, x, k, now, cmd.Add?, Joins(cmd));
    }
  }
}
