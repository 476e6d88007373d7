/** What updates, hits, links and unlinks do to the fields of an item and to the order of the LRU lists
    (items.c:372-538, 926-951), told from the state before and the arguments alone. */
module ItemMeaning {
  import opened Common
  import opened ItemIndex
  import opened PullTail
  import opened ItemOps

  // ----- lists

  ghost predicate LosesAt(q: seq<Id>, q': seq<Id>, id: Id, i: nat) {
    i < |q| && q[i] == id && q' == q[..i] + q[i + 1..]
  }

  /** The item leaves the list; the others keep their order. */
  ghost predicate LosesOne(q: seq<Id>, q': seq<Id>, id: Id) {
    exists i: nat {:trigger LosesAt(q, q', id, i)} :: LosesAt(q, q', id, i)
  }

  /** The item goes from its place to the head. */
  ghost predicate ToHead(q: seq<Id>, q': seq<Id>, id: Id) {
    q' != [] && q'[0] == id && LosesOne(q, q'[1..], id)
  }

  lemma {:induction false} DropLoses(q: seq<Id>, id: Id)
    requires id in q
    ensures LosesOne(q, Drop(q, id), id)
  {
    if q[0] == id {
      assert LosesAt(q, Drop(q, id), id, 0);
    } else {
      var rest := q[1..];
      DropLoses(rest, id);
      var i: nat :| LosesAt(rest, Drop(rest, id), id, i);
      LosesLater(q, Drop(rest, id), id, i);
    }
  }

  lemma LosesLater(q: seq<Id>, r: seq<Id>, id: Id, i: nat)
    requires q != [] && LosesAt(q[1..], r, id, i)
    ensures LosesAt(q, [q[0]] + r, id, i + 1)
  {
  }

  lemma DropToHead(q: seq<Id>, id: Id)
    requires id in q
    ensures ToHead(q, [id] + Drop(q, id), id)
  {
    DropLoses(q, id);
    assert ([id] + Drop(q, id))[1..] == Drop(q, id);
  }

  type Lists = map<ListId, seq<Id>>

  function On(lists: Lists, l: ListId): seq<Id> {
    if l in lists then lists[l] else []
  }

  /** The lists that are not named are as they were. */
  ghost predicate OtherLists(p: Lists, q: Lists, l: ListId, m: ListId) {
    forall k {:trigger On(q, k)} :: k != l && k != m ==> On(q, k) == On(p, k)
  }

  /** Every other item, the table and the ids are as they were, and so are the references to every other item. */
  ghost predicate OthersAlone(x: Index, y: Index, id: Id) {
    && y.table == x.table && y.lastCas == x.lastCas && y.items.Keys == x.items.Keys
    && forall i {:trigger SameAt(x, y, i)} :: i != id ==> SameAt(x, y, i)
  }

  // ----- do_item_update

  /** Last accessed before the update interval. */
  predicate Stale(now: Clock, it: Item) {
    it.time < Elapsed(now, 60)
  }

  /** An active item of COLD goes to WARM, where the LRU is segmented. */
  predicate Promoted(s: Settings, it: Item) {
    s.segmented && it.linked && it.place.lru.Cold? && it.active
  }

  /** Off its list and to the head of another, or of its own. */
  lemma RelistMeaning(x: Index, id: Id, l: ListId, now: Time, active: bool)
    requires id in x.items && id in ListOf(x, x.items[id].place)
    ensures var y, it := Relist(x, id, l, now, active), x.items[id];
            && OtherLists(x.lists, y.lists, it.place, l)
            && (l == it.place ==> ToHead(On(x.lists, l), On(y.lists, l), id))
            && (l != it.place ==> On(y.lists, l) == [id] + On(x.lists, l)
                                  && LosesOne(On(x.lists, it.place), On(y.lists, it.place), id))
  {
    DropLoses(ListOf(x, x.items[id].place), id);
    DropToHead(ListOf(x, x.items[id].place), id);
  }

  /** What do_item_update does to the item: place, time and active mark. */
  ghost predicate UpdatedItem(s: Settings, x: Index, y: Index, id: Id, now: Clock)
    requires id in x.items
  {
    var it := x.items[id];
    && OthersAlone(x, y, id) && Held(y, id) == Held(x, id) && id in y.items
    && y.items[id] == it.(place := if Promoted(s, it) then ListId(it.place.cls, Warm) else it.place,
                          time := if Promoted(s, it) || (it.linked && Stale(now, it)) then now else it.time,
                          active := it.active && !Promoted(s, it))
  }

  /** And to the lists. */
  ghost predicate UpdatedLists(s: Settings, p: Lists, q: Lists, id: Id, it: Item, now: Clock) {
    var warm := ListId(it.place.cls, Warm);
    if Promoted(s, it) then
      && On(q, warm) == [id] + On(p, warm) && LosesOne(On(p, it.place), On(q, it.place), id)
      && OtherLists(p, q, it.place, warm)
    else if !s.segmented && it.linked && Stale(now, it) then
      ToHead(On(p, it.place), On(q, it.place), id) && OtherLists(p, q, it.place, it.place)
    else q == p
  }

  ghost predicate Updated(s: Settings, x: Index, y: Index, id: Id, now: Clock)
    requires id in x.items
  {
    UpdatedItem(s, x, y, id, now) && UpdatedLists(s, x.lists, y.lists, id, x.items[id], now)
  }

  /** do_item_update: a linked item of COLD with the active mark heads WARM, without the mark; a linked item that is
      stale gets the time, and in compatibility mode heads its list. Nothing else is touched. */
  lemma UpdateMeaning(s: Settings, x: Index, id: Id, now: Clock)
    requires id in x.items && (x.items[id].linked ==> id in ListOf(x, x.items[id].place))
    ensures Updated(s, x, Update(s, x, id, now), id, now)
  {
    UpdateItem(s, x, id, now);
    UpdateLists(s, x, id, now);
  }

  lemma OneItem(x: Index, y: Index, id: Id, it: Item)
    requires id in x.items && y.items == x.items[id := it]
    requires y.table == x.table && y.lastCas == x.lastCas && y.held == x.held
    ensures OthersAlone(x, y, id) && Held(y, id) == Held(x, id) && id in y.items && y.items[id] == it
  {
  }

  lemma UpdateItem(s: Settings, x: Index, id: Id, now: Clock)
    requires id in x.items
    ensures UpdatedItem(s, x, Update(s, x, id, now), id, now)
  {
    var it, y := x.items[id], Update(s, x, id, now);
    if Promoted(s, it) {
      OneItem(x, y, id, it.(place := ListId(it.place.cls, Warm), time := now, active := false));
    } else if it.linked && Stale(now, it) {
      OneItem(x, y, id, it.(time := now));
    } else {
      assert x.items == x.items[id := it];
      OneItem(x, y, id, it);
    }
  }

  lemma UpdateLists(s: Settings, x: Index, id: Id, now: Clock)
    requires id in x.items && (x.items[id].linked ==> id in ListOf(x, x.items[id].place))
    ensures UpdatedLists(s, x.lists, Update(s, x, id, now).lists, id, x.items[id], now)
  {
    var it := x.items[id];
    if Promoted(s, it) {
      RelistMeaning(x, id, ListId(it.place.cls, Warm), now, false);
    } else if !s.segmented && it.linked && Stale(now, it) {
      RelistMeaning(x, id, it.place, now, it.active);
    }
  }

  // ----- the hit marks of do_item_get

  /** What a fetch does to the hit marks of the item found. */
  ghost predicate HitOnce(s: Settings, x: Index, y: Index, id: Id, now: Clock, queued: bool)
    requires id in x.items
  {
    var it := x.items[id];
    var first := !s.segmented || (!it.active && !it.fetched);
    var second := s.segmented && !it.active && it.fetched;
    var cold, due := it.place.lru.Cold?, it.linked && Stale(now, it);
    var bumped, taken := (!s.segmented || (second && !cold)) && due, second && cold && queued;
    && OthersAlone(x, y, id) && Held(y, id) == Held(x, id) + (if taken then 1 else 0) && id in y.items
    && y.items[id] == it.(fetched := it.fetched || first, active := it.active || (second && (!cold || queued)),
                          time := if bumped then now else it.time, refcount := it.refcount + if taken then 1 else 0)
    && (if !s.segmented && bumped then
          && ToHead(On(x.lists, it.place), On(y.lists, it.place), id)
          && OtherLists(x.lists, y.lists, it.place, it.place)
        else y.lists == x.lists)
  }

  /** An item has to be hit twice to be active: the first hit leaves the mark FETCHED, the second the mark ACTIVE and
      the time of an update, or on COLD, where a bump buffer has room, a reference for the bump. In compatibility mode
      every hit leaves FETCHED and updates the item. */
  lemma HitMeaning(s: Settings, x: Index, id: Id, now: Clock, queued: bool)
    requires id in x.items && (x.items[id].linked ==> id in ListOf(x, x.items[id].place))
    ensures HitOnce(s, x, Hit(s, x, id, now, queued), id, now, queued)
  {
    var it := x.items[id];
    if !s.segmented {
      HitBefore(s, x, Mark(x, id, it.time, true, it.active), id, now, queued);
    } else if !it.active && it.fetched && !it.place.lru.Cold? {
      HitBefore(s, x, Mark(x, id, it.time, it.fetched, true), id, now, queued);
    }
  }

  lemma HitBefore(s: Settings, x: Index, y: Index, id: Id, now: Clock, queued: bool)
    requires id in x.items && (x.items[id].linked ==> id in ListOf(x, x.items[id].place))
    requires var it := x.items[id];
             if !s.segmented then y == Mark(x, id, it.time, true, it.active)
             else !it.active && it.fetched && !it.place.lru.Cold? && y == Mark(x, id, it.time, it.fetched, true)
    ensures HitOnce(s, x, Update(s, y, id, now), id, now, queued)
  {
    UpdateMeaning(s, y, id, now);
    var z := Update(s, y, id, now);
    forall i | i != id ensures SameAt(x, z, i) {
      assert SameAt(y, z, i);
    }
  }

  // ----- links and unlinks

  /** do_item_link puts the item at the head of its list, with the time of the link. */
  lemma LinkHeads(x: Index, id: Id, now: Time, useCas: bool)
    requires Valid(x) && id in x.items && x.items[id].key !in x.table
    ensures var y, it := Link(x, id, now, useCas), x.items[id];
            && On(y.lists, it.place) == [id] + On(x.lists, it.place)
            && OtherLists(x.lists, y.lists, it.place, it.place)
            && y.table == x.table[it.key := id] && y.lastCas == x.lastCas + (if useCas then 1 else 0)
            && y.items == x.items[id := it.(linked := true, time := now, cas := if useCas then x.lastCas + 1 else 0,
                                            refcount := it.refcount + 1)]
  {
  }

  /** do_item_unlink takes it out of the list; the rest keep their order. */
  lemma UnlinkLeaves(x: Index, id: Id)
    requires Valid(x) && id in x.items && x.items[id].linked
    ensures var y, it := Unlink(x, id), x.items[id];
            && LosesOne(On(x.lists, it.place), On(y.lists, it.place), id)
            && OtherLists(x.lists, y.lists, it.place, it.place)
            && y.table == x.table - {it.key}
            && y.items == if Held(x, id) > 0 then x.items[id := it.(linked := false, refcount := Held(x, id))]
                          else x.items - {id}
  {
    assert ItemOk(x, id);
    DropLoses(ListOf(x, x.items[id].place), id);
  }

  // ----- an add that finds an item bumps it

  /** An `add` of a key that is there stores nothing, but the item found is updated. */
  lemma RefuseBumps(s: Settings, x: Index, k: Key, now: Clock)
    requires Valid(x) && Lookup(s, now, x, k).Some?
    ensures Findable(x, k)
    ensures var y, id := Refuse(s, x, k, now, true), x.table[k];
            Updated(s, x, y, id, now)
  {
    FetchMeaning(s, x, k, now);
    var (y, r) := Fetch(s, x, k, now);
    var id := x.table[k];
    assert ItemOk(x, id);
    UpdateMeaning(s, y, id, now);
    UpdatedBetween(s, x, Update(s, y, id, now), id, now);
  }

  /** The reference that the store takes and gives back leaves no trace. */
  lemma UpdatedBetween(s: Settings, x: Index, z: Index, id: Id, now: Clock)
    requires id in x.items && x.items[id].refcount > 0 && Updated(s, Retain(x, id), z, id, now)
    ensures Updated(s, x, Release(z, id), id, now)
  {
    var y, u := Retain(x, id), Release(z, id);
    forall i | i != id ensures SameAt(x, u, i) {
      assert SameAt(y, z, i);
    }
  }

  /** In an index that is in order, any item can be updated and hit so. */
  lemma UpdateAndHit(s: Settings, x: Index, id: Id, now: Clock, queued: bool)
    requires Valid(x) && id in x.items
    ensures Updated(s, x, Update(s, x, id, now), id, now)
    ensures HitOnce(s, x, Hit(s, x, id, now, queued), id, now, queued)
  {
    assert ItemOk(x, id);
    UpdateMeaning(s, x, id, now);
    HitMeaning(s, x, id, now, queued);
  }

  // ----- what clients see

  /** Clients see an entry until the second of its expiry, unless a flush covers it: by the time of its last access, or
      by its id where ids are on. */
  lemma LookupMeans(s: Settings, now: Time, x: Index, k: Key)
    requires Valid(x)
    ensures Lookup(s, now, x, k).Some? <==>
              && k in x.table && x.table[k] in x.items
              && var it := x.items[x.table[k]];
                 && (it.exptime == 0 || now < it.exptime)
                 && !(0 < s.oldestLive <= now &&
                      (it.time <= s.oldestLive || (s.useCas && 0 < it.cas < s.oldestCas)))
  {
    Finds(x, k);
  }

  /** What a pull reclaims no client could see any more; in the one second at which an entry expires it is no longer
      seen and not yet reclaimed. */
  lemma DoomedIsDead(s: Settings, now: Time, it: Item)
    ensures Doomed(s, now, it) ==> !Live(s, now, it)
    ensures !Live(s, now, it) && !Doomed(s, now, it) <==> it.exptime == now && now != 0 && !Flushed(s, now, it)
  {
  }

  /** A store is accepted: by the command, the live entry of the key and the id that the client sent. */
  ghost predicate Accepts(s: Settings, cmd: Command, prev: Option<Record>, sent: nat, room: bool) {
    match cmd
    case Set => true
    case Add => prev.None?
    case Replace => prev.Some?
    case Cas => prev.Some? && prev.value.cas == sent
    case _ => prev.Some? && (sent == 0 || prev.value.cas == sent) && room
  }

  /** An id was sent that is not that of the live entry. */
  ghost predicate Conflicts(s: Settings, cmd: Command, prev: Option<Record>, sent: nat) {
    prev.Some? && prev.value.cas != sent && (cmd.Cas? || (Joins(cmd) && sent != 0))
  }

  /** The entry that an accepted store leaves: the data, flags and expiry of the item, or for a joined value the flags
      and expiry of the old entry and the two values behind each other. */
  ghost predicate IsEntry(s: Settings, cmd: Command, prev: Option<Record>, it: Item, got: Item) {
    if Joins(cmd) then
      && prev.Some? && |prev.value.data| >= 2 && |it.data| >= 2 && |got.data| == |prev.value.data| + |it.data| - 2
      && got.flags == prev.value.flags && got.exptime == prev.value.exptime
      && ValueOf(got.data) == (if cmd.Append? then ValueOf(prev.value.data) + ValueOf(it.data)
                               else ValueOf(it.data) + ValueOf(prev.value.data))
    else got.data == it.data && got.flags == it.flags && got.exptime == it.exptime
  }

  ghost predicate SameValue(it: Item, r: Record) {
    it.data == r.data && it.flags == r.flags && it.exptime == r.exptime
  }

  lemma MeaningAnswers(s: Settings, cmd: Command, prev: Option<Record>, it: Item, room: bool)
    requires |it.data| >= 2 && (prev.Some? ==> |prev.value.data| >= 2)
    ensures var (result, r) := Meaning(cmd, prev, RecordOf(s, it), room);
            && (result.Stored? <==> Accepts(s, cmd, prev, CasOf(s, it), room)) && (result.Stored? <==> r.Some?)
            && (result.Exists? <==> Conflicts(s, cmd, prev, CasOf(s, it)))
            && (result.NotFound? <==> cmd.Cas? && prev.None?)
            && (r.Some? ==>
                  forall got: Item {:trigger SameValue(got, r.value)} :: SameValue(got, r.value) ==>
                    IsEntry(s, cmd, prev, it, got))
  {
    if Joins(cmd) && prev.Some? {
      JoinedValues(cmd, prev.value.data, it.data);
    }
  }

  /** do_store_item answers STORED exactly if it accepts the item, EXISTS if the id is another one, NOT_FOUND to a `cas`
      of a key that is not there, and NOT_STORED otherwise. Afterwards the key has the new entry if it is stored, with
      the time and a new id, and its old one if not. */
  lemma StoreAnswers(s: Settings, x: Index, y: Index, cmd: Command, id: Id, now: Clock, room: bool, result: Result)
    requires CanStore(x, id) && Stores(s, x, y, cmd, id, now, room, result)
    requires cmd.Add? ==> Timely(x, x.items[id].key, now)
    ensures var k, it := x.items[id].key, x.items[id];
            var prev, sent := Lookup(s, now, x, k), CasOf(s, it);
            && (result.Stored? <==> Accepts(s, cmd, prev, sent, room))
            && (result.Exists? <==> Conflicts(s, cmd, prev, sent))
            && (result.NotFound? <==> cmd.Cas? && prev.None?)
            && (!result.Stored? ==> Lookup(s, now, y, k) == prev)
            && (result.Stored? ==>
                  && k in y.table && y.table[k] in y.items
                  && var got := y.items[y.table[k]];
                     && got.time == now && CasOf(s, got) == (if s.useCas then x.lastCas + 1 else 0)
                     && IsEntry(s, cmd, prev, it, got))
  {
    var k, it := x.items[id].key, x.items[id];
    RealData(s, now, x, id);
    StoresMeaning(s, x, y, cmd, id, now, room, result);
    MeaningAnswers(s, cmd, Lookup(s, now, x, k), it, room);
    if result.Stored? {
      var r := Meaning(cmd, Lookup(s, now, x, k), RecordOf(s, it), room).1;
      assert SameValue(y.items[y.table[k]], r.value);
    }
  }
}
