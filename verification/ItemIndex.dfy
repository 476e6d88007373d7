/** The cross-index bookkeeping of items.c: every linked item is in the hash table and on one LRU
    list, and the counters and reference counts agree with that. The hash table is the finite map
    that module `Assoc` shows it to be, an LRU list the sequence that module `LruQueue` shows it to
    be; both are seen here without the crawler's markers. */
module ItemIndex {
  import opened Common

  type Key = seq<byte>
  type Id = nat

  /** rel_time_t, an unsigned 32-bit number of seconds. */
  type Time = t: nat | t < 0x1_0000_0000

  datatype Lru = Hot | Warm | Cold | Temp

  /** `slabs_clsid`: a slab class and one of its four lists. */
  datatype ListId = ListId(cls: nat, lru: Lru)

  /** `ntotal` is ITEM_ntotal, fixed when the item is allocated. */
  datatype Item = Item(key: Key, data: seq<byte>, flags: nat, exptime: Time, time: Time, cas: nat, ntotal: nat,
                       place: ListId, linked: bool, fetched: bool, active: bool, refcount: nat)

  /** `items` are the chunks handed out by the slab allocator. `held` counts the references that
      threads and queues hold to an item; it is not part of the program's state. */
  datatype Index = Index(items: map<Id, Item>, table: map<Key, Id>, lists: map<ListId, seq<Id>>,
                         sizes: map<ListId, nat>, sizesBytes: map<ListId, nat>,
                         currItems: nat, currBytes: nat, held: map<Id, nat>, lastCas: nat)

  // ----- views

  function ListOf(x: Index, l: ListId): seq<Id> {
    if l in x.lists then x.lists[l] else []
  }

  function Held(x: Index, id: Id): nat {
    if id in x.held then x.held[id] else 0
  }

  function Minus(a: nat, b: nat): nat {
    if a >= b then a - b else 0
  }

  ghost function LinkedIds(items: map<Id, Item>): set<Id> {
    set id <- items | items[id].linked
  }

  function CountAt(m: map<ListId, nat>, l: ListId): nat {
    if l in m then m[l] else 0
  }

  ghost function ListBytes(items: map<Id, Item>, q: seq<Id>): nat
    requires forall id <- q :: id in items
  {
    if q == [] then 0 else items[q[0]].ntotal + ListBytes(items, q[1..])
  }

  ghost function Bytes(items: map<Id, Item>, ids: set<Id>): nat
    requires ids <= items.Keys
  {
    if ids == {} then 0
    else
      var id :| id in ids;
      items[id].ntotal + Bytes(items, ids - {id})
  }

  // ----- the invariant

  /** do_item_alloc gives no item whose data is shorter than a line end, and no command has an empty key. */
  predicate Real(it: Item) {
    |it.key| > 0 && |it.data| >= 2
  }

  /** In the hash table exactly when linked, on its list when linked, and counted right. */
  ghost predicate ItemOk(x: Index, id: Id)
    requires id in x.items
  {
    var it := x.items[id];
    && Real(it)
    && (it.linked <==> it.key in x.table && x.table[it.key] == id)
    && (it.linked ==> id in ListOf(x, it.place))
    && it.refcount == (if it.linked then 1 else 0) + Held(x, id)
    && it.refcount > 0
  }

  ghost predicate KeyOk(x: Index, k: Key)
    requires k in x.table
  {
    x.table[k] in x.items && x.items[x.table[k]].key == k && x.items[x.table[k]].linked
  }

  ghost predicate Distinct(q: seq<Id>) {
    forall i, j :: 0 <= i < j < |q| ==> q[i] != q[j]
  }

  /** A list holds linked items that belong on it, each once. */
  ghost predicate OnList(items: map<Id, Item>, l: ListId, id: Id) {
    id in items && items[id].linked && items[id].place == l
  }

  ghost predicate ListOk(x: Index, l: ListId) {
    var q := ListOf(x, l);
    && (forall id <- q {:trigger OnList(x.items, l, id)} :: OnList(x.items, l, id))
    && Distinct(q)
  }

  ghost predicate SizeOk(x: Index, l: ListId)
    requires ListOk(x, l)
  {
    var q := ListOf(x, l);
    && CountAt(x.sizes, l) == |q|
    && (forall id <- q :: id in x.items) && CountAt(x.sizesBytes, l) == ListBytes(x.items, q)
  }

  ghost predicate Placed(x: Index) {
    && (forall id <- x.items {:trigger ItemOk(x, id)} :: ItemOk(x, id))
    && (forall k <- x.table {:trigger KeyOk(x, k)} :: KeyOk(x, k))
    && (forall l {:trigger ListOk(x, l)} :: ListOk(x, l))
    && (forall id <- x.held :: x.held[id] > 0 ==> id in x.items)
  }

  ghost predicate Counted(x: Index)
    requires forall l :: ListOk(x, l)
  {
    && (forall l {:trigger SizeOk(x, l)} :: SizeOk(x, l))
    && x.currItems == |x.table|
    && x.currBytes == Bytes(x.items, LinkedIds(x.items))
  }

  ghost predicate Valid(x: Index) {
    Placed(x) && Counted(x)
  }

  // ----- sums

  lemma {:induction false} BytesSplit(items: map<Id, Item>, ids: set<Id>, id: Id)
    requires ids <= items.Keys && id in ids
    ensures Bytes(items, ids) == items[id].ntotal + Bytes(items, ids - {id})
    decreases |ids|
  {
    var first :| first in ids && Bytes(items, ids) == items[first].ntotal + Bytes(items, ids - {first});
    if first != id {
      BytesSplit(items, ids - {first}, id);
      BytesSplit(items, ids - {id}, first);
      assert ids - {first} - {id} == ids - {id} - {first};
    }
  }

  /** Only the sizes matter. */
  lemma {:induction false} BytesSame(items: map<Id, Item>, items': map<Id, Item>, ids: set<Id>)
    requires ids <= items.Keys && ids <= items'.Keys
    requires forall id <- ids :: items[id].ntotal == items'[id].ntotal
    ensures Bytes(items, ids) == Bytes(items', ids)
    decreases |ids|
  {
    if ids != {} {
      var id :| id in ids;
      BytesSplit(items, ids, id);
      BytesSplit(items', ids, id);
      BytesSame(items, items', ids - {id});
    }
  }

  lemma {:induction false} ListBytesSame(items: map<Id, Item>, items': map<Id, Item>, q: seq<Id>)
    requires forall id <- q :: id in items && id in items' && items[id].ntotal == items'[id].ntotal
    ensures ListBytes(items, q) == ListBytes(items', q)
  {
    if q != [] {
      ListBytesSame(items, items', q[1..]);
    }
  }

  function Drop(q: seq<Id>, id: Id): seq<Id> {
    if q == [] then [] else if q[0] == id then q[1..] else [q[0]] + Drop(q[1..], id)
  }

  lemma {:induction false} DropFacts(q: seq<Id>, id: Id)
    requires Distinct(q) && id in q
    ensures Distinct(Drop(q, id)) && id !in Drop(q, id) && |Drop(q, id)| == |q| - 1
    ensures forall x :: x in Drop(q, id) <==> x in q && x != id
  {
    assert q == [q[0]] + q[1..];
    if q[0] != id {
      DropFacts(q[1..], id);
      assert q[0] !in q[1..];
    }
  }

  lemma {:induction false} DropBytes(items: map<Id, Item>, q: seq<Id>, id: Id)
    requires (forall x <- q :: x in items) && id in q && forall x <- Drop(q, id) :: x in items
    ensures ListBytes(items, q) == ListBytes(items, Drop(q, id)) + items[id].ntotal
  {
    if q[0] != id {
      assert id in q[1..];
      assert Drop(q, id)[1..] == Drop(q[1..], id);
      assert forall x <- Drop(q[1..], id) :: x in Drop(q, id);
      DropBytes(items, q[1..], id);
    }
  }

  // ----- the primitive changes

  /** A reference is taken (refcount_incr). */
  function Retain(x: Index, id: Id): Index
    requires id in x.items
  {
    x.(items := x.items[id := x.items[id].(refcount := x.items[id].refcount + 1)],
       held := x.held[id := Held(x, id) + 1])
  }

  /** do_item_remove: a reference is given back, and the last one frees the item. */
  function Release(x: Index, id: Id): Index
    requires id in x.items
  {
    var held := x.held[id := Minus(Held(x, id), 1)];
    if x.items[id].refcount <= 1 then x.(items := x.items - {id}, held := held)
    else x.(items := x.items[id := x.items[id].(refcount := x.items[id].refcount - 1)], held := held)
  }

  /** A fresh chunk with one reference, on no list and not in the table. */
  function Allocate(x: Index, id: Id, it: Item): Index
  {
    x.(items := x.items[id := it.(linked := false, refcount := 1)], held := x.held[id := 1])
  }

  function PushOn(x: Index, l: ListId, id: Id, ntotal: nat): Index {
    x.(lists := x.lists[l := [id] + ListOf(x, l)], sizes := x.sizes[l := CountAt(x.sizes, l) + 1],
       sizesBytes := x.sizesBytes[l := CountAt(x.sizesBytes, l) + ntotal])
  }

  function TakeOff(x: Index, l: ListId, id: Id, ntotal: nat): Index {
    x.(lists := x.lists[l := Drop(ListOf(x, l), id)], sizes := x.sizes[l := Minus(CountAt(x.sizes, l), 1)],
       sizesBytes := x.sizesBytes[l := Minus(CountAt(x.sizesBytes, l), ntotal)])
  }

  /** do_item_link. */
  function Link(x: Index, id: Id, now: Time, useCas: bool): Index
    requires id in x.items
  {
    var it := x.items[id];
    var cas := if useCas then x.lastCas + 1 else 0;
    var it' := it.(linked := true, time := now, cas := cas, refcount := it.refcount + 1);
    PushOn(x, it.place, id, it.ntotal).(
      items := x.items[id := it'], table := x.table[it.key := id],
      currItems := x.currItems + 1, currBytes := x.currBytes + it.ntotal,
      lastCas := if useCas then x.lastCas + 1 else x.lastCas)
  }

  /** The counters cover a linked item. */
  ghost predicate Backed(x: Index, id: Id) {
    && id in x.items && x.items[id].linked && x.items[id].refcount > 0
    && CountAt(x.sizes, x.items[id].place) > 0 && CountAt(x.sizesBytes, x.items[id].place) >= x.items[id].ntotal
    && x.currItems > 0 && x.currBytes >= x.items[id].ntotal
  }

  /** do_item_unlink of a linked item: the index's own reference goes too. */
  function Unlink(x: Index, id: Id): Index
    requires id in x.items
  {
    var it := x.items[id];
    TakeOff(x, it.place, id, it.ntotal).(
      items := if it.refcount <= 1 then x.items - {id}
               else x.items[id := it.(linked := false, refcount := it.refcount - 1)],
      table := x.table - {it.key},
      currItems := Minus(x.currItems, 1), currBytes := Minus(x.currBytes, it.ntotal))
  }

  /** Move a linked item to the head of a list, with new hit marks. */
  function Relist(x: Index, id: Id, l: ListId, time: Time, active: bool): Index
    requires id in x.items
  {
    var it := x.items[id];
    PushOn(TakeOff(x, it.place, id, it.ntotal), l, id, it.ntotal).(
      items := x.items[id := it.(place := l, time := time, active := active)])
  }

  /** New hit marks only. */
  function Mark(x: Index, id: Id, time: Time, fetched: bool, active: bool): Index
    requires id in x.items
  {
    x.(items := x.items[id := x.items[id].(time := time, fetched := fetched, active := active)])
  }

  // ----- each keeps the invariant

  /** Two states with the same lists, table and links agree on everything but reference counts. */
  ghost predicate SameLinks(x: Index, y: Index) {
    && x.table == y.table && x.lists == y.lists && x.sizes == y.sizes && x.sizesBytes == y.sizesBytes
    && x.currItems == y.currItems && x.currBytes == y.currBytes
    && (forall id <- x.items {:trigger SameItem(x, y, id)} :: SameItem(x, y, id))
    && (forall id <- y.items {:trigger SameItem(y, x, id)} :: SameItem(y, x, id))
  }

  ghost predicate SameItem(x: Index, y: Index, id: Id)
    requires id in x.items
  {
    if id in y.items
    then && x.items[id].linked == y.items[id].linked && x.items[id].place == y.items[id].place
         && x.items[id].key == y.items[id].key && x.items[id].ntotal == y.items[id].ntotal
    else !x.items[id].linked
  }

  lemma SameLinksValid(x: Index, y: Index)
    requires Valid(x) && SameLinks(x, y)
    requires forall id <- y.items {:trigger ItemOk(y, id)} :: ItemOk(y, id)
    requires forall id <- y.held :: y.held[id] > 0 ==> id in y.items
    ensures Valid(y)
  {
    forall k <- y.table ensures KeyOk(y, k) {
      assert KeyOk(x, k);
      assert SameItem(x, y, x.table[k]);
    }
    forall l ensures ListOk(y, l) && SizeOk(y, l) {
      SameList(x, y, l);
    }
    SameBytes(x, y);
  }

  lemma SameList(x: Index, y: Index, l: ListId)
    requires ListOk(x, l) && SizeOk(x, l) && SameLinks(x, y)
    ensures ListOk(y, l) && SizeOk(y, l)
  {
    forall id <- ListOf(y, l) ensures OnList(y.items, l, id) {
      assert OnList(x.items, l, id);
      assert SameItem(x, y, id);
    }
    forall id <- ListOf(y, l) ensures id in x.items && id in y.items && x.items[id].ntotal == y.items[id].ntotal {
      assert OnList(x.items, l, id) && OnList(y.items, l, id);
      assert SameItem(x, y, id);
    }
    ListBytesSame(x.items, y.items, ListOf(x, l));
  }

  lemma SameBytes(x: Index, y: Index)
    requires SameLinks(x, y)
    ensures Bytes(x.items, LinkedIds(x.items)) == Bytes(y.items, LinkedIds(y.items))
  {
    forall id ensures id in LinkedIds(x.items) <==> id in LinkedIds(y.items) {
      assert id in x.items ==> SameItem(x, y, id);
      assert id in y.items ==> SameItem(y, x, id);
    }
    assert LinkedIds(x.items) == LinkedIds(y.items);
    forall id <- LinkedIds(x.items) ensures x.items[id].ntotal == y.items[id].ntotal {
      assert SameItem(x, y, id);
    }
    BytesSame(x.items, y.items, LinkedIds(x.items));
  }

  /** Only a reference count and its holders change together. */
  lemma CountedItem(x: Index, y: Index, i: Id)
    requires i in x.items && i in y.items && ItemOk(x, i) && x.table == y.table && x.lists == y.lists
    requires y.items[i] == x.items[i].(refcount := y.items[i].refcount)
    requires y.items[i].refcount - x.items[i].refcount == Held(y, i) - Held(x, i)
    requires y.items[i].refcount > 0
    ensures ItemOk(y, i)
  {
  }

  lemma RetainValid(x: Index, id: Id)
    requires Valid(x) && id in x.items
    ensures Valid(Retain(x, id))
  {
    var y := Retain(x, id);
    forall i <- y.items ensures ItemOk(y, i) {
      assert ItemOk(x, i);
      CountedItem(x, y, i);
    }
    RetainLinks(x, id);
    SameLinksValid(x, y);
  }

  lemma RetainLinks(x: Index, id: Id)
    requires id in x.items
    ensures SameLinks(x, Retain(x, id))
  {
  }

  lemma ReleaseLinks(x: Index, id: Id)
    requires id in x.items && (x.items[id].refcount <= 1 ==> !x.items[id].linked)
    ensures SameLinks(x, Release(x, id))
  {
  }

  lemma ReleaseFields(x: Index, id: Id)
    requires id in x.items && Held(x, id) > 0
    ensures var y := Release(x, id);
            && y.table == x.table && y.lists == x.lists && Held(y, id) == Held(x, id) - 1
            && (id in y.items ==>
                  y.items[id].refcount > 0 && y.items[id] == x.items[id].(refcount := x.items[id].refcount - 1))
  {
  }

  lemma ReleaseItem(x: Index, id: Id, i: Id)
    requires id in x.items && Held(x, id) > 0 && ItemOk(x, id)
    requires i in x.items && ItemOk(x, i) && i in Release(x, id).items
    ensures ItemOk(Release(x, id), i)
  {
    var y := Release(x, id);
    ReleaseFields(x, id);
    if i != id {
      assert y.items[i] == x.items[i] && Held(y, i) == Held(x, i);
      assert y.items[i] == x.items[i].(refcount := y.items[i].refcount);
    }
    CountedItem(x, y, i);
  }

  lemma ReleaseValid(x: Index, id: Id)
    requires Valid(x) && id in x.items && Held(x, id) > 0
    ensures Valid(Release(x, id))
    // freed with its last reference, and never while linked
    ensures id !in Release(x, id).items <==> !x.items[id].linked && Held(x, id) == 1
  {
    assert ItemOk(x, id);
    var y := Release(x, id);
    forall i <- y.items ensures ItemOk(y, i) {
      ReleaseItem(x, id, i);
    }
    ReleaseLinks(x, id);
    SameLinksValid(x, y);
  }

  lemma AllocateValid(x: Index, id: Id, it: Item)
    requires Valid(x) && id !in x.items && Real(it)
    ensures Valid(Allocate(x, id, it))
  {
    var y := Allocate(x, id, it);
    forall i <- y.items ensures ItemOk(y, i) {
      if i != id {
        assert ItemOk(x, i);
      } else if it.key in x.table {
        assert KeyOk(x, it.key);
      }
    }
    SameLinksValid(x, y);
  }

  lemma MarkValid(x: Index, id: Id, time: Time, fetched: bool, active: bool)
    requires Valid(x) && id in x.items
    ensures Valid(Mark(x, id, time, fetched, active))
  {
    var y := Mark(x, id, time, fetched, active);
    forall i <- y.items ensures ItemOk(y, i) {
      assert ItemOk(x, i);
    }
    SameLinksValid(x, y);
  }

  // ----- linking

  lemma LinkPlaced(x: Index, id: Id, now: Time, useCas: bool)
    requires Valid(x) && id in x.items && x.items[id].key !in x.table
    ensures var y := Link(x, id, now, useCas);
            && (forall i <- y.items :: ItemOk(y, i)) && (forall k <- y.table :: KeyOk(y, k))
  {
    var y := Link(x, id, now, useCas);
    assert ItemOk(x, id);
    forall i <- y.items ensures ItemOk(y, i) {
      assert ItemOk(x, i);
      assert ListOf(y, x.items[id].place)[0] == id;
    }
    forall k <- y.table ensures KeyOk(y, k) {
      if k != x.items[id].key {
        assert KeyOk(x, k);
      }
    }
  }

  lemma LinkOther(x: Index, id: Id, now: Time, useCas: bool, l: ListId, i: Id)
    requires id in x.items && ItemOk(x, id) && x.items[id].key !in x.table && OnList(x.items, l, i)
    ensures i != id && OnList(Link(x, id, now, useCas).items, l, i)
  {
  }

  lemma LinkLists(x: Index, id: Id, now: Time, useCas: bool, l: ListId)
    requires Valid(x) && id in x.items && x.items[id].key !in x.table
    ensures var y := Link(x, id, now, useCas); ListOk(y, l) && SizeOk(y, l)
  {
    var y := Link(x, id, now, useCas);
    assert ItemOk(x, id) && ListOk(x, l) && SizeOk(x, l);
    forall i <- ListOf(x, l) ensures i != id && OnList(y.items, l, i) {
      assert OnList(x.items, l, i);
      LinkOther(x, id, now, useCas, l, i);
    }
    assert id !in ListOf(x, l);
    ListBytesSame(x.items, y.items, ListOf(x, l));
    if l == x.items[id].place {
      assert ListOf(y, l)[1..] == ListOf(x, l);
    }
  }

  /** One more linked item. */
  lemma OneMore(items: map<Id, Item>, items': map<Id, Item>, id: Id)
    requires id in items' && items'[id].linked && (id in items ==> !items[id].linked)
    requires forall i <- items :: i != id && items[i].linked ==> i in items' && items'[i] == items[i]
    requires forall i <- items' :: i != id && items'[i].linked ==> i in items && items'[i] == items[i]
    ensures Bytes(items', LinkedIds(items')) == Bytes(items, LinkedIds(items)) + items'[id].ntotal
  {
    var before := LinkedIds(items);
    assert LinkedIds(items') - {id} == before;
    BytesSplit(items', LinkedIds(items'), id);
    BytesSame(items, items', before);
  }

  lemma LinkBytes(x: Index, id: Id, now: Time, useCas: bool)
    requires Valid(x) && id in x.items && x.items[id].key !in x.table
    ensures var y := Link(x, id, now, useCas);
            Bytes(y.items, LinkedIds(y.items)) == Bytes(x.items, LinkedIds(x.items)) + x.items[id].ntotal
  {
    assert ItemOk(x, id);
    OneMore(x.items, Link(x, id, now, useCas).items, id);
  }

  lemma LinkValid(x: Index, id: Id, now: Time, useCas: bool)
    requires Valid(x) && id in x.items && x.items[id].key !in x.table
    ensures Valid(Link(x, id, now, useCas))
  {
    LinkPlaced(x, id, now, useCas);
    forall l ensures ListOk(Link(x, id, now, useCas), l) && SizeOk(Link(x, id, now, useCas), l) {
      LinkLists(x, id, now, useCas, l);
    }
    LinkBytes(x, id, now, useCas);
  }

  // ----- unlinking

  /** What the operations on a linked item rely on: it is on its list, and the counters cover it. */
  lemma LinkedFacts(x: Index, id: Id)
    requires Valid(x) && id in x.items && x.items[id].linked
    ensures Backed(x, id) && id in ListOf(x, x.items[id].place)
    ensures x.items[id].key in x.table && x.table[x.items[id].key] == id
  {
    var it := x.items[id];
    assert ItemOk(x, id) && ListOk(x, it.place) && SizeOk(x, it.place);
    DropFacts(ListOf(x, it.place), id);
    DropBytes(x.items, ListOf(x, it.place), id);
    BytesSplit(x.items, LinkedIds(x.items), id);
  }

  lemma UnlinkPlaced(x: Index, id: Id)
    requires Valid(x) && id in x.items && x.items[id].linked
    ensures var y := Unlink(x, id);
            && (forall i <- y.items :: ItemOk(y, i)) && (forall k <- y.table :: KeyOk(y, k))
  {
    LinkedFacts(x, id);
    var y := Unlink(x, id);
    assert ItemOk(x, id) && ListOk(x, x.items[id].place);
    DropFacts(ListOf(x, x.items[id].place), id);
    forall i <- y.items ensures ItemOk(y, i) {
      assert ItemOk(x, i);
    }
    forall k <- y.table ensures KeyOk(y, k) {
      assert KeyOk(x, k);
    }
  }

  lemma UnlinkLists(x: Index, id: Id, l: ListId)
    requires Valid(x) && id in x.items && x.items[id].linked
    ensures var y := Unlink(x, id); ListOk(y, l) && SizeOk(y, l)
  {
    LinkedFacts(x, id);
    var y, q := Unlink(x, id), ListOf(x, l);
    assert ListOk(x, l) && SizeOk(x, l);
    if l == x.items[id].place {
      DropFacts(q, id);
      DropBytes(x.items, q, id);
    } else {
      assert id in q ==> OnList(x.items, l, id);
    }
    forall i <- ListOf(y, l) ensures OnList(y.items, l, i) && i in x.items && x.items[i].ntotal == y.items[i].ntotal {
      assert OnList(x.items, l, i);
    }
    ListBytesSame(x.items, y.items, ListOf(y, l));
  }

  lemma UnlinkBytes(x: Index, id: Id)
    requires Valid(x) && id in x.items && x.items[id].linked
    ensures var y := Unlink(x, id);
            Bytes(x.items, LinkedIds(x.items)) == Bytes(y.items, LinkedIds(y.items)) + x.items[id].ntotal
  {
    LinkedFacts(x, id);
    var y := Unlink(x, id);
    OneMore(y.items, x.items, id);
  }

  lemma UnlinkValid(x: Index, id: Id)
    requires Valid(x) && id in x.items && x.items[id].linked
    ensures Valid(Unlink(x, id))
    // freed at once only if nobody else holds it
    ensures id !in Unlink(x, id).items <==> Held(x, id) == 0
  {
    LinkedFacts(x, id);
    var y := Unlink(x, id);
    assert ItemOk(x, id);
    UnlinkPlaced(x, id);
    forall l ensures ListOk(y, l) && SizeOk(y, l) {
      UnlinkLists(x, id, l);
    }
    UnlinkBytes(x, id);
  }

  // ----- moving between lists

  lemma RelistValid(x: Index, id: Id, l: ListId, time: Time, active: bool)
    requires Valid(x) && id in x.items && x.items[id].linked
    ensures Valid(Relist(x, id, l, time, active))
  {
    LinkedFacts(x, id);
    var y := Relist(x, id, l, time, active);
    RelistPlaced(x, id, l, time, active);
    forall m ensures ListOk(y, m) && SizeOk(y, m) {
      RelistLists(x, id, l, time, active, m);
    }
    assert LinkedIds(y.items) == LinkedIds(x.items);
    BytesSame(x.items, y.items, LinkedIds(x.items));
  }

  lemma RelistPlaced(x: Index, id: Id, l: ListId, time: Time, active: bool)
    requires Valid(x) && id in x.items && x.items[id].linked
    ensures var y := Relist(x, id, l, time, active);
            && (forall i <- y.items :: ItemOk(y, i)) && (forall k <- y.table :: KeyOk(y, k))
  {
    LinkedFacts(x, id);
    var y := Relist(x, id, l, time, active);
    assert ListOk(x, x.items[id].place);
    DropFacts(ListOf(x, x.items[id].place), id);
    forall i <- y.items ensures ItemOk(y, i) {
      assert ItemOk(x, i);
      assert ListOf(y, l)[0] == id;
    }
    forall k <- y.table ensures KeyOk(y, k) {
      assert KeyOk(x, k);
    }
  }

  /** The other lists, and the old one without the item. */
  lemma LeavingLists(x: Index, id: Id, m: ListId)
    requires Valid(x) && id in x.items && x.items[id].linked
    ensures var w := TakeOff(x, x.items[id].place, id, x.items[id].ntotal);
            && (forall i <- ListOf(w, m) {:trigger OnList(x.items, m, i)} :: OnList(x.items, m, i) && i != id)
            && (forall i <- ListOf(w, m) :: i in x.items)
            && Distinct(ListOf(w, m)) && CountAt(w.sizes, m) == |ListOf(w, m)|
            && CountAt(w.sizesBytes, m) == ListBytes(x.items, ListOf(w, m))
  {
    LinkedFacts(x, id);
    var q := ListOf(x, m);
    assert ListOk(x, m) && SizeOk(x, m);
    if m == x.items[id].place {
      DropFacts(q, id);
      forall i <- Drop(q, id) ensures OnList(x.items, m, i) && i != id {
        assert OnList(x.items, m, i);
      }
      DropBytes(x.items, q, id);
    } else {
      assert id in q ==> OnList(x.items, m, id);
    }
  }

  lemma RelistLists(x: Index, id: Id, l: ListId, time: Time, active: bool, m: ListId)
    requires Valid(x) && id in x.items && x.items[id].linked
    ensures var y := Relist(x, id, l, time, active); ListOk(y, m) && SizeOk(y, m)
  {
    LeavingLists(x, id, m);
    var w := TakeOff(x, x.items[id].place, id, x.items[id].ntotal);
    var y := Relist(x, id, l, time, active);
    forall i <- ListOf(w, m) ensures OnList(y.items, m, i) && i != id && i in x.items &&
      x.items[i].ntotal == y.items[i].ntotal {
      assert OnList(x.items, m, i);
    }
    ListBytesSame(x.items, y.items, ListOf(w, m));
    if m == l {
      assert ListOf(y, m)[1..] == ListOf(w, m);
    }
  }

  /** No items yet. */
  function Empty(): Index {
    Index(map[], map[], map[], map[], map[], 0, 0, map[], 0)
  }

  lemma EmptyValid()
    ensures Valid(Empty())
  {
    assert LinkedIds(Empty().items) == {};
  }
}
