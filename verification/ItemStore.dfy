/** The item store of items.c as an object: the chunks in use, the hash table, the LRU lists with their
    crawl markers, and the counters, updated in place. Each method is proved to do what the functions of
    `ItemIndex`, `ItemOps` and `PullTail` say, where the properties of those are proved. */
module ItemStore {
  import opened Common
  import opened ItemIndex
  import opened PullTail
  import opened ItemOps
  import opened ItemAlloc

  type NodeLists = map<ListId, seq<Node>>

  function StripAll(lists: NodeLists): map<ListId, seq<Id>> {
    map l <- lists :: Strip(lists[l])
  }

  function NodesOf(lists: NodeLists, l: ListId): seq<Node> {
    if l in lists then lists[l] else []
  }

  lemma StripAllUpdate(lists: NodeLists, l: ListId, ns: seq<Node>)
    ensures StripAll(lists[l := ns]) == StripAll(lists)[l := Strip(ns)]
  {
  }

  /** Unlinks the item's node, passing over markers. */
  function Without(ns: seq<Node>, id: Id): seq<Node> {
    if ns == [] then [] else if ns[0] == Entry(id) then ns[1..] else [ns[0]] + Without(ns[1..], id)
  }

  function Shorter(lists: NodeLists, l: ListId, id: Id): NodeLists {
    lists[l := Without(NodesOf(lists, l), id)]
  }

  function Longer(lists: NodeLists, l: ListId, id: Id): NodeLists {
    lists[l := [Entry(id)] + NodesOf(lists, l)]
  }

  lemma {:induction false} StripWithout(ns: seq<Node>, id: Id)
    ensures Strip(Without(ns, id)) == Drop(Strip(ns), id)
  {
    if ns != [] {
      var rest := ns[1..];
      StripWithout(rest, id);
      if ns[0].Entry? {
        assert Strip(ns)[0] == ns[0].id && Strip(ns)[1..] == Strip(rest);
      }
      if ns[0] != Entry(id) {
        assert Without(ns, id)[0] == ns[0] && Without(ns, id)[1..] == Without(rest, id);
      }
    }
  }

  /** Half of do_item_link. */
  ghost function Entered(x: Index, id: Id, now: Time, useCas: bool): Index
    requires id in x.items
  {
    var it := x.items[id];
    var cas := if useCas then x.lastCas + 1 else 0;
    x.(items := x.items[id := it.(linked := true, time := now, cas := cas)], table := x.table[it.key := id],
       currItems := x.currItems + 1, currBytes := x.currBytes + it.ntotal,
       lastCas := if useCas then x.lastCas + 1 else x.lastCas)
  }

  lemma LinkSteps(x: Index, id: Id, now: Time, useCas: bool)
    requires id in x.items
    ensures var y := Entered(x, id, now, useCas);
            var z := PushOn(y, y.items[id].place, id, y.items[id].ntotal);
            z.(items := z.items[id := z.items[id].(refcount := z.items[id].refcount + 1)])
              == ItemIndex.Link(x, id, now, useCas)
  {
    var y, it := Entered(x, id, now, useCas), x.items[id];
    assert y.items[id := y.items[id].(refcount := it.refcount + 1)] == ItemIndex.Link(x, id, now, useCas).items;
  }

  lemma RelistSteps(x: Index, id: Id, l: ListId, time: Time, active: bool)
    requires id in x.items
    ensures var y := TakeOff(x, x.items[id].place, id, x.items[id].ntotal);
            var z := y.(items := x.items[id := x.items[id].(place := l, time := time, active := active)]);
            PushOn(z, l, id, z.items[id].ntotal) == ItemIndex.Relist(x, id, l, time, active)
  {
  }

  lemma {:induction false} WithoutIsCut(ns: seq<Node>, i: nat)
    requires i < |ns| && ns[i].Entry? && Distinct(Strip(ns))
    ensures Without(ns, ns[i].id) == CutAt(ns, i)
  {
    var rest := ns[1..];
    if i == 0 {
      assert CutAt(ns, 0) == rest;
    } else {
      StripRest(ns);
      if ns[0].Entry? {
        EntriesApart(ns, 0, i);
      }
      WithoutIsCut(rest, i - 1);
      CutLater(ns, i);
    }
  }

  lemma CutLater(ns: seq<Node>, i: nat)
    requires 0 < i < |ns|
    ensures CutAt(ns, i) == [ns[0]] + CutAt(ns[1..], i - 1)
  {
  }

  /** The reference given back after an unlink is there to be given back. */
  lemma LoseSteps(x: Index, id: Id)
    requires Valid(x) && id in x.items && x.items[id].linked
    ensures x.items[id].refcount > 0 && Valid(Retain(x, id))
    ensures var y := ItemIndex.Unlink(Retain(x, id), id); id in y.items && y.items[id].refcount > 0
  {
    RetainValid(x, id);
    assert ItemOk(x, id);
  }

  /** The list a new item will be linked on. */
  function HomeList(s: Settings, cls: nat, exptime: Time, now: Time): ListId {
    ListId(cls, if s.tempLru && Elapsed(exptime, now) <= s.temporaryTtl then Temp
                else if s.segmented then Hot else Cold)
  }

  /** memcpy. */
  method Copy(dst: array<byte>, at: nat, src: seq<byte>)
    requires at + |src| <= dst.Length
    modifies dst
    ensures dst[..] == old(dst[..])[..at] + src + old(dst[..])[at + |src|..]
  {
    forall i | at <= i < at + |src| {
      dst[i] := src[i - at];
    }
  }

  /** _store_item_copy_data for items in one chunk: the second copy overwrites the first one's line end. */
  method CopyData(cmd: Command, dst: array<byte>, found: seq<byte>, data: seq<byte>)
    requires |found| >= 2 && |data| >= 2 && dst.Length == |found| + |data| - 2
    modifies dst
    ensures dst[..] == JoinedData(cmd, found, data)
  {
    if cmd.Append? {
      Copy(dst, 0, found);
      Copy(dst, |found| - 2, data);
    } else {
      Copy(dst, 0, data);
      Copy(dst, |data| - 2, found);
    }
  }

  function JoinedItem(s: Settings, cmd: Command, q: Request, found: Item, it: Item, now: Time): Item
    requires |found.data| >= 2 && |it.data| >= 2
  {
    Item(found.key, JoinedData(cmd, found.data, it.data), found.flags, found.exptime, 0, 0, q.ntotal,
         HomeList(s, q.cls, found.exptime, now), false, false, false, 1)
  }

  /** The locals of lru_pull_tail's loop. */
  datatype Cursor = Cursor(cur: int, tries: nat, removed: nat, limit: nat, status: Status)

  class Store {
    const s: Settings
    var items: map<Id, Item>
    var table: map<Key, Id>
    var lists: NodeLists
    var sizes: map<ListId, nat>
    var sizesBytes: map<ListId, nat>
    var currItems: nat
    var currBytes: nat
    var lastCas: nat

    /** The references that threads and queues hold. */
    ghost var held: map<Id, nat>

    ghost function View(): Index
      reads this
    {
      Index(items, table, StripAll(lists), sizes, sizesBytes, currItems, currBytes, held, lastCas)
    }

    ghost predicate Sound()
      reads this
    {
      ItemIndex.Valid(View())
    }

    constructor (s: Settings)
      ensures Sound() && this.s == s && table == map[] && items == map[]
    {
      this.s := s;
      items, table, lists, sizes, sizesBytes := map[], map[], map[], map[], map[];
      currItems, currBytes, lastCas := 0, 0, 0;
      held := map[];
      new;
      EmptyValid();
    }

    // ----- the lists

    /** do_item_link_q. */
    method LinkQ(id: Id)
      requires id in items
      modifies `lists, `sizes, `sizesBytes
      ensures View() == PushOn(old(View()), items[id].place, id, items[id].ntotal)
      ensures lists == Longer(old(lists), items[id].place, id)
    {
      var l, n := items[id].place, items[id].ntotal;
      var ns := [Entry(id)] + NodesOf(lists, l);
      StripAllUpdate(lists, l, ns);
      PushStrips(NodesOf(lists, l), id);
      lists := lists[l := ns];
      sizes := sizes[l := CountAt(sizes, l) + 1];
      sizesBytes := sizesBytes[l := CountAt(sizesBytes, l) + n];
    }

    /** do_item_unlink_q. */
    method UnlinkQ(id: Id)
      requires id in items && CountAt(sizes, items[id].place) > 0 &&
               CountAt(sizesBytes, items[id].place) >= items[id].ntotal
      modifies `lists, `sizes, `sizesBytes
      ensures View() == TakeOff(old(View()), items[id].place, id, items[id].ntotal)
      ensures lists == Shorter(old(lists), items[id].place, id)
    {
      var l, n := items[id].place, items[id].ntotal;
      var ns := Without(NodesOf(lists, l), id);
      StripAllUpdate(lists, l, ns);
      StripWithout(NodesOf(lists, l), id);
      lists := lists[l := ns];
      sizes := sizes[l := CountAt(sizes, l) - 1];
      sizesBytes := sizesBytes[l := CountAt(sizesBytes, l) - n];
    }

    // ----- references

    /** refcount_incr. */
    method Incr(id: Id)
      requires id in items
      modifies `items, `held
      ensures View() == Retain(old(View()), id)
    {
      items := items[id := items[id].(refcount := items[id].refcount + 1)];
      held := held[id := (if id in held then held[id] else 0) + 1];
    }

    /** refcount_decr, and item_free at zero. */
    method Decr(id: Id)
      requires id in items && items[id].refcount > 0
      modifies `items
      ensures items == if old(items)[id].refcount == 1 then old(items) - {id}
                       else old(items)[id := old(items)[id].(refcount := old(items)[id].refcount - 1)]
    {
      var left := items[id].refcount - 1;
      if left == 0 {
        items := items - {id};
      } else {
        items := items[id := items[id].(refcount := left)];
      }
    }

    /** do_item_remove by a thread that holds a reference. */
    method Remove(id: Id)
      requires id in items && items[id].refcount > 0
      modifies `items, `held
      ensures View() == Release(old(View()), id)
    {
      Decr(id);
      held := held[id := Minus(if id in held then held[id] else 0, 1)];
    }

    // ----- linking

    /** get_cas_id, or 0 if the ids are switched off. */
    method DrawCas() returns (cas: nat)
      modifies `lastCas
      ensures cas == if s.useCas then old(lastCas) + 1 else 0
      ensures lastCas == if s.useCas then old(lastCas) + 1 else old(lastCas)
    {
      cas := 0;
      if s.useCas {
        lastCas := lastCas + 1;
        cas := lastCas;
      }
    }

    /** do_item_link. */
    method Link(id: Id, now: Time)
      requires id in items
      modifies this
      ensures View() == ItemIndex.Link(old(View()), id, now, s.useCas)
    {
      ghost var x := View();
      Enter(id, now);
      LinkQ(id);
      items := items[id := items[id].(refcount := items[id].refcount + 1)];
      LinkSteps(x, id, now, s.useCas);
    }

    /** The flag, the counters, the `cas` id and the hash table. */
    method Enter(id: Id, now: Time)
      requires id in items
      modifies `items, `table, `currItems, `currBytes, `lastCas
      ensures View() == Entered(old(View()), id, now, s.useCas)
    {
      var it := items[id];
      currBytes := currBytes + it.ntotal;
      currItems := currItems + 1;
      var cas := DrawCas();
      items := items[id := it.(linked := true, time := now, cas := cas)];
      table := table[it.key := id];
    }

    /** do_item_unlink. */
    method Unlink(id: Id)
      requires Sound() && id in items
      modifies this
      ensures View() == if old(items)[id].linked then ItemIndex.Unlink(old(View()), id) else old(View())
      ensures Sound() && (old(items)[id].linked ==> lists == Shorter(old(lists), old(items)[id].place, id))
    {
      if !items[id].linked {
        return;
      }
      ghost var x := View();
      LinkedFacts(x, id);
      UnlinkNow(id);
      UnlinkValid(x, id);
    }

    method UnlinkNow(id: Id)
      requires Backed(View(), id)
      modifies this
      ensures View() == ItemIndex.Unlink(old(View()), id) && lists == Shorter(old(lists), old(items)[id].place, id)
    {
      var it := items[id];
      items := items[id := it.(linked := false)];
      currBytes := currBytes - it.ntotal;
      currItems := currItems - 1;
      table := table - {it.key};
      UnlinkQ(id);
      Decr(id);
    }

    /** A reference is taken, the item unlinked, and the reference given back. */
    method LoseItem(id: Id)
      requires Sound() && id in items && items[id].linked
      modifies this
      ensures old(items)[id].refcount > 0 && View() == Lose(old(View()), id)
      ensures lists == Shorter(old(lists), old(items)[id].place, id)
    {
      LoseSteps(View(), id);
      Incr(id);
      Unlink(id);
      Remove(id);
    }

    // ----- hits

    /** Off its list and in front of another, or of the same. */
    method Relist(id: Id, l: ListId, time: Time, active: bool)
      requires Backed(View(), id)
      modifies `items, `lists, `sizes, `sizesBytes
      ensures View() == ItemIndex.Relist(old(View()), id, l, time, active)
      ensures lists == Longer(Shorter(old(lists), old(items)[id].place, id), l, id)
    {
      RelistSteps(View(), id, l, time, active);
      UnlinkQ(id);
      items := items[id := items[id].(place := l, time := time, active := active)];
      LinkQ(id);
    }

    /** New hit marks in place. */
    method Mark(id: Id, time: Time, fetched: bool, active: bool)
      requires id in items
      modifies `items
      ensures View() == ItemIndex.Mark(old(View()), id, time, fetched, active)
    {
      items := items[id := items[id].(time := time, fetched := fetched, active := active)];
    }

    /** do_item_update; `ItemMeaning.UpdateMeaning` says what that is. */
    method Update(id: Id, now: Clock)
      requires Sound() && id in items
      modifies `items, `lists, `sizes, `sizesBytes
      ensures View() == ItemOps.Update(s, old(View()), id, now) && Sound()
    {
      UpdateValid(s, View(), id, now);
      var it := items[id];
      if it.linked {
        LinkedFacts(View(), id);
      }
      if s.segmented {
        if it.linked {
          if it.place.lru.Cold? && it.active {
            Relist(id, ListId(it.place.cls, Warm), now, false);
          } else if it.time < Elapsed(now, 60) {
            Mark(id, now, it.fetched, it.active);
          }
        }
      } else if it.time < Elapsed(now, 60) {
        if it.linked {
          Relist(id, it.place, now, it.active);
        }
      }
    }

    /** The lookup of do_item_get: retained if live, else unlinked. */
    method Fetch(k: Key, now: Clock) returns (r: Option<Id>)
      requires Sound()
      modifies this
      ensures Findable(old(View()), k) && (View(), r) == ItemOps.Fetch(s, old(View()), k, now)
      ensures Sound()
    {
      FetchMeaning(s, View(), k, now);
      if k !in table {
        return None;
      }
      var id := table[k];
      assert KeyOk(View(), k);
      if Live(s, now, items[id]) {
        Incr(id);
        r := Some(id);
      } else {
        LoseItem(id);
        r := None;
      }
    }

    /** do_item_get; `queued` is the answer of lru_bump_async. */
    method GetItem(k: Key, now: Clock, update: bool, queued: bool) returns (r: Option<Id>)
      requires Sound()
      modifies this
      ensures Findable(old(View()), k)
      ensures r == ItemOps.Fetch(s, old(View()), k, now).1
      ensures r.Some? ==> r.value in ItemOps.Fetch(s, old(View()), k, now).0.items
      ensures View() == (var y := ItemOps.Fetch(s, old(View()), k, now).0;
                         if r.Some? && update then Hit(s, y, r.value, now, queued) else y)
      ensures Sound()
    {
      r := Fetch(k, now);
      FetchMeaning(s, old(View()), k, now);
      if r.Some? && update {
        Touch(r.value, now, queued);
      }
    }

    method Touch(id: Id, now: Clock, queued: bool)
      requires Sound() && id in items
      modifies `items, `held, `lists, `sizes, `sizesBytes
      ensures View() == Hit(s, old(View()), id, now, queued) && Sound()
    {
      var it := items[id];
      HitValid(s, View(), id, now, queued);
      if s.segmented {
        if !it.active {
          if !it.fetched {
            Mark(id, it.time, true, it.active);
          } else {
            MarkValid(View(), id, it.time, it.fetched, true);
            Mark(id, it.time, it.fetched, true);
            if !it.place.lru.Cold? {
              Update(id, now);
            } else if queued {
              Incr(id);
            } else {
              Mark(id, it.time, it.fetched, false);
            }
          }
        }
      } else {
        MarkValid(View(), id, it.time, true, it.active);
        Mark(id, it.time, true, it.active);
        Update(id, now);
      }
    }

    // ----- pulling the tail

    ghost function WalkAt(c: Call, p: Cursor): Walk
      reads this
    {
      Walk(View(), NodesOf(lists, c.l), p.cur, p.tries, p.removed, p.limit, p.status)
    }

    method KeepItem(id: Id)
      requires id in items
      modifies `items, `held
      ensures View() == Keep(old(View()), id)
    {
      Incr(id);
      Remove(id);
    }

    method CalmItem(id: Id)
      requires id in items
      modifies `items, `held
      ensures View() == Calm(old(View()), id)
    {
      Incr(id);
      Mark(id, items[id].time, items[id].fetched, false);
      Remove(id);
    }

    method ShiftItem(id: Id, l: ListId, time: Time)
      requires Backed(View(), id)
      modifies `items, `held, `lists, `sizes, `sizesBytes
      ensures View() == Shift(old(View()), id, l, time)
      ensures lists == Longer(Shorter(old(lists), old(items)[id].place, id), l, id)
    {
      Incr(id);
      Relist(id, l, time, false);
      Remove(id);
    }

    /** The item under the cursor can be taken off the list. */
    ghost predicate AtEntry(c: Call, p: Cursor, d: Deed)
      reads this
    {
      && AtNode(WalkAt(c, p), d) && (d.Lost? || d.Bumped? || d.Moved?)
      && items[d.id].place == c.l && Backed(View(), d.id)
      && Without(NodesOf(lists, c.l), d.id) == CutAt(NodesOf(lists, c.l), p.cur)
    }

    method PerformLost(c: Call, p: Cursor, d: Deed) returns (q: Cursor)
      requires Sound() && AtEntry(c, p, d) && d.Lost?
      modifies this
      ensures WalkAt(c, q) == Perform(c, old(WalkAt(c, p)), d)
    {
      LoseItem(d.id);
      q := Cursor(p.cur - 1, p.tries - 1, p.removed + 1, p.limit, if d.evicted then Finished else Going);
    }

    method PerformBumped(c: Call, p: Cursor, d: Deed) returns (q: Cursor)
      requires AtEntry(c, p, d) && d.Bumped?
      modifies this
      ensures WalkAt(c, q) == Perform(c, old(WalkAt(c, p)), d)
    {
      ShiftItem(d.id, c.l, c.now);
      q := p.(cur := if p.cur == 0 then -1 else p.cur, tries := p.tries - 1);
    }

    method PerformMoved(c: Call, p: Cursor, d: Deed) returns (q: Cursor)
      requires AtEntry(c, p, d) && d.Moved? && d.to != c.l.lru
      modifies this
      ensures WalkAt(c, q) == Perform(c, old(WalkAt(c, p)), d)
    {
      ShiftItem(d.id, ListId(c.l.cls, d.to), items[d.id].time);
      q := Cursor(p.cur - 1, p.tries - 1, p.removed + 1, p.limit, Finished);
    }

    /** Do what was decided for the node at the cursor. */
    method PerformDeed(c: Call, p: Cursor, d: Deed) returns (q: Cursor)
      requires SoundWalk(c, WalkAt(c, p)) && AtNode(WalkAt(c, p), d) && (d.Moved? ==> d.to != c.l.lru)
      modifies this
      ensures WalkAt(c, q) == Perform(c, old(WalkAt(c, p)), d)
    {
      if d.Lost? || d.Bumped? || d.Moved? {
        CursorFacts(c, p);
      }
      match d {
        case Pass => q := p.(cur := p.cur - 1);
        case Block => q := p.(status := Blocked);
        case Skip => q := p.(cur := p.cur - 1, tries := p.tries - 1);
        case Lost(_, _) => q := PerformLost(c, p, d);
        case Bumped(_) => q := PerformBumped(c, p, d);
        case Moved(_, _) => q := PerformMoved(c, p, d);
        case Calmed(id) =>
          CalmItem(id);
          q := p.(cur := p.cur - 1, tries := p.tries - 1);
        case Stopped(id) =>
          KeepItem(id);
          q := p.(cur := p.cur - 1, tries := p.tries - 1, status := Finished);
      }
    }

    /** The item under the cursor is linked on the list, with its counters. */
    lemma CursorFacts(c: Call, p: Cursor)
      requires SoundWalk(c, WalkAt(c, p)) && Alive(WalkAt(c, p))
      requires NodesOf(lists, c.l)[p.cur].Entry?
      ensures var id := NodesOf(lists, c.l)[p.cur].id;
              && OnList(items, c.l, id) && Backed(View(), id)
              && Without(NodesOf(lists, c.l), id) == CutAt(NodesOf(lists, c.l), p.cur)
    {
      NodeOnList(c, WalkAt(c, p), p.cur);
      LinkedFacts(View(), NodesOf(lists, c.l)[p.cur].id);
      assert ListOk(View(), c.l);
      WithoutIsCut(NodesOf(lists, c.l), p.cur);
    }

    /** What to do with the item at the cursor, with the branches of lru_pull_tail. */
    method DecideDeed(c: Call, p: Cursor) returns (d: Deed, limit: nat)
      requires Alive(WalkAt(c, p)) && Known(View(), NodesOf(lists, c.l)[p.cur])
      ensures d == Decide(c, s, WalkAt(c, p))
      ensures limit == NextLimit(c, s, WalkAt(c, p), d)
    {
      limit := p.limit;
      match NodesOf(lists, c.l)[p.cur] {
        case Marker => d := if c.crawlBlocks then Block else Pass;
        case Entry(id) =>
          if !Granted(c, items[id].key, p.tries) {
            d := Skip;
          } else if Doomed(s, c.now, items[id]) {
            d := Lost(id, false);
          } else {
            d, limit := TreatItem(c, p, id);
          }
      }
    }

    method TreatItem(c: Call, p: Cursor, id: Id) returns (d: Deed, limit: nat)
      requires Alive(WalkAt(c, p)) && id in items
      ensures d == Treat(c, s, WalkAt(c, p), id)
      ensures limit == if c.l.lru.Hot? || c.l.lru.Warm? then Limit(c, s, p.limit) else p.limit
    {
      limit := p.limit;
      var it := items[id];
      if c.l.lru.Hot? {
        limit := c.totalBytes * s.hotPct / 100;
      }
      if c.l.lru.Hot? || c.l.lru.Warm? {
        if limit == 0 {
          limit := c.totalBytes * s.warmPct / 100;
        }
        if it.active {
          if c.l.lru.Warm? {
            d := if it.time < Elapsed(c.now, 60) then Bumped(id) else Calmed(id);
          } else {
            d := Moved(id, Warm);
          }
        } else if CountAt(sizesBytes, c.l) > limit || Elapsed(c.now, it.time) > c.maxAge {
          d := Moved(id, Cold);
        } else {
          d := Stopped(id);
        }
      } else if c.l.lru.Cold? {
        d := Stopped(id);
        if c.evict {
          if s.evictToFree {
            d := Lost(id, true);
          }
        } else if it.active && s.segmented {
          d := Moved(id, Warm);
        }
      } else {
        d := Stopped(id);
      }
    }

    /** One turn of the loop. */
    method PullTurn(c: Call, p: Cursor) returns (q: Cursor)
      requires SoundWalk(c, WalkAt(c, p)) && Alive(WalkAt(c, p))
      modifies this
      ensures Known(old(View()), old(NodesOf(lists, c.l)[p.cur]))
      ensures WalkAt(c, q) == Turn(c, s, old(WalkAt(c, p)))
    {
      ghost var w := WalkAt(c, p);
      NodeOnList(c, w, p.cur);
      var d, limit := DecideDeed(c, p);
      q := PerformDeed(c, p, d);
      q := q.(limit := limit);
    }

    /** lru_pull_tail. Its meaning is `PullTail.PullTailMeaning`. */
    method Pull(c: Call) returns (n: nat)
      requires Sound()
      modifies this
      ensures SoundWalk(c, Start(c, old(View()), old(NodesOf(lists, c.l))))
      ensures var w := Run(c, s, Start(c, old(View()), old(NodesOf(lists, c.l))));
              View() == w.x && NodesOf(lists, c.l) == w.nodes && n == Returned(w)
      ensures Sound()
    {
      var p := Cursor(|NodesOf(lists, c.l)| - 1, if c.l.cls == 0 then 0 else TRIES, 0, 0, Going);
      ghost var w := Start(c, View(), NodesOf(lists, c.l));
      while p.status.Going? && p.tries > 0 && p.cur >= 0
        invariant SoundWalk(c, WalkAt(c, p)) && Run(c, s, WalkAt(c, p)) == Run(c, s, w)
        decreases p.status.Going?, p.tries, p.cur + 1
      {
        ghost var was := WalkAt(c, p);
        TurnSound(c, s, was);
        p := PullTurn(c, p);
      }
      n := if p.status.Blocked? then 0 else p.removed;
    }

    // ----- storing

    /** One pull for a thread that holds the lock of key `k`. */
    method PullFor(c: Call, ghost k: Key) returns (n: nat, ghost m: Made)
      requires Sound() && Owned(c, k)
      modifies this
      ensures Sound() && MadeOk(s, c.now, k, m) && m.p.c == c && m.from == old(View()) && m.to == View() && m.n == n
    {
      ghost var p := PullArgs(c, NodesOf(lists, c.l));
      ghost var x := View();
      assert CanPull(c.now, x, k, p);
      n := Pull(c);
      m := Made(p, x, n, View());
    }

    /** do_item_alloc_pull, up to the chunk itself. */
    method AllocPull(q: Request, k: Key, now: Clock) returns (ok: bool, ghost log: seq<RoundLog>)
      requires Sound() && |q.rounds| == ROUNDS
      modifies this
      ensures Sound() && Asked(s, q, k, now, old(View()), View(), log, ok)
    {
      var i := 0;
      ok, log := false, [];
      while i < ROUNDS
        invariant Sound() && |log| == i <= ROUNDS && Rounds(s, q, k, now, old(View()), View(), log)
        invariant AllGoRound(s, q, log, |log|) && !ok
      {
        var more;
        ghost var r;
        ok, more, r := AllocRound(q, q.rounds[i], k, now);
        RoundsSnoc(s, q, k, now, old(View()), r.from, log, r);
        GoSnoc(s, q, log, r);
        log := log + [r];
        if !more {
          return;
        }
        GoLast(s, q, log);
        i := i + 1;
      }
      AskedEnds(s, q, k, now, old(View()), View(), log);
    }

    method AllocRound(q: Request, round: Round, k: Key, now: Clock) returns (ok: bool, more: bool, ghost r: RoundLog)
      requires Sound()
      modifies this
      ensures Sound() && r.from == old(View()) && r.to == View()
      ensures Chained(s, now, k, r) && PullsOf(s, q, round, k, now, r.pulls)
      ensures ok == round.memory && (more <==> !ok && (s.segmented || EvictedBy(s, r) > 0))
    {
      r := RoundLog(View(), [], View());
      ChainedNone(s, now, k, View());
      if !s.segmented {
        var _, m := PullFor(Reclaiming(q, round, k, now), k);
        ChainedSnoc(s, now, k, r, m);
        r := RoundLog(r.from, r.pulls + [m], m.to);
      }
      ok := round.memory;
      more := false;
      if !ok {
        more, r := EvictRound(q, round, k, now, r);
      }
    }

    /** Evict from COLD; if nothing went and there is a HOT list, move something out of it. */
    method EvictRound(q: Request, round: Round, k: Key, now: Clock, ghost before: RoundLog)
      returns (more: bool, ghost r: RoundLog)
      requires Sound() && !round.memory && Chained(s, now, k, before) && before.to == View()
      requires if s.segmented then before.pulls == []
               else |before.pulls| == 1 && before.pulls[0].p.c == Reclaiming(q, round, k, now)
      modifies this
      ensures Sound() && r.from == before.from && r.to == View()
      ensures Chained(s, now, k, r) && PullsOf(s, q, round, k, now, r.pulls)
      ensures more <==> s.segmented || EvictedBy(s, r) > 0
    {
      var n, m := PullFor(Evicting(q, round, k, now), k);
      ChainedSnoc(s, now, k, before, m);
      r := RoundLog(before.from, before.pulls + [m], m.to);
      more := n > 0 || s.segmented;
      if n == 0 && s.segmented {
        ghost var m2;
        n, m2 := PullFor(Juggling(q, round, k, now), k);
        ChainedSnoc(s, now, k, r, m2);
        r := RoundLog(r.from, r.pulls + [m2], m2.to);
      }
    }

    /** The joined item in its chunk, with its data. */
    method FillChunk(cmd: Command, q: Request, o: Id, id: Id, now: Clock)
      requires o in items && id in items && |items[o].data| >= 2 && |items[id].data| >= 2
      modifies `items, `held
      ensures q.chunk in items && items[q.chunk].place.cls == q.cls && items[q.chunk].place.lru ==
                if s.tempLru && Elapsed(old(items)[o].exptime, now) <= s.temporaryTtl then Temp
                else if s.segmented then Hot else Cold
      ensures View() == Allocate(old(View()), q.chunk, JoinedItem(s, cmd, q, old(items)[o], old(items)[id], now))
    {
      var it := items[o];
      var dst := new byte[|it.data| + |items[id].data| - 2];
      CopyData(cmd, dst, it.data, items[id].data);
      items := items[q.chunk := Item(it.key, dst[..], it.flags, it.exptime, 0, 0, q.ntotal,
                                     HomeList(s, q.cls, it.exptime, now), false, false, false, 1)];
      held := held[q.chunk := 1];
    }

    /** do_item_alloc for a joined item: there is no class for a too large one. */
    method AllocJoined(q: Request, k: Key, now: Clock) returns (ok: bool, ghost log: seq<RoundLog>)
      requires Sound() && |q.rounds| == ROUNDS
      modifies this
      ensures Sound() && Pulled(s, now, old(View()), View(), k)
      ensures q.cls == 0 ==> !ok && View() == old(View())
      ensures q.cls != 0 ==> Asked(s, q, k, now, old(View()), View(), log, ok)
    {
      if q.cls == 0 {
        PulledNothing(s, now, View(), k);
        return false, [];
      }
      ok, log := AllocPull(q, k, now);
      AskedPulled(s, q, k, now, old(View()), View(), log, ok);
    }

    /** item_replace, or do_item_link where nothing was found. */
    method PutItem(prev: Option<Id>, id: Id, now: Clock)
      requires Sound() && id in items
      requires prev.Some? ==> prev.value in items && prev.value != id && items[prev.value].linked
      modifies this
      ensures View() == Put(s, old(View()), prev, id, now)
    {
      match prev {
        case None => Link(id, now);
        case Some(o) =>
          Unlink(o);
          Link(id, now);
      }
    }

    /** The item goes in, and the references to the item found and to a joined item are given back. */
    method SwapIn(prev: Option<Id>, id: Id, k: Key, now: Clock, joined: bool)
      requires Sound() && Unlinked(View(), id, k)
      requires match prev
               case None => k !in table
               case Some(o) => o in items && items[o].linked && items[o].key == k && Held(View(), o) > 0
      modifies this
      ensures View() == Swap(s, old(View()), prev, id, now, joined)
    {
      ghost var x := View();
      PutItem(prev, id, now);
      SwapSteps(s, x, prev, id, k, now);
      if prev.Some? {
        Remove(prev.value);
      }
      if joined {
        Remove(id);
      }
    }

    /** The end of a store that found `o` and stores nothing. */
    method GiveUp(o: Id, bump: bool, k: Key, now: Clock, ghost x: Index)
      requires Sound() && Findable(x, k) && ItemOps.Fetch(s, x, k, now) == (View(), Some(o)) && o in items
      modifies this
      ensures View() == Refuse(s, x, k, now, bump)
    {
      if bump {
        Update(o, now);
        UpdateBumps(s, old(View()), o, now);
      }
      assert ItemOk(View(), o);
      Remove(o);
    }

    /** Append or prepend to the item that a fetch found. */
    method StoreJoined(cmd: Command, q: Request, o: Id, id: Id, k: Key, now: Clock, ghost x: Index)
      returns (ok: bool, ghost z: Index, ghost it: Item, ghost log: seq<RoundLog>)
      requires Sound() && |q.rounds| == ROUNDS && q.chunk !in items && OwnKey(View(), id, k)
      requires Valid(x) && Findable(x, k) && ItemOps.Fetch(s, x, k, now) == (View(), Some(o))
      requires |items[id].data| >= 2
      modifies this
      ensures q.cls == 0 ==> !ok && z == old(View())
      ensures q.cls != 0 ==> Asked(s, q, k, now, old(View()), z, log, ok)
      ensures o in old(items) && |old(items)[o].data| >= 2
      ensures var r := Joined(cmd, RecordOf(s, old(items)[o]), RecordOf(s, old(items)[id]));
              if ok then JoinedIn(s, x, View(), k, now, r, z, q.chunk, it) else LeftAlone(s, x, View(), k, now, z)
    {
      ghost var y := View();
      FoundKey(s, x, y, k, o, now);
      it := JoinedItem(s, cmd, q, items[o], items[id], now);
      ok, log := AllocJoined(q, k, now);
      z := View();
      StillHeld(s, now, y, z, k, o);
      if ok {
        StillHeld(s, now, y, z, k, id);
        JoinReady(s, y, z, k, o, q.chunk, it, now);
        FillChunk(cmd, q, o, id, now);
        SwapIn(Some(o), q.chunk, k, now, true);
      } else {
        Remove(o);
      }
    }

    /** The rest of a store that joins. */
    method StoreOver(cmd: Command, q: Request, o: Id, id: Id, k: Key, now: Clock, ghost x: Index)
      returns (result: Result, room: bool, ghost z: Index, ghost log: seq<RoundLog>)
      requires Sound() && |q.rounds| == ROUNDS && q.chunk !in items && OwnKey(View(), id, k)
      requires NeedsRoom(s, x, cmd, id, now) && x.items[id].key == k && id in items && items[id] == x.items[id]
      requires Findable(x, k) && ItemOps.Fetch(s, x, k, now) == (View(), Some(o))
      modifies this
      ensures Stores(s, x, View(), cmd, id, now, room, result) && RoomOf(s, x, View(), id, now, q, z, log, room)
    {
      RealData(s, now, x, id);
      FetchMeaning(s, x, k, now);
      ghost var it;
      room, z, it, log := StoreJoined(cmd, q, o, id, k, now, x);
      JoinStores(s, x, View(), cmd, id, now, q, z, log, room, it);
      result := if room then Stored else NotStored;
    }

    /** do_store_item. `room` tells whether a joined value got its memory, and `log` how, in the rounds that led to
        `z`. */
    method StoreItem(id: Id, cmd: Command, now: Clock, q: Request)
      returns (result: Result, room: bool, ghost z: Index, ghost log: seq<RoundLog>)
      requires Sound() && CanStore(View(), id) && |q.rounds| == ROUNDS && q.chunk !in items
      modifies this
      ensures Stores(s, old(View()), View(), cmd, id, now, room, result)
      ensures Findable(old(View()), old(items)[id].key)
      ensures if NeedsRoom(s, old(View()), cmd, id, now) then RoomOf(s, old(View()), View(), id, now, q, z, log, room)
              else room
    {
      ghost var x := View();
      var k, token := items[id].key, CasOf(s, items[id]);
      room, z, log := true, x, [];
      FetchMeaning(s, x, k, now);
      FetchKeeps(s, x, k, id, now);
      RealData(s, now, x, id);
      var r := Fetch(k, now);
      if r.Some? && cmd.Add? {
        GiveUp(r.value, true, k, now, x);
        result := NotStored;
      } else if r.None? && (cmd.Replace? || cmd.Append? || cmd.Prepend?) {
        result := NotStored;
      } else if cmd.Cas? {
        if r.None? {
          result := NotFound;
        } else if token == CasOf(s, items[r.value]) {
          SwapIn(r, id, k, now, false);
          result := Stored;
        } else {
          GiveUp(r.value, false, k, now, x);
          result := Exists;
        }
      } else if cmd.Append? || cmd.Prepend? {
        if token != 0 && token != CasOf(s, items[r.value]) {
          GiveUp(r.value, false, k, now, x);
          result := Exists;
        } else {
          result, room, z, log := StoreOver(cmd, q, r.value, id, k, now, x);
        }
      } else {
        SwapIn(r, id, k, now, false);
        result := Stored;
      }
    }
  }
}
