/** Every run of item operations (items.c:341-353, 372-547), whatever their order: the flag, the hash table, the LRU
    lists, the totals and the reference counts agree in every state between two operations. */
module ItemRuns {
  import opened ItemIndex

  /** do_item_replace is an unlink and a link, do_item_update a move or a mark, and a reclaim in lru_pull_tail a
      take, an unlink and a give. */
  datatype Op =
    | Make(id: Id, it: Item)
    | Enter(id: Id, now: Time, useCas: bool)
    | Leave(id: Id)
    | Take(id: Id)
    | Give(id: Id)
    | Move(id: Id, l: ListId, now: Time, active: bool)
    | Touch(id: Id, now: Time, fetched: bool, active: bool)

  /** A chunk that is made is free, and gets a real item; an item that is linked is the only one for its key; a
      reference that is given back is held. Unlinking and moving look at the flag themselves. */
  ghost predicate Enabled(x: Index, op: Op) {
    match op
    case Make(id, it) => id !in x.items && Real(it)
    case Enter(id, _, _) => id in x.items && x.items[id].key !in x.table
    case Give(id) => id in x.items && Held(x, id) > 0
    case _ => op.id in x.items
  }

  ghost function Next(x: Index, op: Op): Index
    requires Enabled(x, op)
  {
    match op
    case Make(id, it) => Allocate(x, id, it)
    case Enter(id, now, useCas) => Link(x, id, now, useCas)
    case Leave(id) => if x.items[id].linked then Unlink(x, id) else x
    case Take(id) => Retain(x, id)
    case Give(id) => Release(x, id)
    case Move(id, l, now, active) => if x.items[id].linked then Relist(x, id, l, now, active) else x
    case Touch(id, now, fetched, active) => Mark(x, id, now, fetched, active)
  }

  lemma StepKeepsValid(x: Index, op: Op)
    requires Valid(x) && Enabled(x, op)
    ensures Valid(Next(x, op))
  {
    match op {
      case Make(id, it) => AllocateValid(x, id, it);
      case Enter(id, now, useCas) => LinkValid(x, id, now, useCas);
      case Leave(id) => if x.items[id].linked { UnlinkValid(x, id); }
      case Take(id) => RetainValid(x, id);
      case Give(id) => ReleaseValid(x, id);
      case Move(id, l, now, active) => if x.items[id].linked { RelistValid(x, id, l, now, active); }
      case Touch(id, now, fetched, active) => MarkValid(x, id, now, fetched, active);
    }
  }

  // ----- what the invariant says

  ghost predicate OnOnlyList(x: Index, id: Id, l: ListId) {
    id in ListOf(x, l) && forall m {:trigger ListOf(x, m)} :: id in ListOf(x, m) ==> m == l
  }

  /** Linked, in the table, and on one list: all three or none. */
  ghost predicate Indexed(x: Index, id: Id)
    requires id in x.items
  {
    var it := x.items[id];
    && (it.linked <==> it.key in x.table && x.table[it.key] == id)
    && (it.linked <==> exists l {:trigger OnOnlyList(x, id, l)} :: OnOnlyList(x, id, l))
    && (!it.linked ==> forall l {:trigger ListOf(x, l)} :: id !in ListOf(x, l))
    && it.refcount == (if it.linked then 1 else 0) + Held(x, id) > 0
  }

  ghost predicate Totalled(x: Index, l: ListId) {
    && CountAt(x.sizes, l) == |ListOf(x, l)|
    && (forall id <- ListOf(x, l) :: id in x.items) && CountAt(x.sizesBytes, l) == ListBytes(x.items, ListOf(x, l))
  }

  lemma IndexedWhenValid(x: Index, id: Id)
    requires Valid(x) && id in x.items
    ensures Indexed(x, id)
  {
    assert ItemOk(x, id);
    var l := x.items[id].place;
    forall m {:trigger ListOf(x, m)} ensures id in ListOf(x, m) ==> x.items[id].linked && m == l {
      assert ListOk(x, m);
      assert id in ListOf(x, m) ==> OnList(x.items, m, id);
    }
    assert x.items[id].linked ==> OnOnlyList(x, id, l);
  }

  /** One linked item for each key in the table. */
  lemma {:induction false} CountLinked(x: Index, ids: set<Id>, keys: set<Key>)
    requires ids <= x.items.Keys && keys <= x.table.Keys && forall k <- keys :: KeyOk(x, k)
    requires forall id <- ids :: x.items[id].key in keys && x.table[x.items[id].key] == id
    requires forall k <- keys :: x.table[k] in ids
    ensures |ids| == |keys|
    decreases keys
  {
    if keys != {} {
      var k :| k in keys;
      var id := x.table[k];
      assert KeyOk(x, k);
      forall k' <- keys - {k} ensures x.table[k'] != id {
        assert KeyOk(x, k');
      }
      CountLinked(x, ids - {id}, keys - {k});
    } else {
      assert ids == {};
    }
  }

  lemma ItemsCounted(x: Index)
    requires Valid(x)
    ensures x.currItems == |LinkedIds(x.items)|
  {
    forall k <- x.table.Keys ensures KeyOk(x, k) {
    }
    forall id <- LinkedIds(x.items) ensures x.items[id].key in x.table && x.table[x.items[id].key] == id {
      assert ItemOk(x, id);
    }
    CountLinked(x, LinkedIds(x.items), x.table.Keys);
  }

  // ----- over whole runs

  ghost predicate StepAt(xs: seq<Index>, ops: seq<Op>, i: nat)
    requires i < |ops| && |xs| == |ops| + 1
  {
    Enabled(xs[i], ops[i]) && xs[i + 1] == Next(xs[i], ops[i])
  }

  ghost predicate IsRun(xs: seq<Index>, ops: seq<Op>) {
    && |xs| == |ops| + 1 && xs[0] == Empty()
    && forall i {:trigger StepAt(xs, ops, i)} :: 0 <= i < |ops| ==> StepAt(xs, ops, i)
  }

  lemma {:induction false} RunKeepsValid(xs: seq<Index>, ops: seq<Op>, i: nat)
    requires IsRun(xs, ops) && i <= |ops|
    ensures Valid(xs[i])
  {
    if i == 0 {
      EmptyValid();
    } else {
      RunKeepsValid(xs, ops, i - 1);
      assert StepAt(xs, ops, i - 1);
      StepKeepsValid(xs[i - 1], ops[i - 1]);
    }
  }

  /** In every reachable state the books agree. */
  lemma EveryRunKeepsTheBooks(xs: seq<Index>, ops: seq<Op>, i: nat)
    requires IsRun(xs, ops) && i <= |ops|
    ensures var x := xs[i];
            && (forall id <- x.items {:trigger Indexed(x, id)} :: Indexed(x, id))
            && (forall k <- x.table :: x.table[k] in x.items && x.items[x.table[k]].key == k)
            && (forall l {:trigger Totalled(x, l)} :: Totalled(x, l))
            && x.currItems == |LinkedIds(x.items)| && x.currBytes == Bytes(x.items, LinkedIds(x.items))
  {
    var x := xs[i];
    RunKeepsValid(xs, ops, i);
    forall id <- x.items ensures Indexed(x, id) {
      IndexedWhenValid(x, id);
    }
    forall k <- x.table ensures x.table[k] in x.items && x.items[x.table[k]].key == k {
      assert KeyOk(x, k);
    }
    forall l ensures Totalled(x, l) {
      assert ListOk(x, l) && SizeOk(x, l);
    }
    ItemsCounted(x);
  }

  lemma ListsKnown(x: Index, id: Id)
    requires Valid(x) && id !in x.items
    ensures Held(x, id) == 0 && forall l {:trigger ListOf(x, l)} :: id !in ListOf(x, l)
  {
    forall l ensures id !in ListOf(x, l) {
      assert ListOk(x, l);
      assert id in ListOf(x, l) ==> OnList(x.items, l, id);
    }
  }

  lemma StepFrees(x: Index, op: Op, id: Id)
    requires Enabled(x, op) && id in x.items && ItemOk(x, id)
    ensures id !in Next(x, op).items <==>
              || (op == Give(id) && !x.items[id].linked && Held(x, id) == 1)
              || (op == Leave(id) && x.items[id].linked && Held(x, id) == 0)
  {
  }

  /** An item goes with its last reference, in the very step that drops it, and no other way. */
  lemma FreedWithLastReference(xs: seq<Index>, ops: seq<Op>, i: nat, id: Id)
    requires IsRun(xs, ops) && i < |ops| && id in xs[i].items
    ensures var x, y := xs[i], xs[i + 1];
            && (id !in y.items <==>
                  || (ops[i] == Give(id) && !x.items[id].linked && Held(x, id) == 1)
                  || (ops[i] == Leave(id) && x.items[id].linked && Held(x, id) == 0))
            && (id !in y.items ==>
                  && x.items[id].refcount == 1 && Held(y, id) == 0
                  && forall l {:trigger ListOf(y, l)} :: id !in ListOf(y, l))
  {
    RunKeepsValid(xs, ops, i);
    RunKeepsValid(xs, ops, i + 1);
    assert StepAt(xs, ops, i);
    var x, y := xs[i], xs[i + 1];
    assert ItemOk(x, id);
    StepFrees(x, ops[i], id);
    if id !in y.items {
      ListsKnown(y, id);
    }
  }
}
