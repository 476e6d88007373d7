/** One LRU list of items.c: a doubly linked list with a head, a tail, an item count and a byte
    total, and the crawler's marker node, which is linked at the tail and swings itself in front of
    its predecessor at each step while items come and go around it. */
module LruQueue {

  class Item {
    /** ITEM_ntotal: header, key, suffix and data. */
    const ntotal: nat
    var next: Item?
    var prev: Item?

    constructor (ntotal: nat)
      ensures this.ntotal == ntotal && next == null && prev == null
    {
      this.ntotal := ntotal;
      next, prev := null, null;
    }
  }

  // ----- lists with a marker, as sequences from head to tail

  /** A list split at the marker: `ahead` is between the head and the marker. */
  datatype Crawl<T(==)> = Crawl(ahead: seq<T>, behind: seq<T>) {

    ghost function List(marker: T): seq<T> {
      ahead + [marker] + behind
    }

    /** The list as everyone else sees it. */
    ghost function Items(): seq<T> {
      ahead + behind
    }

    /** The marker changes places with its predecessor. */
    ghost function Swing(): Crawl<T>
      requires ahead != []
    {
      var n := |ahead| - 1;
      Crawl(ahead[..n], [ahead[n]] + behind)
    }
  }

  ghost function Total(q: seq<Item>): nat {
    if q == [] then 0 else q[0].ntotal + Total(q[1..])
  }

  lemma {:induction false} TotalAppend(p: seq<Item>, q: seq<Item>)
    ensures Total(p + q) == Total(p) + Total(q)
  {
    if p == [] {
      assert p + q == q;
    } else {
      TotalAppend(p[1..], q);
      assert (p + q)[0] == p[0] && (p + q)[1..] == p[1..] + q;
    }
  }

  ghost function Without<T>(q: seq<T>, i: nat): seq<T>
    requires i < |q|
  {
    q[..i] + q[i + 1..]
  }

  lemma TotalWithout(q: seq<Item>, i: nat)
    requires i < |q|
    ensures Total(q) == Total(Without(q, i)) + q[i].ntotal
  {
    TotalAppend(q[..i], q[i + 1..]);
    TotalAppend(q[..i], q[i..]);
    assert q[..i] + q[i..] == q;
    assert q[i..][1..] == q[i + 1..];
  }

  // ----- what the operations do to the sequences

  lemma PushFrontFacts(c: Crawl<Item>, x: Item, marker: Item)
    ensures var d := Crawl([x] + c.ahead, c.behind);
            && d.List(marker) == [x] + c.List(marker) && d.Items() == [x] + c.Items()
            && Total(d.Items()) == Total(c.Items()) + x.ntotal
  {
    var d := Crawl([x] + c.ahead, c.behind);
    assert d.Items() == [x] + c.Items();
    assert d.Items()[1..] == c.Items();
  }

  /** Take the item number `k`, not counting the marker, out of the list. */
  ghost function Removed<T>(c: Crawl<T>, k: nat): Crawl<T>
    requires k < |c.Items()|
  {
    if k < |c.ahead| then Crawl(Without(c.ahead, k), c.behind)
    else Crawl(c.ahead, Without(c.behind, k - |c.ahead|))
  }

  /** Where the item number `k` is on the list, the marker counted. */
  ghost function Place<T>(c: Crawl<T>, k: nat): nat {
    if k < |c.ahead| then k else k + 1
  }

  lemma RemovedFacts<T>(c: Crawl<T>, k: nat, marker: T)
    requires k < |c.Items()|
    ensures Removed(c, k).Items() == Without(c.Items(), k)
    ensures c.behind == [] ==> c.Items() == c.ahead && Removed(c, k) == Crawl(Without(c.ahead, k), [])
    ensures Place(c, k) < |c.List(marker)| && c.List(marker)[Place(c, k)] == c.Items()[k]
    ensures Removed(c, k).List(marker) == Without(c.List(marker), Place(c, k))
  {
  }

  lemma RemovedTotal(c: Crawl<Item>, k: nat)
    requires k < |c.Items()|
    ensures Removed(c, k).Items() == Without(c.Items(), k) && |Removed(c, k).Items()| == |c.Items()| - 1
    ensures Total(c.Items()) == Total(Removed(c, k).Items()) + c.Items()[k].ntotal
  {
    TotalWithout(c.Items(), k);
    RemovedFacts(c, k, c.Items()[k]);
  }

  lemma MarkerRemoved<T>(c: Crawl<T>, marker: T)
    ensures Without(c.List(marker), |c.ahead|) == c.Items() == Crawl(c.Items(), []).Items()
    ensures c.List(marker)[|c.ahead|] == marker
  {
  }

  lemma SwingFacts<T>(c: Crawl<T>, marker: T)
    requires c.ahead != []
    ensures var k, q := |c.ahead|, c.List(marker);
            && c.Swing().List(marker) == Swung(q, k)
            && c.Swing().Items() == c.Items() && q[k] == marker
  {
  }

  lemma DistinctRest<T>(q: seq<T>)
    requires Distinct(q) && q != []
    ensures Distinct(q[1..]) && q[0] !in q[1..]
  {
  }

  /** The node at `k` and its predecessor change places. */
  ghost function Swung<T>(q: seq<T>, k: nat): (r: seq<T>)
    requires 0 < k < |q|
    ensures |r| == |q| && r[k - 1] == q[k] && r[k] == q[k - 1]
    ensures forall i {:trigger r[i]} {:trigger q[i]} :: 0 <= i < |q| && i != k && i != k - 1 ==> r[i] == q[i]
  {
    q[k - 1 := q[k]][k := q[k - 1]]
  }

  lemma DistinctSwap<T>(q: seq<T>, k: nat)
    requires Distinct(q) && 0 < k < |q|
    ensures Distinct(Swung(q, k))
  {
    var r := Swung(q, k);
    forall i, j | 0 <= i < j < |r| ensures r[i] != r[j] {
      var i', j' := Swapped(i, k), Swapped(j, k);
      assert r[i] == q[i'] && r[j] == q[j'] && i' != j';
    }
  }

  ghost function Swapped(i: nat, k: nat): nat
    requires k > 0
  {
    if i == k then k - 1 else if i == k - 1 then k else i
  }

  ghost predicate Distinct<T>(q: seq<T>) {
    forall i, j :: 0 <= i < j < |q| ==> q[i] != q[j]
  }

  // ----- the list in the heap

  ghost predicate NodeOk(q: seq<Item>, i: nat)
    requires i < |q|
    reads q[i]
  {
    && q[i].prev == (if i > 0 then q[i - 1] else null)
    && q[i].next == (if i + 1 < |q| then q[i + 1] else null)
  }

  class Queue {
    var head: Item?
    var tail: Item?
    var size: nat
    var sizeBytes: nat

    /** The nodes from head to tail, the marker included. */
    ghost var q: seq<Item>

    /** The crawler's marker, null while no crawl is on, and the items ahead of it and behind it. */
    ghost var marker: Item?
    ghost var c: Crawl<Item>

    ghost predicate Linked()
      reads `head, `tail, `q, q
    {
      && head == (if q == [] then null else q[0])
      && tail == (if q == [] then null else q[|q| - 1])
      && Distinct(q)
      && forall i {:trigger NodeOk(q, i)} :: 0 <= i < |q| ==> NodeOk(q, i)
    }

    ghost predicate Split()
      reads `q, `marker, `c
    {
      if marker == null then q == c.ahead && c.behind == [] else q == c.List(marker)
    }

    /** Count and bytes leave the crawler's marker out. */
    ghost predicate Counted()
      reads `size, `sizeBytes, `c
    {
      size == |c.Items()| && sizeBytes == Total(c.Items())
    }

    ghost predicate Valid()
      reads this, q
    {
      Linked() && Split() && Counted()
    }

    constructor ()
      ensures Valid() && q == [] && marker == null
    {
      head, tail, size, sizeBytes := null, null, 0, 0;
      q, marker, c := [], null, Crawl([], []);
    }

    /** The pointer work of do_item_link_q. */
    method PushFront(it: Item)
      requires Linked() && it !in q
      modifies `head, `tail, `q, q, it
      ensures Linked() && q == [it] + old(q)
    {
      it.prev := null;
      it.next := head;
      if it.next != null {
        it.next.prev := it;
      }
      head := it;
      if tail == null {
        tail := it;
      }
      q := [it] + q;
      forall i | 0 <= i < |q| ensures NodeOk(q, i) {
        if i > 0 {
          assert old(NodeOk(q, i - 1));
        }
      }
    }

    /** The pointer work of do_item_unlink_q and do_item_unlinktail_q: take out the node at `i`, or
        finish unlinking a marker that the last crawl step took off the front. */
    method TakeOut(it: Item, ghost i: nat)
      requires Linked()
      requires if i < |q| then q[i] == it else it !in q && it.prev == null && it.next == head != null
      modifies `head, `tail, `q, q
      ensures Linked() && q == if i < |old(q)| then Without(old(q), i) else old(q)
    {
      if i < |q| {
        assert NodeOk(q, i);
        assert i + 1 < |q| ==> NodeOk(q, i + 1);
        assert i > 0 ==> NodeOk(q, i - 1);
      } else {
        assert NodeOk(q, 0);
      }
      if head == it {
        head := it.next;
      }
      if tail == it {
        tail := it.prev;
      }
      if it.next != null {
        it.next.prev := it.prev;
      }
      if it.prev != null {
        it.prev.next := it.next;
      }
      if i < |q| {
        q := Without(q, i);
      }
      forall j | 0 <= j < |q| ensures NodeOk(q, j) {
        if i < |old(q)| {
          assert old(NodeOk(q, if j < i then j else j + 1));
        } else {
          assert old(NodeOk(q, j));
        }
      }
    }

    /** The item becomes the head of its list. */
    method LinkQ(it: Item)
      requires Valid() && it !in q && it != marker
      modifies this, q, it
      ensures Valid() && marker == old(marker) && c == Crawl([it] + old(c).ahead, old(c).behind)
    {
      PushFrontFacts(c, it, if marker == null then it else marker);
      PushFront(it);
      size := size + 1;
      sizeBytes := sizeBytes + it.ntotal;
      c := Crawl([it] + c.ahead, c.behind);
    }

    method UnlinkNode(it: Item, ghost k: nat)
      requires Linked() && Split() && k < |c.Items()| && c.Items()[k] == it
      modifies `head, `tail, `q, `c, q
      ensures Linked() && Split() && c == Removed(old(c), k)
    {
      ghost var at := if marker == null then k else Place(c, k);
      ghost var d := Removed(c, k);
      assert at < |q| && q[at] == it && Without(q, at) == (if marker == null then d.ahead else d.List(marker))
             && (marker == null ==> d.behind == []) by {
        RemovedFacts(c, k, if marker == null then it else marker);
      }
      TakeOut(it, at);
      c := d;
    }

    /** The item number `k`, not counting the marker, leaves its list. */
    method UnlinkQ(it: Item, ghost k: nat)
      requires Valid() && k < |c.Items()| && c.Items()[k] == it
      modifies this, q
      ensures Valid() && marker == old(marker)
      ensures c == Removed(old(c), k) && c.Items() == Without(old(c).Items(), k)
    {
      OneLess(it, k);
      UnlinkNode(it, k);
      Uncount(it.ntotal);
    }

    lemma OneLess(it: Item, k: nat)
      requires Counted() && k < |c.Items()| && c.Items()[k] == it
      ensures var d := Removed(c, k).Items();
              d == Without(c.Items(), k) && size == |d| + 1 && sizeBytes == Total(d) + it.ntotal
    {
      RemovedTotal(c, k);
    }

    /** The statistics of do_item_unlink_q. */
    method Uncount(ntotal: nat)
      requires size == |c.Items()| + 1 && sizeBytes == Total(c.Items()) + ntotal
      modifies `size, `sizeBytes
      ensures Counted()
    {
      size := size - 1;
      sizeBytes := sizeBytes - ntotal;
    }

    /** Start a crawl: the marker is linked at the tail. It must not be on a list. */
    method LinkTailQ(m: Item)
      requires Valid() && marker == null && m !in q
      modifies this, q, m
      ensures Valid() && marker == m && c == old(c)
    {
      m.prev := tail;
      m.next := null;
      if m.prev != null {
        m.prev.next := m;
      }
      tail := m;
      if head == null {
        head := m;
      }
      q := q + [m];
      marker := m;
      forall i | 0 <= i < |q| ensures NodeOk(q, i) {
        if i < |old(q)| {
          assert old(NodeOk(q, i));
        }
      }
    }

    /** The state after the crawler reached the head: the marker is off the list or alone on it. */
    ghost predicate AtEnd(m: Item)
      reads `q, `c, `head, m
    {
      && c.ahead == []
      && (if c.behind == [] then q == [m]
          else q == c.behind && m !in q && m.prev == null && m.next == head != null)
    }

    /** One crawl step: the marker swings in front of its predecessor, which is returned. At the head
        it pops off, if anything is behind it, and null is returned. */
    method CrawlQ(m: Item) returns (next: Item?)
      requires Valid() && marker == m
      modifies `head, `tail, `q, `c, q
      ensures Linked() && unchanged(`size, `sizeBytes, `marker)
      ensures next == null <==> old(c).ahead == []
      ensures next != null ==> Valid() && next == old(c).ahead[|old(c).ahead| - 1] && c == old(c).Swing()
      ensures next == null ==> c == old(c) && AtEnd(m)
      ensures c.Items() == old(c).Items()
      ensures forall i :: 0 <= i < |q| ==> q[i] in old(q)
    {
      assert NodeOk(q, |c.ahead|);
      if m.prev == null {
        assert c.List(m)[1..] == c.behind;
        if m.next != null {
          PopFront(m);
        }
        return null;
      }
      SwingForward(m);
      return m.next;
    }

    method SwingForward(m: Item)
      requires Linked() && Split() && marker == m && c.ahead != []
      modifies `head, `tail, `q, `c, q
      ensures Linked() && Split() && c == old(c).Swing() && c.Items() == old(c).Items()
      ensures m.next == old(c).ahead[|old(c).ahead| - 1]
      ensures forall i :: 0 <= i < |q| ==> q[i] in old(q)
    {
      SwingFacts(c, m);
      Swing(m, |c.ahead|);
      c := c.Swing();
    }

    /** The marker is the head and leaves the list to the node behind it, without changing its own
        pointers. */
    method PopFront(m: Item)
      requires Linked() && |q| > 1 && q[0] == m
      modifies `head, `q, q
      ensures Linked() && q == old(q)[1..] && m !in q && m.prev == null && m.next == head != null
    {
      DistinctRest(q);
      assert NodeOk(q, 0) && NodeOk(q, 1);
      head := m.next;
      m.next.prev := null;
      q := q[1..];
      forall i | 0 <= i < |q| ensures NodeOk(q, i) {
        assert old(NodeOk(q, i + 1));
      }
    }

    /** The pointer shuffle of do_item_crawl_q for a marker at `k` that is not the head. */
    method Swing(m: Item, ghost k: nat)
      requires Linked() && 0 < k < |q| && q[k] == m
      modifies `head, `tail, `q, q
      ensures Linked() && q == Swung(old(q), k)
      ensures m.next == old(q)[k - 1]
    {
      DistinctSwap(q, k);
      assert NodeOk(q, k) && NodeOk(q, k - 1);
      assert k + 1 < |q| ==> NodeOk(q, k + 1);
      assert k > 1 ==> NodeOk(q, k - 2);
      ghost var r := Swung(q, k);
      if head == m.prev {
        head := m;
      }
      if tail == m {
        tail := m.prev;
      }
      if m.next != null {
        m.prev.next := m.next;
        m.next.prev := m.prev;
      } else {
        m.prev.next := null;
      }
      m.next := m.prev;
      m.prev := m.next.prev;
      m.next.prev := m;
      if m.prev != null {
        m.prev.next := m;
      }
      q := r;
      forall i | 0 <= i < |q| ensures NodeOk(q, i) {
        assert old(NodeOk(q, i));
      }
    }

    /** lru_crawler_class_done: whether the crawl reached the head or stopped halfway, the list ends up
        well formed, with all its items and without the marker. */
    method ClassDone(m: Item)
      requires Linked() && Counted() && marker == m
      requires Split() || AtEnd(m)
      modifies `head, `tail, `q, `marker, `c, q
      ensures Valid() && marker == null && q == old(c).Items() && c == Crawl(old(c).Items(), [])
      ensures c.Items() == old(c).Items()
    {
      ghost var items := c.Items();
      TakeOutMarker(m);
      assert Crawl(items, []).Items() == items;
      marker, c := null, Crawl(items, []);
    }

    method TakeOutMarker(m: Item)
      requires Linked() && marker == m && (Split() || AtEnd(m))
      modifies `head, `tail, `q, q
      ensures Linked() && q == c.Items()
    {
      MarkerRemoved(c, m);
      TakeOut(m, if q == c.List(m) then |c.ahead| else |q|);
    }

    /** One turn of the crawler thread for this list. `remaining` is 0 for a crawl without limit; a crawl
        with a limit of n stops at its n-th step, without looking at the item of that step. */
    method CrawlTurn(m: Item, remaining: nat) returns (search: Item?, left: nat, done: bool)
      requires Valid() && marker == m
      modifies this, q
      ensures Valid() && c.Items() == old(c).Items()
      ensures done <==> old(c).ahead == [] || remaining == 1
      ensures done ==> marker == null
      ensures !done ==> marker == m && c == old(c).Swing() && search == old(c).ahead[|old(c).ahead| - 1]
      ensures !done ==> left == if remaining == 0 then 0 else remaining - 1
    {
      search := CrawlQ(m);
      left := if search != null && remaining > 0 then remaining - 1 else remaining;
      done := search == null || (remaining > 0 && left < 1);
      if done {
        ClassDone(m);
      }
    }
  }

  // ----- a whole crawl, with other threads linking and unlinking

  datatype Step<T> = Advance | LinkHead(x: T) | Unlink(x: T)

  /** A crawl and what it has returned so far. */
  datatype Run<T(==)> = Run(c: Crawl<T>, returned: seq<T>, done: bool)

  ghost function RemoveFrom<T>(q: seq<T>, x: T): seq<T> {
    if q == [] then [] else if q[0] == x then q[1..] else [q[0]] + RemoveFrom(q[1..], x)
  }

  ghost function Next<T>(r: Run<T>, step: Step<T>): Run<T> {
    match step
    case Advance =>
      if r.done then r
      else if r.c.ahead == [] then r.(done := true)
      else r.(c := r.c.Swing(), returned := r.returned + [r.c.ahead[|r.c.ahead| - 1]])
    case LinkHead(x) => r.(c := Crawl([x] + r.c.ahead, r.c.behind))
    case Unlink(x) => r.(c := Crawl(RemoveFrom(r.c.ahead, x), RemoveFrom(r.c.behind, x)))
  }

  /** An item is linked only while it is on no list. */
  ghost predicate Enabled<T>(r: Run<T>, step: Step<T>) {
    step.LinkHead? ==> step.x !in r.c.Items()
  }

  ghost predicate AllEnabled<T>(r: Run<T>, steps: seq<Step<T>>)
    decreases |steps|
  {
    steps != [] ==> Enabled(r, steps[0]) && AllEnabled(Next(r, steps[0]), steps[1..])
  }

  ghost function RunAll<T>(r: Run<T>, steps: seq<Step<T>>): Run<T>
    decreases |steps|
  {
    if steps == [] then r else RunAll(Next(r, steps[0]), steps[1..])
  }

  /** How often an item occurs. */
  ghost function Times<T>(q: seq<T>, x: T): nat {
    multiset(q)[x]
  }

  /** An item on the list is ahead of the marker and not returned, or behind it and returned once. */
  ghost predicate Seen<T>(r: Run<T>, x: T) {
    || (Times(r.c.ahead, x) == 1 && Times(r.c.behind, x) == 0 && Times(r.returned, x) == 0)
    || (Times(r.c.ahead, x) == 0 && Times(r.c.behind, x) == 1 && Times(r.returned, x) == 1)
  }

  lemma {:induction false} RemoveOther<T>(q: seq<T>, x: T, y: T)
    ensures Times(RemoveFrom(q, x), y) == if x == y && x in q then Times(q, y) - 1 else Times(q, y)
  {
    if q != [] {
      assert q == [q[0]] + q[1..];
      if q[0] != x {
        RemoveOther(q[1..], x, y);
      }
    }
  }

  lemma StepKeepsSeen<T>(r: Run<T>, step: Step<T>, x: T)
    requires Seen(r, x) && Enabled(r, step) && step != Unlink(x)
    ensures Seen(Next(r, step), x)
  {
    match step
    case Advance =>
      if r.c.ahead != [] {
        var n := |r.c.ahead| - 1;
        assert r.c.ahead == r.c.ahead[..n] + [r.c.ahead[n]];
      }
    case LinkHead(y) =>
    case Unlink(y) =>
      RemoveOther(r.c.ahead, y, x);
      RemoveOther(r.c.behind, y, x);
  }

  lemma {:induction false} RunKeepsSeen<T>(r: Run<T>, steps: seq<Step<T>>, x: T)
    requires Seen(r, x) && AllEnabled(r, steps) && Unlink(x) !in steps
    ensures Seen(RunAll(r, steps), x)
    decreases |steps|
  {
    if steps != [] {
      StepKeepsSeen(r, steps[0], x);
      RunKeepsSeen(Next(r, steps[0]), steps[1..], x);
    }
  }

  /** When the marker has reached the head it has nothing in front of it but what was linked since. */
  lemma {:induction false} DoneStaysDone<T>(r: Run<T>, steps: seq<Step<T>>)
    requires r.done
    ensures RunAll(r, steps).done && RunAll(r, steps).returned == r.returned
    decreases |steps|
  {
    if steps != [] {
      DoneStaysDone(Next(r, steps[0]), steps[1..]);
    }
  }

  /** Whatever is linked or unlinked meanwhile: an item on the list when the crawl starts that stays on
      it is returned at most once before the crawl ends, and exactly once when it does. */
  lemma {:induction false} EachStayingItemOnce<T>(r: Run<T>, steps: seq<Step<T>>, x: T)
    requires !r.done && Seen(r, x) && AllEnabled(r, steps) && Unlink(x) !in steps
    ensures Times(RunAll(r, steps).returned, x) <= 1
    ensures RunAll(r, steps).done ==> Times(RunAll(r, steps).returned, x) == 1
    decreases |steps|
  {
    if steps != [] {
      StepKeepsSeen(r, steps[0], x);
      var r' := Next(r, steps[0]);
      if r'.done {
        assert r.c.ahead == [];
        DoneStaysDone(r', steps[1..]);
      } else {
        EachStayingItemOnce(r', steps[1..], x);
      }
    }
  }

  /** A list without duplicates starts a crawl with every item still to come. */
  lemma {:induction false} DistinctTimes<T>(q: seq<T>, x: T)
    requires Distinct(q) && x in q
    ensures Times(q, x) == 1
  {
    assert q == [q[0]] + q[1..];
    if q[0] == x {
      assert x !in q[1..];
    } else {
      DistinctTimes(q[1..], x);
    }
  }

  lemma {:induction false} WithoutIsRemoveFrom<T>(q: seq<T>, i: nat)
    requires Distinct(q) && i < |q|
    ensures RemoveFrom(q, q[i]) == Without(q, i)
  {
    if i > 0 {
      var rest := q[1..];
      WithoutIsRemoveFrom(rest, i - 1);
      assert Without(q, i) == [q[0]] + Without(rest, i - 1);
    }
  }

  lemma {:induction false} RemoveNothing<T>(q: seq<T>, x: T)
    requires x !in q
    ensures RemoveFrom(q, x) == q
  {
    if q != [] {
      RemoveNothing(q[1..], x);
    }
  }

  /** What `Queue.LinkQ`, `Queue.UnlinkQ` and `Queue.CrawlQ` do to a list are the steps of a run: the item that is
      unlinked by its number is the one that a step names. */
  lemma UnlinkIsStep<T>(r: Run<T>, k: nat)
    requires Distinct(r.c.Items()) && k < |r.c.Items()|
    ensures Next(r, Unlink(r.c.Items()[k])) == r.(c := Removed(r.c, k))
  {
    var c, x := r.c, r.c.Items()[k];
    assert Distinct(c.ahead) by {
      assert c.ahead == c.Items()[..|c.ahead|];
    }
    assert Distinct(c.behind) by {
      assert c.behind == c.Items()[|c.ahead|..];
    }
    if k < |c.ahead| {
      WithoutIsRemoveFrom(c.ahead, k);
      RemoveNothing(c.behind, x);
    } else {
      WithoutIsRemoveFrom(c.behind, k - |c.ahead|);
      RemoveNothing(c.ahead, x);
    }
  }

  /** The two together: start at the tail, run to the end. */
  lemma FullCrawlReturnsEachOnce<T>(items: seq<T>, steps: seq<Step<T>>, x: T)
    requires Distinct(items) && x in items
    requires var r := Run(Crawl(items, []), [], false);
             AllEnabled(r, steps) && Unlink(x) !in steps && RunAll(r, steps).done
    ensures Times(RunAll(Run(Crawl(items, []), [], false), steps).returned, x) == 1
  {
    DistinctTimes(items, x);
    EachStayingItemOnce(Run(Crawl(items, []), [], false), steps, x);
  }

  ghost function Reverse<T>(q: seq<T>): seq<T> {
    if q == [] then [] else [q[|q| - 1]] + Reverse(q[..|q| - 1])
  }

  /** With nothing linked or unlinked meanwhile, the crawl visits what is ahead from back to front, one
      item a step, and ends at the step after that, with the list as it was. */
  lemma {:induction false} UndisturbedCrawl<T>(r: Run<T>, n: nat)
    requires !r.done && n <= |r.c.ahead| + 1
    ensures var t := RunAll(r, seq(n, _ => Advance));
            && t.c.Items() == r.c.Items()
            && (t.done <==> n == |r.c.ahead| + 1)
            && (t.done ==> t.returned == r.returned + Reverse(r.c.ahead))
    decreases n
  {
    var steps: seq<Step<T>> := seq(n, _ => Advance);
    if n > 0 {
      var r' := Next(r, Advance);
      assert steps[1..] == seq(n - 1, _ => Advance);
      if r.c.ahead == [] {
        assert steps[1..] == [];
      } else {
        assert r'.c.Items() == r.c.Items();
        UndisturbedCrawl(r', n - 1);
      }
    }
  }
}
