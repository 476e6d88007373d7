/** uthash (RSApi/uthash.h): elements on two doubly linked lists at once, the chain of their bucket and the
    list of all elements in the order of insertion. The invariant is the one that HASH_FSCK checks. */
module UtHash {
  import opened Common

  type Key = seq<byte>
  type Hash = Key -> nat

  const HASH_INITIAL_NUM_BUCKETS_LOG2: nat := 5
  const HASH_BKT_CAPACITY_THRESH: nat := 10

  /** An element with its hash handle. */
  class Elem {
    const key: Key
    const hashv: nat
    var next: Elem?
    var prev: Elem?
    var hhNext: Elem?
    var hhPrev: Elem?

    constructor (key: Key, hashv: nat)
      ensures this.key == key && this.hashv == hashv
    {
      this.key, this.hashv := key, hashv;
      next, prev, hhNext, hhPrev := null, null, null, null;
    }
  }

  datatype Bucket = Bucket(head: Elem?, count: nat, expandMult: nat)

  ghost predicate Distinct<T>(q: seq<T>) {
    forall i, j :: 0 <= i < j < |q| ==> q[i] != q[j]
  }

  ghost function Without<T>(q: seq<T>, i: nat): seq<T>
    requires i < |q|
  {
    q[..i] + q[i + 1..]
  }

  ghost function First(s: seq<Elem>): Elem? {
    if s == [] then null else s[0]
  }

  ghost function Last(s: seq<Elem>): Elem? {
    if s == [] then null else s[|s| - 1]
  }

  // ----- chains in the heap

  ghost predicate HNode(s: seq<Elem>, i: nat)
    requires i < |s|
    reads s`hhNext, s`hhPrev
  {
    && s[i].hhPrev == (if i > 0 then s[i - 1] else null)
    && s[i].hhNext == (if i + 1 < |s| then s[i + 1] else null)
  }

  /** The bucket heads this chain and counts it. */
  ghost predicate Chain(bk: Bucket, s: seq<Elem>)
    reads s`hhNext, s`hhPrev
  {
    && bk.head == First(s) && bk.count == |s| && Distinct(s)
    && forall i {:trigger HNode(s, i)} :: 0 <= i < |s| ==> HNode(s, i)
  }

  /** The list work of HASH_ADD_TO_BKT. */
  method PushChain(buckets: array<Bucket>, b: nat, e: Elem, ghost s: seq<Elem>)
    requires b < buckets.Length && Chain(buckets[b], s) && e !in s
    modifies buckets, e`hhNext, e`hhPrev, s`hhPrev
    ensures Chain(buckets[b], [e] + s) && buckets[b].expandMult == old(buckets[b].expandMult)
    ensures forall d :: 0 <= d < buckets.Length && d != b ==> buckets[d] == old(buckets[d])
  {
    var bk := buckets[b];
    e.hhNext := bk.head;
    e.hhPrev := null;
    if bk.head != null {
      bk.head.hhPrev := e;
    }
    buckets[b] := Bucket(e, bk.count + 1, bk.expandMult);
    ghost var t := [e] + s;
    forall i | 0 <= i < |t| ensures HNode(t, i) {
      if i > 0 {
        assert old(HNode(s, i - 1));
      }
    }
  }

  /** HASH_DEL_IN_BKT. */
  method CutChain(buckets: array<Bucket>, b: nat, e: Elem, ghost s: seq<Elem>, ghost i: nat)
    requires b < buckets.Length && Chain(buckets[b], s) && i < |s| && s[i] == e
    modifies buckets, s`hhNext, s`hhPrev
    ensures Chain(buckets[b], Without(s, i)) && buckets[b].expandMult == old(buckets[b].expandMult)
    ensures forall d :: 0 <= d < buckets.Length && d != b ==> buckets[d] == old(buckets[d])
  {
    var bk := buckets[b];
    assert HNode(s, i) && (i > 0 ==> HNode(s, i - 1)) && (i + 1 < |s| ==> HNode(s, i + 1));
    buckets[b] := Bucket(if bk.head == e then e.hhNext else bk.head, bk.count - 1, bk.expandMult);
    if e.hhPrev != null {
      e.hhPrev.hhNext := e.hhNext;
    }
    if e.hhNext != null {
      e.hhNext.hhPrev := e.hhPrev;
    }
    ghost var t := Without(s, i);
    forall j | 0 <= j < |t| ensures HNode(t, j) {
      var k := if j < i then j else j + 1;
      assert t[j] == s[k] && old(HNode(s, k));
    }
  }

  // ----- the insertion order in the heap

  ghost predicate ONode(q: seq<Elem>, i: nat)
    requires i < |q|
    reads q`next, q`prev
  {
    && q[i].prev == (if i > 0 then q[i - 1] else null)
    && q[i].next == (if i + 1 < |q| then q[i + 1] else null)
  }

  ghost predicate InOrder(head: Elem?, tail: Elem?, q: seq<Elem>)
    reads q`next, q`prev
  {
    && head == First(q) && tail == Last(q) && Distinct(q)
    && forall i {:trigger ONode(q, i)} :: 0 <= i < |q| ==> ONode(q, i)
  }

  /** HASH_APPEND_LIST. */
  method AppendList(head: Elem, tail: Elem, e: Elem, ghost q: seq<Elem>)
    requires InOrder(head, tail, q) && e !in q
    modifies e`next, e`prev, tail`next
    ensures InOrder(head, e, q + [e])
  {
    ghost var n := |q| - 1;
    assert ONode(q, n);
    e.next := null;
    e.prev := tail;
    tail.next := e;
    ghost var r := q + [e];
    forall i | 0 <= i < |r| ensures ONode(r, i) {
      if i < |q| {
        assert old(ONode(q, i));
      }
    }
  }

  /** The list work of HASH_DELETE for an element that is not the only one. */
  method CutList(head: Elem, tail: Elem, e: Elem, ghost q: seq<Elem>, ghost i: nat)
    returns (head': Elem?, tail': Elem?)
    requires InOrder(head, tail, q) && i < |q| && q[i] == e && |q| > 1
    modifies q`next, q`prev
    ensures InOrder(head', tail', Without(q, i))
  {
    assert ONode(q, i) && (i > 0 ==> ONode(q, i - 1)) && (i + 1 < |q| ==> ONode(q, i + 1));
    head', tail' := head, tail;
    if e == tail {
      tail' := e.prev;
    }
    if e.prev != null {
      e.prev.next := e.next;
    } else {
      head' := e.next;
    }
    if e.next != null {
      e.next.prev := e.prev;
    }
    ghost var r := Without(q, i);
    forall j | 0 <= j < |r| ensures ONode(r, j) {
      var k := if j < i then j else j + 1;
      assert r[j] == q[k] && old(ONode(q, k));
    }
  }

  // ----- which element is in which chain

  type Chains = seq<seq<Elem>>

  /** A chain holds elements of the table whose hash value belongs there. */
  ghost predicate ChainFiled(order: seq<Elem>, chains: Chains, log2: nat, b: nat)
    requires b < |chains|
  {
    forall e <- chains[b] :: e in order && Low(e.hashv, log2) == b
  }

  ghost predicate AtHome(chains: Chains, log2: nat, e: Elem) {
    var b := Low(e.hashv, log2);
    b < |chains| && e in chains[b]
  }

  /** Chains and insertion order hold the same elements, each once. */
  ghost predicate Filed(order: seq<Elem>, chains: Chains, log2: nat) {
    && Distinct(order) && |chains| == Pow2(log2)
    && (forall b {:trigger ChainFiled(order, chains, log2, b)} :: 0 <= b < |chains| ==>
       ChainFiled(order, chains, log2, b))
    && (forall e <- order {:trigger AtHome(chains, log2, e)} :: AtHome(chains, log2, e))
  }

  /** The elements carry the hash values of their keys, and the map has one of the elements of each key. */
  ghost predicate StandsFor(hash: Hash, order: seq<Elem>, content: map<Key, Elem>) {
    && (forall e <- order {:trigger e.key} :: e.key in content && e.hashv == hash(e.key))
    && (forall k <- content {:trigger content[k]} :: content[k] in order && content[k].key == k)
  }

  ghost predicate Alike(e: Elem, f: Elem) {
    e.key == f.key
  }

  /** No key has two elements; adding such an element is not refused. */
  ghost predicate Unique(order: seq<Elem>) {
    forall e, f {:trigger Alike(e, f)} :: e in order && f in order && Alike(e, f) ==> e == f
  }

  lemma AddFiled(order: seq<Elem>, chains: Chains, log2: nat, e: Elem)
    requires Filed(order, chains, log2) && e !in order
    ensures var b := Low(e.hashv, log2);
            e !in chains[b] && Filed(order + [e], chains[b := [e] + chains[b]], log2)
  {
    var b := Low(e.hashv, log2);
    var now := chains[b := [e] + chains[b]];
    assert ChainFiled(order, chains, log2, b);
    forall d | 0 <= d < |now| ensures ChainFiled(order + [e], now, log2, d) {
      assert ChainFiled(order, chains, log2, d);
    }
    forall f <- order + [e] ensures AtHome(now, log2, f) {
      assert f != e ==> AtHome(chains, log2, f);
      assert ([e] + chains[b])[0] == e;
      assert forall g <- chains[b] :: g in [e] + chains[b];
    }
  }

  lemma AddStandsFor(hash: Hash, order: seq<Elem>, content: map<Key, Elem>, e: Elem)
    requires StandsFor(hash, order, content) && e !in order && e.hashv == hash(e.key)
    ensures StandsFor(hash, order + [e], content[e.key := e])
    ensures Unique(order + [e]) <==> Unique(order) && e.key !in content
  {
    assert (order + [e])[|order|] == e;
    assert forall f <- order :: f in order + [e];
    if e.key in content {
      assert Alike(e, content[e.key]) && content[e.key] in order + [e];
    }
    if Unique(order + [e]) {
      forall f, g | f in order && g in order && Alike(f, g) ensures f == g {
      }
    }
  }

  lemma WithoutMembers(q: seq<Elem>, i: nat)
    requires Distinct(q) && i < |q|
    ensures Distinct(Without(q, i)) && forall e {:trigger e in Without(q, i)} :: e in Without(q, i) <==>
            e in q && e != q[i]
  {
    var r := Without(q, i);
    forall e ensures e in r <==> e in q && e != q[i] {
      if e in q && e != q[i] {
        var j :| 0 <= j < |q| && q[j] == e;
        assert r[if j < i then j else j - 1] == e;
      }
    }
  }

  lemma DeleteFiled(order: seq<Elem>, chains: Chains, log2: nat, i: nat, j: nat)
    requires Filed(order, chains, log2) && i < |order|
    requires var b := Low(order[i].hashv, log2); j < |chains[b]| && chains[b][j] == order[i] && Distinct(chains[b])
    ensures var b := Low(order[i].hashv, log2);
            Filed(Without(order, i), chains[b := Without(chains[b], j)], log2)
  {
    var e := order[i];
    var b := Low(e.hashv, log2);
    var now := chains[b := Without(chains[b], j)];
    WithoutMembers(order, i);
    WithoutMembers(chains[b], j);
    forall d | 0 <= d < |now| ensures ChainFiled(Without(order, i), now, log2, d) {
      assert ChainFiled(order, chains, log2, d);
    }
    forall f <- Without(order, i) ensures AtHome(now, log2, f) {
      assert AtHome(chains, log2, f);
    }
  }

  /** The map after an element has left: the key may have another one. */
  ghost function Left(content: map<Key, Elem>, rest: seq<Elem>, e: Elem): map<Key, Elem> {
    if exists f :: f in rest && f.key == e.key then
      var f :| f in rest && f.key == e.key;
      content[e.key := f]
    else content - {e.key}
  }

  lemma DeleteStandsFor(hash: Hash, order: seq<Elem>, content: map<Key, Elem>, i: nat)
    requires StandsFor(hash, order, content) && Distinct(order) && i < |order|
    ensures var rest := Without(order, i);
            && StandsFor(hash, rest, Left(content, rest, order[i]))
            && (Unique(order) ==> Unique(rest) && Left(content, rest, order[i]) == content - {order[i].key})
  {
    WithoutMembers(order, i);
    var e, rest := order[i], Without(order, i);
    assert e in order;
    forall f <- rest ensures f in order && (Unique(order) ==> f.key != e.key) {
      assert Alike(f, e) <==> f.key == e.key;
    }
  }

  // ----- the bucket counts add up

  ghost function Counts(chains: Chains): nat {
    if chains == [] then 0 else |chains[0]| + Counts(chains[1..])
  }

  lemma {:induction false} CountsFlatten(chains: Chains)
    ensures Counts(chains) == |Flatten(chains)|
  {
    if chains != [] {
      CountsFlatten(chains[1..]);
    }
  }

  lemma {:induction false} FlattenMembers(chains: Chains, log2: nat, from: nat)
    requires forall b: nat, e: Elem {:trigger e in chains[b]} :: 0 <= b < |chains| && e in chains[b] ==>
             Low(e.hashv, log2) == from + b
    requires forall b {:trigger chains[b]} :: 0 <= b < |chains| ==> Distinct(chains[b])
    ensures Distinct(Flatten(chains))
    ensures forall e: Elem {:trigger e in Flatten(chains)} :: e in Flatten(chains) <==>
              (from <= Low(e.hashv, log2) < from + |chains| && e in chains[Low(e.hashv, log2) - from])
  {
    if chains != [] {
      var first, rest := chains[0], chains[1..];
      forall b: nat, e: Elem | 0 <= b < |rest| && e in rest[b] ensures Low(e.hashv, log2) == from + 1 + b {
        var d := b + 1;
        assert e in chains[d];
      }
      forall b | 0 <= b < |rest| ensures Distinct(rest[b]) {
        var d := b + 1;
        assert Distinct(chains[d]);
      }
      FlattenMembers(rest, log2, from + 1);
      DistinctConcat(first, Flatten(rest));
      forall e ensures e in Flatten(chains) <==>
              (from <= Low(e.hashv, log2) < from + |chains| && e in chains[Low(e.hashv, log2) - from]) {
        var d := Low(e.hashv, log2) - from;
        assert 0 < d < |chains| ==> chains[d] == rest[d - 1];
        assert e in first ==> d == 0;
      }
    }
  }

  lemma DistinctConcat<T>(a: seq<T>, b: seq<T>)
    requires Distinct(a) && Distinct(b) && forall x <- a :: x !in b
    ensures Distinct(a + b)
  {
    forall i, j | 0 <= i < j < |a + b| ensures (a + b)[i] != (a + b)[j] {
      if i < |a| <= j {
        assert (a + b)[i] in a && (a + b)[j] in b;
      }
    }
  }

  ghost function ElementsOf<T>(q: seq<T>): set<T> {
    set x <- q
  }

  lemma {:induction false} DistinctCount<T>(q: seq<T>)
    requires Distinct(q)
    ensures |ElementsOf(q)| == |q|
  {
    if q != [] {
      DistinctCount(q[1..]);
      assert q == [q[0]] + q[1..];
      assert ElementsOf(q) == {q[0]} + ElementsOf(q[1..]);
      assert q[0] !in q[1..];
    }
  }

  /** The counts of all buckets add up to the number of elements in insertion order. */
  lemma CountsAddUp(order: seq<Elem>, chains: Chains, log2: nat)
    requires Filed(order, chains, log2)
    requires forall b {:trigger chains[b]} :: 0 <= b < |chains| ==> Distinct(chains[b])
    ensures Counts(chains) == |order|
  {
    forall b: nat, e: Elem | 0 <= b < |chains| && e in chains[b] ensures Low(e.hashv, log2) == b && e in order {
      assert ChainFiled(order, chains, log2, b);
    }
    FlattenMembers(chains, log2, 0);
    CountsFlatten(chains);
    DistinctCount(order);
    DistinctCount(Flatten(chains));
    forall e ensures e in Flatten(chains) <==> e in order {
      assert e in order ==> AtHome(chains, log2, e);
    }
    assert ElementsOf(order) == ElementsOf(Flatten(chains));
  }

  // ----- the ideal chain length

  /** n >> k. */
  function Shr(n: nat, k: nat): nat {
    if k == 0 then n else Shr(n / 2, k - 1)
  }

  lemma {:induction false} ShrLow(n: nat, k: nat)
    ensures n == Shr(n, k) * Pow2(k) + Low(n, k)
  {
    if k > 0 {
      ShrLow(n / 2, k - 1);
      Double(Shr(n / 2, k - 1), Pow2(k - 1));
    }
  }

  lemma Double(a: nat, b: nat)
    ensures a * (2 * b) == 2 * (a * b)
  {
  }

  function IdealMaxlen(items: nat, log2: nat): nat {
    Shr(items, log2) + if Low(items, log2) != 0 then 1 else 0
  }

  /** Items divided by buckets, rounded up. */
  lemma IdealIsCeiling(items: nat, log2: nat)
    ensures var c := IdealMaxlen(items, log2);
            && items <= c * Pow2(log2)
            && forall d: nat :: items <= d * Pow2(log2) ==> c <= d
  {
    ShrLow(items, log2);
    Ceiling(items, Shr(items, log2), Low(items, log2), Pow2(log2));
    forall d: nat | items <= d * Pow2(log2) ensures IdealMaxlen(items, log2) <= d {
      NoSmaller(items, Shr(items, log2), Low(items, log2), Pow2(log2), d);
    }
  }

  lemma Ceiling(n: nat, q: nat, r: nat, p: nat)
    requires n == q * p + r && r < p
    ensures n <= (q + if r != 0 then 1 else 0) * p
  {
    OneMore(q, p);
  }

  lemma NoSmaller(n: nat, q: nat, r: nat, p: nat, d: nat)
    requires n == q * p + r && r < p && n <= d * p
    ensures q + (if r != 0 then 1 else 0) <= d
  {
    if d < q {
      Less(d + 1, q, p);
      OneMore(d, p);
    }
  }

  lemma OneMore(q: nat, p: nat)
    ensures (q + 1) * p == q * p + p
  {
  }

  lemma Less(a: nat, b: nat, p: nat)
    requires a <= b
    ensures a * p <= b * p
  {
  }

  // ----- doubling the buckets, as sequences

  /** The walk over the old chains has passed the element: chains before `i`, and `j` elements of that one. */
  ghost predicate Reached(chains: Chains, log2: nat, i: nat, j: nat, e: Elem) {
    var b := Low(e.hashv, log2);
    b < i || (b == i && b < |chains| && j <= |chains[b]| && e in chains[b][..j])
  }

  ghost predicate SpreadFiled(order: seq<Elem>, chains: Chains, log2: nat, i: nat, j: nat, now: Chains, d: nat)
    requires d < |now|
  {
    forall e <- now[d] :: e in order && Low(e.hashv, log2 + 1) == d && Reached(chains, log2, i, j, e)
  }

  ghost predicate Arrived(chains: Chains, log2: nat, i: nat, j: nat, now: Chains, e: Elem) {
    Reached(chains, log2, i, j, e) ==> AtHome(now, log2 + 1, e)
  }

  /** Exactly the elements passed are in the new chains, where they belong. */
  ghost predicate Spread(order: seq<Elem>, chains: Chains, log2: nat, i: nat, j: nat, now: Chains) {
    && |now| == Pow2(log2 + 1)
    && (forall d {:trigger SpreadFiled(order, chains, log2, i, j, now, d)} :: 0 <= d < |now| ==>
       SpreadFiled(order, chains, log2, i, j, now, d))
    && (forall e <- order {:trigger Arrived(chains, log2, i, j, now, e)} :: Arrived(chains, log2, i, j, now, e))
  }

  lemma SpreadStarts(order: seq<Elem>, chains: Chains, log2: nat)
    requires Filed(order, chains, log2)
    ensures Spread(order, chains, log2, 0, 0, seq(Pow2(log2 + 1), _ => []))
  {
    var now: Chains := seq(Pow2(log2 + 1), _ => []);
    forall d | 0 <= d < |now| ensures SpreadFiled(order, chains, log2, 0, 0, now, d) {
    }
    forall e <- order ensures Arrived(chains, log2, 0, 0, now, e) {
    }
  }

  /** The next element has not arrived yet. */
  lemma NotYet(order: seq<Elem>, chains: Chains, log2: nat, i: nat, j: nat, now: Chains, d: nat)
    requires Filed(order, chains, log2) && Spread(order, chains, log2, i, j, now)
    requires i < |chains| && j < |chains[i]| && Distinct(chains[i]) && d < |now|
    ensures forall e <- now[d] :: e !in chains[i][j..]
    ensures forall b {:trigger chains[b]} :: i < b < |chains| ==> forall e <- now[d] :: e !in chains[b]
  {
    assert SpreadFiled(order, chains, log2, i, j, now, d);
    forall e <- now[d] ensures e !in chains[i][j..] {
      assert ChainFiled(order, chains, log2, i);
      if Low(e.hashv, log2) == i {
        var l :| 0 <= l < j && chains[i][l] == e;
        assert forall k {:trigger chains[i][k]} :: j <= k < |chains[i]| ==> chains[i][k] != chains[i][l];
      }
    }
    forall b | i < b < |chains| ensures forall e <- now[d] :: e !in chains[b] {
      assert ChainFiled(order, chains, log2, b);
    }
  }

  lemma SpreadStep(order: seq<Elem>, chains: Chains, log2: nat, i: nat, j: nat, now: Chains)
    requires Filed(order, chains, log2) && Spread(order, chains, log2, i, j, now)
    requires i < |chains| && j < |chains[i]| && Distinct(chains[i])
    ensures var d := Low(chains[i][j].hashv, log2 + 1);
            d < |now| && Spread(order, chains, log2, i, j + 1, now[d := [chains[i][j]] + now[d]])
  {
    var e := chains[i][j];
    var d := Low(e.hashv, log2 + 1);
    var after, next := now[d := [e] + now[d]], j + 1;
    assert ChainFiled(order, chains, log2, i);
    assert chains[i][..next] == chains[i][..j] + [e];
    forall c | 0 <= c < |after| ensures SpreadFiled(order, chains, log2, i, next, after, c) {
      assert SpreadFiled(order, chains, log2, i, j, now, c);
    }
    forall f <- order ensures Arrived(chains, log2, i, next, after, f) {
      assert Arrived(chains, log2, i, j, now, f);
      assert ([e] + now[d])[0] == e && forall g <- now[d] :: g in [e] + now[d];
    }
  }

  lemma SpreadTurn(order: seq<Elem>, chains: Chains, log2: nat, i: nat, now: Chains)
    requires Filed(order, chains, log2) && i < |chains| && Spread(order, chains, log2, i, |chains[i]|, now)
    ensures Spread(order, chains, log2, i + 1, 0, now)
  {
    var n, next := |chains[i]|, i + 1;
    assert chains[i][..n] == chains[i];
    forall d | 0 <= d < |now| ensures SpreadFiled(order, chains, log2, next, 0, now, d) {
      assert SpreadFiled(order, chains, log2, i, n, now, d);
    }
    forall e <- order ensures Arrived(chains, log2, next, 0, now, e) {
      assert Arrived(chains, log2, i, n, now, e);
      assert AtHome(chains, log2, e);
    }
  }

  lemma SpreadEnds(order: seq<Elem>, chains: Chains, log2: nat, now: Chains)
    requires Filed(order, chains, log2) && Spread(order, chains, log2, |chains|, 0, now)
    ensures Filed(order, now, log2 + 1)
  {
    var wider := log2 + 1;
    forall d | 0 <= d < |now| ensures ChainFiled(order, now, wider, d) {
      assert SpreadFiled(order, chains, log2, |chains|, 0, now, d);
    }
    forall e <- order ensures AtHome(now, wider, e) {
      assert Arrived(chains, log2, |chains|, 0, now, e);
    }
  }

  // ----- how far the chains are from ideal

  function Over(n: nat, ideal: nat): nat {
    if n > ideal then n - ideal else 0
  }

  /** The elements that lie deeper in their chain than the ideal length. */
  ghost function Excess(chains: Chains, ideal: nat): nat {
    if chains == [] then 0 else Over(|chains[0]|, ideal) + Excess(chains[1..], ideal)
  }

  lemma {:induction false} ExcessEmpty(n: nat, ideal: nat)
    ensures Excess(seq(n, _ => []), ideal) == 0
  {
    if n > 0 {
      var chains: Chains := seq(n, _ => []);
      ExcessEmpty(n - 1, ideal);
      assert chains[1..] == seq(n - 1, _ => []);
    }
  }

  lemma {:induction false} ExcessPush(chains: Chains, d: nat, e: Elem, ideal: nat)
    requires d < |chains|
    ensures Excess(chains[d := [e] + chains[d]], ideal)
              == Excess(chains, ideal) + if |chains[d]| + 1 > ideal then 1 else 0
  {
    var after := chains[d := [e] + chains[d]];
    if d == 0 {
      assert after[1..] == chains[1..];
    } else {
      ExcessPush(chains[1..], d - 1, e, ideal);
      assert after[1..] == chains[1..][d - 1 := [e] + chains[1..][d - 1]];
    }
  }

  function MultFor(count: nat, ideal: nat): nat {
    if count > ideal > 0 then count / ideal else 0
  }
}
