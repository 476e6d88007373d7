/** Find, add, delete and bucket doubling of uthash (RSApi/uthash.h:120-130, 306-392, 655-782). */
module UtHashTable {
  import opened Common
  import opened UtHash

  // ----- all chains

  ghost predicate ChainAt(buckets: array<Bucket>, chains: Chains, items: set<Elem>, b: nat)
    requires b < buckets.Length && b < |chains|
    reads buckets, items`hhNext, items`hhPrev
  {
    (forall e <- chains[b] :: e in items) && Chain(buckets[b], chains[b])
  }

  ghost predicate AllChains(buckets: array<Bucket>, chains: Chains, items: set<Elem>)
    reads buckets, items`hhNext, items`hhPrev
  {
    && buckets.Length == |chains|
    && forall b {:trigger ChainAt(buckets, chains, items, b)} :: 0 <= b < |chains| ==>
       ChainAt(buckets, chains, items, b)
  }

  /** No element of chain `b` is in another chain. */
  ghost predicate Apart(chains: Chains, b: nat, d: nat)
    requires b < |chains| && d < |chains|
  {
    forall e <- chains[b] :: e !in chains[d]
  }

  ghost predicate Nowhere(chains: Chains, e: Elem) {
    forall d {:trigger chains[d]} :: 0 <= d < |chains| ==> e !in chains[d]
  }

  method PushAt(buckets: array<Bucket>, ghost chains: Chains, ghost items: set<Elem>, b: nat, e: Elem)
    requires AllChains(buckets, chains, items) && b < |chains| && e in items && Nowhere(chains, e)
    requires forall d {:trigger Apart(chains, b, d)} :: 0 <= d < |chains| && d != b ==> Apart(chains, b, d)
    modifies buckets, e`hhNext, e`hhPrev, chains[b]`hhPrev
    ensures AllChains(buckets, chains[b := [e] + chains[b]], items)
    ensures forall d :: 0 <= d < buckets.Length ==> buckets[d].expandMult == old(buckets[d].expandMult)
  {
    assert ChainAt(buckets, chains, items, b);
    PushChain(buckets, b, e, chains[b]);
    ghost var now := chains[b := [e] + chains[b]];
    forall d | 0 <= d < |now| ensures ChainAt(buckets, now, items, d) {
      assert old(ChainAt(buckets, chains, items, d));
      if d != b {
        ghost var s := chains[d];
        assert Apart(chains, b, d);
        forall f <- s ensures f.hhNext == old(f.hhNext) && f.hhPrev == old(f.hhPrev) {
          assert f !in chains[b];
        }
        forall i | 0 <= i < |s| ensures HNode(s, i) {
          assert old(HNode(s, i));
        }
      }
    }
  }

  method CutAt(buckets: array<Bucket>, ghost chains: Chains, ghost items: set<Elem>, b: nat, e: Elem, ghost i: nat)
    requires AllChains(buckets, chains, items) && b < |chains| && i < |chains[b]| && chains[b][i] == e
    requires forall d {:trigger Apart(chains, b, d)} :: 0 <= d < |chains| && d != b ==> Apart(chains, b, d)
    modifies buckets, chains[b]`hhNext, chains[b]`hhPrev
    ensures AllChains(buckets, chains[b := Without(chains[b], i)], items)
  {
    assert ChainAt(buckets, chains, items, b);
    CutChain(buckets, b, e, chains[b], i);
    ghost var now := chains[b := Without(chains[b], i)];
    forall d | 0 <= d < |now| ensures ChainAt(buckets, now, items, d) {
      assert old(ChainAt(buckets, chains, items, d));
      if d != b {
        ghost var s := chains[d];
        assert Apart(chains, b, d);
        forall f <- s ensures f.hhNext == old(f.hhNext) && f.hhPrev == old(f.hhPrev) {
          assert f !in chains[b];
        }
        forall j | 0 <= j < |s| ensures HNode(s, j) {
          assert old(HNode(s, j));
        }
      }
    }
  }

  lemma FiledApart(order: seq<Elem>, chains: Chains, log2: nat, b: nat)
    requires Filed(order, chains, log2) && b < |chains|
    ensures forall d {:trigger Apart(chains, b, d)} :: 0 <= d < |chains| && d != b ==> Apart(chains, b, d)
  {
    assert ChainFiled(order, chains, log2, b);
    forall d | 0 <= d < |chains| && d != b ensures Apart(chains, b, d) {
      assert ChainFiled(order, chains, log2, d);
    }
  }

  lemma NewNowhere(order: seq<Elem>, chains: Chains, log2: nat, e: Elem)
    requires Filed(order, chains, log2) && e !in order
    ensures Nowhere(chains, e)
  {
    forall d | 0 <= d < |chains| ensures e !in chains[d] {
      assert ChainFiled(order, chains, log2, d);
    }
  }

  // ----- doubling the buckets

  ghost predicate MultAt(buckets: array<Bucket>, chains: Chains, ideal: nat, d: nat)
    requires d < buckets.Length && d < |chains|
    reads buckets
  {
    buckets[d].expandMult == MultFor(|chains[d]|, ideal)
  }

  /** New buckets with the chains they head, the items counted as over-deep, and the multipliers. */
  ghost predicate Filling(buckets: array<Bucket>, chains: Chains, items: set<Elem>, ideal: nat, nonideal: nat)
    reads buckets, items`hhNext, items`hhPrev
  {
    && AllChains(buckets, chains, items) && nonideal == Excess(chains, ideal)
    && forall d {:trigger MultAt(buckets, chains, ideal, d)} :: 0 <= d < |chains| ==> MultAt(buckets, chains, ideal, d)
  }

  /** One element goes in front of its new chain. */
  method MoveOne(buckets: array<Bucket>, ghost chains: Chains, ghost items: set<Elem>, d: nat, e: Elem, ideal: nat,
                 nonideal: nat)
    returns (nonideal': nat)
    requires Filling(buckets, chains, items, ideal, nonideal) && d < |chains| && e in items && Nowhere(chains, e) &&
             ideal > 0
    requires forall c {:trigger Apart(chains, d, c)} :: 0 <= c < |chains| && c != d ==> Apart(chains, d, c)
    modifies buckets, e`hhNext, e`hhPrev, chains[d]`hhPrev
    ensures Filling(buckets, chains[d := [e] + chains[d]], items, ideal, nonideal')
  {
    ghost var now := chains[d := [e] + chains[d]];
    ExcessPush(chains, d, e, ideal);
    PushAt(buckets, chains, items, d, e);
    assert ChainAt(buckets, now, items, d);
    nonideal' := nonideal;
    label Pushed:
    if buckets[d].count > ideal {
      nonideal' := nonideal + 1;
      buckets[d] := buckets[d].(expandMult := buckets[d].count / ideal);
    }
    forall c | 0 <= c < |now| ensures ChainAt(buckets, now, items, c) && MultAt(buckets, now, ideal, c) {
      assert old@Pushed(ChainAt(buckets, now, items, c)) && old(MultAt(buckets, chains, ideal, c));
    }
  }

  ghost predicate HNext(s: seq<Elem>, k: nat)
    requires k < |s|
    reads s`hhNext
  {
    s[k].hhNext == if k + 1 < |s| then s[k + 1] else null
  }

  /** The chain from `j` on can still be followed. */
  ghost predicate Followable(s: seq<Elem>, j: nat)
    reads s`hhNext
  {
    forall k {:trigger HNext(s, k)} :: j <= k < |s| ==> HNext(s, k)
  }

  /** The part of one old chain that is still to be moved, or all of a later one. */
  ghost predicate Untouched(chains: Chains, items: set<Elem>, i: nat, j: nat, b: nat)
    requires b < |chains|
    reads items`hhNext
  {
    (forall e <- chains[b] :: e in items) && Followable(chains[b], if b == i then j else 0)
  }

  ghost predicate Ahead(chains: Chains, items: set<Elem>, i: nat, j: nat)
    reads items`hhNext
  {
    forall b {:trigger Untouched(chains, items, i, j, b)} :: i <= b < |chains| ==> Untouched(chains, items, i, j, b)
  }

  /** Moving the element at the front of what is left touches nothing else that is left. */
  method MoveFront(buckets: array<Bucket>, ghost order: seq<Elem>, ghost chains: Chains, log2: nat, ghost now: Chains,
                   ghost items: set<Elem>, ghost i: nat, ghost j: nat, e: Elem, ideal: nat, nonideal: nat)
    returns (nonideal': nat, ghost after: Chains)
    requires Filed(order, chains, log2) && Spread(order, chains, log2, i, j, now)
    requires i < |chains| && j < |chains[i]| && chains[i][j] == e && Distinct(chains[i])
    requires Filling(buckets, now, items, ideal, nonideal) && ideal > 0 && Ahead(chains, items, i, j)
    modifies buckets, items`hhNext, items`hhPrev
    ensures Spread(order, chains, log2, i, j + 1, after) && Filling(buckets, after, items, ideal, nonideal')
    ensures Ahead(chains, items, i, j + 1)
  {
    var d := Low(e.hashv, log2 + 1);
    SpreadStep(order, chains, log2, i, j, now);
    SpreadApart(order, chains, log2, i, j, now, d);
    assert Untouched(chains, items, i, j, i);
    NotYetNowhere(order, chains, log2, i, j, now);
    NotYet(order, chains, log2, i, j, now, d);
    after := now[d := [e] + now[d]];
    assert ChainAt(buckets, now, items, d);
    nonideal' := MoveOne(buckets, now, items, d, e, ideal, nonideal);
    var next := j + 1;
    forall b | i <= b < |chains| ensures Untouched(chains, items, i, next, b) {
      assert old(Untouched(chains, items, i, j, b));
      assert ChainFiled(order, chains, log2, b) && ChainFiled(order, chains, log2, i);
      forall k | (if b == i then next else 0) <= k < |chains[b]| ensures HNext(chains[b], k) {
        assert old(HNext(chains[b], k));
        assert chains[b][k] != e;
      }
    }
  }

  lemma SpreadApart(order: seq<Elem>, chains: Chains, log2: nat, i: nat, j: nat, now: Chains, d: nat)
    requires Spread(order, chains, log2, i, j, now) && d < |now|
    ensures forall c {:trigger Apart(now, d, c)} :: 0 <= c < |now| && c != d ==> Apart(now, d, c)
  {
    assert SpreadFiled(order, chains, log2, i, j, now, d);
    forall c | 0 <= c < |now| && c != d ensures Apart(now, d, c) {
      assert SpreadFiled(order, chains, log2, i, j, now, c);
    }
  }

  lemma NotYetNowhere(order: seq<Elem>, chains: Chains, log2: nat, i: nat, j: nat, now: Chains)
    requires Filed(order, chains, log2) && Spread(order, chains, log2, i, j, now)
    requires i < |chains| && j < |chains[i]| && Distinct(chains[i])
    ensures Nowhere(now, chains[i][j])
  {
    forall d | 0 <= d < |now| ensures chains[i][j] !in now[d] {
      NotYet(order, chains, log2, i, j, now, d);
      assert chains[i][j..][0] == chains[i][j];
    }
  }

  /** The inner loop of HASH_EXPAND_BUCKETS: one old chain from its head on. */
  method SpreadChain(buckets: array<Bucket>, ghost order: seq<Elem>, ghost chains: Chains, log2: nat, ghost now: Chains,
                     ghost items: set<Elem>, ghost i: nat, first: Elem?, ideal: nat, nonideal: nat)
    returns (nonideal': nat, ghost after: Chains)
    requires Filed(order, chains, log2) && Spread(order, chains, log2, i, 0, now)
    requires i < |chains| && Distinct(chains[i]) && first == First(chains[i])
    requires Filling(buckets, now, items, ideal, nonideal) && ideal > 0 && Ahead(chains, items, i, 0)
    modifies buckets, items`hhNext, items`hhPrev
    ensures Spread(order, chains, log2, i, |chains[i]|, after) && Filling(buckets, after, items, ideal, nonideal')
    ensures Ahead(chains, items, i, |chains[i]|)
  {
    var thh := first;
    ghost var j := 0;
    nonideal', after := nonideal, now;
    while thh != null
      invariant j <= |chains[i]| && thh == if j < |chains[i]| then chains[i][j] else null
      invariant Spread(order, chains, log2, i, j, after) && Filling(buckets, after, items, ideal, nonideal')
      invariant Ahead(chains, items, i, j)
      decreases |chains[i]| - j
    {
      assert Untouched(chains, items, i, j, i) && HNext(chains[i], j);
      var nxt := thh.hhNext;
      nonideal', after := MoveFront(buckets, order, chains, log2, after, items, i, j, thh, ideal, nonideal');
      thh := nxt;
      j := j + 1;
    }
  }

  /** The outer loop: every old chain. */
  method SpreadAll(former: array<Bucket>, buckets: array<Bucket>, ghost order: seq<Elem>, ghost chains: Chains,
                   log2: nat, ghost items: set<Elem>, ideal: nat)
    returns (nonideal: nat, ghost after: Chains)
    requires former != buckets && Filed(order, chains, log2) && AllChains(former, chains, items) && ideal > 0
    requires buckets.Length == Pow2(log2 + 1) && forall d :: 0 <= d < buckets.Length ==>
             buckets[d] == Bucket(null, 0, 0)
    modifies buckets, items`hhNext, items`hhPrev
    ensures Filed(order, after, log2 + 1) && Filling(buckets, after, items, ideal, nonideal)
  {
    after := seq(Pow2(log2 + 1), _ => []);
    nonideal := 0;
    SpreadStarts(order, chains, log2);
    ExcessEmpty(Pow2(log2 + 1), ideal);
    forall d | 0 <= d < |after| ensures ChainAt(buckets, after, items, d) && MultAt(buckets, after, ideal, d) {
    }
    forall b | 0 <= b < |chains| ensures former[b].head == First(chains[b]) && Distinct(chains[b]) &&
      Untouched(chains, items, 0, 0, b) {
      assert ChainAt(former, chains, items, b);
      forall k | 0 <= k < |chains[b]| ensures HNext(chains[b], k) {
        assert HNode(chains[b], k);
      }
    }
    var i := 0;
    while i < former.Length
      invariant i <= former.Length == |chains| && former[..] == old(former[..])
      invariant forall b {:trigger chains[b]} :: 0 <= b < |chains| ==>
                former[b].head == First(chains[b]) && Distinct(chains[b])
      invariant Spread(order, chains, log2, i, 0, after) && Filling(buckets, after, items, ideal, nonideal)
      invariant Ahead(chains, items, i, 0)
    {
      nonideal, after := SpreadChain(buckets, order, chains, log2, after, items, i, former[i].head, ideal, nonideal);
      SpreadTurn(order, chains, log2, i, after);
      var next := i + 1;
      forall b | next <= b < |chains| ensures Untouched(chains, items, next, 0, b) {
        assert Untouched(chains, items, i, |chains[i]|, b);
      }
      i := next;
    }
    SpreadEnds(order, chains, log2, after);
  }

  // ----- the table

  class Table {
    const hash: Hash
    var head: Elem?
    var tail: Elem?
    var buckets: array<Bucket>
    var log2: nat
    var numItems: nat
    var idealChainMaxlen: nat
    var nonidealItems: nat
    var ineffExpands: nat
    var noexpand: bool

    /** The elements in insertion order, in bucket chains, and as a map. */
    ghost var order: seq<Elem>
    ghost var chains: Chains
    ghost var content: map<Key, Elem>

    /** HASH_FSCK: chains with right counts and back links, the list in insertion order with right links,
        the same elements in both, and the number of items. */
    ghost predicate Fsck()
      reads this, buckets, order`next, order`prev, ElementsOf(order)`hhNext, ElementsOf(order)`hhPrev
    {
      && head != null && InOrder(head, tail, order)
      && AllChains(buckets, chains, ElementsOf(order)) && Filed(order, chains, log2)
      && numItems == |order| && StandsFor(hash, order, content)
    }

    ghost predicate Valid()
      reads this, buckets, order`next, order`prev, ElementsOf(order)`hhNext, ElementsOf(order)`hhPrev
    {
      if head == null then order == [] && content == map[] else Fsck()
    }

    constructor (hash: Hash)
      ensures Valid() && content == map[] && this.hash == hash && fresh(buckets)
    {
      this.hash := hash;
      head, tail := null, null;
      buckets := new Bucket[0];
      log2, numItems, idealChainMaxlen, nonidealItems, ineffExpands, noexpand := 0, 0, 0, 0, 0, false;
      order, chains, content := [], [], map[];
    }

    /** HASH_FIND. */
    method Find(key: Key) returns (out: Elem?)
      requires Valid()
      ensures (out == null <==> key !in content) && (out != null ==> out in order && out.key == key)
      ensures Unique(order) ==> out == if key in content then content[key] else null
    {
      if head == null {
        return null;
      }
      var hashv := hash(key);
      var b := Low(hashv, log2);
      ghost var i;
      out, i := FindInBkt(buckets[b].head, key, hashv, chains[b], b);
      FindMeaning(key, b, out, i);
    }

    /** HASH_FIND_IN_BKT. */
    method FindInBkt(first: Elem?, key: Key, hashv: nat, ghost s: seq<Elem>, ghost b: nat)
      returns (out: Elem?, ghost i: nat)
      requires Fsck() && b < buckets.Length && s == chains[b] && first == buckets[b].head
      ensures i <= |s| && out == (if i < |s| then s[i] else null)
      ensures forall j :: 0 <= j < i ==> !(s[j].hashv == hashv && s[j].key == key)
      ensures out != null ==> out.hashv == hashv && out.key == key
    {
      assert ChainAt(buckets, chains, ElementsOf(order), b);
      out, i := first, 0;
      while out != null && !(out.hashv == hashv && out.key == key)
        invariant i <= |s| && out == if i < |s| then s[i] else null
        invariant forall j :: 0 <= j < i ==> !(s[j].hashv == hashv && s[j].key == key)
        decreases |s| - i
      {
        assert HNode(s, i);
        out := out.hhNext;
        i := i + 1;
      }
    }

    lemma FindMeaning(key: Key, b: nat, out: Elem?, i: nat)
      requires Fsck() && b == Low(hash(key), log2) && i <= |chains[b]| &&
               out == (if i < |chains[b]| then chains[b][i] else null)
      requires forall j :: 0 <= j < i ==> !(chains[b][j].hashv == hash(key) && chains[b][j].key == key)
      requires out != null ==> out.hashv == hash(key) && out.key == key
      ensures (out == null <==> key !in content) && (out != null ==> out in order && out.key == key)
      ensures Unique(order) ==> out == if key in content then content[key] else null
    {
      assert ChainFiled(order, chains, log2, b);
      if key in content {
        var e := content[key];
        assert e in order && e.key == key;
        assert AtHome(chains, log2, e);
      }
      if out != null {
        assert out in chains[b];
        assert key in content ==> Alike(out, content[key]);
      }
    }

    /** HASH_EXPAND_BUCKETS: twice the buckets, the same elements in the same order. The ideal length is the
        number of items per new bucket, rounded up (`UtHash.IdealIsCeiling`). */
    method Expand()
      requires Fsck()
      modifies this, ElementsOf(order)`hhNext, ElementsOf(order)`hhPrev
      ensures Fsck() && order == old(order) && content == old(content) && log2 == old(log2) + 1 && fresh(buckets)
      ensures head == old(head) && numItems == old(numItems)
      ensures idealChainMaxlen == IdealMaxlen(numItems, log2) && nonidealItems == Excess(chains, idealChainMaxlen)
      ensures forall d {:trigger chains[d]} :: 0 <= d < |chains| ==>
              buckets[d].expandMult == MultFor(|chains[d]|, idealChainMaxlen)
      ensures ineffExpands == if nonidealItems > numItems / 2 then old(ineffExpands) + 1 else 0
      ensures noexpand == (old(noexpand) || ineffExpands > 1)
    {
      Rehash();
      Judge();
    }

    /** Ideal length first, buckets then. */
    method Rehash()
      requires Fsck()
      modifies `buckets, `log2, `chains, `nonidealItems, `idealChainMaxlen, ElementsOf(order)`hhNext,
               ElementsOf(order)`hhPrev
      ensures Fsck() && fresh(buckets) && log2 == old(log2) + 1
      ensures idealChainMaxlen == IdealMaxlen(numItems, log2) && nonidealItems == Excess(chains, idealChainMaxlen)
      ensures forall d {:trigger chains[d]} :: 0 <= d < |chains| ==>
              buckets[d].expandMult == MultFor(|chains[d]|, idealChainMaxlen)
    {
      idealChainMaxlen := Shr(numItems, log2 + 1) + if Low(numItems, log2 + 1) != 0 then 1 else 0;
      IdealPositive(numItems, log2 + 1);
      Redistribute(ElementsOf(order));
    }

    /** After two expansions in a row that left most elements too deep no more are made. */
    method Judge()
      modifies `ineffExpands, `noexpand
      ensures ineffExpands == if nonidealItems > numItems / 2 then old(ineffExpands) + 1 else 0
      ensures noexpand == (old(noexpand) || ineffExpands > 1)
    {
      ineffExpands := if nonidealItems > numItems / 2 then ineffExpands + 1 else 0;
      if ineffExpands > 1 {
        noexpand := true;
      }
    }

    /** The new buckets are filled and take the place of the old ones. */
    method Redistribute(ghost items: set<Elem>)
      requires AllChains(buckets, chains, items) && Filed(order, chains, log2) && idealChainMaxlen > 0
      modifies `buckets, `log2, `chains, `nonidealItems, items`hhNext, items`hhPrev
      ensures AllChains(buckets, chains, items) && Filed(order, chains, log2) && fresh(buckets) && log2 == old(log2) + 1
      ensures nonidealItems == Excess(chains, idealChainMaxlen)
      ensures forall d {:trigger chains[d]} :: 0 <= d < |chains| ==>
              buckets[d].expandMult == MultFor(|chains[d]|, idealChainMaxlen)
    {
      var n := buckets.Length * 2;
      var wider := new Bucket[n](_ => Bucket(null, 0, 0));
      ghost var after;
      nonidealItems, after := SpreadAll(buckets, wider, order, chains, log2, items, idealChainMaxlen);
      buckets, log2, chains := wider, log2 + 1, after;
      forall d | 0 <= d < |chains| ensures buckets[d].expandMult == MultFor(|chains[d]|, idealChainMaxlen) {
        assert MultAt(buckets, chains, idealChainMaxlen, d);
      }
    }

    /** HASH_MAKE_TABLE, for a table that holds nothing. */
    method MakeTable(e: Elem)
      requires head == null && order == []
      modifies this, e`next, e`prev
      ensures InOrder(e, e, [e]) && head == tail == e && order == [] && content == old(content) && log2 == 5
      ensures AllChains(buckets, chains, ElementsOf(order)) && Filed(order, chains, log2) && numItems == 0 &&
              fresh(buckets)
      ensures idealChainMaxlen == nonidealItems == ineffExpands == 0 && !noexpand
      ensures forall d :: 0 <= d < buckets.Length ==> buckets[d].expandMult == 0
    {
      e.next, e.prev := null, null;
      head, tail := e, e;
      log2 := HASH_INITIAL_NUM_BUCKETS_LOG2;
      buckets := new Bucket[32](_ => Bucket(null, 0, 0));
      numItems, idealChainMaxlen, nonidealItems, ineffExpands, noexpand := 0, 0, 0, 0, false;
      chains := seq(32, _ => []);
      NothingFiled(chains);
      forall b | 0 <= b < |chains| ensures ChainAt(buckets, chains, ElementsOf(order), b) {
      }
    }

    /** The element joins the insertion order at the end. */
    method Append(e: Elem)
      requires Valid() && e !in order
      modifies this, e`next, e`prev, order`next
      ensures head != null && InOrder(head, tail, old(order) + [e]) && order == old(order) && content == old(content)
      ensures AllChains(buckets, chains, ElementsOf(order)) && Filed(order, chains, log2) && numItems == |order|
      ensures old(head) != null ==> unchanged(`head) && unchanged(`buckets) && unchanged(`log2) && unchanged(`noexpand)
      ensures old(head) == null ==> fresh(buckets) && head == e
    {
      if head == null {
        MakeTable(e);
        assert order + [e] == [e];
      } else {
        AppendList(head, tail, e, order);
        tail := e;
        assert (order + [e])[0] == order[0];
      }
    }

    /** HASH_ADD_KEYPTR_BYHASHVALUE. Every element keeps its place in the insertion order; a full bucket makes the
        table double its buckets. Keys stay unique if the caller adds none that is there (`UtHash.AddStandsFor`). */
    method Add(e: Elem)
      requires Valid() && e !in order && e.hashv == hash(e.key)
      modifies this, buckets, e, order`next, ElementsOf(order)`hhNext, ElementsOf(order)`hhPrev
      ensures Fsck() && order == old(order) + [e] && content == old(content)[e.key := e]
      ensures head == if old(head) == null then e else old(head)
      ensures old(head) != null ==>
                var b := Low(e.hashv, old(log2));
                && b < old(buckets.Length)
                && log2 == old(log2) +
                     if old(buckets[b].count) + 1 >= (old(buckets[b].expandMult) + 1) * 10 && !old(noexpand)
                     then 1 else 0
    {
      Append(e);
      numItems := numItems + 1;
      var b := Low(e.hashv, log2);
      Enter(e, b);
      DoubleIfFull(b);
    }

    method DoubleIfFull(b: nat)
      requires Fsck() && b < buckets.Length
      modifies this, ElementsOf(order)`hhNext, ElementsOf(order)`hhPrev
      ensures Fsck() && order == old(order) && content == old(content) && head == old(head)
      ensures log2 == old(log2) +
                if old(buckets[b].count) >= (old(buckets[b].expandMult) + 1) * HASH_BKT_CAPACITY_THRESH &&
                   !old(noexpand)
                then 1 else 0
    {
      if buckets[b].count >= (buckets[b].expandMult + 1) * HASH_BKT_CAPACITY_THRESH && !noexpand {
        Expand();
      }
    }

    /** The element enters its bucket. */
    method Enter(e: Elem, b: nat)
      requires head != null && e !in order && InOrder(head, tail, order + [e]) && b == Low(e.hashv, log2)
      requires AllChains(buckets, chains, ElementsOf(order)) && Filed(order, chains, log2) && numItems == |order| + 1
      requires StandsFor(hash, order, content) && e.hashv == hash(e.key)
      modifies buckets, `order, `chains, `content, e`hhNext, e`hhPrev, ElementsOf(order)`hhPrev
      ensures Fsck() && order == old(order) + [e] && content == old(content)[e.key := e] && b < buckets.Length
      ensures buckets[b].count == old(buckets[b].count) + 1 && buckets[b].expandMult == old(buckets[b].expandMult)
    {
      ghost var now, more, with := chains[b := [e] + chains[b]], order + [e], content[e.key := e];
      AddFiled(order, chains, log2, e);
      AddStandsFor(hash, order, content, e);
      EnterBucket(e, b);
      chains, content, order := now, with, more;
    }

    method EnterBucket(e: Elem, b: nat)
      requires e !in order && b == Low(e.hashv, log2)
      requires AllChains(buckets, chains, ElementsOf(order)) && Filed(order, chains, log2)
      modifies buckets, e`hhNext, e`hhPrev, ElementsOf(order)`hhPrev
      ensures b < |chains| && AllChains(buckets, chains[b := [e] + chains[b]], ElementsOf(order + [e]))
      ensures buckets[b].count == old(buckets[b].count) + 1 && buckets[b].expandMult == old(buckets[b].expandMult)
    {
      assert ChainAt(buckets, chains, ElementsOf(order), b);
      FiledApart(order, chains, log2, b);
      NewNowhere(order, chains, log2, e);
      ghost var items := ElementsOf(order + [e]);
      assert ElementsOf(order) <= items && e in items;
      WidenChains(buckets, chains, ElementsOf(order), items);
      PushAt(buckets, chains, items, b, e);
      assert ChainAt(buckets, chains[b := [e] + chains[b]], items, b);
    }

    /** HASH_DELETE. Deleting the only element frees the table. If keys are unique the map loses the key
        (`UtHash.DeleteStandsFor`). */
    method Delete(e: Elem)
      requires Valid() && e in order
      modifies this, buckets, order`next, order`prev, ElementsOf(order)`hhNext, ElementsOf(order)`hhPrev
      ensures Valid() && content == Left(old(content), order, e)
      ensures exists i {:trigger old(order)[i]} ::
                0 <= i < |old(order)| && old(order)[i] == e && order == Without(old(order), i)
    {
      ghost var i :| 0 <= i < |order| && order[i] == e;
      DeleteAt(e, i);
    }

    method DeleteAt(e: Elem, ghost i: nat)
      requires Fsck() && i < |order| && order[i] == e
      modifies this, buckets, order`next, order`prev, ElementsOf(order)`hhNext, ElementsOf(order)`hhPrev
      ensures Valid() && content == Left(old(content), order, e) && order == Without(old(order), i)
    {
      ghost var rest, left := Without(order, i), Left(content, Without(order, i), e);
      StandsAfterDelete(i);
      assert ONode(order, i);
      if e.prev == null && e.next == null {
        head := null;
      } else {
        DeleteOne(e, i);
      }
      order, content := rest, left;
    }

    lemma StandsAfterDelete(i: nat)
      requires StandsFor(hash, order, content) && Distinct(order) && i < |order|
      ensures var rest := Without(order, i);
              StandsFor(hash, rest, Left(content, rest, order[i])) &&
                (rest == [] ==> Left(content, rest, order[i]) == map[])
    {
      DeleteStandsFor(hash, order, content, i);
      if |order| == 1 {
        NoContent(hash, Left(content, Without(order, i), order[i]));
      }
    }

    method DeleteOne(e: Elem, ghost i: nat)
      requires head != null && InOrder(head, tail, order) && i < |order| && order[i] == e && |order| > 1
      requires AllChains(buckets, chains, ElementsOf(order)) && Filed(order, chains, log2) && numItems == |order|
      modifies buckets, `chains, `head, `tail, `numItems
      modifies order`next, order`prev, ElementsOf(order)`hhNext, ElementsOf(order)`hhPrev
      ensures var rest := Without(order, i);
              && head != null && InOrder(head, tail, rest) && AllChains(buckets, chains, ElementsOf(rest))
              && Filed(rest, chains, log2) && numItems == |rest|
    {
      ghost var items := ElementsOf(order);
      CutBucket(e, i, items);
      CutOrder(e, i);
      NarrowChains(buckets, chains, items, Without(order, i), log2);
      numItems := numItems - 1;
    }

    /** The element leaves the insertion order. */
    method CutOrder(e: Elem, ghost i: nat)
      requires head != null && InOrder(head, tail, order) && i < |order| && order[i] == e && |order| > 1
      modifies `head, `tail, order`next, order`prev
      ensures head != null && InOrder(head, tail, Without(order, i))
    {
      assert |Without(order, i)| == |order| - 1;
      head, tail := CutList(head, tail, e, order, i);
    }

    /** The element leaves its bucket. */
    method CutBucket(e: Elem, ghost i: nat, ghost items: set<Elem>)
      requires AllChains(buckets, chains, items) && Filed(order, chains, log2) && i < |order| && order[i] == e
      modifies buckets, `chains, items`hhNext, items`hhPrev
      ensures AllChains(buckets, chains, items) && Filed(Without(order, i), chains, log2)
    {
      var b := Low(e.hashv, log2);
      assert AtHome(chains, log2, e);
      ghost var j :| 0 <= j < |chains[b]| && chains[b][j] == e;
      assert ChainAt(buckets, chains, items, b);
      DeleteFiled(order, chains, log2, i, j);
      FiledApart(order, chains, log2, b);
      CutAt(buckets, chains, items, b, e, j);
      chains := chains[b := Without(chains[b], j)];
    }
  }

  lemma IdealPositive(items: nat, log2: nat)
    requires items > 0
    ensures IdealMaxlen(items, log2) > 0
  {
    IdealIsCeiling(items, log2);
  }

  lemma NothingFiled(chains: Chains)
    requires |chains| == 32 && forall b :: 0 <= b < |chains| ==> chains[b] == []
    ensures Filed([], chains, 5)
  {
    ThirtyTwo();
    forall b | 0 <= b < |chains| ensures ChainFiled([], chains, 5, b) {
    }
  }

  lemma ThirtyTwo()
    ensures Pow2(5) == 32
  {
    assert Pow2(3) == 8;
  }

  lemma NoContent(hash: Hash, content: map<Key, Elem>)
    requires StandsFor(hash, [], content)
    ensures content == map[]
  {
    var none: seq<Elem> := [];
    assert forall k <- content :: content[k] in none;
  }

  lemma WidenChains(buckets: array<Bucket>, chains: Chains, items: set<Elem>, more: set<Elem>)
    requires AllChains(buckets, chains, items) && items <= more
    ensures AllChains(buckets, chains, more)
  {
    forall b | 0 <= b < |chains| ensures ChainAt(buckets, chains, more, b) {
      assert ChainAt(buckets, chains, items, b);
    }
  }

  lemma NarrowChains(buckets: array<Bucket>, chains: Chains, items: set<Elem>, order: seq<Elem>, log2: nat)
    requires AllChains(buckets, chains, items) && Filed(order, chains, log2)
    ensures AllChains(buckets, chains, ElementsOf(order))
  {
    forall b | 0 <= b < |chains| ensures ChainAt(buckets, chains, ElementsOf(order), b) {
      assert ChainAt(buckets, chains, items, b) && ChainFiled(order, chains, log2, b);
    }
  }
}
