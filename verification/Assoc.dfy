/** The hash table of assoc.c, with its incremental expansion. Buckets are chains through the
    items' `hNext` pointers. While the table expands there are two bucket arrays: a key whose old
    bucket has not been migrated yet lives in the old one, every other key in the primary one.
    `hv & hashmask(n)` is `Low(hv, n)`, the `n` low bits of the hash value. */
module Assoc {
  import opened Common

  type Key = seq<byte>

  class Item {
    const key: Key
    var hNext: Item?

    constructor (key: Key)
      ensures this.key == key && hNext == null
    {
      this.key := key;
      hNext := null;
    }
  }

  type Chains = seq<seq<Item>>
  type Hash = Key -> nat
  type Content = map<Key, Item>

  // ----- the chains of both tables, and the map they stand for

  /** `from` is `expand_bucket`, `power` is `hashpower`. `oldTable` is empty unless the table expands. */
  datatype Tables = Tables(primary: Chains, oldTable: Chains, power: nat, expanding: bool, from: nat) {

    ghost predicate Shaped() {
      && |primary| == Pow2(power)
      && (expanding ==> power > 0 && |oldTable| == Pow2(power - 1) && from <= |oldTable|)
      && (!expanding ==> oldTable == [])
    }

    /** Whether a hash value is looked up in the old table. */
    ghost predicate InOld(hv: nat)
      requires Shaped()
    {
      expanding && Low(hv, power - 1) >= from
    }

    /** The chain in which a hash value is looked up. */
    ghost function Home(hv: nat): seq<Item>
      requires Shaped()
    {
      if InOld(hv) then oldTable[Low(hv, power - 1)] else primary[Low(hv, power)]
    }

    ghost function Rehome(hv: nat, chain: seq<Item>): (t: Tables)
      requires Shaped()
      ensures t.Shaped()
    {
      if InOld(hv) then this.(oldTable := oldTable[Low(hv, power - 1) := chain])
      else this.(primary := primary[Low(hv, power) := chain])
    }
  }

  /** The tables after linking an item in front of its home chain, or unlinking the one at `i`. */
  ghost function Inserted(t: Tables, hv: nat, it: Item): Tables
    requires t.Shaped()
  {
    t.Rehome(hv, [it] + t.Home(hv))
  }

  ghost function Deleted(t: Tables, hv: nat, i: nat): Tables
    requires t.Shaped() && i < |t.Home(hv)|
  {
    t.Rehome(hv, Without(t.Home(hv), i))
  }

  ghost function Without<T>(s: seq<T>, i: nat): (r: seq<T>)
    requires i < |s|
  {
    s[..i] + s[i + 1..]
  }

  lemma WithoutAt<T>(s: seq<T>, i: nat, j: nat)
    requires i < |s| && j < |s| - 1
    ensures Without(s, i)[j] == s[if j < i then j else j + 1]
  {
  }

  lemma WithoutOne<T>(s: seq<T>, i: nat, x: T)
    requires i < |s| && x in s && x != s[i]
    ensures x in Without(s, i)
  {
    var j :| 0 <= j < |s| && s[j] == x;
    assert Without(s, i)[if j < i then j else j - 1] == x;
  }

  /** The bucket numbered `b` of a table of `2^n` buckets holds entries of the map that hash to it,
      each once. */
  ghost predicate Belongs(hash: Hash, c: Content, chain: seq<Item>, b: nat, n: nat) {
    && (forall it <- chain :: Low(hash(it.key), n) == b && it.key in c && c[it.key] == it)
    && (forall i, j :: 0 <= i < j < |chain| ==> chain[i] != chain[j])
  }

  ghost predicate AllBelong(hash: Hash, c: Content, chains: Chains, n: nat) {
    forall b {:trigger Belongs(hash, c, chains[b], b, n)} :: 0 <= b < |chains| ==> Belongs(hash, c, chains[b], b, n)
  }

  /** Every entry of the map is in its home chain. */
  ghost predicate AllAtHome(hash: Hash, c: Content, t: Tables)
    requires t.Shaped()
  {
    forall k <- c {:trigger AtHome(hash, c, t, k)} :: AtHome(hash, c, t, k)
  }

  ghost predicate AtHome(hash: Hash, c: Content, t: Tables, k: Key)
    requires t.Shaped() && k in c
  {
    c[k].key == k && c[k] in t.Home(hash(k))
  }

  /** No bucket of the old table before `from` holds anything, and the primary table holds only what
      comes from those buckets. */
  ghost predicate Split(t: Tables, migrated: nat)
    requires t.Shaped() && t.expanding
  {
    && (forall b :: 0 <= b < t.from ==> t.oldTable[b] == [])
    && (forall b {:trigger FromMigrated(t, b, migrated)} :: 0 <= b < |t.primary| ==> FromMigrated(t, b, migrated))
  }

  ghost predicate FromMigrated(t: Tables, b: nat, migrated: nat)
    requires t.Shaped() && t.expanding && b < |t.primary|
  {
    t.primary[b] != [] ==> Low(b, t.power - 1) < migrated
  }

  ghost predicate Represents(hash: Hash, c: Content, t: Tables) {
    && t.Shaped()
    && AllBelong(hash, c, t.primary, t.power)
    && (t.expanding ==> t.from < |t.oldTable| && AllBelong(hash, c, t.oldTable, t.power - 1) && Split(t, t.from))
    && AllAtHome(hash, c, t)
  }

  // ----- lookup, insertion, deletion

  /** A walk along the home chain of a key meets exactly the map's entry for it. */
  lemma HomeAnswersLookup(hash: Hash, c: Content, t: Tables, k: Key)
    requires Represents(hash, c, t)
    ensures var chain := t.Home(hash(k));
            && (k in c ==> c[k].key == k && c[k] in chain)
            && (forall it <- chain :: it.key == k ==> k in c && c[k] == it)
  {
    assert k in c ==> AtHome(hash, c, t, k);
    if t.InOld(hash(k)) {
      var b := Low(hash(k), t.power - 1);
      assert Belongs(hash, c, t.oldTable[b], b, t.power - 1);
    } else {
      var b := Low(hash(k), t.power);
      assert Belongs(hash, c, t.primary[b], b, t.power);
    }
  }

  lemma BelongsAfterInsert(hash: Hash, c: Content, chains: Chains, n: nat, it: Item)
    requires AllBelong(hash, c, chains, n) && |chains| == Pow2(n) && it.key !in c
    ensures AllBelong(hash, c[it.key := it], chains, n)
    ensures var b := Low(hash(it.key), n);
            AllBelong(hash, c[it.key := it], chains[b := [it] + chains[b]], n)
  {
    var b := Low(hash(it.key), n);
    forall d | 0 <= d < |chains|
      ensures Belongs(hash, c[it.key := it], chains[d], d, n)
      ensures d == b ==> Belongs(hash, c[it.key := it], [it] + chains[d], d, n)
    {
      assert Belongs(hash, c, chains[d], d, n);
    }
  }

  lemma InsertRepresents(hash: Hash, c: Content, t: Tables, it: Item)
    requires Represents(hash, c, t) && it.key !in c
    ensures Represents(hash, c[it.key := it], Inserted(t, hash(it.key), it))
  {
    InsertedAtHome(hash, c, t, it);
    RehomeKeepsSplit(t, hash(it.key), [it] + t.Home(hash(it.key)));
    InsertedBelongs(hash, c, t, it);
    Assemble(hash, c[it.key := it], Inserted(t, hash(it.key), it));
  }

  lemma Assemble(hash: Hash, c: Content, t: Tables)
    requires t.Shaped() && AllBelong(hash, c, t.primary, t.power) && AllAtHome(hash, c, t)
    requires t.expanding ==> t.from < |t.oldTable| && AllBelong(hash, c, t.oldTable, t.power - 1) && Split(t, t.from)
    ensures Represents(hash, c, t)
  {
  }

  lemma InsertedBelongs(hash: Hash, c: Content, t: Tables, it: Item)
    requires Represents(hash, c, t) && it.key !in c
    ensures var t' := Inserted(t, hash(it.key), it);
            && AllBelong(hash, c[it.key := it], t'.primary, t.power)
            && (t.expanding ==> AllBelong(hash, c[it.key := it], t'.oldTable, t.power - 1))
  {
    BelongsAfterInsert(hash, c, t.primary, t.power, it);
    if t.expanding {
      BelongsAfterInsert(hash, c, t.oldTable, t.power - 1, it);
    }
  }

  /** Changing the home chain of a hash value keeps the two tables apart. */
  lemma RehomeKeepsSplit(t: Tables, hv: nat, chain: seq<Item>)
    requires t.Shaped() && (t.expanding ==> Split(t, t.from))
    ensures t.expanding ==> Split(t.Rehome(hv, chain), t.from)
  {
    if t.expanding {
      LowLow(hv, t.power, t.power - 1);
      var t' := t.Rehome(hv, chain);
      forall b | 0 <= b < |t'.primary| ensures FromMigrated(t', b, t.from) {
        assert FromMigrated(t, b, t.from);
      }
    }
  }

  lemma InsertedAtHome(hash: Hash, c: Content, t: Tables, it: Item)
    requires t.Shaped() && AllAtHome(hash, c, t) && it.key !in c
    ensures AllAtHome(hash, c[it.key := it], Inserted(t, hash(it.key), it))
  {
    var chain, c' := t.Home(hash(it.key)), c[it.key := it];
    var t' := t.Rehome(hash(it.key), [it] + chain);
    forall k <- c' ensures AtHome(hash, c', t', k) {
      assert ([it] + chain)[0] == it;
      if k != it.key {
        assert AtHome(hash, c, t, k);
      }
    }
  }

  lemma BelongsAfterDelete(hash: Hash, c: Content, chains: Chains, n: nat, k: Key, i: nat)
    requires AllBelong(hash, c, chains, n) && |chains| == Pow2(n) && k in c && c[k].key == k
    requires i < |chains[Low(hash(k), n)]| && chains[Low(hash(k), n)][i] == c[k]
    ensures var b := Low(hash(k), n);
            AllBelong(hash, c - {k}, chains[b := Without(chains[b], i)], n)
  {
    var b := Low(hash(k), n);
    var rest := Without(chains[b], i);
    assert Belongs(hash, c, chains[b], b, n);
    forall j | 0 <= j < |rest| ensures rest[j].key != k {
      assert rest[j] == chains[b][if j < i then j else j + 1];
    }
    assert Belongs(hash, c - {k}, rest, b, n);
    forall d | 0 <= d < |chains| && d != b ensures Belongs(hash, c - {k}, chains[d], d, n) {
      assert Belongs(hash, c, chains[d], d, n);
    }
  }

  /** The table that is not the home of a key holds no chain with its item. */
  lemma NotElsewhere(hash: Hash, c: Content, t: Tables, k: Key)
    requires Represents(hash, c, t) && k in c && t.expanding
    ensures if t.InOld(hash(k)) then AllBelong(hash, c - {k}, t.primary, t.power)
            else AllBelong(hash, c - {k}, t.oldTable, t.power - 1)
  {
    LowLow(hash(k), t.power, t.power - 1);
    if t.InOld(hash(k)) {
      forall b | 0 <= b < |t.primary| ensures Belongs(hash, c - {k}, t.primary[b], b, t.power) {
        assert Belongs(hash, c, t.primary[b], b, t.power);
        assert FromMigrated(t, b, t.from);
      }
    } else {
      forall b | 0 <= b < |t.oldTable| ensures Belongs(hash, c - {k}, t.oldTable[b], b, t.power - 1) {
        assert Belongs(hash, c, t.oldTable[b], b, t.power - 1);
      }
    }
  }

  lemma OthersStayHome(hash: Hash, c: Content, t: Tables, k: Key, i: nat)
    requires t.Shaped() && AllAtHome(hash, c, t) && k in c
    requires i < |t.Home(hash(k))| && t.Home(hash(k))[i] == c[k]
    ensures AllAtHome(hash, c - {k}, Deleted(t, hash(k), i))
  {
    var t' := Deleted(t, hash(k), i);
    assert AtHome(hash, c, t, k);
    forall x <- c - {k} ensures AtHome(hash, c - {k}, t', x) {
      assert AtHome(hash, c, t, x);
      if c[x] in t.Home(hash(k)) {
        WithoutOne(t.Home(hash(k)), i, c[x]);
      }
    }
  }

  lemma DeleteRepresents(hash: Hash, c: Content, t: Tables, k: Key, i: nat)
    requires Represents(hash, c, t) && k in c
    requires i < |t.Home(hash(k))| && t.Home(hash(k))[i] == c[k]
    ensures Represents(hash, c - {k}, Deleted(t, hash(k), i))
  {
    OthersStayHome(hash, c, t, k, i);
    RehomeKeepsSplit(t, hash(k), Without(t.Home(hash(k)), i));
    BelongAfterDelete(hash, c, t, k, i);
    Assemble(hash, c - {k}, Deleted(t, hash(k), i));
  }

  lemma BelongAfterDelete(hash: Hash, c: Content, t: Tables, k: Key, i: nat)
    requires Represents(hash, c, t) && k in c
    requires i < |t.Home(hash(k))| && t.Home(hash(k))[i] == c[k]
    ensures var t' := Deleted(t, hash(k), i);
            && AllBelong(hash, c - {k}, t'.primary, t.power)
            && (t.expanding ==> AllBelong(hash, c - {k}, t'.oldTable, t.power - 1))
  {
    assert AtHome(hash, c, t, k);
    if t.expanding {
      NotElsewhere(hash, c, t, k);
    }
    if t.InOld(hash(k)) {
      BelongsAfterDelete(hash, c, t.oldTable, t.power - 1, k, i);
    } else {
      BelongsAfterDelete(hash, c, t.primary, t.power, k, i);
    }
  }

  // ----- expansion

  ghost function Expanded(t: Tables): Tables {
    Tables(seq(Pow2(t.power + 1), _ => []), t.primary, t.power + 1, true, 0)
  }

  lemma ExpandRepresents(hash: Hash, c: Content, t: Tables)
    requires Represents(hash, c, t) && !t.expanding
    ensures Represents(hash, c, Expanded(t))
  {
    forall k <- c ensures AtHome(hash, c, Expanded(t), k) {
      assert AtHome(hash, c, t, k);
    }
    EmptyBelong(hash, c, t.power + 1);
  }

  lemma EmptyBelong(hash: Hash, c: Content, n: nat)
    ensures AllBelong(hash, c, seq(Pow2(n), _ => []), n)
  {
    forall b | 0 <= b < Pow2(n) ensures Belongs(hash, c, [], b, n) {
    }
  }

  /** Bucket `from` of the old table is being emptied: each of its entries is either still in it or
      already in the primary table, not in both. */
  ghost predicate Moving(hash: Hash, c: Content, t: Tables) {
    && t.Shaped() && t.expanding && t.from < |t.oldTable|
    && AllBelong(hash, c, t.primary, t.power)
    && AllBelong(hash, c, t.oldTable, t.power - 1)
    && Split(t, t.from + 1)
    && (forall k <- c {:trigger Somewhere(hash, c, t, k)} :: Somewhere(hash, c, t, k))
    && (forall it <- t.oldTable[t.from] {:trigger NotAhead(hash, t, it)} :: NotAhead(hash, t, it))
  }

  ghost predicate Somewhere(hash: Hash, c: Content, t: Tables, k: Key)
    requires t.Shaped() && t.expanding && k in c
  {
    || AtHome(hash, c, t, k)
    || (c[k].key == k && Low(hash(k), t.power - 1) == t.from && c[k] in t.primary[Low(hash(k), t.power)])
  }

  ghost predicate NotAhead(hash: Hash, t: Tables, it: Item)
    requires t.Shaped()
  {
    it !in t.primary[Low(hash(it.key), t.power)]
  }

  lemma MoveStarts(hash: Hash, c: Content, t: Tables)
    requires Represents(hash, c, t) && t.expanding
    ensures Moving(hash, c, t)
  {
    forall it <- t.oldTable[t.from] ensures NotAhead(hash, t, it) {
      assert Belongs(hash, c, t.oldTable[t.from], t.from, t.power - 1);
      LowLow(hash(it.key), t.power, t.power - 1);
      assert FromMigrated(t, Low(hash(it.key), t.power), t.from);
    }
    forall k <- c ensures Somewhere(hash, c, t, k) {
      assert AtHome(hash, c, t, k);
    }
    WiderSplit(t, t.from, t.from + 1);
  }

  lemma WiderSplit(t: Tables, m: nat, n: nat)
    requires t.Shaped() && t.expanding && Split(t, m) && m <= n
    ensures Split(t, n)
  {
    forall b | 0 <= b < |t.primary| ensures FromMigrated(t, b, n) {
      assert FromMigrated(t, b, m);
    }
  }

  /** Move the first item of the bucket to the front of its bucket in the primary table. */
  ghost function MovedOne(hash: Hash, t: Tables): (t': Tables)
    requires t.Shaped() && t.expanding && t.from < |t.oldTable| && t.oldTable[t.from] != []
    ensures t'.Shaped()
  {
    var it := t.oldTable[t.from][0];
    var b := Low(hash(it.key), t.power);
    t.(primary := t.primary[b := [it] + t.primary[b]], oldTable := t.oldTable[t.from := t.oldTable[t.from][1..]])
  }

  lemma MoveOne(hash: Hash, c: Content, t: Tables)
    requires Moving(hash, c, t) && t.oldTable[t.from] != []
    ensures Moving(hash, c, MovedOne(hash, t))
  {
    MoveOneBelongs(hash, c, t);
    forall k <- c ensures Somewhere(hash, c, MovedOne(hash, t), k) {
      assert Somewhere(hash, c, t, k);
      MoveOneKey(hash, c, t, k);
    }
    MoveOneSplits(hash, c, t);
    MoveOneNotAhead(hash, c, t);
  }

  lemma MoveOneBelongs(hash: Hash, c: Content, t: Tables)
    requires Moving(hash, c, t) && t.oldTable[t.from] != []
    ensures AllBelong(hash, c, MovedOne(hash, t).primary, t.power)
    ensures AllBelong(hash, c, MovedOne(hash, t).oldTable, t.power - 1)
  {
    var it, t' := t.oldTable[t.from][0], MovedOne(hash, t);
    var b := Low(hash(it.key), t.power);
    assert Belongs(hash, c, t.oldTable[t.from], t.from, t.power - 1);
    assert Belongs(hash, c, t.primary[b], b, t.power);
    assert NotAhead(hash, t, it);
    forall d | 0 <= d < |t'.primary| ensures Belongs(hash, c, t'.primary[d], d, t.power) {
      assert Belongs(hash, c, t.primary[d], d, t.power);
    }
    forall d | 0 <= d < |t'.oldTable| ensures Belongs(hash, c, t'.oldTable[d], d, t.power - 1) {
      assert Belongs(hash, c, t.oldTable[d], d, t.power - 1);
    }
  }

  lemma MoveOneSplits(hash: Hash, c: Content, t: Tables)
    requires Moving(hash, c, t) && t.oldTable[t.from] != []
    ensures Split(MovedOne(hash, t), t.from + 1)
  {
    var it, t' := t.oldTable[t.from][0], MovedOne(hash, t);
    assert Belongs(hash, c, t.oldTable[t.from], t.from, t.power - 1);
    LowLow(hash(it.key), t.power, t.power - 1);
    var next := t.from + 1;
    forall d | 0 <= d < |t'.primary| ensures FromMigrated(t', d, next) {
      assert FromMigrated(t, d, next);
    }
  }

  lemma MoveOneNotAhead(hash: Hash, c: Content, t: Tables)
    requires Moving(hash, c, t) && t.oldTable[t.from] != []
    ensures var t' := MovedOne(hash, t); forall x <- t'.oldTable[t.from] :: NotAhead(hash, t', x)
  {
    var it, t' := t.oldTable[t.from][0], MovedOne(hash, t);
    assert Belongs(hash, c, t.oldTable[t.from], t.from, t.power - 1);
    forall x <- t'.oldTable[t.from] ensures NotAhead(hash, t', x) {
      var j :| 0 <= j < |t'.oldTable[t.from]| && t'.oldTable[t.from][j] == x;
      assert t.oldTable[t.from][j + 1] == x != it;
      assert x in t.oldTable[t.from];
      assert NotAhead(hash, t, x);
    }
  }

  lemma MoveOneKey(hash: Hash, c: Content, t: Tables, k: Key)
    requires t.Shaped() && t.expanding && t.from < |t.oldTable| && t.oldTable[t.from] != []
    requires k in c && Somewhere(hash, c, t, k)
    ensures Somewhere(hash, c, MovedOne(hash, t), k)
  {
    var it, t' := t.oldTable[t.from][0], MovedOne(hash, t);
    var b := Low(hash(it.key), t.power);
    assert t'.primary[b][0] == it;
    assert forall x <- t.primary[b] :: x in t'.primary[b];
    if c[k] in t.oldTable[t.from] && c[k] != it {
      var j :| 0 <= j < |t.oldTable[t.from]| && t.oldTable[t.from][j] == c[k];
      assert t'.oldTable[t.from][j - 1] == c[k];
    }
  }

  /** The bucket is empty: count it as migrated, and stop expanding after the last one. */
  ghost function Migrated(t: Tables): Tables {
    if t.from + 1 == |t.oldTable| then t.(oldTable := [], expanding := false, from := t.from + 1)
    else t.(from := t.from + 1)
  }

  lemma MoveEnds(hash: Hash, c: Content, t: Tables)
    requires Moving(hash, c, t) && t.oldTable[t.from] == []
    ensures Represents(hash, c, Migrated(t))
    ensures !Migrated(t).expanding ==> forall b :: 0 <= b < |t.oldTable| ==> t.oldTable[b] == []
  {
    forall k <- c ensures AtHome(hash, c, Migrated(t), k) {
      assert Somewhere(hash, c, t, k);
    }
    var next := t.from + 1;
    if Migrated(t).expanding {
      forall b | 0 <= b < |t.primary| ensures FromMigrated(Migrated(t), b, next) {
        assert FromMigrated(t, b, next);
      }
    }
  }

  // ----- an item is in one chain only

  /** An item occurs in no bucket of a table, or only in bucket `b`. */
  ghost predicate Absent(chains: Chains, it: Item) {
    forall d {:trigger chains[d]} :: 0 <= d < |chains| ==> it !in chains[d]
  }

  ghost predicate OnlyIn(chains: Chains, b: nat, it: Item) {
    forall d {:trigger chains[d]} :: 0 <= d < |chains| && d != b ==> it !in chains[d]
  }

  /** The item at `i` of bucket `b` and the one in front of it occur nowhere else. */
  ghost predicate Alone(chains: Chains, b: nat, i: nat)
    requires b < |chains| && i < |chains[b]|
  {
    && OnlyIn(chains, b, chains[b][i])
    && (i > 0 ==> OnlyIn(chains, b, chains[b][i - 1]))
    && (forall j, k :: 0 <= j < k < |chains[b]| ==> chains[b][j] != chains[b][k])
  }

  lemma BelongsOnlyIn(hash: Hash, c: Content, chains: Chains, n: nat, it: Item)
    requires AllBelong(hash, c, chains, n)
    ensures OnlyIn(chains, Low(hash(it.key), n), it)
  {
    forall d | 0 <= d < |chains| && d != Low(hash(it.key), n) ensures it !in chains[d] {
      assert Belongs(hash, c, chains[d], d, n);
    }
  }

  lemma AbsentElsewhere(hash: Hash, c: Content, t: Tables, it: Item)
    requires Represents(hash, c, t) && t.expanding
    ensures if t.InOld(hash(it.key)) then Absent(t.primary, it) else Absent(t.oldTable, it)
  {
    LowLow(hash(it.key), t.power, t.power - 1);
    if t.InOld(hash(it.key)) {
      forall d | 0 <= d < |t.primary| ensures it !in t.primary[d] {
        assert Belongs(hash, c, t.primary[d], d, t.power);
        assert FromMigrated(t, d, t.from);
      }
    } else {
      forall d | 0 <= d < |t.oldTable| ensures it !in t.oldTable[d] {
        assert Belongs(hash, c, t.oldTable[d], d, t.power - 1);
      }
    }
  }

  lemma SameHome(hash: Hash, c: Content, t: Tables, hv: nat, it: Item)
    requires Represents(hash, c, t) && it in t.Home(hv)
    ensures t.InOld(hv) == t.InOld(hash(it.key)) && t.Home(hash(it.key)) == t.Home(hv)
    ensures if t.InOld(hv) then OnlyIn(t.oldTable, Low(hv, t.power - 1), it) && Absent(t.primary, it)
            else OnlyIn(t.primary, Low(hv, t.power), it) && (t.expanding ==> Absent(t.oldTable, it))
  {
    if t.expanding {
      LowLow(hv, t.power, t.power - 1);
      LowLow(hash(it.key), t.power, t.power - 1);
      BelongsOnlyIn(hash, c, t.oldTable, t.power - 1, it);
      AbsentElsewhere(hash, c, t, it);
    }
    BelongsOnlyIn(hash, c, t.primary, t.power, it);
    if t.InOld(hv) {
      assert Belongs(hash, c, t.oldTable[Low(hv, t.power - 1)], Low(hv, t.power - 1), t.power - 1);
    } else {
      assert Belongs(hash, c, t.primary[Low(hv, t.power)], Low(hv, t.power), t.power);
    }
  }

  /** Unlinking the item at `i` of a home chain disturbs no other chain of either table. */
  ghost predicate Removable(t: Tables, hv: nat, i: nat)
    requires t.Shaped() && i < |t.Home(hv)|
  {
    if t.InOld(hv)
    then && Alone(t.oldTable, Low(hv, t.power - 1), i)
         && Absent(t.primary, t.Home(hv)[i]) && (i > 0 ==> Absent(t.primary, t.Home(hv)[i - 1]))
    else && Alone(t.primary, Low(hv, t.power), i)
         && (t.expanding ==>
               Absent(t.oldTable, t.Home(hv)[i]) && (i > 0 ==> Absent(t.oldTable, t.Home(hv)[i - 1])))
  }

  lemma HomeIsRemovable(hash: Hash, c: Content, t: Tables, hv: nat, i: nat)
    requires Represents(hash, c, t) && i < |t.Home(hv)|
    ensures Removable(t, hv, i)
  {
    HomeAlone(hash, c, t, hv, i);
    SameHome(hash, c, t, hv, t.Home(hv)[i]);
    if i > 0 {
      SameHome(hash, c, t, hv, t.Home(hv)[i - 1]);
    }
  }

  lemma HomeAlone(hash: Hash, c: Content, t: Tables, hv: nat, i: nat)
    requires Represents(hash, c, t) && i < |t.Home(hv)|
    ensures if t.InOld(hv) then Alone(t.oldTable, Low(hv, t.power - 1), i) else Alone(t.primary, Low(hv, t.power), i)
  {
    var chain := t.Home(hv);
    SameHome(hash, c, t, hv, chain[i]);
    if i > 0 {
      SameHome(hash, c, t, hv, chain[i - 1]);
    }
    if t.InOld(hv) {
      assert Belongs(hash, c, t.oldTable[Low(hv, t.power - 1)], Low(hv, t.power - 1), t.power - 1);
    } else {
      assert Belongs(hash, c, t.primary[Low(hv, t.power)], Low(hv, t.power), t.power);
    }
  }

  /** The first item of the bucket being emptied is in no chain but that one. */
  lemma FirstIsOnlyThere(hash: Hash, c: Content, t: Tables)
    requires Moving(hash, c, t) && t.oldTable[t.from] != []
    ensures var it := t.oldTable[t.from][0];
            && Absent(t.primary, it) && OnlyIn(t.oldTable, t.from, it)
            && it !in t.oldTable[t.from][1..]
  {
    var it := t.oldTable[t.from][0];
    assert it in t.oldTable[t.from];
    assert NotAhead(hash, t, it);
    assert Belongs(hash, c, t.oldTable[t.from], t.from, t.power - 1);
    BelongsOnlyIn(hash, c, t.primary, t.power, it);
    BelongsOnlyIn(hash, c, t.oldTable, t.power - 1, it);
  }

  /** The tables stand for the map, are made of exactly its items, and `n` counts them. */
  ghost predicate Holds(hash: Hash, c: Content, t: Tables, items: set<Item>, n: nat) {
    && Represents(hash, c, t)
    && n == |c|
    && (forall it <- items :: it.key in c && c[it.key] == it)
  }

  lemma InsertHolds(hash: Hash, c: Content, t: Tables, items: set<Item>, n: nat, it: Item)
    requires Holds(hash, c, t, items, n) && it.key !in c
    ensures Holds(hash, c[it.key := it], Inserted(t, hash(it.key), it), items + {it}, n + 1)
  {
    InsertRepresents(hash, c, t, it);
  }

  lemma DeleteHolds(hash: Hash, c: Content, t: Tables, items: set<Item>, n: nat, k: Key, i: nat)
    requires Holds(hash, c, t, items, n) && k in c
    requires i < |t.Home(hash(k))| && t.Home(hash(k))[i] == c[k]
    ensures n > 0 && Holds(hash, c - {k}, Deleted(t, hash(k), i), items - {c[k]}, n - 1)
  {
    DeleteRepresents(hash, c, t, k, i);
    assert |c - {k}| == |c| - 1 by {
      assert (c - {k}).Keys == c.Keys - {k};
    }
  }

  // ----- the table in the heap

  /** `head` starts the chain `s` and the `hNext` pointers lead through it to null. */
  ghost predicate Chained(head: Item?, s: seq<Item>)
    reads s
  {
    && head == (if s == [] then null else s[0])
    && forall i {:trigger s[i]} :: 0 <= i < |s| ==> s[i].hNext == (if i + 1 < |s| then s[i + 1] else null)
  }

  /** Slot by slot, the array starts the given chains, all made of the given items. */
  ghost predicate Linked(slots: array<Item?>, chains: Chains, items: set<Item>)
    reads slots, items
  {
    && slots.Length == |chains|
    && (forall b {:trigger SlotLinked(slots, chains, items, b)} :: 0 <= b < |chains| ==>
          SlotLinked(slots, chains, items, b))
  }

  ghost predicate SlotLinked(slots: array<Item?>, chains: Chains, items: set<Item>, b: nat)
    requires b < slots.Length && b < |chains|
    reads slots, items
  {
    (forall it <- chains[b] :: it in items) && Chained(slots[b], chains[b])
  }

  lemma LinkedWiden(slots: array<Item?>, chains: Chains, items: set<Item>, more: set<Item>)
    requires Linked(slots, chains, items) && items <= more
    ensures Linked(slots, chains, more)
  {
    forall b | 0 <= b < |chains| ensures SlotLinked(slots, chains, more, b) {
      assert SlotLinked(slots, chains, items, b);
    }
  }

  class HashTable {
    const hash: Hash
    var hashpower: nat
    var primary: array<Item?>
    var oldTable: array<Item?>
    var hashItems: nat
    var expanding: bool
    var startedExpanding: bool
    var expandBucket: nat

    /** The map the table stands for, its chains, and the items linked in them. */
    ghost var content: Content
    ghost var tables: Tables
    ghost var items: set<Item>

    ghost predicate Valid()
      reads this, primary, oldTable, items
    {
      ChainsInPlace() && MapInPlace()
    }

    /** The pointers in the heap form the chains of `tables`. */
    ghost predicate ChainsInPlace()
      reads `primary, `oldTable, `tables, `items, primary, oldTable, items
      reads `hashpower, `expanding, `expandBucket
    {
      && tables.Shaped()
      && tables.power == hashpower && tables.expanding == expanding && tables.from == expandBucket
      && Linked(primary, tables.primary, items)
      && (expanding ==> oldTable != primary && Linked(oldTable, tables.oldTable, items))
    }

    /** The chains stand for the map. */
    ghost predicate MapInPlace()
      reads `content, `tables, `items, `hashItems
    {
      Holds(hash, content, tables, items, hashItems)
    }

    constructor (hash: Hash, hashpower: nat)
      ensures Valid() && content == map[] && !expanding && this.hashpower == hashpower && this.hash == hash
      ensures fresh(primary) && fresh(oldTable) && items == {}
    {
      this.hash := hash;
      this.hashpower := hashpower;
      var n := Pow2(hashpower);
      primary := new Item?[n](_ => null);
      oldTable := new Item?[0];
      hashItems, expanding, startedExpanding, expandBucket := 0, false, false, 0;
      content, items := map[], {};
      tables := Tables(seq(n, _ => []), [], hashpower, false, 0);
      EmptyBelong(hash, map[], hashpower);
    }

    /** The walk of `assoc_find` and `_hashitem_before` along a chain. */
    static method Walk(head: Item?, key: Key, ghost chain: seq<Item>)
      returns (before: Item?, ret: Item?, ghost i: nat)
      requires Chained(head, chain)
      ensures i <= |chain| && ret == (if i < |chain| then chain[i] else null)
      ensures before == if i > 0 then chain[i - 1] else null
      ensures forall j :: 0 <= j < i ==> chain[j].key != key
      ensures i < |chain| ==> chain[i].key == key
    {
      before, ret, i := null, head, 0;
      while ret != null && ret.key != key
        invariant i <= |chain| && ret == (if i < |chain| then chain[i] else null)
        invariant before == if i > 0 then chain[i - 1] else null
        invariant forall j :: 0 <= j < i ==> chain[j].key != key
        decreases |chain| - i
      {
        before, ret, i := ret, ret.hNext, i + 1;
      }
    }

    method Head(hv: nat) returns (head: Item?)
      requires ChainsInPlace()
      ensures Chained(head, tables.Home(hv))
    {
      if expanding && Low(hv, hashpower - 1) >= expandBucket {
        head := oldTable[Low(hv, hashpower - 1)];
        assert SlotLinked(oldTable, tables.oldTable, items, Low(hv, hashpower - 1));
      } else {
        head := primary[Low(hv, hashpower)];
        assert SlotLinked(primary, tables.primary, items, Low(hv, hashpower));
      }
    }

    method Find(key: Key, hv: nat) returns (ret: Item?)
      requires Valid() && hv == hash(key)
      ensures ret == if key in content then content[key] else null
    {
      var head := Head(hv);
      HomeAnswersLookup(hash, content, tables, key);
      var before;
      ghost var i;
      before, ret, i := Walk(head, key, tables.Home(hv));
    }

    /** The found item and its predecessor in its chain. */
    method FindBefore(key: Key, hv: nat) returns (before: Item?, it: Item, ghost i: nat)
      requires Valid() && hv == hash(key) && key in content
      ensures i < |tables.Home(hv)| && it == tables.Home(hv)[i] == content[key]
      ensures before == if i > 0 then tables.Home(hv)[i - 1] else null
    {
      var head := Head(hv);
      HomeAnswersLookup(hash, content, tables, key);
      var found;
      before, found, i := Walk(head, key, tables.Home(hv));
      it := found;
    }

    /** Put an item in front of a bucket. */
    static method LinkFront(slots: array<Item?>, b: nat, it: Item, ghost chains: Chains, ghost items: set<Item>)
      requires b < slots.Length && Linked(slots, chains, items) && Absent(chains, it)
      modifies slots, it
      ensures Linked(slots, chains[b := [it] + chains[b]], items + {it})
    {
      it.hNext := slots[b];
      slots[b] := it;
      ghost var now := chains[b := [it] + chains[b]];
      forall d | 0 <= d < |chains| ensures SlotLinked(slots, now, items + {it}, d) {
        assert old(SlotLinked(slots, chains, items, d));
        assert it !in chains[d];
      }
    }

    static lemma NewIsAbsent(slots: array<Item?>, chains: Chains, items: set<Item>, it: Item)
      requires Linked(slots, chains, items) && it !in items
      ensures Absent(chains, it)
    {
      forall d | 0 <= d < |chains| ensures it !in chains[d] {
        assert SlotLinked(slots, chains, items, d);
      }
    }

    /** Link an item in front of its home chain. */
    method LinkAtHome(it: Item, hv: nat)
      requires ChainsInPlace() && it !in items
      modifies `tables, `items, primary, oldTable, it
      ensures ChainsInPlace() && items == old(items) + {it}
      ensures tables == Inserted(old(tables), hv, it)
    {
      ghost var t, more := Inserted(tables, hv, it), items + {it};
      if expanding && Low(hv, hashpower - 1) >= expandBucket {
        LinkOld(it, Low(hv, hashpower - 1));
        assert Linked(primary, t.primary, more) && Linked(oldTable, t.oldTable, more);
      } else {
        LinkPrimary(it, Low(hv, hashpower));
        assert Linked(primary, t.primary, more);
      }
      tables, items := t, more;
    }

    method LinkOld(it: Item, b: nat)
      requires ChainsInPlace() && it !in items && expanding && b < oldTable.Length
      modifies oldTable, it
      ensures Linked(primary, tables.primary, items + {it})
      ensures Linked(oldTable, tables.oldTable[b := [it] + tables.oldTable[b]], items + {it})
    {
      NewIsAbsent(oldTable, tables.oldTable, items, it);
      LinkFront(oldTable, b, it, tables.oldTable, items);
      LinkedWiden(primary, tables.primary, items, items + {it});
    }

    method LinkPrimary(it: Item, b: nat)
      requires ChainsInPlace() && it !in items && b < primary.Length
      modifies primary, it
      ensures Linked(primary, tables.primary[b := [it] + tables.primary[b]], items + {it})
      ensures expanding ==> Linked(oldTable, tables.oldTable, items + {it})
    {
      NewIsAbsent(primary, tables.primary, items, it);
      LinkFront(primary, b, it, tables.primary, items);
      if expanding {
        LinkedWiden(oldTable, tables.oldTable, items, items + {it});
      }
    }

    /** The key must not be in the table. Crossing the load limit asks for an expansion. */
    method Insert(it: Item, hv: nat)
      requires Valid() && hv == hash(it.key) && it.key !in content
      modifies this, primary, oldTable, it
      ensures Valid() && content == old(content)[it.key := it] && hashItems == old(hashItems) + 1
      ensures items == old(items) + {it}
      ensures unchanged(`hashpower, `primary, `oldTable, `expanding, `expandBucket)
      ensures startedExpanding == (old(startedExpanding) || (!expanding && hashItems > primary.Length * 3 / 2))
    {
      InsertHolds(hash, content, tables, items, hashItems, it);
      LinkAtHome(it, hv);
      Count(hashItems + 1, content[it.key := it]);
      if !expanding && hashItems > primary.Length * 3 / 2 {
        startedExpanding := true;
      }
    }

    /** Take the item at `i` out of bucket `b`; `before` is its predecessor, if it has one. */
    static method Unlink(slots: array<Item?>, b: nat, before: Item?, it: Item, ghost chains: Chains,
                         ghost items: set<Item>, ghost i: nat)
      requires b < slots.Length && Linked(slots, chains, items) && i < |chains[b]|
      requires it == chains[b][i] && before == if i > 0 then chains[b][i - 1] else null
      requires Alone(chains, b, i)
      modifies slots, items
      ensures Linked(slots, chains[b := Without(chains[b], i)], items - {it})
      ensures forall x <- items :: x != it && x != before ==> x.hNext == old(x.hNext)
      ensures before != null ==> before in chains[b]
    {
      ghost var s := chains[b];
      assert SlotLinked(slots, chains, items, b) && s[i] in s && (i > 0 ==> s[i - 1] in s);
      Bypass(slots, b, before, it, s, items, i);
      ghost var now := chains[b := Without(s, i)];
      forall d | 0 <= d < |chains| ensures SlotLinked(slots, now, items - {it}, d) {
        assert old(SlotLinked(slots, chains, items, d));
      }
    }

    /** The pointer work: what pointed at the item points past it. */
    static method Bypass(slots: array<Item?>, b: nat, before: Item?, it: Item, ghost s: seq<Item>,
                         ghost items: set<Item>, ghost i: nat)
      requires b < slots.Length && i < |s| && (forall x <- s :: x in items) && Chained(slots[b], s)
      requires forall j, k :: 0 <= j < k < |s| ==> s[j] != s[k]
      requires it == s[i] && before == if i > 0 then s[i - 1] else null
      modifies slots, items
      ensures Chained(slots[b], Without(s, i))
      ensures forall d :: 0 <= d < slots.Length && d != b ==> slots[d] == old(slots[d])
      ensures forall x <- items :: x != it && x != before ==> x.hNext == old(x.hNext)
    {
      assert s[i] in s && (i > 0 ==> s[i - 1] in s);
      var nxt := it.hNext;
      it.hNext := null;
      if before == null {
        slots[b] := nxt;
      } else {
        before.hNext := nxt;
      }
      ghost var r := Without(s, i);
      forall j {:trigger r[j]} | 0 <= j < |r| ensures r[j].hNext == (if j + 1 < |r| then r[j + 1] else null) {
        WithoutAt(s, i, j);
        if j + 1 < |r| {
          WithoutAt(s, i, j + 1);
        }
      }
      if r != [] {
        WithoutAt(s, i, 0);
      }
    }

    /** Take the item at `i` out of the home chain of a hash value. */
    method UnlinkAtHome(before: Item?, it: Item, hv: nat, ghost i: nat)
      requires ChainsInPlace() && i < |tables.Home(hv)| && Removable(tables, hv, i)
      requires it == tables.Home(hv)[i] && before == if i > 0 then tables.Home(hv)[i - 1] else null
      modifies `tables, `items, primary, oldTable, items
      ensures ChainsInPlace() && items == old(items) - {it}
      ensures tables == Deleted(old(tables), hv, i)
    {
      ghost var t, rest := Deleted(tables, hv, i), items - {it};
      if expanding && Low(hv, hashpower - 1) >= expandBucket {
        UnlinkOld(before, it, Low(hv, hashpower - 1), i);
        assert Linked(primary, t.primary, rest) && Linked(oldTable, t.oldTable, rest);
      } else {
        UnlinkPrimary(before, it, Low(hv, hashpower), i);
        assert Linked(primary, t.primary, rest);
      }
      tables, items := t, rest;
    }

    method UnlinkOld(before: Item?, it: Item, b: nat, ghost i: nat)
      requires ChainsInPlace() && expanding && b < oldTable.Length && i < |tables.oldTable[b]|
      requires it == tables.oldTable[b][i] && before == if i > 0 then tables.oldTable[b][i - 1] else null
      requires Alone(tables.oldTable, b, i)
      requires Absent(tables.primary, it) && (before != null ==> Absent(tables.primary, before))
      modifies oldTable, items
      ensures Linked(primary, tables.primary, items - {it})
      ensures Linked(oldTable, tables.oldTable[b := Without(tables.oldTable[b], i)], items - {it})
    {
      Unlink(oldTable, b, before, it, tables.oldTable, items, i);
      forall d | 0 <= d < |tables.primary| ensures SlotLinked(primary, tables.primary, items - {it}, d) {
        assert old(SlotLinked(primary, tables.primary, items, d));
      }
    }

    method UnlinkPrimary(before: Item?, it: Item, b: nat, ghost i: nat)
      requires ChainsInPlace() && b < primary.Length && i < |tables.primary[b]|
      requires it == tables.primary[b][i] && before == if i > 0 then tables.primary[b][i - 1] else null
      requires Alone(tables.primary, b, i)
      requires expanding ==> Absent(tables.oldTable, it) && (before != null ==> Absent(tables.oldTable, before))
      modifies primary, items
      ensures Linked(primary, tables.primary[b := Without(tables.primary[b], i)], items - {it})
      ensures expanding ==> Linked(oldTable, tables.oldTable, items - {it})
    {
      Unlink(primary, b, before, it, tables.primary, items, i);
      if expanding {
        forall d | 0 <= d < |tables.oldTable| ensures SlotLinked(oldTable, tables.oldTable, items - {it}, d) {
          assert old(SlotLinked(oldTable, tables.oldTable, items, d));
        }
      }
    }

    /** Find an item and take it out of its chain. */
    method FindAndUnlink(key: Key, hv: nat)
      requires Valid() && hv == hash(key) && key in content
      modifies `tables, `items, primary, oldTable, items
      ensures ChainsInPlace() && items == old(items) - {content[key]}
      ensures hashItems > 0 && Holds(hash, content - {key}, tables, items, hashItems - 1)
    {
      var before, it;
      ghost var i;
      before, it, i := FindBefore(key, hv);
      HomeIsRemovable(hash, content, tables, hv, i);
      DeleteHolds(hash, content, tables, items, hashItems, key, i);
      UnlinkAtHome(before, it, hv, i);
    }

    /** Callers delete only what they found. */
    method Delete(key: Key, hv: nat)
      requires Valid() && hv == hash(key) && key in content
      modifies this, primary, oldTable, items
      ensures Valid() && content == old(content) - {key} && hashItems == old(hashItems) - 1
      ensures items == old(items) - {old(content)[key]}
      ensures unchanged(`hashpower, `primary, `oldTable, `expanding, `expandBucket, `startedExpanding)
    {
      ghost var left := content - {key};
      FindAndUnlink(key, hv);
      Count(hashItems - 1, left);
    }

    /** hash_items and the map follow the chains. */
    method Count(n: nat, ghost c: Content)
      requires ChainsInPlace() && Holds(hash, c, tables, items, n)
      modifies `hashItems, `content
      ensures Valid() && hashItems == n && content == c
    {
      hashItems := n;
      content := c;
    }

    /** Double the table; `room` says whether the memory for it was there. */
    method Expand(room: bool)
      requires Valid() && !expanding
      modifies this
      ensures Valid() && content == old(content) && hashItems == old(hashItems) && items == old(items)
      ensures !room ==> unchanged(this)
      ensures room ==> expanding && hashpower == old(hashpower) + 1 && expandBucket == 0
                       && oldTable == old(primary) && fresh(primary)
    {
      if !room {
        return;
      }
      ExpandRepresents(hash, content, tables);
      Widen();
    }

    /** The table becomes the old table, beside an empty one with twice the buckets. */
    method Widen()
      requires ChainsInPlace() && !expanding
      modifies `oldTable, `primary, `hashpower, `expanding, `expandBucket, `tables
      ensures ChainsInPlace() && tables == Expanded(old(tables))
      ensures expanding && hashpower == old(hashpower) + 1 && expandBucket == 0
      ensures oldTable == old(primary) && fresh(primary)
    {
      oldTable := primary;
      var n := Pow2(hashpower + 1);
      primary := new Item?[n](_ => null);
      hashpower := hashpower + 1;
      expanding := true;
      expandBucket := 0;
      tables := Expanded(tables);
    }

    /** Every slot but `skip` starts its chain. */
    static ghost predicate LinkedExcept(slots: array<Item?>, chains: Chains, items: set<Item>, skip: nat)
      reads slots, items
    {
      && slots.Length == |chains|
      && (forall b {:trigger SlotLinked(slots, chains, items, b)} :: 0 <= b < |chains| && b != skip ==>
            SlotLinked(slots, chains, items, b))
    }

    /** The heap while bucket `from` is being emptied: what is left of its chain starts at `it`. */
    ghost predicate MidMove(it: Item?)
      reads `primary, `oldTable, `tables, `items, `hashpower, primary, oldTable, items
    {
      && tables.Shaped() && tables.expanding && tables.from < |tables.oldTable| && tables.power == hashpower
      && oldTable != primary
      && Linked(primary, tables.primary, items)
      && LinkedExcept(oldTable, tables.oldTable, items, tables.from)
      && (forall x <- tables.oldTable[tables.from] :: x in items)
      && Chained(it, tables.oldTable[tables.from])
    }

    /** One round of the migration loop. */
    method MoveFirst(it: Item) returns (next: Item?)
      requires MidMove(it) && Moving(hash, content, tables)
      modifies `tables, primary, items
      ensures MidMove(next) && Moving(hash, content, tables)
      ensures old(tables.oldTable[tables.from]) != [] && tables == MovedOne(hash, old(tables))
    {
      ghost var t := tables;
      FirstIsOnlyThere(hash, content, t);
      MoveOne(hash, content, t);
      next := it.hNext;
      ghost var rest := t.oldTable[t.from][1..];
      assert Chained(next, rest);
      LinkFront(primary, Low(hash(it.key), hashpower), it, t.primary, items);
      assert items + {it} == items;
      tables := MovedOne(hash, t);
      forall b | 0 <= b < |t.oldTable| && b != t.from ensures SlotLinked(oldTable, tables.oldTable, items, b) {
        assert old(SlotLinked(oldTable, t.oldTable, items, b));
        assert it !in t.oldTable[b];
      }
    }

    /** Migrate the next old bucket if its item lock is free. */
    method MigrateBucket(locked: bool)
      requires Valid() && expanding
      modifies this, primary, oldTable, items
      ensures Valid() && content == old(content) && hashItems == old(hashItems) && items == old(items)
      ensures primary == old(primary) && oldTable == old(oldTable) && hashpower == old(hashpower)
      ensures expandBucket == if locked then old(expandBucket) + 1 else old(expandBucket)
      ensures expanding <==> expandBucket < Pow2(hashpower - 1)
      ensures expandBucket <= Pow2(hashpower - 1)
      ensures !expanding ==> forall b :: 0 <= b < oldTable.Length ==> oldTable[b] == null
    {
      if !locked {
        return;
      }
      MoveStarts(hash, content, tables);
      assert SlotLinked(oldTable, tables.oldTable, items, expandBucket);
      MoveChain(oldTable[expandBucket]);
      MoveEnds(hash, content, tables);
      FinishBucket();
    }

    /** The items of the old bucket go to the new ones, one after the other. */
    method MoveChain(head: Item?)
      requires MidMove(head) && Moving(hash, content, tables)
      modifies `tables, primary, items
      ensures MidMove(null) && Moving(hash, content, tables)
      ensures tables == old(tables).(primary := tables.primary, oldTable := tables.oldTable)
    {
      var it := head;
      while it != null
        invariant MidMove(it) && Moving(hash, content, tables)
        invariant tables == old(tables).(primary := tables.primary, oldTable := tables.oldTable)
        decreases |tables.oldTable[tables.from]|
      {
        it := MoveFirst(it);
      }
    }

    method FinishBucket()
      requires MidMove(null) && tables.from == expandBucket && expanding
      modifies `expandBucket, `expanding, `tables, oldTable
      ensures ChainsInPlace() && tables == Migrated(old(tables))
      ensures !expanding && (forall b :: 0 <= b < oldTable.Length ==> old(tables.oldTable)[b] == []) ==>
                forall b :: 0 <= b < oldTable.Length ==> oldTable[b] == null
    {
      oldTable[expandBucket] := null;
      ghost var t := tables;
      tables := Migrated(t);
      expandBucket := expandBucket + 1;
      if expandBucket == Pow2(hashpower - 1) {
        expanding := false;
      }
      assert t.oldTable[t.from] == [];
      forall b | 0 <= b < |t.oldTable| ensures SlotLinked(oldTable, t.oldTable, items, b) {
        if b != t.from {
          assert old(SlotLinked(oldTable, t.oldTable, items, b));
        }
      }
      if forall b :: 0 <= b < |t.oldTable| ==> t.oldTable[b] == [] {
        forall b | 0 <= b < |t.oldTable| ensures oldTable[b] == null {
          assert SlotLinked(oldTable, t.oldTable, items, b);
        }
      }
    }

    /** One batch of the maintenance thread: at most one bucket for each entry of `granted`, which
        says whether the item lock of that bucket could be taken. Lookups see no difference, and a
        batch that gets enough locks ends the expansion. */
    method MigrateBatch(granted: seq<bool>)
      requires Valid()
      modifies this, primary, oldTable, items
      ensures Valid() && content == old(content) && hashItems == old(hashItems) && hashpower == old(hashpower)
      ensures old(expanding) && !expanding ==> forall b :: 0 <= b < oldTable.Length ==> oldTable[b] == null
      ensures old(expanding) ==>
                (expanding <==> old(expandBucket) + Granted(granted) < Pow2(hashpower - 1))
      ensures expanding ==> expandBucket == old(expandBucket) + Granted(granted)
    {
      var ii := 0;
      while ii < |granted| && expanding
        invariant ii <= |granted| && Valid() && content == old(content) && hashItems == old(hashItems)
        invariant items == old(items) && primary == old(primary) && oldTable == old(oldTable) &&
                  hashpower == old(hashpower)
        invariant old(expanding) && !expanding ==> forall b :: 0 <= b < oldTable.Length ==> oldTable[b] == null
        invariant expanding ==>
                    old(expanding) && expandBucket + Granted(granted[ii..]) == old(expandBucket) + Granted(granted)
        invariant old(expanding) && !expanding ==> Pow2(hashpower - 1) <= old(expandBucket) + Granted(granted)
      {
        assert granted[ii..][0] == granted[ii] && granted[ii..][1..] == granted[ii + 1..];
        MigrateBucket(granted[ii]);
        ii := ii + 1;
      }
    }
  }

  ghost function Granted(s: seq<bool>): nat {
    if s == [] then 0 else (if s[0] then 1 else 0) + Granted(s[1..])
  }
}
