/** lru_pull_tail (items.c): the walk up from the tail of one LRU list that reclaims, evicts or moves
    items. `Run` is the walk as a function of the state under the list's lock; the method
    `ItemStore.Store.Pull` computes it in place. */
module PullTail {
  import opened Common
  import opened ItemIndex

  /** What an LRU list holds: items and, while a crawl is on, the crawler's marker. */
  datatype Node = Entry(id: Id) | Marker

  datatype Settings = Settings(useCas: bool, segmented: bool, evictToFree: bool, hotPct: nat, warmPct: nat,
                               oldestLive: Time, oldestCas: nat, tempLru: bool, temporaryTtl: Time)

  /** The clock starts two seconds past the update interval (memcached.c:191). */
  type Clock = t: Time | 60 <= t witness 60

  /** Arguments of one call. `grants` are the answers of the item locks other threads may hold, one for
      each remaining try; the caller's own lock stripe is `own`. */
  datatype Call = Call(l: ListId, totalBytes: nat, evict: bool, crawlBlocks: bool, maxAge: Time, now: Clock,
                       grants: seq<bool>, lockOf: Key -> nat, own: Option<nat>)

  const TRIES: nat := 5

  function Strip(ns: seq<Node>): seq<Id> {
    if ns == [] then []
    else if ns[0].Entry? then [ns[0].id] + Strip(ns[1..])
    else Strip(ns[1..])
  }

  /** Unsigned 32-bit subtraction. */
  function Elapsed(now: Time, since: Time): Time {
    if since <= now then now - since else now + 0x1_0000_0000 - since
  }

  /** ITEM_get_cas: an item has an id only if ids are on. */
  function CasOf(s: Settings, it: Item): nat {
    if s.useCas then it.cas else 0
  }

  /** item_is_flushed. */
  predicate Flushed(s: Settings, now: Time, it: Item) {
    && s.oldestLive != 0 && s.oldestLive <= now
    && (it.time <= s.oldestLive || (s.oldestCas != 0 && CasOf(s, it) != 0 && CasOf(s, it) < s.oldestCas))
  }

  /** What the pull reclaims: note the strict comparison, against <= in do_item_get. */
  predicate Doomed(s: Settings, now: Time, it: Item) {
    (it.exptime != 0 && it.exptime < now) || Flushed(s, now, it)
  }

  /** The caller holds the item lock of the key. */
  predicate Owned(c: Call, key: Key) {
    c.own == Some(c.lockOf(key))
  }

  predicate Granted(c: Call, key: Key, tries: nat) {
    0 < tries <= |c.grants| && c.grants[tries - 1] && !Owned(c, key)
  }

  /** The walk: `cur` is the node looked at next, -1 at the end. */
  datatype Walk = Walk(x: Index, nodes: seq<Node>, cur: int, tries: nat, removed: nat, limit: nat, status: Status)
  datatype Status = Going | Blocked | Finished

  predicate Alive(w: Walk) {
    w.status.Going? && w.tries > 0 && 0 <= w.cur < |w.nodes|
  }

  predicate Known(x: Index, n: Node) {
    n.Entry? ==> n.id in x.items && x.items[n.id].refcount > 0
  }

  function CutAt(ns: seq<Node>, i: nat): seq<Node>
    requires i < |ns|
  {
    ns[..i] + ns[i + 1..]
  }

  // ----- one turn of the loop, from the reference it takes to the reference it gives back

  /** do_item_unlink_nolock and do_item_remove: of three references or more, other threads keep the rest. */
  function Lose(x: Index, id: Id): Index
    requires id in x.items && x.items[id].refcount > 0
  {
    Release(Unlink(Retain(x, id), id), id)
  }

  function Keep(x: Index, id: Id): Index
    requires id in x.items
  {
    Release(Retain(x, id), id)
  }

  /** The hit mark goes. */
  function Calm(x: Index, id: Id): Index
    requires id in x.items
  {
    Release(Mark(Retain(x, id), id, x.items[id].time, x.items[id].fetched, false), id)
  }

  /** To the head of a list, without hit mark. */
  function Shift(x: Index, id: Id, l: ListId, time: Time): Index
    requires id in x.items
  {
    Release(Relist(Retain(x, id), id, l, time, false), id)
  }

  /** What one turn of the loop does with the node it looks at. */
  datatype Deed = Pass | Block | Skip | Lost(id: Id, evicted: bool) | Calmed(id: Id) | Bumped(id: Id)
                | Moved(id: Id, to: Lru) | Stopped(id: Id)

  /** The HOT limit, or the WARM limit where that is zero; it stays for later turns. */
  function Limit(c: Call, s: Settings, limit: nat): nat {
    var hot := if c.l.lru.Hot? then c.totalBytes * s.hotPct / 100 else limit;
    if hot == 0 then c.totalBytes * s.warmPct / 100 else hot
  }

  predicate OverLimit(c: Call, x: Index, it: Item, limit: nat) {
    CountAt(x.sizesBytes, c.l) > limit || Elapsed(c.now, it.time) > c.maxAge
  }

  /** For an item that is not reclaimed, list by list. */
  function Treat(c: Call, s: Settings, w: Walk, id: Id): Deed
    requires id in w.x.items
  {
    var it := w.x.items[id];
    if c.l.lru.Cold? then
      if c.evict then
        if s.evictToFree then Lost(id, true) else Stopped(id)
      else if it.active && s.segmented then Moved(id, Warm)
      else Stopped(id)
    else if c.l.lru.Temp? then Stopped(id)
    else if it.active then
      if c.l.lru.Hot? then Moved(id, Warm)
      else if it.time < Elapsed(c.now, 60) then Bumped(id)
      else Calmed(id)
    else if OverLimit(c, w.x, it, Limit(c, s, w.limit)) then Moved(id, Cold)
    else Stopped(id)
  }

  function Decide(c: Call, s: Settings, w: Walk): Deed
    requires Alive(w) && Known(w.x, w.nodes[w.cur])
  {
    match w.nodes[w.cur]
    case Marker => if c.crawlBlocks then Block else Pass
    case Entry(id) =>
      if !Granted(c, w.x.items[id].key, w.tries) then Skip
      else if Doomed(s, c.now, w.x.items[id]) then Lost(id, false)
      else Treat(c, s, w, id)
  }

  /** The deed concerns the node at `cur`. */
  ghost predicate AtNode(w: Walk, d: Deed) {
    && Alive(w)
    && (!d.Pass? && !d.Block? && !d.Skip? ==> w.nodes[w.cur] == Entry(d.id) && Known(w.x, w.nodes[w.cur]))
  }

  function Perform(c: Call, w: Walk, d: Deed): Walk
    requires AtNode(w, d)
  {
    var on := w.(cur := w.cur - 1, tries := w.tries - 1);
    var cut := CutAt(w.nodes, w.cur);
    match d
    case Pass => w.(cur := w.cur - 1)
    case Block => w.(status := Blocked)
    case Skip => on
    case Lost(id, evicted) =>
      on.(x := Lose(w.x, id), nodes := cut, removed := w.removed + 1, status := if evicted then Finished else Going)
    case Calmed(id) => on.(x := Calm(w.x, id))
    case Bumped(id) =>
      on.(x := Shift(w.x, id, c.l, c.now), nodes := [Entry(id)] + cut, cur := if w.cur == 0 then -1 else w.cur)
    case Moved(id, to) =>
      on.(x := Shift(w.x, id, ListId(c.l.cls, to), w.x.items[id].time), nodes := cut,
          removed := w.removed + 1, status := Finished)
    case Stopped(id) => on.(x := Keep(w.x, id), status := Finished)
  }

  /** The limit is worked out when an item of HOT or WARM is treated. */
  function NextLimit(c: Call, s: Settings, w: Walk, d: Deed): nat {
    var treated := (c.l.lru.Hot? || c.l.lru.Warm?) && !d.Pass? && !d.Block? && !d.Skip? && !d.Lost?;
    if treated then Limit(c, s, w.limit) else w.limit
  }

  function Turn(c: Call, s: Settings, w: Walk): Walk
    requires Alive(w) && Known(w.x, w.nodes[w.cur])
  {
    var d := Decide(c, s, w);
    Perform(c, w, d).(limit := NextLimit(c, s, w, d))
  }

  // ----- the list with its marker

  /** Cutting an item's node out takes the item off the list. */
  lemma {:induction false} CutDrops(ns: seq<Node>, i: nat)
    requires i < |ns| && ns[i].Entry? && Distinct(Strip(ns))
    ensures ns[i].id in Strip(ns) && Strip(CutAt(ns, i)) == Drop(Strip(ns), ns[i].id)
  {
    var rest := ns[1..];
    if i == 0 {
      assert CutAt(ns, 0) == rest;
      assert Strip(ns)[1..] == Strip(rest);
    } else {
      assert CutAt(ns, i)[1..] == CutAt(rest, i - 1) && CutAt(ns, i)[0] == ns[0];
      StripRest(ns);
      CutDrops(rest, i - 1);
    }
  }

  lemma StripRest(ns: seq<Node>)
    requires ns != [] && Distinct(Strip(ns))
    ensures Distinct(Strip(ns[1..]))
    ensures ns[0].Entry? ==> Strip(ns)[0] == ns[0].id && Strip(ns)[1..] == Strip(ns[1..]) && ns[0].id !in Strip(ns[1..])
  {
    var q := Strip(ns);
    if ns[0].Entry? {
      assert q[1..] == Strip(ns[1..]);
      assert forall i :: 0 < i < |q| ==> q[0] != q[i];
    }
  }

  lemma PushStrips(ns: seq<Node>, id: Id)
    ensures Strip([Entry(id)] + ns) == [id] + Strip(ns)
  {
    assert ([Entry(id)] + ns)[1..] == ns;
  }

  // ----- what each treatment does to the index

  ghost predicate SameAt(x: Index, y: Index, i: Id) {
    && (i in x.items <==> i in y.items) && (i in x.items ==> y.items[i] == x.items[i])
    && Held(x, i) == Held(y, i)
  }

  ghost predicate OthersSame(x: Index, y: Index, id: Id) {
    forall i {:trigger SameAt(x, y, i)} :: i != id ==> SameAt(x, y, i)
  }

  lemma LoseChanges(x: Index, id: Id)
    requires id in x.items && x.items[id].linked && x.items[id].refcount == 1 + Held(x, id)
    ensures var y, l := Lose(x, id), x.items[id].place;
            && OthersSame(x, y, id) && Held(y, id) == Held(x, id)
            && (id in y.items ==> !y.items[id].linked && y.items[id].place == l) && (id in y.items <==> Held(x, id) > 0)
            && ListOf(y, l) == Drop(ListOf(x, l), id)
  {
  }

  lemma LoseFacts(x: Index, id: Id)
    requires Valid(x) && id in x.items && x.items[id].linked
    ensures x.items[id].refcount > 0
    ensures var y, l := Lose(x, id), x.items[id].place;
            && Valid(y) && OthersSame(x, y, id) && Held(y, id) == Held(x, id)
            && (id in y.items ==> !y.items[id].linked && y.items[id].place == l) && (id in y.items <==> Held(x, id) > 0)
            && ListOf(y, l) == Drop(ListOf(x, l), id)
  {
    assert ItemOk(x, id);
    LoseChanges(x, id);
    RetainValid(x, id);
    UnlinkValid(Retain(x, id), id);
    ReleaseValid(Unlink(Retain(x, id), id), id);
  }

  lemma KeepChanges(x: Index, id: Id)
    requires id in x.items && x.items[id].refcount > 0
    ensures var y := Keep(x, id); OthersSame(x, y, id) && SameAt(x, y, id) && y.lists == x.lists
  {
  }

  lemma KeepFacts(x: Index, id: Id)
    requires Valid(x) && id in x.items
    ensures var y := Keep(x, id);
            Valid(y) && OthersSame(x, y, id) && SameAt(x, y, id) && y.lists == x.lists
  {
    assert ItemOk(x, id);
    KeepChanges(x, id);
    RetainValid(x, id);
    ReleaseValid(Retain(x, id), id);
  }

  lemma CalmChanges(x: Index, id: Id)
    requires id in x.items && x.items[id].refcount > 0
    ensures var y := Calm(x, id);
            && OthersSame(x, y, id) && y.lists == x.lists && Held(y, id) == Held(x, id)
            && id in y.items && y.items[id] == x.items[id].(active := false)
  {
  }

  lemma CalmFacts(x: Index, id: Id)
    requires Valid(x) && id in x.items
    ensures var y := Calm(x, id);
            && Valid(y) && OthersSame(x, y, id) && y.lists == x.lists && Held(y, id) == Held(x, id)
            && id in y.items && y.items[id] == x.items[id].(active := false)
  {
    assert ItemOk(x, id);
    CalmChanges(x, id);
    RetainValid(x, id);
    MarkValid(Retain(x, id), id, x.items[id].time, x.items[id].fetched, false);
    ReleaseValid(Mark(Retain(x, id), id, x.items[id].time, x.items[id].fetched, false), id);
  }

  lemma ShiftChanges(x: Index, id: Id, l: ListId, time: Time)
    requires id in x.items && x.items[id].refcount > 0
    ensures var y, from := Shift(x, id, l, time), x.items[id].place;
            && OthersSame(x, y, id) && Held(y, id) == Held(x, id)
            && id in y.items && y.items[id] == x.items[id].(place := l, time := time, active := false)
            && ListOf(y, from) == (if l == from then [id] else []) + Drop(ListOf(x, from), id)
  {
  }

  lemma ShiftFacts(x: Index, id: Id, l: ListId, time: Time)
    requires Valid(x) && id in x.items && x.items[id].linked
    ensures var y, from := Shift(x, id, l, time), x.items[id].place;
            && Valid(y) && OthersSame(x, y, id) && Held(y, id) == Held(x, id)
            && id in y.items && y.items[id] == x.items[id].(place := l, time := time, active := false)
            && ListOf(y, from) == (if l == from then [id] else []) + Drop(ListOf(x, from), id)
  {
    assert ItemOk(x, id);
    ShiftChanges(x, id, l, time);
    RetainValid(x, id);
    RelistValid(Retain(x, id), id, l, time, false);
    ReleaseValid(Relist(Retain(x, id), id, l, time, false), id);
  }

  // ----- the whole walk

  /** Between the turns the index is in order, and the walk's list is the one in the index. */
  ghost predicate SoundWalk(c: Call, w: Walk) {
    && Valid(w.x) && Strip(w.nodes) == ListOf(w.x, c.l)
    && -1 <= w.cur < |w.nodes|
  }

  lemma NodeOnList(c: Call, w: Walk, i: nat)
    requires SoundWalk(c, w) && i < |w.nodes|
    ensures Known(w.x, w.nodes[i])
    ensures w.nodes[i].Entry? ==> OnList(w.x.items, c.l, w.nodes[i].id)
  {
    var n := w.nodes[i];
    assert ListOk(w.x, c.l);
    if n.Entry? {
      CutDrops(w.nodes, i);
      assert OnList(w.x.items, c.l, n.id);
      assert ItemOk(w.x, n.id);
    }
  }

  lemma PerformSound(c: Call, w: Walk, d: Deed)
    requires SoundWalk(c, w) && AtNode(w, d) && (d.Moved? ==> d.to != c.l.lru)
    ensures SoundWalk(c, Perform(c, w, d))
  {
    if !d.Pass? && !d.Block? && !d.Skip? {
      NodeOnList(c, w, w.cur);
      assert ListOk(w.x, c.l);
      CutDrops(w.nodes, w.cur);
      match d
      case Lost(id, _) => LoseFacts(w.x, id);
      case Calmed(id) => CalmFacts(w.x, id);
      case Bumped(id) =>
        ShiftFacts(w.x, id, c.l, c.now);
        PushStrips(CutAt(w.nodes, w.cur), id);
      case Moved(id, to) => ShiftFacts(w.x, id, ListId(c.l.cls, to), w.x.items[id].time);
      case Stopped(id) => KeepFacts(w.x, id);
    }
  }

  lemma TurnSound(c: Call, s: Settings, w: Walk)
    requires SoundWalk(c, w) && Alive(w)
    ensures Known(w.x, w.nodes[w.cur]) && SoundWalk(c, Turn(c, s, w))
  {
    NodeOnList(c, w, w.cur);
    PerformSound(c, w, Decide(c, s, w));
  }

  /** The loop: at most five tries, and a walk towards the head where a marker takes no try. */
  ghost function Run(c: Call, s: Settings, w: Walk): (w': Walk)
    requires SoundWalk(c, w)
    ensures SoundWalk(c, w') && !Alive(w')
    decreases w.status.Going?, w.tries, w.cur + 1
  {
    if Alive(w) then TurnSound(c, s, w); Run(c, s, Turn(c, s, w)) else w
  }

  function Start(c: Call, x: Index, nodes: seq<Node>): Walk {
    Walk(x, nodes, |nodes| - 1, if c.l.cls == 0 then 0 else TRIES, 0, 0, Going)
  }

  /** The number returned: a marker met with crawlBlocks returns 0, whatever was reclaimed before it. */
  function Returned(w: Walk): nat {
    if w.status.Blocked? then 0 else w.removed
  }

  // ----- what a pull does, told from the first state and the last

  ghost predicate IsLost(x0: Index, x: Index, id: Id) {
    id in x0.items && x0.items[id].linked && !(id in x.items && x.items[id].linked)
  }

  ghost predicate IsMoved(x0: Index, x: Index, id: Id) {
    id in x0.items && id in x.items && x.items[id].place != x0.items[id].place
  }

  ghost function LostItems(x0: Index, x: Index): set<Id> {
    set id <- x0.items | IsLost(x0, x, id)
  }

  ghost function MovedItems(x0: Index, x: Index): set<Id> {
    set id <- x0.items | IsMoved(x0, x, id)
  }

  /** Lost without being expired or flushed. */
  ghost function EvictedItems(c: Call, s: Settings, x0: Index, x: Index): set<Id> {
    set id <- LostItems(x0, x) | !Doomed(s, c.now, x0.items[id])
  }

  /** No reference count of an item that stays is touched, and a lost item is freed exactly if
      nobody else holds it. */
  ghost predicate Account(c: Call, s: Settings, x0: Index, x: Index, id: Id) {
    && Held(x, id) == Held(x0, id)
    && (if id !in x0.items then id !in x.items
        else if IsLost(x0, x, id) then x0.items[id].place == c.l && (id in x.items <==> Held(x0, id) > 0)
        else id in x.items && Stays(c, s, x0.items[id], x.items[id]))
    && (id in x0.items && Owned(c, x0.items[id].key) ==> SameAt(x0, x, id))
  }

  /** Only the list, the time and the hit mark may differ, and a flush hits the item as it did. */
  ghost predicate Stays(c: Call, s: Settings, it0: Item, it: Item) {
    && it == it0.(place := it.place, time := it.time, active := it.active)
    && (Flushed(s, c.now, it) <==> Flushed(s, c.now, it0))
  }

  ghost predicate Accounts(c: Call, s: Settings, x0: Index, x: Index) {
    forall id {:trigger Account(c, s, x0, x, id)} :: Account(c, s, x0, x, id)
  }

  lemma StartAccounts(c: Call, s: Settings, x0: Index)
    ensures Accounts(c, s, x0, x0) && LostItems(x0, x0) == {} && MovedItems(x0, x0) == {}
  {
    forall id ensures Account(c, s, x0, x0, id) {
    }
  }

  /** An item on the list is one that was there at the start, while nothing has moved. */
  lemma StillThere(c: Call, s: Settings, x0: Index, x: Index, id: Id)
    requires Accounts(c, s, x0, x) && MovedItems(x0, x) == {} && OnList(x.items, c.l, id)
    ensures id in x0.items && x0.items[id].linked && x0.items[id].place == c.l
    ensures Stays(c, s, x0.items[id], x.items[id]) && Held(x, id) == Held(x0, id)
  {
    assert Account(c, s, x0, x, id);
    assert id !in MovedItems(x0, x);
    assert !IsMoved(x0, x, id);
  }

  lemma LoseAccounts(c: Call, s: Settings, x0: Index, x: Index, y: Index, id: Id)
    requires Accounts(c, s, x0, x) && MovedItems(x0, x) == {} && OnList(x.items, c.l, id)
    requires OthersSame(x, y, id) && Held(y, id) == Held(x, id) && !Owned(c, x.items[id].key)
    requires (id in y.items ==> !y.items[id].linked && y.items[id].place == c.l) && (id in y.items <==> Held(x, id) > 0)
    ensures Accounts(c, s, x0, y) && MovedItems(x0, y) == {}
    ensures id !in LostItems(x0, x) && LostItems(x0, y) == LostItems(x0, x) + {id}
  {
    StillThere(c, s, x0, x, id);
    forall i ensures Account(c, s, x0, y, i) &&
      (i != id ==> (IsLost(x0, y, i) <==> IsLost(x0, x, i)) && !IsMoved(x0, y, i)) {
      assert Account(c, s, x0, x, i) && (i != id ==> SameAt(x, y, i));
      assert i !in MovedItems(x0, x);
      assert !IsMoved(x0, x, i);
    }
    assert IsLost(x0, y, id) && !IsMoved(x0, y, id);
  }

  /** The item stays linked, perhaps on another list. */
  lemma StayAccounts(c: Call, s: Settings, x0: Index, x: Index, y: Index, id: Id)
    requires Accounts(c, s, x0, x) && MovedItems(x0, x) == {} && OnList(x.items, c.l, id)
    requires OthersSame(x, y, id) && Held(y, id) == Held(x, id) && !Owned(c, x.items[id].key)
    requires id in y.items && Stays(c, s, x.items[id], y.items[id])
    ensures Accounts(c, s, x0, y) && LostItems(x0, y) == LostItems(x0, x)
    ensures MovedItems(x0, y) == if y.items[id].place == c.l then {} else {id}
  {
    StillThere(c, s, x0, x, id);
    forall i ensures Account(c, s, x0, y, i) && (IsLost(x0, y, i) <==> IsLost(x0, x, i)) &&
      (i != id ==> !IsMoved(x0, y, i)) {
      assert Account(c, s, x0, x, i) && (i != id ==> SameAt(x, y, i));
      assert i !in MovedItems(x0, x);
      assert !IsMoved(x0, x, i);
    }
    assert IsMoved(x0, y, id) <==> y.items[id].place != c.l;
  }

  predicate MoveAllowed(c: Call, to: Lru) {
    match c.l.lru
    case Hot => to.Warm? || to.Cold?
    case Warm => to.Cold?
    case Cold => to.Warm?
    case Temp => false
  }

  ghost predicate DeedAllowed(c: Call, s: Settings, w: Walk, d: Deed) {
    && AtNode(w, d)
    && (!d.Pass? && !d.Block? && !d.Skip? ==> !Owned(c, w.x.items[d.id].key))
    && match d
       case Lost(id, evicted) => if evicted then c.l.lru.Cold? && c.evict && s.evictToFree
         else Doomed(s, c.now, w.x.items[id])
       case Bumped(id) => !Doomed(s, c.now, w.x.items[id]) && w.x.items[id].time < Elapsed(c.now, 60)
       case Moved(id, to) => MoveAllowed(c, to)
       case _ => true
  }

  lemma DecideAllowed(c: Call, s: Settings, w: Walk)
    requires Alive(w) && Known(w.x, w.nodes[w.cur])
    ensures DeedAllowed(c, s, w, Decide(c, s, w))
  {
  }

  /** What has been done adds up to `removed`; a move or an eviction is the last thing done. */
  ghost predicate Tally(c: Call, s: Settings, x0: Index, w: Walk) {
    var evicted, moved := EvictedItems(c, s, x0, w.x), MovedItems(x0, w.x);
    && Accounts(c, s, x0, w.x) && w.x.lastCas == x0.lastCas
    && w.removed == |LostItems(x0, w.x)| + |moved|
    && |evicted| + |moved| <= 1
    && (!w.status.Finished? ==> evicted == {} == moved)
    && (evicted != {} ==> c.l.lru.Cold? && c.evict && s.evictToFree)
    && (forall id <- moved {:trigger w.x.items[id]} :: MovedWell(c, w.x, id))
  }

  ghost predicate MovedWell(c: Call, x: Index, id: Id) {
    id in x.items && x.items[id].place == ListId(c.l.cls, x.items[id].place.lru) &&
      MoveAllowed(c, x.items[id].place.lru)
  }

  lemma LoseOne(c: Call, s: Settings, x0: Index, w: Walk, id: Id)
    requires SoundWalk(c, w) && Accounts(c, s, x0, w.x) && MovedItems(x0, w.x) == {}
    requires Alive(w) && w.nodes[w.cur] == Entry(id) && id in w.x.items && !Owned(c, w.x.items[id].key)
    ensures Known(w.x, w.nodes[w.cur]) && Accounts(c, s, x0, Lose(w.x, id)) && MovedItems(x0, Lose(w.x, id)) == {}
    ensures id !in LostItems(x0, w.x) && LostItems(x0, Lose(w.x, id)) == LostItems(x0, w.x) + {id}
    ensures id in x0.items && (Doomed(s, c.now, w.x.items[id]) ==> Doomed(s, c.now, x0.items[id]))
  {
    NodeOnList(c, w, w.cur);
    LoseFacts(w.x, id);
    StillThere(c, s, x0, w.x, id);
    LoseAccounts(c, s, x0, w.x, Lose(w.x, id), id);
  }

  lemma LostTally(c: Call, s: Settings, x0: Index, w: Walk, id: Id, evicted: bool)
    requires SoundWalk(c, w) && Tally(c, s, x0, w) && DeedAllowed(c, s, w, Lost(id, evicted))
    ensures Tally(c, s, x0, Perform(c, w, Lost(id, evicted)))
  {
    LoseOne(c, s, x0, w, id);
    var y := Lose(w.x, id);
    EvictedGrows(c, s, x0, w.x, y, id);
  }

  lemma EvictedGrows(c: Call, s: Settings, x0: Index, x: Index, y: Index, id: Id)
    requires EvictedItems(c, s, x0, x) == {} && LostItems(x0, y) == LostItems(x0, x) + {id} && id in x0.items
    ensures EvictedItems(c, s, x0, y) == if Doomed(s, c.now, x0.items[id]) then {} else {id}
  {
    forall i | i in LostItems(x0, x) ensures Doomed(s, c.now, x0.items[i]) {
      assert i !in EvictedItems(c, s, x0, x);
    }
  }

  lemma StayFacts(c: Call, s: Settings, w: Walk, d: Deed)
    requires SoundWalk(c, w) && DeedAllowed(c, s, w, d)
    requires d.Calmed? || d.Bumped? || d.Stopped? || d.Moved?
    ensures var y := Perform(c, w, d).x;
            && OnList(w.x.items, c.l, d.id) && OthersSame(w.x, y, d.id) && Held(y, d.id) == Held(w.x, d.id)
            && d.id in y.items && Stays(c, s, w.x.items[d.id], y.items[d.id])
            && y.items[d.id].place == if d.Moved? then ListId(c.l.cls, d.to) else c.l
  {
    NodeOnList(c, w, w.cur);
    match d
    case Calmed(id) => CalmFacts(w.x, id);
    case Bumped(id) => ShiftFacts(w.x, id, c.l, c.now);
    case Stopped(id) => KeepFacts(w.x, id);
    case Moved(id, to) => ShiftFacts(w.x, id, ListId(c.l.cls, to), w.x.items[id].time);
  }

  lemma StayTally(c: Call, s: Settings, x0: Index, w: Walk, d: Deed)
    requires SoundWalk(c, w) && Tally(c, s, x0, w) && DeedAllowed(c, s, w, d)
    requires d.Calmed? || d.Bumped? || d.Stopped? || d.Moved?
    ensures Tally(c, s, x0, Perform(c, w, d))
  {
    StayFacts(c, s, w, d);
    StayAccounts(c, s, x0, w.x, Perform(c, w, d).x, d.id);
  }

  lemma TurnTally(c: Call, s: Settings, x0: Index, w: Walk)
    requires SoundWalk(c, w) && Tally(c, s, x0, w) && Alive(w)
    ensures Known(w.x, w.nodes[w.cur]) && Tally(c, s, x0, Turn(c, s, w))
  {
    NodeOnList(c, w, w.cur);
    DecideAllowed(c, s, w);
    var d := Decide(c, s, w);
    match d
    case Lost(id, evicted) => LostTally(c, s, x0, w, id, evicted);
    case Calmed(_) => StayTally(c, s, x0, w, d);
    case Bumped(_) => StayTally(c, s, x0, w, d);
    case Moved(_, _) => StayTally(c, s, x0, w, d);
    case Stopped(_) => StayTally(c, s, x0, w, d);
    case _ =>
  }

  lemma {:induction false} RunTally(c: Call, s: Settings, x0: Index, w: Walk)
    requires SoundWalk(c, w) && Tally(c, s, x0, w)
    ensures Tally(c, s, x0, Run(c, s, w))
    decreases w.status.Going?, w.tries, w.cur + 1
  {
    if Alive(w) {
      TurnSound(c, s, w);
      TurnTally(c, s, x0, w);
      RunTally(c, s, x0, Turn(c, s, w));
    }
  }

  /** The whole contract of the pull: it ends in a valid index, loses only expired or flushed items and
      at most one evicted one, moves at most one to one other list of its slab class, leaves the others
      and all reference counts alone, and counts what it did. */
  lemma PullTailMeaning(c: Call, s: Settings, x: Index, nodes: seq<Node>)
    requires Valid(x) && Strip(nodes) == ListOf(x, c.l)
    ensures var w := Run(c, s, Start(c, x, nodes));
            var evicted, moved := EvictedItems(c, s, x, w.x), MovedItems(x, w.x);
            && Valid(w.x) && Strip(w.nodes) == ListOf(w.x, c.l)
            && Accounts(c, s, x, w.x) && w.x.lastCas == x.lastCas
            && |evicted| + |moved| <= 1
            && (evicted != {} ==> c.l.lru.Cold? && c.evict && s.evictToFree)
            && (forall id <- moved :: MovedWell(c, w.x, id))
            && Returned(w) == (if w.status.Blocked? then 0 else |LostItems(x, w.x)| + |moved|)
  {
    StartAccounts(c, s, x);
    RunTally(c, s, x, Start(c, x, nodes));
  }

  // ----- the returned number

  lemma TurnMarkers(c: Call, s: Settings, w: Walk)
    requires Alive(w) && Known(w.x, w.nodes[w.cur])
    ensures Marker in Turn(c, s, w).nodes ==> Marker in w.nodes
    ensures Turn(c, s, w).status.Blocked? ==> c.crawlBlocks && Marker in w.nodes
  {
    assert forall n <- CutAt(w.nodes, w.cur) :: n in w.nodes;
  }

  lemma {:induction false} BlockedAtMarker(c: Call, s: Settings, w: Walk)
    requires SoundWalk(c, w) && w.status.Going?
    ensures Run(c, s, w).status.Blocked? ==> c.crawlBlocks && Marker in w.nodes
    decreases w.tries, w.cur + 1
  {
    if Alive(w) {
      TurnSound(c, s, w);
      var w' := Turn(c, s, w);
      assert Run(c, s, w) == Run(c, s, w');
      TurnMarkers(c, s, w);
      if w'.status.Going? {
        BlockedAtMarker(c, s, w');
      }
    }
  }

  /** The pull goes on past an item that is not granted to it at this try, that it reclaims, or that is an
      active one of WARM. */
  predicate PassesOver(c: Call, s: Settings, it: Item, tries: nat) {
    !Granted(c, it.key, tries) || Doomed(s, c.now, it) || (c.l.lru.Warm? && it.active)
  }

  /** From the last of these nodes on, with so many tries left: the pull reclaims an item, or has done so before,
      and then meets a marker. */
  predicate Forgets(c: Call, s: Settings, x: Index, ns: seq<Node>, tries: nat, reclaimed: bool)
    decreases |ns|
  {
    if ns == [] || tries == 0 then false
    else
      match ns[|ns| - 1]
      case Marker => reclaimed
      case Entry(id) =>
        && id in x.items && PassesOver(c, s, x.items[id], tries)
        && Forgets(c, s, x, ns[..|ns| - 1], tries - 1, reclaimed || Reclaims(c, s, x.items[id], tries))
  }

  predicate Reclaims(c: Call, s: Settings, it: Item, tries: nat) {
    Granted(c, it.key, tries) && Doomed(s, c.now, it)
  }

  lemma {:induction false} EntriesApart(ns: seq<Node>, i: nat, j: nat)
    requires Distinct(Strip(ns)) && i < j < |ns| && ns[i].Entry? && ns[j].Entry?
    ensures ns[i].id != ns[j].id
  {
    StripRest(ns);
    if i == 0 {
      CutDrops(ns[1..], j - 1);
    } else {
      EntriesApart(ns[1..], i - 1, j - 1);
    }
  }

  /** Where the list has no marker up to the cursor, none can stop the pull. */
  ghost predicate NoMarker(ns: seq<Node>) {
    forall i {:trigger ns[i]} :: 0 <= i < |ns| ==> ns[i].Entry?
  }

  /** The nodes that the pull has still to look at, the next one last. */
  function Ahead(w: Walk): seq<Node>
    requires -1 <= w.cur < |w.nodes|
  {
    w.nodes[..w.cur + 1]
  }

  /** The pull has gone on past an item, which may have been bumped to the head. */
  ghost predicate Went(c: Call, s: Settings, w: Walk, w': Walk, id: Id)
    requires 0 <= w.cur < |w.nodes| && id in w.x.items
  {
    && -1 <= w'.cur < |w'.nodes| && w'.tries == w.tries - 1
    && (Ahead(w') == w.nodes[..w.cur] || Ahead(w') == [Entry(id)] + w.nodes[..w.cur])
    && (w'.removed > 0 <==> w.removed > 0 || Reclaims(c, s, w.x.items[id], w.tries))
  }

  lemma PerformWent(c: Call, s: Settings, w: Walk, d: Deed, id: Id)
    requires AtNode(w, d) && w.nodes[w.cur] == Entry(id) && id in w.x.items && GoesOn(d) && w.status.Going?
    requires (d.Lost? <==> Reclaims(c, s, w.x.items[id], w.tries))
    ensures Went(c, s, w, Perform(c, w, d), id)
  {
    var cut := CutAt(w.nodes, w.cur);
    assert cut[..w.cur] == w.nodes[..w.cur];
    if d.Bumped? && w.cur > 0 {
      assert ([Entry(id)] + cut)[..w.cur + 1] == [Entry(id)] + cut[..w.cur];
    }
  }

  predicate GoesOn(d: Deed) {
    d.Skip? || (d.Lost? && !d.evicted) || d.Calmed? || d.Bumped?
  }

  lemma DecideEntry(c: Call, s: Settings, w: Walk, id: Id)
    requires Alive(w) && w.nodes[w.cur] == Entry(id) && Known(w.x, w.nodes[w.cur])
    ensures var d, it := Decide(c, s, w), w.x.items[id];
            && AtNode(w, d) && !d.Pass? && !d.Block? && (GoesOn(d) <==> PassesOver(c, s, it, w.tries))
            && (GoesOn(d) ==> (d.Lost? <==> Reclaims(c, s, it, w.tries)))
  {
  }

  /** A turn at an item: the pull goes on exactly if it passes over the item, and is never blocked. */
  lemma TurnEntry(c: Call, s: Settings, w: Walk, id: Id)
    requires Alive(w) && w.nodes[w.cur] == Entry(id) && Known(w.x, w.nodes[w.cur])
    ensures var w' := Turn(c, s, w);
            && !w'.status.Blocked? && (w'.status.Going? <==> PassesOver(c, s, w.x.items[id], w.tries))
            && (w'.status.Going? ==> Went(c, s, w, w', id))
  {
    var d := Decide(c, s, w);
    DecideEntry(c, s, w, id);
    if GoesOn(d) {
      PerformWent(c, s, w, d, id);
    }
  }

  lemma RunTurn(c: Call, s: Settings, w: Walk)
    requires SoundWalk(c, w) && Alive(w)
    ensures Known(w.x, w.nodes[w.cur]) && SoundWalk(c, Turn(c, s, w)) && Run(c, s, w) == Run(c, s, Turn(c, s, w))
  {
    TurnSound(c, s, w);
  }

  lemma RunStops(c: Call, s: Settings, w: Walk)
    requires SoundWalk(c, w) && !Alive(w)
    ensures Run(c, s, w) == w
  {
  }

  lemma {:induction false} NoMarkerNoBlock(c: Call, s: Settings, w: Walk)
    requires SoundWalk(c, w) && w.status.Going? && NoMarker(Ahead(w))
    ensures !Run(c, s, w).status.Blocked?
    decreases w.tries, w.cur + 1
  {
    if Alive(w) {
      RunTurn(c, s, w);
      var n := Ahead(w)[w.cur];
      TurnEntry(c, s, w, n.id);
      var w' := Turn(c, s, w);
      if w'.status.Going? {
        FewerNodes(w, w', n.id);
        NoMarkerNoBlock(c, s, w');
      } else {
        RunStops(c, s, w');
      }
    } else {
      RunStops(c, s, w);
    }
  }

  lemma FewerNodes(w: Walk, w': Walk, id: Id)
    requires 0 <= w.cur < |w.nodes| && -1 <= w'.cur < |w'.nodes| && NoMarker(Ahead(w))
    requires Ahead(w') == w.nodes[..w.cur] || Ahead(w') == [Entry(id)] + w.nodes[..w.cur]
    ensures NoMarker(Ahead(w'))
  {
    var rest := w.nodes[..w.cur];
    forall i {:trigger rest[i]} | 0 <= i < |rest| ensures rest[i].Entry? {
      assert Ahead(w)[i].Entry?;
    }
  }

  /** The nodes ahead are the first `k` nodes of the list as it was, whose items nobody has touched, behind items
      that were bumped to the head. */
  ghost predicate OnTrack(x0: Index, ns: seq<Node>, w: Walk, k: nat, front: seq<Node>) {
    && k <= |ns| && -1 <= w.cur < |w.nodes| && Ahead(w) == front + ns[..k] && NoMarker(front)
    && forall i {:trigger ns[i]} :: 0 <= i < k && ns[i].Entry? ==> SameAt(x0, w.x, ns[i].id)
  }

  lemma TurnOthers(c: Call, s: Settings, w: Walk, id: Id)
    requires SoundWalk(c, w) && Alive(w) && w.nodes[w.cur] == Entry(id)
    ensures Known(w.x, w.nodes[w.cur]) && OthersSame(w.x, Turn(c, s, w).x, id)
  {
    NodeOnList(c, w, w.cur);
    DecideAllowed(c, s, w);
    var d := Decide(c, s, w);
    match d
    case Lost(_, _) => LoseFacts(w.x, id);
    case Calmed(_) => StayFacts(c, s, w, d);
    case Bumped(_) => StayFacts(c, s, w, d);
    case Moved(_, _) => StayFacts(c, s, w, d);
    case Stopped(_) => StayFacts(c, s, w, d);
    case _ =>
  }

  lemma TrackStep(c: Call, s: Settings, x0: Index, ns: seq<Node>, w: Walk, w': Walk, k: nat, front: seq<Node>, id: Id)
    requires OnTrack(x0, ns, w, k, front) && k > 0 && ns[k - 1] == Entry(id) && Distinct(Strip(ns))
    requires 0 <= w.cur && id in w.x.items && Went(c, s, w, w', id) && OthersSame(w.x, w'.x, id)
    ensures OnTrack(x0, ns, w', k - 1, front) || OnTrack(x0, ns, w', k - 1, [Entry(id)] + front)
  {
    assert w.nodes[..w.cur] == Ahead(w)[..w.cur] == front + ns[..k - 1];
    assert [Entry(id)] + (front + ns[..k - 1]) == ([Entry(id)] + front) + ns[..k - 1];
    forall i {:trigger ns[i]} | 0 <= i < k - 1 && ns[i].Entry? ensures SameAt(x0, w'.x, ns[i].id) {
      EntriesApart(ns, i, k - 1);
      assert SameAt(x0, w.x, ns[i].id) && SameAt(w.x, w'.x, ns[i].id);
    }
  }

  lemma TrackNode(x0: Index, ns: seq<Node>, w: Walk, k: nat, front: seq<Node>)
    requires OnTrack(x0, ns, w, k, front) && k > 0
    ensures 0 <= w.cur && w.nodes[w.cur] == ns[k - 1] && ns[..k][k - 1] == ns[k - 1] && ns[..k][..k - 1] == ns[..k - 1]
    ensures ns[k - 1].Entry? && ns[k - 1].id in w.x.items ==>
              ns[k - 1].id in x0.items && x0.items[ns[k - 1].id] == w.x.items[ns[k - 1].id]
  {
    assert Ahead(w)[w.cur] == (front + ns[..k])[w.cur];
    assert ns[k - 1].Entry? ==> SameAt(x0, w.x, ns[k - 1].id);
  }

  lemma LostIfRemoved(c: Call, s: Settings, x0: Index, w: Walk)
    requires Tally(c, s, x0, w) && !w.status.Finished?
    ensures LostItems(x0, w.x) != {} <==> w.removed > 0
  {
  }

  lemma BlockedHere(c: Call, s: Settings, w: Walk)
    requires Alive(w) && w.nodes[w.cur] == Marker && c.crawlBlocks
    ensures Turn(c, s, w) == w.(status := Blocked)
  {
  }

  lemma {:induction false} RunForgets(c: Call, s: Settings, x0: Index, ns: seq<Node>, w: Walk, k: nat, front: seq<Node>)
    requires SoundWalk(c, w) && Tally(c, s, x0, w) && w.status.Going? && OnTrack(x0, ns, w, k, front)
    requires Distinct(Strip(ns)) && c.crawlBlocks
    ensures var w' := Run(c, s, w);
            w'.status.Blocked? && LostItems(x0, w'.x) != {} <==> Forgets(c, s, x0, ns[..k], w.tries, w.removed > 0)
    decreases k, 1
  {
    if k == 0 {
      assert front + ns[..0] == front;
      NoMarkerNoBlock(c, s, w);
    } else if !Alive(w) {
      RunStops(c, s, w);
      TrackNode(x0, ns, w, k, front);
    } else {
      TrackNode(x0, ns, w, k, front);
      RunTurn(c, s, w);
      if ns[k - 1].Entry? {
        EntryForgets(c, s, x0, ns, w, k, front, ns[k - 1].id);
      } else {
        BlockedHere(c, s, w);
        RunStops(c, s, Turn(c, s, w));
        LostIfRemoved(c, s, x0, w);
      }
    }
  }

  lemma {:induction false} EntryForgets(c: Call, s: Settings, x0: Index, ns: seq<Node>, w: Walk, k: nat,
                                        front: seq<Node>, id: Id)
    requires SoundWalk(c, w) && Tally(c, s, x0, w) && w.status.Going? && OnTrack(x0, ns, w, k, front)
    requires Distinct(Strip(ns)) && c.crawlBlocks && Alive(w) && k > 0 && ns[k - 1] == Entry(id)
    ensures var w' := Run(c, s, w);
            w'.status.Blocked? && LostItems(x0, w'.x) != {} <==> Forgets(c, s, x0, ns[..k], w.tries, w.removed > 0)
    decreases k, 0
  {
    TrackNode(x0, ns, w, k, front);
    RunTurn(c, s, w);
    TurnEntry(c, s, w, id);
    var w' := Turn(c, s, w);
    if w'.status.Going? {
      TurnOthers(c, s, w, id);
      TurnTally(c, s, x0, w);
      TrackStep(c, s, x0, ns, w, w', k, front, id);
      var front' := if OnTrack(x0, ns, w', k - 1, front) then front else [Entry(id)] + front;
      RunForgets(c, s, x0, ns, w', k - 1, front');
    } else {
      RunStops(c, s, w');
    }
  }

  lemma StartForgets(c: Call, s: Settings, x: Index, nodes: seq<Node>)
    requires Valid(x) && Strip(nodes) == ListOf(x, c.l) && c.crawlBlocks && c.l.cls != 0
    ensures var w := Run(c, s, Start(c, x, nodes));
            w.status.Blocked? && LostItems(x, w.x) != {} <==> Forgets(c, s, x, nodes, TRIES, false)
  {
    StartAccounts(c, s, x);
    assert ListOk(x, c.l);
    assert nodes[..|nodes|] == nodes && [] + nodes == nodes;
    forall i {:trigger nodes[i]} | 0 <= i < |nodes| && nodes[i].Entry? ensures SameAt(x, x, nodes[i].id) {
    }
    RunForgets(c, s, x, nodes, Start(c, x, nodes), |nodes|, []);
  }

  lemma TallyReturned(c: Call, s: Settings, x: Index, w: Walk)
    requires Tally(c, s, x, w)
    ensures Returned(w) == |LostItems(x, w.x)| + |MovedItems(x, w.x)| <==>
              !(w.status.Blocked? && LostItems(x, w.x) != {})
  {
  }

  /** The number is the number of items reclaimed, moved or evicted, unless the call must stop at a marker, and
      reclaims an item before it meets one within its tries. */
  lemma ReturnedIsExact(c: Call, s: Settings, x: Index, nodes: seq<Node>)
    requires Valid(x) && Strip(nodes) == ListOf(x, c.l)
    ensures var w := Run(c, s, Start(c, x, nodes));
            Returned(w) == |LostItems(x, w.x)| + |MovedItems(x, w.x)| <==>
              !(c.crawlBlocks && c.l.cls != 0 && Forgets(c, s, x, nodes, TRIES, false))
  {
    StartAccounts(c, s, x);
    var w := Start(c, x, nodes);
    RunTally(c, s, x, w);
    TallyReturned(c, s, x, Run(c, s, w));
    if c.crawlBlocks && c.l.cls != 0 {
      StartForgets(c, s, x, nodes);
    } else {
      BlockedAtMarker(c, s, w);
    }
  }

  // ----- the same, as a look at the list

  /** The try that the item at `i` gets: the node at the tail gets the first. */
  function TryAt(n: nat, tries: nat, i: nat): nat
    requires i < n && n - 1 - i < tries
  {
    tries - (n - 1 - i)
  }

  predicate PassedOverAt(c: Call, s: Settings, x: Index, ns: seq<Node>, tries: nat, i: nat) {
    && i < |ns| && |ns| - 1 - i < tries && ns[i].Entry? && ns[i].id in x.items
    && PassesOver(c, s, x.items[ns[i].id], TryAt(|ns|, tries, i))
  }

  predicate ReclaimedAt(c: Call, s: Settings, x: Index, ns: seq<Node>, tries: nat, i: nat) {
    && i < |ns| && |ns| - 1 - i < tries && ns[i].Entry? && ns[i].id in x.items
    && Reclaims(c, s, x.items[ns[i].id], TryAt(|ns|, tries, i))
  }

  /** A marker with fewer entries behind it than there are tries; the pull passes over each, and reclaims one. */
  ghost predicate ForgetsAt(c: Call, s: Settings, x: Index, ns: seq<Node>, tries: nat, reclaimed: bool, m: nat) {
    && m < |ns| && ns[m] == Marker && |ns| - 1 - m < tries
    && (forall i: nat {:trigger PassedOverAt(c, s, x, ns, tries, i)} ::
          m < i < |ns| ==> PassedOverAt(c, s, x, ns, tries, i))
    && (reclaimed || exists i: nat {:trigger ReclaimedAt(c, s, x, ns, tries, i)} ::
          m < i && ReclaimedAt(c, s, x, ns, tries, i))
  }

  lemma LastPassed(c: Call, s: Settings, x: Index, ns: seq<Node>, tries: nat, i: nat)
    requires ns != [] && tries > 0 && i + 1 < |ns|
    ensures PassedOverAt(c, s, x, ns, tries, i) <==> PassedOverAt(c, s, x, ns[..|ns| - 1], tries - 1, i)
    ensures ReclaimedAt(c, s, x, ns, tries, i) <==> ReclaimedAt(c, s, x, ns[..|ns| - 1], tries - 1, i)
  {
  }

  lemma ForgetsLonger(c: Call, s: Settings, x: Index, ns: seq<Node>, tries: nat, reclaimed: bool, m: nat)
    requires ns != [] && tries > 0 && ns[|ns| - 1].Entry?
    ensures var k, ahead, fewer := |ns| - 1, ns[..|ns| - 1], tries - 1;
            ForgetsAt(c, s, x, ns, tries, reclaimed, m) <==>
              && PassedOverAt(c, s, x, ns, tries, k)
              && ForgetsAt(c, s, x, ahead, fewer, reclaimed || ReclaimedAt(c, s, x, ns, tries, k), m)
  {
    var k, ahead, fewer := |ns| - 1, ns[..|ns| - 1], tries - 1;
    forall i: nat {:trigger PassedOverAt(c, s, x, ns, tries, i)} {:trigger PassedOverAt(c, s, x, ahead, fewer, i)}
                  {:trigger ReclaimedAt(c, s, x, ns, tries, i)} {:trigger ReclaimedAt(c, s, x, ahead, fewer, i)}
      | i < k
      ensures PassedOverAt(c, s, x, ns, tries, i) <==> PassedOverAt(c, s, x, ahead, fewer, i)
      ensures ReclaimedAt(c, s, x, ns, tries, i) <==> ReclaimedAt(c, s, x, ahead, fewer, i)
    {
      LastPassed(c, s, x, ns, tries, i);
    }
  }

  lemma {:induction false} ForgetsMeans(c: Call, s: Settings, x: Index, ns: seq<Node>, tries: nat, reclaimed: bool)
    ensures Forgets(c, s, x, ns, tries, reclaimed) <==>
              exists m: nat {:trigger ForgetsAt(c, s, x, ns, tries, reclaimed, m)} ::
                ForgetsAt(c, s, x, ns, tries, reclaimed, m)
    decreases |ns|
  {
    if ns != [] && tries > 0 {
      var k, ahead, fewer := |ns| - 1, ns[..|ns| - 1], tries - 1;
      var r := reclaimed || ReclaimedAt(c, s, x, ns, tries, k);
      if ns[k].Entry? {
        ForgetsMeans(c, s, x, ahead, fewer, r);
        forall m: nat {:trigger ForgetsAt(c, s, x, ns, tries, reclaimed, m)}
            {:trigger ForgetsAt(c, s, x, ahead, fewer, r, m)}
          ensures ForgetsAt(c, s, x, ns, tries, reclaimed, m) <==>
                    PassedOverAt(c, s, x, ns, tries, k) && ForgetsAt(c, s, x, ahead, fewer, r, m)
        {
          ForgetsLonger(c, s, x, ns, tries, reclaimed, m);
        }
      } else {
        assert ForgetsAt(c, s, x, ns, tries, reclaimed, k) <==> reclaimed;
        assert !PassedOverAt(c, s, x, ns, tries, k);
      }
    }
  }

  // ----- a pull that forgets

  /** A key of one byte with an empty value, stored with a time to live that had run out before the server started.
      The header takes 48 bytes, the key and its end 2, the suffix 6, the line end 2, and a `cas` id 8. */
  function Expired(useCas: bool, now: Time): Item {
    Item([107], [13, 10], 0, 1, now, if useCas then 1 else 0, if useCas then 66 else 58, ListId(1, Cold),
         true, false, false, 1)
  }

  /** The store after it: the item is alone on its list. */
  function Stuck(useCas: bool, now: Time): Index {
    var it, l := Expired(useCas, now), ListId(1, Cold);
    Index(map[0 := it], map[it.key := 0], map[l := [0]], map[l := 1], map[l := it.ntotal], 1, it.ntotal, map[], it.cas)
  }

  lemma StuckValid(useCas: bool, now: Time)
    ensures Valid(Stuck(useCas, now))
  {
    var x, it := Stuck(useCas, now), Expired(useCas, now);
    assert forall l :: ListOf(x, l) == if l == ListId(1, Cold) then [0] else [];
    assert ListBytes(x.items, [0]) == it.ntotal + ListBytes(x.items, [0][1..]);
    assert LinkedIds(x.items) == {0};
    BytesSplit(x.items, {0}, 0);
    var none: set<Id> := {};
    assert {0} - {0} == none;
    assert x.table.Keys == {it.key};
    forall l ensures ListOk(x, l) && SizeOk(x, l) {
    }
  }

  /** What the maintainer's pull of COLD meets while a crawl is on: the item is reclaimed, then the marker stops
      the pull. */
  lemma StuckTurns(c: Call, s: Settings, w: Walk)
    requires c.l == ListId(1, Cold) && c.crawlBlocks && Granted(c, [107], TRIES)
    requires w == Start(c, Stuck(s.useCas, c.now), [Marker, Entry(0)])
    ensures Alive(w) && Known(w.x, w.nodes[w.cur])
    ensures var w1 := Turn(c, s, w);
            && Alive(w1) && w1.removed == 1 && w1.nodes[w1.cur] == Marker && Turn(c, s, w1) == w1.(status := Blocked)
  {
  }

  lemma StuckList(useCas: bool, now: Time)
    ensures Strip([Marker, Entry(0)]) == ListOf(Stuck(useCas, now), ListId(1, Cold))
  {
    PushStrips([], 0);
    assert [Marker, Entry(0)][1..] == [Entry(0)] && [Entry(0)] + [] == [Entry(0)];
  }

  /** One item is reclaimed, and 0 is returned. */
  lemma BlockedForgetsReclaims(c: Call, s: Settings)
    requires c.l == ListId(1, Cold) && c.crawlBlocks && Granted(c, [107], TRIES)
    ensures var x, nodes := Stuck(s.useCas, c.now), [Marker, Entry(0)];
            && Valid(x) && Strip(nodes) == ListOf(x, c.l)
            && var w := Run(c, s, Start(c, x, nodes)); Returned(w) == 0 && |LostItems(x, w.x)| == 1
  {
    var x, nodes := Stuck(s.useCas, c.now), [Marker, Entry(0)];
    StuckValid(s.useCas, c.now);
    StuckList(s.useCas, c.now);
    var w := Start(c, x, nodes);
    StuckTurns(c, s, w);
    var w1 := Turn(c, s, w);
    RunTurn(c, s, w);
    RunTurn(c, s, w1);
    RunStops(c, s, Turn(c, s, w1));
    PullTailMeaning(c, s, x, nodes);
    StartAccounts(c, s, x);
    RunTally(c, s, x, w);
  }
}
