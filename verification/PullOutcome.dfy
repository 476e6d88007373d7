/** What lru_pull_tail does, told from the list and the index before the call alone (items.c:978-1141): which items it
    reclaims and bumps, at which it stops, and whether that one is evicted, moved to another list or left. */
module PullOutcome {
  import opened Common
  import opened ItemIndex
  import opened PullTail

  /** The list as the pull leaves it but for the item it stops at, which is at `at`; the items it reclaims; those it
      bumps to the head of WARM; those it only takes the active mark from; and the item it stops at, which may be one
      that it has bumped itself and met `again`. */
  datatype Outcome = Outcome(nodes: seq<Node>, reclaimed: set<Id>, bumped: set<Id>, calmed: set<Id>,
                             stop: Option<Id>, again: bool, at: nat)

  const NOTHING: Outcome := Outcome([], {}, {}, {}, None, false, 0)

  /** A look at the list from the tail on. `ns` are the nodes not yet seen, `front` those bumped in front of them, and
      `o` has the nodes that were passed and stay. */
  function Outlook(c: Call, s: Settings, x: Index, front: seq<Node>, ns: seq<Node>, tries: nat, o: Outcome): Outcome
    decreases |ns|, |front|
  {
    var all := o.(nodes := front + ns + o.nodes);
    if tries == 0 then all
    else if ns == [] then
      if front == [] then o
      else
        var n, rest := front[|front| - 1], front[..|front| - 1];
        if n.Marker? || n.id !in x.items then all
        else if Granted(c, x.items[n.id].key, tries)
        then all.(stop := Some(n.id), again := true, at := |rest|)
        else Outlook(c, s, x, rest, [], tries - 1, o.(nodes := [n] + o.nodes))
    else
      var n, rest := ns[|ns| - 1], ns[..|ns| - 1];
      var past := o.(nodes := [n] + o.nodes);
      match n
      case Marker => if c.crawlBlocks then all else Outlook(c, s, x, front, rest, tries, past)
      case Entry(id) =>
        if id !in x.items then all
        else if !PassesOver(c, s, x.items[id], tries) then all.(stop := Some(id), at := |front| + |rest|)
        else if !Granted(c, x.items[id].key, tries) then Outlook(c, s, x, front, rest, tries - 1, past)
        else if Doomed(s, c.now, x.items[id])
        then Outlook(c, s, x, front, rest, tries - 1, o.(reclaimed := o.reclaimed + {id}))
        else if x.items[id].time >= Elapsed(c.now, 60)
        then Outlook(c, s, x, front, rest, tries - 1, past.(calmed := o.calmed + {id}))
        else if front + rest == [] then past.(bumped := o.bumped + {id})
        else Outlook(c, s, x, [n] + front, rest, tries - 1, o.(bumped := o.bumped + {id}))
  }

  // ----- the item it stops at

  predicate Evicts(c: Call, s: Settings) {
    c.l.lru.Cold? && c.evict && s.evictToFree
  }

  /** The share of the class's bytes that HOT and WARM may have: the percentage of HOT, or where that comes to
      nothing that of WARM. */
  function Share(c: Call, s: Settings): nat {
    var hot := if c.l.lru.Hot? then c.totalBytes * s.hotPct / 100 else 0;
    if hot == 0 then c.totalBytes * s.warmPct / 100 else hot
  }

  /** Active items of HOT go to WARM, and those of COLD where nothing is to be evicted and the LRU is segmented. */
  predicate Warms(c: Call, s: Settings, it: Item) {
    it.active && (c.l.lru.Hot? || (c.l.lru.Cold? && !c.evict && s.segmented))
  }

  /** Inactive items of HOT and WARM go to COLD if what is on the list is more than its share, or if they are too
      old. */
  predicate Cools(c: Call, s: Settings, it: Item, bytes: nat) {
    (c.l.lru.Hot? || c.l.lru.Warm?) && !it.active && (bytes > Share(c, s) || Elapsed(c.now, it.time) > c.maxAge)
  }

  /** An item that the pull has bumped before. */
  function Bump(c: Call, it: Item): Item {
    it.(time := c.now, active := false)
  }

  // ----- the index in step with the look

  ghost predicate ItemNow(c: Call, x0: Index, x: Index, o: Outcome, id: Id) {
    && Held(x, id) == Held(x0, id)
    && if id in o.reclaimed then IsLost(x0, x, id) && (id in x.items ==> x.items[id].place == x0.items[id].place)
       else if id in o.bumped then id in x0.items && id in x.items && x.items[id] == Bump(c, x0.items[id])
       else if id in o.calmed then id in x0.items && id in x.items && x.items[id] == x0.items[id].(active := false)
       else (id in x.items <==> id in x0.items) && (id in x.items ==> x.items[id] == x0.items[id])
  }

  ghost predicate ItemsNow(c: Call, x0: Index, x: Index, o: Outcome) {
    forall id {:trigger ItemNow(c, x0, x, o, id)} :: ItemNow(c, x0, x, o, id)
  }

  ghost predicate Untouched(o: Outcome, id: Id) {
    id !in o.reclaimed && id !in o.bumped && id !in o.calmed
  }

  ghost predicate Fresh(ns: seq<Node>, o: Outcome) {
    forall i {:trigger ns[i]} :: 0 <= i < |ns| ==> ns[i].Entry? ==> Untouched(o, ns[i].id)
  }

  /** The items in front have been bumped, and not because they had to be reclaimed. */
  ghost predicate Bumpeds(c: Call, s: Settings, x0: Index, front: seq<Node>, o: Outcome) {
    forall i {:trigger front[i]} :: 0 <= i < |front| ==> BumpedNode(c, s, x0, front[i], o)
  }

  ghost predicate BumpedNode(c: Call, s: Settings, x0: Index, n: Node, o: Outcome) {
    && n.Entry? && n.id in o.bumped && n.id !in o.reclaimed
    && n.id in x0.items && !Doomed(s, c.now, Bump(c, x0.items[n.id]))
  }

  lemma BumpNotDoomed(c: Call, s: Settings, it: Item)
    requires !Doomed(s, c.now, it) && it.time < Elapsed(c.now, 60)
    ensures !Doomed(s, c.now, Bump(c, it))
  {
  }

  ghost predicate Shape(w: Walk, front: seq<Node>, ns: seq<Node>, o: Outcome) {
    w.status.Going? && w.nodes == front + ns + o.nodes && w.cur == |front| + |ns| - 1
  }

  /** The limit that the loop has worked out. */
  ghost predicate LimitOk(c: Call, s: Settings, w: Walk) {
    c.l.lru.Warm? ==> w.limit == 0 || w.limit == c.totalBytes * s.warmPct / 100
  }

  ghost predicate OtherLists(x: Index, y: Index, l: ListId) {
    forall m {:trigger ListOf(y, m)} :: m != l ==> ListOf(y, m) == ListOf(x, m)
  }

  ghost predicate Track(c: Call, s: Settings, x0: Index, w: Walk, front: seq<Node>, ns: seq<Node>, o: Outcome) {
    && OtherLists(x0, w.x, c.l)
    && Shape(w, front, ns, o) && ItemsNow(c, x0, w.x, o) && Fresh(ns, o) && Bumpeds(c, s, x0, front, o)
    && LimitOk(c, s, w) && Distinct(Strip(ns)) && o.stop.None? && (front != [] ==> c.l.lru.Warm?)
  }

  lemma {:induction false} StripInit(ns: seq<Node>, i: nat)
    requires Distinct(Strip(ns)) && i <= |ns|
    ensures Distinct(Strip(ns[..i])) && forall n <- Strip(ns[..i]) :: n in Strip(ns)
  {
    if i > 0 {
      StripRest(ns);
      StripInit(ns[1..], i - 1);
      assert ns[..i][0] == ns[0] && ns[..i][1..] == ns[1..][..i - 1];
    }
  }

  /** The item looked at is as it was before the call. */
  lemma AtFirst(c: Call, s: Settings, x0: Index, w: Walk, front: seq<Node>, ns: seq<Node>, o: Outcome)
    requires SoundWalk(c, w) && Track(c, s, x0, w, front, ns, o) && ns != []
    ensures w.cur >= 0 && w.nodes[w.cur] == ns[|ns| - 1] && Known(w.x, w.nodes[w.cur])
    ensures ns[|ns| - 1].Entry? ==>
              var id := ns[|ns| - 1].id;
              id in x0.items && w.x.items[id] == x0.items[id] && OnList(w.x.items, c.l, id) && Untouched(o, id)
  {
    var k := |ns| - 1;
    assert (front + ns + o.nodes)[|front| + k] == ns[k];
    NodeOnList(c, w, w.cur);
    if ns[k].Entry? {
      assert ItemNow(c, x0, w.x, o, ns[k].id);
    }
  }

  /** And one that was bumped and is met again is as the bump left it. */
  lemma AtAgain(c: Call, s: Settings, x0: Index, w: Walk, front: seq<Node>, o: Outcome)
    requires SoundWalk(c, w) && Track(c, s, x0, w, front, [], o) && front != []
    ensures w.cur >= 0 && w.nodes[w.cur] == front[|front| - 1] && Known(w.x, w.nodes[w.cur])
    ensures front[|front| - 1].Entry?
    ensures var id := front[|front| - 1].id;
            id in x0.items && w.x.items[id] == Bump(c, x0.items[id]) && OnList(w.x.items, c.l, id) && id in o.bumped
  {
    var k := |front| - 1;
    assert (front + [] + o.nodes)[k] == front[k];
    NodeOnList(c, w, w.cur);
    assert BumpedNode(c, s, x0, front[k], o) && ItemNow(c, x0, w.x, o, front[k].id);
  }

  lemma FreshRest(ns: seq<Node>, o: Outcome, o': Outcome)
    requires ns != [] && Fresh(ns, o) && Distinct(Strip(ns))
    requires forall id :: Untouched(o, id) && (ns[|ns| - 1].Entry? ==> id != ns[|ns| - 1].id) ==> Untouched(o', id)
    ensures Fresh(ns[..|ns| - 1], o') && Distinct(Strip(ns[..|ns| - 1]))
  {
    var k, rest := |ns| - 1, ns[..|ns| - 1];
    StripInit(ns, k);
    forall i | 0 <= i < k && rest[i].Entry? ensures Untouched(o', rest[i].id) {
      assert rest[i] == ns[i];
      if ns[k].Entry? {
        EntriesApart(ns, i, k);
      }
    }
  }

  /** Shape after a node has been passed, cut out or bumped. */
  lemma PassShape(nodes: seq<Node>, front: seq<Node>, ns: seq<Node>, behind: seq<Node>)
    requires ns != [] && nodes == front + ns + behind
    ensures var n, rest, i := ns[|ns| - 1], ns[..|ns| - 1], |front| + |ns| - 1;
            && nodes == front + rest + ([n] + behind) && CutAt(nodes, i) == front + rest + behind
            && [n] + CutAt(nodes, i) == ([n] + front) + rest + behind
  {
    var n, rest := ns[|ns| - 1], ns[..|ns| - 1];
    assert ns == rest + [n];
  }

  lemma PassFront(nodes: seq<Node>, front: seq<Node>, behind: seq<Node>)
    requires front != [] && nodes == front + [] + behind
    ensures nodes == front[..|front| - 1] + [] + ([front[|front| - 1]] + behind)
    ensures CutAt(nodes, |front| - 1) == front[..|front| - 1] + behind
  {
    assert front == front[..|front| - 1] + [front[|front| - 1]];
  }

  /** Only one item is different. */
  lemma OneChanged(c: Call, x0: Index, x: Index, y: Index, o: Outcome, o': Outcome, id: Id)
    requires ItemsNow(c, x0, x, o) && OthersSame(x, y, id) && ItemNow(c, x0, y, o', id)
    requires o.reclaimed <= o'.reclaimed <= o.reclaimed + {id} && o.bumped <= o'.bumped <= o.bumped + {id}
    requires o.calmed <= o'.calmed <= o.calmed + {id}
    ensures ItemsNow(c, x0, y, o')
  {
    forall i ensures ItemNow(c, x0, y, o', i) {
      assert ItemNow(c, x0, x, o, i);
      assert i != id ==> SameAt(x, y, i);
    }
  }

  lemma OtherListsChain(x: Index, y: Index, z: Index, l: ListId)
    requires OtherLists(x, y, l) && forall m :: m != l ==> ListOf(z, m) == ListOf(y, m)
    ensures OtherLists(x, z, l)
  {
    forall m | m != l ensures ListOf(z, m) == ListOf(x, m) {
      assert ListOf(y, m) == ListOf(x, m);
    }
  }

  lemma LoseLists(x: Index, id: Id)
    requires id in x.items && x.items[id].refcount > 0
    ensures forall m :: m != x.items[id].place ==> ListOf(Lose(x, id), m) == ListOf(x, m)
  {
  }

  lemma CalmLists(x: Index, id: Id)
    requires id in x.items
    ensures Calm(x, id).lists == x.lists
  {
  }

  lemma ShiftLists(x: Index, id: Id, l: ListId, time: Time)
    requires id in x.items
    ensures forall m :: m != x.items[id].place && m != l ==> ListOf(Shift(x, id, l, time), m) == ListOf(x, m)
    ensures l != x.items[id].place ==> ListOf(Shift(x, id, l, time), l) == [id] + ListOf(x, l)
  {
  }

  // ----- the turns that go on

  lemma TurnPass(c: Call, s: Settings, x0: Index, w: Walk, front: seq<Node>, ns: seq<Node>, o: Outcome)
    requires SoundWalk(c, w) && Track(c, s, x0, w, front, ns, o) && ns != [] && Alive(w)
    requires var n := ns[|ns| - 1];
             if n.Marker? then !c.crawlBlocks
             else n.id in x0.items && !Granted(c, x0.items[n.id].key, w.tries)
    ensures Known(w.x, w.nodes[w.cur])
    ensures var n, rest := ns[|ns| - 1], ns[..|ns| - 1];
            && Track(c, s, x0, Turn(c, s, w), front, rest, o.(nodes := [n] + o.nodes))
            && Turn(c, s, w).tries == w.tries - (if n.Entry? then 1 else 0)
  {
    var n, past := ns[|ns| - 1], o.(nodes := [ns[|ns| - 1]] + o.nodes);
    AtFirst(c, s, x0, w, front, ns, o);
    PassShape(w.nodes, front, ns, o.nodes);
    FreshRest(ns, o, past);
    SameItems(c, x0, w.x, o, past);
  }

  lemma SameItems(c: Call, x0: Index, x: Index, o: Outcome, o': Outcome)
    requires ItemsNow(c, x0, x, o)
    requires o'.reclaimed == o.reclaimed && o'.bumped == o.bumped && o'.calmed == o.calmed
    ensures ItemsNow(c, x0, x, o')
  {
    forall id ensures ItemNow(c, x0, x, o', id) {
      assert ItemNow(c, x0, x, o, id);
    }
  }

  /** The index after an item has been reclaimed. */
  lemma ReclaimIndex(c: Call, x0: Index, w: Walk, o: Outcome, id: Id)
    requires Valid(w.x) && OnList(w.x.items, c.l, id) && ItemsNow(c, x0, w.x, o) && OtherLists(x0, w.x, c.l)
    requires Untouched(o, id)
    ensures w.x.items[id].refcount > 0
    ensures var y := Lose(w.x, id);
            ItemsNow(c, x0, y, o.(reclaimed := o.reclaimed + {id})) && OtherLists(x0, y, c.l)
  {
    LoseFacts(w.x, id);
    LoseLists(w.x, id);
    var y := Lose(w.x, id);
    OtherListsChain(x0, w.x, y, c.l);
    assert ItemNow(c, x0, w.x, o, id);
    OneChanged(c, x0, w.x, y, o, o.(reclaimed := o.reclaimed + {id}), id);
  }

  lemma TurnReclaim(c: Call, s: Settings, x0: Index, w: Walk, front: seq<Node>, ns: seq<Node>, o: Outcome, id: Id)
    requires SoundWalk(c, w) && Track(c, s, x0, w, front, ns, o) && ns != [] && Alive(w)
    requires ns[|ns| - 1] == Entry(id) && id in x0.items && Reclaims(c, s, x0.items[id], w.tries)
    ensures Known(w.x, w.nodes[w.cur])
    ensures Track(c, s, x0, Turn(c, s, w), front, ns[..|ns| - 1], o.(reclaimed := o.reclaimed + {id}))
    ensures Turn(c, s, w).tries == w.tries - 1
  {
    var o' := o.(reclaimed := o.reclaimed + {id});
    AtFirst(c, s, x0, w, front, ns, o);
    PassShape(w.nodes, front, ns, o.nodes);
    FreshRest(ns, o, o');
    ReclaimIndex(c, x0, w, o, id);
    assert Turn(c, s, w).x == Lose(w.x, id);
    BumpedsGrow(c, s, x0, front, o, o', id);
  }

  lemma BumpedsGrow(c: Call, s: Settings, x0: Index, front: seq<Node>, o: Outcome, o': Outcome, id: Id)
    requires Bumpeds(c, s, x0, front, o) && id !in o.bumped
    requires o.bumped <= o'.bumped && o'.reclaimed <= o.reclaimed + {id}
    ensures Bumpeds(c, s, x0, front, o')
  {
    forall i | 0 <= i < |front| ensures BumpedNode(c, s, x0, front[i], o') {
      assert BumpedNode(c, s, x0, front[i], o);
    }
  }

  lemma TurnCalm(c: Call, s: Settings, x0: Index, w: Walk, front: seq<Node>, ns: seq<Node>, o: Outcome, id: Id)
    requires SoundWalk(c, w) && Track(c, s, x0, w, front, ns, o) && ns != [] && Alive(w)
    requires ns[|ns| - 1] == Entry(id) && id in x0.items
    requires Granted(c, x0.items[id].key, w.tries) && !Doomed(s, c.now, x0.items[id])
    requires c.l.lru.Warm? && x0.items[id].active && x0.items[id].time >= Elapsed(c.now, 60)
    ensures Known(w.x, w.nodes[w.cur])
    ensures Track(c, s, x0, Turn(c, s, w), front, ns[..|ns| - 1],
                  o.(nodes := [Entry(id)] + o.nodes, calmed := o.calmed + {id}))
    ensures Turn(c, s, w).tries == w.tries - 1
  {
    var o' := o.(nodes := [Entry(id)] + o.nodes, calmed := o.calmed + {id});
    AtFirst(c, s, x0, w, front, ns, o);
    PassShape(w.nodes, front, ns, o.nodes);
    FreshRest(ns, o, o');
    CalmFacts(w.x, id);
    CalmLists(w.x, id);
    var y := Calm(w.x, id);
    OtherListsChain(x0, w.x, y, c.l);
    assert ItemNow(c, x0, w.x, o, id);
    OneChanged(c, x0, w.x, y, o, o', id);
    assert Decide(c, s, w) == Calmed(id);
    BumpedsGrow(c, s, x0, front, o, o', id);
  }

  /** The index after a bump. */
  lemma BumpIndex(c: Call, s: Settings, x0: Index, w: Walk, o: Outcome, id: Id)
    requires Valid(w.x) && OnList(w.x.items, c.l, id) && ItemsNow(c, x0, w.x, o) && OtherLists(x0, w.x, c.l)
    requires Untouched(o, id)
    ensures var y := Shift(w.x, id, c.l, c.now);
            ItemsNow(c, x0, y, o.(bumped := o.bumped + {id})) && OtherLists(x0, y, c.l)
  {
    var y := Shift(w.x, id, c.l, c.now);
    ShiftFacts(w.x, id, c.l, c.now);
    ShiftLists(w.x, id, c.l, c.now);
    OtherListsChain(x0, w.x, y, c.l);
    assert ItemNow(c, x0, w.x, o, id);
    OneChanged(c, x0, w.x, y, o, o.(bumped := o.bumped + {id}), id);
  }

  lemma TurnBump(c: Call, s: Settings, x0: Index, w: Walk, front: seq<Node>, ns: seq<Node>, o: Outcome, id: Id)
    requires SoundWalk(c, w) && Track(c, s, x0, w, front, ns, o) && ns != [] && Alive(w)
    requires ns[|ns| - 1] == Entry(id) && id in x0.items
    requires Granted(c, x0.items[id].key, w.tries) && !Doomed(s, c.now, x0.items[id])
    requires c.l.lru.Warm? && x0.items[id].active && x0.items[id].time < Elapsed(c.now, 60)
    ensures Known(w.x, w.nodes[w.cur])
    ensures var w', rest, o' := Turn(c, s, w), ns[..|ns| - 1], o.(bumped := o.bumped + {id});
            && w'.tries == w.tries - 1
            && if front + rest == [] then
                 && w'.cur == -1 && w'.nodes == [Entry(id)] + o.nodes
                 && ItemsNow(c, x0, w'.x, o') && OtherLists(x0, w'.x, c.l)
               else Track(c, s, x0, w', [Entry(id)] + front, rest, o')
  {
    var o' := o.(bumped := o.bumped + {id});
    AtFirst(c, s, x0, w, front, ns, o);
    PassShape(w.nodes, front, ns, o.nodes);
    FreshRest(ns, o, o');
    BumpIndex(c, s, x0, w, o, id);
    assert Decide(c, s, w) == Bumped(id);
    BumpNotDoomed(c, s, x0.items[id]);
    BumpedsGrow(c, s, x0, front, o, o', id);
  }

  lemma FrontPass(c: Call, s: Settings, x0: Index, w: Walk, front: seq<Node>, o: Outcome)
    requires SoundWalk(c, w) && Track(c, s, x0, w, front, [], o) && front != [] && Alive(w)
    requires var n := front[|front| - 1];
             n.Entry? && n.id in x0.items && !Granted(c, x0.items[n.id].key, w.tries)
    ensures Known(w.x, w.nodes[w.cur])
    ensures Track(c, s, x0, Turn(c, s, w), front[..|front| - 1], [], o.(nodes := [front[|front| - 1]] + o.nodes))
    ensures Turn(c, s, w).tries == w.tries - 1
  {
    var past := o.(nodes := [front[|front| - 1]] + o.nodes);
    AtAgain(c, s, x0, w, front, o);
    PassFront(w.nodes, front, o.nodes);
    SameItems(c, x0, w.x, o, past);
  }

  // ----- the turn that stops

  /** What the pull has done in the end with an item `it` it stops at, as that item was then. */
  ghost predicate StopsAt(c: Call, s: Settings, x0: Index, w: Walk, r: Outcome, id: Id, it: Item, bytes: nat) {
    && r.at < |r.nodes| && r.nodes[r.at] == Entry(id) && Held(w.x, id) == Held(x0, id)
    && id in x0.items && x0.items[id].linked && x0.items[id].place == c.l
    && (forall i {:trigger ItemNow(c, x0, w.x, r, i)} :: i != id ==> ItemNow(c, x0, w.x, r, i))
    && if Evicts(c, s) then
         && IsLost(x0, w.x, id) && (id in w.x.items ==> w.x.items[id].place == x0.items[id].place)
         && w.nodes == CutAt(r.nodes, r.at) && OtherLists(x0, w.x, c.l)
       else if Warms(c, s, it) then GoesTo(c, x0, w, r, id, it, Warm)
       else if Cools(c, s, it, bytes) then GoesTo(c, x0, w, r, id, it, Cold)
       else id in w.x.items && w.x.items[id] == it && w.nodes == r.nodes && OtherLists(x0, w.x, c.l)
  }

  /** It heads the other list, without the active mark. */
  ghost predicate GoesTo(c: Call, x0: Index, w: Walk, r: Outcome, id: Id, it: Item, to: Lru)
    requires r.at < |r.nodes|
  {
    var l := ListId(c.l.cls, to);
    && id in w.x.items && w.x.items[id] == it.(place := l, active := false)
    && w.nodes == CutAt(r.nodes, r.at) && ListOf(w.x, l) == [id] + ListOf(x0, l)
    && forall m {:trigger ListOf(w.x, m)} :: m != c.l && m != l ==> ListOf(w.x, m) == ListOf(x0, m)
  }

  /** The walk stands at an item that the pull stops at. */
  ghost predicate AtStop(c: Call, s: Settings, x0: Index, w: Walk, r: Outcome, id: Id) {
    && SoundWalk(c, w) && Alive(w) && LimitOk(c, s, w) && w.nodes == r.nodes && w.cur == r.at
    && w.nodes[w.cur] == Entry(id) && OnList(w.x.items, c.l, id) && id in x0.items && x0.items[id].linked
    && x0.items[id].place == c.l && OtherLists(x0, w.x, c.l) && ItemsNow(c, x0, w.x, r) && id !in r.reclaimed
    && w.x.items[id].refcount > 0 && Granted(c, w.x.items[id].key, w.tries) && !Doomed(s, c.now, w.x.items[id])
    && !(c.l.lru.Warm? && w.x.items[id].active)
  }

  lemma StopLost(c: Call, s: Settings, x0: Index, w: Walk, r: Outcome, id: Id)
    requires AtStop(c, s, x0, w, r, id)
    ensures var y := Lose(w.x, id);
            && (forall i {:trigger ItemNow(c, x0, y, r, i)} :: i != id ==> ItemNow(c, x0, y, r, i))
            && Held(y, id) == Held(x0, id) && IsLost(x0, y, id) && OtherLists(x0, y, c.l)
            && (id in y.items ==> y.items[id].place == x0.items[id].place)
  {
    var y := Lose(w.x, id);
    assert ItemNow(c, x0, w.x, r, id);
    LoseFacts(w.x, id);
    LoseLists(w.x, id);
    OtherListsChain(x0, w.x, y, c.l);
    OthersNow(c, x0, w.x, y, r, id);
  }

  lemma StopMoves(c: Call, s: Settings, x0: Index, w: Walk, r: Outcome, id: Id, to: Lru)
    requires AtStop(c, s, x0, w, r, id) && to != c.l.lru
    ensures var l, it := ListId(c.l.cls, to), w.x.items[id];
            var y := Shift(w.x, id, l, it.time);
            && (forall i {:trigger ItemNow(c, x0, y, r, i)} :: i != id ==> ItemNow(c, x0, y, r, i))
            && Held(y, id) == Held(x0, id) && id in y.items && y.items[id] == it.(place := l, active := false)
            && ListOf(y, l) == [id] + ListOf(x0, l)
            && forall m {:trigger ListOf(y, m)} :: m != c.l && m != l ==> ListOf(y, m) == ListOf(x0, m)
  {
    var l, it := ListId(c.l.cls, to), w.x.items[id];
    assert ItemNow(c, x0, w.x, r, id);
    ShiftFacts(w.x, id, l, it.time);
    OthersNow(c, x0, w.x, Shift(w.x, id, l, it.time), r, id);
    MovedLists(c, x0, w.x, id, l, it.time);
  }

  lemma StopStays(c: Call, s: Settings, x0: Index, w: Walk, r: Outcome, id: Id)
    requires AtStop(c, s, x0, w, r, id)
    ensures var y := Keep(w.x, id);
            && (forall i {:trigger ItemNow(c, x0, y, r, i)} :: i != id ==> ItemNow(c, x0, y, r, i))
            && Held(y, id) == Held(x0, id) && id in y.items && y.items[id] == w.x.items[id] && OtherLists(x0, y, c.l)
  {
    var y := Keep(w.x, id);
    assert ItemNow(c, x0, w.x, r, id);
    KeepFacts(w.x, id);
    OtherListsChain(x0, w.x, y, c.l);
    OthersNow(c, x0, w.x, y, r, id);
  }

  /** The turn at an item that is granted and not reclaimed, and on WARM not active. */
  lemma TurnStops(c: Call, s: Settings, x0: Index, w: Walk, r: Outcome, id: Id)
    requires AtStop(c, s, x0, w, r, id)
    ensures Known(w.x, w.nodes[w.cur])
    ensures var w' := Turn(c, s, w);
            && w'.status.Finished?
            && StopsAt(c, s, x0, w', r, id, w.x.items[id], CountAt(w.x.sizesBytes, c.l))
  {
    DecideStop(c, s, w, id);
    var it := w.x.items[id];
    if Evicts(c, s) {
      StopLost(c, s, x0, w, r, id);
    } else if Warms(c, s, it) {
      TurnMoves(c, s, x0, w, r, id, Warm);
    } else if Cools(c, s, it, CountAt(w.x.sizesBytes, c.l)) {
      TurnMoves(c, s, x0, w, r, id, Cold);
    } else {
      StopStays(c, s, x0, w, r, id);
    }
  }

  lemma TurnMoves(c: Call, s: Settings, x0: Index, w: Walk, r: Outcome, id: Id, to: Lru)
    requires AtStop(c, s, x0, w, r, id) && to != c.l.lru && Decide(c, s, w) == Moved(id, to)
    ensures var w' := Turn(c, s, w);
            && w'.status.Finished? && Held(w'.x, id) == Held(x0, id) && GoesTo(c, x0, w', r, id, w.x.items[id], to)
            && forall i {:trigger ItemNow(c, x0, w'.x, r, i)} :: i != id ==> ItemNow(c, x0, w'.x, r, i)
  {
    StopMoves(c, s, x0, w, r, id, to);
  }

  lemma DecideStop(c: Call, s: Settings, w: Walk, id: Id)
    requires Alive(w) && w.nodes[w.cur] == Entry(id) && Known(w.x, w.nodes[w.cur]) && LimitOk(c, s, w)
    requires Granted(c, w.x.items[id].key, w.tries) && !Doomed(s, c.now, w.x.items[id])
    requires !(c.l.lru.Warm? && w.x.items[id].active)
    ensures var it := w.x.items[id];
            Decide(c, s, w) ==
              if Evicts(c, s) then Lost(id, true)
              else if Warms(c, s, it) then Moved(id, Warm)
              else if Cools(c, s, it, CountAt(w.x.sizesBytes, c.l)) then Moved(id, Cold)
              else Stopped(id)
  {
  }

  lemma OthersNow(c: Call, x0: Index, x: Index, y: Index, o: Outcome, id: Id)
    requires ItemsNow(c, x0, x, o) && OthersSame(x, y, id)
    ensures forall i {:trigger ItemNow(c, x0, y, o, i)} :: i != id ==> ItemNow(c, x0, y, o, i)
  {
    forall i | i != id ensures ItemNow(c, x0, y, o, i) {
      assert ItemNow(c, x0, x, o, i) && SameAt(x, y, i);
    }
  }

  lemma MovedLists(c: Call, x0: Index, x: Index, id: Id, l: ListId, time: Time)
    requires id in x.items && x.items[id].place == c.l != l && OtherLists(x0, x, c.l)
    ensures var y := Shift(x, id, l, time);
            && ListOf(y, l) == [id] + ListOf(x0, l)
            && forall m {:trigger ListOf(y, m)} :: m != c.l && m != l ==> ListOf(y, m) == ListOf(x0, m)
  {
    ShiftLists(x, id, l, time);
    var y := Shift(x, id, l, time);
    assert ListOf(x, l) == ListOf(x0, l);
    forall m | m != c.l && m != l ensures ListOf(y, m) == ListOf(x0, m) {
      assert ListOf(x, m) == ListOf(x0, m);
    }
  }

  /** The counter of bytes is the sum over the list, and no item's size has changed. */
  lemma BytesThen(c: Call, x0: Index, w: Walk, r: Outcome)
    requires SoundWalk(c, w) && ItemsNow(c, x0, w.x, r) && w.nodes == r.nodes
    ensures forall id <- Strip(r.nodes) :: id in x0.items
    ensures CountAt(w.x.sizesBytes, c.l) == ListBytes(x0.items, Strip(r.nodes))
  {
    assert ListOk(w.x, c.l) && SizeOk(w.x, c.l);
    var q := Strip(r.nodes);
    forall id <- q ensures id in x0.items && id in w.x.items && w.x.items[id].ntotal == x0.items[id].ntotal {
      assert OnList(w.x.items, c.l, id) && ItemNow(c, x0, w.x, r, id);
    }
    ListBytesSame(w.x.items, x0.items, q);
  }

  // ----- the whole pull

  /** The bytes of the items on the list when the pull stops. */
  ghost function BytesLeft(x0: Index, r: Outcome): nat {
    if forall id <- Strip(r.nodes) :: id in x0.items then ListBytes(x0.items, Strip(r.nodes)) else 0
  }

  ghost predicate Ends(c: Call, s: Settings, x0: Index, w: Walk, r: Outcome) {
    match r.stop
    case None => w.nodes == r.nodes && ItemsNow(c, x0, w.x, r) && OtherLists(x0, w.x, c.l)
    case Some(id) =>
      && id in x0.items
      && StopsAt(c, s, x0, w, r, id, if r.again then Bump(c, x0.items[id]) else x0.items[id], BytesLeft(x0, r))
  }

  lemma EndsStill(c: Call, s: Settings, x0: Index, w: Walk, front: seq<Node>, ns: seq<Node>, o: Outcome)
    requires SoundWalk(c, w) && Track(c, s, x0, w, front, ns, o)
    ensures Ends(c, s, x0, w, o.(nodes := front + ns + o.nodes))
  {
    SameItems(c, x0, w.x, o, o.(nodes := front + ns + o.nodes));
  }

  lemma StopEnds(c: Call, s: Settings, x0: Index, w: Walk, r: Outcome, id: Id)
    requires AtStop(c, s, x0, w, r, id) && r.stop == Some(id)
    requires w.x.items[id] == if r.again then Bump(c, x0.items[id]) else x0.items[id]
    ensures Ends(c, s, x0, Run(c, s, w), r)
  {
    TurnStops(c, s, x0, w, r, id);
    RunTurn(c, s, w);
    RunStops(c, s, Turn(c, s, w));
    BytesThen(c, x0, w, r);
  }

  /** The pull stops at an item that it meets for the first time. */
  lemma FirstStops(c: Call, s: Settings, x0: Index, w: Walk, front: seq<Node>, ns: seq<Node>, o: Outcome, id: Id)
    requires SoundWalk(c, w) && Track(c, s, x0, w, front, ns, o) && ns != [] && w.tries > 0 && !o.again
    requires ns[|ns| - 1] == Entry(id) && id in x0.items && !PassesOver(c, s, x0.items[id], w.tries)
    ensures Ends(c, s, x0, Run(c, s, w),
                 o.(nodes := front + ns + o.nodes, stop := Some(id), at := |front| + |ns[..|ns| - 1]|))
  {
    var r := o.(nodes := front + ns + o.nodes, stop := Some(id), at := |front| + |ns[..|ns| - 1]|);
    AtFirst(c, s, x0, w, front, ns, o);
    SameItems(c, x0, w.x, o, r);
    StopEnds(c, s, x0, w, r, id);
  }

  /** Or at one that it has bumped. */
  lemma AgainStops(c: Call, s: Settings, x0: Index, w: Walk, front: seq<Node>, o: Outcome, id: Id)
    requires SoundWalk(c, w) && Track(c, s, x0, w, front, [], o) && front != [] && w.tries > 0
    requires front[|front| - 1] == Entry(id) && id in x0.items && Granted(c, x0.items[id].key, w.tries)
    ensures Ends(c, s, x0, Run(c, s, w),
                 o.(nodes := front + [] + o.nodes, stop := Some(id), again := true, at := |front[..|front| - 1]|))
  {
    var r := o.(nodes := front + [] + o.nodes, stop := Some(id), again := true, at := |front[..|front| - 1]|);
    AtAgain(c, s, x0, w, front, o);
    assert BumpedNode(c, s, x0, front[|front| - 1], o) && ItemNow(c, x0, w.x, o, id);
    SameItems(c, x0, w.x, o, r);
    StopEnds(c, s, x0, w, r, id);
  }

  /** From any point of the walk on. */
  lemma {:induction false} RunOutlook(c: Call, s: Settings, x0: Index, w: Walk, front: seq<Node>, ns: seq<Node>,
                                      o: Outcome)
    requires SoundWalk(c, w) && Track(c, s, x0, w, front, ns, o) && !o.again
    ensures Ends(c, s, x0, Run(c, s, w), Outlook(c, s, x0, front, ns, w.tries, o))
    decreases |ns|, |front|, 1
  {
    if !Alive(w) {
      RunStops(c, s, w);
      EndsStill(c, s, x0, w, front, ns, o);
      assert front + ns == [] ==> front + ns + o.nodes == o.nodes;
    } else if ns == [] {
      RunFront(c, s, x0, w, front, o);
    } else if ns[|ns| - 1].Marker? {
      RunMarker(c, s, x0, w, front, ns, o);
    } else {
      RunEntry(c, s, x0, w, front, ns, o, ns[|ns| - 1].id);
    }
  }

  lemma OutlookFront(c: Call, s: Settings, x: Index, front: seq<Node>, tries: nat, o: Outcome, id: Id)
    requires front != [] && front[|front| - 1] == Entry(id) && id in x.items && tries > 0
    ensures var rest := front[..|front| - 1];
            Outlook(c, s, x, front, [], tries, o) ==
              if Granted(c, x.items[id].key, tries)
              then o.(nodes := front + [] + o.nodes, stop := Some(id), again := true, at := |rest|)
              else Outlook(c, s, x, rest, [], tries - 1, o.(nodes := [Entry(id)] + o.nodes))
  {
  }

  lemma {:induction false} RunFront(c: Call, s: Settings, x0: Index, w: Walk, front: seq<Node>, o: Outcome)
    requires SoundWalk(c, w) && Track(c, s, x0, w, front, [], o) && Alive(w) && !o.again
    ensures Ends(c, s, x0, Run(c, s, w), Outlook(c, s, x0, front, [], w.tries, o))
    decreases 0, |front|, 0
  {
    AtAgain(c, s, x0, w, front, o);
    var id := front[|front| - 1].id;
    OutlookFront(c, s, x0, front, w.tries, o, id);
    if Granted(c, x0.items[id].key, w.tries) {
      AgainStops(c, s, x0, w, front, o, id);
    } else {
      RunPast(c, s, x0, w, front, o, id);
    }
  }

  lemma {:induction false} RunPast(c: Call, s: Settings, x0: Index, w: Walk, front: seq<Node>, o: Outcome, id: Id)
    requires SoundWalk(c, w) && Track(c, s, x0, w, front, [], o) && Alive(w) && !o.again
    requires front != [] && front[|front| - 1] == Entry(id) && id in x0.items && !Granted(c, x0.items[id].key, w.tries)
    ensures Ends(c, s, x0, Run(c, s, w),
                 Outlook(c, s, x0, front[..|front| - 1], [], w.tries - 1, o.(nodes := [Entry(id)] + o.nodes)))
    decreases 0, |front| - 1, 2
  {
    FrontGoesOn(c, s, x0, w, front, o, id);
    RunOutlook(c, s, x0, Turn(c, s, w), front[..|front| - 1], [], o.(nodes := [Entry(id)] + o.nodes));
  }

  lemma FrontGoesOn(c: Call, s: Settings, x0: Index, w: Walk, front: seq<Node>, o: Outcome, id: Id)
    requires SoundWalk(c, w) && Track(c, s, x0, w, front, [], o) && Alive(w)
    requires front != [] && front[|front| - 1] == Entry(id) && id in x0.items && !Granted(c, x0.items[id].key, w.tries)
    ensures Known(w.x, w.nodes[w.cur])
    ensures var w' := Turn(c, s, w);
            && SoundWalk(c, w') && Run(c, s, w) == Run(c, s, w') && w'.tries == w.tries - 1
            && Track(c, s, x0, w', front[..|front| - 1], [], o.(nodes := [Entry(id)] + o.nodes))
  {
    FrontPass(c, s, x0, w, front, o);
    RunTurn(c, s, w);
  }

  lemma {:induction false} RunMarker(c: Call, s: Settings, x0: Index, w: Walk, front: seq<Node>, ns: seq<Node>,
                                     o: Outcome)
    requires SoundWalk(c, w) && Track(c, s, x0, w, front, ns, o) && Alive(w) && !o.again
    requires ns != [] && ns[|ns| - 1].Marker?
    ensures Ends(c, s, x0, Run(c, s, w), Outlook(c, s, x0, front, ns, w.tries, o))
    decreases |ns|, |front|, 0
  {
    AtFirst(c, s, x0, w, front, ns, o);
    RunTurn(c, s, w);
    if c.crawlBlocks {
      BlockedHere(c, s, w);
      RunStops(c, s, Turn(c, s, w));
      EndsStill(c, s, x0, w, front, ns, o);
    } else {
      TurnPass(c, s, x0, w, front, ns, o);
      RunOutlook(c, s, x0, Turn(c, s, w), front, ns[..|ns| - 1], o.(nodes := [ns[|ns| - 1]] + o.nodes));
    }
  }

  lemma {:induction false} RunEntry(c: Call, s: Settings, x0: Index, w: Walk, front: seq<Node>, ns: seq<Node>,
                                    o: Outcome, id: Id)
    requires SoundWalk(c, w) && Track(c, s, x0, w, front, ns, o) && Alive(w) && !o.again
    requires ns != [] && ns[|ns| - 1] == Entry(id)
    ensures Ends(c, s, x0, Run(c, s, w), Outlook(c, s, x0, front, ns, w.tries, o))
    decreases |ns|, |front|, 0
  {
    AtFirst(c, s, x0, w, front, ns, o);
    RunTurn(c, s, w);
    var w', rest, it := Turn(c, s, w), ns[..|ns| - 1], x0.items[id];
    var past := o.(nodes := [Entry(id)] + o.nodes);
    if !PassesOver(c, s, it, w.tries) {
      FirstStops(c, s, x0, w, front, ns, o, id);
    } else if !Granted(c, it.key, w.tries) {
      TurnPass(c, s, x0, w, front, ns, o);
      RunOutlook(c, s, x0, w', front, rest, past);
    } else if Doomed(s, c.now, it) {
      TurnReclaim(c, s, x0, w, front, ns, o, id);
      RunOutlook(c, s, x0, w', front, rest, o.(reclaimed := o.reclaimed + {id}));
    } else if it.time >= Elapsed(c.now, 60) {
      TurnCalm(c, s, x0, w, front, ns, o, id);
      RunOutlook(c, s, x0, w', front, rest, past.(calmed := o.calmed + {id}));
    } else {
      TurnBump(c, s, x0, w, front, ns, o, id);
      if front + rest == [] {
        RunStops(c, s, w');
        SameItems(c, x0, w'.x, o.(bumped := o.bumped + {id}), past.(bumped := o.bumped + {id}));
      } else {
        RunOutlook(c, s, x0, w', [Entry(id)] + front, rest, o.(bumped := o.bumped + {id}));
      }
    }
  }

  /** What the pull leaves of the list and of every item. */
  function PullOutlook(c: Call, s: Settings, x: Index, nodes: seq<Node>): Outcome {
    Outlook(c, s, x, [], nodes, Tries(c), NOTHING)
  }

  lemma PullEnds(c: Call, s: Settings, x: Index, nodes: seq<Node>)
    requires Valid(x) && Strip(nodes) == ListOf(x, c.l)
    ensures Ends(c, s, x, Run(c, s, Start(c, x, nodes)), PullOutlook(c, s, x, nodes))
  {
    assert ListOk(x, c.l);
    assert [] + nodes + [] == nodes;
    forall id ensures ItemNow(c, x, x, NOTHING, id) {
    }
    RunOutlook(c, s, x, Start(c, x, nodes), [], nodes, NOTHING);
  }

  // ----- what that means for the sets of items

  /** The item that the pull stops at, as it is then. */
  function StoppedItem(c: Call, x: Index, r: Outcome): Item
    requires r.stop.Some? && r.stop.value in x.items
  {
    if r.again then Bump(c, x.items[r.stop.value]) else x.items[r.stop.value]
  }

  ghost predicate Leaves(c: Call, s: Settings, x: Index, r: Outcome, id: Id) {
    && r.stop == Some(id) && id in x.items && !Evicts(c, s)
    && (Warms(c, s, StoppedItem(c, x, r)) || Cools(c, s, StoppedItem(c, x, r), BytesLeft(x, r)))
  }

  /** The items of these nodes are not to be reclaimed. */
  ghost predicate NoneDoomed(c: Call, s: Settings, x: Index, ns: seq<Node>) {
    forall i {:trigger ns[i]} ::
      0 <= i < |ns| && ns[i].Entry? && ns[i].id in x.items ==> !Doomed(s, c.now, x.items[ns[i].id])
  }

  ghost predicate AllDoomed(c: Call, s: Settings, x: Index, ids: set<Id>) {
    forall id <- ids :: id in x.items && Doomed(s, c.now, x.items[id])
  }

  /** The pull reclaims what it has to, and stops at no such item. */
  lemma {:induction false} OutlookDoomed(c: Call, s: Settings, x: Index, front: seq<Node>, ns: seq<Node>, tries: nat,
                                         o: Outcome)
    requires o.stop.None? && AllDoomed(c, s, x, o.reclaimed) && NoneDoomed(c, s, x, front)
    ensures var r := Outlook(c, s, x, front, ns, tries, o);
            && AllDoomed(c, s, x, r.reclaimed)
            && (r.stop.Some? ==> r.stop.value in x.items && !Doomed(s, c.now, x.items[r.stop.value]))
    decreases |ns|, |front|
  {
    if tries > 0 && ns == [] && front != [] {
      var n, rest := front[|front| - 1], front[..|front| - 1];
      assert NoneDoomed(c, s, x, rest);
      OutlookDoomed(c, s, x, rest, [], tries - 1, o.(nodes := [n] + o.nodes));
    } else if tries > 0 && ns != [] {
      var n, rest := ns[|ns| - 1], ns[..|ns| - 1];
      var past := o.(nodes := [n] + o.nodes);
      if n.Marker? {
        OutlookDoomed(c, s, x, front, rest, tries, past);
      } else if n.id in x.items && PassesOver(c, s, x.items[n.id], tries) {
        if !Granted(c, x.items[n.id].key, tries) {
          OutlookDoomed(c, s, x, front, rest, tries - 1, past);
        } else if Doomed(s, c.now, x.items[n.id]) {
          OutlookDoomed(c, s, x, front, rest, tries - 1, o.(reclaimed := o.reclaimed + {n.id}));
        } else {
          OutlookDoomed(c, s, x, front, rest, tries - 1, past.(calmed := o.calmed + {n.id}));
          assert NoneDoomed(c, s, x, [n] + front);
          OutlookDoomed(c, s, x, [n] + front, rest, tries - 1, o.(bumped := o.bumped + {n.id}));
        }
      }
    }
  }

  /** lru_pull_tail, told from the state before: it loses exactly what it reclaims on the way and, where it has to
      evict, the item it stops at; it moves that one exactly if it is to be kept warm or to cool down. */
  lemma PullMeans(c: Call, s: Settings, x: Index, nodes: seq<Node>)
    requires Valid(x) && Strip(nodes) == ListOf(x, c.l)
    ensures var w, r := Run(c, s, Start(c, x, nodes)), PullOutlook(c, s, x, nodes);
            && Ends(c, s, x, w, r) && LostItems(x, w.x) == r.reclaimed + Evicted(c, s, r)
            && EvictedItems(c, s, x, w.x) == Evicted(c, s, r)
            && MovedItems(x, w.x) == (set id <- x.items | Leaves(c, s, x, r, id))
  {
    PullEnds(c, s, x, nodes);
    OutlookDoomed(c, s, x, [], nodes, Tries(c), NOTHING);
    SetsMean(c, s, x, Run(c, s, Start(c, x, nodes)), PullOutlook(c, s, x, nodes));
  }

  function Evicted(c: Call, s: Settings, r: Outcome): set<Id> {
    if r.stop.Some? && Evicts(c, s) then {r.stop.value} else {}
  }

  lemma SetsMean(c: Call, s: Settings, x: Index, w: Walk, r: Outcome)
    requires Ends(c, s, x, w, r) && AllDoomed(c, s, x, r.reclaimed)
    requires r.stop.Some? ==> r.stop.value in x.items && !Doomed(s, c.now, x.items[r.stop.value])
    ensures LostItems(x, w.x) == r.reclaimed + Evicted(c, s, r)
    ensures EvictedItems(c, s, x, w.x) == Evicted(c, s, r)
    ensures MovedItems(x, w.x) == (set id <- x.items | Leaves(c, s, x, r, id))
  {
    forall id ensures id in LostItems(x, w.x) <==> id in r.reclaimed + Evicted(c, s, r)
              ensures id in x.items ==> (IsMoved(x, w.x, id) <==> Leaves(c, s, x, r, id)) {
      OneMeans(c, s, x, w, r, id);
    }
  }

  lemma OneMeans(c: Call, s: Settings, x: Index, w: Walk, r: Outcome, id: Id)
    requires Ends(c, s, x, w, r) && (r.stop.Some? ==> r.stop.value !in r.reclaimed)
    ensures IsLost(x, w.x, id) <==> id in r.reclaimed || id in Evicted(c, s, r)
    ensures IsMoved(x, w.x, id) <==> Leaves(c, s, x, r, id)
  {
    if r.stop != Some(id) {
      assert ItemNow(c, x, w.x, r, id);
    }
  }

  // ----- the same, as a look at the list

  /** How many entries are behind a place on the list. */
  function Behind(ns: seq<Node>, i: nat): nat {
    if i + 1 >= |ns| then 0
    else (if ns[|ns| - 1].Entry? then 1 else 0) + Behind(ns[..|ns| - 1], i)
  }

  /** The pull gets past the node: a marker does not stop it, and it passes over the item at the try it has then. */
  ghost predicate PastAt(c: Call, s: Settings, x: Index, ns: seq<Node>, tries: nat, i: nat) {
    && i < |ns| && Behind(ns, i) < tries
    && match ns[i]
       case Marker => !c.crawlBlocks
       case Entry(id) => id in x.items && PassesOver(c, s, x.items[id], tries - Behind(ns, i))
  }

  /** The pull gets to an item. */
  ghost predicate Reached(c: Call, s: Settings, x: Index, ns: seq<Node>, tries: nat, i: nat, id: Id) {
    && i < |ns| && Behind(ns, i) < tries && ns[i] == Entry(id) && id in x.items
    && forall j: nat {:trigger PastAt(c, s, x, ns, tries, j)} :: i < j < |ns| ==> PastAt(c, s, x, ns, tries, j)
  }

  ghost predicate KeptAt(c: Call, s: Settings, x: Index, ns: seq<Node>, tries: nat, i: nat, id: Id) {
    Reached(c, s, x, ns, tries, i, id) && !PassesOver(c, s, x.items[id], tries - Behind(ns, i))
  }

  ghost predicate TakenAt(c: Call, s: Settings, x: Index, ns: seq<Node>, tries: nat, i: nat, id: Id) {
    Reached(c, s, x, ns, tries, i, id) && Reclaims(c, s, x.items[id], tries - Behind(ns, i))
  }

  /** The first item, from the tail, that the pull does not pass over. */
  ghost predicate IsKept(c: Call, s: Settings, x: Index, ns: seq<Node>, tries: nat, id: Id) {
    exists i: nat {:trigger KeptAt(c, s, x, ns, tries, i, id)} :: KeptAt(c, s, x, ns, tries, i, id)
  }

  ghost predicate IsTaken(c: Call, s: Settings, x: Index, ns: seq<Node>, tries: nat, id: Id) {
    exists i: nat {:trigger TakenAt(c, s, x, ns, tries, i, id)} :: TakenAt(c, s, x, ns, tries, i, id)
  }

  lemma BehindLonger(ns: seq<Node>, i: nat)
    requires ns != [] && i + 1 < |ns|
    ensures Behind(ns, i) == (if ns[|ns| - 1].Entry? then 1 else 0) + Behind(ns[..|ns| - 1], i)
  {
  }

  lemma PastLonger(c: Call, s: Settings, x: Index, ns: seq<Node>, tries: nat, fewer: nat, i: nat)
    requires ns != [] && i + 1 < |ns| && tries == fewer + if ns[|ns| - 1].Entry? then 1 else 0
    ensures PastAt(c, s, x, ns, tries, i) <==> PastAt(c, s, x, ns[..|ns| - 1], fewer, i)
  {
    BehindLonger(ns, i);
  }

  /** The pull gets to an item exactly if it gets past the last node and then to the item among the others. */
  lemma ReachedLonger(c: Call, s: Settings, x: Index, ns: seq<Node>, tries: nat, fewer: nat, i: nat, id: Id)
    requires ns != [] && i + 1 < |ns| && tries == fewer + if ns[|ns| - 1].Entry? then 1 else 0
    ensures var k, rest := |ns| - 1, ns[..|ns| - 1];
            && (Reached(c, s, x, ns, tries, i, id) <==>
                  PastAt(c, s, x, ns, tries, k) && Reached(c, s, x, rest, fewer, i, id))
            && (KeptAt(c, s, x, ns, tries, i, id) <==>
                  PastAt(c, s, x, ns, tries, k) && KeptAt(c, s, x, rest, fewer, i, id))
            && (TakenAt(c, s, x, ns, tries, i, id) <==>
                  PastAt(c, s, x, ns, tries, k) && TakenAt(c, s, x, rest, fewer, i, id))
  {
    var k, rest := |ns| - 1, ns[..|ns| - 1];
    BehindLonger(ns, i);
    forall j: nat {:trigger PastAt(c, s, x, ns, tries, j)} {:trigger PastAt(c, s, x, rest, fewer, j)} | j < k
      ensures PastAt(c, s, x, ns, tries, j) <==> PastAt(c, s, x, rest, fewer, j)
    {
      PastLonger(c, s, x, ns, tries, fewer, j);
    }
  }

  lemma LastMeans(c: Call, s: Settings, x: Index, ns: seq<Node>, tries: nat, fewer: nat, id: Id)
    requires ns != [] && tries == fewer + if ns[|ns| - 1].Entry? then 1 else 0
    ensures var k, rest := |ns| - 1, ns[..|ns| - 1];
            && (IsKept(c, s, x, ns, tries, id) <==>
                  || KeptAt(c, s, x, ns, tries, k, id)
                  || (PastAt(c, s, x, ns, tries, k) && IsKept(c, s, x, rest, fewer, id)))
            && (IsTaken(c, s, x, ns, tries, id) <==>
                  || TakenAt(c, s, x, ns, tries, k, id)
                  || (PastAt(c, s, x, ns, tries, k) && IsTaken(c, s, x, rest, fewer, id)))
  {
    var k, rest := |ns| - 1, ns[..|ns| - 1];
    forall i: nat {:trigger KeptAt(c, s, x, ns, tries, i, id)} {:trigger KeptAt(c, s, x, rest, fewer, i, id)}
                  {:trigger TakenAt(c, s, x, ns, tries, i, id)} {:trigger TakenAt(c, s, x, rest, fewer, i, id)} | i < k
      ensures KeptAt(c, s, x, ns, tries, i, id) <==>
                PastAt(c, s, x, ns, tries, k) && KeptAt(c, s, x, rest, fewer, i, id)
      ensures TakenAt(c, s, x, ns, tries, i, id) <==>
                PastAt(c, s, x, ns, tries, k) && TakenAt(c, s, x, rest, fewer, i, id)
    {
      ReachedLonger(c, s, x, ns, tries, fewer, i, id);
    }
  }

  /** The item that the pull stops at is the first, from the tail, that it gets to within its tries and does not pass
      over; what it reclaims are the expired and flushed ones it gets to before, if their locks are got. */
  lemma {:induction false} OutlookMeans(c: Call, s: Settings, x: Index, front: seq<Node>, ns: seq<Node>, tries: nat,
                                        o: Outcome, id: Id)
    requires o.stop.None? && !o.again
    ensures var r := Outlook(c, s, x, front, ns, tries, o);
            && (r.stop == Some(id) && !r.again <==> IsKept(c, s, x, ns, tries, id))
            && (id in r.reclaimed <==> id in o.reclaimed || IsTaken(c, s, x, ns, tries, id))
    decreases |ns|, |front|
  {
    if tries > 0 && ns == [] && front != [] {
      var n, rest := front[|front| - 1], front[..|front| - 1];
      OutlookMeans(c, s, x, rest, [], tries - 1, o.(nodes := [n] + o.nodes), id);
    } else if tries > 0 && ns != [] {
      var n, rest := ns[|ns| - 1], ns[..|ns| - 1];
      var past, fewer := o.(nodes := [n] + o.nodes), if n.Entry? then tries - 1 else tries;
      LastMeans(c, s, x, ns, tries, fewer, id);
      if n.Marker? {
        OutlookMeans(c, s, x, front, rest, fewer, past, id);
      } else if n.id in x.items && PassesOver(c, s, x.items[n.id], tries) {
        if !Granted(c, x.items[n.id].key, tries) {
          OutlookMeans(c, s, x, front, rest, fewer, past, id);
        } else if Doomed(s, c.now, x.items[n.id]) {
          OutlookMeans(c, s, x, front, rest, fewer, o.(reclaimed := o.reclaimed + {n.id}), id);
        } else {
          OutlookMeans(c, s, x, front, rest, fewer, past.(calmed := o.calmed + {n.id}), id);
          OutlookMeans(c, s, x, [n] + front, rest, fewer, o.(bumped := o.bumped + {n.id}), id);
        }
      }
    }
  }

  /** Only on WARM can the pull meet an item again. */
  lemma {:induction false} AgainOnWarm(c: Call, s: Settings, x: Index, ns: seq<Node>, tries: nat, o: Outcome)
    requires !c.l.lru.Warm? && !o.again
    ensures !Outlook(c, s, x, [], ns, tries, o).again
    decreases |ns|
  {
    if tries > 0 && ns != [] {
      var n, rest := ns[|ns| - 1], ns[..|ns| - 1];
      var past := o.(nodes := [n] + o.nodes);
      if n.Marker? {
        AgainOnWarm(c, s, x, rest, tries, past);
      } else {
        AgainOnWarm(c, s, x, rest, tries - 1, past);
        AgainOnWarm(c, s, x, rest, tries - 1, o.(reclaimed := o.reclaimed + {n.id}));
      }
    }
  }

  function Tries(c: Call): nat {
    if c.l.cls == 0 then 0 else TRIES
  }

  /** On HOT, COLD and TEMP: the pull evicts exactly the first item from the tail that it gets to and does not pass
      over, if it is to evict; otherwise it moves this item, exactly if it is active and to be kept warm or inactive and
      to cool down. */
  lemma PullAnswers(c: Call, s: Settings, x: Index, nodes: seq<Node>)
    requires Valid(x) && Strip(nodes) == ListOf(x, c.l) && !c.l.lru.Warm?
    ensures var y, bytes := Run(c, s, Start(c, x, nodes)).x, BytesLeft(x, PullOutlook(c, s, x, nodes));
            forall id <- x.items {:trigger IsKept(c, s, x, nodes, Tries(c), id)} ::
              && (id in EvictedItems(c, s, x, y) <==> IsKept(c, s, x, nodes, Tries(c), id) && Evicts(c, s))
              && (id in MovedItems(x, y) <==>
                    && IsKept(c, s, x, nodes, Tries(c), id) && !Evicts(c, s)
                    && (Warms(c, s, x.items[id]) || Cools(c, s, x.items[id], bytes)))
              && (id in LostItems(x, y) <==>
                    id in EvictedItems(c, s, x, y) || IsTaken(c, s, x, nodes, Tries(c), id))
  {
    var y, bytes := Run(c, s, Start(c, x, nodes)).x, BytesLeft(x, PullOutlook(c, s, x, nodes));
    PullMeans(c, s, x, nodes);
    AgainOnWarm(c, s, x, nodes, Tries(c), NOTHING);
    forall id <- x.items
      ensures id in EvictedItems(c, s, x, y) <==> IsKept(c, s, x, nodes, Tries(c), id) && Evicts(c, s)
      ensures id in MovedItems(x, y) <==>
                && IsKept(c, s, x, nodes, Tries(c), id) && !Evicts(c, s)
                && (Warms(c, s, x.items[id]) || Cools(c, s, x.items[id], bytes))
      ensures id in LostItems(x, y) <==> id in EvictedItems(c, s, x, y) || IsTaken(c, s, x, nodes, Tries(c), id)
    {
      OutlookMeans(c, s, x, [], nodes, Tries(c), NOTHING, id);
    }
  }
}
