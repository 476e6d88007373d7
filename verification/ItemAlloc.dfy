/** do_item_alloc_pull (items.c:172-212): the rounds of requests for memory and of pulls that make room, as a log that
    tells which pulls were made, from which state to which, and what each returned. */
module ItemAlloc {
  import opened Common
  import opened ItemIndex
  import opened PullTail
  import opened ItemOps
  import PullOutcome

  /** What one round meets: whether slabs_alloc has a chunk, the bytes of the class, and the answers of item locks in
      its up to three pulls. */
  datatype Round = Round(memory: bool, total: nat, first: seq<bool>, second: seq<bool>, third: seq<bool>)

  const ROUNDS: nat := 10

  /** A request for memory: slab class 0 means that no class is large enough. The chunk is not in use. */
  datatype Request = Request(chunk: Id, ntotal: nat, cls: nat, rounds: seq<Round>, lockOf: Key -> nat)

  /** Where there are no segments: reclaim from the tail, evict nothing. */
  function Reclaiming(q: Request, round: Round, k: Key, now: Clock): Call {
    Call(ListId(q.cls, Cold), 0, false, false, 0, now, round.first, q.lockOf, Some(q.lockOf(k)))
  }

  function Evicting(q: Request, round: Round, k: Key, now: Clock): Call {
    Call(ListId(q.cls, Cold), round.total, true, false, 0, now, round.second, q.lockOf, Some(q.lockOf(k)))
  }

  function Juggling(q: Request, round: Round, k: Key, now: Clock): Call {
    Call(ListId(q.cls, Hot), round.total, false, false, 0, now, round.third, q.lockOf, Some(q.lockOf(k)))
  }

  // ----- the log

  /** One pull: its arguments, the state it met and the one it left, and the number it returned. */
  datatype Made = Made(p: PullArgs, from: Index, n: nat, to: Index)

  datatype RoundLog = RoundLog(from: Index, pulls: seq<Made>, to: Index)

  ghost predicate MadeOk(s: Settings, now: Time, k: Key, m: Made) {
    && CanPull(now, m.from, k, m.p)
    && var w := Run(m.p.c, s, Start(m.p.c, m.from, m.p.nodes)); m.to == w.x && m.n == Returned(w)
  }

  /** One pull after the other, all of them `good`. */
  ghost predicate ChainedBy(good: Made -> bool, r: RoundLog) {
    && (forall i {:trigger r.pulls[i]} :: 0 <= i < |r.pulls| ==> good(r.pulls[i]))
    && (if r.pulls == [] then r.to == r.from
        else r.pulls[0].from == r.from && r.pulls[|r.pulls| - 1].to == r.to)
    && forall i {:trigger Follows(r, i)} :: 0 <= i < |r.pulls| - 1 ==> Follows(r, i)
  }

  ghost predicate Follows(r: RoundLog, i: nat)
    requires i < |r.pulls| - 1
  {
    r.pulls[i].to == r.pulls[i + 1].from
  }

  ghost function Good(s: Settings, now: Time, k: Key): Made -> bool {
    m => MadeOk(s, now, k, m)
  }

  ghost predicate Chained(s: Settings, now: Time, k: Key, r: RoundLog) {
    ChainedBy(Good(s, now, k), r)
  }

  /** The number that the evicting pull of a round returned, which comes behind the reclaiming one. */
  function EvictedBy(s: Settings, r: RoundLog): nat {
    var at := if s.segmented then 0 else 1;
    if at < |r.pulls| then r.pulls[at].n else 0
  }

  /** The pulls of a round: before the request, one that only reclaims, unless the LRU is segmented; where the request
      fails, one that evicts; and where that returns nothing, in a segmented LRU, one of HOT. */
  ghost predicate PullsOf(s: Settings, q: Request, round: Round, k: Key, now: Clock, ps: seq<Made>) {
    var at := if s.segmented then 0 else 1;
    && |ps| >= at && (!s.segmented ==> ps[0].p.c == Reclaiming(q, round, k, now))
    && if round.memory then |ps| == at
       else
         && |ps| > at && ps[at].p.c == Evicting(q, round, k, now)
         && if s.segmented && ps[at].n == 0 then |ps| == 2 && ps[1].p.c == Juggling(q, round, k, now)
            else |ps| == at + 1
  }

  ghost predicate RoundOk(s: Settings, q: Request, k: Key, now: Clock, i: nat, r: RoundLog) {
    i < |q.rounds| && Chained(s, now, k, r) && PullsOf(s, q, q.rounds[i], k, now, r.pulls)
  }

  ghost function GoodRound(s: Settings, q: Request, k: Key, now: Clock): (nat, RoundLog) -> bool {
    (i: nat, r: RoundLog) => RoundOk(s, q, k, now, i, r)
  }

  /** One round after the other, from `x` to `z`, all of them `good`. */
  ghost predicate LinkedBy(good: (nat, RoundLog) -> bool, x: Index, z: Index, log: seq<RoundLog>) {
    && (forall i: nat {:trigger log[i]} :: i < |log| ==> good(i, log[i]))
    && (forall i: nat {:trigger Next(log, i)} :: i < |log| - 1 ==> Next(log, i))
    && if log == [] then z == x else log[0].from == x && log[|log| - 1].to == z
  }

  ghost predicate Next(log: seq<RoundLog>, i: nat)
    requires i < |log| - 1
  {
    log[i].to == log[i + 1].from
  }

  /** The request fails, and the round leaves hope for another. */
  ghost predicate GoesRound(s: Settings, q: Request, log: seq<RoundLog>, i: nat)
    requires i < |log| <= |q.rounds|
  {
    !q.rounds[i].memory && (s.segmented || EvictedBy(s, log[i]) > 0)
  }

  /** The rounds so far, up to the state `z`. */
  ghost predicate Rounds(s: Settings, q: Request, k: Key, now: Clock, x: Index, z: Index, log: seq<RoundLog>) {
    |log| <= |q.rounds| == ROUNDS && LinkedBy(GoodRound(s, q, k, now), x, z, log)
  }

  ghost predicate AllGoRound(s: Settings, q: Request, log: seq<RoundLog>, n: nat)
    requires n <= |log| <= |q.rounds|
  {
    forall i: nat {:trigger GoesRound(s, q, log, i)} :: i < n ==> GoesRound(s, q, log, i)
  }

  /** The whole: rounds until there is memory, or ten of them, or none has any hope. */
  ghost predicate Asked(s: Settings, q: Request, k: Key, now: Clock, x: Index, z: Index, log: seq<RoundLog>, ok: bool) {
    && log != [] && Rounds(s, q, k, now, x, z, log)
    && AllGoRound(s, q, log, |log| - 1)
    && (ok <==> q.rounds[|log| - 1].memory)
    && (!ok ==> |log| == ROUNDS || !GoesRound(s, q, log, |log| - 1))
  }

  lemma LinkedMore(good: (nat, RoundLog) -> bool, x: Index, y: Index, log: seq<RoundLog>, r: RoundLog)
    requires LinkedBy(good, x, y, log) && r.from == y && good(|log|, r)
    ensures LinkedBy(good, x, r.to, log + [r])
  {
    var more := log + [r];
    forall i: nat | i < |more| ensures good(i, more[i]) {
      assert i < |log| ==> more[i] == log[i];
    }
    forall i: nat | i < |more| - 1 ensures Next(more, i) {
      assert i < |log| - 1 ==> Next(log, i);
    }
  }

  lemma RoundsSnoc(s: Settings, q: Request, k: Key, now: Clock, x: Index, y: Index, log: seq<RoundLog>, r: RoundLog)
    requires Rounds(s, q, k, now, x, y, log) && |log| < ROUNDS && r.from == y && RoundOk(s, q, k, now, |log|, r)
    ensures Rounds(s, q, k, now, x, r.to, log + [r])
  {
    LinkedMore(GoodRound(s, q, k, now), x, y, log, r);
  }

  lemma GoSnoc(s: Settings, q: Request, log: seq<RoundLog>, r: RoundLog)
    requires |log| < |q.rounds| && AllGoRound(s, q, log, |log|)
    ensures AllGoRound(s, q, log + [r], |log|)
  {
    forall i: nat | i < |log| ensures GoesRound(s, q, log + [r], i) {
      assert GoesRound(s, q, log, i);
    }
  }

  lemma GoLast(s: Settings, q: Request, log: seq<RoundLog>)
    requires log != [] && |log| <= |q.rounds| && AllGoRound(s, q, log, |log| - 1) && GoesRound(s, q, log, |log| - 1)
    ensures AllGoRound(s, q, log, |log|)
  {
    forall i: nat | i < |log| ensures GoesRound(s, q, log, i) {
      assert i < |log| - 1 ==> GoesRound(s, q, log, i);
    }
  }

  lemma ChainedByMore(good: Made -> bool, r: RoundLog, m: Made)
    requires ChainedBy(good, r) && good(m) && m.from == r.to
    ensures ChainedBy(good, RoundLog(r.from, r.pulls + [m], m.to))
  {
    var r' := RoundLog(r.from, r.pulls + [m], m.to);
    forall i | 0 <= i < |r'.pulls| - 1 ensures Follows(r', i) {
      assert i < |r.pulls| - 1 ==> Follows(r, i);
    }
    forall i | 0 <= i < |r'.pulls| ensures good(r'.pulls[i]) {
      assert i < |r.pulls| ==> r'.pulls[i] == r.pulls[i];
    }
  }

  lemma ChainedSnoc(s: Settings, now: Time, k: Key, r: RoundLog, m: Made)
    requires Chained(s, now, k, r) && MadeOk(s, now, k, m) && m.from == r.to
    ensures Chained(s, now, k, RoundLog(r.from, r.pulls + [m], m.to))
  {
    ChainedByMore(Good(s, now, k), r, m);
  }

  lemma ChainedNone(s: Settings, now: Time, k: Key, x: Index)
    ensures Chained(s, now, k, RoundLog(x, [], x))
  {
  }

  lemma AskedEnds(s: Settings, q: Request, k: Key, now: Clock, x: Index, z: Index, log: seq<RoundLog>)
    requires |log| == ROUNDS && Rounds(s, q, k, now, x, z, log) && AllGoRound(s, q, log, |log|)
    ensures Asked(s, q, k, now, x, z, log, false)
  {
    assert GoesRound(s, q, log, |log| - 1);
    forall i: nat | i < |log| - 1 ensures GoesRound(s, q, log, i) {
    }
  }

  // ----- what the answer is

  ghost predicate MemoryIn(q: Request, i: nat) {
    i < |q.rounds| && q.rounds[i].memory
  }

  /** In a segmented LRU there is a chunk exactly if one of the ten requests meets one. */
  lemma SegmentedAnswer(s: Settings, q: Request, k: Key, now: Clock, x: Index, z: Index, log: seq<RoundLog>, ok: bool)
    requires Asked(s, q, k, now, x, z, log, ok) && s.segmented
    ensures ok <==> exists i: nat {:trigger MemoryIn(q, i)} :: MemoryIn(q, i)
  {
    if ok {
      assert MemoryIn(q, |log| - 1);
    } else {
      forall i: nat ensures !MemoryIn(q, i) {
        assert i < |log| - 1 ==> GoesRound(s, q, log, i);
      }
    }
  }

  /** Without segments, exactly if one of them does and every evicting pull before it returned more than 0. */
  lemma PlainAnswer(s: Settings, q: Request, k: Key, now: Clock, x: Index, z: Index, log: seq<RoundLog>, ok: bool)
    requires Asked(s, q, k, now, x, z, log, ok) && !s.segmented
    ensures ok <==> exists i: nat {:trigger MemoryIn(q, i)} :: MemoryIn(q, i) && i < |log| &&
                      forall j: nat {:trigger log[j]} :: j < i ==> EvictedBy(s, log[j]) > 0
  {
    if ok {
      assert MemoryIn(q, |log| - 1);
      forall j: nat {:trigger log[j]} | j < |log| - 1 ensures EvictedBy(s, log[j]) > 0 {
        assert GoesRound(s, q, log, j);
      }
    } else {
      forall i: nat | i < |log| ensures !MemoryIn(q, i) {
        assert i < |log| - 1 ==> GoesRound(s, q, log, i);
      }
    }
  }

  /** A round whose request fails evicts: if eviction is on, the first item from the tail of COLD that the pull does not
      pass over is gone afterwards, and no other that need not be reclaimed. */
  lemma FailedRoundEvicts(s: Settings, q: Request, k: Key, now: Clock, x: Index, z: Index, log: seq<RoundLog>, i: nat,
                          id: Id)
    requires Rounds(s, q, k, now, x, z, log) && i < |log| && !q.rounds[i].memory && s.evictToFree
    ensures var at := if s.segmented then 0 else 1;
            && at < |log[i].pulls|
            && var m := log[i].pulls[at];
               id in EvictedItems(m.p.c, s, m.from, m.to) <==>
                 PullOutcome.IsKept(m.p.c, s, m.from, m.p.nodes, PullOutcome.Tries(m.p.c), id)
  {
    assert GoodRound(s, q, k, now)(i, log[i]);
    var at := if s.segmented then 0 else 1;
    var m := log[i].pulls[at];
    assert Good(s, now, k)(m);
    PullOutcome.PullAnswers(m.p.c, s, m.from, m.p.nodes);
    if id !in m.from.items {
      assert !PullOutcome.IsKept(m.p.c, s, m.from, m.p.nodes, PullOutcome.Tries(m.p.c), id);
    }
  }

  // ----- the pulls are pulls under the key's lock

  lemma MadePulled(s: Settings, now: Time, k: Key, m: Made)
    requires MadeOk(s, now, k, m)
    ensures Pulled(s, now, m.from, m.to, k)
  {
    PulledOnce(m.p.c, s, m.from, m.p.nodes, k);
  }

  lemma {:induction false} ChainedPulls(good: Made -> bool, s: Settings, now: Time, k: Key, r: RoundLog, i: nat)
    requires ChainedBy(good, r) && i < |r.pulls|
    requires forall m: Made {:trigger good(m)} :: good(m) ==> Pulled(s, now, m.from, m.to, k)
    ensures Pulled(s, now, r.from, r.pulls[i].to, k)
    decreases i
  {
    var m := r.pulls[i];
    assert good(m);
    if i > 0 {
      var j := i - 1;
      ChainedPulls(good, s, now, k, r, j);
      assert Follows(r, j);
      PulledChain(s, now, r.from, m.from, m.to, k);
    }
  }

  lemma RoundPulled(s: Settings, now: Time, k: Key, r: RoundLog)
    requires Chained(s, now, k, r)
    ensures Pulled(s, now, r.from, r.to, k)
  {
    PulledNothing(s, now, r.from, k);
    forall m: Made {:trigger Good(s, now, k)(m)} | Good(s, now, k)(m) ensures Pulled(s, now, m.from, m.to, k) {
      MadePulled(s, now, k, m);
    }
    if r.pulls != [] {
      ChainedPulls(Good(s, now, k), s, now, k, r, |r.pulls| - 1);
    }
  }

  lemma {:induction false} RoundsPulled(s: Settings, q: Request, k: Key, now: Clock, x: Index, z: Index,
                                        log: seq<RoundLog>, i: nat)
    requires Rounds(s, q, k, now, x, z, log) && i < |log|
    ensures Pulled(s, now, x, log[i].to, k)
    decreases i
  {
    assert GoodRound(s, q, k, now)(i, log[i]);
    RoundPulled(s, now, k, log[i]);
    if i > 0 {
      var j := i - 1;
      RoundsPulled(s, q, k, now, x, z, log, j);
      assert Next(log, j);
      PulledChain(s, now, x, log[i].from, log[i].to, k);
    }
  }

  lemma AskedPulled(s: Settings, q: Request, k: Key, now: Clock, x: Index, z: Index, log: seq<RoundLog>, ok: bool)
    requires Asked(s, q, k, now, x, z, log, ok)
    ensures Pulled(s, now, x, z, k)
  {
    RoundsPulled(s, q, k, now, x, z, log, |log| - 1);
  }

  // ----- the memory of a joined value

  /** The store found the key's entry, the ids agree, and it needs a chunk for the joined value. */
  ghost predicate NeedsRoom(s: Settings, x: Index, cmd: Command, id: Id, now: Clock) {
    CanStore(x, id) && Joins(cmd) && Answer(s, x, cmd, id, now, true).1.Some?
  }

  /** What became of the memory: none for a value that is too large, else what the rounds gave; and the joined value is
      stored in the state they ended in, or the entry is left alone there. */
  ghost predicate RoomOf(s: Settings, x: Index, y: Index, id: Id, now: Clock, q: Request, z: Index, log: seq<RoundLog>,
                         room: bool)
    requires CanStore(x, id) && Findable(x, x.items[id].key)
  {
    var k := x.items[id].key;
    var fetched := Fetch(s, x, k, now).0;
    && (if q.cls == 0 then !room && z == fetched else Asked(s, q, k, now, fetched, z, log, room))
    && (!room ==> LeftAlone(s, x, y, k, now, z))
    && (room ==> q.chunk !in z.items && StoredOver(s, x, y, k, now, z, q.chunk))
  }

  ghost predicate StoredOver(s: Settings, x: Index, y: Index, k: Key, now: Clock, z: Index, nid: Id)
    requires Findable(x, k)
  {
    exists r, it {:trigger JoinedIn(s, x, y, k, now, r, z, nid, it)} :: JoinedIn(s, x, y, k, now, r, z, nid, it)
  }

  /** A store that joins, or lacks the memory to, in the end. */
  lemma JoinStores(s: Settings, x: Index, y: Index, cmd: Command, id: Id, now: Clock, q: Request, z: Index,
                   log: seq<RoundLog>, room: bool, it: Item)
    requires NeedsRoom(s, x, cmd, id, now) && Findable(x, x.items[id].key)
    requires var k := x.items[id].key;
             var fetched := Fetch(s, x, k, now).0;
             && (if q.cls == 0 then !room && z == fetched else Asked(s, q, k, now, fetched, z, log, room))
             && if room then JoinedIn(s, x, y, k, now, Answer(s, x, cmd, id, now, true).1.value, z, q.chunk, it)
                else LeftAlone(s, x, y, k, now, z)
    ensures Stores(s, x, y, cmd, id, now, room, if room then Stored else NotStored)
    ensures RoomOf(s, x, y, id, now, q, z, log, room)
  {
    RealData(s, now, x, id);
  }

  /** Whether an append or prepend finds memory in a segmented LRU. */
  lemma SegmentedRoom(s: Settings, x: Index, y: Index, id: Id, now: Clock, q: Request, z: Index, log: seq<RoundLog>,
                      room: bool)
    requires CanStore(x, id) && Findable(x, x.items[id].key) && RoomOf(s, x, y, id, now, q, z, log, room) && s.segmented
    ensures room <==> q.cls != 0 && exists i: nat {:trigger MemoryIn(q, i)} :: MemoryIn(q, i)
  {
    if q.cls != 0 {
      SegmentedAnswer(s, q, x.items[id].key, now, Fetch(s, x, x.items[id].key, now).0, z, log, room);
    }
  }
}
