/** Every run of slab operations, starting with classes that own no page (slabs.c:202-301, 355-381, 482-526,
    622-659, 675-718, 915-960, 991-1005): what holds whenever the slabs lock is free. */
module SlabRuns {
  import opened Slabs

  datatype Op =
    | Take(id: nat, newPage: bool, grow: bool, room: bool, p: PageId)
    | Give(id: nat, c: Chunk)
    | CutOut(id: nat, i: nat)
    | Clear(id: nat, c: Chunk)
    | TakeOutside(id: nat, page: PageId)
    | MoveEnds(src: nat, dst: nat)

  /** malloc gives a page that is in no list; chunks are given back by their owners; a move ends with an empty page
      of a class that has another one. Pages move only if all are of the same length. */
  ghost predicate Enabled(g: Config, s: State, op: Op) {
    match op
    case Take(_, _, _, _, p) => Unlisted(s, p)
    case Give(id, c) => 0 < id < |s.classes| && c in s.used && Owns(s.classes[id], c)
    case CutOut(id, i) => 0 < id < |s.classes| && i < |s.classes[id].slots| && s.classes[id].slCurr > 0
    case Clear(id, c) => 0 < id < |s.classes| && c in s.used && Owns(s.classes[id], c)
    case TakeOutside(id, _) => 0 < id < |s.classes|
    case MoveEnds(src, dst) =>
      && g.wholePages && 0 < src < |s.classes| && dst < |s.classes| && src != dst && |s.classes[src].slabList| > 1
      && Empty(s, src, s.classes[src].slabList[0])
  }

  ghost function Next(g: Config, s: State, op: Op): State
    requires Enabled(g, s, op)
  {
    match op
    case Take(id, newPage, grow, room, p) => Alloc(g, s, id, newPage, grow, room, p).0
    case Give(id, c) => Push(s, id, c)
    case CutOut(id, i) => CutFree(s, id, i)
    case Clear(id, c) => Retire(s, c)
    case TakeOutside(id, page) => Skim(s, id, page, s.classes[id].perslab).0
    case MoveEnds(src, dst) => Finish(g, s, src, dst)
  }

  lemma StepKeepsValid(g: Config, s: State, op: Op)
    requires Valid(g, s) && Enabled(g, s, op)
    ensures Valid(g, Next(g, s, op))
  {
    match op {
      case Take(id, newPage, grow, room, p) => AllocMeaning(g, s, id, newPage, grow, room, p);
      case Give(id, c) => PushValid(g, s, id, c);
      case CutOut(id, i) => CutFreeValid(g, s, id, i);
      case Clear(id, c) => RetireValid(g, s, id, c);
      case TakeOutside(id, page) => SkimMeaning(g, s, id, page, s.classes[id].perslab);
      case MoveEnds(src, dst) => FinishValid(g, s, src, dst);
    }
  }

  // ----- a class that has a page keeps one

  ghost predicate HasPage(s: State, id: nat) {
    0 < id < |s.classes| && s.classes[id].slabList != []
  }

  lemma TakeKeepsPage(g: Config, s: State, id: nat, grow: bool, room: bool, p: PageId, j: nat)
    requires HasPage(s, j) && 0 < id < |s.classes|
    ensures HasPage(NewSlab(g, s, id, grow, room, p).0, j)
  {
  }

  lemma StepKeepsPage(g: Config, s: State, op: Op, id: nat)
    requires Valid(g, s) && Enabled(g, s, op) && HasPage(s, id)
    ensures HasPage(Next(g, s, op), id)
  {
    match op {
      case Take(j, newPage, grow, room, p) =>
        if 0 < j < |s.classes| {
          TakeKeepsPage(g, s, j, grow, room, p, id);
        }
      case TakeOutside(j, page) =>
        SkimMeaning(g, s, j, page, s.classes[j].perslab);
        assert SameClass(s, Next(g, s, op), id);
      case MoveEnds(src, dst) => FinishValid(g, s, src, dst);
      case _ =>
    }
  }

  // ----- over whole runs

  ghost predicate Start(g: Config, s: State) {
    && Shaped(g, s) && s.used == {} && s.cleared == {} && s.malloced == s.lost == 0
    && forall k <- s.classes :: k.slots == [] && k.slCurr == 0 && k.slabList == []
  }

  lemma {:induction false} NoPages(s: State, n: nat)
    requires n <= |s.classes| && forall k <- s.classes :: k.slabList == []
    ensures Pages(s.classes, n) == 0 && Owners(s.classes, n) == 0
  {
    if n > 0 {
      NoPages(s, n - 1);
    }
  }

  lemma StartValid(g: Config, s: State)
    requires Start(g, s)
    ensures Valid(g, s)
  {
    NoPages(s, |s.classes|);
    forall i | 0 <= i < |s.classes| ensures ClassOk(s, s.classes[i]) {
      forall c ensures ChunkOk(s, s.classes[i], c) {
      }
    }
  }

  ghost predicate StepAt(g: Config, ss: seq<State>, ops: seq<Op>, i: nat)
    requires i < |ops| && |ss| == |ops| + 1
  {
    Enabled(g, ss[i], ops[i]) && ss[i + 1] == Next(g, ss[i], ops[i])
  }

  ghost predicate IsRun(g: Config, ss: seq<State>, ops: seq<Op>) {
    && |ss| == |ops| + 1 && Start(g, ss[0])
    && forall i {:trigger StepAt(g, ss, ops, i)} :: 0 <= i < |ops| ==> StepAt(g, ss, ops, i)
  }

  lemma {:induction false} RunKeepsValid(g: Config, ss: seq<State>, ops: seq<Op>, i: nat)
    requires IsRun(g, ss, ops) && i <= |ops|
    ensures Valid(g, ss[i])
  {
    if i == 0 {
      StartValid(g, ss[0]);
    } else {
      RunKeepsValid(g, ss, ops, i - 1);
      assert StepAt(g, ss, ops, i - 1);
      StepKeepsValid(g, ss[i - 1], ops[i - 1]);
    }
  }

  /** The freelist of a class counts and holds distinct chunks of its pages, which are in its list once, and free,
      handed-out and cleared chunks add up to those of its pages. */
  ghost predicate ClassInOrder(s: State, k: SlabClass) {
    && k.slCurr == |k.slots| && Distinct(k.slots) && Distinct(k.slabList) && (forall c <- k.slots :: Owns(k, c))
    && k.slCurr + |Of(k, s.used)| + |Of(k, s.cleared)| == |k.slabList| * k.perslab
  }

  ghost predicate Lists(s: State, id: nat, p: PageId) {
    id < |s.classes| && p in s.classes[id].slabList
  }

  lemma OneList(g: Config, s: State, a: nat, b: nat, p: PageId)
    requires Valid(g, s) && Lists(s, a, p) && Lists(s, b, p)
    ensures a == b
  {
    if a != b && Apart(s, a, b) {
      assert false;
    }
  }

  /** Every chunk and every page in one place; the memory that has been given is that of the pages there are, and stays
      within the limit and one page for each class that owns one. */
  lemma EveryRunKeepsOrder(g: Config, ss: seq<State>, ops: seq<Op>, i: nat)
    requires IsRun(g, ss, ops) && i <= |ops|
    ensures var s := ss[i];
            && (forall id {:trigger s.classes[id]} :: 0 <= id < |s.classes| ==> ClassInOrder(s, s.classes[id]))
            && (forall a: nat, b: nat, p: PageId {:trigger Lists(s, a, p), Lists(s, b, p)} ::
                  Lists(s, a, p) && Lists(s, b, p) ==> a == b)
            && (g.wholePages ==> s.malloced == g.pageSize * Pages(s.classes, |s.classes|) + s.lost)
            && (g.memLimit != 0 ==> s.malloced <= Allowed(g, Owners(s.classes, |s.classes|)) + s.lost)
  {
    var s := ss[i];
    RunKeepsValid(g, ss, ops, i);
    forall id | 0 <= id < |s.classes| ensures ClassInOrder(s, s.classes[id]) {
      ChunksAddUp(g, s, id);
      assert ClassOk(s, s.classes[id]);
      forall c <- s.classes[id].slots ensures Owns(s.classes[id], c) {
        assert ChunkOk(s, s.classes[id], c);
      }
    }
    forall a: nat, b: nat, p: PageId | Lists(s, a, p) && Lists(s, b, p) ensures a == b {
      OneList(g, s, a, b, p);
    }
  }

  /** No page move takes a class's last page. */
  lemma {:induction false} PagesStay(g: Config, ss: seq<State>, ops: seq<Op>, i: nat, j: nat, id: nat)
    requires IsRun(g, ss, ops) && i <= j <= |ops| && HasPage(ss[i], id)
    ensures HasPage(ss[j], id)
    decreases j - i
  {
    if i < j {
      PagesStay(g, ss, ops, i, j - 1, id);
      RunKeepsValid(g, ss, ops, j - 1);
      assert StepAt(g, ss, ops, j - 1);
      StepKeepsPage(g, ss[j - 1], ops[j - 1], id);
    }
  }

  // ----- malloc fails

  /** The start of a run, and `n` requests later that malloc refused. */
  function Refused(g: Config, s: State, id: nat, n: nat): State
    requires id < |s.classes|
  {
    s.(malloced := s.malloced + n * Len(g, s.classes[id]), lost := s.lost + n * Len(g, s.classes[id]))
  }

  lemma RefusedStep(g: Config, s: State, id: nat, n: nat)
    requires Start(g, s) && 0 < id < |s.classes|
    ensures var x, op := Refused(g, s, id, n), Take(id, true, true, false, 0);
            Enabled(g, x, op) && Next(g, x, op) == Refused(g, s, id, n + 1)
  {
    var x, k := Refused(g, s, id, n), s.classes[id];
    assert k in s.classes && s.classes[POOL] in s.classes;
    OneMoreTimes(n, Len(g, k));
    forall i | 0 <= i < |x.classes| ensures Absent(x, 0, i) {
      assert s.classes[i] in s.classes;
    }
  }

  /** Requests for a class without a page pass the test for the limit, however many of them malloc refuses. */
  lemma RefusedRun(g: Config, s: State, id: nat, n: nat) returns (ss: seq<State>, ops: seq<Op>)
    requires Start(g, s) && 0 < id < |s.classes|
    ensures IsRun(g, ss, ops) && |ops| == n
    ensures forall i :: 0 <= i <= n ==> ss[i] == Refused(g, s, id, i)
  {
    ss := seq(n + 1, i requires 0 <= i < n + 1 => Refused(g, s, id, i));
    ops := seq(n, i requires 0 <= i < n => Take(id, true, true, false, 0));
    assert ss[0] == s;
    forall i | 0 <= i < n ensures StepAt(g, ss, ops, i) {
      RefusedStep(g, s, id, i);
    }
  }

  /** Then the count passes any limit, although no class has a page. */
  lemma RefusedRunPassesLimit(g: Config, s: State, id: nat, n: nat) returns (ss: seq<State>, ops: seq<Op>)
    requires Start(g, s) && 0 < id < |s.classes| && 0 < g.memLimit < n * Len(g, s.classes[id])
    ensures IsRun(g, ss, ops) && |ops| == n && ss[0] == s
    ensures !WithinLimit(g, ss[n]) && ss[n].classes == s.classes && Owners(s.classes, |s.classes|) == 0
  {
    ss, ops := RefusedRun(g, s, id, n);
    NoPages(s, |s.classes|);
    OneMore(g, 0);
  }

  /** Pages of 1 MB and the limit of 64 MB that is used unless another is given. */
  const USUAL: Config := Config(0x10_0000, true, 64 * 0x10_0000)

  /** One class of 96 bytes and the class of whole pages behind it. */
  const TWO_CLASSES: State :=
    State([SlabClass(0, 0, [], 0, []), SlabClass(96, 10922, [], 0, []), SlabClass(0x10_0000, 1, [], 0, [])],
          0, {}, {}, 0)

  /** After 64 refused requests the count is at the limit, and the next one takes it over. */
  lemma FailedMallocPassesLimit() returns (ss: seq<State>, ops: seq<Op>)
    ensures IsRun(USUAL, ss, ops) && |ops| == 65 && ss[0] == TWO_CLASSES
    ensures WithinLimit(USUAL, ss[64]) && !WithinLimit(USUAL, ss[65])
  {
    assert Start(USUAL, TWO_CLASSES);
    ss, ops := RefusedRun(USUAL, TWO_CLASSES, 1, 65);
    NoPages(TWO_CLASSES, 3);
    assert ss[64].malloced == USUAL.memLimit && ss[65].malloced == USUAL.memLimit + USUAL.pageSize;
    OneMore(USUAL, 0);
  }
}
