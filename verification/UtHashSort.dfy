/** HASH_SRT (RSApi/uthash.h:866-951): a bottom-up merge sort of the insertion-order list in place. The result
    is ascending, keeps the order of elements that compare equal, and has its links in order again. */
module UtHashSort {
  import opened UtHash
  import opened UtHashTable

  type Compare = (Elem, Elem) -> int

  // ----- the order that a stable sort produces

  ghost predicate Leq(cmp: Compare, x: Elem, y: Elem) {
    cmp(x, y) <= 0
  }

  /** What cmpfcn has to be for the result to be sorted. */
  ghost predicate Preorder(cmp: Compare, order: seq<Elem>) {
    && (forall x, y {:trigger Leq(cmp, x, y)} :: x in order && y in order ==> Leq(cmp, x, y) || Leq(cmp, y, x))
    && (forall x, y, z {:trigger Leq(cmp, x, y), Leq(cmp, y, z)} ::
          x in order && y in order && z in order && Leq(cmp, x, y) && Leq(cmp, y, z) ==> Leq(cmp, x, z))
  }

  /** Where the element was at the start. */
  ghost function Pos(order: seq<Elem>, x: Elem): nat {
    if order == [] || order[0] == x then 0 else 1 + Pos(order[1..], x)
  }

  lemma {:induction false} PosAt(order: seq<Elem>, i: nat)
    requires Distinct(order) && i < |order|
    ensures Pos(order, order[i]) == i
  {
    if i > 0 {
      PosAt(order[1..], i - 1);
    }
  }

  /** Smaller, or equal and earlier at the start. */
  ghost predicate Before(cmp: Compare, order: seq<Elem>, x: Elem, y: Elem) {
    Leq(cmp, x, y) && (Leq(cmp, y, x) ==> Pos(order, x) < Pos(order, y))
  }

  lemma BeforeTransitive(cmp: Compare, order: seq<Elem>, x: Elem, y: Elem, z: Elem)
    requires Preorder(cmp, order) && x in order && y in order && z in order
    requires Before(cmp, order, x, y) && Before(cmp, order, y, z)
    ensures Before(cmp, order, x, z)
  {
  }

  ghost predicate Ascending(cmp: Compare, order: seq<Elem>, s: seq<Elem>) {
    forall i, j {:trigger Before(cmp, order, s[i], s[j])} :: 0 <= i < j < |s| ==> Before(cmp, order, s[i], s[j])
  }

  ghost predicate AllBefore(cmp: Compare, order: seq<Elem>, s: seq<Elem>, t: seq<Elem>) {
    forall i, j {:trigger Before(cmp, order, s[i], t[j])} :: 0 <= i < |s| && 0 <= j < |t| ==>
      Before(cmp, order, s[i], t[j])
  }

  ghost predicate Earlier(order: seq<Elem>, s: seq<Elem>, t: seq<Elem>) {
    forall i, j {:trigger s[i], t[j]} :: 0 <= i < |s| && 0 <= j < |t| ==> Pos(order, s[i]) < Pos(order, t[j])
  }

  ghost predicate Within(order: seq<Elem>, s: seq<Elem>) {
    forall i {:trigger s[i]} :: 0 <= i < |s| ==> s[i] in order
  }

  /** Two runs being merged: what is out is before all that is left. */
  ghost predicate Merging(cmp: Compare, order: seq<Elem>, blk: seq<Elem>, ps: seq<Elem>, qs: seq<Elem>) {
    && Within(order, blk) && Within(order, ps) && Within(order, qs)
    && Ascending(cmp, order, blk) && Ascending(cmp, order, ps) && Ascending(cmp, order, qs)
    && AllBefore(cmp, order, blk, ps) && AllBefore(cmp, order, blk, qs) && Earlier(order, ps, qs)
  }

  lemma AscendingTail(cmp: Compare, order: seq<Elem>, s: seq<Elem>)
    requires Ascending(cmp, order, s) && s != []
    ensures Ascending(cmp, order, s[1..]) && AllBefore(cmp, order, [s[0]], s[1..])
  {
    var t := s[1..];
    forall i, j | 0 <= i < j < |t| ensures Before(cmp, order, t[i], t[j]) {
      var i', j' := i + 1, j + 1;
      assert Before(cmp, order, s[i'], s[j']);
    }
    forall j | 0 <= j < |t| ensures Before(cmp, order, s[0], t[j]) {
      var j' := j + 1;
      assert Before(cmp, order, s[0], s[j']);
    }
  }

  /** The element is before the whole of a run if it is before its head. */
  lemma BeforeRun(cmp: Compare, order: seq<Elem>, e: Elem, s: seq<Elem>)
    requires Preorder(cmp, order) && e in order && Within(order, s) && Ascending(cmp, order, s)
    requires s != [] ==> Before(cmp, order, e, s[0])
    ensures AllBefore(cmp, order, [e], s)
  {
    forall j | 0 <= j < |s| ensures Before(cmp, order, e, s[j]) {
      if j > 0 {
        assert Before(cmp, order, s[0], s[j]);
        BeforeTransitive(cmp, order, e, s[0], s[j]);
      }
    }
  }

  lemma AscendingSnoc(cmp: Compare, order: seq<Elem>, blk: seq<Elem>, e: Elem, t: seq<Elem>)
    requires Ascending(cmp, order, blk) && AllBefore(cmp, order, blk, t) && e in t
    ensures Ascending(cmp, order, blk + [e])
  {
    var k :| 0 <= k < |t| && t[k] == e;
    var b := blk + [e];
    forall i, j | 0 <= i < j < |b| ensures Before(cmp, order, b[i], b[j]) {
      if j < |blk| {
        assert Before(cmp, order, blk[i], blk[j]);
      } else {
        assert Before(cmp, order, blk[i], t[k]);
      }
    }
  }

  lemma AllBeforeSnoc(cmp: Compare, order: seq<Elem>, blk: seq<Elem>, e: Elem, t: seq<Elem>, u: seq<Elem>)
    requires AllBefore(cmp, order, blk, t) && AllBefore(cmp, order, [e], u)
    requires u == t || (t != [] && u == t[1..])
    ensures AllBefore(cmp, order, blk + [e], u)
  {
    var b := blk + [e];
    forall i, j | 0 <= i < |b| && 0 <= j < |u| ensures Before(cmp, order, b[i], u[j]) {
      if i < |blk| {
        var k := if u == t then j else j + 1;
        assert Before(cmp, order, blk[i], t[k]);
      } else {
        assert Before(cmp, order, [e][0], u[j]);
      }
    }
  }

  lemma TakeP(cmp: Compare, order: seq<Elem>, blk: seq<Elem>, ps: seq<Elem>, qs: seq<Elem>)
    requires Preorder(cmp, order) && Merging(cmp, order, blk, ps, qs)
    requires ps != [] && (qs == [] || Leq(cmp, ps[0], qs[0]))
    ensures Merging(cmp, order, blk + [ps[0]], ps[1..], qs)
  {
    var e := ps[0];
    AscendingTail(cmp, order, ps);
    BeforeRun(cmp, order, e, qs);
    AscendingSnoc(cmp, order, blk, e, ps);
    AllBeforeSnoc(cmp, order, blk, e, ps, ps[1..]);
    AllBeforeSnoc(cmp, order, blk, e, qs, qs);
  }

  lemma TakeQ(cmp: Compare, order: seq<Elem>, blk: seq<Elem>, ps: seq<Elem>, qs: seq<Elem>)
    requires Preorder(cmp, order) && Merging(cmp, order, blk, ps, qs)
    requires qs != [] && (ps == [] || !Leq(cmp, ps[0], qs[0]))
    ensures Merging(cmp, order, blk + [qs[0]], ps, qs[1..])
  {
    var e := qs[0];
    AscendingTail(cmp, order, qs);
    BeforeRun(cmp, order, e, ps);
    AscendingSnoc(cmp, order, blk, e, qs);
    AllBeforeSnoc(cmp, order, blk, e, qs, qs[1..]);
    AllBeforeSnoc(cmp, order, blk, e, ps, ps);
  }

  // ----- merging as a function

  /** What the inner loop makes of two runs: of equal elements the one of the first run goes first. */
  function Merged(cmp: Compare, ps: seq<Elem>, qs: seq<Elem>): seq<Elem>
    decreases |ps| + |qs|
  {
    if ps == [] then qs
    else if qs == [] then ps
    else if cmp(ps[0], qs[0]) <= 0 then [ps[0]] + Merged(cmp, ps[1..], qs)
    else [qs[0]] + Merged(cmp, ps, qs[1..])
  }

  lemma {:induction false} MergedMultiset(cmp: Compare, ps: seq<Elem>, qs: seq<Elem>)
    ensures multiset(Merged(cmp, ps, qs)) == multiset(ps) + multiset(qs)
    decreases |ps| + |qs|
  {
    if ps != [] && qs != [] {
      assert ps == [ps[0]] + ps[1..] && qs == [qs[0]] + qs[1..];
      if cmp(ps[0], qs[0]) <= 0 {
        MergedMultiset(cmp, ps[1..], qs);
      } else {
        MergedMultiset(cmp, ps, qs[1..]);
      }
    }
  }

  lemma {:induction false} MergedAscending(cmp: Compare, order: seq<Elem>, blk: seq<Elem>, ps: seq<Elem>, qs: seq<Elem>)
    requires Preorder(cmp, order) && Merging(cmp, order, blk, ps, qs)
    ensures Ascending(cmp, order, blk + Merged(cmp, ps, qs))
    decreases |ps| + |qs|
  {
    var m := Merged(cmp, ps, qs);
    if ps == [] && qs == [] {
      assert blk + m == blk;
    } else if qs == [] || (ps != [] && cmp(ps[0], qs[0]) <= 0) {
      TakeP(cmp, order, blk, ps, qs);
      MergedAscending(cmp, order, blk + [ps[0]], ps[1..], qs);
      assert m == [ps[0]] + Merged(cmp, ps[1..], qs);
      assert (blk + [ps[0]]) + Merged(cmp, ps[1..], qs) == blk + m;
    } else {
      TakeQ(cmp, order, blk, ps, qs);
      MergedAscending(cmp, order, blk + [qs[0]], ps, qs[1..]);
      assert m == [qs[0]] + Merged(cmp, ps, qs[1..]);
      assert (blk + [qs[0]]) + Merged(cmp, ps, qs[1..]) == blk + m;
    }
  }

  // ----- runs

  /** The elements that were at these places, sorted among themselves. */
  ghost predicate Run(cmp: Compare, order: seq<Elem>, s: seq<Elem>, from: nat, to: nat) {
    && from <= to <= |s| && to <= |order|
    && multiset(s[from..to]) == multiset(order[from..to])
    && (Preorder(cmp, order) ==> Ascending(cmp, order, s[from..to]))
  }

  function Min(a: nat, b: nat): nat {
    if a < b then a else b
  }

  /** From `from` on the list is made of runs of this size, the last one perhaps shorter. */
  ghost predicate Runs(cmp: Compare, order: seq<Elem>, s: seq<Elem>, size: nat, from: nat)
    decreases |s| - from
  {
    from < |s| ==>
      var to := Min(from + size, |s|);
      size > 0 && Run(cmp, order, s, from, to) && Runs(cmp, order, s, size, to)
  }

  /** Up to `to` it is made of full runs. */
  ghost predicate FullRuns(cmp: Compare, order: seq<Elem>, s: seq<Elem>, size: nat, from: nat, to: nat)
    decreases if from < to then to - from else 0
  {
    from == to
    || (size > 0 && from + size <= to && Run(cmp, order, s, from, from + size) &&
       FullRuns(cmp, order, s, size, from + size, to))
  }

  lemma {:induction false} SinglesAreRuns(cmp: Compare, order: seq<Elem>, from: nat)
    ensures Runs(cmp, order, order, 1, from)
    decreases |order| - from
  {
    if from < |order| {
      SinglesAreRuns(cmp, order, from + 1);
    }
  }

  lemma {:induction false} FullRunsSnoc(cmp: Compare, order: seq<Elem>, s: seq<Elem>, size: nat, from: nat, to: nat)
    requires FullRuns(cmp, order, s, size, from, to) && size > 0 && Run(cmp, order, s, to, to + size)
    ensures FullRuns(cmp, order, s, size, from, to + size)
    decreases if from < to then to - from else 0
  {
    if from != to {
      FullRunsSnoc(cmp, order, s, size, from + size, to);
    }
  }

  lemma {:induction false} FullRunsExtend(cmp: Compare, order: seq<Elem>, s: seq<Elem>, t: seq<Elem>, size: nat,
                                          from: nat, to: nat)
    requires FullRuns(cmp, order, s, size, from, to) && to <= |s|
    ensures FullRuns(cmp, order, s + t, size, from, to)
    decreases if from < to then to - from else 0
  {
    if from != to {
      FullRunsExtend(cmp, order, s, t, size, from + size, to);
      assert (s + t)[from..from + size] == s[from..from + size];
    }
  }

  /** Full runs and a last one make up the whole list. */
  lemma {:induction false} FullRunsJoin(cmp: Compare, order: seq<Elem>, s: seq<Elem>, size: nat, from: nat, to: nat)
    requires FullRuns(cmp, order, s, size, from, to) && from <= to <= |s| && size > 0
    requires to == |s| || (Run(cmp, order, s, to, |s|) && |s| <= to + size)
    ensures Runs(cmp, order, s, size, from)
    decreases if from < to then to - from else 0
  {
    if from != to {
      FullRunsJoin(cmp, order, s, size, from + size, to);
    }
  }

  lemma MembersOf(s: seq<Elem>, t: seq<Elem>)
    requires multiset(s) == multiset(t)
    ensures |s| == |t| && forall x {:trigger x in s} :: x in s <==> x in t
  {
    forall x ensures x in s <==> x in t {
      assert x in s <==> x in multiset(s);
      assert x in t <==> x in multiset(t);
    }
    assert |multiset(s)| == |s| && |multiset(t)| == |t|;
  }

  ghost predicate Located(order: seq<Elem>, s: seq<Elem>, from: nat, to: nat) {
    forall i {:trigger s[i]} :: 0 <= i < |s| ==> from <= Pos(order, s[i]) < to
  }

  lemma RunPositions(cmp: Compare, order: seq<Elem>, s: seq<Elem>, from: nat, to: nat)
    requires Run(cmp, order, s, from, to) && Distinct(order)
    ensures Within(order, s[from..to])
    ensures Located(order, s[from..to], from, to)
  {
    var r := s[from..to];
    MembersOf(r, order[from..to]);
    forall i | 0 <= i < |r| ensures r[i] in order && from <= Pos(order, r[i]) < to {
      assert r[i] in r;
      var o := order[from..to];
      var k :| 0 <= k < |o| && o[k] == r[i];
      PosAt(order, from + k);
    }
  }

  lemma MergeStarts(cmp: Compare, order: seq<Elem>, s: seq<Elem>, a: nat, b: nat, c: nat)
    requires Run(cmp, order, s, a, b) && Run(cmp, order, s, b, c) && Distinct(order) && Preorder(cmp, order)
    ensures Merging(cmp, order, [], s[a..b], s[b..c])
  {
    RunPositions(cmp, order, s, a, b);
    RunPositions(cmp, order, s, b, c);
  }

  /** The merged elements are a run where the two runs were. */
  lemma MergedRun(cmp: Compare, order: seq<Elem>, s: seq<Elem>, a: nat, b: nat, c: nat, out: seq<Elem>)
    requires Run(cmp, order, s, a, b) && Run(cmp, order, s, b, c) && |out| == a && Distinct(order)
    requires multiset(out) == multiset(s[..a])
    ensures var blk := Merged(cmp, s[a..b], s[b..c]);
            |out + blk| == c && Run(cmp, order, out + blk, a, c) && multiset(out + blk) == multiset(s[..c])
  {
    var ps, qs := s[a..b], s[b..c];
    var blk := Merged(cmp, ps, qs);
    MergedMultiset(cmp, ps, qs);
    assert |multiset(blk)| == |blk|;
    assert (out + blk)[a..c] == blk;
    Split3(s, a, b, c);
    Split3(order, a, b, c);
    if Preorder(cmp, order) {
      MergeStarts(cmp, order, s, a, b, c);
      MergedAscending(cmp, order, [], ps, qs);
      assert [] + blk == blk;
    }
  }

  lemma Split3(s: seq<Elem>, a: nat, b: nat, c: nat)
    requires a <= b <= c <= |s|
    ensures multiset(s[a..c]) == multiset(s[a..b]) + multiset(s[b..c])
    ensures multiset(s[..c]) == multiset(s[..a]) + multiset(s[a..b]) + multiset(s[b..c])
  {
    assert s[a..c] == s[a..b] + s[b..c];
    assert s[..c] == s[..a] + s[a..c];
  }

  // ----- the list in the heap

  ghost predicate OutNode(out: seq<Elem>, k: nat)
    requires k < |out|
    reads out`next, out`prev
  {
    && out[k].prev == (if k > 0 then out[k - 1] else null)
    && (k + 1 < |out| ==> out[k].next == out[k + 1])
  }

  /** The merged part: linked both ways, but for the link behind its tail. */
  ghost predicate OutLinked(list: Elem?, tail: Elem?, out: seq<Elem>)
    reads out`next, out`prev
  {
    && list == First(out) && tail == Last(out) && Distinct(out)
    && forall k {:trigger OutNode(out, k)} :: 0 <= k < |out| ==> OutNode(out, k)
  }

  ghost predicate NextAt(src: seq<Elem>, x: nat)
    requires x < |src|
    reads src`next
  {
    src[x].next == if x + 1 < |src| then src[x + 1] else null
  }

  /** This part of the old list can still be followed. */
  ghost predicate Pending(src: seq<Elem>, lo: nat, hi: nat)
    reads src`next
  {
    forall x {:trigger NextAt(src, x)} :: lo <= x < hi && x < |src| ==> NextAt(src, x)
  }

  /** Nothing of this part has been merged. */
  ghost predicate Unmerged(src: seq<Elem>, out: seq<Elem>, lo: nat, hi: nat) {
    forall x {:trigger src[x]} :: lo <= x < hi && x < |src| ==> src[x] !in out
  }

  ghost function Opt(e: Elem?): set<Elem> {
    if e == null then {} else {e}
  }

  /** The element becomes the new tail of the merged part. */
  method Emit(list: Elem?, tail: Elem?, e: Elem, ghost out: seq<Elem>) returns (list': Elem, tail': Elem)
    requires OutLinked(list, tail, out) && e !in out
    modifies e`prev, Opt(tail)`next
    ensures OutLinked(list', tail', out + [e])
  {
    ghost var was := out + [e];
    if tail != null {
      assert OutNode(out, |out| - 1);
      tail.next := e;
      list' := list;
    } else {
      list' := e;
    }
    e.prev := tail;
    tail' := e;
    forall k | 0 <= k < |was| ensures OutNode(was, k) {
      if k < |out| {
        assert old(OutNode(out, k));
      }
    }
  }

  // ----- merging two runs

  /** The locals of the inner loop. */
  datatype Merge = Merge(list: Elem?, tail: Elem?, p: Elem?, psize: nat, q: Elem?, qsize: nat)

  /** Where the loop stands: what is left of the runs that start at `a` and `b` and end at `b` and `c`. */
  datatype Place = Place(a: nat, x: nat, b: nat, y: nat, c: nat)

  ghost predicate At(src: seq<Elem>, w: Place, m: Merge, insize: nat) {
    && w.a <= w.x <= w.b <= w.y <= w.c <= |src| && w.c == Min(w.b + insize, |src|)
    && m.psize == w.b - w.x && (m.psize > 0 ==> m.p == src[w.x])
    && m.qsize == insize - (w.y - w.b) && m.q == if w.y < |src| then src[w.y] else null
  }

  /** Only elements of the old list have been merged, and none of those that are left. */
  ghost predicate Apart(src: seq<Elem>, out: seq<Elem>, w: Place) {
    (forall e <- out :: e in src) && Unmerged(src, out, w.x, w.b) && Unmerged(src, out, w.y, |src|)
  }

  ghost predicate AtTurn(src: seq<Elem>, out: seq<Elem>, w: Place, m: Merge)
    reads src`next, out`next, out`prev
  {
    Apart(src, out, w) && OutLinked(m.list, m.tail, out) && Pending(src, w.x, w.b) && Pending(src, w.y, |src|)
  }

  /** What the rest of the loop will put out. */
  ghost function Rest(cmp: Compare, src: seq<Elem>, w: Place): seq<Elem>
    requires w.x <= w.b <= w.y <= w.c <= |src|
  {
    Merged(cmp, src[w.x..w.b], src[w.y..w.c])
  }

  lemma RestP(cmp: Compare, src: seq<Elem>, w: Place)
    requires w.x < w.b <= w.y <= w.c <= |src| && (w.y == w.c || cmp(src[w.x], src[w.y]) <= 0)
    ensures Rest(cmp, src, w) == [src[w.x]] + Rest(cmp, src, w.(x := w.x + 1))
  {
    var ps, qs := src[w.x..w.b], src[w.y..w.c];
    assert ps[1..] == src[w.x + 1..w.b] && ps == [ps[0]] + ps[1..];
  }

  lemma RestQ(cmp: Compare, src: seq<Elem>, w: Place)
    requires w.x <= w.b <= w.y < w.c <= |src| && (w.x == w.b || cmp(src[w.x], src[w.y]) > 0)
    ensures Rest(cmp, src, w) == [src[w.y]] + Rest(cmp, src, w.(y := w.y + 1))
  {
    var ps, qs := src[w.x..w.b], src[w.y..w.c];
    assert qs[1..] == src[w.y + 1..w.c] && qs == [qs[0]] + qs[1..];
  }

  lemma ApartP(src: seq<Elem>, out: seq<Elem>, w: Place)
    requires Apart(src, out, w) && Distinct(src) && w.x < w.b <= w.y <= |src|
    ensures src[w.x] !in out && Apart(src, out + [src[w.x]], w.(x := w.x + 1))
  {
  }

  lemma ApartQ(src: seq<Elem>, out: seq<Elem>, w: Place)
    requires Apart(src, out, w) && Distinct(src) && w.x <= w.b <= w.y < |src|
    ensures src[w.y] !in out && Apart(src, out + [src[w.y]], w.(y := w.y + 1))
  {
  }

  /** An element of the old list joins the merged part; the rest of the old list is not touched. */
  method EmitAt(m: Merge, e: Elem, ghost src: seq<Elem>, ghost out: seq<Elem>, ghost w: Place)
    returns (list: Elem, tail: Elem)
    requires AtTurn(src, out, w, m) && e !in out && e in src
    modifies src`prev, src`next
    ensures OutLinked(list, tail, out + [e]) && Pending(src, w.x, w.b) && Pending(src, w.y, |src|)
  {
    assert m.tail != null ==> m.tail in out && m.tail in src;
    list, tail := Emit(m.list, m.tail, e, out);
    forall x | (w.x <= x < w.b || w.y <= x) && x < |src| ensures NextAt(src, x) {
      assert old(NextAt(src, x)) && src[x] !in out;
    }
  }

  lemma QLeft(src: seq<Elem>, w: Place, m: Merge, insize: nat)
    requires At(src, w, m, insize)
    ensures m.qsize > 0 && m.q != null <==> w.y < w.c
  {
  }

  /** The element at `p` goes out, and `p` goes on. */
  method TakeFromP(m: Merge, insize: nat, ghost src: seq<Elem>, ghost out: seq<Elem>, ghost w: Place)
    returns (m': Merge)
    requires At(src, w, m, insize) && AtTurn(src, out, w, m) && Distinct(src) && w.x < w.b
    modifies src`next, src`prev
    ensures var w' := w.(x := w.x + 1); At(src, w', m', insize) && AtTurn(src, out + [src[w.x]], w', m')
    ensures m'.psize + m'.qsize < m.psize + m.qsize
  {
    ApartP(src, out, w);
    assert NextAt(src, w.x);
    var p := m.p.next;
    var list, tail := EmitAt(m, m.p, src, out, w);
    m' := Merge(list, tail, p, m.psize - 1, m.q, m.qsize);
  }

  /** The element at `q` goes out, and `q` goes on. */
  method TakeFromQ(m: Merge, insize: nat, ghost src: seq<Elem>, ghost out: seq<Elem>, ghost w: Place)
    returns (m': Merge)
    requires At(src, w, m, insize) && AtTurn(src, out, w, m) && Distinct(src) && w.y < w.c
    modifies src`next, src`prev
    ensures var w' := w.(y := w.y + 1); At(src, w', m', insize) && AtTurn(src, out + [src[w.y]], w', m')
    ensures m'.psize + m'.qsize < m.psize + m.qsize
  {
    ApartQ(src, out, w);
    assert NextAt(src, w.y);
    var q := m.q.next;
    var list, tail := EmitAt(m, m.q, src, out, w);
    m' := Merge(list, tail, m.p, m.psize, q, m.qsize - 1);
  }

  /** One turn of the inner loop, with the branches of the source. */
  method MergeTurn(cmp: Compare, m: Merge, insize: nat, ghost src: seq<Elem>, ghost out: seq<Elem>, ghost w: Place)
    returns (m': Merge, ghost e: Elem, ghost w': Place)
    requires At(src, w, m, insize) && AtTurn(src, out, w, m) && Distinct(src)
    requires m.psize > 0 || (m.qsize > 0 && m.q != null)
    modifies src`next, src`prev
    ensures At(src, w', m', insize) && AtTurn(src, out + [e], w', m')
    ensures Rest(cmp, src, w) == [e] + Rest(cmp, src, w')
    ensures w'.a == w.a && w'.b == w.b && w'.c == w.c && m'.psize + m'.qsize < m.psize + m.qsize
  {
    QLeft(src, w, m, insize);
    var fromP := if m.psize == 0 then false else if m.qsize == 0 || m.q == null then true else cmp(m.p, m.q) <= 0;
    if fromP {
      RestP(cmp, src, w);
      e, w' := m.p, w.(x := w.x + 1);
      m' := TakeFromP(m, insize, src, out, w);
    } else {
      RestQ(cmp, src, w);
      e, w' := m.q, w.(y := w.y + 1);
      m' := TakeFromQ(m, insize, src, out, w);
    }
  }

  /** The inner loop of HASH_SRT: the next two runs of the old list are merged behind the merged part. */
  method MergeRuns(cmp: Compare, m0: Merge, insize: nat, ghost src: seq<Elem>, ghost out: seq<Elem>, ghost w0: Place)
    returns (m: Merge)
    requires At(src, w0, m0, insize) && AtTurn(src, out, w0, m0) && Distinct(src)
    modifies src`next, src`prev
    ensures var after := out + Rest(cmp, src, w0);
            && OutLinked(m.list, m.tail, after) && m.q == (if w0.c < |src| then src[w0.c] else null)
            && Pending(src, w0.c, |src|) && Unmerged(src, after, w0.c, |src|) && forall e <- after :: e in src
  {
    m := m0;
    ghost var w, done := w0, out;
    ghost var whole := out + Rest(cmp, src, w0);
    while m.psize > 0 || (m.qsize > 0 && m.q != null)
      invariant At(src, w, m, insize) && w.b == w0.b && w.c == w0.c
      invariant AtTurn(src, done, w, m) && whole == done + Rest(cmp, src, w)
      decreases m.psize + m.qsize
    {
      ghost var e, w';
      m, e, w' := MergeTurn(cmp, m, insize, src, done, w);
      Regroup(done, e, Rest(cmp, src, w'));
      done, w := done + [e], w';
    }
    NothingLeft(cmp, src, w, m, insize, done);
  }

  lemma Regroup(done: seq<Elem>, e: Elem, rest: seq<Elem>)
    ensures done + ([e] + rest) == (done + [e]) + rest
  {
  }

  lemma NothingLeft(cmp: Compare, src: seq<Elem>, w: Place, m: Merge, insize: nat, done: seq<Elem>)
    requires At(src, w, m, insize) && !(m.psize > 0 || (m.qsize > 0 && m.q != null))
    ensures w.y == w.c && done + Rest(cmp, src, w) == done
  {
    QLeft(src, w, m, insize);
    assert Rest(cmp, src, w) == [];
  }

  // ----- one pass over the list

  /** The loop that looks for the second run: `q` goes ahead of `p`, as far as a run is long. */
  method FindQ(p: Elem, insize: nat, ghost src: seq<Elem>, ghost a: nat) returns (q: Elem?, psize: nat)
    requires insize > 0 && a < |src| && src[a] == p && Pending(src, a, |src|)
    ensures var b := Min(a + insize, |src|); psize == b - a && q == if b < |src| then src[b] else null
  {
    q, psize := p, 0;
    while psize < insize
      invariant psize <= insize && a + psize < |src| && q == src[a + psize]
    {
      assert NextAt(src, a + psize);
      psize := psize + 1;
      q := q.next;
      if q == null {
        break;
      }
    }
  }

  /** What a pass has done so far, as a statement about runs: those of the old list from `a` on are left, and
      the merged part is made of runs twice as long. */
  ghost predicate Passed(cmp: Compare, order: seq<Elem>, src: seq<Elem>, out: seq<Elem>, insize: nat, a: nat) {
    && a == |out| <= |src| && multiset(out) == multiset(src[..a]) && Runs(cmp, order, src, insize, a)
    && if a < |src| then FullRuns(cmp, order, out, 2 * insize, 0, a) else Runs(cmp, order, out, 2 * insize, 0)
  }

  lemma TwoRuns(cmp: Compare, order: seq<Elem>, src: seq<Elem>, insize: nat, a: nat)
    requires Runs(cmp, order, src, insize, a) && a < |src| <= |order|
    ensures var b := Min(a + insize, |src|); var c := Min(b + insize, |src|);
            Run(cmp, order, src, a, b) && Run(cmp, order, src, b, c) && Runs(cmp, order, src, insize, c)
  {
    var b := Min(a + insize, |src|);
    if b == |src| {
      assert src[b..b] == [] && order[b..b] == [];
    }
  }

  /** Merging the next two runs makes one run of them behind the merged part. */
  lemma PassStep(cmp: Compare, order: seq<Elem>, src: seq<Elem>, out: seq<Elem>, insize: nat, a: nat, b: nat, c: nat)
    requires Passed(cmp, order, src, out, insize, a) && insize > 0 && a < |src| == |order| && Distinct(order)
    requires b == Min(a + insize, |src|) && c == Min(b + insize, |src|)
    ensures Passed(cmp, order, src, out + Merged(cmp, src[a..b], src[b..c]), insize, c)
  {
    var blk := Merged(cmp, src[a..b], src[b..c]);
    TwoRuns(cmp, order, src, insize, a);
    MergedRun(cmp, order, src, a, b, c, out);
    LongerRuns(cmp, order, out, blk, 2 * insize, |src|);
  }

  lemma LongerRuns(cmp: Compare, order: seq<Elem>, out: seq<Elem>, blk: seq<Elem>, size: nat, n: nat)
    requires var now := out + blk;
             size > 0 && |blk| <= size && (|now| < n ==> |blk| == size)
             && FullRuns(cmp, order, out, size, 0, |out|) && Run(cmp, order, now, |out|, |now|)
    ensures var now := out + blk;
            if |now| < n then FullRuns(cmp, order, now, size, 0, |now|) else Runs(cmp, order, now, size, 0)
  {
    FullRunsExtend(cmp, order, out, blk, size, 0, |out|);
    if |out + blk| < n {
      FullRunsSnoc(cmp, order, out + blk, size, 0, |out|);
    } else {
      FullRunsJoin(cmp, order, out + blk, size, 0, |out|);
    }
  }

  lemma PassedAll(cmp: Compare, order: seq<Elem>, src: seq<Elem>, out: seq<Elem>, insize: nat)
    requires Passed(cmp, order, src, out, insize, |src|)
    ensures Runs(cmp, order, out, 2 * insize, 0) && multiset(out) == multiset(src) && |out| == |src|
  {
    assert src[..|src|] == src;
  }

  /** One round of HASH_SRT: the runs of the list are merged in pairs. */
  method MergePass(cmp: Compare, head: Elem, insize: nat, ghost order: seq<Elem>, ghost src: seq<Elem>)
    returns (list: Elem, tail: Elem, nmerges: nat, ghost out: seq<Elem>)
    requires insize > 0 && InOrder(head, Last(src), src) && Distinct(order) && |src| == |order|
    requires Runs(cmp, order, src, insize, 0)
    modifies src`next, src`prev
    ensures InOrder(list, tail, out) && Runs(cmp, order, out, 2 * insize, 0)
    ensures multiset(out) == multiset(src) && |out| == |src|
    ensures if nmerges <= 1 then |src| <= 2 * insize else 2 * insize < |src|
  {
    var p: Elem?, first: Elem?, last: Elem? := head, null, null;
    ghost var a: nat := 0;
    nmerges, out := 0, [];
    StartPass(head, src);
    while p != null
      invariant Passed(cmp, order, src, out, insize, a) && p == if a < |src| then src[a] else null
      invariant OutLinked(first, last, out) && Pending(src, a, |src|) && Unmerged(src, out, a, |src|)
      invariant forall e <- out :: e in src
      invariant nmerges == 0 ==> a == 0
      invariant nmerges > 0 ==> a == |src| || a >= 2 * insize
      invariant if nmerges <= 1 then a <= 2 * insize else 2 * insize < |src|
      decreases |src| - a
    {
      nmerges := nmerges + 1;
      var q, psize := FindQ(p, insize, src, a);
      ghost var b := Min(a + insize, |src|);
      ghost var c := Min(b + insize, |src|);
      var m := MergeRuns(cmp, Merge(first, last, p, psize, q, insize), insize, src, out, Place(a, a, b, b, c));
      PassStep(cmp, order, src, out, insize, a, b, c);
      out := out + Merged(cmp, src[a..b], src[b..c]);
      first, last, p, a := m.list, m.tail, m.q, c;
    }
    PassedAll(cmp, order, src, out, insize);
    assert last in out && last in src;
    list, tail := first, last;
    EndList(list, tail, out);
  }

  lemma StartPass(head: Elem, src: seq<Elem>)
    requires InOrder(head, Last(src), src)
    ensures Pending(src, 0, |src|)
  {
    forall x | 0 <= x < |src| ensures NextAt(src, x) {
      assert ONode(src, x);
    }
  }

  /** The link behind the tail is cut. */
  method EndList(list: Elem, tail: Elem, ghost out: seq<Elem>)
    requires OutLinked(list, tail, out)
    modifies tail`next
    ensures InOrder(list, tail, out)
  {
    tail.next := null;
    forall k | 0 <= k < |out| ensures ONode(out, k) {
      assert old(OutNode(out, k));
    }
  }

  // ----- the sort

  /** HASH_SRT on the list: rounds of merging, with runs twice as long each time, until there is but one. */
  method SortList(cmp: Compare, head: Elem, ghost order: seq<Elem>)
    returns (list: Elem, tail: Elem, ghost out: seq<Elem>)
    requires InOrder(head, Last(order), order)
    modifies order`next, order`prev
    ensures InOrder(list, tail, out) && multiset(out) == multiset(order)
    ensures Preorder(cmp, order) ==> Ascending(cmp, order, out)
  {
    var insize, looping := 1, true;
    list, out := head, order;
    tail := head;
    SinglesAreRuns(cmp, order, 0);
    while looping
      invariant insize > 0 && |out| == |order| && multiset(out) == multiset(order) && Within(order, out)
      invariant InOrder(list, Last(out), out)
      invariant looping ==> Runs(cmp, order, out, insize, 0)
      invariant !looping ==> tail == Last(out) && (Preorder(cmp, order) ==> Ascending(cmp, order, out))
      decreases looping, |order| - insize
    {
      var nmerges;
      list, tail, nmerges, out := MergePass(cmp, list, insize, order, out);
      WithinSame(order, out);
      if nmerges <= 1 {
        looping := false;
        OneRun(cmp, order, out, 2 * insize);
      }
      insize := insize * 2;
    }
  }

  lemma WithinSame(order: seq<Elem>, s: seq<Elem>)
    requires multiset(s) == multiset(order)
    ensures Within(order, s)
  {
    MembersOf(s, order);
    forall i | 0 <= i < |s| ensures s[i] in order {
      assert s[i] in s;
    }
  }

  lemma OneRun(cmp: Compare, order: seq<Elem>, s: seq<Elem>, size: nat)
    requires Runs(cmp, order, s, size, 0) && |s| <= size
    ensures Preorder(cmp, order) ==> Ascending(cmp, order, s)
  {
    if s != [] {
      assert s[0..|s|] == s;
    }
  }

  lemma SameHead(cmp: Compare, order: seq<Elem>, s: seq<Elem>, t: seq<Elem>)
    requires s != [] && t != [] && (forall x :: x in s <==> x in t)
    requires Ascending(cmp, order, s) && Ascending(cmp, order, t)
    ensures s[0] == t[0]
  {
    assert s[0] in s && t[0] in t && t[0] in s && s[0] in t;
    var i :| 0 <= i < |s| && s[i] == t[0];
    var j :| 0 <= j < |t| && t[j] == s[0];
    assert i > 0 ==> Before(cmp, order, s[0], s[i]);
    assert j > 0 ==> Before(cmp, order, t[0], t[j]);
  }

  /** There is but one way to order the elements so, whatever the algorithm. */
  lemma {:induction false} SortedIsUnique(cmp: Compare, order: seq<Elem>, s: seq<Elem>, t: seq<Elem>)
    requires multiset(s) == multiset(t) && Ascending(cmp, order, s) && Ascending(cmp, order, t)
    ensures s == t
  {
    MembersOf(s, t);
    if s != [] {
      SameHead(cmp, order, s, t);
      AscendingTail(cmp, order, s);
      AscendingTail(cmp, order, t);
      assert s == [s[0]] + s[1..] && t == [t[0]] + t[1..];
      assert multiset(s[1..]) == multiset(s) - multiset{s[0]} && multiset(t[1..]) == multiset(t) - multiset{t[0]};
      SortedIsUnique(cmp, order, s[1..], t[1..]);
    }
  }

  lemma SameFiled(hash: Hash, order: seq<Elem>, out: seq<Elem>, chains: Chains, log2: nat, content: map<Key, Elem>)
    requires multiset(out) == multiset(order) && Distinct(out)
    requires Filed(order, chains, log2) && StandsFor(hash, order, content)
    ensures Filed(out, chains, log2) && StandsFor(hash, out, content)
    ensures ElementsOf(out) == ElementsOf(order) && |out| == |order|
  {
    MembersOf(out, order);
    forall b | 0 <= b < |chains| ensures ChainFiled(out, chains, log2, b) {
      assert ChainFiled(order, chains, log2, b);
    }
    forall e <- out ensures AtHome(chains, log2, e) {
      assert e in order;
    }
  }

  /** HASH_SRT: the list is sorted, and the table is as good as before and stands for the same map. */
  method Sort(t: Table, cmp: Compare)
    requires t.Valid()
    modifies t`head, t`tail, t`order, t.order`next, t.order`prev
    ensures t.Valid() && t.content == old(t.content) && multiset(t.order) == multiset(old(t.order))
    ensures Preorder(cmp, old(t.order)) ==> Ascending(cmp, old(t.order), t.order)
  {
    if t.head != null {
      ghost var order := t.order;
      assert t.Fsck();
      var head, tail, out := SortList(cmp, t.head, order);
      assert AllChains(t.buckets, t.chains, ElementsOf(order));
      t.head, t.tail, t.order := head, tail, out;
      SameFiled(t.hash, order, out, t.chains, t.log2, t.content);
    }
  }
}
