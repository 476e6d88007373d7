/** The two-region ring buffer of bipbuffer.c.

    `Bip` is the value of a buffer: its cursors and its bytes. The functions on it say
    what each operation does to that value, and the lemmas say what they mean for a reader
    and a writer: the buffer is a bounded FIFO of bytes. The class `BipBuffer` updates
    the same cursors and the same byte array in place. */
module BipBuffers {
  import opened Common

  datatype Bip = Bip(size: nat, aStart: nat, aEnd: nat, bEnd: nat, bInuse: bool, data: seq<byte>) {

    ghost predicate Valid() {
      && |data| == size
      && aStart <= aEnd <= size
      && (aStart == aEnd ==> aEnd == 0)
      && (if bInuse then bEnd <= aStart < aEnd else bEnd == 0 && aStart <= size - aEnd)
    }

    predicate IsEmpty() {
      aStart == aEnd
    }

    function Unused(): int {
      if bInuse then aStart - bEnd else size - aEnd
    }

    function Used(): int {
      aEnd - aStart + bEnd
    }

    /** The bytes of region A, the ones `PeekAll` shows. */
    ghost function RegionA(): seq<byte>
      requires Valid()
    {
      data[aStart..aEnd]
    }

    /** The bytes of region B, the ones that will be shown once region A is drained. */
    ghost function RegionB(): seq<byte>
      requires Valid()
    {
      data[..bEnd]
    }

    /** The queue: region A, then region B. */
    ghost function Contents(): seq<byte>
      requires Valid()
    {
      RegionA() + RegionB()
    }

    /** Turn region B on when there is less room behind A than in front of it. */
    function CheckForSwitchToB(): Bip {
      if size - aEnd < aStart - bEnd then this.(bInuse := true) else this
    }

    function WriteOffset(): nat {
      if bInuse then bEnd else aEnd
    }

    function Request(n: nat): Option<nat> {
      if Unused() < n then None else Some(WriteOffset())
    }

    /** A writer stores `bytes` through the pointer a request gave it. */
    function Fill(bytes: seq<byte>): Bip
      requires |data| == size && bEnd <= size && aEnd <= size
    {
      if Unused() < |bytes| || WriteOffset() + |bytes| > size then this
      else this.(data := data[..WriteOffset()] + bytes + data[WriteOffset() + |bytes|..])
    }

    function Push(n: nat): Bip {
      if Unused() < n then this
      else if bInuse then this.(bEnd := bEnd + n).CheckForSwitchToB()
      else this.(aEnd := aEnd + n).CheckForSwitchToB()
    }

    function Offer(bytes: seq<byte>): Bip
      requires |data| == size && bEnd <= size && aEnd <= size
    {
      Fill(bytes).Push(|bytes|)
    }

    /** Poll drops `n` bytes of region A. When that drains A, region B becomes region A. */
    function Poll(n: nat): Bip {
      if IsEmpty() || size < aStart + n then this
      else
        var s := this.(aStart := aStart + n);
        var t := if s.aStart != s.aEnd then s
                 else if bInuse then s.(aStart := 0, aEnd := bEnd, bEnd := 0, bInuse := false)
                 else s.(aStart := 0, aEnd := 0);
        t.CheckForSwitchToB()
    }
  }

  function Init(data: seq<byte>): Bip {
    Bip(|data|, 0, 0, 0, false, data)
  }

  // ----- the buffer is a bounded FIFO

  lemma PushIsAppend(s: Bip, n: nat)
    requires s.Valid()
    ensures var t := s.Push(n);
            && t.Valid()
            && t.Contents() == if s.Unused() < n then s.Contents()
                               else s.Contents() + s.data[s.WriteOffset()..s.WriteOffset() + n]
    // switching regions never costs a writer more room than it took
    ensures s.Unused() >= n ==> s.Push(n).Unused() >= s.Unused() - n
    ensures s.Push(n).aStart == s.aStart && s.Push(n).aEnd >= s.aEnd && s.Push(n).data == s.data
  {
    if s.Unused() >= n {
      PushCursors(s, n);
      PushRegions(s, s.Push(n), n);
    }
  }

  lemma PushRegions(s: Bip, t: Bip, n: nat)
    requires s.Valid() && t.Valid() && t == s.(aEnd := t.aEnd, bEnd := t.bEnd, bInuse := t.bInuse)
    requires if s.bInuse then t.aEnd == s.aEnd && t.bEnd == s.bEnd + n else t.aEnd == s.aEnd + n && t.bEnd == s.bEnd
    ensures s.WriteOffset() + n <= s.size
    ensures t.Contents() == s.Contents() + s.data[s.WriteOffset()..s.WriteOffset() + n]
  {
    if s.bInuse {
      assert t.RegionB() == s.RegionB() + s.data[s.bEnd..s.bEnd + n];
    } else {
      assert t.RegionA() == s.RegionA() + s.data[s.aEnd..s.aEnd + n];
    }
  }

  lemma PushCursors(s: Bip, n: nat)
    requires s.Valid() && s.Unused() >= n
    ensures var t := s.Push(n);
            && t.Valid() && t.Unused() >= s.Unused() - n && t == s.(aEnd := t.aEnd, bEnd := t.bEnd, bInuse := t.bInuse)
            && (if s.bInuse then t.aEnd == s.aEnd && t.bEnd == s.bEnd + n && t.bInuse
                else t.aEnd == s.aEnd + n && t.bEnd == s.bEnd)
  {
  }

  /** Bytes stored at `at` leave all others. */
  lemma StoredAt(d: seq<byte>, at: nat, bytes: seq<byte>, from: nat, to: nat)
    requires at + |bytes| <= |d| && from <= to <= |d| && (to <= at || at + |bytes| <= from)
    ensures var e := d[..at] + bytes + d[at + |bytes|..];
            |e| == |d| && e[at..at + |bytes|] == bytes && e[from..to] == d[from..to]
  {
  }

  lemma FillKeepsContents(s: Bip, bytes: seq<byte>)
    requires s.Valid()
    ensures var t := s.Fill(bytes);
            && t.Valid() && t.RegionA() == s.RegionA() && t.RegionB() == s.RegionB()
            && t == s.(data := t.data)
            && (s.Unused() >= |bytes| ==> t.data[s.WriteOffset()..s.WriteOffset() + |bytes|] == bytes)
  {
    if s.Unused() >= |bytes| {
      StoredAt(s.data, s.WriteOffset(), bytes, s.aStart, s.aEnd);
      StoredAt(s.data, s.WriteOffset(), bytes, 0, s.bEnd);
    }
  }

  lemma OfferIsEnqueue(s: Bip, bytes: seq<byte>)
    requires s.Valid()
    ensures var t := s.Offer(bytes);
            && t.Valid()
            && t.Contents() == (if s.Unused() < |bytes| then s.Contents() else s.Contents() + bytes)
            && (s.Unused() >= |bytes| ==> t.Unused() >= s.Unused() - |bytes|)
            && t.aStart == s.aStart && t.aEnd >= s.aEnd
    ensures var t := s.Offer(bytes);
            if s.Unused() < |bytes| then t == s
            else if s.bInuse then t.RegionA() == s.RegionA() && t.RegionB() == s.RegionB() + bytes
            else t.RegionA() == s.RegionA() + bytes && t.RegionB() == []
  {
    FillKeepsContents(s, bytes);
    PushIsAppend(s.Fill(bytes), |bytes|);
    var f, t := s.Fill(bytes), s.Offer(bytes);
    if s.Unused() >= |bytes| {
      assert f.data[s.WriteOffset()..s.WriteOffset() + |bytes|] == bytes;
      if s.bInuse {
        assert t.RegionB() == f.data[..s.bEnd] + bytes;
      } else {
        assert t.RegionA() == f.data[s.aStart..s.aEnd] + bytes;
      }
    }
  }

  /** A poll of at most region A drops exactly that prefix of the queue. A longer poll that the
      bounds test lets through leaves the cursors crossed. */
  lemma PollIsDequeue(s: Bip, n: nat)
    requires s.Valid()
    ensures s.Poll(n).Valid() <==> s.IsEmpty() || n <= s.aEnd - s.aStart || s.size < s.aStart + n
    ensures !s.IsEmpty() && n <= s.aEnd - s.aStart ==>
              && s.Poll(n).Contents() == s.Contents()[n..]
              && s.Contents()[..n] == s.data[s.aStart..s.aStart + n]
    ensures var t := s.Poll(n);
            !s.IsEmpty() && n <= s.aEnd - s.aStart ==>
              if n < s.aEnd - s.aStart then t.RegionA() == s.RegionA()[n..] && t.RegionB() == s.RegionB()
              else t.RegionA() == s.RegionB() && t.RegionB() == []
  {
    if !s.IsEmpty() && n <= s.aEnd - s.aStart {
      PollRegions(s, s.Poll(n), n);
    }
  }

  lemma PollRegions(s: Bip, t: Bip, n: nat)
    requires s.Valid() && t.Valid() && n <= s.aEnd - s.aStart && t.data == s.data && t.size == s.size
    requires if n < s.aEnd - s.aStart then t.aStart == s.aStart + n && t.aEnd == s.aEnd && t.bEnd == s.bEnd
             else t.aStart == 0 && t.aEnd == s.bEnd && t.bEnd == 0
    ensures t.Contents() == s.Contents()[n..] && s.Contents()[..n] == s.data[s.aStart..s.aStart + n]
    ensures if n < s.aEnd - s.aStart then t.RegionA() == s.RegionA()[n..] && t.RegionB() == s.RegionB()
            else t.RegionA() == s.RegionB() && t.RegionB() == []
  {
    if n < s.aEnd - s.aStart {
      assert t.RegionA() == s.RegionA()[n..];
    } else {
      assert s.Contents()[n..] == s.RegionB();
    }
  }

  /** A byte of neither region. */
  predicate Free(s: Bip, i: nat) {
    i < s.size && !(s.aStart <= i < s.aEnd) && !(i < s.bEnd)
  }

  /** A request is granted exactly if the bytes behind the region that is written are inside the buffer and of neither
      region, and it is granted there. */
  lemma RequestAnswers(s: Bip, n: nat)
    requires s.Valid()
    ensures var end := if s.bInuse then s.bEnd else s.aEnd;
            && (s.Request(n).Some? ==> s.Request(n).value == end)
            && (s.Request(n).Some? <==> forall i {:trigger Free(s, i)} :: end <= i < end + n ==> Free(s, i))
  {
    var end := if s.bInuse then s.bEnd else s.aEnd;
    var limit := if s.bInuse then s.aStart else s.size;
    if end + n > limit {
      assert !Free(s, limit);
    }
  }

  /** A drained buffer has its whole size free again, and only a drained one has nothing used. */
  lemma DrainedMeansAllFree(s: Bip)
    requires s.Valid()
    ensures s.IsEmpty() <==> s.Contents() == []
    ensures s.IsEmpty() ==> s.Unused() == s.size
    ensures s.Used() == |s.Contents()| && s.Used() + s.Unused() <= s.size
  {
  }

  // ----- a reader uses peeked bytes while writers go on

  datatype WriterOp = DoFill(bytes: seq<byte>) | DoPush(n: nat) | DoOffer(bytes: seq<byte>)

  ghost function Apply(s: Bip, op: WriterOp): (t: Bip)
    requires s.Valid()
    ensures t.Valid()
  {
    match op
    case DoFill(bytes) => FillKeepsContents(s, bytes); s.Fill(bytes)
    case DoPush(n) => PushIsAppend(s, n); s.Push(n)
    case DoOffer(bytes) => OfferIsEnqueue(s, bytes); s.Offer(bytes)
  }

  ghost function Run(s: Bip, ops: seq<WriterOp>): (t: Bip)
    requires s.Valid()
    ensures t.Valid()
    decreases |ops|
  {
    if ops == [] then s else Run(Apply(s, ops[0]), ops[1..])
  }

  lemma FillKeepsPeeked(s: Bip, bytes: seq<byte>, from: nat, to: nat)
    requires s.Valid() && from == s.aStart <= to <= s.aEnd
    ensures var t := s.Fill(bytes);
            t.aStart == from && to <= s.aEnd <= t.aEnd && t.size == s.size && t.data[from..to] == s.data[from..to]
  {
  }

  lemma PushKeepsPeeked(s: Bip, n: nat, from: nat, to: nat)
    requires s.Valid() && from == s.aStart <= to <= s.aEnd
    ensures var t := s.Push(n);
            t.aStart == from && to <= s.aEnd <= t.aEnd && t.size == s.size && t.data == s.data
  {
  }

  /** What a peek showed stays in place, byte for byte, under one step of a writer. */
  lemma StepKeepsPeeked(s: Bip, op: WriterOp, from: nat, to: nat)
    requires s.Valid() && from == s.aStart <= to <= s.aEnd
    ensures var t := Apply(s, op);
            && t.aStart == from && to <= s.aEnd <= t.aEnd && t.size == s.size
            && t.data[from..to] == s.data[from..to]
  {
    match op
    case DoFill(bytes) =>
      FillKeepsPeeked(s, bytes, from, to);
    case DoPush(n) =>
      PushKeepsPeeked(s, n, from, to);
    case DoOffer(bytes) =>
      FillKeepsPeeked(s, bytes, from, to);
      if s.Unused() >= |bytes| {
        FillKeepsContents(s, bytes);
        PushKeepsPeeked(s.Fill(bytes), |bytes|, from, to);
      }
  }

  lemma {:induction false} RunKeepsPeeked(s: Bip, ops: seq<WriterOp>, from: nat, to: nat)
    requires s.Valid() && from == s.aStart <= to <= s.aEnd
    ensures var t := Run(s, ops);
            && t.aStart == from && to <= s.aEnd <= t.aEnd && t.size == s.size
            && t.data[from..to] == s.data[from..to]
    decreases |ops|
  {
    if ops != [] {
      StepKeepsPeeked(s, ops[0], from, to);
      RunKeepsPeeked(Apply(s, ops[0]), ops[1..], from, to);
    }
  }

  lemma PollSplits(s: Bip, n: nat)
    requires s.Valid() && !s.IsEmpty() && n <= s.aEnd - s.aStart
    ensures s.Poll(n).Valid() && s.Contents() == s.data[s.aStart..s.aStart + n] + s.Poll(n).Contents()
  {
    PollIsDequeue(s, n);
    var c := s.Contents();
    assert c == c[..n] + c[n..];
  }

  /** A poll that is granted gives the bytes it drops. */
  lemma PollAnswers(s: Bip, n: nat)
    requires s.Valid()
    ensures s.Contents() != [] <==> s.aStart != s.aEnd
    ensures s.Poll(n).Valid() <==> s.aStart == s.aEnd || s.size < s.aStart + n || n <= s.aEnd - s.aStart
    ensures s.aStart != s.aEnd && n <= s.aEnd - s.aStart ==>
              s.Contents() == s.data[s.aStart..s.aEnd][..n] + s.Poll(n).Contents()
  {
    DrainedMeansAllFree(s);
    PollIsDequeue(s, n);
    if s.aStart != s.aEnd && n <= s.aEnd - s.aStart {
      PollSplits(s, n);
      assert s.data[s.aStart..s.aEnd][..n] == s.data[s.aStart..s.aStart + n];
    }
  }

  /** Peek everything, let writers take any steps, poll what was peeked: the poll succeeds and
      removes exactly the bytes the peek showed. */
  lemma PeekThenPoll(s: Bip, ops: seq<WriterOp>)
    requires s.Valid() && !s.IsEmpty()
    ensures var t, peeked := Run(s, ops), s.RegionA();
            var u := t.Poll(|peeked|);
            && u.Valid() && s.aEnd <= t.size == |t.data|
            && t.data[s.aStart..s.aEnd] == peeked
            && t.Contents() == peeked + u.Contents()
  {
    RunKeepsPeeked(s, ops, s.aStart, s.aEnd);
    PollPeeked(Run(s, ops), s.aStart, s.aEnd, s.RegionA());
  }

  lemma PollPeeked(t: Bip, from: nat, to: nat, peeked: seq<byte>)
    requires t.Valid() && t.aStart == from < to <= t.aEnd && t.data[from..to] == peeked
    ensures t.Poll(|peeked|).Valid() && t.Contents() == peeked + t.Poll(|peeked|).Contents()
  {
    assert |peeked| == to - from;
    PollSplits(t, |peeked|);
  }

  // ----- the buffer itself

  class BipBuffer {
    const size: nat
    var aStart: nat
    var aEnd: nat
    var bEnd: nat
    var bInuse: bool
    const data: array<byte>

    ghost function State(): Bip
      reads this, data
    {
      Bip(size, aStart, aEnd, bEnd, bInuse, data[..])
    }

    ghost predicate Valid()
      reads this, data
    {
      State().Valid()
    }

    ghost function Contents(): seq<byte>
      reads this, data
      requires Valid()
    {
      State().Contents()
    }

    constructor (n: nat)
      ensures Valid() && fresh(data) && size == n && Contents() == []
      ensures State() == Init(data[..])
    {
      size := n;
      aStart, aEnd, bEnd, bInuse := 0, 0, 0, false;
      data := new byte[n](_ => 0);
    }

    method Unused() returns (n: int)
      requires Valid()
      ensures n == State().Unused()
      ensures 0 <= n <= size - |Contents()|
    {
      if bInuse {
        n := aStart - bEnd;
      } else {
        n := size - aEnd;
      }
    }

    method Used() returns (n: int)
      requires Valid()
      ensures n == |Contents()|
    {
      n := aEnd - aStart + bEnd;
    }

    method IsEmpty() returns (b: bool)
      requires Valid()
      ensures b <==> Contents() == []
    {
      b := aStart == aEnd;
    }

    method CheckForSwitchToB()
      modifies this`bInuse
      ensures State() == old(State()).CheckForSwitchToB()
    {
      if size - aEnd < aStart - bEnd {
        bInuse := true;
      }
    }

    /** The offset of `n` free contiguous bytes, outside both regions. */
    method Request(n: nat) returns (r: Option<nat>)
      requires Valid()
      ensures r == State().Request(n)
      ensures r.Some? ==> r.value + n <= size && bEnd <= r.value && (aEnd <= r.value || r.value + n <= aStart)
    {
      var free := Unused();
      if free < n {
        return None;
      }
      if bInuse {
        return Some(bEnd);
      } else {
        return Some(aEnd);
      }
    }

    method Push(n: nat) returns (r: nat)
      requires Valid()
      modifies this
      ensures Valid() && State() == old(State()).Push(n) && data[..] == old(data[..])
      ensures r == if old(State()).Unused() < n then 0 else n
    {
      var free := Unused();
      PushIsAppend(State(), n);
      if free < n {
        return 0;
      }
      Extend(n);
      return n;
    }

    /** The region that is written grows over the next `n` bytes. */
    method Extend(n: nat)
      requires State().Push(n).Valid() && State().Unused() >= n
      modifies `aEnd, `bEnd, `bInuse
      ensures Valid() && State() == old(State()).Push(n)
    {
      if bInuse {
        bEnd := bEnd + n;
      } else {
        aEnd := aEnd + n;
      }
      CheckForSwitchToB();
    }

    /** The caller of `Request` stores its bytes. */
    method Store(at: nat, bytes: seq<byte>)
      requires Valid() && State().Request(|bytes|) == Some(at)
      modifies data
      ensures Valid() && State() == old(State()).Fill(bytes)
      ensures Contents() == old(Contents())
    {
      FillKeepsContents(State(), bytes);
      CopyIn(at, bytes);
    }

    /** memcpy. */
    method CopyIn(at: nat, bytes: seq<byte>)
      requires at + |bytes| <= data.Length
      modifies data
      ensures data[..] == old(data[..])[..at] + bytes + old(data[..])[at + |bytes|..]
    {
      forall i | at <= i < at + |bytes| {
        data[i] := bytes[i - at];
      }
    }

    method Offer(bytes: seq<byte>) returns (r: nat)
      requires Valid()
      modifies this, data
      ensures Valid() && State() == old(State()).Offer(bytes)
      ensures Contents() == if old(State()).Unused() < |bytes| then old(Contents()) else old(Contents()) + bytes
      ensures r == if old(State()).Unused() < |bytes| then 0 else |bytes|
    {
      OfferIsEnqueue(State(), bytes);
      var free := Unused();
      if free < |bytes| {
        return 0;
      }
      if bInuse {
        Store(bEnd, bytes);
      } else {
        Store(aEnd, bytes);
      }
      Extend(|bytes|);
      return |bytes|;
    }

    method Peek(n: nat) returns (r: Option<nat>)
      requires Valid()
      ensures r.Some? <==> aStart + n <= size && Contents() != []
      ensures r.Some? ==> r.value == aStart
    {
      if size < aStart + n {
        return None;
      }
      if aStart == aEnd {
        return None;
      }
      return Some(aStart);
    }

    /** Offset and length of region A; nothing is left out unless it sits in region B. */
    method PeekAll() returns (r: Option<nat>, n: nat)
      requires Valid()
      ensures r.None? <==> Contents() == []
      ensures n == |State().RegionA()|
      ensures r.Some? ==> r.value == aStart && n > 0
    {
      if aStart == aEnd {
        return None, 0;
      }
      return Some(aStart), aEnd - aStart;
    }

    method Poll(n: nat) returns (r: Option<nat>)
      requires Valid()
      modifies this
      ensures State() == old(State()).Poll(n) && data[..] == old(data[..])
      ensures Valid() <==> r.None? || n <= old(aEnd - aStart)
      ensures r == if old(Contents()) != [] && old(aStart) + n <= size then Some(old(aStart)) else None
      ensures r.Some? && n <= old(aEnd - aStart) ==>
                old(Contents()) == old(data[aStart..aEnd])[..n] + Contents()
    {
      PollAnswers(State(), n);
      if aStart == aEnd {
        r := None;
      } else if size < aStart + n {
        r := None;
      } else {
        r := Some(aStart);
        Advance(n);
      }
    }

    method Advance(n: nat)
      requires aStart != aEnd && aStart + n <= size
      modifies this
      ensures State() == old(State()).Poll(n)
    {
      aStart := aStart + n;
      if aStart == aEnd {
        if bInuse {
          aStart, aEnd := 0, bEnd;
          bEnd, bInuse := 0, false;
        } else {
          aStart, aEnd := 0, 0;
        }
      }
      CheckForSwitchToB();
    }
  }
}
