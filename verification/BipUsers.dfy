/** Producers and consumers of bip buffers: a worker's log buffer (logger.c) and its queue of
    LRU bumps (items.c). Workers append entries under the buffer's mutex. The reader looks at
    the buffer once under the mutex, walks the bytes it was shown without it, and takes the
    mutex again to drop them. */
module BipUsers {
  import opened Common
  import opened BipBuffers

  datatype Kind = LogEntries | BumpEntries

  /** Sizes of the C structs on a 64-bit little-endian machine. */
  const LOGENTRY_HEADER := 40
  const LOGENTRY_SIZE_FIELD := 32
  const BUMP_ENTRY := 16
  const ITEM_REF := 8

  type Entry = seq<byte>

  function LittleEndian4(b: seq<byte>, at: nat): nat
    requires at + 4 <= |b|
  {
    b[at] as int + 0x100 * b[at + 1] as int + 0x1_0000 * b[at + 2] as int + 0x100_0000 * b[at + 3] as int
  }

  /** The length a reader gives the entry at `pos`: from its header, or fixed. */
  function EntryLen(k: Kind, b: seq<byte>, pos: nat): nat
    requires k.LogEntries? ==> pos + LOGENTRY_HEADER <= |b|
  {
    match k
    case LogEntries => LOGENTRY_HEADER + LittleEndian4(b, pos + LOGENTRY_SIZE_FIELD)
    case BumpEntries => BUMP_ENTRY
  }

  /** An entry whose header tells its own length. */
  predicate WellFormed(k: Kind, e: Entry) {
    && (k.LogEntries? ==> LOGENTRY_HEADER <= |e|)
    && |e| == EntryLen(k, e, 0)
  }

  ghost predicate AllWellFormed(k: Kind, es: seq<Entry>) {
    forall i :: 0 <= i < |es| ==> WellFormed(k, es[i])
  }

  // ----- entry boundaries survive concatenation

  /** Where the entry number `i` starts in the bytes of `es`. */
  ghost function Offset(es: seq<Entry>, i: nat): nat
    requires i <= |es|
  {
    |Flatten(es[..i])|
  }

  lemma EntryAtOffset(k: Kind, es: seq<Entry>, i: nat)
    requires i < |es| && AllWellFormed(k, es)
    ensures Offset(es, i + 1) == Offset(es, i) + |es[i]| <= |Flatten(es)|
    ensures Flatten(es)[Offset(es, i)..Offset(es, i + 1)] == es[i]
    ensures k.LogEntries? ==> Offset(es, i) + LOGENTRY_HEADER <= |Flatten(es)|
    ensures EntryLen(k, Flatten(es), Offset(es, i)) == |es[i]|
  {
    FlattenSplit(es, i + 1);
    assert es[..i + 1] == es[..i] + [es[i]];
    FlattenSnoc(es[..i], es[i]);
    assert WellFormed(k, es[i]);
    EntryWithin(k, Flatten(es[..i]), es[i], Flatten(es[i + 1..]), Flatten(es));
  }

  lemma EntryWithin(k: Kind, before: seq<byte>, e: Entry, behind: seq<byte>, all: seq<byte>)
    requires all == (before + e) + behind && WellFormed(k, e)
    ensures |before| + |e| <= |all| && all[|before|..|before| + |e|] == e
    ensures k.LogEntries? ==> |before| + LOGENTRY_HEADER <= |all|
    ensures EntryLen(k, all, |before|) == |e|
  {
    assert forall j :: 0 <= j < |e| ==> all[|before| + j] == e[j];
  }

  lemma OffsetsGrow(k: Kind, es: seq<Entry>, i: nat, j: nat)
    requires i <= j <= |es| && AllWellFormed(k, es)
    ensures Offset(es, i) <= Offset(es, j) <= |Flatten(es)|
    ensures i < j ==> Offset(es, i) < Offset(es, j)
    decreases j - i
  {
    FlattenSplit(es, j);
    if i < j {
      EntryAtOffset(k, es, i);
      OffsetsGrow(k, es, i + 1, j);
    }
  }

  /** A reader of the whole array sees at `from + pos` what sits at `pos` in the span. */
  lemma SpanInArray(k: Kind, data: seq<byte>, from: nat, span: seq<byte>, pos: nat, len: nat)
    requires from + |span| <= |data| && data[from..from + |span|] == span && pos + len <= |span|
    ensures data[from + pos..from + pos + len] == span[pos..pos + len]
    ensures k.LogEntries? && LOGENTRY_HEADER <= len ==>
              EntryLen(k, data, from + pos) == EntryLen(k, span, pos)
  {
    assert forall j :: 0 <= j < |span| ==> data[from + j] == span[j];
  }

  // ----- the parsing loops

  /** The loop of the reader over a span of bytes that is made of whole entries, for as long as there is a watcher:
      the last one leaves when `limit` entries have been read. It finds exactly the entries up to there, in order,
      and ends on the boundary behind them: at the end of the span unless the last watcher left before. */
  method ParseSpan(k: Kind, span: seq<byte>, limit: nat, ghost es: seq<Entry>) returns (found: seq<Entry>, pos: nat)
    requires AllWellFormed(k, es) && span == Flatten(es)
    ensures found == es[..if limit < |es| then limit else |es|]
    ensures pos == Offset(es, |found|) <= |span| && (pos == |span| <==> limit >= |es|)
  {
    found, pos := [], 0;
    OffsetsGrow(k, es, 0, |es|);
    assert es[..|es|] == es;
    while pos < |span| && |found| < limit
      invariant |found| <= limit && |found| <= |es| && found == es[..|found|]
      invariant pos == Offset(es, |found|) <= |span|
    {
      if |found| == |es| {
        assert false;
      }
      EntryAtOffset(k, es, |found|);
      var len := EntryLen(k, span, pos);
      ghost var i := |found|;
      found := found + [span[pos..pos + len]];
      assert es[..i + 1] == es[..i] + [es[i]];
      pos := pos + len;
      OffsetsGrow(k, es, |found|, |es|);
    }
    if |found| < |es| {
      OffsetsGrow(k, es, |found|, |es|);
    }
  }

  // ----- workers and the reader, interleaved

  /** `parsed` and `peeked` count the entries walked so far and shown by the peek. */
  datatype Reader = Idle | Reading(from: nat, size: nat, pos: nat, parsed: nat, peeked: nat)

  /** `inA` and `inB` are the entries behind the two regions, `produced` all entries ever accepted,
      `removed` those the reader has walked, `held` the references taken for queued items. */
  datatype Sys = Sys(buf: Bip, reader: Reader, inA: seq<Entry>, inB: seq<Entry>,
                     produced: seq<Entry>, removed: seq<Entry>, dropped: nat,
                     held: multiset<seq<byte>>)

  datatype Step =
    | Produce(e: Entry, requested: nat) // ask for `requested` bytes, use |e| of them
    | Peek
    | ParseOne
    | PollAll

  function Pointer(e: Entry): seq<byte> {
    if |e| < ITEM_REF then e else e[..ITEM_REF]
  }

  ghost function Pointers(es: seq<Entry>): multiset<seq<byte>> {
    if es == [] then multiset{} else multiset{Pointer(es[0])} + Pointers(es[1..])
  }

  lemma {:induction false} PointersAppend(es: seq<Entry>, e: Entry)
    ensures Pointers(es + [e]) == Pointers(es) + multiset{Pointer(e)}
  {
    if es == [] {
      assert es + [e] == [e];
      assert Pointers([e]) == multiset{Pointer(e)} + Pointers([]);
    } else {
      PointersAppend(es[1..], e);
      assert (es + [e])[1..] == es[1..] + [e];
    }
  }

  function Start(data: seq<byte>): Sys {
    Sys(Init(data), Idle, [], [], [], [], 0, multiset{})
  }

  ghost predicate Enabled(k: Kind, s: Sys, step: Step) {
    match step
    case Produce(e, requested) => WellFormed(k, e) && |e| <= requested
    case Peek => s.reader.Idle? && !s.buf.IsEmpty()
    case ParseOne => s.reader.Reading? && s.reader.pos < s.reader.size
    case PollAll => s.reader.Reading? && s.reader.pos >= s.reader.size
  }

  /** An entry that fits is stored through the requested pointer, then pushed; its item, for a bump,
      keeps a reference while it is queued. An entry that does not fit is dropped. */
  ghost function ProduceStep(s: Sys, e: Entry, requested: nat): Sys
    requires s.buf.Valid()
  {
    var taken := s.held + multiset{Pointer(e)};
    if s.buf.Request(requested).None? then s.(dropped := s.dropped + 1, held := taken - multiset{Pointer(e)})
    else
      var b := s.buf.Fill(e).Push(|e|);
      s.(buf := b, produced := s.produced + [e], held := taken,
         inA := if s.buf.bInuse then s.inA else s.inA + [e],
         inB := if s.buf.bInuse then s.inB + [e] else s.inB)
  }

  ghost function PollStep(s: Sys): Sys
    requires s.reader.Reading? && s.reader.peeked <= |s.inA|
  {
    var rest := s.inA[s.reader.peeked..];
    s.(buf := s.buf.Poll(s.reader.size), reader := Idle,
       inA := if rest == [] then s.inB else rest,
       inB := if rest == [] then [] else s.inB)
  }

  /** One step of the reader reads the live buffer, not a copy taken at the peek. */
  ghost function ParseStep(k: Kind, s: Sys): Sys
    requires s.reader.Reading?
    requires var at := s.reader.from + s.reader.pos;
             && (k.LogEntries? ==> at + LOGENTRY_HEADER <= |s.buf.data|)
             && at + EntryLen(k, s.buf.data, at) <= |s.buf.data|
  {
    var at := s.reader.from + s.reader.pos;
    var len := EntryLen(k, s.buf.data, at);
    var e := s.buf.data[at..at + len];
    s.(reader := s.reader.(pos := s.reader.pos + len, parsed := s.reader.parsed + 1),
       removed := s.removed + [e], held := s.held - multiset{Pointer(e)})
  }

  /** The entries that are queued and not yet walked by the reader. */
  ghost function Pending(s: Sys): seq<Entry>
    requires s.reader.Reading? ==> s.reader.parsed <= |s.inA|
  {
    (if s.reader.Reading? then s.inA[s.reader.parsed..] else s.inA) + s.inB
  }

  /** The two regions hold whole entries. */
  ghost predicate Framed(k: Kind, b: Bip, inA: seq<Entry>, inB: seq<Entry>) {
    && b.Valid()
    && AllWellFormed(k, inA) && AllWellFormed(k, inB)
    && b.RegionA() == Flatten(inA) && b.RegionB() == Flatten(inB)
  }

  /** The reader stands on an entry boundary of a span that starts region A. */
  ghost predicate Aligned(r: Reader, from: nat, inA: seq<Entry>) {
    r.Reading? ==>
      && r.parsed <= r.peeked <= |inA|
      && r.from == from
      && r.pos == Offset(inA, r.parsed)
      && r.size == Offset(inA, r.peeked) > 0
  }

  /** Nothing is lost, repeated or out of order, and each pending entry holds a reference. */
  ghost predicate Balanced(s: Sys) {
    && (s.reader.Reading? ==> s.reader.parsed <= |s.inA|)
    && s.produced == s.removed + Pending(s)
    && s.held == Pointers(Pending(s))
  }

  ghost predicate Inv(k: Kind, s: Sys) {
    Framed(k, s.buf, s.inA, s.inB) && Aligned(s.reader, s.buf.aStart, s.inA) && Balanced(s)
  }

  ghost function Next(k: Kind, s: Sys, step: Step): Sys
    requires Inv(k, s) && Enabled(k, s, step)
  {
    match step
    case Produce(e, requested) => ProduceStep(s, e, requested)
    case Peek =>
      s.(reader := Reading(s.buf.aStart, s.buf.aEnd - s.buf.aStart, 0, 0, |s.inA|))
    case ParseOne => NextEntry(k, s.buf, s.reader, s.inA, s.inB); ParseStep(k, s)
    case PollAll => PollStep(s)
  }

  ghost predicate EntryAt(k: Kind, b: seq<byte>, at: nat, e: Entry) {
    && at + |e| <= |b|
    && b[at..at + |e|] == e
    && (k.LogEntries? ==> at + LOGENTRY_HEADER <= |b|)
    && EntryLen(k, b, at) == |e|
  }

  /** The bytes under the reader's position are the next entry, whole and unchanged. */
  lemma NextEntry(k: Kind, b: Bip, r: Reader, inA: seq<Entry>, inB: seq<Entry>)
    requires Framed(k, b, inA, inB) && Aligned(r, b.aStart, inA)
    requires r.Reading? && r.pos < r.size
    ensures r.parsed < r.peeked
    ensures EntryAt(k, b.data, r.from + r.pos, inA[r.parsed])
    ensures r.pos + |inA[r.parsed]| == Offset(inA, r.parsed + 1) <= r.size
  {
    OffsetsGrow(k, inA, r.parsed, r.peeked);
    OffsetsGrow(k, inA, r.parsed + 1, r.peeked);
    EntryInArray(k, b.data, r.from, inA, r.parsed);
  }

  lemma EntryInArray(k: Kind, data: seq<byte>, from: nat, es: seq<Entry>, i: nat)
    requires AllWellFormed(k, es) && i < |es|
    requires from + |Flatten(es)| <= |data| && data[from..from + |Flatten(es)|] == Flatten(es)
    ensures EntryAt(k, data, from + Offset(es, i), es[i])
    ensures Offset(es, i) + |es[i]| == Offset(es, i + 1)
  {
    EntryAtOffset(k, es, i);
    assert WellFormed(k, es[i]);
    SpanInArray(k, data, from, Flatten(es), Offset(es, i), |es[i]|);
  }

  lemma FlattenNonEmpty(k: Kind, es: seq<Entry>)
    requires AllWellFormed(k, es)
    ensures Flatten(es) == [] <==> es == []
  {
    if es != [] {
      OffsetsGrow(k, es, 0, |es|);
      assert es[..|es|] == es;
    }
  }

  lemma ProduceKeepsFrames(k: Kind, s: Sys, e: Entry, requested: nat)
    requires Framed(k, s.buf, s.inA, s.inB) && WellFormed(k, e) && |e| <= requested
    ensures var t := ProduceStep(s, e, requested);
            Framed(k, t.buf, t.inA, t.inB) && t.buf.aStart == s.buf.aStart
  {
    if s.buf.Request(requested).Some? {
      OfferIsEnqueue(s.buf, e);
      FlattenSnoc(s.inA, e);
      FlattenSnoc(s.inB, e);
    }
  }

  lemma ProduceKeepsBalance(s: Sys, t: Sys, e: Entry)
    requires Balanced(s) && (s.reader.Reading? ==> s.reader.parsed <= |s.inA|)
    requires t.reader == s.reader && t.removed == s.removed
    requires || (t.inA == s.inA && t.inB == s.inB + [e])
             || (t.inA == s.inA + [e] && t.inB == s.inB == [])
    requires t.produced == s.produced + [e] && t.held == s.held + multiset{Pointer(e)}
    ensures Balanced(t)
  {
    PendingGrows(s, t, e);
    PointersAppend(Pending(s), e);
  }

  lemma PendingGrows(s: Sys, t: Sys, e: Entry)
    requires s.reader.Reading? ==> s.reader.parsed <= |s.inA|
    requires t.reader == s.reader
    requires || (t.inA == s.inA && t.inB == s.inB + [e])
             || (t.inA == s.inA + [e] && t.inB == s.inB == [])
    ensures Pending(t) == Pending(s) + [e]
  {
  }

  lemma AlignedGrows(r: Reader, from: nat, inA: seq<Entry>, e: Entry)
    requires Aligned(r, from, inA)
    ensures Aligned(r, from, inA + [e])
  {
    if r.Reading? {
      assert (inA + [e])[..r.parsed] == inA[..r.parsed];
      assert (inA + [e])[..r.peeked] == inA[..r.peeked];
    }
  }

  /** A new entry ends one region's entries, region A's only while region B is empty. */
  lemma ProduceQueues(k: Kind, s: Sys, e: Entry, requested: nat)
    requires Framed(k, s.buf, s.inA, s.inB) && WellFormed(k, e) && |e| <= requested
    requires s.buf.Request(requested).Some?
    ensures var t := ProduceStep(s, e, requested);
            && t.reader == s.reader && t.removed == s.removed
            && t.produced == s.produced + [e] && t.held == s.held + multiset{Pointer(e)}
            && (|| (t.inA == s.inA && t.inB == s.inB + [e])
                || (t.inA == s.inA + [e] && t.inB == s.inB == []))
  {
    FlattenNonEmpty(k, s.inB);
  }

  lemma ProduceKeepsInv(k: Kind, s: Sys, e: Entry, requested: nat)
    requires Inv(k, s) && WellFormed(k, e) && |e| <= requested
    ensures Inv(k, ProduceStep(s, e, requested))
  {
    ProduceKeepsFrames(k, s, e, requested);
    var t := ProduceStep(s, e, requested);
    if s.buf.Request(requested).Some? {
      ProduceQueues(k, s, e, requested);
      ProduceKeepsBalance(s, t, e);
      AlignedGrows(s.reader, s.buf.aStart, s.inA, e);
    }
  }

  lemma PollKeepsInv(k: Kind, s: Sys)
    requires Inv(k, s) && s.reader.Reading? && s.reader.pos >= s.reader.size
    ensures s.reader.pos == s.reader.size && s.reader.parsed == s.reader.peeked
    ensures Inv(k, PollStep(s))
  {
    var r := s.reader;
    OffsetsGrow(k, s.inA, r.parsed, r.peeked);
    PollKeepsFrames(k, s);
    assert Pending(PollStep(s)) == Pending(s);
  }

  lemma PollKeepsFrames(k: Kind, s: Sys)
    requires Framed(k, s.buf, s.inA, s.inB) && Aligned(s.reader, s.buf.aStart, s.inA) && s.reader.Reading?
    ensures var t := PollStep(s); Framed(k, t.buf, t.inA, t.inB)
  {
    var r := s.reader;
    FlattenSplit(s.inA, r.peeked);
    FlattenNonEmpty(k, s.inA[r.peeked..]);
    PollIsDequeue(s.buf, r.size);
    assert s.buf.RegionA()[r.size..] == Flatten(s.inA[r.peeked..]);
  }

  lemma ParseKeepsInv(k: Kind, s: Sys)
    requires Inv(k, s) && s.reader.Reading? && s.reader.pos < s.reader.size
    ensures Inv(k, Next(k, s, ParseOne))
  {
    NextEntry(k, s.buf, s.reader, s.inA, s.inB);
    ParseTakes(k, s, s.inA[s.reader.parsed]);
    ParseKeepsBalance(s, Next(k, s, ParseOne));
  }

  lemma ParseTakes(k: Kind, s: Sys, e: Entry)
    requires s.reader.Reading? && EntryAt(k, s.buf.data, s.reader.from + s.reader.pos, e)
    ensures ParseStep(k, s) == s.(reader := s.reader.(pos := s.reader.pos + |e|, parsed := s.reader.parsed + 1),
                                  removed := s.removed + [e], held := s.held - multiset{Pointer(e)})
  {
  }

  lemma ParseKeepsBalance(s: Sys, t: Sys)
    requires Balanced(s) && s.reader.Reading? && s.reader.parsed < |s.inA|
    requires t.reader.Reading? && t.reader == s.reader.(pos := t.reader.pos, parsed := s.reader.parsed + 1)
    requires t == s.(reader := t.reader, removed := s.removed + [s.inA[s.reader.parsed]],
                     held := s.held - multiset{Pointer(s.inA[s.reader.parsed])})
    ensures Balanced(t)
  {
    assert Pending(s) == [s.inA[s.reader.parsed]] + Pending(t);
    assert Pending(s)[1..] == Pending(t);
  }

  lemma PeekKeepsInv(k: Kind, s: Sys)
    requires Inv(k, s) && Enabled(k, s, Peek)
    ensures Inv(k, Next(k, s, Peek))
  {
    FlattenNonEmpty(k, s.inA);
    assert s.inA[..|s.inA|] == s.inA;
    assert s.inA[0..] == s.inA;
    assert Flatten(s.inA[..0]) == [];
  }

  lemma StepKeepsInv(k: Kind, s: Sys, step: Step)
    requires Inv(k, s) && Enabled(k, s, step)
    ensures Inv(k, Next(k, s, step))
  {
    match step
    case Produce(e, requested) => ProduceKeepsInv(k, s, e, requested);
    case Peek => PeekKeepsInv(k, s);
    case ParseOne => ParseKeepsInv(k, s);
    case PollAll => PollKeepsInv(k, s);
  }

  /** What the reader does alone: entries one after the other, to the end of its span. */
  ghost function ReadOn(k: Kind, s: Sys, n: nat): Sys
    requires Inv(k, s)
    decreases n
  {
    if n == 0 || !Enabled(k, s, ParseOne) then s
    else
      ParseKeepsInv(k, s);
      ReadOn(k, Next(k, s, ParseOne), n - 1)
  }

  /** The reader is at a later entry of the same span. */
  ghost predicate Further(s: Sys, t: Sys) {
    && s.reader.Reading? && t.buf == s.buf && t.inA == s.inA && t.inB == s.inB && t.produced == s.produced
    && t.reader.Reading? && s.reader.parsed <= t.reader.parsed <= t.reader.peeked == s.reader.peeked <= |s.inA|
    && t.reader.from == s.reader.from && t.reader.size == s.reader.size
    && t.removed == s.removed + s.inA[s.reader.parsed..t.reader.parsed]
  }

  lemma FurtherChain(s: Sys, t: Sys, u: Sys)
    requires Further(s, t) && Further(t, u)
    ensures Further(s, u)
  {
    var q, i, j, n := s.inA, s.reader.parsed, t.reader.parsed, u.reader.parsed;
    assert q[i..n] == q[i..j] + q[j..n];
  }

  lemma ReadOne(k: Kind, s: Sys)
    requires Inv(k, s) && s.reader.Reading? && s.reader.parsed < s.reader.peeked
    ensures Enabled(k, s, ParseOne)
    ensures var t := Next(k, s, ParseOne); Further(s, t) && t.reader.parsed == s.reader.parsed + 1
  {
    OffsetsGrow(k, s.inA, s.reader.parsed, s.reader.peeked);
    NextEntry(k, s.buf, s.reader, s.inA, s.inB);
    ParseTakes(k, s, s.inA[s.reader.parsed]);
    assert s.inA[s.reader.parsed..s.reader.parsed + 1] == [s.inA[s.reader.parsed]];
  }

  /** The reader has handled all of its span. */
  ghost predicate ReadAll(k: Kind, s: Sys, t: Sys) {
    Inv(k, t) && Further(s, t) && t.reader.parsed == t.reader.peeked
  }

  lemma ReadAllChain(k: Kind, s: Sys, t: Sys, u: Sys)
    requires Further(s, t) && ReadAll(k, t, u)
    ensures ReadAll(k, s, u)
  {
    FurtherChain(s, t, u);
  }

  lemma ReadNone(k: Kind, s: Sys)
    requires Inv(k, s) && s.reader.Reading? && s.reader.parsed == s.reader.peeked
    ensures ReadAll(k, s, s)
  {
    assert s.inA[s.reader.parsed..s.reader.parsed] == [];
  }

  lemma ReadOnStep(k: Kind, s: Sys, n: nat)
    requires Inv(k, s) && n > 0 && s.reader.Reading? && s.reader.parsed < s.reader.peeked
    ensures Enabled(k, s, ParseOne)
    ensures var t := Next(k, s, ParseOne);
            && Inv(k, t) && ReadOn(k, s, n) == ReadOn(k, t, n - 1) && Further(s, t)
            && t.reader.parsed == s.reader.parsed + 1
  {
    ReadOne(k, s);
    ParseKeepsInv(k, s);
  }

  lemma {:induction false} ReadOnReads(k: Kind, s: Sys, n: nat)
    requires Inv(k, s) && s.reader.Reading? && s.reader.peeked == s.reader.parsed + n
    ensures ReadAll(k, s, ReadOn(k, s, n))
    decreases n
  {
    if n == 0 {
      ReadNone(k, s);
    } else {
      ReadOnStep(k, s, n);
      var t, m := Next(k, s, ParseOne), n - 1;
      ReadOnReads(k, t, m);
      ReadAllChain(k, s, t, ReadOn(k, t, m));
    }
  }

  /** A reader that nobody disturbs handles all entries of region A, in order, and leaves those of region B. */
  lemma UndisturbedRead(k: Kind, s: Sys)
    requires Inv(k, s) && Enabled(k, s, Peek)
    ensures Inv(k, Next(k, s, Peek))
    ensures var t := ReadOn(k, Next(k, s, Peek), |s.inA|);
            && Inv(k, t) && Enabled(k, t, PollAll)
            && var u := Next(k, t, PollAll);
               && u.removed == s.removed + s.inA && u.reader.Idle? && u.inA == s.inB && u.inB == []
               && u.produced == s.produced && u.held == Pointers(s.inB)
  {
    PeekKeepsInv(k, s);
    ReadOnReads(k, Next(k, s, Peek), |s.inA|);
    assert s.inA[0..|s.inA|] == s.inA;
    var t := ReadOn(k, Next(k, s, Peek), |s.inA|);
    PollKeepsInv(k, t);
    assert Pending(Next(k, t, PollAll)) == s.inB;
  }

  ghost predicate IsRun(k: Kind, states: seq<Sys>, steps: seq<Step>) {
    && |states| == |steps| + 1
    && states[0] == Start(states[0].buf.data)
    && forall i :: 0 <= i < |steps| ==>
         Inv(k, states[i]) ==> Enabled(k, states[i], steps[i]) && states[i + 1] == Next(k, states[i], steps[i])
  }

  lemma {:induction false} RunKeepsInv(k: Kind, states: seq<Sys>, steps: seq<Step>, i: nat)
    requires IsRun(k, states, steps) && i <= |steps|
    ensures Inv(k, states[i])
  {
    if i > 0 {
      RunKeepsInv(k, states, steps, i - 1);
      StepKeepsInv(k, states[i - 1], steps[i - 1]);
    }
  }

  /** In every reachable state, whatever the interleaving: the reader has walked a prefix of the
      entries produced, whole and in order; it holds one reference for each entry not walked yet;
      and a walk that reaches the end of its span ends exactly there. */
  lemma EveryRunDeliversWholeEntries(k: Kind, states: seq<Sys>, steps: seq<Step>, i: nat)
    requires IsRun(k, states, steps) && i <= |steps|
    ensures var s := states[i];
            && s.removed <= s.produced
            && s.held == Pointers(s.produced[|s.removed|..])
            && (s.reader.Reading? && s.reader.pos >= s.reader.size ==> s.reader.pos == s.reader.size)
            && (s.buf.IsEmpty() && s.reader.Idle? ==> s.removed == s.produced && s.held == multiset{})
  {
    RunKeepsInv(k, states, steps, i);
    var s := states[i];
    assert s.produced[|s.removed|..] == Pending(s);
    if s.reader.Reading? && s.reader.pos >= s.reader.size {
      PollKeepsInv(k, s);
    }
    if s.buf.IsEmpty() {
      FlattenNonEmpty(k, s.inA);
      FlattenNonEmpty(k, s.inB);
    }
  }

  // ----- one watcher of the log

  ghost predicate Suffix(s: seq<byte>, gone: nat, left: seq<byte>) {
    gone <= |s| && left == s[gone..]
  }

  lemma SuffixChain(s: seq<byte>, i: nat, t: seq<byte>, j: nat, u: seq<byte>)
    requires Suffix(s, i, t) && Suffix(t, j, u)
    ensures Suffix(s, i + j, u)
  {
  }

  /** "OK" and a line end. */
  const GREETING: seq<byte> := [79, 75, 13, 10]

  function Sum(q: seq<nat>): nat {
    if q == [] then 0 else Sum(q[..|q| - 1]) + q[|q| - 1]
  }

  lemma SumSnoc(q: seq<nat>, n: nat)
    ensures Sum(q + [n]) == Sum(q) + n
  {
    assert (q + [n])[..|q|] == q;
  }

  predicate AllPositive(q: seq<nat>) {
    forall i :: 0 <= i < |q| ==> q[i] > 0
  }

  /** Writes are made one after the other until there is `room`, and given up only after one that took nothing, which it
      did because the socket took nothing or nothing was `left`. */
  predicate Tried(writes: seq<Wrote>, taken: seq<nat>, room: bool, left: seq<byte>) {
    && |taken| <= |writes|
    && if room || AllPositive(taken) then AllPositive(taken) && (!room ==> |taken| == |writes|)
       else
         var last := |taken| - 1;
         && AllPositive(taken[..last]) && taken[last] == 0
         && (left == [] || !writes[last].Took? || writes[last].n == 0)
  }

  /** How a write to the client's socket ends. */
  datatype Wrote = Took(n: nat) | WouldBlock | Error

  /** The output buffer of a client that watches the log, and how many lines it missed. A watcher whose connection is
      `closed` has been freed. */
  class Watcher {
    const buf: BipBuffer
    var skipped: nat
    var failedFlush: bool
    var closed: bool

    /** The client is greeted first, if the buffer has room for it. */
    constructor (size: nat)
      ensures buf.Valid() && fresh(buf) && fresh(buf.data) && buf.size == size
      ensures buf.Contents() == if size < |GREETING| then [] else GREETING
      ensures skipped == 0 && !failedFlush && !closed
    {
      buf := new BipBuffer(size);
      skipped, failedFlush, closed := 0, false, false;
      new;
      var sent := buf.Offer(GREETING);
    }

    /** Ask for `n` bytes until they are there or a flush makes no progress; `writes` tells how successive writes to
        the client's socket end, `taken` what they took. */
    method MakeRoom(n: nat, writes: seq<Wrote>) returns (room: Option<nat>, ghost taken: seq<nat>)
      requires buf.Valid() && !closed
      modifies `closed, buf
      ensures buf.Valid() && room == buf.State().Request(n)
      ensures room.Some? ==> buf.State().Unused() >= n && !closed
      ensures old(buf.State()).Request(n).Some? ==> taken == []
      ensures Suffix(old(buf.Contents()), Sum(taken), buf.Contents())
      ensures Tried(writes, taken, room.Some?, buf.Contents())
    {
      ghost var before := buf.Contents();
      var i := 0;
      taken := [];
      while true
        invariant buf.Valid() && !closed && |taken| == i <= |writes| && AllPositive(taken)
        invariant Suffix(before, Sum(taken), buf.Contents())
        invariant old(buf.State()).Request(n).Some? ==> i == 0
        invariant i == 0 ==> buf.State() == old(buf.State())
        decreases |writes| - i
      {
        room := buf.Request(n);
        if room.Some? || i == |writes| {
          return;
        }
        var got;
        got, taken := FlushMore(writes, i, before, taken);
        if got == 0 {
          return;
        }
        i := i + 1;
      }
    }

    /** One write more. */
    method FlushMore(writes: seq<Wrote>, i: nat, ghost before: seq<byte>, ghost taken: seq<nat>)
      returns (got: nat, ghost more: seq<nat>)
      requires buf.Valid() && !closed && i == |taken| < |writes| && AllPositive(taken)
      requires Suffix(before, Sum(taken), buf.Contents())
      modifies `closed, buf
      ensures buf.Valid() && |more| == i + 1 && Suffix(before, Sum(more), buf.Contents())
      ensures got > 0 ==> AllPositive(more) && !closed
      ensures got == 0 ==> Tried(writes, more, false, buf.Contents()) && unchanged(buf)
    {
      ghost var was := buf.Contents();
      got := Flush(writes[i]);
      SuffixChain(before, Sum(taken), was, got, buf.Contents());
      SumSnoc(taken, got);
      more := taken + [got];
      assert more[..i] == taken;
    }

    /** One write of region A to the client's socket, if there is anything to write. A write of no bytes and an error
        close the watcher. */
    method Flush(w: Wrote) returns (taken: nat)
      requires buf.Valid() && !closed
      modifies `closed, buf
      ensures buf.Valid() && Suffix(old(buf.Contents()), taken, buf.Contents())
      ensures taken == if !w.Took? then 0
                       else if w.n < |old(buf.State()).RegionA()| then w.n else |old(buf.State()).RegionA()|
      ensures closed <==> old(buf.Contents()) != [] && (w.Error? || w == Took(0))
      ensures taken == 0 ==> unchanged(buf)
    {
      var shown, len := buf.PeekAll();
      taken := 0;
      if shown.Some? {
        match w {
          case WouldBlock =>
          case Error => closed := true;
          case Took(n) =>
            taken := if n < len then n else len;
            if taken == 0 {
              closed := true;
            } else {
              Drop(taken);
            }
        }
      }
    }

    /** The client's socket took `n` bytes of region A. */
    method Drop(n: nat)
      requires buf.Valid() && 0 < n <= |buf.State().RegionA()|
      modifies buf
      ensures buf.Valid() && Suffix(old(buf.Contents()), n, buf.Contents())
    {
      PollIsDequeue(buf.State(), n);
      var polled := buf.Poll(n);
    }

    /** Write one line; `note` is the rendered line that says how many were skipped. A line that gets
        its requested room is never lost afterwards: the note goes in front of it and the final
        offer succeeds. */
    method WriteEntry(line: seq<byte>, note: seq<byte>, writes: seq<Wrote>)
      returns (sent: bool, ghost taken: seq<nat>)
      requires buf.Valid() && !closed
      modifies this, buf, buf.data
      ensures buf.Valid() && (closed ==> failedFlush)
      ensures sent <==> !failedFlush && (old(skipped) == 0 || 0 < |note| < 128)
      ensures skipped == if sent then 0 else old(skipped) + 1
      ensures Sum(taken) <= |old(buf.Contents())|
      ensures if old(failedFlush) then failedFlush && taken == []
              else Tried(writes, taken, !failedFlush, old(buf.Contents())[Sum(taken)..])
      ensures buf.Contents() == old(buf.Contents())[Sum(taken)..] +
                (if !sent then [] else if old(skipped) == 0 then line else note + line)
    {
      taken := Prepare(|line| + 128, writes);
      if failedFlush || (skipped > 0 && (|note| >= 128 || |note| <= 0)) {
        skipped := skipped + 1;
        return false, taken;
      }
      Deliver(line, note);
      return true, taken;
    }

    /** Unless the client was given up already, the room is there afterwards or the client is given up. */
    method Prepare(n: nat, writes: seq<Wrote>) returns (ghost taken: seq<nat>)
      requires buf.Valid() && !closed
      modifies `failedFlush, `closed, buf
      ensures buf.Valid() && (old(failedFlush) ==> failedFlush && taken == [] && unchanged(buf))
      ensures !failedFlush ==> buf.State().Unused() >= n
      ensures !old(failedFlush) ==> Tried(writes, taken, !failedFlush, buf.Contents())
      ensures !old(failedFlush) ==> (failedFlush <==> buf.State().Request(n).None?)
      ensures closed ==> failedFlush
      ensures Sum(taken) <= |old(buf.Contents())| && buf.Contents() == old(buf.Contents())[Sum(taken)..]
    {
      taken := [];
      assert buf.Contents()[Sum(taken)..] == buf.Contents();
      if !failedFlush {
        var room;
        room, taken := MakeRoom(n, writes);
        failedFlush := room.None?;
        assert !failedFlush == room.Some?;
      }
    }

    /** The requested room is there: the note, if lines were skipped, and then the line. */
    method Deliver(line: seq<byte>, note: seq<byte>)
      requires buf.Valid() && buf.State().Unused() >= |line| + 128 && (skipped > 0 ==> |note| < 128)
      modifies `skipped, buf, buf.data
      ensures buf.Valid() && skipped == 0
      ensures buf.Contents() == old(buf.Contents()) + (if old(skipped) == 0 then line else note + line)
    {
      ghost var before := buf.Contents();
      if skipped > 0 {
        StoreAndPush(note);
        skipped := 0;
        assert (before + note) + line == before + (note + line);
      }
      var offered := buf.Offer(line);
    }

    /** Text written through a requested pointer and then pushed is appended to the queue. */
    method StoreAndPush(text: seq<byte>)
      requires buf.Valid() && buf.State().Unused() >= |text|
      modifies buf, buf.data
      ensures buf.Valid() && buf.Contents() == old(buf.Contents()) + text
      ensures buf.State().Unused() >= old(buf.State()).Unused() - |text|
    {
      OfferIsEnqueue(buf.State(), text);
      var at := buf.Request(|text|);
      buf.Store(at.value, text);
      var pushed := buf.Push(|text|);
    }
  }
}
