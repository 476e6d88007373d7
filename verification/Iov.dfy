/** Scatter/gather output of memcached.c: a response is a list of buffers, grouped into messages whose iovecs
    are slices of one growing array, split into datagrams for UDP, and drained by partial writes. */
module Iov {
  import opened Common

  const IOV_MAX: nat := 1024
  const UDP_MAX_PAYLOAD_SIZE: nat := 1400
  const UDP_HEADER_SIZE: nat := 8
  const IOV_LIST_INITIAL: nat := 400
  const MSG_LIST_INITIAL: nat := 10

  /** A buffer that is still to be written, base and length in one. */
  type Iovec = seq<byte>

  /** struct msghdr: `msg_iov` as an array and an index into it. */
  datatype Msg = Msg(iov: array<Iovec>, at: nat, iovlen: nat)

  datatype Result = Complete | Incomplete | Failed

  /** The buffers of one message, and of all messages. */
  type Group = seq<Iovec>

  // ----- bytes of messages

  ghost function Bytes(groups: seq<Group>): seq<byte> {
    if groups == [] then [] else Flatten(groups[0]) + Bytes(groups[1..])
  }

  /** The bytes without the header slot in front of each datagram. */
  ghost function Payload(udp: bool, groups: seq<Group>): seq<byte> {
    if groups == [] then [] else Flatten(Body(udp, groups[0])) + Payload(udp, groups[1..])
  }

  ghost function Body(udp: bool, g: Group): Group {
    if udp && g != [] then g[1..] else g
  }

  lemma Regroup(x: seq<byte>, y: seq<byte>, z: seq<byte>)
    ensures x + (y + z) == (x + y) + z
  {
  }

  lemma {:induction false} PayloadAppend(udp: bool, a: seq<Group>, b: seq<Group>)
    ensures Payload(udp, a + b) == Payload(udp, a) + Payload(udp, b)
  {
    if a == [] {
      assert a + b == b;
    } else {
      var first, rest := Flatten(Body(udp, a[0])), a[1..];
      PayloadAppend(udp, rest, b);
      assert (a + b)[0] == a[0] && (a + b)[1..] == rest + b;
      Regroup(first, Payload(udp, rest), Payload(udp, b));
    }
  }

  /** The last message with one more buffer. */
  ghost function Longer(groups: seq<Group>, b: Iovec): seq<Group>
    requires groups != []
  {
    groups[..|groups| - 1] + [groups[|groups| - 1] + [b]]
  }

  lemma PayloadOne(udp: bool, g: Group)
    ensures Payload(udp, [g]) == Flatten(Body(udp, g))
  {
    assert Payload(udp, [g]) == Flatten(Body(udp, g)) + Payload(udp, [g][1..]);
  }

  lemma PayloadLonger(udp: bool, groups: seq<Group>, b: Iovec)
    requires groups != [] && (udp ==> groups[|groups| - 1] != [])
    ensures Payload(udp, Longer(groups, b)) == Payload(udp, groups) + b
  {
    var n := |groups| - 1;
    var g := groups[n];
    assert groups == groups[..n] + [g];
    PayloadAppend(udp, groups[..n], [g]);
    PayloadAppend(udp, groups[..n], [g + [b]]);
    PayloadOne(udp, g);
    PayloadOne(udp, g + [b]);
    FlattenSnoc(Body(udp, g), b);
    assert Body(udp, g + [b]) == Body(udp, g) + [b];
  }

  /** A new message, with its header slot for UDP, carries nothing yet. */
  lemma PayloadFresh(udp: bool, groups: seq<Group>, g: Group)
    requires Body(udp, g) == []
    ensures Payload(udp, groups + [g]) == Payload(udp, groups)
  {
    PayloadAppend(udp, groups, [g]);
    PayloadOne(udp, g);
  }

  lemma {:induction false} BytesFrom(groups: seq<Group>, k: nat)
    requires k < |groups|
    ensures Bytes(groups[k..]) == Flatten(groups[k]) + Bytes(groups[k + 1..])
  {
    assert groups[k..][0] == groups[k] && groups[k..][1..] == groups[k + 1..];
  }

  ghost function Size(g: Group): nat {
    |Flatten(g)|
  }

  lemma SizeSnoc(g: Group, b: Iovec)
    ensures Size(g + [b]) == Size(g) + |b|
  {
    FlattenSnoc(g, b);
  }

  // ----- slices of the array

  ghost predicate SliceIn(q: seq<Iovec>, m: Msg, g: Group) {
    m.at + m.iovlen <= |q| && q[m.at..m.at + m.iovlen] == g
  }

  /** Each message's slice of the array holds its buffers. */
  ghost predicate AllSlices(q: seq<Iovec>, msgs: seq<Msg>, groups: seq<Group>) {
    && |msgs| == |groups|
    && forall i {:trigger SliceIn(q, msgs[i], groups[i])} :: 0 <= i < |msgs| ==> SliceIn(q, msgs[i], groups[i])
  }

  /** Each message points into this array, not into one that was given up. */
  ghost predicate AllInto(msgs: seq<Msg>, iov: array<Iovec>) {
    forall i {:trigger msgs[i]} :: 0 <= i < |msgs| ==> msgs[i].iov == iov
  }

  lemma SliceLen(q: seq<Iovec>, msgs: seq<Msg>, groups: seq<Group>, i: nat)
    requires AllSlices(q, msgs, groups) && i < |msgs|
    ensures msgs[i].iovlen == |groups[i]|
  {
    assert SliceIn(q, msgs[i], groups[i]);
  }

  /** A message's slice starts where the one before it ends. */
  ghost predicate Adjoins(msgs: seq<Msg>, i: nat)
    requires i < |msgs|
  {
    msgs[i].at == if i == 0 then 0 else msgs[i - 1].at + msgs[i - 1].iovlen
  }

  ghost predicate AllAdjoin(msgs: seq<Msg>) {
    forall i {:trigger Adjoins(msgs, i)} :: 0 <= i < |msgs| ==> Adjoins(msgs, i)
  }

  function End(msgs: seq<Msg>): nat {
    if msgs == [] then 0 else msgs[|msgs| - 1].at + msgs[|msgs| - 1].iovlen
  }

  lemma {:induction false} AdjoinsOrder(msgs: seq<Msg>, i: nat, j: nat)
    requires AllAdjoin(msgs) && i < j < |msgs|
    ensures msgs[i].at + msgs[i].iovlen <= msgs[j].at
  {
    assert Adjoins(msgs, j);
    if i < j - 1 {
      AdjoinsOrder(msgs, i, j - 1);
    }
  }

  /** The last message with one more iovec. */
  function LongerMsgs(msgs: seq<Msg>): seq<Msg>
    requires msgs != []
  {
    var n := |msgs| - 1;
    msgs[n := msgs[n].(iovlen := msgs[n].iovlen + 1)]
  }

  /** Storing behind the last slice makes that one longer and leaves the others. */
  lemma PushSlices(q: seq<Iovec>, msgs: seq<Msg>, groups: seq<Group>, iov: array<Iovec>, buf: Iovec)
    requires AllSlices(q, msgs, groups) && AllAdjoin(msgs) && AllInto(msgs, iov) && msgs != [] && End(msgs) < |q|
    ensures AllSlices(q[End(msgs) := buf], LongerMsgs(msgs), Longer(groups, buf))
    ensures AllAdjoin(LongerMsgs(msgs)) && AllInto(LongerMsgs(msgs), iov) && End(LongerMsgs(msgs)) == End(msgs) + 1
  {
    var n := |msgs| - 1;
    var r, msgs' := q[End(msgs) := buf], LongerMsgs(msgs);
    forall i | 0 <= i < |msgs| ensures SliceIn(r, msgs'[i], Longer(groups, buf)[i]) && Adjoins(msgs', i) &&
      msgs'[i].iov == iov {
      assert SliceIn(q, msgs[i], groups[i]) && Adjoins(msgs, i);
      if i < n {
        AdjoinsOrder(msgs, i, n);
      }
    }
  }

  /** An empty slice starts behind the last one. */
  lemma FreshSlice(q: seq<Iovec>, msgs: seq<Msg>, groups: seq<Group>, iov: array<Iovec>)
    requires AllSlices(q, msgs, groups) && AllAdjoin(msgs) && AllInto(msgs, iov) && End(msgs) <= |q|
    ensures var msgs' := msgs + [Msg(iov, End(msgs), 0)];
            && AllSlices(q, msgs', groups + [[]]) && AllAdjoin(msgs') && AllInto(msgs', iov) && End(msgs') == End(msgs)
  {
    var msgs' := msgs + [Msg(iov, End(msgs), 0)];
    forall i | 0 <= i < |msgs'| ensures SliceIn(q, msgs'[i], (groups + [[]])[i]) && Adjoins(msgs', i) {
      if i < |msgs| {
        assert SliceIn(q, msgs[i], groups[i]) && Adjoins(msgs, i);
      }
    }
  }

  /** At most IOV_MAX buffers; a datagram has its header slot and fits. */
  ghost predicate GroupOk(udp: bool, g: Group) {
    && |g| <= IOV_MAX
    && (udp ==> g != [] && |g[0]| == UDP_HEADER_SIZE && Size(g) <= UDP_MAX_PAYLOAD_SIZE)
  }

  ghost predicate AllOk(udp: bool, groups: seq<Group>) {
    forall i {:trigger GroupOk(udp, groups[i])} :: 0 <= i < |groups| ==> GroupOk(udp, groups[i])
  }

  /** A message that takes no more: it has all its iovecs, or the datagram is as long as it may be. */
  ghost predicate Full(udp: bool, g: Group) {
    |g| == IOV_MAX || (udp && Size(g) == UDP_MAX_PAYLOAD_SIZE)
  }

  /** No message is started before the last one is full. */
  ghost predicate Packed(udp: bool, groups: seq<Group>) {
    forall i {:trigger groups[i]} :: 0 <= i < |groups| - 1 ==> Full(udp, groups[i])
  }

  lemma PackedLonger(udp: bool, groups: seq<Group>, buf: Iovec)
    requires groups != [] && Packed(udp, groups)
    ensures Packed(udp, Longer(groups, buf))
  {
    forall i | 0 <= i < |groups| - 1 ensures Full(udp, Longer(groups, buf)[i]) {
      assert Longer(groups, buf)[i] == groups[i];
    }
  }

  lemma PackedFresh(udp: bool, groups: seq<Group>, g: Group)
    requires Packed(udp, groups) && (groups != [] ==> Full(udp, groups[|groups| - 1]))
    ensures Packed(udp, groups + [g])
  {
    forall i | 0 <= i < |groups + [g]| - 1 ensures Full(udp, (groups + [g])[i]) {
      assert (groups + [g])[i] == groups[i];
    }
  }

  /** Eight bytes that build_udp_headers fills in later. */
  const HEADER_SLOT: Iovec := [0, 0, 0, 0, 0, 0, 0, 0]

  ghost function FreshGroup(udp: bool): Group {
    if udp then [HEADER_SLOT] else []
  }

  lemma FreshGroupOk(udp: bool)
    ensures GroupOk(udp, FreshGroup(udp)) && Body(udp, FreshGroup(udp)) == []
    ensures Size(FreshGroup(udp)) == (if udp then UDP_HEADER_SIZE else 0) && |FreshGroup(udp)| <= 1
  {
    SizeSnoc([], HEADER_SLOT);
    assert [] + [HEADER_SLOT] == [HEADER_SLOT];
  }

  ghost function FlatTo(bufs: seq<seq<byte>>, i: nat): seq<byte>
    requires i <= |bufs|
  {
    Flatten(bufs[..i])
  }

  lemma MoreOf(added: seq<byte>, buf: seq<byte>, k: nat, n: nat)
    requires k + n <= |buf|
    ensures (added + buf[..k]) + buf[k..][..n] == added + buf[..k + n]
  {
    assert buf[..k] + buf[k..][..n] == buf[..k + n];
    assert (added + buf[..k]) + buf[k..][..n] == added + (buf[..k] + buf[k..][..n]);
  }

  lemma FlatEnds(bufs: seq<seq<byte>>)
    ensures FlatTo(bufs, 0) == [] && FlatTo(bufs, |bufs|) == Flatten(bufs)
  {
    assert bufs[..|bufs|] == bufs;
  }

  lemma FlatMore(bufs: seq<seq<byte>>, i: nat)
    requires i < |bufs|
    ensures FlatTo(bufs, i + 1) == FlatTo(bufs, i) + bufs[i]
  {
    assert bufs[..i + 1] == bufs[..i] + [bufs[i]];
    FlattenSnoc(bufs[..i], bufs[i]);
  }

  class Conn {
    const udp: bool
    var iov: array<Iovec>
    var iovused: nat
    var msglist: seq<Msg>
    var msgsize: nat
    var msgbytes: nat
    var msgcurr: nat

    /** The buffers of each message that are still to be written. */
    ghost var groups: seq<Group>

    /** The messages' slices partition iov[..iovused]. */
    ghost predicate Laid()
      reads this, iov
    {
      && AllSlices(iov[..], msglist, groups) && AllAdjoin(msglist) && AllInto(msglist, iov)
      && |msglist| <= msgsize && msgsize > 0 && iov.Length > 0
      && iovused == End(msglist) <= iov.Length
      && (groups != [] ==> msgbytes == Size(groups[|groups| - 1]))
    }

    /** The state in which a response is built: every message is in order, and together they carry `added`. */
    ghost predicate Building(added: seq<byte>)
      reads this, iov
    {
      && Laid() && msgcurr == 0 && groups != []
      && AllOk(udp, groups) && Packed(udp, groups) && Payload(udp, groups) == added
    }

    constructor (udp: bool)
      ensures Laid() && groups == [] && msgcurr == 0 && this.udp == udp && fresh(iov)
    {
      this.udp := udp;
      iov := new Iovec[IOV_LIST_INITIAL](_ => []);
      iovused, msgbytes, msgcurr := 0, 0, 0;
      msglist, groups, msgsize := [], [], MSG_LIST_INITIAL;
    }

    /** ensure_iov_space. Growing moves the array: every message is pointed at its slice of the new one. */
    method EnsureIovSpace()
      requires Laid()
      modifies `iov, `msglist
      ensures Laid() && iovused < iov.Length && (iov == old(iov) || fresh(iov))
    {
      if iovused < iov.Length {
        return;
      }
      ghost var q := iov[..];
      var bigger := new Iovec[iov.Length * 2];
      forall i | 0 <= i < iov.Length {
        bigger[i] := iov[i];
      }
      ghost var r := bigger[..];
      assert |q| <= |r| && q == r[..|q|];
      WiderSlices(q, r, msglist, groups);
      iov := bigger;
      Repoint();
      assert iov[..] == r;
      SameSlices(r, old(msglist), msglist, groups);
    }

    /** The loop over the messages sums up their lengths. */
    method Repoint()
      requires AllAdjoin(msglist)
      modifies `msglist
      ensures |msglist| == |old(msglist)| && AllInto(msglist, iov)
      ensures forall i {:trigger msglist[i]} :: 0 <= i < |msglist| ==> SamePlace(msglist[i], old(msglist)[i])
    {
      var i, iovnum := 0, 0;
      while i < |msglist|
        invariant i <= |msglist| == |old(msglist)|
        invariant iovnum == if i == 0 then 0 else old(msglist)[i - 1].at + old(msglist)[i - 1].iovlen
        invariant forall j {:trigger msglist[j]} :: 0 <= j < i ==>
                  msglist[j].iov == iov && SamePlace(msglist[j], old(msglist)[j])
        invariant forall j {:trigger msglist[j]} :: i <= j < |msglist| ==> msglist[j] == old(msglist)[j]
      {
        assert Adjoins(old(msglist), i);
        msglist := msglist[i := Msg(iov, iovnum, msglist[i].iovlen)];
        iovnum := iovnum + msglist[i].iovlen;
        i := i + 1;
      }
    }

    /** One more iovec at the end of the last message. */
    method PushVec(buf: Iovec)
      requires Laid() && groups != [] && iovused < iov.Length
      modifies iov, `iovused, `msglist, `msgbytes, `groups
      ensures Laid() && groups == Longer(old(groups), buf) && msgbytes == old(msgbytes) + |buf|
    {
      ghost var q := iov[..];
      var n := |msglist| - 1;
      var m := msglist[n];
      m.iov[m.at + m.iovlen] := buf;
      assert iov[..] == q[End(msglist) := buf];
      PushSlices(q, msglist, groups, iov, buf);
      SizeSnoc(groups[n], buf);
      msgbytes := msgbytes + |buf|;
      iovused := iovused + 1;
      msglist := msglist[n := m.(iovlen := m.iovlen + 1)];
      groups := Longer(groups, buf);
    }

    /** The new message of add_msghdr, still without its header slot. */
    method FreshMsg()
      requires Laid()
      modifies `msglist, `msgsize, `msgbytes, `groups
      ensures Laid() && groups == old(groups) + [[]]
    {
      FreshSlice(iov[..], msglist, groups, iov);
      if msgsize == |msglist| {
        msgsize := msgsize * 2;
      }
      msglist := msglist + [Msg(iov, iovused, 0)];
      msgbytes := 0;
      groups := groups + [[]];
    }

    /** add_msghdr. The new message is in order, and carries nothing. */
    method AddMsghdr()
      requires Laid() && msgcurr == 0
      modifies this, iov
      ensures Laid() && msgcurr == 0 && (iov == old(iov) || fresh(iov))
      ensures groups == old(groups) + [FreshGroup(udp)]
    {
      FreshMsg();
      if udp {
        EnsureIovSpace();
        PushVec(HEADER_SLOT);
        assert [] + [HEADER_SLOT] == [HEADER_SLOT];
      }
    }

    /** What AddMsghdr does to a response. */
    method StartMsg(ghost added: seq<byte>)
      requires Building(added) && Full(udp, groups[|groups| - 1])
      modifies this, iov
      ensures Building(added) && (iov == old(iov) || fresh(iov))
      ensures msgbytes == (if udp then UDP_HEADER_SIZE else 0) && msglist != [] && msglist[|msglist| - 1].iovlen <= 1
    {
      ghost var before := groups;
      AddMsghdr();
      FreshGroupOk(udp);
      PayloadFresh(udp, before, FreshGroup(udp));
      PackedFresh(udp, before, FreshGroup(udp));
      SliceLen(iov[..], msglist, groups, |groups| - 1);
    }

    /** One buffer that fits into the last message. */
    method AddPart(buf: Iovec, ghost added: seq<byte>)
      requires Building(added) && msglist[|msglist| - 1].iovlen < IOV_MAX
      requires udp ==> msgbytes + |buf| <= UDP_MAX_PAYLOAD_SIZE
      modifies this, iov
      ensures Building(added + buf) && (iov == old(iov) || fresh(iov)) && msgbytes == old(msgbytes) + |buf|
    {
      ghost var before := groups;
      SliceLen(iov[..], msglist, groups, |groups| - 1);
      assert GroupOk(udp, before[|before| - 1]);
      EnsureIovSpace();
      PushVec(buf);
      LongerOk(udp, before, buf);
      PackedLonger(udp, before, buf);
      PayloadLonger(udp, before, buf);
    }

    /** add_iov: the buffer is added to the response, in parts of what room a datagram has left. */
    method AddIov(buf: seq<byte>, ghost added: seq<byte>)
      requires Building(added)
      modifies this, iov
      ensures Building(added + buf) && (iov == old(iov) || fresh(iov))
    {
      if udp {
        AddIovUdp(buf, added);
      } else {
        SliceLen(iov[..], msglist, groups, |groups| - 1);
        if msglist[|msglist| - 1].iovlen == IOV_MAX {
          StartMsg(added);
        }
        SliceLen(iov[..], msglist, groups, |groups| - 1);
        assert GroupOk(udp, groups[|groups| - 1]);
        AddPart(buf, added);
      }
    }

    method AddIovUdp(buf: seq<byte>, ghost added: seq<byte>)
      requires Building(added) && udp
      modifies this, iov
      ensures Building(added + buf) && (iov == old(iov) || fresh(iov))
    {
      var done := AddSome(buf, added);
      while done < |buf|
        invariant done <= |buf| && Building(added + buf[..done]) && (iov == old(iov) || fresh(iov))
      {
        var n := AddSome(buf[done..], added + buf[..done]);
        MoreOf(added, buf, done, n);
        done := done + n;
      }
      assert buf[..done] == buf;
    }

    /** As much of the buffer as the datagram has room for, in a new one if this one is full. */
    method AddSome(left: seq<byte>, ghost added: seq<byte>) returns (n: nat)
      requires Building(added) && udp
      modifies this, iov
      ensures n <= |left| && (n > 0 || left == [])
      ensures n == |left| || msgbytes == UDP_MAX_PAYLOAD_SIZE
      ensures Building(added + left[..n]) && (iov == old(iov) || fresh(iov))
    {
      SliceLen(iov[..], msglist, groups, |groups| - 1);
      assert GroupOk(udp, groups[|groups| - 1]);
      if msglist[|msglist| - 1].iovlen == IOV_MAX || msgbytes >= UDP_MAX_PAYLOAD_SIZE {
        StartMsg(added);
      }
      SliceLen(iov[..], msglist, groups, |groups| - 1);
      assert GroupOk(udp, groups[|groups| - 1]);
      n := if |left| + msgbytes > UDP_MAX_PAYLOAD_SIZE then UDP_MAX_PAYLOAD_SIZE - msgbytes else |left|;
      AddPart(left[..n], added);
    }

    // ----- sending

    /** What is left of the messages, in slices of the array that do not overlap. */
    ghost predicate Leftover()
      reads this, iov
    {
      AllSlices(iov[..], msglist, groups) && AllInto(msglist, iov) && Ordered(msglist) && msgcurr <= |msglist|
    }

    /** The bytes not yet written. */
    ghost function Pending(): seq<byte>
      requires msgcurr <= |groups|
      reads `groups, `msgcurr
    {
      Bytes(groups[msgcurr..])
    }

    /** A response that has been built can be sent. */
    lemma BuiltIsLeftover(added: seq<byte>)
      requires Building(added)
      ensures Leftover() && Pending() == Bytes(groups)
      ensures !udp ==> Pending() == added
    {
      forall i, j | 0 <= i < j < |msglist| ensures Before(msglist[i], msglist[j]) {
        AdjoinsOrder(msglist, i, j);
      }
      assert groups[0..] == groups;
      if !udp {
        TcpPayload(groups);
      }
    }

    /** The head of transmit: a message that is written out is left behind. */
    method Advance()
      requires Leftover()
      modifies `msgcurr
      ensures Leftover() && Pending() == old(Pending())
      ensures msgcurr == old(msgcurr) + if old(msgcurr) < |msglist| && msglist[old(msgcurr)].iovlen == 0 then 1 else 0
    {
      if msgcurr < |msglist| && msglist[msgcurr].iovlen == 0 {
        SliceLen(iov[..], msglist, groups, msgcurr);
        BytesFrom(groups, msgcurr);
        msgcurr := msgcurr + 1;
      }
    }

    /** The system has taken `res` bytes of the current message: finished iovecs are passed, and one that
        is partly written is cut. */
    method Take(res: nat)
      requires Leftover() && msgcurr < |msglist| && res <= Size(groups[msgcurr])
      modifies iov, `msglist, `groups
      ensures Leftover() && |groups| == |old(groups)|
      ensures Flatten(old(groups)[msgcurr]) == Flatten(old(groups)[msgcurr])[..res] + Flatten(groups[msgcurr])
      ensures old(Pending()) == Flatten(old(groups)[msgcurr])[..res] + Pending()
    {
      ghost var q, all := iov[..], Flatten(groups[msgcurr]);
      var m, left := Skip(res);
      ghost var g := q[m.at..m.at + m.iovlen];
      ghost var h := if left > 0 then [g[0][left..]] + g[1..] else g;
      if left > 0 {
        CutFirst(g, left);
        m.iov[m.at] := m.iov[m.at][left..];
      }
      assert iov[..] == if left > 0 then q[m.at := g[0][left..]] else q;
      TakeSlices(q, iov[..], msglist, groups, msgcurr, m, h);
      DropTwice(all, res - left, left);
      TakeBytes(groups, msgcurr, h, res);
      msglist := msglist[msgcurr := m];
      groups := groups[msgcurr := h];
    }

    /** Past the finished iovecs; `left` bytes of the next one are written. */
    method Skip(res: nat) returns (m: Msg, left: nat)
      requires Leftover() && msgcurr < |msglist| && res <= Size(groups[msgcurr])
      ensures Within(m, msglist[msgcurr]) && m.iov == iov && left <= res && m.at + m.iovlen <= iov.Length
      ensures SliceIn(iov[..], m, iov[m.at..m.at + m.iovlen])
      ensures Flatten(iov[m.at..m.at + m.iovlen]) == Flatten(groups[msgcurr])[res - left..]
      ensures left > 0 ==> m.iovlen > 0 && left < |iov[m.at]|
    {
      m, left := msglist[msgcurr], res;
      ghost var q, all := iov[..], Flatten(groups[msgcurr]);
      assert SliceIn(q, m, groups[msgcurr]);
      while m.iovlen > 0 && left >= |m.iov[m.at]|
        invariant Within(m, msglist[msgcurr]) && m.iov == iov && left <= res <= |all|
        invariant Flatten(q[m.at..m.at + m.iovlen]) == all[res - left..]
        decreases m.iovlen
      {
        ghost var g := q[m.at..m.at + m.iovlen];
        SliceTail(q, m.at, m.iovlen);
        DropFirst(all, res - left, g);
        left := left - |m.iov[m.at]|;
        m := m.(at := m.at + 1, iovlen := m.iovlen - 1);
      }
    }

    /** The message that transmit will write. */
    ghost function Current(): nat
      reads `msgcurr, `msglist
    {
      if msgcurr < |msglist| && msglist[msgcurr].iovlen == 0 then msgcurr + 1 else msgcurr
    }

    /** transmit; `res` is what sendmsg returns, at most the bytes it was given. */
    method Transmit(res: int) returns (r: Result, ghost sent: seq<byte>)
      requires Leftover() && (Current() < |groups| ==> res <= Size(groups[Current()]))
      modifies this, iov
      ensures Leftover() && iov == old(iov) && old(Pending()) == sent + Pending()
      ensures (r.Complete? <==> old(Current()) >= |groups|) && (r.Complete? ==> Pending() == [])
      ensures |sent| == if r.Incomplete? then res else 0
      ensures r.Failed? ==> res <= 0
    {
      Advance();
      sent := [];
      if msgcurr >= |msglist| {
        assert groups[msgcurr..] == [];
        return Complete, sent;
      }
      if res <= 0 {
        return Failed, sent;
      }
      sent := Flatten(groups[msgcurr])[..res];
      Take(res);
      return Incomplete, sent;
    }

    /** The bytes that sendmsg is given. */
    method Offered() returns (n: nat)
      requires Leftover()
      ensures Current() < |groups| ==> n == Size(groups[Current()])
    {
      n := 0;
      var k := if msgcurr < |msglist| && msglist[msgcurr].iovlen == 0 then msgcurr + 1 else msgcurr;
      if k < |msglist| {
        var m := msglist[k];
        ghost var g := groups[k];
        assert SliceIn(iov[..], m, g);
        var j := 0;
        while j < m.iovlen
          invariant j <= m.iovlen && n == Size(g[..j])
        {
          assert g[..j + 1] == g[..j] + [g[j]];
          SizeSnoc(g[..j], g[j]);
          n := n + |m.iov[m.at + j]|;
          j := j + 1;
        }
        assert g[..m.iovlen] == g;
      }
    }

    /** The first message of a response. */
    method Begin()
      requires Laid() && groups == [] && msgcurr == 0
      modifies this, iov
      ensures Building([]) && (iov == old(iov) || fresh(iov))
    {
      AddMsghdr();
      FreshGroupOk(udp);
      PayloadOne(udp, FreshGroup(udp));
    }

    /** One more buffer behind those that have been added. */
    method AddNext(bufs: seq<seq<byte>>, i: nat)
      requires i < |bufs| && Building(FlatTo(bufs, i))
      modifies this, iov
      ensures Building(FlatTo(bufs, i + 1)) && (iov == old(iov) || fresh(iov))
    {
      FlatMore(bufs, i);
      AddIov(bufs[i], FlatTo(bufs, i));
    }

    /** Any buffers, added in order. */
    method AddAll(bufs: seq<seq<byte>>)
      requires Building([])
      modifies this, iov
      ensures Building(Flatten(bufs)) && (iov == old(iov) || fresh(iov))
    {
      FlatEnds(bufs);
      var i := 0;
      while i < |bufs|
        invariant i <= |bufs| && Building(FlatTo(bufs, i))
        invariant iov == old(iov) || fresh(iov)
      {
        AddNext(bufs, i);
        i := i + 1;
      }
    }

    /** Any partial writes: `wants` are the byte counts the system would take, if it is given that much. */
    method SendAll(wants: seq<int>) returns (ghost sent: seq<byte>)
      requires Leftover()
      modifies this, iov
      ensures Leftover() && iov == old(iov) && old(Pending()) == sent + Pending()
    {
      sent := [];
      var i := 0;
      while i < |wants|
        invariant Leftover() && iov == old(iov) && old(Pending()) == sent + Pending()
      {
        var n := Offered();
        var r, more := Transmit(if wants[i] < n then wants[i] else n);
        Regroup(sent, more, Pending());
        sent := sent + more;
        i := i + 1;
      }
    }

    /** A whole response, whatever its buffers and however it is written: the messages carry the buffers in order,
        each fits into a datagram, and what was sent and what is pending are the messages in order. */
    method Respond(bufs: seq<seq<byte>>, wants: seq<int>) returns (ghost built: seq<Group>, ghost sent: seq<byte>)
      requires Laid() && groups == [] && msgcurr == 0
      modifies this, iov
      ensures AllOk(udp, built) && Packed(udp, built) && Payload(udp, built) == Flatten(bufs)
      ensures Leftover() && sent + Pending() == Bytes(built)
      ensures !udp ==> sent + Pending() == Flatten(bufs)
    {
      Begin();
      AddAll(bufs);
      built := groups;
      BuiltIsLeftover(Flatten(bufs));
      sent := SendAll(wants);
    }
  }

  lemma TakeBytes(groups: seq<Group>, k: nat, h: Group, res: nat)
    requires k < |groups| && res <= Size(groups[k]) && Flatten(h) == Flatten(groups[k])[res..]
    ensures Bytes(groups[k..]) == Flatten(groups[k])[..res] + Bytes(groups[k := h][k..])
  {
    var after := groups[k := h];
    BytesFrom(groups, k);
    BytesFrom(after, k);
    assert groups[k + 1..] == after[k + 1..];
  }

  ghost predicate Before(m: Msg, n: Msg) {
    m.at + m.iovlen <= n.at
  }

  ghost predicate Ordered(msgs: seq<Msg>) {
    forall i, j {:trigger Before(msgs[i], msgs[j])} :: 0 <= i < j < |msgs| ==> Before(msgs[i], msgs[j])
  }

  /** A later part of the same slice. */
  ghost predicate Within(m: Msg, whole: Msg) {
    whole.at <= m.at && m.at + m.iovlen == whole.at + whole.iovlen
  }

  lemma SliceTail(q: seq<Iovec>, at: nat, n: nat)
    requires n > 0 && at + n <= |q|
    ensures q[at..at + n][0] == q[at] && q[at..at + n][1..] == q[at + 1..at + n]
  {
  }

  lemma DropTwice(s: seq<byte>, i: nat, j: nat)
    requires i + j <= |s|
    ensures s[i..][j..] == s[i + j..]
  {
  }

  lemma DropFirst(all: seq<byte>, at: nat, g: Group)
    requires g != [] && at <= |all| && Flatten(g) == all[at..]
    ensures at + |g[0]| <= |all| && Flatten(g[1..]) == all[at + |g[0]|..]
  {
    var n := |g[0]|;
    assert Flatten(g) == g[0] + Flatten(g[1..]);
    assert Flatten(g)[n..] == Flatten(g[1..]);
    DropTwice(all, at, n);
  }

  lemma CutFirst(g: Group, n: nat)
    requires g != [] && n <= |g[0]|
    ensures Flatten([g[0][n..]] + g[1..]) == Flatten(g)[n..]
  {
    var h := [g[0][n..]] + g[1..];
    assert h[0] == g[0][n..] && h[1..] == g[1..];
    assert Flatten(g) == g[0] + Flatten(g[1..]);
  }

  lemma {:induction false} TcpPayload(groups: seq<Group>)
    ensures Bytes(groups) == Payload(false, groups)
  {
    if groups != [] {
      TcpPayload(groups[1..]);
    }
  }

  /** One message goes on with a later part of its slice, whose first iovec may be cut. */
  lemma TakeSlices(q: seq<Iovec>, r: seq<Iovec>, msgs: seq<Msg>, groups: seq<Group>, k: nat, m: Msg, h: Group)
    requires AllSlices(q, msgs, groups) && Ordered(msgs) && k < |msgs| && Within(m, msgs[k]) && SliceIn(r, m, h)
    requires |q| == |r| && forall i :: 0 <= i < |q| && !(m.at <= i < m.at + m.iovlen) ==> r[i] == q[i]
    ensures AllSlices(r, msgs[k := m], groups[k := h]) && Ordered(msgs[k := m])
  {
    var msgs', groups' := msgs[k := m], groups[k := h];
    forall i | 0 <= i < |msgs| ensures SliceIn(r, msgs'[i], groups'[i]) {
      if i != k {
        assert SliceIn(q, msgs[i], groups[i]);
        assert if i < k then Before(msgs[i], msgs[k]) else Before(msgs[k], msgs[i]);
      }
    }
    forall i, j | 0 <= i < j < |msgs| ensures Before(msgs'[i], msgs'[j]) {
      assert Before(msgs[i], msgs[j]);
    }
  }

  lemma LongerOk(udp: bool, groups: seq<Group>, buf: Iovec)
    requires AllOk(udp, groups) && groups != [] && |groups[|groups| - 1]| < IOV_MAX
    requires udp ==> Size(groups[|groups| - 1]) + |buf| <= UDP_MAX_PAYLOAD_SIZE
    ensures AllOk(udp, Longer(groups, buf))
  {
    var n := |groups| - 1;
    SizeSnoc(groups[n], buf);
    forall i | 0 <= i < |groups| ensures GroupOk(udp, Longer(groups, buf)[i]) {
      assert GroupOk(udp, groups[i]) && GroupOk(udp, groups[n]);
    }
  }

  ghost predicate SamePlace(m: Msg, m': Msg) {
    m.at == m'.at && m.iovlen == m'.iovlen
  }

  lemma WiderSlices(q: seq<Iovec>, r: seq<Iovec>, msgs: seq<Msg>, groups: seq<Group>)
    requires AllSlices(q, msgs, groups) && |q| <= |r| && q == r[..|q|]
    ensures AllSlices(r, msgs, groups)
  {
    forall i | 0 <= i < |msgs| ensures SliceIn(r, msgs[i], groups[i]) {
      var m := msgs[i];
      assert SliceIn(q, m, groups[i]);
      assert r[m.at..m.at + m.iovlen] == q[m.at..m.at + m.iovlen];
    }
  }

  lemma SameSlices(q: seq<Iovec>, msgs: seq<Msg>, msgs': seq<Msg>, groups: seq<Group>)
    requires AllSlices(q, msgs, groups) && AllAdjoin(msgs) && |msgs| == |msgs'|
    requires forall i {:trigger msgs'[i]} :: 0 <= i < |msgs| ==> SamePlace(msgs'[i], msgs[i])
    ensures AllSlices(q, msgs', groups) && AllAdjoin(msgs') && End(msgs') == End(msgs)
  {
    forall i | 0 <= i < |msgs'| ensures SliceIn(q, msgs'[i], groups[i]) && Adjoins(msgs', i) {
      assert SamePlace(msgs'[i], msgs[i]) && (i > 0 ==> SamePlace(msgs'[i - 1], msgs[i - 1]));
      assert SliceIn(q, msgs[i], groups[i]) && Adjoins(msgs, i);
    }
  }
}
