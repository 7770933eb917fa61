/** The scatter/gather output queue of a dserver connection (servernet.c): add_msghdr, ensure_iov_space,
    add_iov and transmit.

    An iovec is kept as the bytes it designates.  A msghdr designates a range of the iov array; `msgs`
    is the ghost view of the queue, one sequence of iovecs for each msghdr.  Allocation succeeds. */
module OutputQueue {

  const IOV_MAX: int := 1024
  const IOV_LIST_INITIAL: nat := 400
  const MSG_LIST_INITIAL: nat := 10
  const MAX_PAYLOAD_SIZE: int := 1400

  type Byte = bv8
  type Iovec = seq<Byte>

  datatype MsgHdr = MsgHdr(iov: nat, iovlen: nat)

  /** The bytes of one message. */
  ghost function Bytes(vs: seq<Iovec>): seq<Byte> {
    if vs == [] then [] else vs[0] + Bytes(vs[1..])
  }

  /** The bytes of a queue of messages. */
  ghost function Flat(ms: seq<seq<Iovec>>): seq<Byte> {
    if ms == [] then [] else Bytes(ms[0]) + Flat(ms[1..])
  }

  lemma {:induction false} BytesAppend(vs: seq<Iovec>, v: Iovec)
    ensures Bytes(vs + [v]) == Bytes(vs) + v
  {
    if vs == [] {
      assert vs + [v] == [v];
      assert Bytes([v]) == v + Bytes([v][1..]);
    } else {
      assert (vs + [v])[1..] == vs[1..] + [v];
      BytesAppend(vs[1..], v);
    }
  }

  lemma {:induction false} FlatAppend(ms: seq<seq<Iovec>>, m: seq<Iovec>)
    ensures Flat(ms + [m]) == Flat(ms) + Bytes(m)
  {
    if ms == [] {
      assert ms + [m] == [m];
      assert Flat([m]) == Bytes(m) + Flat([m][1..]);
    } else {
      assert (ms + [m])[1..] == ms[1..] + [m];
      FlatAppend(ms[1..], m);
    }
  }

  /** Queueing one more iovec on the last message queues its bytes. */
  lemma FlatExtend(ms: seq<seq<Iovec>>, v: Iovec)
    requires ms != []
    ensures var n := |ms| - 1; Flat(ms[n := ms[n] + [v]]) == Flat(ms) + v
  {
    var n := |ms| - 1;
    FlatAppend(ms[..n], ms[n]);
    FlatAppend(ms[..n], ms[n] + [v]);
    BytesAppend(ms[n], v);
    assert ms == ms[..n] + [ms[n]];
    assert ms[n := ms[n] + [v]] == ms[..n] + [ms[n] + [v]];
  }

  ghost predicate Designates(h: MsgHdr, iovs: seq<Iovec>, m: seq<Iovec>) {
    h.iov + h.iovlen <= |iovs| && m == iovs[h.iov..h.iov + h.iovlen]
  }

  ghost predicate Disjoint(hdrs: seq<MsgHdr>) {
    forall i, j :: 0 <= i < j < |hdrs| ==> hdrs[i].iov + hdrs[i].iovlen <= hdrs[j].iov
  }

  /** The msghdrs designate disjoint ranges of the iovecs, in order; the ranges hold the messages. */
  ghost predicate Layout(hdrs: seq<MsgHdr>, iovs: seq<Iovec>, msgs: seq<seq<Iovec>>) {
    && |hdrs| == |msgs| && Disjoint(hdrs)
    && (forall i :: 0 <= i < |hdrs| ==> Designates(hdrs[i], iovs, msgs[i]))
  }

  /** Each msghdr starts where the one before it ends, and the last ends at `n`. */
  ghost predicate Packed(hdrs: seq<MsgHdr>, n: nat) {
    && (hdrs == [] ==> n == 0)
    && (hdrs != [] ==> hdrs[0].iov == 0 && hdrs[|hdrs| - 1].iov + hdrs[|hdrs| - 1].iovlen == n)
    && (forall i, j :: 0 <= i && j == i + 1 < |hdrs| ==> hdrs[j].iov == hdrs[i].iov + hdrs[i].iovlen)
  }

  /** The limits on messages: IOV_MAX pieces each, MAX_PAYLOAD_SIZE bytes in the first. */
  ghost predicate Limited(msgs: seq<seq<Iovec>>) {
    && (msgs != [] ==> |Bytes(msgs[0])| <= MAX_PAYLOAD_SIZE)
    && (forall i :: 0 <= i < |msgs| ==> |msgs[i]| <= IOV_MAX)
  }

  /** Appends an iovec to the last message. */
  ghost function Extended(msgs: seq<seq<Iovec>>, v: Iovec): seq<seq<Iovec>>
    requires msgs != []
  {
    msgs[|msgs| - 1 := msgs[|msgs| - 1] + [v]]
  }

  /** A range still holds its message when another iovec follows, and the last range can take it in. */
  lemma DesignatesMore(h: MsgHdr, iovs: seq<Iovec>, m: seq<Iovec>, v: Iovec)
    requires Designates(h, iovs, m)
    ensures Designates(h, iovs + [v], m)
    ensures h.iov + h.iovlen == |iovs| ==> Designates(MsgHdr(h.iov, h.iovlen + 1), iovs + [v], m + [v])
  {
  }

  lemma PackedExtend(hdrs: seq<MsgHdr>, n: nat, hdrs': seq<MsgHdr>)
    requires Packed(hdrs, n) && Disjoint(hdrs) && hdrs != []
    requires var k := |hdrs| - 1; hdrs' == hdrs[k := MsgHdr(hdrs[k].iov, hdrs[k].iovlen + 1)]
    ensures Packed(hdrs', n + 1) && Disjoint(hdrs')
  {
  }

  lemma LayoutExtend(hdrs: seq<MsgHdr>, iovs: seq<Iovec>, msgs: seq<seq<Iovec>>, v: Iovec, hdrs': seq<MsgHdr>)
    requires Layout(hdrs, iovs, msgs) && Packed(hdrs, |iovs|) && hdrs != [] && msgs != []
    requires var n := |hdrs| - 1; hdrs' == hdrs[n := MsgHdr(hdrs[n].iov, hdrs[n].iovlen + 1)]
    ensures Layout(hdrs', iovs + [v], Extended(msgs, v)) && Packed(hdrs', |iovs| + 1)
  {
    PackedExtend(hdrs, |iovs|, hdrs');
    assert hdrs[|hdrs| - 1].iov + hdrs[|hdrs| - 1].iovlen == |iovs|;
    hide Packed, Disjoint, Designates;
    forall i | 0 <= i < |hdrs| ensures Designates(hdrs'[i], iovs + [v], Extended(msgs, v)[i]) {
      DesignatesMore(hdrs[i], iovs, msgs[i], v);
    }
  }

  lemma LimitedExtend(msgs: seq<seq<Iovec>>, v: Iovec)
    requires Limited(msgs) && msgs != [] && |msgs[|msgs| - 1]| < IOV_MAX
    requires |msgs| == 1 ==> |Bytes(msgs[0])| + |v| <= MAX_PAYLOAD_SIZE
    ensures Limited(Extended(msgs, v)) && |Bytes(Extended(msgs, v)[|msgs| - 1])| == |Bytes(msgs[|msgs| - 1])| + |v|
  {
    BytesAppend(msgs[|msgs| - 1], v);
  }

  /** Starts an empty message. */
  ghost function Opened(msgs: seq<seq<Iovec>>): (r: seq<seq<Iovec>>)
    ensures |r| == |msgs| + 1
  {
    msgs + [[]]
  }

  lemma LayoutNew(hdrs: seq<MsgHdr>, iovs: seq<Iovec>, msgs: seq<seq<Iovec>>, hdrs': seq<MsgHdr>,
                  msgs': seq<seq<Iovec>>)
    requires Layout(hdrs, iovs, msgs) && Packed(hdrs, |iovs|) && Limited(msgs)
    requires hdrs' == hdrs + [MsgHdr(|iovs|, 0)] && msgs' == Opened(msgs)
    ensures Layout(hdrs', iovs, msgs') && Packed(hdrs', |iovs|) && Limited(msgs') && Bytes(msgs'[|msgs|]) == []
  {
  }

  /** The number of iovecs in the first `i` messages. */
  ghost function Offset(hdrs: seq<MsgHdr>, i: nat): nat
    requires i <= |hdrs|
  {
    if i == 0 then 0 else Offset(hdrs, i - 1) + hdrs[i - 1].iovlen
  }

  /** In a packed list msg_iov[i] starts at the sum of the earlier iovlens. */
  lemma {:induction false} PackedOffset(hdrs: seq<MsgHdr>, n: nat, i: nat)
    requires Packed(hdrs, n) && i <= |hdrs|
    ensures Offset(hdrs, i) == if i < |hdrs| then hdrs[i].iov else n
  {
    if i > 0 {
      PackedOffset(hdrs, n, i - 1);
    }
  }

  // ----------------------------------------------------------------- sending

  /** What sendmsg does: it takes at most `max` bytes, or it would block, or it fails. */
  datatype SendResult = Accepts(max: nat) | WouldBlock | Fails

  datatype Status = Complete | Incomplete | SoftError | HardError

  /** The pieces of a message that are left after `n` bytes have gone. */
  ghost function Consume(vs: seq<Iovec>, n: nat): seq<Iovec> {
    if vs == [] then []
    else if |vs[0]| <= n then Consume(vs[1..], n - |vs[0]|)
    else [vs[0][n..]] + vs[1..]
  }

  lemma {:induction false} ConsumeBytes(vs: seq<Iovec>, n: nat)
    requires n <= |Bytes(vs)|
    ensures Bytes(Consume(vs, n)) == Bytes(vs)[n..]
  {
    if vs != [] {
      if |vs[0]| <= n {
        ConsumeBytes(vs[1..], n - |vs[0]|);
      } else {
        assert Bytes([vs[0][n..]] + vs[1..]) == vs[0][n..] + Bytes(([vs[0][n..]] + vs[1..])[1..]);
        assert ([vs[0][n..]] + vs[1..])[1..] == vs[1..];
      }
    }
  }

  /** Changing the first message of a queue. */
  lemma FlatFirst(ms: seq<seq<Iovec>>, n: nat)
    requires ms != [] && n <= |Bytes(ms[0])|
    ensures n <= |Flat(ms)| && Flat(ms)[..n] == Bytes(ms[0])[..n]
    ensures Flat(ms[0 := Consume(ms[0], n)]) == Flat(ms)[n..]
  {
    ConsumeBytes(ms[0], n);
    assert ms[0 := Consume(ms[0], n)][1..] == ms[1..];
  }

  /** The msghdr at `c` moves past `k` iovecs and the next one loses its first `n` bytes. */
  lemma LayoutConsume(hdrs: seq<MsgHdr>, iovs: seq<Iovec>, msgs: seq<seq<Iovec>>, c: nat, h: MsgHdr, iovs': seq<Iovec>,
                      left: seq<Iovec>)
    requires Layout(hdrs, iovs, msgs) && c < |hdrs|
    requires hdrs[c].iov <= h.iov && h.iov + h.iovlen == hdrs[c].iov + hdrs[c].iovlen
    requires |iovs'| == |iovs|
    requires forall i :: 0 <= i < |iovs| && !(h.iov <= i < h.iov + h.iovlen) ==> iovs'[i] == iovs[i]
    requires left == iovs'[h.iov..h.iov + h.iovlen]
    ensures Layout(hdrs[c := h], iovs', msgs[c := left])
  {
    forall i | 0 <= i < |hdrs| && i != c ensures msgs[i] == iovs'[hdrs[i].iov..hdrs[i].iov + hdrs[i].iovlen] {
    }
  }

  lemma FlatNone()
    ensures Flat([]) == []
  {
  }

  lemma SkipEmpty(ms: seq<seq<Iovec>>, c: nat)
    requires c < |ms| && ms[c] == []
    ensures Flat(ms[c..]) == Flat(ms[c + 1..])
  {
    assert ms[c..][1..] == ms[c + 1..];
  }

  /** The loop of transmit over completed iovec entries. */
  method SkipSent(iov: seq<Iovec>, m: MsgHdr, res: nat, ghost iovs: seq<Iovec>) returns (h: MsgHdr, left: nat)
    requires iovs <= iov && m.iov + m.iovlen <= |iovs| && res <= |Bytes(iovs[m.iov..m.iov + m.iovlen])|
    ensures m.iov <= h.iov && h.iov + h.iovlen == m.iov + m.iovlen
    ensures h.iovlen == 0 ==> left == 0 && Consume(iovs[m.iov..m.iov + m.iovlen], res) == []
    ensures h.iovlen > 0 ==> left < |iovs[h.iov]|
    ensures h.iovlen > 0 ==>
              Consume(iovs[m.iov..m.iov + m.iovlen], res) == [iovs[h.iov][left..]] + iovs[h.iov + 1..h.iov + h.iovlen]
  {
    h, left := m, res;
    ghost var end := m.iov + m.iovlen;
    while h.iovlen > 0 && left >= |iov[h.iov]|
      invariant m.iov <= h.iov && h.iov + h.iovlen == end
      invariant Consume(iovs[m.iov..end], res) == Consume(iovs[h.iov..end], left)
      invariant left <= |Bytes(iovs[h.iov..end])|
      decreases h.iovlen
    {
      assert iovs[h.iov..end][1..] == iovs[h.iov + 1..end];
      left := left - |iov[h.iov]|;
      h := MsgHdr(h.iov + 1, h.iovlen - 1);
    }
    if h.iovlen > 0 {
      assert iovs[h.iov..end][1..] == iovs[h.iov + 1..end];
    }
  }

  /** The number of bytes a msghdr designates, which bounds what sendmsg can return. */
  method Total(iov: seq<Iovec>, m: MsgHdr, ghost iovs: seq<Iovec>) returns (n: nat)
    requires iovs <= iov && m.iov + m.iovlen <= |iovs|
    ensures n == |Bytes(iovs[m.iov..m.iov + m.iovlen])|
  {
    n := 0;
    var i := m.iov + m.iovlen;
    ghost var end := m.iov + m.iovlen;
    while i > m.iov
      invariant m.iov <= i <= end && n == |Bytes(iovs[i..end])|
    {
      i := i - 1;
      assert iovs[i..end][1..] == iovs[i + 1..end];
      n := n + |iov[i]|;
    }
  }

  class Queue {
    var iov: seq<Iovec>          // iovsize elements
    var iovused: nat
    var msglist: seq<MsgHdr>     // msgsize elements
    var msgused: nat
    var msgcurr: nat
    var msgbytes: nat
    ghost var msgs: seq<seq<Iovec>>

    ghost predicate Valid()
      reads this
    {
      && 0 < |iov| && iovused <= |iov|
      && 0 < |msglist| && msgcurr <= msgused <= |msglist| && |msgs| == msgused
      && Layout(msglist[..msgused], iov[..iovused], msgs)
    }

    /** Nothing has been sent yet. */
    ghost predicate Built()
      reads this
    {
      && Valid() && msgcurr == 0 && Packed(msglist[..msgused], iovused) && Limited(msgs)
      && (msgs != [] ==> msgbytes == |Bytes(msgs[|msgs| - 1])|)
    }

    /** The bytes still to be sent. */
    ghost function Pending(): seq<Byte>
      requires msgcurr <= |msgs|
      reads this
    {
      Flat(msgs[msgcurr..])
    }

    /** conn_new */
    constructor ()
      ensures Built() && msgs == []
    {
      iov, iovused := seq(IOV_LIST_INITIAL, _ => []), 0;
      msglist, msgused := seq(MSG_LIST_INITIAL, _ => MsgHdr(0, 0)), 0;
      msgcurr, msgbytes, msgs := 0, 0, [];
    }

    /** The reset at the start of process_command. */
    method Reset()
      requires Valid()
      modifies this
      ensures Built() && msgs == [[]]
    {
      msgcurr, msgused, iovused, msgs := 0, 0, 0, [];
      AddMsghdr();
    }

    /** add_msghdr */
    method AddMsghdr()
      requires Built()
      modifies this
      ensures Built() && msgs == Opened(old(msgs)) && msgbytes == 0
    {
      ghost var hdrs, iovs := msglist[..msgused], iov[..iovused];
      if |msglist| == msgused {
        msglist := msglist + seq(|msglist|, _ => MsgHdr(0, 0));   // realloc to twice the size
      }
      msglist := msglist[msgused := MsgHdr(iovused, 0)];
      msgbytes := 0;
      msgused := msgused + 1;
      msgs := Opened(msgs);
      LayoutNew(hdrs, iovs, old(msgs), msglist[..msgused], msgs);
    }

    /** ensure_iov_space */
    method EnsureIovSpace()
      requires Built()
      modifies this
      ensures Built() && iovused < |iov| && msgs == old(msgs) && msgbytes == old(msgbytes)
    {
      if iovused >= |iov| {
        ghost var iovs, hdrs := iov[..iovused], msglist[..msgused];
        iov := iov + seq(|iov|, _ => []);   // realloc to twice the size
        assert iov[..iovused] == iovs;
        var i, iovnum := 0, 0;
        while i < msgused
          invariant 0 <= i <= msgused && iovnum == Offset(hdrs, i)
          invariant msgused <= |msglist| && msglist[..msgused] == hdrs
          modifies this`msglist
        {
          PackedOffset(hdrs, iovused, i);
          msglist := msglist[i := msglist[i].(iov := iovnum)];
          iovnum := iovnum + msglist[i].iovlen;
          i := i + 1;
        }
      }
    }

    /** The end of the loop body of add_iov: one more iovec on the last message. */
    method Push(v: Iovec)
      requires Built() && msgs != [] && iovused < |iov|
      requires |msgs[|msgs| - 1]| < IOV_MAX && (|msgs| == 1 ==> msgbytes + |v| <= MAX_PAYLOAD_SIZE)
      modifies this
      ensures Built() && msgs == Extended(old(msgs), v) && msgbytes == old(msgbytes) + |v|
    {
      hide Layout, Limited;
      ghost var hdrs, iovs := msglist[..msgused], iov[..iovused];
      LimitedExtend(msgs, v);
      var m := msglist[msgused - 1];
      iov := iov[m.iov + m.iovlen := v];
      msgbytes := msgbytes + |v|;
      iovused := iovused + 1;
      msglist := msglist[msgused - 1 := MsgHdr(m.iov, m.iovlen + 1)];
      LayoutExtend(hdrs, iovs, msgs, v, msglist[..msgused]);
      msgs := Extended(msgs, v);
      assert iov[..iovused] == iovs + [v];
    }
  
    lemma LastLength()
      requires Valid() && msgs != []
      ensures msglist[msgused - 1].iovlen == |msgs[|msgs| - 1]|
    {
      assert msglist[..msgused][msgused - 1] == msglist[msgused - 1];
    }

    /** The loop body of add_iov: queues the first `len` bytes of `rest`. */
    method AddPiece(rest: Iovec) returns (len: nat)
      requires Built() && msgs != []
      modifies this
      ensures Built() && msgs != [] && len <= |rest| && Flat(msgs) == old(Flat(msgs)) + rest[..len]
      ensures len < |rest| ==> len > 0
      ensures var ms := old(msgs);
              var full := |ms[|ms| - 1]| == IOV_MAX || (|ms| == 1 && old(msgbytes) >= MAX_PAYLOAD_SIZE);
              msgs == Extended(if full then Opened(ms) else ms, rest[..len])
      ensures len == |rest| || (|old(msgs)| == 1 && msgbytes == MAX_PAYLOAD_SIZE)
    {
      hide Layout, Packed, Flat;
      var limitToMtu := msgused == 1;
      LastLength();
      if msglist[msgused - 1].iovlen == IOV_MAX || (limitToMtu && msgbytes >= MAX_PAYLOAD_SIZE) {
        FlatAppend(msgs, []);
        AddMsghdr();
      }
      EnsureIovSpace();
      var leftover := if limitToMtu && |rest| + msgbytes > MAX_PAYLOAD_SIZE
                      then |rest| + msgbytes - MAX_PAYLOAD_SIZE else 0;
      len := |rest| - leftover;
      FlatExtend(msgs, rest[..len]);
      Push(rest[..len]);
    }

    /** add_iov */
    method AddIov(buf: Iovec)
      requires Built() && msgs != []
      modifies this
      ensures Built() && msgs != [] && Flat(msgs) == old(Flat(msgs)) + buf
    {
      hide Built, Flat;
      var rest, again := buf, true;
      while again
        invariant Built() && msgs != [] && Flat(msgs) + rest == old(Flat(msgs)) + buf
        invariant !again ==> rest == []
        decreases |rest| + if again then 1 else 0
      {
        var len := AddPiece(rest);
        assert rest == rest[..len] + rest[len..];
        rest := rest[len..];
        again := |rest| > 0;
      }
    }
  
    /** The message that transmit offers to sendmsg. */
    ghost function Current(): nat
      requires msgcurr <= |msgs|
      reads this
    {
      if msgcurr < |msgs| && msgs[msgcurr] == [] then msgcurr + 1 else msgcurr
    }

    /** The end of transmit: drops `res` bytes from the message at `msgcurr`. */
    method Advance(res: nat)
      requires Valid() && msgcurr < msgused && res <= |Bytes(msgs[msgcurr])|
      modifies this
      ensures Valid() && msgcurr == old(msgcurr) && msgs == old(msgs)[msgcurr := Consume(old(msgs)[msgcurr], res)]
    {
      ghost var hdrs, iovs := msglist[..msgused], iov[..iovused];
      assert hdrs[msgcurr] == msglist[msgcurr];
      var h, left := SkipSent(iov, msglist[msgcurr], res, iovs);
      msglist := msglist[msgcurr := h];
      if left > 0 {
        iov := iov[h.iov := iov[h.iov][left..]];
      }
      LayoutConsume(hdrs, iovs, msgs, msgcurr, h, iov[..iovused], Consume(msgs[msgcurr], res));
      msgs := msgs[msgcurr := Consume(msgs[msgcurr], res)];
      assert msglist[..msgused] == hdrs[msgcurr := h];
    }

    /** What sendmsg returns for the message at `msgcurr`: it cannot take more bytes than it is offered. */
    method SendMsg(max: nat) returns (res: nat)
      requires Valid() && msgcurr < msgused
      ensures res == if max < |Bytes(msgs[msgcurr])| then max else |Bytes(msgs[msgcurr])|
    {
      assert msglist[..msgused][msgcurr] == msglist[msgcurr];
      var offered := Total(iov, msglist[msgcurr], iov[..iovused]);
      res := if max < offered then max else offered;
    }

    /** transmit, after it has moved past a finished message. */
    method TransmitCurrent(send: SendResult) returns (status: Status, ghost sent: seq<Byte>)
      requires Valid() && msgcurr < msgused
      modifies this
      ensures Valid() && |msgs| == |old(msgs)| && msgcurr == old(msgcurr)
      ensures old(Pending()) == sent + Pending()
      ensures !status.Complete? && (status.Incomplete? <==> sent != []) && (status.SoftError? <==> send.WouldBlock?)
      ensures send.Accepts? ==>
                |sent| == if send.max < |Bytes(old(msgs)[msgcurr])| then send.max else |Bytes(old(msgs)[msgcurr])|
    {
      hide Layout, Flat, Bytes, Consume;
      sent := [];
      match send {
        case Accepts(max) =>
          var res := SendMsg(max);
          if res == 0 {
            return HardError, sent;
          }
          ghost var pending := msgs[msgcurr..];
          FlatFirst(pending, res);
          sent := Flat(pending)[..res];
          Advance(res);
          assert msgs[msgcurr..] == pending[0 := Consume(pending[0], res)];
          status := Incomplete;
        case WouldBlock => status := SoftError;
        case Fails => status := HardError;
      }
    }

    /** transmit */
    method Transmit(send: SendResult) returns (status: Status, ghost sent: seq<Byte>)
      requires Valid()
      modifies this
      ensures Valid() && |msgs| == |old(msgs)| && msgcurr == old(Current())
      ensures old(Pending()) == sent + Pending()
      ensures status.Complete? <==> msgcurr == |msgs|
      ensures status.Complete? ==> sent == [] && Pending() == []
      ensures status.Incomplete? <==> sent != []
      ensures msgcurr < |msgs| ==> (status.SoftError? <==> send.WouldBlock?)
      ensures msgcurr < |msgs| && send.Accepts? ==>
                |sent| == if send.max < |Bytes(old(msgs)[msgcurr])| then send.max else |Bytes(old(msgs)[msgcurr])|
    {
      hide Flat, Bytes;
      status, sent := Complete, [];
      if msgcurr < msgused {
        assert msglist[..msgused][msgcurr] == msglist[msgcurr];
        if msglist[msgcurr].iovlen == 0 {
          SkipEmpty(msgs, msgcurr);
          msgcurr := msgcurr + 1;
        }
      }
      if msgcurr < msgused {
        status, sent := TransmitCurrent(send);
      } else {
        assert msgs[msgcurr..] == [];
        FlatNone();
      }
    }

    /** Any number of calls to transmit, in one wake-up or over several: together they send a prefix of what was
        queued, and all of it exactly once when the last one reports completion. */
    method Drain(sends: seq<SendResult>) returns (status: Status, ghost sent: seq<Byte>)
      requires Valid()
      modifies this
      ensures Valid() && old(Pending()) == sent + Pending()
      ensures status.Complete? ==> sent == old(Pending())
    {
      hide Layout, Flat;
      status, sent := Incomplete, [];
      var n := 0;
      while n < |sends| && (status.Incomplete? || status.SoftError?)
        invariant n <= |sends| && Valid() && old(Pending()) == sent + Pending()
        invariant status.Complete? ==> Pending() == []
      {
        ghost var more;
        status, more := Transmit(sends[n]);
        sent := sent + more;
        n := n + 1;
      }
    }
  
    /** A whole reply: whatever was in the queue before, any buffers queued by add_iov and any sequence of
        partial sends put exactly a prefix of the buffers' bytes on the wire, and all of them on completion. */
    method Reply(bufs: seq<Iovec>, sends: seq<SendResult>) returns (status: Status, ghost sent: seq<Byte>)
      requires Valid()
      modifies this
      ensures Valid() && sent <= Bytes(bufs)
      ensures status.Complete? ==> sent == Bytes(bufs)
    {
      hide Layout, Packed, Limited;
      Reset();
      var n := 0;
      assert bufs[..0] == [];
      while n < |bufs|
        invariant n <= |bufs| && Built() && msgs != [] && Flat(msgs) == Bytes(bufs[..n])
      {
        AddIov(bufs[n]);
        BytesAppend(bufs[..n], bufs[n]);
        assert bufs[..n] + [bufs[n]] == bufs[..n + 1];
        n := n + 1;
      }
      assert bufs[..n] == bufs && msgs[msgcurr..] == msgs;
      status, sent := Drain(sends);
    }
  }
}
