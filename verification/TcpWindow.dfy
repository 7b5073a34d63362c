/** Which packets of a connection are let in, told from the packets alone: what
    each end has acknowledged, the window it has announced, and how that window
    is scaled (dpi/TcpFragment.cc). */
module TcpWindow {
  import opened SeqArith
  import opened TcpReassembly
  import opened TcpConfluence
  import opened TcpStreams
  import opened TcpProtocol
  import opened TcpOptions
  import opened TcpDelivery

  // ----- What the two ends have said -----

  /** What an end lets the other send: the furthest number it has acknowledged, the window it has announced last,
      and the factor of its window. */
  datatype Grant = Grant(acked: u32, window: u16, scale: nat)

  datatype Talk = Talk(client: Grant, server: Grant)

  /** Of two numbers the one that is ahead, if it is ahead by less than half of the space. */
  function Furthest(acked: u32, ack: u32): u32 {
    if 0 < Ahead(acked, ack) < 0x8000_0000 then ack else acked
  }

  /** The bare next number, or a segment that begins before the end of the window and does not end before what has
      been acknowledged. */
  predicate Admits(g: Grant, pkt: Packet) {
    || (pkt.DataLen() == 0 && pkt.seqNum == g.acked)
    || (Before(pkt.seqNum, U32(g.acked + g.window * g.scale)) && !Before(U32(pkt.seqNum + pkt.DataLen()), g.acked))
  }

  function Granted(t: Talk, toClient: bool): Grant {
    if toClient then t.client else t.server
  }

  /** A packet of the connection, if it is let in, renews what its sender grants. */
  function Hears(t: Talk, fromClient: bool, pkt: Packet): Talk {
    if pkt.syn || pkt.rst || !Admits(Granted(t, !fromClient), pkt) then t
    else
      var g := Granted(t, fromClient);
      var renewed := Grant(if pkt.ackFlag then Furthest(g.acked, pkt.ack) else g.acked, pkt.win, g.scale);
      if fromClient then t.(client := renewed) else t.(server := renewed)
  }

  /** What has been said after these packets; the client sends from `addr`. */
  function TalkAfter(t: Talk, addr: Tuple4, pkts: seq<Packet>): Talk {
    if pkts == [] then t
    else
      var n := |pkts| - 1;
      Hears(TalkAfter(t, addr, pkts[..n]), pkts[n].addr == addr, pkts[n])
  }

  /** The packet brings data or a FIN, and is let in. */
  predicate Brings(g: Grant, pkt: Packet) {
    !pkt.syn && !pkt.rst && (pkt.DataLen() > 0 || pkt.fin) && Admits(g, pkt)
  }

  /** The segments of one direction that are let in. */
  function Admitted(t: Talk, addr: Tuple4, dir: bool, pkts: seq<Packet>): seq<Segment>
    requires Readable(pkts)
  {
    if pkts == [] then []
    else
      var n := |pkts| - 1;
      Admitted(t, addr, dir, pkts[..n])
      + if (pkts[n].addr == addr) == dir && Brings(Granted(TalkAfter(t, addr, pkts[..n]), !dir), pkts[n])
        then [Incoming(pkts[n])] else []
  }

  /** On unbounded positions, `off` for the segment and `a` for what has been acknowledged: a segment with data is let
      in exactly if it begins before the end of the scaled window and ends no earlier than at `a`. */
  lemma AdmitsExact(g: Grant, pkt: Packet, base: int, a: int, off: int)
    requires pkt.DataLen() > 0 && g.acked == U32(base + a) && pkt.seqNum == U32(base + off)
    requires -TWO31 <= off - (a + g.window * g.scale) < TWO31 && -TWO31 <= off + pkt.DataLen() - a < TWO31
    ensures Admits(g, pkt) <==> off < a + g.window * g.scale && a <= off + pkt.DataLen()
  {
    hide U32, Before;
    var w := g.window * g.scale;
    WrapAdd(base + a, w);
    WrapAdd(base + off, pkt.DataLen());
    BeforeExact(base + off, base + a + w);
    BeforeExact(base + off + pkt.DataLen(), base + a);
  }

  // ----- The handshake -----

  /** The factor of an end's window: 1 unless both SYNs carry the option. */
  function ScaleOf(first: Packet, answer: Packet, own: Packet): nat {
    if GetWscale(first.Options()).0 && GetWscale(answer.Options()).0 then GetWscale(own.Options()).1 else 1
  }

  /** What the handshake grants. */
  function Initial(first: Packet, answer: Packet, third: Packet): Talk {
    Talk(Grant(third.ack, third.win, ScaleOf(first, answer, first)),
         Grant(answer.ack, answer.win, ScaleOf(first, answer, answer)))
  }

  /** The shift counts of the window scale options of a list. */
  function Shifts(os: seq<TcpOptions.Option>): seq<byte> {
    if os == [] then [] else (if os[0].Scale? then [os[0].shift] else []) + Shifts(os[1..])
  }

  /** Two to the power of the shift count, which counts up to 14. */
  lemma FactorExact(b: byte)
    ensures Factor(0) == 1 && (0 < b <= 14 ==> Factor(b) == 2 * Factor(b - 1)) && (b >= 14 ==> Factor(b) == 16384)
  {
    assert Pow2(14) == 0x4000 by { assert Pow2(10) == 1024; }
  }

  lemma {:induction false} LastShift(os: seq<TcpOptions.Option>, on: bool, ws: u32)
    ensures LastScale(os, on, ws) ==
            if Shifts(os) == [] then (on, ws) else (true, Factor(Shifts(os)[|Shifts(os)| - 1]))
  {
    hide Factor;
    if os != [] {
      LastShift(os[1..], if os[0].Scale? then true else on, if os[0].Scale? then Factor(os[0].shift) else ws);
    }
  }

  /** With well-formed options in both SYNs the factor is that of the last shift count, if both have one. */
  lemma ScaleExact(first: Packet, answer: Packet, os: seq<TcpOptions.Option>, ps: seq<TcpOptions.Option>)
    requires OptionsOk(os) && OptionsOk(ps) && Follows(first.Options(), Encode(os)) && Follows(answer.Options(), Encode(ps))
    ensures var both := Shifts(os) != [] && Shifts(ps) != [];
            && ScaleOf(first, answer, first) == (if both then Factor(Shifts(os)[|Shifts(os)| - 1]) else 1)
            && ScaleOf(first, answer, answer) == (if both then Factor(Shifts(ps)[|Shifts(ps)| - 1]) else 1)
  {
    hide Factor, GetWscale, LastScale;
    WscaleExact(os, first.Options());
    WscaleExact(ps, answer.Options());
    LastShift(os, false, 1);
    LastShift(ps, false, 1);
  }

  // ----- The tracker lets in just that -----

  /** The stream holds what its ends have granted. */
  predicate Agrees(s: TcpStream, t: Talk) {
    && t.client == Grant(s.client.ackSeq, s.client.window, s.client.wscale)
    && t.server == Grant(s.server.ackSeq, s.server.window, s.server.wscale)
  }

  /** The handshake is over. */
  predicate Running(s: TcpStream) {
    s.connected && s.client.state != SYN_SENT && s.server.state != CLOSE
  }

  lemma FurthestAck(snd: HalfStream, ack: u32)
    ensures HandleAck(snd, ack) == snd.(ackSeq := Furthest(snd.ackSeq, ack))
  {
    hide U32, I32;
    var q := Quotient(ack - snd.ackSeq);
    Congruent(ack - snd.ackSeq, Ahead(snd.ackSeq, ack), q);
    SignOf(Ahead(snd.ackSeq, ack));
  }

  lemma AbsorbGrants(s: TcpStream, fromClient: bool, pkt: Packet)
    requires pkt.DataLen() >= 0 && Running(s)
    ensures var r := Absorb(s, fromClient, pkt).stream;
            && Sender(r, fromClient) == Sender(s, fromClient).(window := pkt.win, state := Sender(r, fromClient).state)
            && Receiver(r, fromClient).ackSeq == Receiver(s, fromClient).ackSeq
            && Receiver(r, fromClient).window == Receiver(s, fromClient).window
            && Receiver(r, fromClient).wscale == Receiver(s, fromClient).wscale
            && r.addr == s.addr && Running(r)
  {
    hide TcpQueue;
    TcpQueueFramed(Sender(s, fromClient), Receiver(s, fromClient), Incoming(pkt));
  }

  lemma AcknowledgeGrants(s: TcpStream, fromClient: bool, pkt: Packet)
    requires Running(s)
    ensures var r := Acknowledge(s, fromClient, pkt);
            && Running(r) && r.addr == s.addr
            && Sender(r, fromClient).ackSeq
               == (if pkt.ackFlag then Furthest(Sender(s, fromClient).ackSeq, pkt.ack) else Sender(s, fromClient).ackSeq)
            && Sender(r, fromClient).wscale == Sender(s, fromClient).wscale
            && Receiver(r, fromClient).ackSeq == Receiver(s, fromClient).ackSeq
            && Receiver(r, fromClient).window == Receiver(s, fromClient).window
            && Receiver(r, fromClient).wscale == Receiver(s, fromClient).wscale
  {
    hide HandleAck, Furthest;
    FurthestAck(Sender(s, fromClient), pkt.ack);
  }

  /** A packet that does not end the stream changes what is granted as the packets say. */
  lemma StepAgrees(s: TcpStream, t: Talk, pkt: Packet)
    requires pkt.DataLen() >= 0 && Running(s) && Agrees(s, t)
    requires !StreamStep(s, FromClient(s, pkt), pkt).free
    ensures var r := StreamStep(s, FromClient(s, pkt), pkt).stream;
            Running(r) && Agrees(r, Hears(t, pkt.addr == s.addr, pkt)) && r.addr == s.addr
    ensures Accepts(s, FromClient(s, pkt), pkt)
            == if Brings(Granted(t, !(pkt.addr == s.addr)), pkt) then [Incoming(pkt)] else []
  {
    hide U32, Before, Absorb, Acknowledge, Furthest, SynAck;
    var fromClient := FromClient(s, pkt);
    assert Admits(Granted(t, !fromClient), pkt) <==> !OutOfWindow(Receiver(s, fromClient), pkt);
    hide OutOfWindow, Admits;
    if !pkt.syn && !pkt.rst && !OutOfWindow(Receiver(s, fromClient), pkt) {
      AcknowledgeGrants(s, fromClient, pkt);
      AbsorbGrants(Acknowledge(s, fromClient, pkt), fromClient, pkt);
    }
  }

  /** Over the packets of a connection that lasts, the segments that reach the queue are those that the packets say. */
  lemma {:induction false} AcceptedIsAdmitted(s0: TcpStream, t: Talk, dir: bool, pkts: seq<Packet>)
    requires Readable(pkts) && Running(s0) && Agrees(s0, t) && Unended(s0, pkts)
    ensures var s := Follow(s0, pkts).stream;
            Running(s) && Agrees(s, TalkAfter(t, s0.addr, pkts)) && s.addr == s0.addr
    ensures Accepted(s0, dir, pkts) == Admitted(t, s0.addr, dir, pkts)
    decreases |pkts|
  {
    hide StreamStep, Accepts, Brings, Hears, Agrees, Running, Granted, Incoming;
    if pkts != [] {
      var n := |pkts| - 1;
      AcceptedIsAdmitted(s0, t, dir, pkts[..n]);
      var s, u := Follow(s0, pkts[..n]).stream, TalkAfter(t, s0.addr, pkts[..n]);
      StepAgrees(s, u, pkts[n]);
      if FromClient(s, pkts[n]) != dir {
        OtherAccepts(s, dir, pkts[n]);
      }
    }
  }

  lemma OtherAccepts(s: TcpStream, dir: bool, pkt: Packet)
    requires pkt.DataLen() >= 0 && FromClient(s, pkt) != dir
    ensures Accepts(s, dir, pkt) == []
  {
  }

  /** After the handshake the stream holds what the three packets have granted. */
  lemma HandshakeAgrees(first: Packet, answer: Packet, third: Packet, hash: Tuple4 -> nat)
    requires IsHandshake(first, answer, third)
    ensures var s := Follow(NewStream(first, hash), [answer, third]).stream;
            s.addr == first.addr && Running(s) && Agrees(s, Initial(first, answer, third))
  {
    hide U32, StreamStep, NewStream, SynAck, GetWscale, ScaleOf;
    var s0 := NewStream(first, hash);
    FollowTwo(s0, answer, third);
    AnswerStep(first, answer, hash);
    AnswerGrants(first, answer, hash);
    ThirdStep(SynAck(s0, answer), third);
  }

  lemma AnswerGrants(first: Packet, answer: Packet, hash: Tuple4 -> nat)
    ensures var s := SynAck(NewStream(first, hash), answer);
            && s.client.wscale == ScaleOf(first, answer, first) && s.server.wscale == ScaleOf(first, answer, answer)
            && s.server.window == answer.win
  {
    hide U32, GetWscale;
    NoScaleIsOne(first.Options(), 0, false, 1);
    FoundScale(first.Options());
  }

  lemma {:induction false} NoScaleIsOne(opts: seq<byte>, ind: nat, on: bool, ws: u32)
    requires 1 <= ws <= 0x4000 && (!on ==> ws == 1)
    ensures !WscaleFrom(opts, ind, on, ws).0 ==> WscaleFrom(opts, ind, on, ws).1 == 1
    decreases |opts| - ind
  {
    hide Factor;
    if ind <= |opts| - 3 && opts[ind] != 0 {
      if opts[ind] == 1 {
        NoScaleIsOne(opts, ind + 1, on, ws);
      } else if opts[ind + 1] >= 2 {
        NoScaleIsOne(opts, ind + opts[ind + 1], on || opts[ind] == 3, if opts[ind] == 3 then Factor(opts[ind + 2]) else ws);
      }
    }
  }

  lemma FoundScale(opts: seq<byte>)
    ensures GetWscale(opts) == WscaleFrom(opts, 0, false, 1)
  {
  }

  lemma {:induction false} UnendedRest(s0: TcpStream, a: seq<Packet>, b: seq<Packet>)
    requires Readable(a) && Readable(b) && Unended(s0, a + b)
    ensures Unended(Follow(s0, a).stream, b)
    decreases |b|
  {
    hide StreamStep, Follow;
    if b != [] {
      var n := |b| - 1;
      assert (a + b)[..|a + b| - 1] == a + b[..n];
      UnendedRest(s0, a, b[..n]);
      FollowAppend(s0, a, b[..n]);
    }
  }

  // ----- Delivery -----

  /** A handshake, then any traffic at all: as long as the stream is in the table, what the application has heard of
      either direction is exactly the longest prefix of its bytes that is covered by the segments let in, which the
      packets of the connection alone determine. */
  lemma DeliveredInTraffic(trace: seq<Packet>, hash: Tuple4 -> nat, s: Tcp, id: StreamId, k: nat,
                           answer: Packet, third: Packet, rest: seq<Packet>,
                           dir: bool, stream: seq<byte>, ps: seq<Piece>)
    requires LivesSince(trace, k, s, id, hash) && IsHandshake(trace[k], answer, third) && !trace[k].junk.urgSeen
    requires Readable(rest) && Own(trace[k + 1..], trace[k].addr) == [answer, third] + rest
    requires Fits(FirstByte(trace[k], answer, dir), stream,
                  Admitted(Initial(trace[k], answer, third), trace[k].addr, dir, rest), ps)
    ensures s.history[id] != [] && s.history[id][0] == Connected(trace[k].addr)
    ensures HeardBytes(s.history[id], Direct(dir)) == stream[..LongestPrefix(ps, |stream|)]
  {
    hide U32, StreamStep, NewStream, Accepted, Admitted, Initial, Fits, LongestPrefix, Follow, Own, HeardBytes, Untouched,
      Unended, Running, Agrees;
    var first := trace[k];
    var l := Follow(NewStream(first, hash), [answer, third]);
    HandshakeConnects(first, answer, third, hash);
    HandshakeAgrees(first, answer, third, hash);
    FollowAppend(NewStream(first, hash), [answer, third], rest);
    UnendedRest(NewStream(first, hash), [answer, third], rest);
    AcceptedIsAdmitted(l.stream, Initial(first, answer, third), dir, rest);
    QuietConnected(l.stream, dir, rest);
    ConversationHeard(FirstByte(first, answer, dir), stream, l.stream, dir, rest, ps);
    assert ps[..0] == [];
    NothingReceived(stream);
    NothingHeard(first.addr, Direct(dir));
    HeardAppend(l.history, Follow(l.stream, rest).history, Direct(dir));
  }
}
