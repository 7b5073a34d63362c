/** One direction of a TCP stream: the out-of-order queue, the delivery of
    in-order data and the urgent byte (dpi/TcpFragment.cc). */
module TcpReassembly {
  import opened SeqArith

  /** TCP data of one segment; an IP datagram cannot carry more. */
  type Payload = s: seq<byte> | |s| <= 65535

  datatype TcpState = ESTABLISHED | SYN_SENT | SYN_RECV | CLOSE | CLOSING | FIN_SENT | FIN_CONFIRMED

  datatype Skbuff = Skbuff(data: Payload, truesize: int, urgPtr: u16, fin: bool, urg: bool, seqNum: u32)

  datatype HalfStream = HalfStream(
    state: TcpState,
    count: i32,
    rmemAlloc: int,
    urgCount: i32,
    ackSeq: u32,
    seqNum: u32,
    firstDataSeq: u32,
    urgSeen: bool,
    urgPtr: u32,
    window: u16,
    wscaleOn: bool,
    wscale: u32,
    fraglist: seq<Skbuff>)

  /** A data segment as the reassembler sees it. */
  datatype Segment = Segment(seqNum: u32, data: Payload, fin: bool, urg: bool, urp: u16, skblen: int)

  function Bit(b: bool): int {
    if b then 1 else 0
  }

  /** The next sequence number wanted from `snd`. */
  function ExpSeq(snd: HalfStream, rcv: HalfStream): u32 {
    U32(snd.firstDataSeq + rcv.count + rcv.urgCount)
  }

  /** What both call sites of `AddFromskb` have checked: the segment does not
      start after the wanted number and ends after it. */
  predicate Reaches(exp: u32, seqNum: u32, len: nat, fin: bool) {
    !After(seqNum, exp) && After(U32(seqNum + len + Bit(fin)), exp)
  }

  /** On every input that passes the guard the already-delivered prefix `lost`
      is part of the segment, so `datalen - lost` does not wrap. */
  lemma LostBounds(exp: u32, seqNum: u32, data: Payload, fin: bool)
    requires Reaches(exp, seqNum, |data|, fin)
    ensures var lost := U32(exp - seqNum);
            lost <= |data| && lost < |data| + Bit(fin) && U32(|data| - lost) == |data| - lost
  {
    var lost := U32(exp - seqNum);
    var k := (exp - seqNum) / TWO32;
    assert exp - seqNum == lost + k * TWO32;
    var e := U32(seqNum + |data| + Bit(fin));
    var m := (seqNum + |data| + Bit(fin)) / TWO32;
    assert exp - e == lost - |data| - Bit(fin) + (k + m) * TWO32;
  }

  /** Result of delivering one segment: both halves, the buffers handed to the
      data callbacks, and whether the FIN timer is armed. */
  datatype Delivery = Delivery(snd: HalfStream, rcv: HalfStream, chunks: seq<seq<byte>>, finTimer: bool)

  /** The urgent byte lies in the part of the segment that is new. */
  predicate UrgentInside(exp: u32, rcv: HalfStream, seqNum: u32, len: nat) {
    rcv.urgSeen && After(U32(rcv.urgPtr + 1), exp) && Before(rcv.urgPtr, U32(seqNum + len))
  }

  /** When it does, it sits at `toCopy` bytes past the wanted number. */
  lemma UrgentBounds(exp: u32, rcv: HalfStream, seqNum: u32, data: Payload, fin: bool)
    requires Reaches(exp, seqNum, |data|, fin) && UrgentInside(exp, rcv, seqNum, |data|)
    ensures var lost := U32(exp - seqNum);
            var toCopy := I32(rcv.urgPtr - exp);
            var toCopy2 := I32(seqNum + |data| - rcv.urgPtr - 1);
            0 <= toCopy && 0 <= toCopy2 && lost + toCopy + 1 + toCopy2 == |data|
  {
    LostBounds(exp, seqNum, data, fin);
    UrgentPlace(exp, seqNum, rcv.urgPtr, |data|);
  }

  lemma UrgentPlace(exp: u32, seqNum: u32, p: u32, len: nat)
    requires U32(exp - seqNum) <= len <= 65535
    requires After(U32(p + 1), exp) && Before(p, U32(seqNum + len))
    ensures 0 <= I32(p - exp) && 0 <= I32(seqNum + len - p - 1)
    ensures U32(exp - seqNum) + I32(p - exp) + 1 + I32(seqNum + len - p - 1) == len
  {
    hide U32, I32, After, Before;
    var lost: int, a: int := U32(exp - seqNum), U32(p - exp);
    var k := Quotient(exp - seqNum);
    var q := Quotient(p - exp);
    WrapSmall(exp);
    WrapSmall(p);
    assert 0 < U32(a + 1) <= TWO31 by {
      AfterMeansAhead(p + 1, exp);
      Congruent(p + 1 - exp, a + 1, q);
    }
    assert TWO31 <= U32(a - (len - lost)) by {
      AfterMeansAhead(p, seqNum + len);
      Congruent(p - (seqNum + len), a - (len - lost), q + k);
    }
    assert I32(p - exp) == I32(a) && I32(seqNum + len - p - 1) == I32(len - lost - a - 1) by {
      Congruent(p - exp, a, q);
      Congruent(seqNum + len - p - 1, len - lost - a - 1, -k - q);
    }
    InsideWindow(a, len - lost);
  }

  lemma InsideWindow(a: nat, r: nat)
    requires a < TWO32 && r <= 65535 && 0 < U32(a + 1) <= TWO31 && TWO31 <= U32(a - r)
    ensures a < r && I32(a) == a && I32(r - a - 1) == r - a - 1
  {
  }

  function MarkUrgent(exp: u32, rcv: HalfStream, urg: bool, urgPtr: u32): HalfStream {
    if urg && After(urgPtr, U32(exp - 1)) && (!rcv.urgSeen || After(urgPtr, rcv.urgPtr))
    then rcv.(urgPtr := urgPtr, urgSeen := true)
    else rcv
  }

  function NonEmpty(s: seq<byte>): seq<seq<byte>> {
    if s == [] then [] else [s]
  }

  /** Deliver the new part of a segment. With an urgent byte inside, the bytes
      before it, the whole segment (for the urgent byte), and the bytes after it
      are handed out; otherwise just the new bytes. */
  function AddFromskb(snd: HalfStream, rcv: HalfStream, data: Payload, seqNum: u32,
                      fin: bool, urg: bool, urgPtr: u32): Delivery
    requires Reaches(ExpSeq(snd, rcv), seqNum, |data|, fin)
  {
    var exp := ExpSeq(snd, rcv);
    var lost := U32(exp - seqNum);
    LostBounds(exp, seqNum, data, fin);
    var rcv1 := MarkUrgent(exp, rcv, urg, urgPtr);
    var snd2 := if fin then snd.(state := FIN_SENT) else snd;
    var finTimer := fin && rcv.state == CLOSING;
    if UrgentInside(exp, rcv1, seqNum, |data|) then
      UrgentBounds(exp, rcv1, seqNum, data, fin);
      var toCopy := I32(rcv1.urgPtr - exp);
      var toCopy2 := I32(seqNum + |data| - rcv1.urgPtr - 1);
      Delivery(snd2,
               rcv1.(count := I32(I32(rcv1.count + toCopy) + toCopy2), urgCount := I32(rcv1.urgCount + 1), urgSeen := false),
               NonEmpty(data[lost..lost + toCopy]) + [data] + NonEmpty(data[lost + toCopy + 1..]),
               finTimer)
    else
      Delivery(snd2, rcv1.(count := I32(rcv1.count + (|data| - lost))), NonEmpty(data[lost..]), finTimer)
  }

  /** Either way the wanted number moves exactly to the end of the segment's data. */
  lemma AddFromskbAdvances(snd: HalfStream, rcv: HalfStream, data: Payload, seqNum: u32,
                           fin: bool, urg: bool, urgPtr: u32)
    requires Reaches(ExpSeq(snd, rcv), seqNum, |data|, fin)
    ensures var d := AddFromskb(snd, rcv, data, seqNum, fin, urg, urgPtr);
            ExpSeq(d.snd, d.rcv) == U32(seqNum + |data|)
  {
    hide U32, I32, After, Before;
    var exp := ExpSeq(snd, rcv);
    LostBounds(exp, seqNum, data, fin);
    var lost := U32(exp - seqNum);
    var rcv1 := MarkUrgent(exp, rcv, urg, urgPtr);
    EndIsFresh(exp, seqNum, |data|, snd.firstDataSeq + rcv.count + rcv.urgCount);
    if UrgentInside(exp, rcv1, seqNum, |data|) {
      UrgentBounds(exp, rcv1, seqNum, data, fin);
      var toCopy := I32(rcv1.urgPtr - exp);
      var toCopy2 := I32(seqNum + |data| - rcv1.urgPtr - 1);
      WrapThrice(snd.firstDataSeq, rcv.count, toCopy, toCopy2, rcv.urgCount);
    } else {
      WrapSigned(rcv.count + (|data| - lost), snd.firstDataSeq + rcv.urgCount);
    }
  }

  lemma EndIsFresh(exp: u32, seqNum: u32, len: nat, total: int)
    requires exp == U32(total)
    ensures U32(total + (len - U32(exp - seqNum))) == U32(seqNum + len)
  {
    hide U32, I32;
    var k := Quotient(exp - seqNum);
    var m := Quotient(total);
    Congruent(total + (len - U32(exp - seqNum)), seqNum + len, k + m);
  }

  lemma WrapThrice(first: int, count: int, a: int, b: int, urgent: int)
    ensures U32(first + I32(I32(count + a) + b) + I32(urgent + 1)) == U32(first + count + urgent + (a + b + 1))
  {
    hide U32, I32;
    var c := I32(count + a);
    WrapSigned(urgent + 1, first + I32(c + b));
    WrapSigned(c + b, first + urgent + 1);
    WrapSigned(count + a, first + b + urgent + 1);
  }

  /** Take the first queue entry, which the wanted number has reached: deliver
      what is new in it, and drop it. */
  function DeliverHead(snd: HalfStream, rcv: HalfStream): (d: Delivery)
    requires rcv.fraglist != [] && !After(rcv.fraglist[0].seqNum, ExpSeq(snd, rcv))
    ensures d.rcv.fraglist == rcv.fraglist[1..]
  {
    var exp := ExpSeq(snd, rcv);
    var frag := rcv.fraglist[0];
    var d := if After(U32(frag.seqNum + |frag.data| + Bit(frag.fin)), exp)
             then AddFromskb(snd, rcv, frag.data, frag.seqNum, frag.fin, frag.urg, U32(frag.urgPtr + frag.seqNum - 1))
             else Delivery(snd, rcv, [], false);
    d.(rcv := d.rcv.(rmemAlloc := d.rcv.rmemAlloc - frag.truesize, fraglist := rcv.fraglist[1..]))
  }

  /** Go forward through the queue, delivering what the wanted number has
      reached and dropping what it has passed. */
  function Drain(snd: HalfStream, rcv: HalfStream): Delivery
    decreases |rcv.fraglist|
  {
    if rcv.fraglist == [] || After(rcv.fraglist[0].seqNum, ExpSeq(snd, rcv)) then
      Delivery(snd, rcv, [], false)
    else
      var d := DeliverHead(snd, rcv);
      var rest := Drain(d.snd, d.rcv);
      rest.(chunks := d.chunks + rest.chunks, finTimer := d.finTimer || rest.finTimer)
  }

  /** Position at which a segment enters the queue: before the first entry that starts after it. */
  function InsertAt(fraglist: seq<Skbuff>, seqNum: u32): (i: nat)
    ensures i <= |fraglist|
  {
    if fraglist == [] || After(fraglist[0].seqNum, seqNum) then 0 else 1 + InsertAt(fraglist[1..], seqNum)
  }

  function Insert(fraglist: seq<Skbuff>, skb: Skbuff): seq<Skbuff> {
    var i := InsertAt(fraglist, skb.seqNum);
    fraglist[..i] + [skb] + fraglist[i..]
  }

  /** `touched` says whether the stream's inactivity timer was restarted. */
  datatype QueueResult = QueueResult(snd: HalfStream, rcv: HalfStream, chunks: seq<seq<byte>>,
                                     touched: bool, finTimer: bool)

  /** One arriving segment. */
  function TcpQueue(snd: HalfStream, rcv: HalfStream, sg: Segment): QueueResult {
    var exp := ExpSeq(snd, rcv);
    if !After(sg.seqNum, exp) then
      if After(U32(sg.seqNum + |sg.data| + Bit(sg.fin)), exp) then
        var d := AddFromskb(snd, rcv, sg.data, sg.seqNum, sg.fin, sg.urg, U32(sg.urp + sg.seqNum - 1));
        var r := Drain(d.snd, d.rcv);
        QueueResult(r.snd, r.rcv, d.chunks + r.chunks, true, d.finTimer || r.finTimer)
      else
        QueueResult(snd, rcv, [], false, false)
    else
      var skb := Skbuff(sg.data, sg.skblen, sg.urp, sg.fin, sg.urg, sg.seqNum);
      QueueResult(if sg.fin then snd.(state := CLOSING) else snd,
                  rcv.(rmemAlloc := rcv.rmemAlloc + sg.skblen, fraglist := Insert(rcv.fraglist, skb)),
                  [], false,
                  sg.fin && (rcv.state == FIN_SENT || rcv.state == FIN_CONFIRMED))
  }
}
