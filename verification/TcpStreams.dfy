/** The TCP tracker as a function of its state: stream table, timers,
    handshake, teardown and the callbacks each stream has seen
    (dpi/TcpFragment.cc, dpi/TcpFragment.h). */
module TcpStreams {
  import opened SetFacts
  import opened SeqArith
  import opened TcpReassembly

  datatype Endpoint = Endpoint(ip: u32, port: u16)

  datatype Tuple4 = Tuple4(src: Endpoint, dst: Endpoint) {
    function Reversed(): Tuple4 { Tuple4(dst, src) }
  }

  /** Stands for the address of a table node; never reused. */
  type StreamId = nat

  datatype TcpStream = TcpStream(addr: Tuple4, hashIndex: nat, client: HalfStream, server: HalfStream,
                                 connected: bool, ts: int)

  datatype Direction = FROMCLIENT | FROMSERVER

  /** One callback invocation for a stream. */
  datatype Event =
    | Connected(addr: Tuple4)
    | Data(dir: Direction, bytes: seq<byte>)
    | Closed
    | Reset
    | TimedOut

  /** An IP datagram holding a TCP segment: `segment` is everything after the IP
      header, `thOff` the header length field. `junk` stands for whatever memory
      held before, which uninitialised stream fields keep. */
  datatype Packet = Packet(
    addr: Tuple4, segment: Payload, thOff: nat,
    seqNum: u32, ack: u32,
    syn: bool, ackFlag: bool, rst: bool, fin: bool, urg: bool,
    win: u16, urp: u16, skblen: int, now: int,
    junk: HalfStream)
  {
    function DataLen(): int { |segment| - 4 * thOff }

    /** The length and address checks at the top of `processTcp`. */
    predicate Sound() {
      |segment| >= 20 && DataLen() >= 0 && !(addr.src.ip == 0 && addr.dst.ip == 0)
    }

    function Body(): Payload
      requires DataLen() >= 0
    {
      segment[4 * thOff..]
    }

    /** First packet of a handshake. */
    predicate Opens() { syn && !ackFlag && !rst }

    function Options(): seq<byte> {
      if 20 <= 4 * thOff <= |segment| then segment[20..4 * thOff] else []
    }
  }

  // ----- Window scale option -----

  function Pow2(n: nat): nat {
    if n == 0 then 1 else 2 * Pow2(n - 1)
  }

  lemma {:induction false} Pow2Monotone(a: nat, b: nat)
    requires a <= b
    ensures 1 <= Pow2(a) <= Pow2(b)
  {
    if a < b {
      Pow2Monotone(a, b - 1);
    } else if a > 0 {
      Pow2Monotone(a - 1, b - 1);
    }
  }

  function Shift(b: byte): nat {
    if b > 14 then 14 else b
  }

  /** The factor a shift count stands for. */
  function Factor(b: byte): (f: u32)
    ensures 1 <= f <= 0x4000
  {
    Pow2Monotone(Shift(b), 14);
    assert Pow2(14) == 0x4000 by { assert Pow2(10) == 1024; }
    Pow2(Shift(b))
  }

  /** The option walk from `ind` on; `on` and `ws` are what has been found so far. */
  function WscaleFrom(opts: seq<byte>, ind: nat, on: bool, ws: u32): (r: (bool, u32))
    requires 1 <= ws <= 0x4000
    ensures 1 <= r.1 <= 0x4000
    decreases |opts| - ind
  {
    if ind > |opts| - 3 || opts[ind] == 0 then (on, ws)
    else if opts[ind] == 1 then WscaleFrom(opts, ind + 1, on, ws)
    else
      var (on1, ws1) := if opts[ind] == 3 then (true, Factor(opts[ind + 2])) else (on, ws);
      if opts[ind + 1] < 2 then (on1, ws1)
      else WscaleFrom(opts, ind + opts[ind + 1], on1, ws1)
  }

  /** Whether the option is present, and the factor (1 when it is not). */
  function GetWscale(opts: seq<byte>): (bool, u32) {
    WscaleFrom(opts, 0, false, 1)
  }

  // ----- Timers: a set ordered by second, so one entry per second -----

  type Timers = map<int, StreamId>

  /** Insertion does nothing when the second is already taken. */
  function AddTimeout(timers: Timers, id: StreamId, second: int): Timers {
    if second in timers then timers else timers[second := id]
  }

  function DelTimeout(timers: Timers, id: StreamId): Timers {
    map t | t in timers && timers[t] != id :: timers[t]
  }

  ghost predicate IsFirst(timers: Timers, t: int) {
    t in timers && forall u :: u in timers ==> t <= u
  }

  lemma FirstExists(timers: Timers)
    requires timers != map[]
    ensures exists t :: IsFirst(timers, t)
  {
    assert timers.Keys == {} ==> timers == map[];
    LeastExists(timers.Keys);
    var t :| IsLeast(timers.Keys, t);
    assert IsFirst(timers, t);
  }

  ghost function First(timers: Timers): (t: int)
    requires timers != map[]
    ensures IsFirst(timers, t)
  {
    FirstExists(timers);
    var t :| IsFirst(timers, t);
    t
  }

  lemma DelTimeoutShrinks(timers: Timers, t: int)
    requires t in timers
    ensures |DelTimeout(timers, timers[t])| < |timers|
  {
    var rest := DelTimeout(timers, timers[t]);
    assert rest.Keys < timers.Keys;
    ProperSubsetSize(rest.Keys, timers.Keys);
    assert |rest.Keys| == |rest| && |timers.Keys| == |timers|;
  }

  // ----- The tracker -----

  datatype Tcp = Tcp(
    streams: map<StreamId, TcpStream>,
    tcpTimeouts: Timers,
    finTimeouts: Timers,
    nextId: StreamId,
    history: map<StreamId, seq<Event>>)

  const EMPTY: Tcp := Tcp(map[], map[], map[], 0, map[])

  function Log(s: Tcp, id: StreamId, events: seq<Event>): Tcp {
    s.(history := s.history[id := (if id in s.history then s.history[id] else []) + events])
  }

  function Free(s: Tcp, id: StreamId): Tcp {
    s.(streams := s.streams - {id},
       tcpTimeouts := DelTimeout(s.tcpTimeouts, id),
       finTimeouts := DelTimeout(s.finTimeouts, id))
  }

  /** Report one event if the stream is connected. */
  function Report(s: Tcp, id: StreamId, e: Event): Tcp {
    if id in s.streams && s.streams[id].connected then Log(s, id, [e]) else s
  }

  ghost function CheckTcpTimeouts(s: Tcp, now: int): Tcp
    decreases |s.tcpTimeouts|
  {
    if s.tcpTimeouts == map[] || now < First(s.tcpTimeouts) then s
    else
      var id := s.tcpTimeouts[First(s.tcpTimeouts)];
      DelTimeoutShrinks(s.tcpTimeouts, First(s.tcpTimeouts));
      CheckTcpTimeouts(Free(Report(s, id, TimedOut), id), now)
  }

  ghost function CheckFinTimeouts(s: Tcp, now: int): Tcp
    decreases |s.finTimeouts|
  {
    if s.finTimeouts == map[] || now < First(s.finTimeouts) then s
    else
      var id := s.finTimeouts[First(s.finTimeouts)];
      DelTimeoutShrinks(s.finTimeouts, First(s.finTimeouts));
      CheckFinTimeouts(Free(Report(s, id, Closed), id), now)
  }

  ghost function CheckTimeouts(s: Tcp, now: int): Tcp {
    CheckFinTimeouts(CheckTcpTimeouts(s, now), now)
  }

  /** Report a timeout on every connected stream, then empty the table and the timers. */
  function ClearAll(s: Tcp): Tcp {
    s.(streams := map[], tcpTimeouts := map[], finTimeouts := map[],
       history := map id | id in s.history ::
         if id in s.streams && s.streams[id].connected then s.history[id] + [TimedOut] else s.history[id])
  }

  /** A stream just opened. Fields the code leaves uninitialised keep `junk`. */
  function NewStream(pkt: Packet, hash: Tuple4 -> nat): TcpStream {
    var (on, ws) := GetWscale(pkt.Options());
    var first := U32(pkt.seqNum + 1);
    var half := pkt.junk.(count := 0, rmemAlloc := 0, ackSeq := 0, urgCount := 0, fraglist := []);
    TcpStream(pkt.addr, hash(pkt.addr),
              half.(state := SYN_SENT, seqNum := first, firstDataSeq := first, window := pkt.win,
                    wscaleOn := on, wscale := ws),
              half.(state := CLOSE), false, pkt.now)
  }

  function AddNew(s: Tcp, pkt: Packet, hash: Tuple4 -> nat, tableSize: nat): Tcp {
    var s1 := if |s.streams| >= tableSize then ClearAll(s) else s;
    Tcp(s1.streams[s1.nextId := NewStream(pkt, hash)],
        AddTimeout(s1.tcpTimeouts, s1.nextId, pkt.now + 30),
        s1.finTimeouts, s1.nextId + 1, s1.history[s1.nextId := []])
  }

  /** What one packet does to its stream. */
  datatype Outcome = Outcome(stream: TcpStream, events: seq<Event>, free: bool, touched: bool, finTimer: bool)

  function Stay(s: TcpStream): Outcome {
    Outcome(s, [], false, false, false)
  }

  function Sender(s: TcpStream, fromClient: bool): HalfStream {
    if fromClient then s.client else s.server
  }

  function Receiver(s: TcpStream, fromClient: bool): HalfStream {
    if fromClient then s.server else s.client
  }

  function WithHalves(s: TcpStream, fromClient: bool, snd: HalfStream, rcv: HalfStream): TcpStream {
    if fromClient then s.(client := snd, server := rcv) else s.(client := rcv, server := snd)
  }

  /** The server's answer matches the handshake in progress. */
  predicate AcceptsSynAck(s: TcpStream, fromClient: bool, pkt: Packet) {
    && pkt.syn && pkt.ackFlag && !fromClient
    && s.client.state == SYN_SENT && s.server.state == CLOSE
    && s.client.seqNum == pkt.ack
  }

  function SynAck(s: TcpStream, pkt: Packet): TcpStream {
    var first := U32(pkt.seqNum + 1);
    var server := s.server.(state := SYN_RECV, seqNum := first, firstDataSeq := first,
                            ackSeq := pkt.ack, window := pkt.win);
    var (on, ws) := GetWscale(pkt.Options());
    if s.client.wscaleOn then
      if on then s.(ts := pkt.now, server := server.(wscaleOn := true, wscale := ws))
      else s.(ts := pkt.now, server := server.(wscaleOn := false, wscale := 1),
              client := s.client.(wscaleOn := false, wscale := 1))
    else s.(ts := pkt.now, server := server.(wscaleOn := false, wscale := 1))
  }

  /** Neither the bare next acknowledgement nor inside the receiver's window. */
  predicate OutOfWindow(rcv: HalfStream, pkt: Packet)
    requires pkt.DataLen() >= 0
  {
    && !(pkt.DataLen() == 0 && pkt.seqNum == rcv.ackSeq)
    && (!Before(pkt.seqNum, U32(rcv.ackSeq + rcv.window * rcv.wscale)) ||
        Before(U32(pkt.seqNum + pkt.DataLen()), rcv.ackSeq))
  }

  /** The third packet of the handshake. */
  predicate Completes(s: TcpStream, fromClient: bool, pkt: Packet) {
    && pkt.ackFlag && fromClient
    && s.client.state == SYN_SENT && s.server.state == SYN_RECV
    && pkt.ack == s.server.seqNum
  }

  function Establish(s: TcpStream, pkt: Packet): TcpStream {
    s.(client := s.client.(state := ESTABLISHED, ackSeq := pkt.ack), ts := pkt.now,
       server := s.server.(state := ESTABLISHED), connected := true)
  }

  function HandleAck(snd: HalfStream, ack: u32): HalfStream {
    if I32(ack - snd.ackSeq) > 0 then snd.(ackSeq := ack) else snd
  }

  function Acknowledge(s: TcpStream, fromClient: bool, pkt: Packet): TcpStream {
    if !pkt.ackFlag then s
    else
      var rcv := Receiver(s, fromClient);
      WithHalves(s, fromClient, HandleAck(Sender(s, fromClient), pkt.ack),
                 if rcv.state == FIN_SENT then rcv.(state := FIN_CONFIRMED) else rcv)
  }

  function DataEvents(chunks: seq<seq<byte>>, dir: Direction): seq<Event> {
    seq(|chunks|, i requires 0 <= i < |chunks| => Data(dir, chunks[i]))
  }

  function Incoming(pkt: Packet): Segment
    requires pkt.DataLen() >= 0
  {
    Segment(pkt.seqNum, pkt.Body(), pkt.fin, pkt.urg, pkt.urp, pkt.skblen)
  }

  /** Queue the data, if any, then the window update and the memory limit. */
  function Absorb(s: TcpStream, fromClient: bool, pkt: Packet): Outcome
    requires pkt.DataLen() >= 0
  {
    var snd, rcv := Sender(s, fromClient), Receiver(s, fromClient);
    var q := if pkt.DataLen() + Bit(pkt.fin) > 0 then TcpQueue(snd, rcv, Incoming(pkt))
             else QueueResult(snd, rcv, [], false, false);
    Outcome(WithHalves(s, fromClient, q.snd.(window := pkt.win), q.rcv),
            if s.connected then DataEvents(q.chunks, if fromClient then FROMCLIENT else FROMSERVER) else [],
            q.rcv.rmemAlloc > 65535, q.touched, q.finTimer)
  }

  /** A packet for a live stream, other than one that opens a stream anew. */
  function StreamStep(s: TcpStream, fromClient: bool, pkt: Packet): Outcome
    requires pkt.DataLen() >= 0
  {
    if pkt.syn then
      if AcceptsSynAck(s, fromClient, pkt) then Stay(SynAck(s, pkt)) else Stay(s)
    else if OutOfWindow(Receiver(s, fromClient), pkt) then Stay(s)
    else if pkt.rst then
      Outcome(s, if s.connected then [Reset] else [], true, false, false)
    else
      var completes := Completes(s, fromClient, pkt);
      var s1 := Acknowledge(if completes then Establish(s, pkt) else s, fromClient, pkt);
      var opening := if completes then [Connected(s.addr)] else [];
      if pkt.ackFlag && s1.client.state == FIN_CONFIRMED && s1.server.state == FIN_CONFIRMED then
        Outcome(s1, opening + if s1.connected then [Closed] else [], true, false, false)
      else
        var a := Absorb(s1, fromClient, pkt);
        a.(events := opening + a.events)
  }

  datatype Found = NotFound | Stream(id: StreamId, fromClient: bool)

  ghost predicate HasAddr(s: Tcp, id: StreamId, addr: Tuple4) {
    id in s.streams && s.streams[id].addr == addr
  }

  /** The stream of a packet and its direction. */
  ghost function Lookup(s: Tcp, addr: Tuple4): Found {
    if exists id :: HasAddr(s, id, addr) then
      var id :| HasAddr(s, id, addr); Stream(id, true)
    else if exists id :: HasAddr(s, id, addr.Reversed()) then
      var id :| HasAddr(s, id, addr.Reversed()); Stream(id, false)
    else NotFound
  }

  /** Restart a stream's inactivity timer. */
  function Restart(timers: Timers, id: StreamId, second: int): Timers {
    AddTimeout(DelTimeout(timers, id), id, second)
  }

  /** Record an outcome in the table, the timers and the history. */
  function Record(s: Tcp, id: StreamId, o: Outcome, now: int): Tcp {
    Log(s.(streams := s.streams[id := o.stream],
           tcpTimeouts := if o.touched then Restart(s.tcpTimeouts, id, now + 30) else s.tcpTimeouts,
           finTimeouts := if o.finTimer then AddTimeout(s.finTimeouts, id, now + 5) else s.finTimeouts),
        id, o.events)
  }

  function Apply(s: Tcp, id: StreamId, o: Outcome, now: int): Tcp {
    var r := Record(s, id, o, now);
    if o.free then Free(r, id) else r
  }

  /** One captured packet. */
  ghost function Process(s: Tcp, pkt: Packet, hash: Tuple4 -> nat, tableSize: nat): Tcp {
    var s0 := CheckTimeouts(s, pkt.now);
    if !pkt.Sound() then s0
    else
      match Lookup(s0, pkt.addr)
      case NotFound => if pkt.Opens() then AddNew(s0, pkt, hash, tableSize) else s0
      case Stream(id, fromClient) =>
        if pkt.Opens() then AddNew(Free(s0, id), pkt, hash, tableSize)
        else Apply(s0, id, StreamStep(s0.streams[id], fromClient, pkt), pkt.now)
  }

  /** The tracker after a whole capture. */
  ghost function Run(trace: seq<Packet>, hash: Tuple4 -> nat, tableSize: nat): Tcp {
    if trace == [] then EMPTY
    else Process(Run(trace[..|trace| - 1], hash, tableSize), trace[|trace| - 1], hash, tableSize)
  }
}
