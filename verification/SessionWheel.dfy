/** The table of TCP sessions with its wheel of buckets (app/header/TcpSession.h,
    app/header/TcpSession.cc) and the clock that turns it (util/Timer.cc). */
module SessionWheel {
  import opened SeqArith

  datatype Tuple4 = Tuple4(source: u16, dest: u16, saddr: u32, daddr: u32)

  datatype Time = Time(sec: nat, usec: nat)

  const TCPHDR_SIZE: int := 20

  /** `len` counts from the TCP header on. */
  datatype Packet = Packet(t4: Tuple4, len: int, syn: bool, fin: bool, psh: bool, rst: bool, time: Time)

  // ----- Addresses -----

  /** `Tuple4HashEqual`: the same addresses, or the same the other way round. */
  predicate SameFlow(a: Tuple4, b: Tuple4) {
    a == b || (a.source == b.dest && a.dest == b.source && a.saddr == b.daddr && a.daddr == b.saddr)
  }

  type Key = set<(u32, u16)>

  /** The two ends of a connection. */
  function KeyOf(t: Tuple4): Key {
    {(t.saddr, t.source), (t.daddr, t.dest)}
  }

  /** The table compares tuples as unordered pairs of ends. */
  lemma SameFlowIsKey(a: Tuple4, b: Tuple4)
    ensures SameFlow(a, b) <==> KeyOf(a) == KeyOf(b)
  {
    if KeyOf(a) == KeyOf(b) {
      assert (a.saddr, a.source) in KeyOf(b) && (a.daddr, a.dest) in KeyOf(b);
      assert (b.saddr, b.source) in KeyOf(a) && (b.daddr, b.dest) in KeyOf(a);
    }
  }

  // ----- Sessions -----

  datatype Counters = Counters(size: int, packets: int, syn: int, fin: int, psh: int, rst: int, small: int)

  const ZERO: Counters := Counters(0, 0, 0, 0, 0, 0, 0)

  function One(b: bool): int {
    if b then 1 else 0
  }

  function Plus(c: Counters, p: Packet): Counters {
    Counters(c.size + p.len, c.packets + 1, c.syn + One(p.syn), c.fin + One(p.fin), c.psh + One(p.psh),
             c.rst + One(p.rst), c.small + One(p.len <= 64))
  }

  datatype SessionData = SessionData(t4: Tuple4, start: Time, end: Time, up: Counters, down: Counters, normallyClosed: bool)

  function NewData(t4: Tuple4, time: Time): SessionData {
    SessionData(t4, time, Time(0, 0), ZERO, ZERO, true)
  }

  /** `updateSession`. */
  function Updated(d: SessionData, p: Packet): SessionData {
    if p.t4 == d.t4 then d.(up := Plus(d.up, p)) else d.(down := Plus(d.down, p))
  }

  /** A session in the table: its identity, its data, and the entry that its context points to. */
  datatype Session = Session(id: nat, data: SessionData, entry: nat)

  /** `owners` says which session an entry points to. Entries live as long as a bucket
      holds them, sessions as long as the table does. Numbers below `next` are in use. */
  datatype Wheel = Wheel(sessions: map<Key, Session>, buckets: seq<set<nat>>, owners: map<nat, nat>,
                         time: nat, next: nat, ticks: nat)

  function Start(): Wheel {
    Wheel(map[], [], map[], 0, 0, 0)
  }

  predicate EntryAlive(buckets: seq<set<nat>>, e: nat) {
    exists i :: 0 <= i < |buckets| && e in buckets[i]
  }

  // ----- The clock -----

  /** Entries whose last bucket goes when a new one comes. */
  function Dying(buckets: seq<set<nat>>, capacity: nat): set<nat> {
    if 0 < |buckets| == capacity then
      set e | e in buckets[0] && forall i :: 1 <= i < |buckets| ==> e !in buckets[i]
    else {}
  }

  /** The sessions that dying entries still find. */
  predicate TimedOut(w: Wheel, capacity: nat, k: Key) {
    k in w.sessions && exists e :: e in Dying(w.buckets, capacity) && e in w.owners && w.owners[e] == w.sessions[k].id
  }

  function Pushed(buckets: seq<set<nat>>, capacity: nat): seq<set<nat>> {
    (if 0 < |buckets| == capacity then buckets[1..] else buckets) + [{}]
  }

  /** `onTimer`, with what the entries do that it destroys; the clock already shows the new time. */
  function Tick(w: Wheel, capacity: nat): Wheel {
    w.(sessions := map k | k in w.sessions && !TimedOut(w, capacity, k) :: w.sessions[k],
       buckets := Pushed(w.buckets, capacity), ticks := w.ticks + 1)
  }

  /** What `onTimeOut` reports. */
  function Expired(d: SessionData, time: nat): SessionData {
    d.(normallyClosed := false, end := Time(if time > 0 then time - 1 else 0, 0))
  }

  /** Reports carry the identity of the session, which the application does not see. */
  datatype Report = Report(id: nat, data: SessionData)

  function Timeouts(w: Wheel, capacity: nat): set<Report> {
    set k | k in w.sessions && TimedOut(w, capacity, k) ::
      Report(w.sessions[k].id, Expired(w.sessions[k].data, w.time))
  }

  /** `checkTime` and the timer that follows. */
  function CheckTime(w: Wheel, sec: nat, capacity: nat): (Wheel, set<Report>) {
    if w.time <= sec then
      var v := w.(time := sec + 1);
      (Tick(v, capacity), Timeouts(v, capacity))
    else (w, {})
  }

  // ----- Packets -----

  /** The newest bucket takes an entry. */
  function Insert(buckets: seq<set<nat>>, e: nat): seq<set<nat>> {
    if buckets == [] then [] else buckets[|buckets| - 1 := buckets[|buckets| - 1] + {e}]
  }

  /** `onConnection` for session `id`. */
  function Connect(w: Wheel, k: Key, id: nat, data: SessionData): Wheel {
    w.(sessions := w.sessions[k := Session(id, data, w.next)], buckets := Insert(w.buckets, w.next),
       owners := w.owners[w.next := id], next := w.next + 1)
  }

  /** What `onTcpData` does with a packet once the clock has been looked at. */
  function Handle(w: Wheel, p: Packet): (Wheel, set<Report>) {
    var k := KeyOf(p.t4);
    if k !in w.sessions then
      if p.syn then (Connect(w, k, w.next, Updated(NewData(p.t4, p.time), p)), {}) else (w, {})
    else
      var s := w.sessions[k];
      if !EntryAlive(w.buckets, s.entry) then
        if p.syn then (Connect(w, k, s.id, Updated(NewData(p.t4, p.time), p)), {})
        else (w.(sessions := w.sessions - {k}), {})
      else if p.fin || p.rst then
        (w.(sessions := w.sessions - {k}), {Report(s.id, Updated(s.data.(end := p.time), p))})
      else
        (w.(sessions := w.sessions[k := s.(data := Updated(s.data, p))], buckets := Insert(w.buckets, s.entry)), {})
  }

  function Receive(w: Wheel, p: Packet, capacity: nat): (Wheel, set<Report>) {
    if p.len < TCPHDR_SIZE then (w, {})
    else
      var ticked := CheckTime(w, p.time.sec, capacity);
      var handled := Handle(ticked.0, p);
      (handled.0, ticked.1 + handled.1)
  }
}
