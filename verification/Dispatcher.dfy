/** The capture thread hands packets to worker threads through bounded queues;
    the steps of all threads interleave in any order (dpi/Dispatcher.cc,
    dpi/TaskQueue.cc, dpi/Sharding.cc). */
module Dispatching {
  import opened SeqArith
  import opened SessionWheel
  import opened FlowHash

  datatype Option<T> = None | Some(value: T)

  datatype Protocol = TCP | UDP | ICMP | OTHER

  /** An IP packet; the ports of `t4` are the words that stand where TCP and UDP have their ports. */
  datatype IpPacket = IpPacket(serial: nat, protocol: Protocol, headerLength: nat, len: int, t4: Tuple4)

  /** What all queues have in common; `perm` and `xors` are the key of the hash. */
  datatype Setup = Setup(workers: nat, maxSize: nat, perm: seq<byte>, xors: seq<byte>)

  ghost predicate SetupOk(c: Setup) {
    c.workers > 0 && |c.perm| == |c.xors| == 6 && forall i :: 0 <= i < 6 ==> c.perm[i] < 6
  }

  /** `getTuple4`; nothing for protocols without ports and headers cut short. */
  function TupleOf(p: IpPacket): Option<Tuple4> {
    var len := p.len - p.headerLength;
    match p.protocol
    case TCP => if len < 20 then None else Some(p.t4)
    case UDP => if len < 8 then None else Some(p.t4)
    case ICMP => Some(p.t4.(source := 928, dest := 928))
    case OTHER => None
  }

  /** The worker of a packet. */
  function Route(p: IpPacket, c: Setup): Option<nat>
    requires c.workers > 0 && |c.perm| == |c.xors| == 6 && forall i :: 0 <= i < 6 ==> c.perm[i] < 6
  {
    if p.len < p.headerLength || TupleOf(p).None? then None
    else Some(Mix(Combined(TupleOf(p).value), c.perm, c.xors, 6) % c.workers)
  }

  // ----- Steps -----

  datatype Task = Work(packet: IpPacket) | Empty

  /** The capture thread has looked at the queue and goes on to push. */
  datatype Producer = Ready | Pushing(packet: IpPacket, index: nat)

  datatype Verdict = Ignored(packet: IpPacket) | Refused(packet: IpPacket, index: nat) | Accepted(packet: IpPacket, index: nat)

  /** `handled` is what each worker has run, in order; `log` what has become of each captured packet. */
  datatype System = System(queues: seq<seq<Task>>, handled: seq<seq<IpPacket>>, running: seq<bool>,
                           counters: seq<nat>, producer: Producer, log: seq<Verdict>)

  datatype Step =
    | Capture(packet: IpPacket)
    | Push
    | Take(worker: nat)
    | Stop(worker: nat)

  function Start(c: Setup): System {
    System(seq(c.workers, _ => []), seq(c.workers, _ => []), seq(c.workers, _ => true), seq(c.workers, _ => 0), Ready, [])
  }

  ghost predicate Shaped(s: System, c: Setup) {
    && |s.queues| == |s.handled| == |s.running| == |s.counters| == c.workers
    && (s.producer.Pushing? ==> s.producer.index < c.workers)
  }

  /** `onIpFragment` up to the look at the queue. */
  function Captured(s: System, p: IpPacket, c: Setup): System
    requires SetupOk(c) && Shaped(s, c)
  {
    match Route(p, c)
    case None => s.(log := s.log + [Ignored(p)])
    case Some(i) =>
      if |s.queues[i]| < c.maxSize then s.(producer := Pushing(p, i)) else s.(log := s.log + [Refused(p, i)])
  }

  /** The rest of it: workers may have taken tasks in between. */
  function PushedTask(s: System): System
    requires s.producer.Pushing? && s.producer.index < |s.queues| == |s.counters|
  {
    var i := s.producer.index;
    s.(queues := s.queues[i := s.queues[i] + [Work(s.producer.packet)]], counters := s.counters[i := s.counters[i] + 1],
       producer := Ready, log := s.log + [Accepted(s.producer.packet, i)])
  }

  /** A worker takes its next task and runs it; the empty task ends it. */
  function Taken(s: System, i: nat): System
    requires i < |s.queues| == |s.handled| == |s.running| && s.queues[i] != []
  {
    var t := s.queues[i][0];
    var rest := s.(queues := s.queues[i := s.queues[i][1..]]);
    if t.Work? then rest.(handled := s.handled[i := s.handled[i] + [t.packet]])
    else rest.(running := s.running[i := false])
  }

  /** A step that is not possible now changes nothing. */
  function Do(s: System, step: Step, c: Setup): System
    requires SetupOk(c) && Shaped(s, c)
  {
    match step
    case Capture(p) => if s.producer.Ready? then Captured(s, p, c) else s
    case Push => if s.producer.Pushing? then PushedTask(s) else s
    case Take(i) => if i < c.workers && s.running[i] && s.queues[i] != [] then Taken(s, i) else s
    case Stop(i) =>
      if s.producer.Ready? && i < c.workers && |s.queues[i]| < c.maxSize
      then s.(queues := s.queues[i := s.queues[i] + [Empty]]) else s
  }

  // ----- What holds of every interleaving -----

  function Works(q: seq<Task>): seq<IpPacket> {
    if q == [] then [] else (if q[0].Work? then [q[0].packet] else []) + Works(q[1..])
  }

  /** The packets accepted for a worker, in the order of capture. */
  function AcceptedFor(log: seq<Verdict>, i: nat): seq<IpPacket> {
    if log == [] then []
    else
      var v := log[|log| - 1];
      AcceptedFor(log[..|log| - 1], i) + if v.Accepted? && v.index == i then [v.packet] else []
  }

  ghost predicate Orderly(s: System, c: Setup)
    requires SetupOk(c)
  {
    && Shaped(s, c)
    && (forall i :: 0 <= i < c.workers ==> |s.queues[i]| <= c.maxSize)
    && (s.producer.Pushing? ==> |s.queues[s.producer.index]| < c.maxSize
                                && Route(s.producer.packet, c) == Some(s.producer.index))
    && (forall i :: 0 <= i < c.workers ==> s.handled[i] + Works(s.queues[i]) == AcceptedFor(s.log, i))
    && (forall i :: 0 <= i < c.workers ==> s.counters[i] == |AcceptedFor(s.log, i)|)
    && (forall k :: 0 <= k < |s.log| ==>
          match s.log[k]
          case Ignored(p) => Route(p, c).None?
          case Refused(p, i) => Route(p, c) == Some(i)
          case Accepted(p, i) => Route(p, c) == Some(i))
  }

  lemma {:induction false} WorksMore(q: seq<Task>, t: Task)
    ensures Works(q + [t]) == Works(q) + if t.Work? then [t.packet] else []
  {
    var last := if t.Work? then [t.packet] else [];
    if q == [] {
      assert q + [t] == [t] && [t][1..] == [];
      assert Works([t]) == last + Works([]);
    } else {
      var head := if q[0].Work? then [q[0].packet] else [];
      assert (q + [t])[0] == q[0] && (q + [t])[1..] == q[1..] + [t];
      assert Works(q + [t]) == head + Works(q[1..] + [t]) && Works(q) == head + Works(q[1..]);
      hide Works;
      WorksMore(q[1..], t);
    }
  }

  lemma AcceptedMore(log: seq<Verdict>, v: Verdict, i: nat)
    ensures AcceptedFor(log + [v], i) == AcceptedFor(log, i) + if v.Accepted? && v.index == i then [v.packet] else []
  {
    assert (log + [v])[..|log + [v]| - 1] == log;
  }

  lemma StartOrderly(c: Setup)
    requires SetupOk(c)
    ensures Orderly(Start(c), c)
  {
  }

  lemma CaptureKeeps(s: System, p: IpPacket, c: Setup)
    requires SetupOk(c) && Orderly(s, c) && s.producer.Ready?
    ensures Orderly(Captured(s, p, c), c)
  {
    hide Route, Works;
    forall i | 0 <= i < c.workers
      ensures AcceptedFor(Captured(s, p, c).log, i) == AcceptedFor(s.log, i) {
      AcceptedMore(s.log, Ignored(p), i);
      if Route(p, c).Some? {
        AcceptedMore(s.log, Refused(p, Route(p, c).value), i);
      }
    }
    RouteInRange(p, c);
  }

  lemma RouteInRange(p: IpPacket, c: Setup)
    requires SetupOk(c)
    ensures Route(p, c).Some? ==> Route(p, c).value < c.workers
  {
  }

  lemma PushKeeps(s: System, c: Setup)
    requires SetupOk(c) && Orderly(s, c) && s.producer.Pushing?
    ensures Orderly(PushedTask(s), c)
  {
    hide Route, Works;
    var i := s.producer.index;
    var p := s.producer.packet;
    WorksMore(s.queues[i], Work(p));
    forall j | 0 <= j < c.workers
      ensures AcceptedFor(PushedTask(s).log, j) == AcceptedFor(s.log, j) + if i == j then [p] else [] {
      AcceptedMore(s.log, Accepted(p, i), j);
    }
  }

  lemma TakeKeeps(s: System, i: nat, c: Setup)
    requires SetupOk(c) && Orderly(s, c) && i < c.workers && s.queues[i] != []
    ensures Orderly(Taken(s, i), c)
  {
    hide Route, AcceptedFor;
  }

  lemma StopKeeps(s: System, i: nat, c: Setup)
    requires SetupOk(c) && Orderly(s, c) && s.producer.Ready? && i < c.workers && |s.queues[i]| < c.maxSize
    ensures Orderly(s.(queues := s.queues[i := s.queues[i] + [Empty]]), c)
  {
    hide Route, Works, AcceptedFor;
    WorksMore(s.queues[i], Empty);
  }

  lemma StepKeeps(s: System, step: Step, c: Setup)
    requires SetupOk(c) && Orderly(s, c)
    ensures Orderly(Do(s, step, c), c)
  {
    hide Captured, PushedTask, Taken, Works, AcceptedFor, Route;
    match step
    case Capture(p) =>
      if s.producer.Ready? {
        CaptureKeeps(s, p, c);
      }
    case Push =>
      if s.producer.Pushing? {
        PushKeeps(s, c);
      }
    case Take(i) =>
      if i < c.workers && s.running[i] && s.queues[i] != [] {
        TakeKeeps(s, i, c);
      }
    case Stop(i) =>
      if s.producer.Ready? && i < c.workers && |s.queues[i]| < c.maxSize {
        StopKeeps(s, i, c);
      }
  }

  lemma DoShaped(s: System, step: Step, c: Setup)
    requires SetupOk(c) && Shaped(s, c)
    ensures Shaped(Do(s, step, c), c)
  {
    hide Route;
    if step.Capture? {
      RouteInRange(step.packet, c);
    }
  }

  /** The system after some steps of the threads, in any order. */
  function Run(c: Setup, steps: seq<Step>): (s: System)
    requires SetupOk(c)
    ensures Shaped(s, c)
  {
    if steps == [] then Start(c)
    else
      var t := Run(c, steps[..|steps| - 1]);
      DoShaped(t, steps[|steps| - 1], c);
      Do(t, steps[|steps| - 1], c)
  }

  lemma {:induction false} RunOrderly(c: Setup, steps: seq<Step>)
    requires SetupOk(c)
    ensures Orderly(Run(c, steps), c)
    decreases |steps|
  {
    hide Orderly, Do;
    if steps == [] {
      StartOrderly(c);
    } else {
      RunOrderly(c, steps[..|steps| - 1]);
      StepKeeps(Run(c, steps[..|steps| - 1]), steps[|steps| - 1], c);
    }
  }

  // ----- The log is the order of capture -----

  /** What the capture thread has captured: while it is pushing a packet it captures no other. */
  function CapturedBy(c: Setup, steps: seq<Step>): seq<IpPacket>
    requires SetupOk(c)
  {
    if steps == [] then []
    else
      var n := |steps| - 1;
      CapturedBy(c, steps[..n])
      + if steps[n].Capture? && Run(c, steps[..n]).producer.Ready? then [steps[n].packet] else []
  }

  function PacketsOf(log: seq<Verdict>): seq<IpPacket> {
    if log == [] then [] else PacketsOf(log[..|log| - 1]) + [log[|log| - 1].packet]
  }

  lemma PacketsMore(log: seq<Verdict>, v: Verdict)
    ensures PacketsOf(log + [v]) == PacketsOf(log) + [v.packet]
  {
    assert (log + [v])[..|log|] == log;
  }

  function InHand(s: System): seq<IpPacket> {
    if s.producer.Pushing? then [s.producer.packet] else []
  }

  lemma DoLogs(s: System, step: Step, c: Setup)
    requires SetupOk(c) && Shaped(s, c)
    ensures var t := Do(s, step, c);
            PacketsOf(t.log) + InHand(t)
            == PacketsOf(s.log) + InHand(s) + if step.Capture? && s.producer.Ready? then [step.packet] else []
  {
    hide Route, PacketsOf;
    match step
    case Capture(p) =>
      RouteInRange(p, c);
      PacketsMore(s.log, Ignored(p));
      if Route(p, c).Some? {
        PacketsMore(s.log, Refused(p, Route(p, c).value));
      }
    case Push =>
      if s.producer.Pushing? {
        PacketsMore(s.log, Accepted(s.producer.packet, s.producer.index));
      }
    case Take(i) =>
    case Stop(i) =>
  }

  /** Under every interleaving each captured packet is in the log once, in the order of capture, but for the one
      that is being pushed. */
  lemma {:induction false} LogIsCapture(c: Setup, steps: seq<Step>)
    requires SetupOk(c)
    ensures PacketsOf(Run(c, steps).log) + InHand(Run(c, steps)) == CapturedBy(c, steps)
    decreases |steps|
  {
    hide Do, PacketsOf;
    if steps == [] {
      PacketsNone();
    } else {
      LogIsCapture(c, steps[..|steps| - 1]);
      DoLogs(Run(c, steps[..|steps| - 1]), steps[|steps| - 1], c);
    }
  }

  lemma PacketsNone()
    ensures PacketsOf([]) == []
  {
  }

  // ----- Flows -----

  ghost predicate OfFlow(p: IpPacket, f: Tuple4) {
    (p.protocol.TCP? || p.protocol.UDP?) && SameFlow(p.t4, f)
  }

  lemma FlowRoute(p: IpPacket, q: IpPacket, f: Tuple4, c: Setup)
    requires SetupOk(c) && OfFlow(p, f) && OfFlow(q, f) && Route(p, c).Some? && Route(q, c).Some?
    ensures Route(p, c) == Route(q, c)
  {
    hide Combined, Mix;
    SameFlowSameHash(p.t4, f);
    SameFlowSameHash(q.t4, f);
  }

  /** The packets of a flow. */
  ghost function Only(ps: seq<IpPacket>, f: Tuple4): seq<IpPacket> {
    if ps == [] then []
    else Only(ps[..|ps| - 1], f) + if OfFlow(ps[|ps| - 1], f) then [ps[|ps| - 1]] else []
  }

  /** The packets of a flow that were accepted, in the order of capture, whatever their worker. */
  ghost function FlowLog(log: seq<Verdict>, f: Tuple4): seq<IpPacket> {
    if log == [] then []
    else
      var v := log[|log| - 1];
      FlowLog(log[..|log| - 1], f) + if v.Accepted? && OfFlow(v.packet, f) then [v.packet] else []
  }

  ghost predicate LogOk(log: seq<Verdict>, c: Setup)
    requires SetupOk(c)
  {
    forall k :: 0 <= k < |log| && log[k].Accepted? ==> Route(log[k].packet, c) == Some(log[k].index)
  }

  lemma OnlyMore(ps: seq<IpPacket>, p: IpPacket, f: Tuple4)
    ensures Only(ps + [p], f) == Only(ps, f) + if OfFlow(p, f) then [p] else []
  {
    assert (ps + [p])[..|ps + [p]| - 1] == ps;
  }

  /** If one packet of a flow goes to worker `i`, all of them do, and no other worker gets any. */
  lemma {:induction false} OneWorker(log: seq<Verdict>, f: Tuple4, i: nat, c: Setup)
    requires SetupOk(c) && LogOk(log, c)
    requires forall p :: OfFlow(p, f) && Route(p, c).Some? ==> Route(p, c) == Some(i)
    ensures Only(AcceptedFor(log, i), f) == FlowLog(log, f)
    ensures forall j: nat :: j != i ==> Only(AcceptedFor(log, j), f) == []
    decreases |log|
  {
    hide Route, OfFlow;
    if log != [] {
      var n := |log| - 1;
      var v := log[n];
      OneWorker(log[..n], f, i, c);
      if v.Accepted? {
        OnlyMore(AcceptedFor(log[..n], v.index), v.packet, f);
      }
      forall j: nat | j != i ensures Only(AcceptedFor(log, j), f) == [] {
        assert AcceptedFor(log[..n], j) + [] == AcceptedFor(log[..n], j);
      }
      assert AcceptedFor(log[..n], i) + [] == AcceptedFor(log[..n], i);
    }
  }

  lemma FlowHasWorker(f: Tuple4, c: Setup) returns (i: nat)
    requires SetupOk(c)
    ensures i < c.workers && forall p :: OfFlow(p, f) && Route(p, c).Some? ==> Route(p, c) == Some(i)
  {
    var p0 := IpPacket(0, TCP, 20, 40, f);
    RouteInRange(p0, c);
    i := Route(p0, c).value;
    forall p | OfFlow(p, f) && Route(p, c).Some? ensures Route(p, c) == Some(i) {
      FlowRoute(p, p0, f, c);
    }
  }

  /** Under every interleaving, an unfragmented flow has one worker, which handles its packets, in both directions,
      in the order in which they were captured; only refused packets are missing. */
  lemma FlowInOrder(c: Setup, steps: seq<Step>, f: Tuple4) returns (i: nat)
    requires SetupOk(c)
    ensures var s := Run(c, steps);
            && i < c.workers
            && Only(s.handled[i] + Works(s.queues[i]), f) == FlowLog(s.log, f)
            && (forall j :: 0 <= j < c.workers && j != i ==> Only(s.handled[j] + Works(s.queues[j]), f) == [])
            && PacketsOf(s.log) + InHand(s) == CapturedBy(c, steps)
  {
    hide Route, Works, Only, FlowLog, OfFlow, PacketsOf, InHand, CapturedBy, Run;
    RunOrderly(c, steps);
    LogIsCapture(c, steps);
    i := FlowHasWorker(f, c);
    OneWorker(Run(c, steps).log, f, i, c);
  }

  /** Under every interleaving the queues keep to their limit, and the counters count
      what has been accepted: the packets handled and those waiting. */
  lemma QueuesBounded(c: Setup, steps: seq<Step>)
    requires SetupOk(c)
    ensures var s := Run(c, steps);
            forall i :: 0 <= i < c.workers ==>
              |s.queues[i]| <= c.maxSize && s.counters[i] == |s.handled[i]| + |Works(s.queues[i])|
  {
    hide Route, Works, Run;
    RunOrderly(c, steps);
    var s := Run(c, steps);
    forall i | 0 <= i < c.workers ensures s.counters[i] == |s.handled[i]| + |Works(s.queues[i])| {
      assert s.handled[i] + Works(s.queues[i]) == AcceptedFor(s.log, i);
    }
  }
}
