/** A call of `http_parser_execute` as the effect of its bytes one after the
    other on the parser, the marks and the callbacks (app/http/HttpParser.cc). */
module HttpRun {
  import opened HttpTypes
  import opened HttpStep

  /** The one mark that can be set, with the bytes from there up to the current one. */
  datatype Live = Unmarked | Marked(kind: DataKind, bytes: seq<byte>)

  /** Within a call: `used` bytes are consumed. `scanning` says that the last
      byte was passed over by the search for the end of a field name or value,
      `skipping` that the search was the one that looks for line ends alone. */
  datatype Call = Call(p: Parser, nread: nat, log: seq<Event>, live: Live,
                       scanning: bool, skipping: bool, used: nat, exit: bool)

  predicate Going(a: Call) {
    a.p.errno.OK? && !a.exit
  }

  /** A data callback; the log joins adjacent data of one kind. */
  function Emit(log: seq<Event>, kind: DataKind, bytes: seq<byte>): seq<Event> {
    var n := |log| - 1;
    if n >= 0 && log[n].Data? && log[n].kind == kind then log[..n] + [Data(kind, log[n].bytes + bytes)]
    else log + [Data(kind, bytes)]
  }

  /** The mark set when a call begins in state `s`. */
  function Opening(s: State): Live {
    if s.Url? && !s.url.ReqSpacesBeforeUrl? then Marked(URL, [])
    else if s == StatusLine(ResStatus) then Marked(STATUS, [])
    else if s == Headers(HeaderField) then Marked(FIELD, [])
    else if s == Headers(Value) then Marked(VALUE, [])
    else Unmarked
  }

  function PerformAction(log: seq<Event>, live: Live, act: Action, c: byte): (seq<Event>, Live) {
    match act
    case SetMark(k) => (log, if live.Marked? then live else Marked(k, []))
    case Flush(k) =>
      if live.Marked? && live.kind == k then (Emit(log, k, live.bytes), Unmarked) else (log, live)
    case FlushThrough(k) =>
      if live.Marked? && live.kind == k then (Emit(log, k, live.bytes + [c]), Unmarked) else (log, live)
    case Notify(n) => (log + [Notice(n)], live)
    case Recount => (log, live)
  }

  function Perform(log: seq<Event>, live: Live, acts: seq<Action>, c: byte): (seq<Event>, Live)
    decreases |acts|
  {
    if acts == [] then (log, live)
    else
      var first := PerformAction(log, live, acts[0], c);
      Perform(first.0, first.1, acts[1..], c)
  }

  /** A mark that stays covers the current byte too. */
  function Cover(live: Live, c: byte): Live {
    if live.Marked? then Marked(live.kind, live.bytes + [c]) else live
  }

  /** The loops over a field name and over a value. */
  predicate InScan(s: State) {
    s == Headers(HeaderField) || s == Headers(Value)
  }

  function Counted(nread: nat, s: State): nat {
    if ParsingHeader(s) then nread + 1 else nread
  }

  function Advance(a: Call, c: byte, answer: Answer): Call {
    if !Going(a) then a
    else
      var out := Step(a.p, c, answer, a.skipping);
      var done := Perform(a.log, a.live, out.acts, c);
      var stays := InScan(a.p.state) && out.p.state == a.p.state;
      Call(out.p, if Recount in out.acts then 0 else Counted(a.nread, a.p.state), done.0, Cover(done.1, c),
           stays, stays && a.p.state == Headers(Value) && a.p.headerState.General?,
           if out.p.errno.OK? then a.used + 1 else a.used, out.exit)
  }

  function Feed(a: Call, data: seq<byte>, answer: Answer): Call {
    if data == [] then a else Advance(Feed(a, data[..|data| - 1], answer), data[|data| - 1], answer)
  }

  function Enter(p: Parser, nread: nat, log: seq<Event>): Call {
    Call(p, nread, log, Opening(p.state), false, false, 0, false)
  }

  function View(log: seq<Event>, live: Live): seq<Event> {
    if live.Marked? then Emit(log, live.kind, live.bytes) else log
  }

  /** The end of the input hands out what is marked; an error drops it. A scan
      cut off by the end has counted its first byte twice. */
  function Leave(a: Call): Call {
    if Going(a)
    then a.(log := View(a.log, a.live), live := Unmarked, nread := if a.scanning then a.nread + 1 else a.nread)
    else a.(live := Unmarked)
  }

  /** An empty input stands for the end of the stream. */
  function Eof(p: Parser, nread: nat, log: seq<Event>): Call {
    var a := Call(p, nread, log, Unmarked, false, false, 0, false);
    if p.state == Body(BodyIdentityEof) then a.(log := log + [Notice(MessageComplete)])
    else if p.state.Start? && !p.state.start.ResOrRespH? then a
    else a.(p := p.(errno := INVALID_EOF_STATE), used := 1)
  }

  /** `http_parser_execute`, with no limit on the header. */
  function Execute(p: Parser, nread: nat, log: seq<Event>, data: seq<byte>, answer: Answer): Call {
    if !p.errno.OK? then Call(p, nread, log, Unmarked, false, false, 0, false)
    else if data == [] then Eof(p, nread, log)
    else Leave(Feed(Enter(p, nread, log), data, answer))
  }

  // ----- A parser fed byte by byte -----

  datatype Mark = NoMark | On(kind: DataKind)

  function MarkOf(live: Live): Mark {
    if live.Marked? then On(live.kind) else NoMark
  }

  function NextMark(m: Mark, act: Action): Mark {
    match act
    case SetMark(k) => if m.On? then m else On(k)
    case Flush(k) => if m == On(k) then NoMark else m
    case FlushThrough(k) => if m == On(k) then NoMark else m
    case _ => m
  }

  function HearAction(log: seq<Event>, m: Mark, act: Action, c: byte): (seq<Event>, Mark) {
    match act
    case SetMark(k) => (if m.On? then log else Emit(log, k, []), NextMark(m, act))
    case FlushThrough(k) => (if m == On(k) then Emit(log, k, [c]) else log, NextMark(m, act))
    case Notify(n) => (log + [Notice(n)], m)
    case _ => (log, NextMark(m, act))
  }

  /** What the application has heard, byte for byte, after `acts`, and the mark that is then set. */
  function Heard(log: seq<Event>, m: Mark, acts: seq<Action>, c: byte): (seq<Event>, Mark)
    decreases |acts|
  {
    if acts == [] then (log, m)
    else
      var first := HearAction(log, m, acts[0], c);
      Heard(first.0, first.1, acts[1..], c)
  }

  function Hear(log: seq<Event>, m: Mark, acts: seq<Action>, c: byte): seq<Event> {
    var done := Heard(log, m, acts, c);
    if done.1.On? then Emit(done.0, done.1.kind, [c]) else done.0
  }

  /** A parser, what the application has heard, and whether the parser has left the stream to another protocol. */
  datatype Conn = Conn(p: Parser, log: seq<Event>, exit: bool)

  predicate Alive(s: Conn) {
    s.p.errno.OK? && !s.exit
  }

  function Byte(s: Conn, c: byte, answer: Answer): Conn {
    if !Alive(s) then s
    else
      var out := Step(s.p, c, answer, false);
      Conn(out.p, Hear(s.log, MarkOf(Opening(s.p.state)), out.acts, c), out.exit)
  }

  function Serial(s: Conn, data: seq<byte>, answer: Answer): Conn {
    if data == [] then s else Byte(Serial(s, data[..|data| - 1], answer), data[|data| - 1], answer)
  }
}
