/** Names in DNS messages, read in two passes of which only the first checks
    anything (app/dns/Dnsparser.cc). */
module DnsName {
  import opened SeqArith

  datatype Option<T> = None | Some(value: T)

  const DOT: byte := 46
  const BACKSLASH: byte := 92

  /** A byte read through a signed `char`. */
  function Signed(b: byte): int {
    if b < 128 then b else b - 256
  }

  /** The position of the reader and that of the next length byte. */
  datatype Walk = Walk(pos: u32, next: u32)

  predicate IsPointer(b: byte) {
    b >= 0xC0
  }

  /** Where a compression pointer leads: its low byte counts as a signed number. */
  function Target(idPos: u32, high: byte, low: byte): u32 {
    U32(idPos + (high % 64) * 256 + Signed(low))
  }

  /** The name ends here. */
  predicate Root(data: seq<byte>, w: Walk) {
    w.pos < |data| && w.next == w.pos && data[w.pos] == 0
  }

  /** There is something to read here that does not end the name. */
  predicate Readable(data: seq<byte>, w: Walk) {
    w.pos < |data| && !Root(data, w) && (w.next == w.pos && IsPointer(data[w.pos]) ==> w.pos + 1 < |data|)
  }

  /** One step of either pass. */
  function Move(data: seq<byte>, idPos: u32, w: Walk): Walk
    requires Readable(data, w)
  {
    var c := data[w.pos];
    if w.next != w.pos then Walk(U32(w.pos + 1), w.next)
    else if IsPointer(c) then
      var t := Target(idPos, c, data[w.pos + 1]);
      Walk(t, t)
    else Walk(U32(w.pos + 1), U32(w.next + Signed(c) + 1))
  }

  /** The walk from `start` after `n` steps, if it gets that far. */
  function WalkAt(data: seq<byte>, idPos: u32, start: u32, n: nat): Option<Walk> {
    if n == 0 then Some(Walk(start, start))
    else
      match WalkAt(data, idPos, start, n - 1)
      case None => None
      case Some(w) => if Readable(data, w) then Some(Move(data, idPos, w)) else None
  }

  /** The name ends after exactly `n` steps. */
  predicate Ends(data: seq<byte>, idPos: u32, start: u32, n: nat) {
    var w := WalkAt(data, idPos, start, n);
    w.Some? && Root(data, w.value)
  }

  // ----- The text of a name -----

  function HexDigit(n: int): byte
    requires 0 <= n < 16
  {
    if n < 10 then n + 48 else n + 87
  }

  /** A byte of a label as it is shown. */
  function Escape(c: byte): seq<byte> {
    if 33 <= c <= 126 && c != BACKSLASH then [c]
    else [BACKSLASH, 120, HexDigit(c / 16), HexDigit(c % 16)]
  }

  /** The room that the first pass keeps for a byte of a label. */
  function Room(c: byte): nat {
    if 33 <= c <= 122 && c != BACKSLASH then 1 else 4
  }

  /** What a step adds to the text so far. */
  function Adds(data: seq<byte>, w: Walk, text: seq<byte>): seq<byte>
    requires Readable(data, w)
  {
    if w.next != w.pos then Escape(data[w.pos])
    else if IsPointer(data[w.pos]) || text == [] then []
    else [DOT]
  }

  function Text(data: seq<byte>, idPos: u32, start: u32, n: nat): seq<byte>
    requires WalkAt(data, idPos, start, n).Some?
  {
    if n == 0 then []
    else
      var before := Text(data, idPos, start, n - 1);
      before + Adds(data, WalkAt(data, idPos, start, n - 1).value, before)
  }

  /** What the first pass counts for a step. */
  function Costs(data: seq<byte>, w: Walk): nat
    requires Readable(data, w)
  {
    if w.next != w.pos then Room(data[w.pos]) else if IsPointer(data[w.pos]) then 0 else 1
  }

  function Counted(data: seq<byte>, idPos: u32, start: u32, n: nat): nat
    requires WalkAt(data, idPos, start, n).Some?
  {
    if n == 0 then 0
    else Counted(data, idPos, start, n - 1) + Costs(data, WalkAt(data, idPos, start, n - 1).value)
  }

  /** The first pointer on the way; the message goes on after it. */
  function FirstPointer(data: seq<byte>, idPos: u32, start: u32, n: nat): Option<u32>
    requires WalkAt(data, idPos, start, n).Some?
  {
    if n == 0 then None
    else
      var before := FirstPointer(data, idPos, start, n - 1);
      var w := WalkAt(data, idPos, start, n - 1).value;
      if before.Some? then before
      else if w.next == w.pos && IsPointer(data[w.pos]) then Some(w.pos)
      else None
  }

  /** Every step writes no more than the first pass has kept room for. */
  lemma {:induction false} TextFits(data: seq<byte>, idPos: u32, start: u32, n: nat)
    requires WalkAt(data, idPos, start, n).Some?
    ensures |Text(data, idPos, start, n)| <= Counted(data, idPos, start, n)
  {
    if n > 0 {
      TextFits(data, idPos, start, n - 1);
    }
  }

  /** Earlier steps have been taken too, and count no more. */
  lemma {:induction false} EarlierToo(data: seq<byte>, idPos: u32, start: u32, m: nat, n: nat)
    requires m <= n && WalkAt(data, idPos, start, n).Some?
    ensures WalkAt(data, idPos, start, m).Some?
    ensures m < n ==> Readable(data, WalkAt(data, idPos, start, m).value)
    ensures Counted(data, idPos, start, m) <= Counted(data, idPos, start, n)
    decreases n - m
  {
    if m < n {
      EarlierToo(data, idPos, start, m + 1, n);
    }
  }

  /** A walk that cannot go on does not go on. */
  lemma {:induction false} Stuck(data: seq<byte>, idPos: u32, start: u32, m: nat, n: nat)
    requires m < n && WalkAt(data, idPos, start, m).Some? && !Readable(data, WalkAt(data, idPos, start, m).value)
    ensures WalkAt(data, idPos, start, n).None?
    decreases n - m
  {
    if m + 1 < n {
      Stuck(data, idPos, start, m, n - 1);
    }
  }

  /** A name ends at most once. */
  lemma EndsOnce(data: seq<byte>, idPos: u32, start: u32, m: nat, n: nat)
    requires WalkAt(data, idPos, start, n).Some? && Ends(data, idPos, start, m)
    ensures n <= m && (m == n || Readable(data, WalkAt(data, idPos, start, n).value))
  {
    if m < n {
      Stuck(data, idPos, start, m, n);
    } else if n < m && !Readable(data, WalkAt(data, idPos, start, n).value) {
      Stuck(data, idPos, start, n, m);
    }
  }

  /** Messages too long for the 32-bit counters do not occur. */
  const MAX_MESSAGE: int := 0x1000_0000

  /** The first pass: every check there is. */
  method Measure(data: seq<byte>, nowPos: u32, idPos: u32) returns (ok: bool, n: nat, nameLen: u32, endPos: u32)
    requires |data| <= MAX_MESSAGE
    ensures ok ==> n < 2 * |data| && Ends(data, idPos, nowPos, n)
    ensures ok ==> nameLen == Counted(data, idPos, nowPos, n) + 1
    ensures ok ==> var p := FirstPointer(data, idPos, nowPos, n);
                   endPos == if p.Some? then p.value + 1 else WalkAt(data, idPos, nowPos, n).value.pos
    ensures !ok ==> forall m: nat :: m < 2 * |data| ==> !Ends(data, idPos, nowPos, m)
  {
    hide Readable, Move, Costs, Root;
    var pos: u32, next: u32 := nowPos, nowPos;
    ok, n, nameLen, endPos := false, 0, 0, 0;
    while pos < |data| && !(next == pos && data[pos] == 0) && n < 2 * |data|
      invariant n <= 2 * |data| && WalkAt(data, idPos, nowPos, n) == Some(Walk(pos, next))
      invariant nameLen == Counted(data, idPos, nowPos, n) <= 4 * n
      invariant var p := FirstPointer(data, idPos, nowPos, n);
                if p.Some? then endPos == p.value + 1 && p.value < |data| else endPos == 0
      decreases 2 * |data| - n
    {
      var c := data[pos];
      ghost var w := Walk(pos, next);
      StepFacts(data, idPos, w);
      n := n + 1;
      if next == pos {
        if IsPointer(c) {
          if pos + 1 >= |data| {
            assert !Root(data, w) by { NotRoot(data, w); }
            NeverEnds(data, idPos, nowPos, n - 1);
            return;
          }
          if endPos == 0 {
            endPos := pos + 1;
          }
          pos := Target(idPos, c, data[pos + 1]);
          next := pos;
        } else {
          nameLen := nameLen + 1;
          pos := pos + 1;
          next := U32(next + Signed(c) + 1);
        }
      } else {
        nameLen := nameLen + if 33 <= c <= 122 && c != BACKSLASH then 1 else 4;
        pos := pos + 1;
      }
    }
    if endPos == 0 {
      endPos := pos;
    }
    WalkEnds(data, idPos, nowPos, n);
    if n >= 2 * |data| || pos >= |data| {
      return;
    }
    ok, nameLen := true, nameLen + 1;
  }

  lemma StepFacts(data: seq<byte>, idPos: u32, w: Walk)
    requires w.pos < |data| && !(w.next == w.pos && data[w.pos] == 0)
    ensures Readable(data, w) <==> !(w.next == w.pos && IsPointer(data[w.pos]) && w.pos + 1 >= |data|)
    ensures Readable(data, w) ==>
              && Move(data, idPos, w) ==
                 (if w.next != w.pos then Walk(U32(w.pos + 1), w.next)
                  else if IsPointer(data[w.pos]) then
                    Walk(Target(idPos, data[w.pos], data[w.pos + 1]), Target(idPos, data[w.pos], data[w.pos + 1]))
                  else Walk(U32(w.pos + 1), U32(w.next + Signed(data[w.pos]) + 1)))
              && Costs(data, w) ==
                 (if w.next != w.pos then Room(data[w.pos]) else if IsPointer(data[w.pos]) then 0 else 1)
  {
  }

  lemma NotRoot(data: seq<byte>, w: Walk)
    requires w.pos < |data| && !(w.next == w.pos && data[w.pos] == 0)
    ensures !Root(data, w)
  {
  }

  lemma NeverEnds(data: seq<byte>, idPos: u32, start: u32, n: nat)
    requires WalkAt(data, idPos, start, n).Some?
    requires !Readable(data, WalkAt(data, idPos, start, n).value) && !Root(data, WalkAt(data, idPos, start, n).value)
    ensures forall m: nat :: !Ends(data, idPos, start, m)
  {
    forall m: nat ensures !Ends(data, idPos, start, m) {
      if Ends(data, idPos, start, m) {
        EndsOnce(data, idPos, start, m, n);
      }
    }
  }

  /** Where the first pass stops: at the end of the name, beyond the message, or after too many steps. */
  lemma WalkEnds(data: seq<byte>, idPos: u32, start: u32, n: nat)
    requires WalkAt(data, idPos, start, n).Some?
    ensures var w := WalkAt(data, idPos, start, n).value;
            && (w.pos < |data| && w.next == w.pos && data[w.pos] == 0 ==> Ends(data, idPos, start, n))
            && (w.pos >= |data| ==> forall m: nat :: !Ends(data, idPos, start, m))
            && (forall m: nat :: m < n ==> !Ends(data, idPos, start, m))
  {
    if WalkAt(data, idPos, start, n).value.pos >= |data| {
      NeverEnds(data, idPos, start, n);
    }
    forall m: nat | m < n ensures !Ends(data, idPos, start, m) {
      EarlierToo(data, idPos, start, m, n);
    }
  }

  /** The second pass: it checks nothing, but walks the same way, stays inside the
      message and inside the room that has been counted, and ends at the same step. */
  method Spell(data: seq<byte>, nowPos: u32, idPos: u32, name: array<byte>, ghost steps: nat)
    requires |data| <= MAX_MESSAGE && Ends(data, idPos, nowPos, steps)
    requires name.Length == Counted(data, idPos, nowPos, steps) + 1
    modifies name
    ensures var text := Text(data, idPos, nowPos, steps);
            |text| < name.Length && name[..|text| + 1] == text + [0]
  {
    hide Readable, Move, Costs, Root, Escape, Text, Adds, Counted;
    var pos: u32, next: u32, i: nat := nowPos, nowPos, 0;
    ghost var m := 0;
    RootFacts(data, idPos, nowPos, 0, steps);
    NoText(data, idPos, nowPos);
    while next != pos || data[pos] != 0
      invariant m <= steps && WalkAt(data, idPos, nowPos, m) == Some(Walk(pos, next)) && pos < |data|
      invariant next == pos && data[pos] == 0 <==> m == steps
      invariant i <= Counted(data, idPos, nowPos, m) < name.Length
      invariant Text(data, idPos, nowPos, m) == name[..i]
      decreases steps - m
    {
      ghost var w := Walk(pos, next);
      EarlierToo(data, idPos, nowPos, m, steps);
      EarlierToo(data, idPos, nowPos, m + 1, steps);
      RootFacts(data, idPos, nowPos, m + 1, steps);
      StepFacts(data, idPos, w);
      TextMore(data, idPos, nowPos, m);
      ghost var before := name[..i];
      if pos == next {
        if IsPointer(data[pos]) {
          pos := Target(idPos, data[pos], data[pos + 1]);
          next := pos;
        } else {
          if i != 0 {
            name[i] := DOT;
            i := i + 1;
          }
          next := U32(pos + Signed(data[pos]) + 1);
          pos := U32(pos + 1);
        }
      } else {
        i := Put(data[pos], name, i);
        pos := U32(pos + 1);
      }
      m := m + 1;
    }
    name[i] := 0;
  }

  /** A byte of a label, as it is or escaped. */
  method Put(c: byte, name: array<byte>, at: nat) returns (i: nat)
    requires at + Room(c) <= name.Length
    modifies name
    ensures at <= i <= at + Room(c)
    ensures name[..i] == old(name[..at]) + Escape(c)
  {
    i := at;
    if 33 <= c <= 126 && c != BACKSLASH {
      name[i] := c;
      i := i + 1;
    } else {
      name[i] := BACKSLASH;
      name[i + 1] := 120;
      name[i + 2] := c / 16 + 0x30;
      name[i + 3] := c % 16 + 0x30;
      if name[i + 2] > 0x39 {
        name[i + 2] := name[i + 2] + 0x27;
      }
      if name[i + 3] > 0x39 {
        name[i + 3] := name[i + 3] + 0x27;
      }
      i := i + 4;
    }
  }

  lemma NoText(data: seq<byte>, idPos: u32, start: u32)
    ensures Text(data, idPos, start, 0) == [] && Counted(data, idPos, start, 0) == 0
  {
  }

  lemma TextMore(data: seq<byte>, idPos: u32, start: u32, n: nat)
    requires WalkAt(data, idPos, start, n + 1).Some?
    ensures WalkAt(data, idPos, start, n).Some?
    ensures var w := WalkAt(data, idPos, start, n).value;
            var before := Text(data, idPos, start, n);
            && Text(data, idPos, start, n + 1) ==
               before + (if w.next != w.pos then Escape(data[w.pos])
                         else if IsPointer(data[w.pos]) || before == [] then [] else [DOT])
            && Counted(data, idPos, start, n + 1) ==
               Counted(data, idPos, start, n) + if w.next != w.pos then Room(data[w.pos])
                                                else if IsPointer(data[w.pos]) then 0 else 1
  {
  }

  lemma RootFacts(data: seq<byte>, idPos: u32, start: u32, m: nat, n: nat)
    requires m <= n && Ends(data, idPos, start, n)
    ensures WalkAt(data, idPos, start, m).Some?
    ensures var w := WalkAt(data, idPos, start, m).value;
            w.pos < |data| && (w.next == w.pos && data[w.pos] == 0 <==> m == n)
  {
    EarlierToo(data, idPos, start, m, n);
  }

  /** `readRRname`: no name unless the walk ends inside the message in time. */
  method ReadRRname(data: seq<byte>, nowPos: u32, idPos: u32) returns (name: array?<byte>, newPos: u32, ghost steps: nat)
    requires |data| <= MAX_MESSAGE
    ensures name == null <==> forall n: nat :: n < 2 * |data| ==> !Ends(data, idPos, nowPos, n)
    ensures name == null ==> newPos == nowPos
    ensures name != null ==>
              && steps < 2 * |data| && Ends(data, idPos, nowPos, steps) && fresh(name)
              && var text := Text(data, idPos, nowPos, steps);
                 |text| < name.Length && name[..|text| + 1] == text + [0]
    ensures name != null ==>
              var p := FirstPointer(data, idPos, nowPos, steps);
              newPos == U32((if p.Some? then p.value + 1 else WalkAt(data, idPos, nowPos, steps).value.pos) + 1)
  {
    hide Ends, Text, Counted, FirstPointer;
    var ok, n, nameLen, endPos := Measure(data, nowPos, idPos);
    newPos, name, steps := nowPos, null, n;
    if !ok {
      return;
    }
    name := new byte[nameLen];
    Spell(data, nowPos, idPos, name, n);
    var end: int := endPos;
    newPos := U32(end + 1);
  }
}
