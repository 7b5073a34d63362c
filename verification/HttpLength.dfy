/** The lengths that the parser reads are the numbers written, and numbers too
    large for 64 bits are refused. */
module HttpLength {
  import opened HttpTypes
  import opened HttpStep
  import opened HttpRun

  /** The largest numbers accepted; the tests leave out a few that would still fit. */
  const MAX_DECIMAL: int := 18446744073709551609
  const MAX_HEX: int := 0xFFFF_FFFF_FFFF_FFEF

  /** The number that decimal digits spell, blanks left out. */
  function Decimal(ds: seq<byte>): int {
    if ds == [] then 0
    else
      var n := |ds| - 1;
      if ds[n] == SP then Decimal(ds[..n]) else 10 * Decimal(ds[..n]) + Digit(ds[n])
  }

  function Hex(ds: seq<byte>): int {
    if ds == [] then 0 else 16 * Hex(ds[..|ds| - 1]) + Unhex(ds[|ds| - 1])
  }

  predicate IsLength(ds: seq<byte>) {
    ds != [] && IsNum(ds[0]) && forall i :: 0 <= i < |ds| ==> IsNum(ds[i]) || ds[i] == SP
  }

  predicate IsSize(ds: seq<byte>) {
    ds != [] && forall i :: 0 <= i < |ds| ==> Unhex(ds[i]) >= 0
  }

  /** The value of a Content-Length header begins. */
  predicate AtLength(s: Conn) {
    Alive(s) && s.p.state == Headers(ValueDiscardWs) && s.p.headerState.ContentLength? && F_CONTENTLENGTH !in s.p.flags
  }

  predicate InLength(s: Conn) {
    Alive(s) && s.p.state == Headers(Value) && s.p.headerState.ContentLength?
  }

  lemma FirstDigit(s: Conn, c: byte, answer: Answer)
    requires AtLength(s) && IsNum(c)
    ensures InLength(Byte(s, c, answer)) && Byte(s, c, answer).p.contentLength == Digit(c)
  {
    hide Hear;
  }

  lemma NextDigit(s: Conn, c: byte, answer: Answer)
    requires InLength(s) && (IsNum(c) || c == SP)
    ensures var t := Byte(s, c, answer);
            if c == SP then InLength(t) && t.p.contentLength == s.p.contentLength
            else if s.p.contentLength <= (ULLONG_MAX - 10) / 10
            then InLength(t) && t.p.contentLength == 10 * s.p.contentLength + Digit(c)
            else t.p.errno == INVALID_CONTENT_LENGTH
  {
    hide Hear;
  }

  /** A Content-Length is accepted if and only if it is at most MAX_DECIMAL, and then it is
      exactly the number written: it never wraps and never reaches the value that stands for none. */
  lemma {:induction false} LengthExact(s: Conn, ds: seq<byte>, answer: Answer)
    requires AtLength(s) && IsLength(ds)
    ensures var t := Serial(s, ds, answer);
            && 0 <= Decimal(ds)
            && (Alive(t) <==> Decimal(ds) <= MAX_DECIMAL)
            && (Alive(t) ==> InLength(t) && t.p.contentLength == Decimal(ds) < ULLONG_MAX)
            && (!Alive(t) ==> t.p.errno == INVALID_CONTENT_LENGTH)
    decreases |ds|
  {
    hide Byte, AtLength;
    var n := |ds| - 1;
    if n == 0 {
      assert ds[..0] == [];
      FirstDigit(s, ds[0], answer);
      assert Serial(s, ds, answer) == Byte(s, ds[0], answer);
      assert Decimal(ds) == Digit(ds[0]);
    } else {
      assert IsLength(ds[..n]);
      LengthExact(s, ds[..n], answer);
      var t := Serial(s, ds[..n], answer);
      if Alive(t) {
        NextDigit(t, ds[n], answer);
      } else {
        DeadByte(t, ds[n], answer);
      }
    }
  }

  lemma DeadByte(s: Conn, c: byte, answer: Answer)
    requires !Alive(s)
    ensures Byte(s, c, answer) == s
  {
  }

  /** A chunk size begins. */
  predicate AtSize(s: Conn) {
    Alive(s) && s.p.state == ChunkHead(ChunkSizeStart)
  }

  predicate InSize(s: Conn) {
    Alive(s) && s.p.state == ChunkHead(ChunkSize)
  }

  lemma FirstHex(s: Conn, c: byte, answer: Answer)
    requires AtSize(s) && Unhex(c) >= 0
    ensures InSize(Byte(s, c, answer)) && Byte(s, c, answer).p.contentLength == Unhex(c) <= 15
  {
    hide Hear;
  }

  lemma NextHex(s: Conn, c: byte, answer: Answer)
    requires InSize(s) && Unhex(c) >= 0
    ensures Unhex(c) <= 15
    ensures var t := Byte(s, c, answer);
            if s.p.contentLength <= (ULLONG_MAX - 16) / 16
            then InSize(t) && t.p.contentLength == 16 * s.p.contentLength + Unhex(c)
            else t.p.errno == INVALID_CONTENT_LENGTH
  {
    hide Hear;
  }

  /** The same for the size of a chunk. */
  lemma {:induction false} SizeExact(s: Conn, ds: seq<byte>, answer: Answer)
    requires AtSize(s) && IsSize(ds)
    ensures var t := Serial(s, ds, answer);
            && 0 <= Hex(ds)
            && (Alive(t) <==> Hex(ds) <= MAX_HEX)
            && (Alive(t) ==> InSize(t) && t.p.contentLength == Hex(ds) < ULLONG_MAX)
            && (!Alive(t) ==> t.p.errno == INVALID_CONTENT_LENGTH)
    decreases |ds|
  {
    hide Byte, AtSize, Unhex;
    var n := |ds| - 1;
    if n == 0 {
      assert ds[..0] == [];
      FirstHex(s, ds[0], answer);
      assert Serial(s, ds, answer) == Byte(s, ds[0], answer);
      assert Hex(ds) == Unhex(ds[0]);
    } else {
      assert IsSize(ds[..n]);
      SizeExact(s, ds[..n], answer);
      var t := Serial(s, ds[..n], answer);
      if Alive(t) {
        NextHex(t, ds[n], answer);
      } else {
        DeadByte(t, ds[n], answer);
      }
    }
  }
}
