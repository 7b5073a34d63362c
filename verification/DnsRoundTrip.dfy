/** Names written as section 4.1.4 of RFC 1035 has it are read back, as far as the
    reader follows it: a pointer counts from where the questions start, and its low
    byte as a signed number. */
module DnsRoundTrip {
  import opened SeqArith
  import opened DnsName

  type Label = seq<byte>

  predicate IsLabel(l: Label) {
    1 <= |l| <= 127
  }

  predicate AreLabels(labels: seq<Label>) {
    forall i :: 0 <= i < |labels| ==> IsLabel(labels[i])
  }

  /** Labels, each after its length; the end of the name or a pointer follows. */
  function Encode(labels: seq<Label>): seq<byte>
    requires AreLabels(labels)
  {
    if labels == [] then [] else [|labels[0]|] + labels[0] + Encode(labels[1..])
  }

  function EscapeAll(l: Label): seq<byte> {
    if l == [] then [] else EscapeAll(l[..|l| - 1]) + Escape(l[|l| - 1])
  }

  /** The text with further labels, dots between them. */
  function Show(text: seq<byte>, labels: seq<Label>): seq<byte>
    decreases |labels|
  {
    if labels == [] then text
    else Show((if text == [] then [] else text + [DOT]) + EscapeAll(labels[0]), labels[1..])
  }

  /** The bytes at position `p`. */
  predicate Holds(data: seq<byte>, p: int, bytes: seq<byte>) {
    0 <= p && p + |bytes| <= |data| && data[p..p + |bytes|] == bytes
  }

  lemma HoldsParts(data: seq<byte>, p: int, a: seq<byte>, b: seq<byte>)
    requires Holds(data, p, a + b)
    ensures Holds(data, p, a) && Holds(data, p + |a|, b)
  {
    var d := data[p..p + |a + b|];
    assert data[p..p + |a|] == d[..|a|] && data[p + |a|..p + |a| + |b|] == d[|a|..];
  }

  /** Where the reader is after `m` steps, the text so far, and the first pointer followed. */
  ghost predicate Within(data: seq<byte>, idPos: u32, start: u32, m: nat, w: Walk, text: seq<byte>, pointer: Option<u32>) {
    && WalkAt(data, idPos, start, m) == Some(w) && Text(data, idPos, start, m) == text
    && FirstPointer(data, idPos, start, m) == pointer
  }

  lemma LabelByte(data: seq<byte>, idPos: u32, start: u32, m: nat, w: Walk, text: seq<byte>, pointer: Option<u32>)
    requires |data| <= MAX_MESSAGE && Within(data, idPos, start, m, w, text, pointer)
    requires w.pos < |data| && w.next != w.pos
    ensures Within(data, idPos, start, m + 1, Walk(w.pos + 1, w.next), text + Escape(data[w.pos]), pointer)
  {
    hide Escape;
    assert Readable(data, w);
  }

  lemma LengthByte(data: seq<byte>, idPos: u32, start: u32, m: nat, w: Walk, text: seq<byte>, pointer: Option<u32>)
    requires |data| <= MAX_MESSAGE && Within(data, idPos, start, m, w, text, pointer)
    requires w.pos < |data| && w.next == w.pos && 1 <= data[w.pos] <= 127
    ensures Within(data, idPos, start, m + 1, Walk(w.pos + 1, w.pos + data[w.pos] + 1),
                   if text == [] then [] else text + [DOT], pointer)
  {
    hide U32, Target, Escape;
    assert Readable(data, w);
    WrapSmall(w.pos + 1);
    WrapSmall(w.pos + data[w.pos] + 1);
    assert text + [] == text;
  }

  /** Through the bytes of a label. */
  lemma {:induction false} LabelRead(data: seq<byte>, idPos: u32, start: u32, m: nat, w: Walk, text: seq<byte>,
                                     pointer: Option<u32>, l: Label)
    requires |data| <= MAX_MESSAGE && Within(data, idPos, start, m, w, text, pointer)
    requires Holds(data, w.pos, l) && w.next >= w.pos + |l|
    ensures Within(data, idPos, start, m + |l|, Walk(w.pos + |l|, w.next), text + EscapeAll(l), pointer)
    decreases |l|
  {
    hide Within, Escape;
    if l == [] {
      assert text + [] == text;
    } else {
      var n := |l| - 1;
      assert l == l[..n] + [l[n]];
      HoldsParts(data, w.pos, l[..n], [l[n]]);
      LabelRead(data, idPos, start, m, w, text, pointer, l[..n]);
      var v := Walk(w.pos + n, w.next);
      assert data[v.pos..v.pos + 1] == [l[n]];
      LabelByte(data, idPos, start, m + n, v, text + EscapeAll(l[..n]), pointer);
      assert text + EscapeAll(l[..n]) + Escape(l[n]) == text + EscapeAll(l);
    }
  }

  /** Through labels, from one to the next. */
  lemma {:induction false} LabelsRead(data: seq<byte>, idPos: u32, start: u32, m: nat, p: u32, text: seq<byte>,
                                      pointer: Option<u32>, labels: seq<Label>)
    requires |data| <= MAX_MESSAGE && AreLabels(labels)
    requires Within(data, idPos, start, m, Walk(p, p), text, pointer) && Holds(data, p, Encode(labels))
    ensures p + |Encode(labels)| < TWO32
    ensures var q := p + |Encode(labels)|;
            Within(data, idPos, start, m + |Encode(labels)|, Walk(q, q), Show(text, labels), pointer)
    decreases |labels|
  {
    hide Within;
    if labels != [] {
      var l := labels[0];
      var more := Encode(labels[1..]);
      HoldsParts(data, p, [|l|] + l, more);
      HoldsParts(data, p, [|l|], l);
      assert data[p..p + 1] == [|l|];
      LengthByte(data, idPos, start, m, Walk(p, p), text, pointer);
      var dotted := if text == [] then [] else text + [DOT];
      LabelRead(data, idPos, start, m + 1, Walk(p + 1, p + 1 + |l|), dotted, pointer, l);
      LabelsRead(data, idPos, start, m + 1 + |l|, p + 1 + |l|, dotted + EscapeAll(l), pointer, labels[1..]);
    }
  }

  lemma AtStart(data: seq<byte>, idPos: u32, start: u32)
    ensures Within(data, idPos, start, 0, Walk(start, start), [], None)
  {
  }

  /** A name without pointers, anywhere in a message: its labels come back, joined by dots,
      and the message goes on after its end. */
  lemma PlainName(data: seq<byte>, idPos: u32, start: u32, labels: seq<Label>)
    requires |data| <= MAX_MESSAGE && AreLabels(labels) && Holds(data, start, Encode(labels) + [0])
    ensures var n := |Encode(labels)|;
            && n < 2 * |data| && Ends(data, idPos, start, n)
            && Text(data, idPos, start, n) == Show([], labels)
            && FirstPointer(data, idPos, start, n).None?
            && WalkAt(data, idPos, start, n).value.pos == start + n
  {
    hide Readable, Move, Within, Encode, Show;
    AtStart(data, idPos, start);
    HoldsParts(data, start, Encode(labels), [0]);
    LabelsRead(data, idPos, start, 0, start, [], None, labels);
    var q := start + |Encode(labels)|;
    assert data[q..q + 1] == [0];
    NameEnds(data, idPos, start, |Encode(labels)|, q, Show([], labels), None);
  }

  lemma PointerFollowed(data: seq<byte>, idPos: u32, start: u32, m: nat, p: u32, text: seq<byte>)
    requires |data| <= MAX_MESSAGE && Within(data, idPos, start, m, Walk(p, p), text, None)
    requires p + 1 < |data| && IsPointer(data[p])
    ensures var t := Target(idPos, data[p], data[p + 1]);
            Within(data, idPos, start, m + 1, Walk(t, t), text, Some(p))
  {
    hide U32, Target, Escape;
    assert Readable(data, Walk(p, p));
    assert text + [] == text;
  }

  /** A name that ends in a pointer to further labels: both parts come back, and the message goes on after the pointer. */
  lemma CompressedName(data: seq<byte>, idPos: u32, start: u32, labels: seq<Label>, high: byte, low: byte, rest: seq<Label>)
    requires |data| <= MAX_MESSAGE && AreLabels(labels) && AreLabels(rest) && IsPointer(high)
    requires Holds(data, start, Encode(labels) + [high, low])
    requires Holds(data, Target(idPos, high, low), Encode(rest) + [0])
    ensures var n := |Encode(labels)| + 1 + |Encode(rest)|;
            && n < 2 * |data| && Ends(data, idPos, start, n)
            && Text(data, idPos, start, n) == Show(Show([], labels), rest)
            && FirstPointer(data, idPos, start, n) == Some(start + |Encode(labels)|)
  {
    hide Readable, Move, Within, Target, Encode, Show;
    AtStart(data, idPos, start);
    HoldsParts(data, start, Encode(labels), [high, low]);
    LabelsRead(data, idPos, start, 0, start, [], None, labels);
    var q := start + |Encode(labels)|;
    assert data[q] == data[q..q + 2][0] && data[q + 1] == data[q..q + 2][1];
    PointerFollowed(data, idPos, start, |Encode(labels)|, q, Show([], labels));
    var t := Target(idPos, high, low);
    HoldsParts(data, t, Encode(rest), [0]);
    LabelsRead(data, idPos, start, |Encode(labels)| + 1, t, Show([], labels), Some(q), rest);
    var e := t + |Encode(rest)|;
    assert data[e..e + 1] == [0];
    NameEnds(data, idPos, start, |Encode(labels)| + 1 + |Encode(rest)|, e, Show(Show([], labels), rest), Some(q));
  }

  lemma NameEnds(data: seq<byte>, idPos: u32, start: u32, n: nat, e: u32, text: seq<byte>, pointer: Option<u32>)
    requires Within(data, idPos, start, n, Walk(e, e), text, pointer) && e < |data| && data[e] == 0
    ensures Ends(data, idPos, start, n) && Text(data, idPos, start, n) == text
    ensures FirstPointer(data, idPos, start, n) == pointer && WalkAt(data, idPos, start, n) == Some(Walk(e, e))
  {
  }

  /** A pointer leads to the offset written in it, counted from the start of the message, if and
      only if the reader counts from there too and the low byte is below 128, or from 256 bytes further on. */
  lemma PointerExact(idPos: u32, high: byte, low: byte)
    requires IsPointer(high)
    ensures Target(idPos, high, low) == (high - 192) * 256 + low <==> idPos == if low < 128 then 0 else 256
  {
    var offset := (high - 192) * 256 + low;
    assert high % 64 == high - 192;
  }
}
