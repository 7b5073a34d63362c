/** The window scale option (section 2.3 of RFC 7323) read from an option list as
    TCP writes it (dpi/TcpFragment.cc). */
module TcpOptions {
  import opened SeqArith
  import opened TcpStreams

  // ----- Window scale -----

  datatype Option = Nop | Scale(shift: byte) | Other(kind: byte, data: seq<byte>)

  predicate OptionOk(o: Option) {
    o.Other? ==> o.kind > 1 && o.kind != 3 && |o.data| <= 253
  }

  predicate OptionsOk(os: seq<Option>) {
    forall i :: 0 <= i < |os| ==> OptionOk(os[i])
  }

  function EncodeOption(o: Option): (s: seq<byte>)
    requires OptionOk(o)
    ensures s != []
  {
    match o
    case Nop => [1]
    case Scale(shift) => [3, 3, shift]
    case Other(kind, data) => [kind, |data| + 2] + data
  }

  function Encode(os: seq<Option>): seq<byte>
    requires OptionsOk(os)
  {
    if os == [] then [] else EncodeOption(os[0]) + Encode(os[1..])
  }

  /** The last window scale option counts. */
  function LastScale(os: seq<Option>, on: bool, ws: u32): (bool, u32) {
    if os == [] then (on, ws)
    else if os[0].Scale? then LastScale(os[1..], true, Factor(os[0].shift))
    else LastScale(os[1..], on, ws)
  }

  /** `code`, then nothing or the end-of-options byte and padding. */
  predicate Follows(s: seq<byte>, code: seq<byte>) {
    s == code || (|s| > |code| && s[..|code|] == code && s[|code|] == 0)
  }

  lemma FollowsRest(s: seq<byte>, a: seq<byte>, b: seq<byte>)
    requires Follows(s, a + b)
    ensures |s| >= |a| && Follows(s[|a|..], b) && forall k :: 0 <= k < |a| ==> s[k] == a[k]
  {
    var all := a + b;
    forall k | 0 <= k < |all| ensures s[k] == all[k] {
      assert s[k] == s[..|all|][k];
    }
    var rest := s[|a|..];
    forall k | 0 <= k < |b| ensures rest[k] == b[k] {
      assert rest[k] == s[|a| + k] && all[|a| + k] == b[k];
    }
    assert rest[..|b|] == b;
    if s == all {
      assert rest == b;
    }
    forall k | 0 <= k < |a| ensures s[k] == a[k] {
      assert all[k] == a[k];
    }
  }

  lemma {:induction false} ShortHasNone(os: seq<Option>, on: bool, ws: u32)
    requires OptionsOk(os) && |Encode(os)| < 3
    ensures LastScale(os, on, ws) == (on, ws)
    decreases |os|
  {
    hide Factor;
    if os != [] {
      ShortHasNone(os[1..], on, ws);
    }
  }

  /** The walk over one option. */
  lemma OneOption(opts: seq<byte>, ind: nat, o: Option, on: bool, ws: u32)
    requires OptionOk(o) && 1 <= ws <= 0x4000 && ind <= |opts| - 3 && ind + |EncodeOption(o)| <= |opts|
    requires forall k :: 0 <= k < |EncodeOption(o)| ==> opts[ind + k] == EncodeOption(o)[k]
    ensures WscaleFrom(opts, ind, on, ws) ==
            if o.Scale? then WscaleFrom(opts, ind + 3, true, Factor(o.shift))
            else WscaleFrom(opts, ind + |EncodeOption(o)|, on, ws)
  {
    hide Factor;
    var bytes := EncodeOption(o);
    assert opts[ind + 0] == bytes[0];
    if !o.Nop? {
      assert opts[ind + 1] == bytes[1];
    }
    if o.Scale? {
      assert opts[ind + 2] == bytes[2];
    }
  }

  lemma {:induction false} WscaleRead(opts: seq<byte>, ind: nat, os: seq<Option>, on: bool, ws: u32)
    requires OptionsOk(os) && 1 <= ws <= 0x4000 && ind <= |opts| && Follows(opts[ind..], Encode(os))
    ensures WscaleFrom(opts, ind, on, ws) == LastScale(os, on, ws)
    decreases |os|
  {
    hide Factor, Follows, EncodeOption;
    if ind > |opts| - 3 {
      FollowsRest(opts[ind..], Encode(os), []) by { assert Encode(os) + [] == Encode(os); }
      ShortHasNone(os, on, ws);
    } else if os == [] {
      EndFollows(opts[ind..]);
      assert opts[ind] == opts[ind..][0];
    } else {
      var n := |EncodeOption(os[0])|;
      FollowsRest(opts[ind..], EncodeOption(os[0]), Encode(os[1..]));
      assert opts[ind..][n..] == opts[ind + n..];
      OneOption(opts, ind, os[0], on, ws);
      ScaleLength(os[0]);
      if os[0].Scale? {
        WscaleRead(opts, ind + n, os[1..], true, Factor(os[0].shift));
      } else {
        WscaleRead(opts, ind + n, os[1..], on, ws);
      }
    }
  }

  lemma ScaleLength(o: Option)
    requires OptionOk(o)
    ensures o.Scale? ==> |EncodeOption(o)| == 3
  {
  }

  lemma EndFollows(s: seq<byte>)
    requires Follows(s, []) && s != []
    ensures s[0] == 0
  {
  }

  /** Whatever options surround it, the last window scale option of a well-formed list is the one
      taken; without one there is no scaling. */
  lemma WscaleExact(os: seq<Option>, opts: seq<byte>)
    requires OptionsOk(os) && Follows(opts, Encode(os))
    ensures GetWscale(opts) == LastScale(os, false, 1)
  {
    assert opts[0..] == opts;
    WscaleRead(opts, 0, os, false, 1);
  }

  /** For any bytes at all the scaled window stays below 2^30. */
  lemma ScaledWindow(opts: seq<byte>, window: u16)
    ensures window * GetWscale(opts).1 < 0x4000_0000
  {
    var ws := GetWscale(opts).1;
    assert window * ws <= 0xFFFF * ws;
  }
}
