/** Little-endian words, and the canonical byte string the state digest is taken over. */
module Codec {
  import opened Counting
  import opened Grid
  import opened World

  function Store16(v: u16): (b: Bytes)
    ensures |b| == 2
  {
    [v % 256, v / 256]
  }

  function Store32(v: u32): (b: Bytes)
    ensures |b| == 4
  {
    [v % 256, v / 256 % 256, v / 65536 % 256, v / 16777216]
  }

  function Store64(v: u64): (b: Bytes)
    ensures |b| == 8
  {
    Store32(v % 0x1_0000_0000) + Store32(v / 0x1_0000_0000)
  }

  function Load16(b: Bytes, at: nat): u16
    requires at + 2 <= |b|
  {
    (b[at] as int) + 256 * (b[at + 1] as int)
  }

  function Load32(b: Bytes, at: nat): u32
    requires at + 4 <= |b|
  {
    (b[at] as int) + 256 * (b[at + 1] as int) + 65536 * (b[at + 2] as int) + 16777216 * (b[at + 3] as int)
  }

  function Load64(b: Bytes, at: nat): u64
    requires at + 8 <= |b|
  {
    (Load32(b, at) as int) + 0x1_0000_0000 * (Load32(b, at + 4) as int)
  }

  /** The bytes of b starting at position at begin with the given ones. */
  ghost predicate Holds(b: Bytes, at: nat, part: Bytes) {
    at + |part| <= |b| && b[at..at + |part|] == part
  }

  lemma LoadStored16(b: Bytes, at: nat, v: u16)
    requires Holds(b, at, Store16(v))
    ensures Load16(b, at) == v
  {
    assert b[at] == b[at..at + 2][0] && b[at + 1] == b[at..at + 2][1];
  }

  lemma Recompose32(v: u32)
    ensures v % 256 + 256 * (v / 256 % 256) + 65536 * (v / 65536 % 256) + 16777216 * (v / 16777216) == v
  {
    var a, b := v / 256, v / 65536;
    assert b == a / 256 && v / 16777216 == b / 256;
  }

  lemma LoadStored32(b: Bytes, at: nat, v: u32)
    requires Holds(b, at, Store32(v))
    ensures Load32(b, at) == v
  {
    var s := b[at..at + 4];
    var t := Store32(v);
    assert b[at] == s[0] == t[0] && b[at + 1] == s[1] == t[1];
    assert b[at + 2] == s[2] == t[2] && b[at + 3] == s[3] == t[3];
    Recompose32(v);
  }

  lemma LoadStored64(b: Bytes, at: nat, v: u64)
    requires Holds(b, at, Store64(v))
    ensures Load64(b, at) == v
  {
    hide Store32;
    var s := b[at..at + 8];
    var low, high: u32 := v % 0x1_0000_0000, v / 0x1_0000_0000;
    assert s[0..4] == Store32(low) && s[4..8] == Store32(high);
    assert b[at..at + 4] == s[0..4] && b[at + 4..at + 4 + 4] == s[4..8];
    LoadStored32(b, at, low);
    LoadStored32(b, at + 4, high);
  }

  /** A signed word travels as its two's complement. */
  function Unsigned(v: i32): u32 { if v >= 0 then v else v + 0x1_0000_0000 }

  function Signed(v: u32): i32 { if v < 0x8000_0000 then v else v - 0x1_0000_0000 }

  lemma SignedRoundTrip(v: i32, u: u32)
    ensures Signed(Unsigned(v)) == v && Unsigned(Signed(u)) == u
  {
  }

  /** The overlay mask as one word. */
  function OverlayWord(o: Overlays): u32 {
    (o.rest as int) * 16 + (if o.crossing then 8 else 0) + (if o.outlet then 4 else 0)
    + (if o.road then 2 else 0) + (if o.river then 1 else 0)
  }

  function OverlaysOf(w: u32): Overlays {
    Overlays(w % 2 == 1, w / 2 % 2 == 1, w / 4 % 2 == 1, w / 8 % 2 == 1, w / 16)
  }

  lemma Halve(a: nat, b: bool)
    ensures (2 * a + Bit(b)) / 2 == a && ((2 * a + Bit(b)) % 2 == 1 <==> b)
  {
  }

  lemma HalvesOfHalves(w: nat)
    ensures w / 4 == w / 2 / 2 && w / 8 == w / 2 / 2 / 2 && w / 16 == w / 2 / 2 / 2 / 2
  {
    assert w / 4 == w / 2 / 2;
    assert w / 8 == w / 4 / 2;
    assert w / 16 == w / 8 / 2;
  }

  lemma OverlayRoundTrip(o: Overlays)
    ensures OverlaysOf(OverlayWord(o)) == o
  {
    var w := OverlayWord(o);
    var a := 2 * o.rest + Bit(o.crossing);
    var b := 2 * a + Bit(o.outlet);
    var c := 2 * b + Bit(o.road);
    assert w == 2 * c + Bit(o.river);
    HalvesOfHalves(w);
    Halve(c, o.river);
    Halve(b, o.road);
    Halve(a, o.outlet);
    Halve(o.rest, o.crossing);
  }

  // ----- re-storing what was loaded gives the bytes back

  lemma StoreLoaded16(b: Bytes, at: nat)
    requires at + 2 <= |b|
    ensures b[at..at + 2] == Store16(Load16(b, at))
  {
    var low, high: nat := b[at], b[at + 1];
    assert low < 256 && Load16(b, at) == low + 256 * high;
    assert b[at..at + 2] == [b[at], b[at + 1]];
  }

  lemma Digits32(b0: u8, b1: u8, b2: u8, b3: u8)
    ensures var v: u32 := (b0 as int) + 256 * (b1 as int) + 65536 * (b2 as int) + 16777216 * (b3 as int);
            v % 256 == b0 && v / 256 % 256 == b1 && v / 65536 % 256 == b2 && v / 16777216 == b3
  {
    var v: u32 := (b0 as int) + 256 * (b1 as int) + 65536 * (b2 as int) + 16777216 * (b3 as int);
    assert v / 256 == (b1 as int) + 256 * (b2 as int) + 65536 * (b3 as int);
    assert v / 65536 == (b2 as int) + 256 * (b3 as int);
  }

  lemma StoreLoaded32(b: Bytes, at: nat)
    requires at + 4 <= |b|
    ensures b[at..at + 4] == Store32(Load32(b, at))
  {
    Digits32(b[at], b[at + 1], b[at + 2], b[at + 3]);
    assert b[at..at + 4] == [b[at], b[at + 1], b[at + 2], b[at + 3]];
  }

  lemma StoreLoaded64(b: Bytes, at: nat)
    requires at + 8 <= |b|
    ensures b[at..at + 8] == Store64(Load64(b, at))
  {
    hide Store32, Load32;
    var low: nat, high: nat := Load32(b, at), Load32(b, at + 4);
    assert Load64(b, at) == low + 0x1_0000_0000 * high;
    StoreLoaded32(b, at);
    StoreLoaded32(b, at + 4);
    assert Load64(b, at) % 0x1_0000_0000 == low && Load64(b, at) / 0x1_0000_0000 == high;
    assert b[at..at + 8] == b[at..at + 4] + b[at + 4..at + 4 + 4];
  }
}
