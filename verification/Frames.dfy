/** The section framing shared by the save and replay containers: a sixteen-byte header, the
    payload and its digest. */
module Frames {
  import opened Grid
  import opened World
  import opened Codec
  import opened Hashing
  import opened Decisions

  const HEADER := 16
  const DIGEST := 32
  const FRAME_OVERHEAD := 48
  const MAX_SECTIONS := 64
  const FILE_LIMIT: nat := 0x1_0000_0000_0000_0000

  datatype Option<T> = None | Some(value: T)

  datatype Frame = Frame(tag: u16, critical: bool, payload: Bytes)
  {
    predicate Fits() { |payload| < FILE_LIMIT }
  }

  function Flags(critical: bool): u16 { if critical then 1 else 0 }

  function HeaderBytes(tag: u16, critical: bool, length: u64): (b: Bytes)
    ensures |b| == HEADER
  {
    Store16(tag) + Store16(Flags(critical)) + Store32(0) + Store64(length)
  }

  function FrameBytes(sha: HashFunction, f: Frame): (b: Bytes)
    requires f.Fits()
    ensures |b| == FRAME_OVERHEAD + |f.payload|
  {
    HeaderBytes(f.tag, f.critical, |f.payload|) + f.payload + sha(f.payload)
  }

  predicate AllFit(fs: seq<Frame>) { forall k :: 0 <= k < |fs| ==> fs[k].Fits() }

  function BodyBytes(sha: HashFunction, fs: seq<Frame>): Bytes
    requires AllFit(fs)
  {
    if fs == [] then [] else BodyBytes(sha, fs[..|fs| - 1]) + FrameBytes(sha, fs[|fs| - 1])
  }

  function LastTag(fs: seq<Frame>): u16 { if fs == [] then 0 else fs[|fs| - 1].tag }

  predicate Ascending(fs: seq<Frame>) {
    && (forall k :: 0 <= k < |fs| ==> fs[k].tag > 0)
    && (forall k :: 0 < k < |fs| ==> fs[k - 1].tag < fs[k].tag)
  }

  /** Frames a reader of the sections 1..last accepts one by one: known sections and
      optional later ones. */
  predicate Known(fs: seq<Frame>, last: u16) {
    forall k :: 0 <= k < |fs| && fs[k].tag > last ==> !fs[k].critical
  }

  /** body is exactly these frames, in order. */
  ghost predicate Splits(sha: HashFunction, body: Bytes, fs: seq<Frame>, last: u16) {
    && AllFit(fs) && |fs| <= 64 && Ascending(fs) && Known(fs, last)
    && body == BodyBytes(sha, fs)
  }

  predicate HasCritical(fs: seq<Frame>, tag: u16) {
    exists k :: 0 <= k < |fs| && fs[k].tag == tag && fs[k].critical
  }

  /** Every mandatory section is there and critical. */
  predicate Complete(fs: seq<Frame>, last: u16) {
    forall tag: u16 :: 1 <= tag <= last ==> HasCritical(fs, tag)
  }

  function Find(fs: seq<Frame>, tag: u16): Option<Frame> {
    if fs == [] then None
    else if fs[|fs| - 1].tag == tag then Some(fs[|fs| - 1])
    else Find(fs[..|fs| - 1], tag)
  }

  // ----- reading one frame back

  lemma {:induction false} BodyPrefix(sha: HashFunction, fs: seq<Frame>, gs: seq<Frame>)
    requires AllFit(gs) && fs <= gs
    ensures AllFit(fs) && |BodyBytes(sha, fs)| <= |BodyBytes(sha, gs)|
    ensures BodyBytes(sha, gs)[..|BodyBytes(sha, fs)|] == BodyBytes(sha, fs)
    ensures |fs| < |gs| ==> Holds(BodyBytes(sha, gs), |BodyBytes(sha, fs)|, FrameBytes(sha, gs[|fs|]))
  {
    hide FrameBytes;
    if |fs| < |gs| {
      var front := gs[..|gs| - 1];
      BodyPrefix(sha, fs, front);
      if fs == front {
        assert FrameBytes(sha, gs[|fs|]) == BodyBytes(sha, gs)[|BodyBytes(sha, fs)|..];
      } else {
        HoldsPrefix(BodyBytes(sha, front), FrameBytes(sha, gs[|gs| - 1]), |BodyBytes(sha, fs)|, FrameBytes(sha, front[|fs|]));
      }
    } else {
      assert fs == gs;
    }
  }

  lemma HoldsPrefix(a: Bytes, b: Bytes, at: nat, part: Bytes)
    requires Holds(a, at, part)
    ensures Holds(a + b, at, part)
  {
    assert (a + b)[at..at + |part|] == a[at..at + |part|];
  }

  lemma SliceOfSlice(b: Bytes, at: nat, n: nat, i: nat, j: nat)
    requires i <= j <= n && at + n <= |b|
    ensures b[at..at + n][i..j] == b[at + i..at + j]
  {
    var x, y := b[at..at + n][i..j], b[at + i..at + j];
    assert |x| == |y| && forall k :: 0 <= k < |x| ==> x[k] == b[at + i + k] == y[k];
  }

  lemma HoldsPart(b: Bytes, at: nat, front: Bytes, middle: Bytes, back: Bytes)
    requires Holds(b, at, front + middle + back)
    ensures Holds(b, at, front) && Holds(b, at + |front|, middle) && Holds(b, at + |front| + |middle|, back)
  {
    var whole := front + middle + back;
    var n, i, j := |whole|, |front|, |front| + |middle|;
    SliceOfSlice(b, at, n, 0, i);
    SliceOfSlice(b, at, n, i, j);
    SliceOfSlice(b, at, n, j, n);
    assert whole[0..i] == front && whole[i..j] == middle && whole[j..n] == back;
  }

  /** What the reader loads from the header of a stored frame. */
  lemma StoredHeader(b: Bytes, at: nat, tag: u16, critical: bool, length: u64)
    requires Holds(b, at, HeaderBytes(tag, critical, length))
    ensures Load16(b, at) == tag && Load16(b, at + 2) == Flags(critical)
    ensures Load32(b, at + 4) == 0 && Load64(b, at + 8) == length
  {
    hide Store16, Store32, Store64, Load16, Load32, Load64;
    HoldsPart(b, at, Store16(tag), Store16(Flags(critical)), Store32(0) + Store64(length));
    HoldsPart(b, at + 4, Store32(0), Store64(length), []);
    assert HeaderBytes(tag, critical, length) == Store16(tag) + Store16(Flags(critical)) + (Store32(0) + Store64(length));
    assert Store32(0) + Store64(length) == Store32(0) + Store64(length) + [];
    LoadStored16(b, at, tag);
    LoadStored16(b, at + 2, Flags(critical));
    LoadStored32(b, at + 4, 0);
    LoadStored64(b, at + 8, length);
  }

  lemma LoadedHeader(b: Bytes, at: nat, critical: bool)
    requires at + HEADER <= |b| && Load16(b, at + 2) == Flags(critical) && Load32(b, at + 4) == 0
    ensures b[at..at + HEADER] == HeaderBytes(Load16(b, at), critical, Load64(b, at + 8))
  {
    hide Store16, Store32, Store64, Load16, Load32, Load64;
    StoreLoaded16(b, at);
    StoreLoaded16(b, at + 2);
    StoreLoaded32(b, at + 4);
    StoreLoaded64(b, at + 8);
    assert b[at..at + HEADER] == b[at..at + 2] + b[at + 2..at + 2 + 2] + b[at + 4..at + 4 + 4] + b[at + 8..at + 8 + 8];
  }

  /** A stored frame, seen by the reader: header words, payload slice and digest slice. */
  lemma StoredFrame(sha: HashFunction, b: Bytes, at: nat, f: Frame)
    requires f.Fits() && Holds(b, at, FrameBytes(sha, f))
    ensures at + FRAME_OVERHEAD + |f.payload| <= |b|
    ensures Load16(b, at) == f.tag && Load16(b, at + 2) == Flags(f.critical)
    ensures Load32(b, at + 4) == 0 && Load64(b, at + 8) == |f.payload|
    ensures b[at + HEADER..at + HEADER + |f.payload|] == f.payload
    ensures b[at + HEADER + |f.payload|..at + FRAME_OVERHEAD + |f.payload|] == sha(f.payload)
  {
    hide HeaderBytes, Load16, Load32, Load64;
    HoldsPart(b, at, HeaderBytes(f.tag, f.critical, |f.payload|), f.payload, sha(f.payload));
    StoredHeader(b, at, f.tag, f.critical, |f.payload|);
  }

  /** f is a frame with a later tag, stored at position and ending by footer. */
  ghost predicate FrameAt(sha: HashFunction, bytes: Bytes, position: nat, footer: nat, previous: u16, f: Frame) {
    && f.Fits() && f.tag > previous && position + FRAME_OVERHEAD + |f.payload| <= footer
    && Holds(bytes, position, FrameBytes(sha, f))
  }

  /** The part of both section parsers that handles one frame. */
  method ReadFrame(bytes: Bytes, position: nat, footer: nat, previous: u16, sha: HashFunction)
    returns (code: u32, frame: Frame)
    requires position < footer <= |bytes| < FILE_LIMIT
    ensures code == OK ==> FrameAt(sha, bytes, position, footer, previous, frame)
    ensures forall f: Frame :: FrameAt(sha, bytes, position, footer, previous, f) ==> code == OK && frame == f
  {
    hide Load16, Load32, Load64, HeaderBytes, FrameBytes, Holds;
    forall f: Frame | FrameAt(sha, bytes, position, footer, previous, f)
      ensures position + FRAME_OVERHEAD + |f.payload| <= |bytes|
      ensures Load16(bytes, position) == f.tag && Load16(bytes, position + 2) == Flags(f.critical)
      ensures Load32(bytes, position + 4) == 0 && Load64(bytes, position + 8) == |f.payload|
      ensures bytes[position + HEADER..position + HEADER + |f.payload|] == f.payload
      ensures bytes[position + HEADER + |f.payload|..position + FRAME_OVERHEAD + |f.payload|] == sha(f.payload)
    {
      StoredFrame(sha, bytes, position, f);
    }
    frame := Frame(0, false, []);
    if footer - position < FRAME_OVERHEAD {
      return FORMAT, frame;
    }
    var tag, flags, reserved := Load16(bytes, position), Load16(bytes, position + 2), Load32(bytes, position + 4);
    var length := Load64(bytes, position + 8);
    if tag <= previous || reserved != 0 || flags > 1 {
      return FORMAT, frame;
    }
    if FRAME_OVERHEAD + length >= FILE_LIMIT || FRAME_OVERHEAD + length > footer - position {
      return FORMAT, frame;
    }
    var start := position + HEADER;
    var payload := bytes[start..start + length];
    if sha(payload) != bytes[start + length..start + length + DIGEST] {
      return CHECKSUM, frame;
    }
    frame := Frame(tag, flags == 1, payload);
    LoadedHeader(bytes, position, flags == 1);
    RebuiltFrame(sha, bytes, position, frame);
    code := OK;
  }

  lemma RebuiltFrame(sha: HashFunction, b: Bytes, at: nat, f: Frame)
    requires f.Fits() && at + FRAME_OVERHEAD + |f.payload| <= |b|
    requires b[at..at + HEADER] == HeaderBytes(f.tag, f.critical, |f.payload|)
    requires b[at + HEADER..at + HEADER + |f.payload|] == f.payload
    requires b[at + HEADER + |f.payload|..at + HEADER + |f.payload| + DIGEST] == sha(f.payload)
    ensures Holds(b, at, FrameBytes(sha, f))
  {
    hide HeaderBytes;
    var n := |f.payload|;
    assert b[at..at + FRAME_OVERHEAD + n]
        == b[at..at + HEADER] + b[at + HEADER..at + HEADER + n] + b[at + HEADER + n..at + HEADER + n + DIGEST];
  }

  // ----- the two section parsers

  /** The last frame with a tag, if any. */
  function Table(fs: seq<Frame>, last: nat): (table: seq<Option<Frame>>)
    ensures |table| == last + 1
    ensures forall tag: nat :: tag <= last ==> table[tag] == Find(fs, tag as u16)
    requires last < 0x1_0000
  {
    seq(last + 1, tag requires 0 <= tag <= last => Find(fs, tag))
  }

  lemma TableExtended(fs: seq<Frame>, f: Frame, last: nat)
    requires last < 0x1_0000
    ensures Table(fs + [f], last) == if f.tag <= last then Table(fs, last)[f.tag := Some(f)] else Table(fs, last)
  {
    assert (fs + [f])[..|fs|] == fs;
  }

  /** What the loop of a parser has established up to a position. */
  ghost predicate Parsed(sha: HashFunction, bytes: Bytes, position: nat, last: u16, fs: seq<Frame>) {
    8 <= position <= |bytes| && Splits(sha, bytes[8..position], fs, last)
  }

  /** The sections of a whole file: between the magic and the footer digest. */
  function BodyOf(bytes: Bytes): Bytes
    requires |bytes| >= 8 + DIGEST
  {
    bytes[8..|bytes| - DIGEST]
  }

  /** A further frame extends what is parsed, as long as it is not the 65th or an unknown
      critical one. */
  lemma ParsedExtended(sha: HashFunction, bytes: Bytes, position: nat, footer: nat, last: u16, fs: seq<Frame>, f: Frame)
    requires Parsed(sha, bytes, position, last, fs) && footer <= |bytes|
    requires FrameAt(sha, bytes, position, footer, LastTag(fs), f)
    requires |fs| < MAX_SECTIONS && (f.tag > last ==> !f.critical)
    ensures Parsed(sha, bytes, position + FRAME_OVERHEAD + |f.payload|, last, fs + [f])
  {
    hide FrameBytes;
    var next := position + FRAME_OVERHEAD + |f.payload|;
    assert (fs + [f])[..|fs|] == fs;
    assert bytes[8..next] == bytes[8..position] + bytes[position..next];
  }

  /** If the whole body splits into gs, what is parsed is a prefix of gs, and the next frame
      of gs is the one the reader finds. */
  lemma NextFrame(sha: HashFunction, bytes: Bytes, position: nat, last: u16, fs: seq<Frame>, gs: seq<Frame>)
    requires |bytes| >= 8 + DIGEST && position <= |bytes| - DIGEST
    requires Parsed(sha, bytes, position, last, fs) && Splits(sha, BodyOf(bytes), gs, last) && fs <= gs
    ensures |fs| == |gs| <==> position == |bytes| - DIGEST
    ensures |fs| < |gs| ==>
              && FrameAt(sha, bytes, position, |bytes| - DIGEST, LastTag(fs), gs[|fs|])
              && fs + [gs[|fs|]] <= gs && (gs[|fs|].tag > last ==> !gs[|fs|].critical)
  {
    hide FrameBytes, BodyBytes;
    BodyPrefix(sha, fs, gs);
    if |fs| < |gs| {
      var part := FrameBytes(sha, gs[|fs|]);
      var at := |BodyBytes(sha, fs)|;
      var body := BodyOf(bytes);
      assert |bytes[8..position]| == at && position == 8 + at;
      forall k | 0 <= k < |part| ensures bytes[position..position + |part|][k] == part[k] {
        assert body[at..at + |part|][k] == body[at + k] == bytes[8 + at + k];
      }
      assert bytes[position..position + |part|] == part;
    } else {
      assert fs == gs;
    }
  }

  /** A body the parsers accept, and the frames it consists of. */
  ghost predicate ValidBody(sha: HashFunction, bytes: Bytes, last: u16, fs: seq<Frame>)
    requires |bytes| >= 8 + DIGEST
  {
    Splits(sha, BodyOf(bytes), fs, last) && Complete(fs, last)
  }

  lemma {:induction false} FindIs(fs: seq<Frame>, tag: u16)
    requires Ascending(fs)
    ensures HasCritical(fs, tag) <==> Find(fs, tag).Some? && Find(fs, tag).value.critical
    ensures forall k :: 0 <= k < |fs| && fs[k].tag == tag ==> Find(fs, tag) == Some(fs[k])
  {
    if fs != [] {
      var n := |fs| - 1;
      FindIs(fs[..n], tag);
      AscendingApart(fs);
      if Find(fs, tag).Some? && Find(fs, tag).value.critical {
        if fs[n].tag != tag {
          var k :| 0 <= k < n && fs[..n][k].tag == tag && fs[..n][k].critical;
          assert fs[k].tag == tag && fs[k].critical;
        }
      }
      forall k | 0 <= k < |fs| && fs[k].tag == tag ensures Find(fs, tag) == Some(fs[k]) {
        if k < n { assert fs[..n][k] == fs[k]; }
      }
    }
  }

  lemma {:induction false} AscendingApart(fs: seq<Frame>)
    requires Ascending(fs)
    ensures forall j, k :: 0 <= j < k < |fs| ==> fs[j].tag < fs[k].tag
  {
    if fs != [] {
      var n := |fs| - 1;
      AscendingApart(fs[..n]);
      forall j, k | 0 <= j < k < |fs| ensures fs[j].tag < fs[k].tag {
        if k < n {
          assert fs[..n][j] == fs[j] && fs[..n][k] == fs[k];
        } else if j < n - 1 {
          assert fs[..n][j] == fs[j] && fs[..n][n - 1] == fs[n - 1];
        }
      }
    }
  }

  lemma OneFrameThere(sha: HashFunction, bytes: Bytes, position: nat, footer: nat, previous: u16, f: Frame, g: Frame)
    requires FrameAt(sha, bytes, position, footer, previous, f) && FrameAt(sha, bytes, position, footer, previous, g)
    ensures f == g
  {
    hide FrameBytes, Load16, Load32, Load64;
    StoredFrame(sha, bytes, position, f);
    StoredFrame(sha, bytes, position, g);
  }

  lemma PrefixParsed(sha: HashFunction, bytes: Bytes, last: u16, fs: seq<Frame>, n: nat)
    requires |bytes| >= 8 + DIGEST && Splits(sha, BodyOf(bytes), fs, last) && n <= |fs|
    ensures AllFit(fs[..n]) && Parsed(sha, bytes, 8 + |BodyBytes(sha, fs[..n])|, last, fs[..n])
    ensures 8 + |BodyBytes(sha, fs[..n])| <= |bytes| - DIGEST
  {
    hide FrameBytes, BodyBytes;
    BodyPrefix(sha, fs[..n], fs);
    var at := |BodyBytes(sha, fs[..n])|;
    assert bytes[8..8 + at] == BodyOf(bytes)[..at];
  }

  /** A body splits in at most one way. */
  lemma {:induction false} SplitsOnce(sha: HashFunction, bytes: Bytes, last: u16, fs: seq<Frame>, gs: seq<Frame>,
                                      n: nat)
    requires |bytes| >= 8 + DIGEST && Splits(sha, BodyOf(bytes), fs, last) && Splits(sha, BodyOf(bytes), gs, last)
    requires n <= |fs|
    ensures n <= |gs| && fs[..n] == gs[..n]
    ensures n == |fs| ==> fs == gs
    decreases n
  {
    hide FrameBytes, BodyBytes, Splits, Parsed, FrameAt;
    if n > 0 {
      SplitsOnce(sha, bytes, last, fs, gs, n - 1);
      var ps := fs[..n - 1];
      PrefixParsed(sha, bytes, last, fs, n - 1);
      var at := 8 + |BodyBytes(sha, ps)|;
      NextFrame(sha, bytes, at, last, ps, fs);
      NextFrame(sha, bytes, at, last, ps, gs);
      OneFrameThere(sha, bytes, at, |bytes| - DIGEST, LastTag(ps), fs[n - 1], gs[n - 1]);
      assert fs[..n] == ps + [fs[n - 1]] && gs[..n] == ps + [gs[n - 1]];
    }
    if n == |fs| {
      assert fs[..n] == fs;
      PrefixParsed(sha, bytes, last, fs, n);
      NextFrame(sha, bytes, 8 + |BodyBytes(sha, fs)|, last, fs, fs);
      NextFrame(sha, bytes, 8 + |BodyBytes(sha, fs)|, last, fs, gs);
    }
  }

  lemma StartParsing(sha: HashFunction, bytes: Bytes, last: u16)
    requires |bytes| >= 8
    ensures Parsed(sha, bytes, 8, last, []) && Table([], last) == seq(last + 1, _ => None)
  {
    assert bytes[8..8] == [];
  }

  lemma FrameStep(sha: HashFunction, bytes: Bytes, position: nat, footer: nat, previous: u16, f: Frame)
    requires FrameAt(sha, bytes, position, footer, previous, f)
    ensures position + FRAME_OVERHEAD + |f.payload| <= footer
  {
  }

  lemma AllParsed(sha: HashFunction, bytes: Bytes, last: u16, fs: seq<Frame>)
    requires |bytes| >= 8 + DIGEST && Parsed(sha, bytes, |bytes| - DIGEST, last, fs)
    ensures Splits(sha, BodyOf(bytes), fs, last) && Ascending(fs)
  {
  }

  lemma SectionPresent(fs: seq<Frame>, last: nat, tag: nat)
    requires Ascending(fs) && tag <= last < 0x1_0000
    ensures HasCritical(fs, tag) <==> Table(fs, last)[tag].Some? && Table(fs, last)[tag].value.critical
  {
    FindIs(fs, tag);
  }

  lemma Incomplete(fs: seq<Frame>, last: u16, tag: nat)
    requires 1 <= tag <= last && !HasCritical(fs, tag)
    ensures !Complete(fs, last)
  {
  }

  lemma AllThere(fs: seq<Frame>, last: u16)
    requires forall k: u16 :: 1 <= k < last + 1 ==> HasCritical(fs, k)
    ensures Complete(fs, last)
  {
  }

  lemma PrefixStep(sha: HashFunction, bytes: Bytes, last: u16, fs: seq<Frame>, n: nat)
    requires |bytes| >= 8 + DIGEST && Splits(sha, BodyOf(bytes), fs, last) && n <= |fs|
    ensures AllFit(fs[..n])
    ensures var scan := 8 + |BodyBytes(sha, fs[..n])|;
            && scan <= |bytes| - DIGEST && (n == |fs| <==> scan == |bytes| - DIGEST)
            && (n < |fs| ==>
                  && scan + FRAME_OVERHEAD <= |bytes| - DIGEST && Load64(bytes, scan + 8) == |fs[n].payload|
                  && AllFit(fs[..n + 1])
                  && 8 + |BodyBytes(sha, fs[..n + 1])| == scan + FRAME_OVERHEAD + |fs[n].payload|)
  {
    hide Load64, Load16, Load32, Splits, Parsed;
    PrefixParsed(sha, bytes, last, fs, n);
    NextFrame(sha, bytes, 8 + |BodyBytes(sha, fs[..n])|, last, fs[..n], fs);
    if n < |fs| {
      StoredFrame(sha, bytes, 8 + |BodyBytes(sha, fs[..n])|, fs[n]);
      assert fs[..n + 1][..n] == fs[..n];
      PrefixParsed(sha, bytes, last, fs, n + 1);
    }
  }

  /** The second scan of fd_parse_save_sections, over lengths alone. */
  method Recount(ghost sha: HashFunction, bytes: Bytes, ghost last: u16, ghost fs: seq<Frame>) returns (count: nat)
    requires |bytes| >= 8 + DIGEST && Splits(sha, BodyOf(bytes), fs, last)
    ensures count == |fs|
  {
    hide BodyBytes, Splits, Load64;
    var scan: nat := 8;
    count := 0;
    assert fs[..0] == [];
    EmptyBody(sha);
    PrefixStep(sha, bytes, last, fs, 0);
    while scan < |bytes| - DIGEST
      invariant count <= |fs| && AllFit(fs[..count]) && scan == 8 + |BodyBytes(sha, fs[..count])|
      invariant count == |fs| <==> scan == |bytes| - DIGEST
      invariant scan <= |bytes| - DIGEST
    {
      PrefixStep(sha, bytes, last, fs, count);
      PrefixStep(sha, bytes, last, fs, count + 1);
      var length := Load64(bytes, scan + 8);
      scan := scan + FRAME_OVERHEAD + length;
      count := count + 1;
    }
  }

  lemma EmptyBody(sha: HashFunction)
    ensures BodyBytes(sha, []) == []
  {
  }

  const SAVE_LAST: u16 := 11
  const REPLAY_LAST: u16 := 5

  /** The loop over the mandatory tags. */
  method MandatoryPresent(sections: seq<Option<Frame>>, ghost fs: seq<Frame>, last: nat) returns (present: bool)
    requires 0 < last < 0xFFFF && Ascending(fs) && sections == Table(fs, last)
    ensures present <==> Complete(fs, last)
  {
    hide HasCritical, Table, Complete, Ascending;
    var tag: nat := 1;
    while tag <= last
      invariant 1 <= tag <= last + 1 && forall k: u16 :: 1 <= k < tag ==> HasCritical(fs, k)
    {
      SectionPresent(fs, last, tag);
      if sections[tag].None? || !sections[tag].value.critical {
        Incomplete(fs, last, tag);
        return false;
      }
      tag := tag + 1;
    }
    AllThere(fs, last);
    present := true;
  }

  lemma WholeBody(sha: HashFunction, bytes: Bytes, last: u16, fs: seq<Frame>)
    requires |bytes| >= 8 + DIGEST && Splits(sha, BodyOf(bytes), fs, last)
    ensures ValidBody(sha, bytes, last, fs) <==> Complete(fs, last)
    ensures forall gs :: ValidBody(sha, bytes, last, gs) ==> gs == fs
  {
    hide Splits;
    forall gs | ValidBody(sha, bytes, last, gs) ensures gs == fs {
      SplitsOnce(sha, bytes, last, fs, gs, |fs|);
    }
  }

  /** If a valid split gs goes on after fs, the frame just read is its next one. */
  lemma StaysOnTrack(sha: HashFunction, bytes: Bytes, position: nat, last: u16, fs: seq<Frame>, gs: seq<Frame>)
    requires |bytes| >= 8 + DIGEST && position < |bytes| - DIGEST
    requires Parsed(sha, bytes, position, last, fs) && ValidBody(sha, bytes, last, gs) && fs <= gs
    ensures |fs| < |gs| <= MAX_SECTIONS && fs + [gs[|fs|]] <= gs && (gs[|fs|].tag > last ==> !gs[|fs|].critical)
    ensures FrameAt(sha, bytes, position, |bytes| - DIGEST, LastTag(fs), gs[|fs|])
  {
    hide FrameAt, Parsed;
    NextFrame(sha, bytes, position, last, fs, gs);
  }

  /** fd_parse_save_sections: accepts exactly the valid bodies, and counts their frames. */
  method ParseSave(bytes: Bytes, sha: HashFunction)
    returns (code: u32, sections: seq<Option<Frame>>, count: nat, ghost fs: seq<Frame>)
    requires 8 + DIGEST <= |bytes| < FILE_LIMIT
    ensures code == OK <==> exists gs :: ValidBody(sha, bytes, SAVE_LAST, gs)
    ensures code == OK ==>
              ValidBody(sha, bytes, SAVE_LAST, fs) && sections == Table(fs, SAVE_LAST) && count == |fs|
  {
    hide FrameBytes, BodyBytes, BodyOf, Splits, Parsed, FrameAt, Table, Complete, Find, ValidBody;
    ghost var has := exists gs :: ValidBody(sha, bytes, SAVE_LAST, gs);
    ghost var gs: seq<Frame> := [];
    if has { gs :| ValidBody(sha, bytes, SAVE_LAST, gs); }
    var footer := |bytes| - DIGEST;
    var position: nat := 8;
    var previous: u16 := 0;
    fs, count := [], 0;
    sections := seq(12, _ => None);
    StartParsing(sha, bytes, SAVE_LAST);
    while position < footer
      invariant 8 <= position <= footer && Parsed(sha, bytes, position, SAVE_LAST, fs)
      invariant previous == LastTag(fs) && count == |fs| <= MAX_SECTIONS && sections == Table(fs, SAVE_LAST)
      invariant has ==> fs <= gs
    {
      if has { StaysOnTrack(sha, bytes, position, SAVE_LAST, fs, gs); }
      var frame;
      code, frame := ReadFrame(bytes, position, footer, previous, sha);
      if code != OK { return; }
      TableExtended(fs, frame, SAVE_LAST);
      if frame.tag <= SAVE_LAST {
        sections := sections[frame.tag := Some(frame)];
      } else if frame.critical {
        code := VERSION;
        return;
      }
      if count + 1 > MAX_SECTIONS {
        code := CAPACITY;
        return;
      }
      FrameStep(sha, bytes, position, footer, previous, frame);
      ParsedExtended(sha, bytes, position, footer, SAVE_LAST, fs, frame);
      previous := frame.tag;
      position := position + FRAME_OVERHEAD + |frame.payload|;
      count := count + 1;
      fs := fs + [frame];
    }
    AllParsed(sha, bytes, SAVE_LAST, fs);
    WholeBody(sha, bytes, SAVE_LAST, fs);
    var present := MandatoryPresent(sections, fs, 11);
    if !present {
      code := FORMAT;
      return;
    }
    assert ValidBody(sha, bytes, SAVE_LAST, fs);
    count := Recount(sha, bytes, SAVE_LAST, fs);
    code := OK;
  }

  /** Known sections that are not critical rule a body out. */
  lemma OptionalMandatory(sha: HashFunction, bytes: Bytes, last: u16, gs: seq<Frame>, k: nat)
    requires |bytes| >= 8 + DIGEST && ValidBody(sha, bytes, last, gs) && k < |gs| && gs[k].tag <= last
    ensures gs[k].critical
  {
    assert HasCritical(gs, gs[k].tag);
    AscendingApart(gs);
  }

  /** The presence test of the replay parser, whose loop has refused optional mandatory
      sections already. */
  method SectionsPresent(sections: seq<Option<Frame>>, ghost fs: seq<Frame>, last: nat) returns (present: bool)
    requires 0 < last < 0xFFFF && Ascending(fs) && sections == Table(fs, last)
    requires forall k :: 0 <= k < |fs| && fs[k].tag <= last ==> fs[k].critical
    ensures present <==> Complete(fs, last)
  {
    hide HasCritical, Table, Complete, Ascending;
    var tag: nat := 1;
    while tag <= last
      invariant 1 <= tag <= last + 1 && forall k: u16 :: 1 <= k < tag ==> HasCritical(fs, k)
    {
      SectionPresent(fs, last, tag);
      PresentIsCritical(fs, last, tag);
      if sections[tag].None? {
        Incomplete(fs, last, tag);
        return false;
      }
      tag := tag + 1;
    }
    AllThere(fs, last);
    present := true;
  }

  lemma {:induction false} PresentIsCritical(fs: seq<Frame>, last: nat, tag: nat)
    requires tag <= last < 0xFFFF && forall k :: 0 <= k < |fs| && fs[k].tag <= last ==> fs[k].critical
    ensures Table(fs, last)[tag].Some? ==> Table(fs, last)[tag].value.critical
  {
    if fs != [] {
      PresentIsCritical(fs[..|fs| - 1], last, tag);
    }
  }

  /** fd_parse_replay_sections: the same acceptance over the replay's five sections. */
  method ParseReplay(bytes: Bytes, sha: HashFunction)
    returns (code: u32, sections: seq<Option<Frame>>, count: nat, ghost fs: seq<Frame>)
    requires 8 + DIGEST <= |bytes| < FILE_LIMIT
    ensures code == OK <==> exists gs :: ValidBody(sha, bytes, REPLAY_LAST, gs)
    ensures code == OK ==>
              ValidBody(sha, bytes, REPLAY_LAST, fs) && sections == Table(fs, REPLAY_LAST) && count == |fs|
  {
    hide FrameBytes, BodyBytes, BodyOf, Splits, Parsed, FrameAt, Table, Complete, Find, ValidBody;
    ghost var has := exists gs :: ValidBody(sha, bytes, REPLAY_LAST, gs);
    ghost var gs: seq<Frame> := [];
    if has { gs :| ValidBody(sha, bytes, REPLAY_LAST, gs); }
    var footer := |bytes| - DIGEST;
    var position: nat := 8;
    var previous: u16 := 0;
    fs, count := [], 0;
    sections := seq(6, _ => None);
    StartParsing(sha, bytes, REPLAY_LAST);
    while position < footer
      invariant 8 <= position <= footer && Parsed(sha, bytes, position, REPLAY_LAST, fs)
      invariant previous == LastTag(fs) && count == |fs| <= MAX_SECTIONS && sections == Table(fs, REPLAY_LAST)
      invariant forall k :: 0 <= k < |fs| && fs[k].tag <= REPLAY_LAST ==> fs[k].critical
      invariant has ==> fs <= gs
    {
      if has { StaysOnTrack(sha, bytes, position, REPLAY_LAST, fs, gs); }
      var frame;
      code, frame := ReadFrame(bytes, position, footer, previous, sha);
      if code != OK { return; }
      TableExtended(fs, frame, REPLAY_LAST);
      if frame.tag <= REPLAY_LAST {
        if !frame.critical {
          if has { OptionalMandatory(sha, bytes, REPLAY_LAST, gs, |fs|); }
          code := FORMAT;
          return;
        }
        sections := sections[frame.tag := Some(frame)];
      } else if frame.critical {
        code := VERSION;
        return;
      }
      FrameStep(sha, bytes, position, footer, previous, frame);
      if count + 1 > MAX_SECTIONS {
        code := CAPACITY;
        return;
      }
      ParsedExtended(sha, bytes, position, footer, REPLAY_LAST, fs, frame);
      previous := frame.tag;
      position := position + FRAME_OVERHEAD + |frame.payload|;
      count := count + 1;
      fs := fs + [frame];
    }
    AllParsed(sha, bytes, REPLAY_LAST, fs);
    WholeBody(sha, bytes, REPLAY_LAST, fs);
    var present := SectionsPresent(sections, fs, 5);
    if !present {
      code := FORMAT;
      return;
    }
    assert ValidBody(sha, bytes, REPLAY_LAST, fs);
    code := OK;
  }
}
