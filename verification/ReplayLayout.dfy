/** The replay file as a buffer filled in place: which parts hold what, and what a write
    leaves alone. */
module ReplayLayout {
  import opened Grid
  import opened World
  import opened Codec
  import opened Hashing
  import opened Decisions
  import opened Frames
  import opened Wire
  import opened Step
  import opened SaveFormat
  import opened SaveWriter
  import opened ReplayLog
  import opened ReplayWire
  import opened ReplayFormat

  // ----- writes and what they keep

  /** Only the n bytes from at on may have changed. */
  ghost predicate Kept(before: Bytes, after: Bytes, at: nat, n: nat) {
    && |before| == |after| && at + n <= |after|
    && after[..at] == before[..at] && after[at + n..] == before[at + n..]
  }

  lemma HoldsKept(before: Bytes, after: Bytes, at: nat, n: nat, p: nat, part: Bytes)
    requires Kept(before, after, at, n) && Holds(before, p, part) && (p + |part| <= at || at + n <= p)
    ensures Holds(after, p, part)
  {
    if p + |part| <= at {
      assert after[p..p + |part|] == after[..at][p..p + |part|];
      assert before[p..p + |part|] == before[..at][p..p + |part|];
    } else {
      var q := p - (at + n);
      assert after[p..p + |part|] == after[at + n..][q..q + |part|];
      assert before[p..p + |part|] == before[at + n..][q..q + |part|];
    }
  }

  lemma Undisturbed(before: Bytes, after: Bytes, at: nat, n: nat)
    requires Kept(before, after, at, n)
    ensures forall p: nat, part: Bytes {:trigger Holds(before, p, part)} ::
              Holds(before, p, part) && (p + |part| <= at || at + n <= p) ==> Holds(after, p, part)
  {
    forall p: nat, part: Bytes {:trigger Holds(before, p, part)}
        | Holds(before, p, part) && (p + |part| <= at || at + n <= p)
      ensures Holds(after, p, part)
    {
      HoldsKept(before, after, at, n, p, part);
    }
  }

  /** Stores at a position. */
  method PutAt(buffer: array<u8>, at: nat, b: Bytes)
    requires at + |b| <= buffer.Length
    modifies buffer
    ensures Holds(buffer[..], at, b) && Kept(old(buffer[..]), buffer[..], at, |b|)
  {
    ghost var before := buffer[..];
    forall i | 0 <= i < |b| {
      buffer[at + i] := b[i];
    }
    ghost var after := buffer[..];
    assert after[at..at + |b|] == b;
    assert after[..at] == before[..at] && after[at + |b|..] == before[at + |b|..];
  }

  /** fd_replay_write_section_header */
  method PutHeader(buffer: array<u8>, payload: nat, tag: u16, length: u64)
    requires HEADER <= payload <= buffer.Length
    modifies buffer
    ensures Holds(buffer[..], payload - HEADER, HeaderBytes(tag, true, length))
    ensures Kept(old(buffer[..]), buffer[..], payload - HEADER, HEADER)
  {
    PutAt(buffer, payload - HEADER, HeaderBytes(tag, true, length));
  }

  /** fd_replay_finish_section */
  method FinishSection(buffer: array<u8>, payload: nat, length: nat, sha: HashFunction, ghost part: Bytes)
    requires payload + length + DIGEST <= buffer.Length && length == |part| && Holds(buffer[..], payload, part)
    modifies buffer
    ensures Holds(buffer[..], payload + length, sha(part))
    ensures Kept(old(buffer[..]), buffer[..], payload + length, DIGEST)
  {
    assert buffer[payload..payload + length] == part;
    PutAt(buffer, payload + length, sha(buffer[payload..payload + length]));
  }

  // ----- where the sections are

  lemma Spacing(save: nat, n: nat, m: nat)
    ensures PayloadAt(save, n, m, 1) == 24 && PayloadAt(save, n, m, 2) == 100 && PayloadAt(save, n, m, 3) == 148 + save
    ensures PayloadAt(save, n, m, 4) == PayloadAt(save, n, m, 3) + 8 + RECORD_SIZE * n + FRAME_OVERHEAD
    ensures PayloadAt(save, n, m, 5) == PayloadAt(save, n, m, 4) + 4 + AUDIT_SIZE * m + FRAME_OVERHEAD
    ensures PayloadAt(save, n, m, 5) + 4 + CheckpointsSize(n / CHECKPOINT_INTERVAL, save) + 2 * DIGEST == ReplaySize(save, n, m)
  {
    hide CheckpointsSize;
    assert PayloadAt(save, n, m, 2) == 100;
    assert PayloadAt(save, n, m, 3) == 148 + save;
    assert PayloadAt(save, n, m, 4) == PayloadAt(save, n, m, 3) + 8 + RECORD_SIZE * n + FRAME_OVERHEAD;
  }

  /** Counts the format's fields can hold. */
  predicate CountsFit(s: State, n: nat, m: nat) {
    && Savable(s) && n < FILE_LIMIT && m < 0x1_0000_0000 && n / CHECKPOINT_INTERVAL < 0x1_0000_0000
    && ReplaySize(SaveSize(s), n, m) < FILE_LIMIT
  }

  /** Magic, manifest section and tick-zero section are in place. */
  ghost predicate FrontLaid(b: Bytes, sha: HashFunction, s: State, n: nat, m: nat)
    requires CountsFit(s, n, m)
  {
    var save := SaveSize(s);
    var head := Counts(n, n / CHECKPOINT_INTERVAL, m);
    && Holds(b, 0, ReplayMagic())
    && Holds(b, 8, HeaderBytes(1, true, 28)) && Holds(b, 24, head) && Holds(b, 52, sha(head))
    && Holds(b, 84, HeaderBytes(2, true, Bounded64(save))) && Holds(b, 100, SaveBytes(sha, s))
    && Holds(b, 100 + save, sha(SaveBytes(sha, s)))
  }

  /** Headers and counts of the record, audit and checkpoint sections are in place. */
  ghost predicate HeadsLaid(b: Bytes, s: State, n: nat, m: nat)
    requires CountsFit(s, n, m)
  {
    var save := SaveSize(s);
    var p3, p4, p5 := PayloadAt(save, n, m, 3), PayloadAt(save, n, m, 4), PayloadAt(save, n, m, 5);
    && Holds(b, p3 - HEADER, HeaderBytes(3, true, Bounded64(8 + RECORD_SIZE * n))) && Holds(b, p3, Store64(n))
    && Holds(b, p4 - HEADER, HeaderBytes(4, true, Bounded64(4 + AUDIT_SIZE * m))) && Holds(b, p4, Store32(m))
    && Holds(b, p5 - HEADER, HeaderBytes(5, true, Bounded64(4 + CheckpointsSize(n / CHECKPOINT_INTERVAL, save))))
    && Holds(b, p5, Store32(n / CHECKPOINT_INTERVAL))
  }

  /** Everything but the records, audits and checkpoints themselves and the digests over them. */
  ghost predicate Skeleton(b: Bytes, sha: HashFunction, s: State, n: nat, m: nat)
    requires CountsFit(s, n, m)
  {
    |b| == ReplaySize(SaveSize(s), n, m) && FrontLaid(b, sha, s, n, m) && HeadsLaid(b, s, n, m)
  }

  /** A length as the field it is stored in. */
  function Bounded64(n: nat): u64 { n % 0x1_0000_0000_0000_0000 }

  /** A write inside the record, audit or checkpoint area, or over one of their digests. */
  ghost predicate InArea(save: nat, n: nat, m: nat, at: nat, k: nat) {
    var p3, p4, p5 := PayloadAt(save, n, m, 3), PayloadAt(save, n, m, 4), PayloadAt(save, n, m, 5);
    || (p3 + 8 <= at && at + k <= p4 - HEADER)
    || (p4 + 4 <= at && at + k <= p5 - HEADER)
    || (p5 + 4 <= at && at + k <= ReplaySize(save, n, m))
  }

  lemma SkeletonKept(b: Bytes, c: Bytes, sha: HashFunction, s: State, n: nat, m: nat, at: nat, k: nat)
    requires CountsFit(s, n, m)
    requires Skeleton(b, sha, s, n, m) && Kept(b, c, at, k) && InArea(SaveSize(s), n, m, at, k)
    ensures Skeleton(c, sha, s, n, m)
  {
    hide Holds, PayloadAt, CheckpointsSize, SaveSize, SaveBytes, HeaderBytes, Counts, Store32, Store64, Savable,
      ReplaySize, Bounded64;
    SaveSizeExact(sha, s);
    Spacing(SaveSize(s), n, m);
    Undisturbed(b, c, at, k);
  }

  /** The front of the file; the tick-zero world is saved in place. */
  method WriteFront(w: Game, buffer: array<u8>, n: nat, m: nat, save: nat, limits: Limits, sha: HashFunction)
    requires w.Valid() && CountsFit(w.Value(), n, m) && save == SaveSize(w.Value()) <= limits.maxFileBytes
    requires buffer.Length == ReplaySize(save, n, m)
    modifies buffer
    ensures FrontLaid(buffer[..], sha, w.Value(), n, m)
  {
    hide Holds, PayloadAt, CheckpointsSize, SaveSize, SaveBytes, HeaderBytes, Counts, Savable, ReplaySize, Bounded64,
      Kept, Game.Value, Game.Valid;
    ghost var s := w.Value();
    SaveSizeExact(sha, s);
    Spacing(save, n, m);
    var head := Counts(n, n / CHECKPOINT_INTERVAL, m);
    ghost var b := buffer[..];
    PutAt(buffer, 0, ReplayMagic());
    b := buffer[..];
    PutHeader(buffer, 24, 1, 28);
    Undisturbed(b, buffer[..], 8, HEADER);
    b := buffer[..];
    PutAt(buffer, 24, head);
    Undisturbed(b, buffer[..], 24, 28);
    b := buffer[..];
    FinishSection(buffer, 24, 28, sha, head);
    Undisturbed(b, buffer[..], 52, DIGEST);
    b := buffer[..];
    PutHeader(buffer, 100, 2, Bounded64(save));
    Undisturbed(b, buffer[..], 84, HEADER);
    b := buffer[..];
    SaveAt(w, buffer, 100, save, limits, sha);
    Undisturbed(b, buffer[..], 100, save);
    b := buffer[..];
    FinishSection(buffer, 100, save, sha, SaveBytes(sha, s));
    Undisturbed(b, buffer[..], 100 + save, DIGEST);
  }

  /** fd_world_save into the middle of a buffer that has room for it. */
  method SaveAt(w: Game, buffer: array<u8>, at: nat, save: nat, limits: Limits, sha: HashFunction)
    requires w.Valid() && Savable(w.Value()) && save == SaveSize(w.Value()) <= limits.maxFileBytes
    requires at + save <= buffer.Length && save < FILE_LIMIT
    modifies buffer
    ensures Holds(buffer[..], at, SaveBytes(sha, w.Value())) && Kept(old(buffer[..]), buffer[..], at, save)
  {
    hide SaveSize, SaveBytes, Savable, Game.Value, Game.Valid;
    SaveSizeExact(sha, w.Value());
    var code, written := WorldSave(w, buffer, at, save, limits, sha);
    if code != OK || written != save {
      assert false;
    }
    ghost var b := buffer[..];
    assert b[at..at + save] == SaveBytes(sha, w.Value());
  }

  /** The headers and counts of the three streams. */
  method WriteHeads(buffer: array<u8>, n: nat, m: nat, save: nat, ghost sha: HashFunction, ghost s: State)
    requires CountsFit(s, n, m) && save == SaveSize(s) && buffer.Length == ReplaySize(save, n, m)
    requires FrontLaid(buffer[..], sha, s, n, m)
    modifies buffer
    ensures Skeleton(buffer[..], sha, s, n, m)
  {
    hide Holds, PayloadAt, CheckpointsSize, SaveSize, SaveBytes, HeaderBytes, Counts, Store32, Store64, Savable,
      ReplaySize, Bounded64, Kept, FrontLaid;
    Spacing(save, n, m);
    var p3, p4, p5 := PayloadAt(save, n, m, 3), PayloadAt(save, n, m, 4), PayloadAt(save, n, m, 5);
    ghost var b := buffer[..];
    PutHead(buffer, p3, 3, Bounded64(8 + RECORD_SIZE * n), Store64(n));
    FrontKept(b, buffer[..], sha, s, n, m, p3 - HEADER, HEADER + 8);
    b := buffer[..];
    PutHead(buffer, p4, 4, Bounded64(4 + AUDIT_SIZE * m), Store32(m));
    FrontKept(b, buffer[..], sha, s, n, m, p4 - HEADER, HEADER + 4);
    Undisturbed(b, buffer[..], p4 - HEADER, HEADER + 4);
    b := buffer[..];
    PutHead(buffer, p5, 5, Bounded64(4 + CheckpointsSize(n / CHECKPOINT_INTERVAL, save)), Store32(n / CHECKPOINT_INTERVAL));
    FrontKept(b, buffer[..], sha, s, n, m, p5 - HEADER, HEADER + 4);
    Undisturbed(b, buffer[..], p5 - HEADER, HEADER + 4);
  }

  /** A section header and the count that opens its payload. */
  method PutHead(buffer: array<u8>, payload: nat, tag: u16, length: u64, count: Bytes)
    requires HEADER <= payload && payload + |count| <= buffer.Length
    modifies buffer
    ensures Holds(buffer[..], payload - HEADER, HeaderBytes(tag, true, length)) && Holds(buffer[..], payload, count)
    ensures Kept(old(buffer[..]), buffer[..], payload - HEADER, HEADER + |count|)
  {
    hide HeaderBytes;
    ghost var b := buffer[..];
    PutHeader(buffer, payload, tag, length);
    ghost var c := buffer[..];
    PutAt(buffer, payload, count);
    HoldsKept(c, buffer[..], payload, |count|, payload - HEADER, HeaderBytes(tag, true, length));
    KeptTwice(b, c, buffer[..], payload - HEADER, HEADER, |count|);
  }

  lemma KeptTwice(a: Bytes, b: Bytes, c: Bytes, at: nat, k: nat, n: nat)
    requires Kept(a, b, at, k) && Kept(b, c, at + k, n)
    ensures Kept(a, c, at, k + n)
  {
    assert c[..at] == c[..at + k][..at] && b[..at] == b[..at + k][..at];
    assert b[at + k + n..] == b[at + k..][n..] && a[at + k + n..] == a[at + k..][n..];
  }

  lemma FrontKept(b: Bytes, c: Bytes, sha: HashFunction, s: State, n: nat, m: nat, at: nat, k: nat)
    requires CountsFit(s, n, m) && FrontLaid(b, sha, s, n, m) && Kept(b, c, at, k) && at >= 132 + SaveSize(s)
    ensures FrontLaid(c, sha, s, n, m)
  {
    hide Holds, PayloadAt, CheckpointsSize, SaveSize, SaveBytes, HeaderBytes, Counts, Savable, ReplaySize, Bounded64;
    SaveSizeExact(sha, s);
    Undisturbed(b, c, at, k);
  }
}
