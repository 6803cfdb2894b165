/** The replay file: five critical sections between a magic and a footer. */
module ReplayFormat {
  import opened Grid
  import opened World
  import opened Codec
  import opened Hashing
  import opened Decisions
  import opened Frames
  import opened Wire
  import opened Step
  import opened SaveFormat
  import opened ReplayLog
  import opened ReplayWire

  function ReplayMagic(): (b: Bytes)
    ensures |b| == 8
  {
    [0x46, 0x44, 0x52, 0x50, 0, 0, 0, 1]
  }

  function Counts(accepted: u64, checkpoints: u32, audits: u32): (b: Bytes)
    ensures |b| == 28
  {
    Store16(1) + Store16(0) + Store16(1) + Store16(0) + Store32(5) + Store64(accepted) + Store32(checkpoints) + Store32(audits)
  }

  function RecordsPayload(rs: seq<Record>): (b: Bytes)
    requires |rs| < FILE_LIMIT
    ensures |b| == 8 + RECORD_SIZE * |rs|
  {
    Store64(|rs|) + RecordsBytes(rs)
  }

  function AuditsPayload(audits: seq<Audit>): (b: Bytes)
    requires MessagesFit(audits) && |audits| < 0x1_0000_0000
    ensures |b| == 4 + AUDIT_SIZE * |audits|
  {
    Store32(|audits|) + AuditsBytes(audits)
  }

  // ----- checkpoints

  /** One checkpoint: its record count, the save length and the save. */
  function CheckpointBytes(offset: u64, save: Bytes): (b: Bytes)
    requires |save| < FILE_LIMIT
    ensures |b| == 16 + |save|
  {
    Store64(offset) + Store64(|save|) + save
  }

  /** A run that saves can be made of: its clock holds n steps. */
  predicate RunOk(s: State, n: nat) {
    Savable(s) && s.tick + OPERATIONAL_TICKS * n <= LAST_TICK
  }

  lemma NthIsSavable(sha: HashFunction, s: State, n: nat)
    requires RunOk(s, n)
    ensures Savable(Nth(sha, s, n)) && SaveSize(Nth(sha, s, n)) == SaveSize(s)
    ensures |SaveBytes(sha, Nth(sha, s, n))| == SaveSize(s) < 0x1_0000_0000
  {
    NthChangesTwoFields(sha, s, n);
    SaveSizeExact(sha, Nth(sha, s, n));
  }

  /** The save of the state after k accepted steps. */
  function NthSave(sha: HashFunction, s: State, k: nat): (save: Bytes)
    requires RunOk(s, k)
    ensures |save| == SaveSize(s) < 0x1_0000_0000
  {
    NthIsSavable(sha, s, k);
    SaveBytes(sha, Nth(sha, s, k))
  }

  /** The c-th checkpoint, after 1024 c accepted steps. */
  function Checkpoint(sha: HashFunction, s: State, c: nat): (b: Bytes)
    requires RunOk(s, CHECKPOINT_INTERVAL * c) && CHECKPOINT_INTERVAL * c < FILE_LIMIT
    ensures |b| == 16 + SaveSize(s)
  {
    CheckpointBytes(CHECKPOINT_INTERVAL * c, NthSave(sha, s, CHECKPOINT_INTERVAL * c))
  }

  /** The first c checkpoints. */
  function CheckpointsBytes(sha: HashFunction, s: State, c: nat): Bytes
    requires RunOk(s, CHECKPOINT_INTERVAL * c)
    decreases c
  {
    if c == 0 then [] else CheckpointsBytes(sha, s, c - 1) + Checkpoint(sha, s, c)
  }

  function CheckpointsSize(c: nat, save: nat): nat { c * (16 + save) }

  lemma CheckpointsSizeStep(c: nat, save: nat)
    ensures CheckpointsSize(c + 1, save) == CheckpointsSize(c, save) + 16 + save && CheckpointsSize(0, save) == 0
  {
  }

  lemma CheckpointsSizeGrows(c: nat, d: nat, save: nat)
    requires c <= d
    ensures CheckpointsSize(c, save) <= CheckpointsSize(d, save)
  {
    MulMono(c, d, 16 + save);
  }

  lemma {:induction false} CheckpointsLength(sha: HashFunction, s: State, c: nat)
    requires RunOk(s, CHECKPOINT_INTERVAL * c)
    ensures |CheckpointsBytes(sha, s, c)| == CheckpointsSize(c, SaveSize(s))
    decreases c
  {
    hide CheckpointsSize, SaveSize, Checkpoint, Savable;
    if c == 0 {
      CheckpointsSizeStep(0, SaveSize(s));
    } else {
      CheckpointsLength(sha, s, c - 1);
      CheckpointsSizeStep(c - 1, SaveSize(s));
    }
  }

  function CheckpointsPayload(sha: HashFunction, s: State, c: nat): Bytes
    requires RunOk(s, CHECKPOINT_INTERVAL * c) && c < 0x1_0000_0000
  {
    Store32(c) + CheckpointsBytes(sha, s, c)
  }

  // ----- the file

  /** Everything that fits the field widths of the format. */
  ghost predicate Writable(sha: HashFunction, s: State, n: nat, audits: seq<Audit>) {
    && RunOk(s, n) && MessagesFit(audits) && |audits| < 0x1_0000_0000 && n / CHECKPOINT_INTERVAL < 0x1_0000_0000
    && ReplaySize(SaveSize(s), n, |audits|) < FILE_LIMIT
  }

  /** fd_replay_size_internal */
  function ReplaySize(save: nat, n: nat, audits: nat): nat {
    8 + (28 + save + (8 + RECORD_SIZE * n) + (4 + AUDIT_SIZE * audits)
         + (4 + CheckpointsSize(n / CHECKPOINT_INTERVAL, save))) + 5 * FRAME_OVERHEAD + DIGEST
  }

  /** A replay holds one save, 228 bytes a record, 328 an audit, and after every 1024 records
      another save behind sixteen bytes. */
  lemma SizeInNumbers(save: nat, n: nat, audits: nat)
    ensures ReplaySize(save, n, audits) == 324 + save + 228 * n + 328 * audits + n / 1024 * (16 + save)
  {
  }

  ghost function ReplayPayload(sha: HashFunction, s: State, n: nat, audits: seq<Audit>, tag: nat): Bytes
    requires Writable(sha, s, n, audits) && 1 <= tag <= 5
  {
    match tag
    case 1 => Counts(n, n / CHECKPOINT_INTERVAL, |audits|)
    case 2 => SaveBytes(sha, s)
    case 3 => RecordsPayload(Records(sha, s, n))
    case 4 => AuditsPayload(audits)
    case _ => CheckpointsPayload(sha, s, n / CHECKPOINT_INTERVAL)
  }

  function PayloadSize(save: nat, n: nat, audits: nat, tag: nat): nat
    requires 1 <= tag <= 5
  {
    match tag
    case 1 => 28
    case 2 => save
    case 3 => 8 + RECORD_SIZE * n
    case 4 => 4 + AUDIT_SIZE * audits
    case _ => 4 + CheckpointsSize(n / CHECKPOINT_INTERVAL, save)
  }

  lemma ReplayPayloadSize(sha: HashFunction, s: State, n: nat, audits: seq<Audit>, tag: nat)
    requires Writable(sha, s, n, audits) && 1 <= tag <= 5
    ensures |ReplayPayload(sha, s, n, audits, tag)| == PayloadSize(SaveSize(s), n, |audits|, tag) < FILE_LIMIT
  {
    hide SaveBytes, SaveSize, CheckpointsBytes, CheckpointsSize, Counts, RecordsPayload, AuditsPayload, Savable,
      Records, RecordsBytes, AuditsBytes, MessagesFit, NamesFit, State.WellFormed;
    SaveSizeExact(sha, s);
    CheckpointsLength(sha, s, n / CHECKPOINT_INTERVAL);
  }

  /** Where the payload of a section starts. */
  function PayloadAt(save: nat, n: nat, audits: nat, tag: nat): nat
    requires 1 <= tag <= 5
    decreases tag
  {
    if tag == 1 then 24 else PayloadAt(save, n, audits, tag - 1) + PayloadSize(save, n, audits, tag - 1) + FRAME_OVERHEAD
  }

  ghost function ReplayFrame(sha: HashFunction, s: State, n: nat, audits: seq<Audit>, tag: nat): (f: Frame)
    requires Writable(sha, s, n, audits) && 1 <= tag <= 5
    ensures f.Fits() && f.tag == tag && f.critical
  {
    ReplayPayloadSize(sha, s, n, audits, tag);
    Frame(tag, true, ReplayPayload(sha, s, n, audits, tag))
  }

  ghost function ReplayFrames(sha: HashFunction, s: State, n: nat, audits: seq<Audit>, k: nat): (fs: seq<Frame>)
    requires Writable(sha, s, n, audits) && k <= 5
    ensures |fs| == k && AllFit(fs)
    ensures forall i :: 0 <= i < k ==> fs[i] == ReplayFrame(sha, s, n, audits, i + 1)
  {
    if k == 0 then [] else ReplayFrames(sha, s, n, audits, k - 1) + [ReplayFrame(sha, s, n, audits, k)]
  }

  function ReplayFooter(sha: HashFunction, bytes: Bytes): Digest {
    sha(Domain(REPLAY_FOOTER_DOMAIN) + bytes)
  }

  ghost function ReplayBody(sha: HashFunction, s: State, n: nat, audits: seq<Audit>): Bytes
    requires Writable(sha, s, n, audits)
  {
    ReplayMagic() + BodyBytes(sha, ReplayFrames(sha, s, n, audits, 5))
  }

  ghost function ReplayBytes(sha: HashFunction, s: State, n: nat, audits: seq<Audit>): Bytes
    requires Writable(sha, s, n, audits)
  {
    ReplayBody(sha, s, n, audits) + ReplayFooter(sha, ReplayBody(sha, s, n, audits))
  }

  /** How every replay begins and ends. */
  lemma ReplayIsSealed(sha: HashFunction, s: State, n: nat, audits: seq<Audit>)
    requires Writable(sha, s, n, audits)
    ensures SealedFile(sha, ReplayBytes(sha, s, n, audits), [0x46, 0x44, 0x52, 0x50, 0, 0, 0, 1],
                       "FrontierDirectorate/Replay/Footer/v1")
  {
    hide Prefixed, ReplayFrames, BodyBytes, Domain, Writable;
    var body, file := ReplayBody(sha, s, n, audits), ReplayBytes(sha, s, n, audits);
    assert file[..|file| - 32] == body && file[|file| - 32..] == ReplayFooter(sha, body);
    ReplayFooterText();
    DomainPrefixes(REPLAY_FOOTER_DOMAIN, body);
  }

  lemma ReplayFooterText()
    ensures REPLAY_FOOTER_DOMAIN == "FrontierDirectorate/Replay/Footer/v1"
    ensures forall i :: 0 <= i < |REPLAY_FOOTER_DOMAIN| ==> REPLAY_FOOTER_DOMAIN[i] < 128 as char
  {
  }

  lemma {:induction false} BodyEnds(sha: HashFunction, s: State, n: nat, audits: seq<Audit>, k: nat)
    requires Writable(sha, s, n, audits) && k < 5
    ensures 8 + |BodyBytes(sha, ReplayFrames(sha, s, n, audits, k))| + HEADER == PayloadAt(SaveSize(s), n, |audits|, k + 1)
    decreases k
  {
    hide FrameBytes, ReplayFrame, SaveSize, PayloadSize, ReplaySize, Savable, ReplayPayload;
    if k > 0 {
      BodyEnds(sha, s, n, audits, k - 1);
      assert ReplayFrames(sha, s, n, audits, k)[..k - 1] == ReplayFrames(sha, s, n, audits, k - 1);
      FrameSize(sha, s, n, audits, k);
    }
  }

  lemma FrameSize(sha: HashFunction, s: State, n: nat, audits: seq<Audit>, k: nat)
    requires Writable(sha, s, n, audits) && 1 <= k <= 5
    ensures |FrameBytes(sha, ReplayFrame(sha, s, n, audits, k))|
         == FRAME_OVERHEAD + PayloadSize(SaveSize(s), n, |audits|, k)
  {
    hide PayloadSize, ReplayPayload, SaveSize, Writable, ReplaySize;
    ReplayPayloadSize(sha, s, n, audits, k);
  }

  /** The announced size is the size of the file. */
  lemma ReplaySizeExact(sha: HashFunction, s: State, n: nat, audits: seq<Audit>)
    requires Writable(sha, s, n, audits)
    ensures |ReplayBytes(sha, s, n, audits)| == ReplaySize(SaveSize(s), n, |audits|)
    ensures PayloadAt(SaveSize(s), n, |audits|, 5) + PayloadSize(SaveSize(s), n, |audits|, 5) + 2 * DIGEST
         == ReplaySize(SaveSize(s), n, |audits|)
  {
    hide FrameBytes, ReplayFrame, SaveSize, Savable, ReplayPayload, ReplayFooter, CheckpointsSize;
    var save, m := SaveSize(s), |audits|;
    BodyEnds(sha, s, n, audits, 4);
    FrameSize(sha, s, n, audits, 5);
    var fs := ReplayFrames(sha, s, n, audits, 5);
    assert fs[..4] == ReplayFrames(sha, s, n, audits, 4);
    assert PayloadAt(save, n, m, 2) == 100 && PayloadAt(save, n, m, 3) == 148 + save;
    assert PayloadAt(save, n, m, 5) == PayloadAt(save, n, m, 3) + 12 + RECORD_SIZE * n + AUDIT_SIZE * m + 2 * FRAME_OVERHEAD;
  }
}
