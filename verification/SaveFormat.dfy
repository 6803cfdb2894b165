/** The canonical save of a world: eleven critical sections between a magic and a footer. */
module SaveFormat {
  import opened Grid
  import opened World
  import opened Invariants
  import opened Codec
  import opened Hashing
  import opened Frames
  import opened Step

  // ----- worlds that can be saved and loaded

  /** What every generated, stepped or loaded world satisfies: the invariants, and every
      recorded digest is the digest of what it covers. */
  ghost predicate Authentic(sha: HashFunction, s: State) {
    && s.WellFormed() && WorldOk(s) && ConfigOk(s.config) && PacksOk(s.content)
    && NamesFit(s.entities) && NamesPrintable(s.entities)
    && s.configHash == ConfigHash(sha, s.config) && s.contentHash == ContentHash(sha, s.content)
    && s.stateHash == StateHash(sha, s)
    && s.tick % OPERATIONAL_TICKS == 0
  }

  /** A save is accepted back only while the next step fits the clock. */
  ghost predicate Loadable(sha: HashFunction, s: State) {
    Authentic(sha, s) && TickFits(s.tick)
  }

  /** A step keeps a world authentic. */
  lemma SteppedIsAuthentic(sha: HashFunction, s: State)
    requires Authentic(sha, s) && TickFits(s.tick)
    ensures Authentic(sha, Stepped(sha, s))
  {
    hide WorldOk, StateHash, NamesPrintable, ConfigOk, PacksOk, ConfigHash, ContentHash, NamesFit, Dims.Valid;
    WorldOkIgnoresClock(s, s.tick + OPERATIONAL_TICKS, Stepped(sha, s).stateHash);
  }

  // ----- the section payloads

  function Magic(): (b: Bytes)
    ensures |b| == 8
  {
    [0x46, 0x44, 0x56, 0x53, 0, 0, 0, 1]
  }

  function ManifestPayload(): (b: Bytes)
    ensures |b| == 16
  {
    Store16(1) + Store16(0) + Store16(1) + Store16(0) + Store32(11) + Store32(0)
  }

  function VersionPayload(c: Config): (b: Bytes)
    ensures |b| == 40
  {
    Store32(0) + Store32(1) + Store32(0) + Store32(c.generatorVersion) + Store32(c.rulesetVersion)
    + Store32(1) + Store32(0) + Store32(1) + Store32(0) + Store32(1)
  }

  function ConfigPayload(c: Config, hash: Digest): (b: Bytes)
    requires SizesOk(c.dims)
    ensures |b| == 68
  {
    Store32(c.dims.width) + Store32(c.dims.height) + Store32(c.attemptBudget)
    + Store32(c.generatorVersion) + Store32(c.rulesetVersion)
    + Store32(c.forestPpm) + Store32(c.hillPpm) + Store32(c.wetlandPpm) + Store32(c.referenceMode) + hash
  }

  lemma {:induction false} PackBytesLength(packs: seq<Pack>)
    ensures |PackBytes(packs)| == 40 * |packs|
  {
    if packs != [] { PackBytesLength(packs[..|packs| - 1]); }
  }

  function ContentPayload(packs: seq<Pack>): (b: Bytes)
    requires |packs| <= MAX_CONTENT_PACKS
    ensures |b| == 4 + 40 * |packs|
  {
    PackBytesLength(packs);
    Store32(|packs|) + PackBytes(packs)
  }

  function SeedPayload(seed: Bytes): (b: Bytes)
    requires |seed| == 16
    ensures |b| == 24
  {
    seed + Store32(1) + Store32(0)
  }

  function TimePayload(tick: u64): (b: Bytes)
    ensures |b| == 56
  {
    Store64(tick) + Store64(1) + Store64(24) + Store64(168) + Store64(720) + Store64(2160) + Store64(8640)
  }

  function MapHead(tiles: u32, g: Dims, river: u32, road: u32, land: u32): (b: Bytes)
    requires SizesOk(g)
    ensures |b| == 24
  {
    Store32(tiles) + Store32(g.width) + Store32(g.height) + Store32(river) + Store32(road) + Store32(land)
  }

  function MapPayload(g: Dims, river: u32, road: u32, land: u32, tiles: seq<Tile>, region: Region): (b: Bytes)
    requires SizesOk(g) && |tiles| == g.Count()
    ensures |b| == 104 + 24 * |tiles|
  {
    MapHead(|tiles|, g, river, road, land) + TilesBytes(tiles) + RegionBytes(region)
  }

  function NameBytes(es: seq<Entity>): nat {
    if es == [] then 0 else NameBytes(es[..|es| - 1]) + |es[|es| - 1].name|
  }

  lemma {:induction false} EntitiesLength(es: seq<Entity>)
    requires NamesFit(es)
    ensures |EntitiesBytes(es)| == 40 * |es| + NameBytes(es) && NameBytes(es) <= 47 * |es|
  {
    if es != [] { EntitiesLength(es[..|es| - 1]); }
  }

  function EntityPayload(es: seq<Entity>): (b: Bytes)
    requires |es| == ENTITY_COUNT && NamesFit(es)
    ensures |b| == 248 + NameBytes(es)
  {
    EntitiesLength(es);
    Store32(ENTITY_COUNT) + Store32(ENTITY_COUNT) + EntitiesBytes(es)
  }

  function PendingPayload(): (b: Bytes)
    ensures |b| == 4
  {
    Store32(0)
  }

  function ReservedPayload(): (b: Bytes)
    ensures |b| == 16
  {
    Store32(0) + Store32(0) + Store32(0) + Store32(0)
  }

  // ----- the whole file

  /** Worlds the writer can lay out. */
  predicate Savable(s: State) {
    s.WellFormed() && SizesOk(s.config.dims) && NamesFit(s.entities)
  }

  lemma AuthenticIsSavable(sha: HashFunction, s: State)
    requires Authentic(sha, s)
    ensures Savable(s)
  {
    hide WorldOk, NamesPrintable, StateHash, PacksOk;
  }

  function Payload(s: State, tag: nat): (b: Bytes)
    requires Savable(s) && 1 <= tag <= 11
  {
    match tag
    case 1 => ManifestPayload()
    case 2 => VersionPayload(s.config)
    case 3 => ConfigPayload(s.config, s.configHash)
    case 4 => ContentPayload(s.content)
    case 5 => SeedPayload(s.seed)
    case 6 => TimePayload(s.tick)
    case 7 => MapPayload(s.config.dims, s.riverTileCount, s.roadTileCount, s.landTileCount, s.tiles, s.region)
    case 8 => EntityPayload(s.entities)
    case 9 => PendingPayload()
    case 10 => ReservedPayload()
    case _ => s.stateHash
  }

  lemma PayloadFits(s: State, tag: nat)
    requires Savable(s) && 1 <= tag <= 11
    ensures |Payload(s, tag)| < FILE_LIMIT
  {
    hide ManifestPayload, VersionPayload, ConfigPayload, ContentPayload, SeedPayload, TimePayload, MapPayload,
      EntityPayload, PendingPayload, ReservedPayload;
    EntitiesLength(s.entities);
  }

  function SaveFrame(s: State, tag: nat): (f: Frame)
    requires Savable(s) && 1 <= tag <= 11
    ensures f.Fits()
  {
    PayloadFits(s, tag);
    Frame(tag, true, Payload(s, tag))
  }

  /** The first n sections of the save of s. */
  function SaveFrames(s: State, n: nat): (fs: seq<Frame>)
    requires Savable(s) && n <= 11
    ensures |fs| == n && AllFit(fs)
    ensures forall k :: 0 <= k < n ==> fs[k] == SaveFrame(s, k + 1)
  {
    if n == 0 then [] else SaveFrames(s, n - 1) + [SaveFrame(s, n)]
  }

  function Footer(sha: HashFunction, bytes: Bytes): Digest {
    sha(Domain(SAVE_FOOTER_DOMAIN) + bytes)
  }

  function SaveBody(sha: HashFunction, s: State): Bytes
    requires Savable(s)
  {
    Magic() + BodyBytes(sha, SaveFrames(s, 11))
  }

  function SaveBytes(sha: HashFunction, s: State): Bytes
    requires Savable(s)
  {
    SaveBody(sha, s) + Footer(sha, SaveBody(sha, s))
  }

  /** The last 32 bytes of a file are the digest of everything before them behind the text,
      the first eight the given ones. */
  ghost predicate SealedFile(sha: HashFunction, file: Bytes, magic: Bytes, text: string) {
    && |file| >= 40 && file[..8] == magic
    && exists input :: Prefixed(input, text, file[..|file| - 32]) && file[|file| - 32..] == sha(input)
  }

  /** How every save begins and ends. */
  lemma SaveIsSealed(sha: HashFunction, s: State)
    requires Savable(s)
    ensures SealedFile(sha, SaveBytes(sha, s), [0x46, 0x44, 0x56, 0x53, 0, 0, 0, 1], "FrontierDirectorate/Save/Footer/v1")
  {
    hide Prefixed, SaveFrames, BodyBytes, Domain, Savable;
    var body, file := SaveBody(sha, s), SaveBytes(sha, s);
    assert file[..|file| - 32] == body && file[|file| - 32..] == Footer(sha, body);
    FooterText();
    DomainPrefixes(SAVE_FOOTER_DOMAIN, body);
  }

  lemma FooterText()
    ensures SAVE_FOOTER_DOMAIN == "FrontierDirectorate/Save/Footer/v1"
    ensures forall i :: 0 <= i < |SAVE_FOOTER_DOMAIN| ==> SAVE_FOOTER_DOMAIN[i] < 128 as char
  {
  }

  /** fd_save_size_internal */
  function SaveSize(s: State): nat
    requires Savable(s)
  {
    var content := 4 + |s.content| * 40;
    var tiles := 104 + |s.tiles| * 24;
    var entities := 8 + 40 * ENTITY_COUNT + NameBytes(s.entities);
    8 + (16 + 40 + 68 + content + 24 + 56 + tiles + entities + 4 + 16 + 32) + 11 * 48 + 32
  }

  /** The bytes of the first n sections. */
  function FramesSize(s: State, n: nat): nat
    requires Savable(s) && n <= 11
  {
    if n == 0 then 0 else FramesSize(s, n - 1) + FRAME_OVERHEAD + |Payload(s, n)|
  }

  lemma {:induction false} FramesLength(sha: HashFunction, s: State, n: nat)
    requires Savable(s) && n <= 11
    ensures |BodyBytes(sha, SaveFrames(s, n))| == FramesSize(s, n)
  {
    hide FrameBytes, Payload, Savable;
    if n > 0 {
      FramesLength(sha, s, n - 1);
      assert SaveFrames(s, n)[..n - 1] == SaveFrames(s, n - 1);
    }
  }

  /** The size computed beforehand is the number of bytes of the save, whatever the tile,
      pack and name lengths. */
  lemma SaveSizeExact(sha: HashFunction, s: State)
    requires Savable(s)
    ensures |SaveBytes(sha, s)| == SaveSize(s) < 0x1_0000_0000
  {
    FramesLength(sha, s, 11);
    SizesAdd(s);
    EntitiesLength(s.entities);
  }

  lemma SizesAdd(s: State)
    requires Savable(s)
    ensures FramesSize(s, 11) == 16 + 40 + 68 + (4 + |s.content| * 40) + 24 + 56 + (104 + |s.tiles| * 24)
                                 + (248 + NameBytes(s.entities)) + 4 + 16 + 32 + 11 * 48
  {
    hide ManifestPayload, VersionPayload, ConfigPayload, ContentPayload, SeedPayload, TimePayload, MapPayload,
      EntityPayload, PendingPayload, ReservedPayload, NameBytes, NamesFit;
    assert FramesSize(s, 1) == FRAME_OVERHEAD + 16;
    assert FramesSize(s, 2) == 2 * FRAME_OVERHEAD + 16 + 40;
    assert FramesSize(s, 4) == FramesSize(s, 2) + 2 * FRAME_OVERHEAD + 68 + 4 + 40 * |s.content|;
    assert FramesSize(s, 6) == FramesSize(s, 4) + 2 * FRAME_OVERHEAD + 24 + 56;
    assert FramesSize(s, 8) == FramesSize(s, 6) + 2 * FRAME_OVERHEAD + 104 + 24 * |s.tiles| + 248 + NameBytes(s.entities);
    assert FramesSize(s, 10) == FramesSize(s, 8) + 2 * FRAME_OVERHEAD + 4 + 16;
  }
}
