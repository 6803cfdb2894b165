/** Loading a save: the exact set of files accepted, and the world each of them gives. */
module SaveLoad {
  import opened Grid
  import opened World
  import opened Invariants
  import opened Validate
  import opened Codec
  import opened Hashing
  import opened Decisions
  import opened Step
  import opened Frames
  import opened Wire
  import opened SaveFormat
  import opened SaveWriter
  import opened SaveRead
  import opened Generate

  type Sections = s: seq<Option<Frame>> | |s| == 12 witness seq(12, _ => None)

  predicate AllPresent(t: Sections) { forall tag :: 1 <= tag <= 11 ==> t[tag].Some? }

  function Part(t: Sections, tag: nat): Bytes
    requires AllPresent(t) && 1 <= tag <= 11
  {
    t[tag].value.payload
  }

  // ----- what each section must say

  /** The manifest names this format and counts every section of the file, known or not. */
  predicate ManifestOk(p: Bytes, count: nat) {
    |p| >= 16 && Load16(p, 0) == 1 && Load16(p, 4) == 1 && Load16(p, 6) == 0 && Load32(p, 8) == count && Load32(p, 12) == 0
  }

  predicate VersionsOk(p: Bytes, minor: u16) {
    && |p| >= 40 && Load32(p, 0) == 0 && Load32(p, 12) == 1 && Load32(p, 16) == 1 && Load32(p, 20) == 1
    && Load32(p, 24) == minor && Load32(p, 28) == 1 && Load32(p, 36) == 1
  }

  /** A manifest names major version 1 twice and minor version 0 once, the file's own minor
      version apart, then counts the sections of this file. */
  lemma ManifestIsWritten(p: Bytes, count: u32)
    requires |p| >= 16
    ensures ManifestOk(p, count) <==>
              Holds(p, 0, Store16(1) + p[2..4] + Store16(1) + Store16(0) + Store32(count) + Store32(0))
  {
    hide Store16, Store32, Load16, Load32;
    var layout := Store16(1) + p[2..4] + Store16(1) + Store16(0) + Store32(count) + Store32(0);
    Apart(p, 0);
    Together(p, 0);
    assert Holds(p, 2, p[2..4]);
  }

  /** The versions are those the writer puts there, up to the API minor and patch words and
      the replay minor version, with the save minor version of the manifest. */
  lemma VersionsAreWritten(p: Bytes, minor: u16)
    requires |p| >= 40
    ensures VersionsOk(p, minor) <==>
              Holds(p, 0, Store32(0) + p[4..12] + Store32(1) + Store32(1) + Store32(1) + Store32(minor) + Store32(1)
                          + p[32..36] + Store32(1))
  {
    hide Store32, Load32;
    Apart(p, 0);
    Together(p, 0);
    assert Holds(p, 4, p[4..12]) && Holds(p, 32, p[32..36]);
  }

  /** The sections before the map encode these settings. */
  ghost predicate IdentityEncoded(sha: HashFunction, t: Sections, count: nat, c: Config, packs: seq<Pack>, seed: Bytes,
                                  tick: u64) {
    && AllPresent(t) && ManifestOk(Part(t, 1), count) && VersionsOk(Part(t, 2), Load16(Part(t, 1), 2))
    && ConfigOk(c) && PacksOk(packs) && |seed| == 16
    && Part(t, 3) == ConfigPayload(c, ConfigHash(sha, c)) && Part(t, 4) == ContentPayload(packs)
    && Part(t, 5) == SeedPayload(seed) && Part(t, 6) == TimePayload(tick)
  }

  /** The sections from the map on encode this world. */
  ghost predicate BodyEncoded(t: Sections, s: State) {
    && AllPresent(t) && s.WellFormed() && SizesOk(s.config.dims)
    && Part(t, 7) == MapPayload(s.config.dims, s.riverTileCount, s.roadTileCount, s.landTileCount, s.tiles, s.region)
    && EntityTable(Part(t, 8), s.entities)
    && Part(t, 9) == PendingPayload() && Part(t, 10) == ReservedPayload() && |Part(t, 11)| == DIGEST
  }

  /** The sections are those of s, up to the tolerated manifest and version words. */
  ghost predicate Encodes(sha: HashFunction, t: Sections, count: nat, s: State) {
    && s.WellFormed()
    && IdentityEncoded(sha, t, count, s.config, s.content, s.seed, s.tick)
    && BodyEncoded(t, s) && Part(t, 11) == s.stateHash
  }

  lemma SeedStored(p: Bytes, seed: Bytes)
    requires |seed| == 16 && p == SeedPayload(seed)
    ensures |p| == 24 && p[..16] == seed && Load32(p, 16) == 1 && Load32(p, 20) == 0
  {
    assert Holds(p, 0, p);
    Apart(p, 0);
    hide Store32, Load32;
    assert Holds(p, 0, seed);
  }

  lemma SeedRead(p: Bytes)
    requires |p| == 24 && Load32(p, 16) == 1 && Load32(p, 20) == 0
    ensures p == SeedPayload(p[..16])
  {
    assert Holds(p, 0, p[..16]);
    Together(p, 0);
    hide Store32, Load32;
    assert Holds(p, 0, SeedPayload(p[..16]));
    assert p[0..24] == p;
  }

  /** The time-scale definition behind the tick. */
  predicate TimeScaleOk(p: Bytes) {
    && |p| == 56 && Load64(p, 8) == 1 && Load64(p, 16) == 24 && Load64(p, 24) == 168
    && Load64(p, 32) == 720 && Load64(p, 40) == 2160 && Load64(p, 48) == 8640
  }

  lemma TimeStored(p: Bytes, tick: u64)
    requires p == TimePayload(tick)
    ensures TimeScaleOk(p) && Load64(p, 0) == tick
  {
    assert Holds(p, 0, p);
    hide Store64, Load64;
    Apart(p, 0);
  }

  lemma TimeRead(p: Bytes)
    requires TimeScaleOk(p)
    ensures p == TimePayload(Load64(p, 0))
  {
    Together(p, 0);
    assert Holds(p, 0, TimePayload(Load64(p, 0))) by { hide Store64, Load64, Holds; }
    assert p[0..56] == p;
  }

  lemma ReservedIs(p: Bytes)
    ensures p == ReservedPayload() <==>
              |p| == 16 && Load32(p, 0) == 0 && Load32(p, 4) == 0 && Load32(p, 8) == 0 && Load32(p, 12) == 0
    ensures p == PendingPayload() <==> |p| == 4 && Load32(p, 0) == 0
  {
    Apart(p, 0);
    Together(p, 0);
    if |p| == 16 || |p| == 4 {
      assert Holds(p, 0, p) && p[0..|p|] == p;
      hide Store32, Load32;
      if |p| == 16 {
        assert Holds(p, 0, ReservedPayload()) ==> p == ReservedPayload();
      } else {
        assert Holds(p, 0, Store32(0)) ==> p == PendingPayload();
      }
    }
  }

  // ----- the sections before the map

  /** An identity the sections encode shows in every section. */
  lemma IdentityShows(sha: HashFunction, t: Sections, count: nat, c: Config, packs: seq<Pack>, seed: Bytes, tick: u64)
    requires IdentityEncoded(sha, t, count, c, packs, seed, tick)
    ensures AllPresent(t) && ManifestOk(Part(t, 1), count) && VersionsOk(Part(t, 2), Load16(Part(t, 1), 2))
    ensures BasicConfig(c) && Part(t, 3) == ConfigPayload(c, ConfigHash(sha, c))
    ensures PacksOk(packs) && Part(t, 4) == ContentPayload(packs) && InputsOk(c, packs) && DensitiesPositive(c)
    ensures |Part(t, 5)| == 24 && Part(t, 5)[..16] == seed && Load32(Part(t, 5), 16) == 1 && Load32(Part(t, 5), 20) == 0
    ensures TimeScaleOk(Part(t, 6)) && Load64(Part(t, 6), 0) == tick
  {
    hide ManifestOk, VersionsOk, ConfigPayload, ContentPayload, SeedPayload, TimePayload, TimeScaleOk, ConfigHash,
      Load16, Load32, Load64;
    SeedStored(Part(t, 5), seed);
    TimeStored(Part(t, 6), tick);
  }

  /** fd_decode_world up to its allocations. */
  method LoadIdentity(t: Sections, count: nat, sha: HashFunction)
    returns (code: u32, config: Config, packs: seq<Pack>, seed: Bytes, tick: u64)
    requires AllPresent(t)
    ensures code == OK ==> IdentityEncoded(sha, t, count, config, packs, seed, tick)
    ensures forall c: Config, ps, sd, tk: u64 :: IdentityEncoded(sha, t, count, c, ps, sd, tk) ==>
              code == OK && config == c && packs == ps && seed == sd && tick == tk
  {
    hide VersionsOk, ConfigPayload, ContentPayload, SeedPayload, TimePayload, ConfigHash,
      Load16, Load32, Load64, IdentityEncoded, InputsOk, DensitiesPositive;
    forall c: Config, ps, sd, tk: u64 | IdentityEncoded(sha, t, count, c, ps, sd, tk)
      ensures ManifestOk(Part(t, 1), count) && VersionsOk(Part(t, 2), Load16(Part(t, 1), 2))
      ensures BasicConfig(c) && Part(t, 3) == ConfigPayload(c, ConfigHash(sha, c))
      ensures PacksOk(ps) && Part(t, 4) == ContentPayload(ps) && InputsOk(c, ps) && DensitiesPositive(c)
      ensures |Part(t, 5)| == 24 && Part(t, 5)[..16] == sd && Load32(Part(t, 5), 16) == 1 && Load32(Part(t, 5), 20) == 0
      ensures TimeScaleOk(Part(t, 6)) && Load64(Part(t, 6), 0) == tk
    {
      IdentityShows(sha, t, count, c, ps, sd, tk);
    }
    packs, seed, tick := [], [], 0;
    config := Config(Dims(1, 1), 0, 0, 0, 0, 0, 0, 0);
    if |Part(t, 1)| < 16 {
      code := FORMAT;
      return;
    }
    if !ManifestOk(Part(t, 1), count) {
      code := VERSION;
      return;
    }
    if !VersionsOk(Part(t, 2), Load16(Part(t, 1), 2)) {
      code := VERSION;
      return;
    }
    code, config := LoadConfig(Part(t, 3), sha);
    if code != OK {
      return;
    }
    code, packs := LoadContent(Part(t, 4));
    if code != OK {
      return;
    }
    if !InputsOk(config, packs) || !DensitiesPositive(config) {
      code := FORMAT;
      return;
    }
    if |Part(t, 5)| != 24 || Load32(Part(t, 5), 16) != 1 || Load32(Part(t, 5), 20) != 0 {
      code := VERSION;
      return;
    }
    if !TimeScaleOk(Part(t, 6)) {
      code := FORMAT;
      return;
    }
    seed, tick := Part(t, 5)[..16], Load64(Part(t, 6), 0);
    IdentityRead(sha, t, count, config, packs);
    code := OK;
  }

  lemma IdentityRead(sha: HashFunction, t: Sections, count: nat, c: Config, packs: seq<Pack>)
    requires AllPresent(t) && ManifestOk(Part(t, 1), count) && VersionsOk(Part(t, 2), Load16(Part(t, 1), 2))
    requires BasicConfig(c) && PacksOk(packs) && InputsOk(c, packs) && DensitiesPositive(c)
    requires Part(t, 3) == ConfigPayload(c, ConfigHash(sha, c)) && Part(t, 4) == ContentPayload(packs)
    requires |Part(t, 5)| == 24 && Load32(Part(t, 5), 16) == 1 && Load32(Part(t, 5), 20) == 0 && TimeScaleOk(Part(t, 6))
    ensures IdentityEncoded(sha, t, count, c, packs, Part(t, 5)[..16], Load64(Part(t, 6), 0))
  {
    hide ManifestOk, VersionsOk, ConfigPayload, ContentPayload, SeedPayload, TimePayload, TimeScaleOk, ConfigHash,
      Load16, Load32, Load64;
    SeedRead(Part(t, 5));
    TimeRead(Part(t, 6));
  }

  // ----- the sections from the map on

  /** What a body encoded by the sections shows. */
  lemma BodyShows(t: Sections, s: State)
    requires BodyEncoded(t, s)
    ensures AllPresent(t) && s.WellFormed() && SizesOk(s.config.dims) && |s.tiles| == s.config.dims.Count()
    ensures Part(t, 7) == MapPayload(s.config.dims, s.riverTileCount, s.roadTileCount, s.landTileCount, s.tiles, s.region)
    ensures EntityTable(Part(t, 8), s.entities)
    ensures Part(t, 9) == PendingPayload() && Part(t, 10) == ReservedPayload() && |Part(t, 11)| == DIGEST
  {
  }

  /** Sections 7 to 11, into a world already carrying its identity. */
  method LoadBody(w: Game, t: Sections) returns (code: u32)
    requires w.Valid() && SizesOk(w.config.dims) && AllPresent(t)
    modifies w`region, w`riverTileCount, w`roadTileCount, w`landTileCount, w`entities, w.tiles
    ensures w.Valid() && w.tick == old(w.tick) && w.stateHash == old(w.stateHash)
    ensures code == OK ==> BodyEncoded(t, w.Value())
    ensures forall s :: BodyEncoded(t, s) && s.config == w.config ==>
              && code == OK && w.tiles[..] == s.tiles && w.region == s.region && w.entities == s.entities
              && w.riverTileCount == s.riverTileCount && w.roadTileCount == s.roadTileCount
              && w.landTileCount == s.landTileCount
  {
    hide MapPayload, EntityTable, PendingPayload, ReservedPayload, BodyEncoded, Load32, Dims.Count, SizesOk;
    ghost var g := w.config.dims;
    forall s | BodyEncoded(t, s) && s.config.dims == g
      ensures SizesOk(g) && |s.tiles| == g.Count()
      ensures Part(t, 7) == MapPayload(g, s.riverTileCount, s.roadTileCount, s.landTileCount, s.tiles, s.region)
      ensures EntityTable(Part(t, 8), s.entities)
      ensures Part(t, 9) == PendingPayload() && Part(t, 10) == ReservedPayload() && |Part(t, 11)| == DIGEST
    {
      BodyShows(t, s);
    }
    ReservedIs(Part(t, 9));
    ReservedIs(Part(t, 10));
    code := LoadMap(w, Part(t, 7));
    if code != OK {
      return;
    }
    var es;
    code, es := LoadEntities(Part(t, 8));
    if code != OK {
      return;
    }
    TableFacts(Part(t, 8), es);
    w.entities := es;
    if |Part(t, 9)| != 4 || Load32(Part(t, 9), 0) != 0 {
      return FORMAT;
    }
    if |Part(t, 10)| != 16 || Load32(Part(t, 10), 0) != 0 || Load32(Part(t, 10), 4) != 0
       || Load32(Part(t, 10), 8) != 0 || Load32(Part(t, 10), 12) != 0 {
      return FORMAT;
    }
    if |Part(t, 11)| != DIGEST {
      return FORMAT;
    }
    BodyIs(t, w.Value());
    code := OK;
  }

  lemma BodyIs(t: Sections, s: State)
    requires AllPresent(t) && s.WellFormed() && SizesOk(s.config.dims)
    requires Part(t, 7) == MapPayload(s.config.dims, s.riverTileCount, s.roadTileCount, s.landTileCount, s.tiles, s.region)
    requires EntityTable(Part(t, 8), s.entities)
    requires Part(t, 9) == PendingPayload() && Part(t, 10) == ReservedPayload() && |Part(t, 11)| == DIGEST
    ensures BodyEncoded(t, s)
  {
  }

  // ----- the whole decode

  /** The sections are the save of s, s can be loaded, and it fits the context. */
  ghost predicate Acceptable(sha: HashFunction, limits: Limits, t: Sections, count: nat, s: State) {
    Encodes(sha, t, count, s) && Loadable(sha, s) && FitsLive(limits, s.config.dims)
  }

  /** The digest a world under construction carries until it is computed. */
  function NoHash(): Digest { seq(32, _ => 0) }

  lemma AcceptableShows(sha: HashFunction, limits: Limits, t: Sections, count: nat, s: State)
    requires Acceptable(sha, limits, t, count, s)
    ensures s.WellFormed() && IdentityEncoded(sha, t, count, s.config, s.content, s.seed, s.tick) && BodyEncoded(t, s)
    ensures FitsLive(limits, s.config.dims) && s.tick % OPERATIONAL_TICKS == 0 && TickFits(s.tick)
    ensures s.configHash == ConfigHash(sha, s.config) && |s.content| <= MAX_CONTENT_PACKS
    ensures s.contentHash == ContentHash(sha, s.content)
    ensures WorldOk(s.(stateHash := NoHash())) && NamesFit(s.entities)
    ensures Part(t, 11) == s.stateHash == StateHash(sha, s.(stateHash := NoHash()))
  {
    hide WorldOk, StateHash, ConfigHash, ContentHash, IdentityEncoded, FitsLive, NamesPrintable, ConfigOk;
    WorldOkIgnoresClock(s, s.tick, NoHash());
    StateHashIgnoresRecord(sha, s, NoHash());
    BodyShows(t, s);
  }

  lemma DecodedIsAcceptable(sha: HashFunction, limits: Limits, t: Sections, count: nat, s: State)
    requires s.WellFormed() && IdentityEncoded(sha, t, count, s.config, s.content, s.seed, s.tick)
    requires s.stateHash == NoHash() && BodyEncoded(t, s) && FitsLive(limits, s.config.dims)
    requires s.tick % OPERATIONAL_TICKS == 0 && TickFits(s.tick) && WorldOk(s) && NamesFit(s.entities)
    requires ConfigOk(s.config) && |s.content| <= MAX_CONTENT_PACKS
    requires s.configHash == ConfigHash(sha, s.config) && s.contentHash == ContentHash(sha, s.content)
    requires Part(t, 11) == StateHash(sha, s)
    ensures Acceptable(sha, limits, t, count, s.(stateHash := StateHash(sha, s)))
  {
    hide WorldOk, StateHash, ConfigHash, ContentHash, FitsLive, ConfigOk, ManifestOk, VersionsOk, MapPayload,
      ConfigPayload, ContentPayload, SeedPayload, TimePayload, PendingPayload, ReservedPayload, EntityPayload;
    WorldOkIgnoresClock(s, s.tick, StateHash(sha, s));
    StateHashIgnoresRecord(sha, s, StateHash(sha, s));
  }

  lemma IdentityIsConfigOk(sha: HashFunction, t: Sections, count: nat, c: Config, packs: seq<Pack>, seed: Bytes,
                           tick: u64)
    requires IdentityEncoded(sha, t, count, c, packs, seed, tick)
    ensures ConfigOk(c) && SizesOk(c.dims) && c.dims.Valid() && |seed| == 16 && |packs| <= MAX_CONTENT_PACKS
  {
    hide ManifestOk, VersionsOk, ConfigPayload, ContentPayload, SeedPayload, TimePayload, ConfigHash;
  }

  /** Validation and digest of a decoded world. */
  method Seal(w: Game, expected: Bytes, sha: HashFunction) returns (code: u32)
    requires w.Valid()
    modifies w`stateHash
    ensures w.Valid()
    ensures code == OK <==>
              WorldOk(old(w.Value())) && NamesFit(w.entities) && expected == StateHash(sha, old(w.Value()))
    ensures code == OK ==> w.Value() == old(w.Value()).(stateHash := StateHash(sha, old(w.Value())))
  {
    hide WorldOk, StateHash, NamesFit;
    ghost var before := w.Value();
    var report := ValidateWorld(w);
    if !report.AllPassed() {
      return STATE;
    }
    ValidNames(before);
    w.stateHash := StateHash(sha, w.Value());
    if w.stateHash != expected {
      return CHECKSUM;
    }
    code := OK;
  }

  /** fd_decode_world: succeeds exactly when the sections are the save of a loadable world
      that fits the context, and gives back that world. */
  method DecodeWorld(t: Sections, count: nat, limits: Limits, sha: HashFunction) returns (code: u32, w: Game?)
    requires AllPresent(t)
    ensures code == OK <==> w != null
    ensures w != null ==> fresh(w) && fresh(w.tiles) && w.Valid() && Acceptable(sha, limits, t, count, w.Value())
    ensures forall s :: Acceptable(sha, limits, t, count, s) ==> w != null && w.Value() == s
  {
    hide Acceptable, WorldOk, StateHash, ConfigHash, ContentHash, IdentityEncoded, BodyEncoded, FitsLive, ConfigOk,
      SizesOk, Dims.Count, NamesFit, TickFits;
    forall s | Acceptable(sha, limits, t, count, s)
      ensures s.WellFormed() && IdentityEncoded(sha, t, count, s.config, s.content, s.seed, s.tick) && BodyEncoded(t, s)
      ensures FitsLive(limits, s.config.dims) && s.tick % OPERATIONAL_TICKS == 0 && TickFits(s.tick)
      ensures s.configHash == ConfigHash(sha, s.config) && |s.content| <= MAX_CONTENT_PACKS
      ensures s.contentHash == ContentHash(sha, s.content)
      ensures WorldOk(s.(stateHash := NoHash())) && NamesFit(s.entities)
      ensures Part(t, 11) == s.stateHash == StateHash(sha, s.(stateHash := NoHash()))
    {
      AcceptableShows(sha, limits, t, count, s);
    }
    w := null;
    var config, packs, seed, tick;
    code, config, packs, seed, tick := LoadIdentity(t, count, sha);
    if code != OK {
      return;
    }
    IdentityIsConfigOk(sha, t, count, config, packs, seed, tick);
    if !FitsLive(limits, config.dims) {
      return CAPACITY, null;
    }
    var world := new Game(config, seed, packs, ConfigHash(sha, config), ContentHash(sha, packs), NO_REGION,
                          seq(ENTITY_COUNT, _ => NO_ENTITY));
    world.tick := tick;
    if tick % OPERATIONAL_TICKS != 0 || !TickFits(tick) {
      return FORMAT, null;
    }
    code := LoadBody(world, t);
    if code != OK {
      return;
    }
    ghost var before := world.Value();
    assert forall s :: Acceptable(sha, limits, t, count, s) ==> before == s.(stateHash := NoHash());
    code := Seal(world, Part(t, 11), sha);
    if code != OK {
      return;
    }
    DecodedIsAcceptable(sha, limits, t, count, before);
    w := world;
  }

  // ----- the file

  const SMALLEST_FILE := 88

  /** A file of the right magic and footer whose body splits into the given sections. */
  ghost predicate SaveFile(sha: HashFunction, bytes: Bytes, fs: seq<Frame>) {
    && SMALLEST_FILE <= |bytes| < FILE_LIMIT
    && bytes[..8] == Magic()
    && bytes[|bytes| - DIGEST..] == Footer(sha, bytes[..|bytes| - DIGEST])
    && ValidBody(sha, bytes, SAVE_LAST, fs)
  }

  /** bytes is a save of s a context with these limits accepts. */
  ghost predicate Loads(sha: HashFunction, limits: Limits, bytes: Bytes, s: State) {
    && |bytes| <= limits.maxFileBytes
    && exists fs :: SaveFile(sha, bytes, fs) && Acceptable(sha, limits, Table(fs, 11), |fs|, s)
  }

  lemma TableIsPresent(fs: seq<Frame>)
    requires Ascending(fs) && Complete(fs, SAVE_LAST)
    ensures AllPresent(Table(fs, 11))
  {
    hide HasCritical, Ascending, Find;
    forall tag | 1 <= tag <= 11 ensures Table(fs, 11)[tag].Some? {
      assert HasCritical(fs, tag);
      FindIs(fs, tag);
    }
  }

  lemma OneSplit(sha: HashFunction, bytes: Bytes, fs: seq<Frame>)
    requires |bytes| >= 8 + DIGEST && ValidBody(sha, bytes, SAVE_LAST, fs)
    ensures AllPresent(Table(fs, 11))
    ensures forall gs :: SaveFile(sha, bytes, gs) ==> gs == fs
  {
    hide Complete;
    TableIsPresent(fs);
    WholeBody(sha, bytes, SAVE_LAST, fs);
  }

  /** fd_world_load: accepts exactly the saves of loadable worlds within the limits, and
      gives back the world saved. */
  method WorldLoad(bytes: Bytes, limits: Limits, sha: HashFunction) returns (code: u32, w: Game?)
    requires |bytes| < FILE_LIMIT
    ensures code == OK <==> w != null
    ensures w != null ==> fresh(w) && fresh(w.tiles) && w.Valid() && Loads(sha, limits, bytes, w.Value())
    ensures forall s :: Loads(sha, limits, bytes, s) ==> w != null && w.Value() == s
  {
    hide Acceptable, ValidBody, Footer, Table;
    w := null;
    if |bytes| > limits.maxFileBytes {
      return CAPACITY, null;
    }
    if |bytes| < SMALLEST_FILE {
      return FORMAT, null;
    }
    if bytes[..8] != Magic() {
      return if bytes[..7] == Magic()[..7] then VERSION else FORMAT, null;
    }
    if Footer(sha, bytes[..|bytes| - DIGEST]) != bytes[|bytes| - DIGEST..] {
      return CHECKSUM, null;
    }
    var sections, count;
    ghost var fs;
    code, sections, count, fs := ParseSave(bytes, sha);
    if code != OK {
      return;
    }
    OneSplit(sha, bytes, fs);
    code, w := DecodeWorld(sections, count, limits, sha);
    if w != null {
      assert SaveFile(sha, bytes, fs) && Acceptable(sha, limits, Table(fs, 11), |fs|, w.Value());
    }
  }
}
