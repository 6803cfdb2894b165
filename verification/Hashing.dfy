/** Canonical byte strings of the authoritative state, and their digests under any hash
    function.  Sha256.Hash is the instance the core uses. */
module Hashing {
  import opened Grid
  import opened World
  import opened Codec

  type HashFunction = Bytes -> Digest

  function Text(s: string): (b: Bytes)
    requires forall i :: 0 <= i < |s| ==> s[i] < 128 as char
    ensures |b| == |s|
  {
    seq(|s|, i requires 0 <= i < |s| => s[i] as int)
  }

  const STATE_DOMAIN := "FrontierDirectorate/State/v1"
  const CONFIG_DOMAIN := "FrontierDirectorate/Config/v1"
  const CONTENT_DOMAIN := "FrontierDirectorate/Content/v1"
  const SAVE_FOOTER_DOMAIN := "FrontierDirectorate/Save/Footer/v1"
  const REPLAY_FOOTER_DOMAIN := "FrontierDirectorate/Replay/Footer/v1"
  const DECISION_DOMAIN := "FrontierDirectorate/JointDecision/v1"

  /** A domain separator: its length, then its bytes. */
  function Domain(s: string): Bytes
    requires forall i :: 0 <= i < |s| ==> s[i] < 128 as char
  {
    Store32(|s| % 0x1_0000_0000) + Text(s)
  }

  /** input is the text behind its length, then rest. */
  ghost predicate Prefixed(input: Bytes, text: string, rest: Bytes) {
    && |input| == 4 + |text| + |rest| && Load32(input, 0) == |text|
    && (forall i :: 0 <= i < |text| ==> input[4 + i] == text[i] as int)
    && input[4 + |text|..] == rest
  }

  lemma DomainPrefixes(s: string, rest: Bytes)
    requires |s| < 0x1_0000_0000 && forall i :: 0 <= i < |s| ==> s[i] < 128 as char
    ensures Prefixed(Domain(s) + rest, s, rest)
  {
    hide Store32, Load32;
    var input := Domain(s) + rest;
    assert input[0..4] == Store32(|s|);
    LoadStored32(input, 0, |s|);
  }

  /** What is hashed for one purpose is never what is hashed for another. */
  lemma PrefixesSeparate(input: Bytes, s: string, t: string, a: Bytes, b: Bytes)
    requires Prefixed(input, s, a) && Prefixed(input, t, b)
    ensures s == t && a == b
  {
    hide Load32;
    forall i | 0 <= i < |s| ensures s[i] == t[i] {
      assert input[4 + i] == s[i] as int == t[i] as int;
    }
  }

  function PackBytes(packs: seq<Pack>): Bytes {
    if packs == [] then [] else PackBytes(packs[..|packs| - 1]) + PackEntry(packs[|packs| - 1])
  }

  function PackEntry(p: Pack): (b: Bytes)
    ensures |b| == 40
  {
    Store64(p.stableId) + p.sha
  }

  function TileBytes(t: Tile): (b: Bytes)
    ensures |b| == 24
  {
    Store32(t.terrain) + Store32(OverlayWord(t.overlays)) + Store32(Unsigned(t.elevation))
    + Store32(t.rainfall) + Store64(t.settlement)
  }

  function TilesBytes(ts: seq<Tile>): (b: Bytes)
    ensures |b| == 24 * |ts|
  {
    if ts == [] then [] else TilesBytes(ts[..|ts| - 1]) + TileBytes(ts[|ts| - 1])
  }

  function EntityBytes(e: Entity): (b: Bytes)
    requires |e.name| < MAX_NAME_BYTES
    ensures |b| == 40 + |e.name|
  {
    Store64(e.id) + Store32(e.kind) + Store32(e.x) + Store32(e.y) + Store64(e.regionId) + Store64(e.ownerId)
    + Store32(|e.name|) + e.name
  }

  predicate NamesFit(es: seq<Entity>) {
    forall k :: 0 <= k < |es| ==> |es[k].name| < MAX_NAME_BYTES
  }

  predicate NamesPrintable(es: seq<Entity>) {
    forall k :: 0 <= k < |es| ==> PrintableName(es[k].name)
  }

  function EntitiesBytes(es: seq<Entity>): Bytes
    requires NamesFit(es)
  {
    if es == [] then [] else EntitiesBytes(es[..|es| - 1]) + EntityBytes(es[|es| - 1])
  }

  function RegionBytes(r: Region): (b: Bytes)
    ensures |b| == 80
  {
    Store64(r.id) + Store64(r.politicalOwnerId) + Store64(r.settlement0) + Store64(r.settlement1)
    + Store64(r.foreign0) + Store64(r.foreign1) + Store64(r.outletTileId)
    + Store64(r.roadStartTileId) + Store64(r.roadEndTileId)
    + Store32(r.riverTileCount) + Store32(r.roadTileCount)
  }

  /** The settings hashed by fd_hash_config_internal, with registry version one. */
  function ConfigBytes(c: Config): Bytes
    requires c.dims.Valid()
  {
    SmallDims(c.dims);
    Domain(CONFIG_DOMAIN)
    + Store32(c.dims.width) + Store32(c.dims.height) + Store32(c.attemptBudget)
    + Store32(c.generatorVersion) + Store32(c.rulesetVersion)
    + Store32(c.forestPpm) + Store32(c.hillPpm) + Store32(c.wetlandPpm) + Store32(c.referenceMode) + Store32(1)
  }

  lemma SmallDims(g: Dims)
    requires g.Valid()
    ensures g.width <= MAX_TILES && g.height <= MAX_TILES
  {
    MulMono(1, g.height, g.width);
    MulMono(1, g.width, g.height);
  }

  function ConfigHash(sha: HashFunction, c: Config): Digest
    requires c.dims.Valid()
  {
    sha(ConfigBytes(c))
  }

  function ContentBytes(packs: seq<Pack>): Bytes
    requires |packs| <= MAX_CONTENT_PACKS
  {
    Domain(CONTENT_DOMAIN) + Store32(|packs|) + PackBytes(packs)
  }

  function ContentHash(sha: HashFunction, packs: seq<Pack>): Digest
    requires |packs| <= MAX_CONTENT_PACKS
  {
    sha(ContentBytes(packs))
  }

  /** Versions, settings, seed and content count, at the front of the canonical bytes. */
  function StateHead(s: State): Bytes
    requires s.WellFormed()
  {
    SmallDims(s.config.dims);
    var c := s.config;
    Domain(STATE_DOMAIN)
    + Store32(c.generatorVersion) + Store32(c.rulesetVersion) + Store32(1)
    + Store32(c.dims.width) + Store32(c.dims.height) + Store32(c.attemptBudget)
    + Store32(c.forestPpm) + Store32(c.hillPpm) + Store32(c.wetlandPpm) + Store32(c.referenceMode)
    + s.seed + Store32(|s.content|)
  }

  /** Everything fd_world_compute_hash feeds to the digest, in its order. */
  function StateBytes(s: State): Bytes
    requires s.WellFormed() && NamesFit(s.entities)
  {
    StateHead(s) + PackBytes(s.content)
    + Store64(s.tick) + Store32(|s.tiles|) + TilesBytes(s.tiles)
    + Store32(ENTITY_COUNT) + EntitiesBytes(s.entities) + RegionBytes(s.region)
  }

  /** The state digest.  It does not depend on the digest currently recorded. */
  function StateHash(sha: HashFunction, s: State): Digest
    requires s.WellFormed() && NamesFit(s.entities)
  {
    sha(StateBytes(s))
  }

  lemma StateHashIgnoresRecord(sha: HashFunction, s: State, d: Digest)
    requires s.WellFormed() && NamesFit(s.entities)
    ensures StateHash(sha, s.(stateHash := d)) == StateHash(sha, s)
  {
  }
}
