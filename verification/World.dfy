/** The authoritative world record: tiles, entities, region and counters. */
module World {
  import opened Grid

  type u8 = x: int | 0 <= x <= 0xFF
  type i32 = x: int | -0x8000_0000 <= x <= 0x7FFF_FFFF
  type Bytes = seq<u8>
  type Digest = s: Bytes | |s| == 32 witness seq(32, _ => 0)

  function Zeros(n: nat): (z: Bytes)
    ensures |z| == n && forall i :: 0 <= i < n ==> z[i] == 0
  {
    seq(n, _ => 0)
  }

  const MIN_WIDTH := 32
  const MAX_WIDTH := 256
  const MIN_HEIGHT := 16
  const MAX_HEIGHT := 128
  const MAX_NAME_BYTES := 48
  const MAX_CONTENT_PACKS := 16
  const MAX_ATTEMPTS := 64
  const ENTITY_COUNT := 6
  const OPERATIONAL_TICKS := 24

  const WATER: u32 := 1
  const GRASSLAND: u32 := 2
  const FOREST: u32 := 3
  const HILLS: u32 := 4
  const WETLANDS: u32 := 5
  const SETTLEMENT: u32 := 6

  const KIND_REGION: u32 := 1
  const KIND_COASTAL: u32 := 2
  const KIND_INLAND: u32 := 3
  const KIND_POLITY: u32 := 4
  const KIND_FOREIGN: u32 := 5

  type u28 = x: int | 0 <= x <= 0xFFF_FFFF

  /** The overlay bit mask of a tile: the four defined bits and whatever else is set. */
  datatype Overlays = Overlays(river: bool, road: bool, outlet: bool, crossing: bool, rest: u28)

  const NO_OVERLAYS := Overlays(false, false, false, false, 0)

  datatype Tile = Tile(elevation: i32, rainfall: u32, settlement: u64, terrain: u32, overlays: Overlays)

  const BLANK_TILE := Tile(0, 0, 0, 0, NO_OVERLAYS)

  datatype Config = Config(
    dims: Dims, attemptBudget: u32, generatorVersion: u32, rulesetVersion: u32,
    forestPpm: u32, hillPpm: u32, wetlandPpm: u32, referenceMode: u32)

  datatype Pack = Pack(stableId: u64, sha: Digest)

  datatype Entity = Entity(
    id: u64, kind: u32, x: u32, y: u32, regionId: u64, ownerId: u64, name: Bytes)

  datatype Region = Region(
    id: u64, politicalOwnerId: u64, settlement0: u64, settlement1: u64,
    foreign0: u64, foreign1: u64, outletTileId: u64, roadStartTileId: u64, roadEndTileId: u64,
    riverTileCount: u32, roadTileCount: u32)

  /** Entity identifiers are a generation of one above a 32-bit slot. */
  function EntityId(slot: u32): u64 { 0x1_0000_0000 + slot }

  function TileId(index: u32): u64 { index + 1 }

  /** fd_u01_name_valid: a name is non-empty printable ASCII. */
  predicate PrintableName(name: Bytes) {
    0 < |name| < MAX_NAME_BYTES && forall i :: 0 <= i < |name| ==> 0x20 <= name[i] <= 0x7E
  }

  /** The sizes every generated or loaded world has. */
  predicate SizesOk(g: Dims) {
    && MIN_WIDTH <= g.width <= MAX_WIDTH
    && MIN_HEIGHT <= g.height <= MAX_HEIGHT
    && g.Count() <= MAX_TILES
  }

  /** The bounds a context carries. */
  datatype Limits = Limits(maxFileBytes: u64, maxLiveWorldBytes: u64)

  /** The context's bound on a live world: 24 bytes a tile and the world record. */
  predicate FitsLive(limits: Limits, g: Dims) {
    g.Count() * 24 + 1544 <= limits.maxLiveWorldBytes
  }

  lemma LiveInNumbers(limits: Limits, g: Dims)
    ensures FitsLive(limits, g) <==> 24 * g.Count() + 1544 <= limits.maxLiveWorldBytes
  {
  }

  /** The ranges of a configuration, densities aside. */
  predicate BasicConfig(c: Config) {
    && SizesOk(c.dims) && 1 <= c.attemptBudget <= MAX_ATTEMPTS
    && c.generatorVersion == 1 && c.rulesetVersion == 1 && c.referenceMode == 1
  }

  predicate DensitiesBounded(c: Config) {
    && c.forestPpm <= 1000000 && c.hillPpm <= 1000000 && c.wetlandPpm <= 1000000
    && c.forestPpm + c.hillPpm + c.wetlandPpm <= 900000
  }

  /** Without all three no map can show every terrain. */
  predicate DensitiesPositive(c: Config) { c.forestPpm > 0 && c.hillPpm > 0 && c.wetlandPpm > 0 }

  /** Pack identifiers are nonzero and strictly increasing. */
  predicate PacksOk(packs: seq<Pack>) {
    && |packs| <= MAX_CONTENT_PACKS
    && (forall k :: 0 <= k < |packs| ==> packs[k].stableId != 0)
    && (forall k :: 0 < k < |packs| ==> packs[k - 1].stableId < packs[k].stableId)
  }

  /** fd_validate_generation_inputs_internal on a configuration and content list, without
      the size-and-version headers. */
  predicate InputsOk(c: Config, packs: seq<Pack>) { BasicConfig(c) && DensitiesBounded(c) && PacksOk(packs) }

  /** The same in numbers.  The limits on single densities and on the tile count follow from
      the others. */
  lemma InputsInNumbers(c: Config, packs: seq<Pack>)
    ensures InputsOk(c, packs) <==>
              && 32 <= c.dims.width <= 256 && 16 <= c.dims.height <= 128
              && 1 <= c.attemptBudget <= 64 && c.generatorVersion == c.rulesetVersion == c.referenceMode == 1
              && c.forestPpm + c.hillPpm + c.wetlandPpm <= 900000
              && |packs| <= 16
              && (packs != [] ==> packs[0].stableId > 0)
              && (forall k :: 0 < k < |packs| ==> packs[k - 1].stableId < packs[k].stableId)
  {
    if 32 <= c.dims.width <= 256 && 16 <= c.dims.height <= 128 {
      MulMono(c.dims.height, 128, c.dims.width);
    }
    if forall k :: 0 < k < |packs| ==> packs[k - 1].stableId < packs[k].stableId {
      assert forall k :: 0 < k < |packs| ==> packs[k].stableId != 0 by {
        forall k | 0 < k < |packs| ensures packs[k].stableId != 0 { assert packs[k - 1].stableId < packs[k].stableId; }
      }
    }
  }

  /** A configuration some world can have. */
  predicate ConfigOk(c: Config) { BasicConfig(c) && DensitiesBounded(c) && DensitiesPositive(c) }

  lemma ConfigInNumbers(c: Config)
    ensures ConfigOk(c) <==>
              InputsOk(c, []) && c.forestPpm >= 1 && c.hillPpm >= 1 && c.wetlandPpm >= 1
  {
  }

  /** A world as a value: everything the canonical save holds. */
  datatype State = State(
    config: Config, seed: Bytes, content: seq<Pack>, configHash: Digest, contentHash: Digest,
    tick: u64, tiles: seq<Tile>, entities: seq<Entity>, region: Region,
    riverTileCount: u32, roadTileCount: u32, landTileCount: u32, stateHash: Digest)
  {
    predicate WellFormed() {
      && config.dims.Valid()
      && |tiles| == config.dims.Count()
      && |entities| == ENTITY_COUNT
      && |seed| == 16
      && |content| <= MAX_CONTENT_PACKS
    }
  }

  class Game {
    const config: Config
    const seed: Bytes
    const content: seq<Pack>
    const configHash: Digest
    const contentHash: Digest
    const tiles: array<Tile>
    var tick: u64
    var entities: seq<Entity>
    var region: Region
    var riverTileCount: u32
    var roadTileCount: u32
    var landTileCount: u32
    var riverRaisedTileCount: u32
    var riverMinCarve: u32
    var stateHash: Digest

    ghost predicate Valid()
      reads this
    {
      && config.dims.Valid()
      && tiles.Length == config.dims.Count()
      && |entities| == ENTITY_COUNT
      && |seed| == 16
      && |content| <= MAX_CONTENT_PACKS
    }

    /** The abstract value of the world. */
    function Value(): (s: State)
      reads this, tiles
    {
      State(config, seed, content, configHash, contentHash, tick, tiles[..], entities, region,
            riverTileCount, roadTileCount, landTileCount, stateHash)
    }

    constructor (config: Config, seed: Bytes, content: seq<Pack>, configHash: Digest,
                 contentHash: Digest, region: Region, entities: seq<Entity>)
      requires config.dims.Valid() && |seed| == 16 && |content| <= MAX_CONTENT_PACKS
      requires |entities| == ENTITY_COUNT
      ensures Valid() && fresh(tiles)
      ensures Value() == State(config, seed, content, configHash, contentHash, 0,
                               seq(config.dims.Count(), _ => BLANK_TILE), entities, region, 0, 0, 0,
                               seq(32, _ => 0))
      ensures riverRaisedTileCount == 0 && riverMinCarve == 0
    {
      this.config, this.seed, this.content := config, seed, content;
      this.configHash, this.contentHash := configHash, contentHash;
      this.tiles := new Tile[config.dims.Count()](_ => BLANK_TILE);
      this.tick, this.entities, this.region := 0, entities, region;
      riverTileCount, roadTileCount, landTileCount := 0, 0, 0;
      riverRaisedTileCount, riverMinCarve := 0, 0;
      stateHash := seq(32, _ => 0);
    }
  }
}
