/** Reading the section payloads of a save back, one section at a time.  Each reader accepts
    exactly the payloads the writer can produce and returns what they were written from. */
module SaveRead {
  import opened Grid
  import opened World
  import opened Codec
  import opened Hashing
  import opened Decisions
  import opened Wire
  import opened SaveFormat

  // ----- configuration

  function ReadConfig(p: Bytes): Config
    requires |p| == 68 && Load32(p, 0) > 0 && Load32(p, 4) > 0
  {
    Config(Dims(Load32(p, 0), Load32(p, 4)), Load32(p, 8), Load32(p, 12), Load32(p, 16), Load32(p, 20),
           Load32(p, 24), Load32(p, 28), Load32(p, 32))
  }

  lemma ConfigStored(p: Bytes, c: Config, hash: Digest)
    requires SizesOk(c.dims) && p == ConfigPayload(c, hash)
    ensures |p| == 68 && Load32(p, 0) > 0 && Load32(p, 4) > 0 && ReadConfig(p) == c && p[36..68] == hash
  {
    assert Holds(p, 0, p);
    hide Store32, Load32;
    Apart(p, 0);
    assert Holds(p, 36, hash);
  }

  lemma ConfigRead(p: Bytes)
    requires |p| == 68 && Load32(p, 0) > 0 && Load32(p, 4) > 0 && SizesOk(ReadConfig(p).dims)
    ensures p == ConfigPayload(ReadConfig(p), p[36..68])
  {
    assert Holds(p, 36, p[36..68]);
    Together(p, 0);
    hide Store32, Load32;
    assert Holds(p, 0, ConfigPayload(ReadConfig(p), p[36..68]));
    assert p == p[0..68];
  }

  /** Section 3. */
  method LoadConfig(p: Bytes, sha: HashFunction) returns (code: u32, c: Config)
    ensures code == OK ==> BasicConfig(c) && p == ConfigPayload(c, ConfigHash(sha, c))
    ensures forall d: Config :: BasicConfig(d) && p == ConfigPayload(d, ConfigHash(sha, d)) ==> code == OK && c == d
  {
    hide ConfigHash, ConfigPayload, Load32;
    forall d: Config | BasicConfig(d) && p == ConfigPayload(d, ConfigHash(sha, d))
      ensures |p| == 68 && Load32(p, 0) > 0 && Load32(p, 4) > 0
      ensures ReadConfig(p) == d && p[36..68] == ConfigHash(sha, d)
    {
      ConfigStored(p, d, ConfigHash(sha, d));
    }
    c := Config(Dims(1, 1), 0, 0, 0, 0, 0, 0, 0);
    if |p| != 68 {
      return FORMAT, c;
    }
    if Load32(p, 0) < MIN_WIDTH || Load32(p, 4) < MIN_HEIGHT {
      return FORMAT, c;
    }
    c := ReadConfig(p);
    if !BasicConfig(c) {
      return FORMAT, c;
    }
    if ConfigHash(sha, c) != p[36..68] {
      return CHECKSUM, c;
    }
    ConfigRead(p);
    code := OK;
  }

  // ----- content packs

  lemma {:induction false} PacksStored(p: Bytes, at: nat, packs: seq<Pack>, k: nat)
    requires k < |packs| && Holds(p, at, PackBytes(packs))
    ensures at + 40 * k + 40 <= |p| && ReadPack(p, at + 40 * k) == packs[k]
    decreases |packs|
  {
    hide PackEntry, ReadPack;
    var n := |packs| - 1;
    PackBytesLength(packs[..n]);
    HoldsSplit(p, at, PackBytes(packs[..n]), PackEntry(packs[n]));
    if k < n {
      PacksStored(p, at, packs[..n], k);
    } else {
      PackStored(p, at + 40 * n, packs[n]);
    }
  }

  lemma {:induction false} PacksRead(p: Bytes, at: nat, packs: seq<Pack>)
    requires at + 40 * |packs| <= |p|
    requires forall k :: 0 <= k < |packs| ==> packs[k] == ReadPack(p, at + 40 * k)
    ensures Holds(p, at, PackBytes(packs))
    decreases |packs|
  {
    hide PackEntry, ReadPack;
    if packs != [] {
      var n := |packs| - 1;
      PacksRead(p, at, packs[..n]);
      PackBytesLength(packs[..n]);
      PackRead(p, at + 40 * n);
      HoldsSplit(p, at, PackBytes(packs[..n]), PackEntry(packs[n]));
    }
  }

  lemma ContentStored(p: Bytes, packs: seq<Pack>)
    requires |packs| <= MAX_CONTENT_PACKS && p == ContentPayload(packs)
    ensures |p| == 4 + 40 * |packs| && Load32(p, 0) == |packs|
    ensures forall k :: 0 <= k < |packs| ==> packs[k] == ReadPack(p, 4 + 40 * k)
  {
    hide PackEntry, ReadPack, PackBytes, Store32, Load32;
    assert Holds(p, 0, p);
    HoldsSplit(p, 0, Store32(|packs|), PackBytes(packs));
    LoadStored32(p, 0, |packs|);
    forall k | 0 <= k < |packs| ensures packs[k] == ReadPack(p, 4 + 40 * k) {
      PacksStored(p, 4, packs, k);
    }
  }

  lemma ContentRead(p: Bytes, packs: seq<Pack>)
    requires |packs| <= MAX_CONTENT_PACKS && |p| == 4 + 40 * |packs| && Load32(p, 0) == |packs|
    requires forall k :: 0 <= k < |packs| ==> packs[k] == ReadPack(p, 4 + 40 * k)
    ensures p == ContentPayload(packs)
  {
    hide PackEntry, ReadPack, PackBytes, Store32, Load32;
    PackBytesLength(packs);
    PacksRead(p, 4, packs);
    StoreLoaded32(p, 0);
    HoldsSplit(p, 0, Store32(|packs|), PackBytes(packs));
    assert p == p[0..|p|];
  }

  /** Section 4. */
  method LoadContent(p: Bytes) returns (code: u32, packs: seq<Pack>)
    ensures code == OK ==> PacksOk(packs) && p == ContentPayload(packs)
    ensures forall qs :: PacksOk(qs) && p == ContentPayload(qs) ==> code == OK && packs == qs
  {
    hide ContentPayload, ReadPack, Load32;
    forall qs | PacksOk(qs) && p == ContentPayload(qs)
      ensures |p| == 4 + 40 * |qs| && Load32(p, 0) == |qs|
      ensures forall k :: 0 <= k < |qs| ==> qs[k] == ReadPack(p, 4 + 40 * k)
    {
      ContentStored(p, qs);
    }
    packs := [];
    if |p| < 4 {
      return FORMAT, packs;
    }
    var count := Load32(p, 0);
    if count > MAX_CONTENT_PACKS || |p| != 4 + count * 40 {
      return CAPACITY, packs;
    }
    var index: nat := 0;
    while index < count
      invariant index <= count && |packs| == index && PacksOk(packs)
      invariant forall k :: 0 <= k < index ==> packs[k] == ReadPack(p, 4 + 40 * k)
    {
      var pack := ReadPack(p, 4 + 40 * index);
      forall qs | PacksOk(qs) && p == ContentPayload(qs)
        ensures |qs| == count && qs[index] == pack && (index > 0 ==> qs[index - 1] == packs[index - 1])
      {
      }
      if pack.stableId == 0 || (index > 0 && packs[index - 1].stableId >= pack.stableId) {
        return FORMAT, packs;
      }
      packs := packs + [pack];
      index := index + 1;
    }
    ContentRead(p, packs);
    code := OK;
  }

  // ----- the map

  lemma {:induction false} TilesStored(p: Bytes, at: nat, ts: seq<Tile>, k: nat)
    requires k < |ts| && Holds(p, at, TilesBytes(ts))
    ensures at + 24 * k + 24 <= |p| && ReadTile(p, at + 24 * k) == ts[k]
    decreases |ts|
  {
    hide TileBytes, ReadTile;
    var n := |ts| - 1;
    HoldsSplit(p, at, TilesBytes(ts[..n]), TileBytes(ts[n]));
    if k < n {
      TilesStored(p, at, ts[..n], k);
    } else {
      TileStored(p, at + 24 * n, ts[n]);
    }
  }

  lemma {:induction false} TilesRead(p: Bytes, at: nat, ts: seq<Tile>)
    requires at + 24 * |ts| <= |p|
    requires forall k :: 0 <= k < |ts| ==> ts[k] == ReadTile(p, at + 24 * k)
    ensures Holds(p, at, TilesBytes(ts))
    decreases |ts|
  {
    hide TileBytes, ReadTile;
    if ts != [] {
      var n := |ts| - 1;
      TilesRead(p, at, ts[..n]);
      TileRead(p, at + 24 * n);
      HoldsSplit(p, at, TilesBytes(ts[..n]), TileBytes(ts[n]));
    }
  }

  lemma HeadStored(p: Bytes, tiles: u32, g: Dims, river: u32, road: u32, land: u32)
    requires SizesOk(g) && Holds(p, 0, MapHead(tiles, g, river, road, land))
    ensures |p| >= 24 && Load32(p, 0) == tiles && Load32(p, 4) == g.width && Load32(p, 8) == g.height
    ensures Load32(p, 12) == river && Load32(p, 16) == road && Load32(p, 20) == land
  {
    assert |p| >= 24;
    hide Store32, Load32, Holds;
    Apart(p, 0);
  }

  lemma HeadRead(p: Bytes, g: Dims)
    requires SizesOk(g) && |p| >= 24 && Load32(p, 4) == g.width && Load32(p, 8) == g.height
    ensures Holds(p, 0, MapHead(Load32(p, 0), g, Load32(p, 12), Load32(p, 16), Load32(p, 20)))
  {
    hide Store32, Load32, Holds;
    Together(p, 0);
  }

  lemma SmallCount(g: Dims)
    requires SizesOk(g)
    ensures g.Count() <= MAX_TILES
  {
  }

  lemma MapParts(p: Bytes, g: Dims, river: u32, road: u32, land: u32, ts: seq<Tile>, r: Region)
    requires SizesOk(g) && |ts| == g.Count() <= MAX_TILES && p == MapPayload(g, river, road, land, ts, r)
    ensures Holds(p, 0, MapHead(|ts|, g, river, road, land))
    ensures Holds(p, 24, TilesBytes(ts)) && Holds(p, 24 + 24 * |ts|, RegionBytes(r))
  {
    hide Dims.Count, SizesOk, MapHead, TilesBytes, RegionBytes;
    assert p[0..|p|] == p;
    var head := MapHead(|ts|, g, river, road, land);
    HoldsSplit(p, 0, head + TilesBytes(ts), RegionBytes(r));
    HoldsSplit(p, 0, head, TilesBytes(ts));
  }

  lemma MapStored(p: Bytes, g: Dims, river: u32, road: u32, land: u32, ts: seq<Tile>, r: Region)
    requires SizesOk(g) && |ts| == g.Count() && p == MapPayload(g, river, road, land, ts, r)
    ensures |p| == 104 + 24 * |ts| && Load32(p, 0) == |ts| && Load32(p, 4) == g.width && Load32(p, 8) == g.height
    ensures Load32(p, 12) == river && Load32(p, 16) == road && Load32(p, 20) == land
    ensures forall k :: 0 <= k < |ts| ==> ts[k] == ReadTile(p, 24 + 24 * k)
    ensures ReadRegion(p, 24 + 24 * |ts|) == r
  {
    hide Dims.Count, SizesOk, MapPayload, MapHead, Load32, ReadTile, ReadRegion, TilesBytes, RegionBytes, Holds;
    SmallCount(g);
    MapParts(p, g, river, road, land, ts, r);
    HeadStored(p, |ts|, g, river, road, land);
    RegionStored(p, 24 + 24 * |ts|, r);
    forall k | 0 <= k < |ts| ensures ts[k] == ReadTile(p, 24 + 24 * k) {
      TilesStored(p, 24, ts, k);
    }
  }

  lemma MapRead(p: Bytes, g: Dims, ts: seq<Tile>)
    requires SizesOk(g) && |ts| == g.Count() && |p| == 104 + 24 * |ts|
    requires Load32(p, 0) == |ts| && Load32(p, 4) == g.width && Load32(p, 8) == g.height
    requires forall k :: 0 <= k < |ts| ==> ts[k] == ReadTile(p, 24 + 24 * k)
    ensures p == MapPayload(g, Load32(p, 12), Load32(p, 16), Load32(p, 20), ts, ReadRegion(p, 24 + 24 * |ts|))
  {
    hide Dims.Count, SizesOk, MapHead, Load32, ReadTile, ReadRegion, TilesBytes, RegionBytes;
    var head := MapHead(|ts|, g, Load32(p, 12), Load32(p, 16), Load32(p, 20));
    var region := RegionBytes(ReadRegion(p, 24 + 24 * |ts|));
    HeadRead(p, g);
    TilesRead(p, 24, ts);
    RegionRead(p, 24 + 24 * |ts|);
    HoldsSplit(p, 0, head, TilesBytes(ts));
    HoldsSplit(p, 0, head + TilesBytes(ts), region);
    assert p[0..|p|] == p;
  }

  /** Section 7: fills the tiles, the region and the counters of a fresh world. */
  method LoadMap(w: Game, p: Bytes) returns (code: u32)
    requires w.Valid() && SizesOk(w.config.dims)
    modifies w`region, w`riverTileCount, w`roadTileCount, w`landTileCount, w.tiles
    ensures w.Valid()
    ensures code == OK ==>
              p == MapPayload(w.config.dims, w.riverTileCount, w.roadTileCount, w.landTileCount, w.tiles[..], w.region)
    ensures forall river: u32, road: u32, land: u32, ts, r
              {:trigger MapPayload(w.config.dims, river, road, land, ts, r)} ::
              |ts| == w.tiles.Length && p == MapPayload(w.config.dims, river, road, land, ts, r) ==>
                && code == OK && w.riverTileCount == river && w.roadTileCount == road && w.landTileCount == land
                && w.tiles[..] == ts && w.region == r
  {
    hide MapPayload, Load32, ReadTile, ReadRegion;
    var g := w.config.dims;
    forall river: u32, road: u32, land: u32, ts, r {:trigger MapPayload(g, river, road, land, ts, r)}
        | |ts| == w.tiles.Length && p == MapPayload(g, river, road, land, ts, r)
      ensures |p| == 104 + 24 * |ts| && Load32(p, 0) == |ts| && Load32(p, 4) == g.width && Load32(p, 8) == g.height
      ensures Load32(p, 12) == river && Load32(p, 16) == road && Load32(p, 20) == land
      ensures forall k :: 0 <= k < |ts| ==> ts[k] == ReadTile(p, 24 + 24 * k)
      ensures ReadRegion(p, 24 + 24 * |ts|) == r
    {
      MapStored(p, g, river, road, land, ts, r);
    }
    if |p| != 104 + w.tiles.Length * 24 {
      return FORMAT;
    }
    if Load32(p, 0) != w.tiles.Length || Load32(p, 4) != g.width || Load32(p, 8) != g.height {
      return FORMAT;
    }
    w.riverTileCount, w.roadTileCount, w.landTileCount := Load32(p, 12), Load32(p, 16), Load32(p, 20);
    var index: nat := 0;
    while index < w.tiles.Length
      invariant index <= w.tiles.Length
      invariant forall k :: 0 <= k < index ==> w.tiles[k] == ReadTile(p, 24 + 24 * k)
      invariant w.Valid() && w.riverTileCount == Load32(p, 12) && w.roadTileCount == Load32(p, 16)
      invariant w.landTileCount == Load32(p, 20)
    {
      w.tiles[index] := ReadTile(p, 24 + 24 * index);
      index := index + 1;
    }
    w.region := ReadRegion(p, 24 + 24 * w.tiles.Length);
    MapRead(p, g, w.tiles[..]);
    code := OK;
  }

  // ----- entities

  lemma {:induction false} EntitiesStored(p: Bytes, at: nat, es: seq<Entity>, k: nat)
    requires NamesFit(es) && k < |es| && Holds(p, at, EntitiesBytes(es))
    ensures NamesFit(es[..k]) && NamesFit(es[..k + 1])
    ensures var q := at + |EntitiesBytes(es[..k])|;
            && q + 40 + |es[k].name| == at + |EntitiesBytes(es[..k + 1])| <= at + |EntitiesBytes(es)| <= |p|
            && Load32(p, q + 36) == |es[k].name| && ReadEntity(p, q) == es[k]
    decreases |es|
  {
    hide EntityBytes, ReadEntity, Load32;
    var n := |es| - 1;
    assert NamesFit(es[..n]);
    HoldsSplit(p, at, EntitiesBytes(es[..n]), EntityBytes(es[n]));
    if k < n {
      EntitiesStored(p, at, es[..n], k);
      assert es[..n][..k] == es[..k] && es[..n][..k + 1] == es[..k + 1];
    } else {
      assert es[..k + 1] == es;
      EntityStored(p, at + |EntitiesBytes(es[..n])|, es[n]);
    }
  }

  /** p is the entity section of a table with valid names. */
  ghost predicate EntityTable(p: Bytes, es: seq<Entity>) {
    |es| == ENTITY_COUNT && NamesFit(es) && NamesPrintable(es) && p == EntityPayload(es)
  }

  lemma TableStored(p: Bytes, es: seq<Entity>)
    requires EntityTable(p, es)
    ensures |p| == 8 + |EntitiesBytes(es)| && Load32(p, 0) == ENTITY_COUNT && Load32(p, 4) == ENTITY_COUNT
    ensures Holds(p, 8, EntitiesBytes(es))
  {
    hide Store32, Load32, EntitiesBytes;
    assert Holds(p, 0, p);
    HoldsSplit(p, 0, Store32(ENTITY_COUNT) + Store32(ENTITY_COUNT), EntitiesBytes(es));
    HoldsSplit(p, 0, Store32(ENTITY_COUNT), Store32(ENTITY_COUNT));
    LoadStored32(p, 0, ENTITY_COUNT);
    LoadStored32(p, 4, ENTITY_COUNT);
  }

  lemma TableRead(p: Bytes, es: seq<Entity>)
    requires |es| == ENTITY_COUNT && NamesFit(es) && NamesPrintable(es) && |p| == 8 + |EntitiesBytes(es)|
    requires Load32(p, 0) == ENTITY_COUNT && Load32(p, 4) == ENTITY_COUNT && Holds(p, 8, EntitiesBytes(es))
    ensures EntityTable(p, es)
  {
    hide Store32, Load32, EntitiesBytes;
    StoreLoaded32(p, 0);
    StoreLoaded32(p, 4);
    HoldsSplit(p, 0, Store32(ENTITY_COUNT), Store32(ENTITY_COUNT));
    HoldsSplit(p, 0, Store32(ENTITY_COUNT) + Store32(ENTITY_COUNT), EntitiesBytes(es));
    assert p[0..|p|] == p;
  }

  /** One more entity read behind those read so far. */
  lemma OneMoreEntity(p: Bytes, es: seq<Entity>, position: nat)
    requires NamesFit(es) && Holds(p, 8, EntitiesBytes(es)) && position == 8 + |EntitiesBytes(es)|
    requires position + 40 <= |p| && Load32(p, position + 36) < MAX_NAME_BYTES
    requires position + 40 + Load32(p, position + 36) <= |p|
    ensures var more := es + [ReadEntity(p, position)];
            && NamesFit(more) && Holds(p, 8, EntitiesBytes(more))
            && position + 40 + Load32(p, position + 36) == 8 + |EntitiesBytes(more)|
  {
    hide EntityBytes, Load32;
    var e := ReadEntity(p, position);
    assert (es + [e])[..|es|] == es;
    EntityRead(p, position);
    HoldsSplit(p, 8, EntitiesBytes(es), EntityBytes(e));
  }

  /** Section 8. */
  method LoadEntities(p: Bytes) returns (code: u32, es: seq<Entity>)
    ensures code == OK ==> EntityTable(p, es)
    ensures forall fs: seq<Entity> :: EntityTable(p, fs) ==> code == OK && es == fs
  {
    hide EntitiesBytes, ReadEntity, Load32, EntityTable, Holds;
    forall fs: seq<Entity> | EntityTable(p, fs)
      ensures |fs| == ENTITY_COUNT && NamesFit(fs) && NamesPrintable(fs)
      ensures |p| == 8 + |EntitiesBytes(fs)| && Load32(p, 0) == ENTITY_COUNT && Load32(p, 4) == ENTITY_COUNT
    {
      TableFacts(p, fs);
      TableStored(p, fs);
    }
    es := [];
    if |p| < 8 {
      return FORMAT, es;
    }
    if Load32(p, 0) != ENTITY_COUNT || Load32(p, 4) != ENTITY_COUNT {
      return FORMAT, es;
    }
    var position: nat := 8;
    NoEntities(p);
    var index: nat := 0;
    while index < ENTITY_COUNT
      invariant index <= ENTITY_COUNT && |es| == index && NamesFit(es) && NamesPrintable(es)
      invariant Holds(p, 8, EntitiesBytes(es)) && position == 8 + |EntitiesBytes(es)| <= |p|
      invariant forall fs: seq<Entity> :: EntityTable(p, fs) ==> es == fs[..index]
    {
      forall fs: seq<Entity> | EntityTable(p, fs)
        ensures position + 40 + |fs[index].name| <= |p| && Load32(p, position + 36) == |fs[index].name|
        ensures ReadEntity(p, position) == fs[index] && fs[..index + 1] == es + [fs[index]]
      {
        TableStored(p, fs);
        EntitiesStored(p, 8, fs, index);
      }
      if |p| - position < 40 {
        return FORMAT, es;
      }
      var nameLength := Load32(p, position + 36);
      if nameLength >= MAX_NAME_BYTES || nameLength > |p| - position - 40 {
        return FORMAT, es;
      }
      NameOfEntity(p, position);
      if !PrintableName(p[position + 40..position + 40 + nameLength]) {
        return FORMAT, es;
      }
      OneMoreEntity(p, es, position);
      es := es + [ReadEntity(p, position)];
      position := position + 40 + nameLength;
      index := index + 1;
    }
    if position != |p| {
      forall fs: seq<Entity> | EntityTable(p, fs) ensures es == fs { assert fs[..index] == fs; }
      return FORMAT, es;
    }
    forall fs: seq<Entity> | EntityTable(p, fs) ensures es == fs { assert fs[..index] == fs; }
    TableRead(p, es);
    code := OK;
  }

  lemma TableFacts(p: Bytes, es: seq<Entity>)
    requires EntityTable(p, es)
    ensures |es| == ENTITY_COUNT && NamesFit(es) && NamesPrintable(es)
  {
  }

  lemma NoEntities(p: Bytes)
    requires |p| >= 8
    ensures Holds(p, 8, EntitiesBytes([])) && |EntitiesBytes([])| == 0
  {
    assert p[8..8] == [];
  }

  lemma NameOfEntity(p: Bytes, at: nat)
    requires at + 40 <= |p| && at + 40 + Load32(p, at + 36) <= |p|
    ensures ReadEntity(p, at).name == p[at + 40..at + 40 + Load32(p, at + 36)]
  {
  }
}
