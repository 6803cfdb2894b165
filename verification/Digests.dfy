/** The state digest: the streaming computation hashes the canonical bytes, and those bytes
    identify a world. */
module Digests {
  import opened Grid
  import opened World
  import opened Invariants
  import opened Codec
  import opened Hashing
  import opened Wire
  import opened SaveFormat
  import opened SaveRead
  import Sha256

  // ----- the canonical bytes identify what they encode

  lemma DomainLengths()
    ensures |Domain(STATE_DOMAIN)| == 32 && |Domain(CONFIG_DOMAIN)| == 33 && |Domain(CONTENT_DOMAIN)| == 34
  {
  }

  lemma ConfigShows(c: Config)
    requires c.dims.Valid()
    ensures var b := ConfigBytes(c);
            && |b| == 73 && Load32(b, 33) == c.dims.width && Load32(b, 37) == c.dims.height && Load32(b, 41) == c.attemptBudget
            && Load32(b, 45) == c.generatorVersion && Load32(b, 49) == c.rulesetVersion && Load32(b, 53) == c.forestPpm
            && Load32(b, 57) == c.hillPpm && Load32(b, 61) == c.wetlandPpm && Load32(b, 65) == c.referenceMode
  {
    hide Store32, Load32, Domain;
    DomainLengths();
    SmallDims(c.dims);
    var b := ConfigBytes(c);
    assert Holds(b, 0, b);
    Apart(b, 0);
  }

  lemma ConfigBytesInjective(a: Config, b: Config)
    requires a.dims.Valid() && b.dims.Valid() && ConfigBytes(a) == ConfigBytes(b)
    ensures a == b
  {
    hide ConfigBytes, Load32;
    ConfigShows(a);
    ConfigShows(b);
  }

  lemma {:induction false} PacksAlike(b: Bytes, at: nat, ps: seq<Pack>, qs: seq<Pack>)
    requires |ps| == |qs| && Holds(b, at, PackBytes(ps)) && Holds(b, at, PackBytes(qs))
    ensures ps == qs
  {
    hide PackBytes, Holds, ReadPack;
    forall k: nat | k < |ps| ensures ps[k] == qs[k] {
      PacksStored(b, at, ps, k);
      PacksStored(b, at, qs, k);
    }
  }

  lemma {:induction false} TilesAlike(b: Bytes, at: nat, ts: seq<Tile>, us: seq<Tile>)
    requires |ts| == |us| && Holds(b, at, TilesBytes(ts)) && Holds(b, at, TilesBytes(us))
    ensures ts == us
  {
    hide TilesBytes, Holds, ReadTile;
    forall k: nat | k < |ts| ensures ts[k] == us[k] {
      TilesStored(b, at, ts, k);
      TilesStored(b, at, us, k);
    }
  }

  /** Names differ in length, so each entity is found only behind the ones before it. */
  lemma {:induction false} EntitiesAlike(b: Bytes, at: nat, es: seq<Entity>, fs: seq<Entity>, k: nat)
    requires |es| == |fs| && NamesFit(es) && NamesFit(fs) && k <= |es|
    requires Holds(b, at, EntitiesBytes(es)) && Holds(b, at, EntitiesBytes(fs))
    ensures es[..k] == fs[..k]
  {
    hide EntitiesBytes, Holds, ReadEntity, Load32;
    if k > 0 {
      EntitiesAlike(b, at, es, fs, k - 1);
      EntitiesStored(b, at, es, k - 1);
      EntitiesStored(b, at, fs, k - 1);
      assert es[..k] == es[..k - 1] + [es[k - 1]] && fs[..k] == fs[..k - 1] + [fs[k - 1]];
    }
  }

  lemma HeadShows(s: State)
    requires s.WellFormed()
    ensures var b, c := StateHead(s), s.config;
            && |b| == 92 && Load32(b, 32) == c.generatorVersion && Load32(b, 36) == c.rulesetVersion
            && Load32(b, 44) == c.dims.width && Load32(b, 48) == c.dims.height && Load32(b, 52) == c.attemptBudget
            && Load32(b, 56) == c.forestPpm && Load32(b, 60) == c.hillPpm && Load32(b, 64) == c.wetlandPpm
            && Load32(b, 68) == c.referenceMode && b[72..88] == s.seed && Load32(b, 88) == |s.content|
  {
    hide Store32, Load32, Domain;
    DomainLengths();
    SmallDims(s.config.dims);
    var b := StateHead(s);
    assert Holds(b, 0, b);
    Apart(b, 0);
    assert Holds(b, 72, s.seed);
  }

  /** Equal heads come from equal settings, seed and content count. */
  lemma HeadsAlike(s: State, t: State)
    requires s.WellFormed() && t.WellFormed() && StateHead(s) == StateHead(t)
    ensures s.config == t.config && s.seed == t.seed && |s.content| == |t.content|
  {
    hide StateHead, Load32;
    HeadShows(s);
    HeadShows(t);
  }

  function TickPlace(s: State): nat { 92 + 40 * |s.content| }

  function EntityPlace(s: State): nat { TickPlace(s) + 16 + 24 * |s.tiles| }

  /** Where each part of a state stands in its canonical bytes. */
  lemma StateShows(s: State)
    requires s.WellFormed() && NamesFit(s.entities)
    ensures var b := StateBytes(s);
            && |b| >= EntityPlace(s) && b[..92] == StateHead(s) && Holds(b, 92, PackBytes(s.content))
            && Load64(b, TickPlace(s)) == s.tick && Load32(b, TickPlace(s) + 8) == |s.tiles|
            && Holds(b, TickPlace(s) + 12, TilesBytes(s.tiles))
            && Holds(b, EntityPlace(s), EntitiesBytes(s.entities))
            && Holds(b, EntityPlace(s) + |EntitiesBytes(s.entities)|, RegionBytes(s.region))
  {
    hide Store32, Store64, Load32, Load64, StateHead, PackBytes, TilesBytes, EntitiesBytes, RegionBytes;
    HeadShows(s);
    PackBytesLength(s.content);
    var b := StateBytes(s);
    assert Holds(b, 0, b);
    Apart(b, 0);
  }

  /** Equal canonical bytes come only from states equal in every hashed part. */
  lemma StateBytesInjective(s: State, t: State)
    requires s.WellFormed() && NamesFit(s.entities) && t.WellFormed() && NamesFit(t.entities)
    requires StateBytes(s) == StateBytes(t)
    ensures s.config == t.config && s.seed == t.seed && s.content == t.content && s.tick == t.tick
    ensures s.tiles == t.tiles && s.entities == t.entities && s.region == t.region
  {
    hide StateBytes, StateHead, Load32, Load64, Holds, PackBytes, TilesBytes, EntitiesBytes, RegionBytes, ReadRegion;
    var b := StateBytes(s);
    StateShows(s);
    StateShows(t);
    HeadsAlike(s, t);
    PacksAlike(b, 92, s.content, t.content);
    TilesAlike(b, TickPlace(s) + 12, s.tiles, t.tiles);
    EntitiesAlike(b, EntityPlace(s), s.entities, t.entities, ENTITY_COUNT);
    assert s.entities[..ENTITY_COUNT] == s.entities && t.entities[..ENTITY_COUNT] == t.entities;
    RegionStored(b, EntityPlace(s) + |EntitiesBytes(s.entities)|, s.region);
    RegionStored(b, EntityPlace(s) + |EntitiesBytes(s.entities)|, t.region);
  }

  /** The counters that are not hashed are determined by the tiles, so the canonical bytes
      identify an authentic world completely. */
  lemma BytesIdentifyWorld(sha: HashFunction, s: State, t: State)
    requires Authentic(sha, s) && Authentic(sha, t) && StateBytes(s) == StateBytes(t)
    ensures s == t
  {
    hide StateBytes, ConfigBytes, TilesOk, CoastOk, CoverageOk, RoadOk, RiverPath, SettlementsOk, OwnershipOk,
      OverlaySet, LandSet;
    StateBytesInjective(s, t);
  }

  // ----- the streaming computations

  type Context = Sha256.Context

  /** fd_hash_u32 */
  method HashU32(sha: Context, v: u32)
    requires sha.Valid()
    modifies sha, sha.state, sha.block
    ensures sha.Valid() && sha.fed == old(sha.fed) + Store32(v)
  {
    hide Sha256.Context.Valid, Store32;
    sha.Update(Store32(v));
  }

  method HashU64(sha: Context, v: u64)
    requires sha.Valid()
    modifies sha, sha.state, sha.block
    ensures sha.Valid() && sha.fed == old(sha.fed) + Store64(v)
  {
    hide Sha256.Context.Valid, Store64;
    sha.Update(Store64(v));
  }

  method StartDomain(domain: string) returns (sha: Context)
    requires |domain| < 100 && forall i :: 0 <= i < |domain| ==> domain[i] < 128 as char
    ensures fresh(sha) && fresh(sha.state) && fresh(sha.block) && sha.Valid() && sha.fed == Domain(domain)
  {
    hide Sha256.Context.Valid, Sha256.Context.Holding, Store32, Text, Sha256.Hash;
    sha := new Sha256.Context();
    HashU32(sha, |domain|);
    sha.Update(Text(domain));
  }

  method HashPacks(sha: Context, packs: seq<Pack>)
    requires sha.Valid()
    modifies sha, sha.state, sha.block
    ensures sha.Valid() && sha.fed == old(sha.fed) + PackBytes(packs)
  {
    hide Sha256.Context.Valid, Store64;
    ghost var front := sha.fed;
    var index: nat := 0;
    while index < |packs|
      invariant index <= |packs| && sha.Valid() && sha.fed == front + PackBytes(packs[..index])
    {
      HashU64(sha, packs[index].stableId);
      sha.Update(packs[index].sha);
      assert packs[..index + 1][..index] == packs[..index];
      index := index + 1;
    }
    assert packs[..index] == packs;
  }

  method HashTiles(sha: Context, tiles: array<Tile>)
    requires sha.Valid() && tiles as object !in {sha.state as object, sha.block as object}
    modifies sha, sha.state, sha.block
    ensures sha.Valid() && sha.fed == old(sha.fed) + TilesBytes(tiles[..])
  {
    hide Sha256.Context.Valid, Store32, Store64, OverlayWord, Unsigned, TileBytes;
    ghost var front := sha.fed;
    ghost var ts := tiles[..];
    var index: nat := 0;
    while index < tiles.Length
      invariant index <= tiles.Length && sha.Valid() && tiles[..] == ts && sha.fed == front + TilesBytes(ts[..index])
    {
      HashTile(sha, tiles[index]);
      assert ts[..index + 1][..index] == ts[..index];
      index := index + 1;
    }
    assert ts[..index] == ts;
  }

  method HashTile(sha: Context, t: Tile)
    requires sha.Valid()
    modifies sha, sha.state, sha.block
    ensures sha.Valid() && sha.fed == old(sha.fed) + TileBytes(t)
  {
    hide Sha256.Context.Valid, Store32, Store64, OverlayWord, Unsigned;
    HashU32(sha, t.terrain);
    HashU32(sha, OverlayWord(t.overlays));
    HashU32(sha, Unsigned(t.elevation));
    HashU32(sha, t.rainfall);
    HashU64(sha, t.settlement);
  }

  method HashEntity(sha: Context, e: Entity)
    requires sha.Valid() && |e.name| < MAX_NAME_BYTES
    modifies sha, sha.state, sha.block
    ensures sha.Valid() && sha.fed == old(sha.fed) + EntityBytes(e)
  {
    hide Sha256.Context.Valid, Store32, Store64;
    HashU64(sha, e.id);
    HashU32(sha, e.kind);
    HashU32(sha, e.x);
    HashU32(sha, e.y);
    HashU64(sha, e.regionId);
    HashU64(sha, e.ownerId);
    HashU32(sha, |e.name|);
    sha.Update(e.name);
  }

  method HashEntities(sha: Context, es: seq<Entity>)
    requires sha.Valid() && NamesFit(es)
    modifies sha, sha.state, sha.block
    ensures sha.Valid() && sha.fed == old(sha.fed) + EntitiesBytes(es)
  {
    hide Sha256.Context.Valid, EntityBytes;
    ghost var front := sha.fed;
    var index: nat := 0;
    while index < |es|
      invariant index <= |es| && sha.Valid() && sha.fed == front + EntitiesBytes(es[..index])
    {
      HashEntity(sha, es[index]);
      assert es[..index + 1][..index] == es[..index];
      index := index + 1;
    }
    assert es[..index] == es;
  }

  method HashRegion(sha: Context, r: Region)
    requires sha.Valid()
    modifies sha, sha.state, sha.block
    ensures sha.Valid() && sha.fed == old(sha.fed) + RegionBytes(r)
  {
    hide Sha256.Context.Valid, Store32, Store64;
    HashU64(sha, r.id);
    HashU64(sha, r.politicalOwnerId);
    HashU64(sha, r.settlement0);
    HashU64(sha, r.settlement1);
    HashU64(sha, r.foreign0);
    HashU64(sha, r.foreign1);
    HashU64(sha, r.outletTileId);
    HashU64(sha, r.roadStartTileId);
    HashU64(sha, r.roadEndTileId);
    HashU32(sha, r.riverTileCount);
    HashU32(sha, r.roadTileCount);
  }

  method HashHead(w: Game) returns (sha: Context)
    requires w.Valid()
    ensures fresh(sha) && fresh(sha.state) && fresh(sha.block) && sha.Valid() && sha.fed == StateHead(w.Value())
  {
    hide Sha256.Context.Valid, Store32, Domain;
    var c := w.config;
    SmallDims(c.dims);
    sha := StartDomain(STATE_DOMAIN);
    HashU32(sha, c.generatorVersion);
    HashU32(sha, c.rulesetVersion);
    HashU32(sha, 1);
    HashU32(sha, c.dims.width);
    HashU32(sha, c.dims.height);
    HashU32(sha, c.attemptBudget);
    HashU32(sha, c.forestPpm);
    HashU32(sha, c.hillPpm);
    HashU32(sha, c.wetlandPpm);
    HashU32(sha, c.referenceMode);
    sha.Update(w.seed);
    HashU32(sha, |w.content|);
  }

  /** fd_world_compute_hash: the digest recorded is that of the canonical bytes. */
  method ComputeHash(w: Game)
    requires w.Valid() && NamesFit(w.entities)
    modifies w`stateHash
    ensures w.Valid() && w.stateHash == StateHash(Sha256.Hash, w.Value())
    ensures w.Value() == old(w.Value()).(stateHash := w.stateHash)
  {
    hide Sha256.Context.Valid, Store32, Store64, StateHead, PackBytes, TilesBytes, EntitiesBytes, RegionBytes,
      Sha256.Hash;
    ghost var s := w.Value();
    var sha := HashHead(w);
    HashPacks(sha, w.content);
    HashU64(sha, w.tick);
    HashU32(sha, w.tiles.Length);
    HashTiles(sha, w.tiles);
    HashU32(sha, ENTITY_COUNT);
    HashEntities(sha, w.entities);
    HashRegion(sha, w.region);
    assert sha.fed == StateBytes(s);
    var digest := sha.Final();
    w.stateHash := digest;
    StateHashIgnoresRecord(Sha256.Hash, s, digest);
    assert w.Value() == s.(stateHash := digest);
  }

  /** fd_hash_content_internal */
  method HashContent(packs: seq<Pack>) returns (digest: Digest)
    requires |packs| <= MAX_CONTENT_PACKS
    ensures digest == ContentHash(Sha256.Hash, packs)
  {
    hide Sha256.Context.Valid, Store32, PackBytes, Sha256.Hash, Domain;
    var sha := StartDomain(CONTENT_DOMAIN);
    HashU32(sha, |packs|);
    HashPacks(sha, packs);
    digest := sha.Final();
  }

  function Words(front: Bytes, vs: seq<u32>): Bytes {
    if vs == [] then front else Words(front, vs[..|vs| - 1]) + Store32(vs[|vs| - 1])
  }

  function ConfigValues(c: Config): (vs: seq<u32>)
    requires c.dims.Valid()
    ensures |vs| == 10
  {
    SmallDims(c.dims);
    [c.dims.width, c.dims.height, c.attemptBudget, c.generatorVersion, c.rulesetVersion,
     c.forestPpm, c.hillPpm, c.wetlandPpm, c.referenceMode, 1]
  }

  lemma ValuesAreConfig(c: Config)
    requires c.dims.Valid()
    ensures Words(Domain(CONFIG_DOMAIN), ConfigValues(c)) == ConfigBytes(c)
  {
    hide Store32, Domain;
    var vs, d := ConfigValues(c), Domain(CONFIG_DOMAIN);
    WordsStep(d, vs, 0);
    WordsStep(d, vs, 1);
    WordsStep(d, vs, 2);
    WordsStep(d, vs, 3);
    WordsStep(d, vs, 4);
    WordsStep(d, vs, 5);
    WordsStep(d, vs, 6);
    WordsStep(d, vs, 7);
    WordsStep(d, vs, 8);
    WordsStep(d, vs, 9);
    assert vs[..10] == vs && Words(d, vs[..0]) == d;
  }

  lemma WordsStep(front: Bytes, vs: seq<u32>, k: nat)
    requires k < |vs|
    ensures Words(front, vs[..k + 1]) == Words(front, vs[..k]) + Store32(vs[k])
  {
    assert vs[..k + 1][..k] == vs[..k];
  }

  /** fd_hash_config_internal */
  method HashConfig(c: Config) returns (digest: Digest)
    requires c.dims.Valid()
    ensures digest == ConfigHash(Sha256.Hash, c)
  {
    hide Sha256.Context.Valid, Store32, Sha256.Hash, Domain, ConfigBytes, ConfigValues;
    var values := ConfigValues(c);
    var sha := StartDomain(CONFIG_DOMAIN);
    var index: nat := 0;
    while index < 10
      invariant index <= 10 && fresh(sha) && fresh(sha.state) && fresh(sha.block) && sha.Valid()
      invariant sha.fed == Words(Domain(CONFIG_DOMAIN), values[..index])
    {
      HashU32(sha, values[index]);
      assert values[..index + 1][..index] == values[..index];
      index := index + 1;
    }
    assert values[..index] == values;
    ValuesAreConfig(c);
    digest := sha.Final();
  }
}
