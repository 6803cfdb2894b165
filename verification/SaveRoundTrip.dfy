/** Saving and loading are inverse on every reachable world the clock still fits. */
module SaveRoundTrip {
  import opened Grid
  import opened World
  import opened Invariants
  import opened Codec
  import opened Hashing
  import opened Decisions
  import opened Step
  import opened Frames
  import opened Wire
  import opened SaveFormat
  import opened SaveWriter
  import opened SaveRead
  import opened SaveLoad
  import opened Generate

  lemma ManifestHolds()
    ensures ManifestOk(ManifestPayload(), 11) && Load16(ManifestPayload(), 2) == 0
  {
    var p := ManifestPayload();
    assert Holds(p, 0, p);
    hide Store16, Store32, Load16, Load32;
    Apart(p, 0);
  }

  lemma VersionsHold(c: Config)
    requires c.generatorVersion == 1 && c.rulesetVersion == 1
    ensures VersionsOk(VersionPayload(c), 0)
  {
    var p := VersionPayload(c);
    assert Holds(p, 0, p);
    hide Store32, Load32;
    Apart(p, 0);
  }

  lemma FramesInOrder(s: State)
    requires Savable(s)
    ensures Ascending(SaveFrames(s, 11)) && Known(SaveFrames(s, 11), SAVE_LAST) && Complete(SaveFrames(s, 11), SAVE_LAST)
  {
    hide Payload, Savable;
    var fs := SaveFrames(s, 11);
    forall tag: u16 | 1 <= tag <= SAVE_LAST ensures HasCritical(fs, tag) {
      assert fs[tag - 1].tag == tag && fs[tag - 1].critical;
    }
  }

  lemma SavedPart(s: State, tag: nat)
    requires Savable(s) && 1 <= tag <= 11
    ensures Table(SaveFrames(s, 11), 11)[tag] == Some(SaveFrame(s, tag))
  {
    hide Payload, Savable, Find, SaveFrame;
    FramesInOrder(s);
    var fs := SaveFrames(s, 11);
    SavedTag(s, tag);
    FindIs(fs, tag);
    assert fs[tag - 1] == SaveFrame(s, tag);
  }

  lemma SavedTag(s: State, tag: nat)
    requires Savable(s) && 1 <= tag <= 11
    ensures SaveFrame(s, tag).tag == tag && SaveFrame(s, tag).payload == Payload(s, tag)
  {
    hide Payload, Savable;
  }

  lemma SavedTable(s: State)
    requires Savable(s)
    ensures AllPresent(Table(SaveFrames(s, 11), 11))
    ensures forall tag :: 1 <= tag <= 11 ==> Part(Table(SaveFrames(s, 11), 11), tag) == Payload(s, tag)
  {
    hide Payload, Savable, Find, SaveFrame, Table;
    var t := Table(SaveFrames(s, 11), 11);
    forall tag | 1 <= tag <= 11 ensures t[tag].Some? && t[tag].value.payload == Payload(s, tag) {
      SavedPart(s, tag);
      SavedTag(s, tag);
    }
  }

  /** The written file is a save file whose frames are the eleven sections. */
  lemma SavedFile(sha: HashFunction, s: State)
    requires Savable(s)
    ensures SaveFile(sha, SaveBytes(sha, s), SaveFrames(s, 11))
  {
    SaveSizeExact(sha, s);
    hide Savable, BodyBytes, SaveFrames, Footer, SaveSize;
    var bytes, body := SaveBytes(sha, s), SaveBody(sha, s);
    assert bytes[..|bytes| - DIGEST] == body && bytes[|bytes| - DIGEST..] == Footer(sha, body);
    assert bytes[..8] == Magic();
    assert BodyOf(bytes) == BodyBytes(sha, SaveFrames(s, 11));
    FramesInOrder(s);
    SmallFile(s);
  }

  lemma SmallFile(s: State)
    requires Savable(s)
    ensures SMALLEST_FILE <= SaveSize(s)
  {
  }

  lemma SavedEncodes(sha: HashFunction, s: State)
    requires Authentic(sha, s)
    ensures Savable(s) && Encodes(sha, Table(SaveFrames(s, 11), 11), 11, s)
  {
    hide Table, WorldOk, ManifestPayload, VersionPayload, ConfigPayload, ContentPayload, SeedPayload, TimePayload,
      MapPayload, EntityPayload, PendingPayload, ReservedPayload, StateHash, ConfigHash, ContentHash, ManifestOk,
      VersionsOk, SaveFrames;
    AuthenticIsSavable(sha, s);
    SavedTable(s);
    ManifestHolds();
    VersionsHold(s.config);
    var t := Table(SaveFrames(s, 11), 11);
    assert Part(t, 1) == Payload(s, 1) && Part(t, 2) == Payload(s, 2) && Part(t, 3) == Payload(s, 3);
    assert Part(t, 4) == Payload(s, 4) && Part(t, 5) == Payload(s, 5) && Part(t, 6) == Payload(s, 6);
    assert Part(t, 7) == Payload(s, 7) && Part(t, 8) == Payload(s, 8) && Part(t, 9) == Payload(s, 9);
    assert Part(t, 10) == Payload(s, 10) && Part(t, 11) == Payload(s, 11);
  }

  /** Within the limits of the context, the save of a world loads, and loads as that world,
      exactly when its clock leaves room for a step. */
  lemma SaveThenLoad(sha: HashFunction, limits: Limits, s: State)
    requires Authentic(sha, s)
    ensures Savable(s)
    ensures Loads(sha, limits, SaveBytes(sha, s), s) <==>
              TickFits(s.tick) && SaveSize(s) <= limits.maxFileBytes && FitsLive(limits, s.config.dims)
  {
    hide Authentic, Savable, Encodes, Table, SaveFrames, SaveBytes, SaveSize, FitsLive, SaveFile, TickFits;
    AuthenticIsSavable(sha, s);
    SaveSizeExact(sha, s);
    SavedFile(sha, s);
    SavedEncodes(sha, s);
    FramesCounted(s);
  }

  lemma FramesCounted(s: State)
    requires Savable(s)
    ensures |SaveFrames(s, 11)| == 11
  {
  }

  lemma PayloadsDetermine(sha: HashFunction, t: Sections, count: nat, a: State, b: State)
    requires Encodes(sha, t, count, a) && Encodes(sha, t, count, b)
    requires a.configHash == ConfigHash(sha, a.config) && b.configHash == ConfigHash(sha, b.config)
    requires |a.content| <= MAX_CONTENT_PACKS && |b.content| <= MAX_CONTENT_PACKS
    requires a.contentHash == ContentHash(sha, a.content) && b.contentHash == ContentHash(sha, b.content)
    ensures a == b
  {
    hide ManifestOk, VersionsOk, ConfigPayload, ContentPayload, SeedPayload, TimePayload, MapPayload, EntityTable,
      PendingPayload, ReservedPayload, ConfigHash, ContentHash, Load16, Load32, Load64, ReadTile, ReadPack, ReadRegion,
      TimeScaleOk, InputsOk, DensitiesPositive;
    IdentityShows(sha, t, count, a.config, a.content, a.seed, a.tick);
    IdentityShows(sha, t, count, b.config, b.content, b.seed, b.tick);
    ConfigStored(Part(t, 3), a.config, a.configHash);
    ConfigStored(Part(t, 3), b.config, b.configHash);
    ContentStored(Part(t, 4), a.content);
    ContentStored(Part(t, 4), b.content);
    BodyShows(t, a);
    BodyShows(t, b);
    MapStored(Part(t, 7), a.config.dims, a.riverTileCount, a.roadTileCount, a.landTileCount, a.tiles, a.region);
    MapStored(Part(t, 7), b.config.dims, b.riverTileCount, b.roadTileCount, b.landTileCount, b.tiles, b.region);
    TablesAlike(Part(t, 8), a.entities, b.entities, ENTITY_COUNT);
  }

  /** An entity section is the table of only one entity list. */
  lemma {:induction false} TablesAlike(p: Bytes, a: seq<Entity>, b: seq<Entity>, n: nat)
    requires EntityTable(p, a) && EntityTable(p, b) && n <= ENTITY_COUNT
    ensures a[..n] == b[..n]
    ensures n == ENTITY_COUNT ==> a == b
    decreases n
  {
    hide EntitiesBytes, ReadEntity, Load32;
    TableStored(p, a);
    TableStored(p, b);
    if n > 0 {
      TablesAlike(p, a, b, n - 1);
      EntitiesStored(p, 8, a, n - 1);
      EntitiesStored(p, 8, b, n - 1);
      assert a[..n] == a[..n - 1] + [a[n - 1]] && b[..n] == b[..n - 1] + [b[n - 1]];
    }
    if n == ENTITY_COUNT {
      assert a[..n] == a && b[..n] == b;
    }
  }

  /** A file is the save of only one world. */
  lemma LoadsOnce(sha: HashFunction, limits: Limits, bytes: Bytes, a: State, b: State)
    requires Loads(sha, limits, bytes, a) && Loads(sha, limits, bytes, b)
    ensures a == b
  {
    hide Encodes, Table, ValidBody, Footer, WorldOk, StateHash, ConfigHash, ContentHash, FitsLive;
    var fs :| SaveFile(sha, bytes, fs) && Acceptable(sha, limits, Table(fs, 11), |fs|, a);
    var gs :| SaveFile(sha, bytes, gs) && Acceptable(sha, limits, Table(gs, 11), |gs|, b);
    OneSplit(sha, bytes, fs);
    PayloadsDetermine(sha, Table(fs, 11), |fs|, a, b);
  }

  /** Whatever a saved world loads as is that world: saving it again gives the same bytes.
      It loads at all exactly while its tick is at most 2^64 - 25. */
  lemma SaveLoadSave(sha: HashFunction, limits: Limits, s: State, t: State)
    requires Authentic(sha, s) && Savable(s) && Loads(sha, limits, SaveBytes(sha, s), t)
    ensures t == s && s.tick <= 0xFFFF_FFFF_FFFF_FFE7
    ensures Savable(t) && SaveBytes(sha, t) == SaveBytes(sha, s)
  {
    hide Authentic, Savable, Encodes, Table, SaveFrames, SaveBytes, SaveSize, FitsLive, ValidBody, Footer, WorldOk;
    var fs :| SaveFile(sha, SaveBytes(sha, s), fs) && Acceptable(sha, limits, Table(fs, 11), |fs|, t);
    SavedFile(sha, s);
    OneSplit(sha, SaveBytes(sha, s), fs);
    assert fs == SaveFrames(s, 11);
    FramesCounted(s);
    SavedEncodes(sha, s);
    AuthenticDigests(sha, s);
    LoadableDigests(sha, t);
    PayloadsDetermine(sha, Table(fs, 11), 11, s, t);
  }

  lemma AuthenticDigests(sha: HashFunction, s: State)
    requires Authentic(sha, s)
    ensures s.configHash == ConfigHash(sha, s.config) && |s.content| <= MAX_CONTENT_PACKS
    ensures s.contentHash == ContentHash(sha, s.content)
  {
  }

  lemma LoadableDigests(sha: HashFunction, s: State)
    requires Loadable(sha, s)
    ensures s.configHash == ConfigHash(sha, s.config) && |s.content| <= MAX_CONTENT_PACKS && TickFits(s.tick)
    ensures s.contentHash == ContentHash(sha, s.content)
  {
  }

  // ----- a loaded world fits the bound its file fits

  /** With every mandatory section there, the first eleven frames are sections 1 to 11. */
  lemma {:induction false} FirstTags(fs: seq<Frame>, k: nat)
    requires Ascending(fs) && Complete(fs, SAVE_LAST) && k <= 11
    ensures k <= |fs| && forall j :: 0 <= j < k ==> fs[j].tag == j + 1
  {
    if k > 0 {
      FirstTags(fs, k - 1);
      AscendingApart(fs);
      assert HasCritical(fs, k);
      assert k == 1 || fs[k - 2].tag == k - 1;
      assert k <= |fs| ==> fs[k - 1].tag >= k;
    }
  }

  /** No section of an accepted file is shorter than the writer's. */
  lemma PartsNoShorter(sha: HashFunction, t: Sections, count: nat, s: State, tag: nat)
    requires Encodes(sha, t, count, s) && Savable(s) && 1 <= tag <= 11
    requires s.configHash == ConfigHash(sha, s.config)
    ensures |Part(t, tag)| >= |Payload(s, tag)|
  {
    hide ConfigPayload, ContentPayload, SeedPayload, TimePayload, MapPayload, EntityPayload, PendingPayload,
      ReservedPayload, ManifestPayload, VersionPayload, Load16, Load32, NamesFit, ConfigHash, PacksOk, ConfigOk,
      State.WellFormed, Dims.Count;
  }

  lemma {:induction false} PrefixNoShorter(sha: HashFunction, fs: seq<Frame>, s: State, k: nat)
    requires AllFit(fs) && Ascending(fs) && Complete(fs, SAVE_LAST) && Savable(s) && k <= 11 && k <= |fs|
    requires AllPresent(Table(fs, 11))
    requires forall tag :: 1 <= tag <= 11 ==> |Part(Table(fs, 11), tag)| >= |Payload(s, tag)|
    ensures AllFit(fs[..k]) && |BodyBytes(sha, fs[..k])| >= FramesSize(s, k)
  {
    hide Payload, Savable, Complete, Ascending, Find, FrameBytes;
    if k > 0 {
      PrefixNoShorter(sha, fs, s, k - 1);
      FirstTags(fs, 11);
      FindIs(fs, k);
      assert fs[..k][..k - 1] == fs[..k - 1];
      assert fs[k - 1].tag == k && Table(fs, 11)[k] == Some(fs[k - 1]);
      FrameLength(sha, fs[k - 1]);
    }
  }

  lemma FrameLength(sha: HashFunction, f: Frame)
    requires f.Fits()
    ensures |FrameBytes(sha, f)| == FRAME_OVERHEAD + |f.payload|
  {
    hide HeaderBytes;
  }

  /** A world that loads saves into no more bytes than it was loaded from. */
  lemma LoadedFits(sha: HashFunction, limits: Limits, bytes: Bytes, s: State)
    requires Loads(sha, limits, bytes, s)
    ensures Savable(s) && SaveSize(s) <= |bytes| <= limits.maxFileBytes && FitsLive(limits, s.config.dims)
  {
    hide Encodes, Table, Footer, WorldOk, StateHash, ConfigHash, ContentHash, FitsLive, Authentic, Savable, Payload,
      SaveSize, BodyBytes, Complete, Ascending, Known;
    var fs :| SaveFile(sha, bytes, fs) && Acceptable(sha, limits, Table(fs, 11), |fs|, s);
    AuthenticIsSavable(sha, s);
    AuthenticDigests(sha, s);
    OneSplit(sha, bytes, fs);
    forall tag | 1 <= tag <= 11 ensures |Part(Table(fs, 11), tag)| >= |Payload(s, tag)| {
      PartsNoShorter(sha, Table(fs, 11), |fs|, s, tag);
    }
    FirstTags(fs, 11);
    PrefixNoShorter(sha, fs, s, 11);
    BodyPrefix(sha, fs[..11], fs);
    SizeOfFrames(s);
  }

  lemma SizeOfFrames(s: State)
    requires Savable(s)
    ensures SaveSize(s) == 8 + FramesSize(s, 11) + DIGEST
  {
    SizesAdd(s);
  }

  // ----- reachable worlds are authentic

  /** Generation establishes it: the hypotheses are what Generate.GenerateWorld ensures. */
  lemma GeneratedIsAuthentic(sha: HashFunction, s: State)
    requires InputsOk(s.config, s.content) && DensitiesPositive(s.config)
    requires FreshWorld(sha, s.config, s.seed, s.content, s)
    ensures Authentic(sha, s)
  {
    hide WorldOk, StateHash, ConfigHash, ContentHash;
  }

  lemma LoadedIsAuthentic(sha: HashFunction, limits: Limits, bytes: Bytes, s: State)
    requires Loads(sha, limits, bytes, s)
    ensures Authentic(sha, s) && TickFits(s.tick)
  {
    hide Authentic, Encodes, SaveFile;
  }

  /** Worlds one can get at: generated ones, loaded ones, and what steps make of them. */
  datatype Origin = Generated(world: State) | Loaded(limits: Limits, bytes: Bytes, world: State) | After(before: Origin)

  ghost predicate Reaches(sha: HashFunction, o: Origin, s: State)
    decreases o
  {
    match o
    case Generated(g) =>
      && s == g && InputsOk(s.config, s.content) && DensitiesPositive(s.config)
      && FreshWorld(sha, s.config, s.seed, s.content, s)
    case Loaded(limits, bytes, g) => s == g && Loads(sha, limits, bytes, s)
    case After(before) =>
      exists r :: Reaches(sha, before, r) && r.WellFormed() && NamesFit(r.entities) && TickFits(r.tick) && s == Stepped(sha, r)
  }

  /** Every reachable world is authentic, so its save loads back as itself while the clock
      leaves room. */
  lemma {:induction false} ReachableIsAuthentic(sha: HashFunction, o: Origin, s: State)
    requires Reaches(sha, o, s)
    ensures Authentic(sha, s)
    decreases o
  {
    hide Authentic, WorldOk, StateHash, ConfigHash, ContentHash, Loads, InputsOk, DensitiesPositive, NamesPrintable,
      FreshWorld;
    match o
    case Generated(_) => GeneratedIsAuthentic(sha, s);
    case Loaded(limits, bytes, _) => LoadedIsAuthentic(sha, limits, bytes, s);
    case After(before) =>
      var r :| Reaches(sha, before, r) && r.WellFormed() && NamesFit(r.entities) && TickFits(r.tick) && s == Stepped(sha, r);
      ReachableIsAuthentic(sha, before, r);
      SteppedIsAuthentic(sha, r);
  }

  // ----- cloning

  /** fd_world_clone_via_save: an equal world of its own, exactly when the save of the source
      loads. */
  method CloneViaSave(w: Game, limits: Limits, sha: HashFunction) returns (code: u32, clone: Game?)
    requires w.Valid() && Authentic(sha, w.Value())
    ensures code == OK <==> clone != null
    ensures clone != null <==>
              && TickFits(w.tick) && Savable(w.Value()) && SaveSize(w.Value()) <= limits.maxFileBytes
              && FitsLive(limits, w.config.dims)
    ensures clone != null ==> fresh(clone) && fresh(clone.tiles) && clone.Valid() && clone.Value() == w.Value()
  {
    hide Authentic, Savable, Loads, SaveBytes, SaveSize, FitsLive, TickFits;
    ghost var s := w.Value();
    AuthenticIsSavable(sha, s);
    SaveSizeExact(sha, s);
    SaveThenLoad(sha, limits, s);
    clone := null;
    var size := SaveSizeOf(w);
    if size > limits.maxFileBytes {
      return CAPACITY, null;
    }
    var bytes := new u8[size](_ => 0);
    var written;
    code, written := WorldSave(w, bytes, 0, size, limits, sha);
    if code == OK {
      assert bytes[0..written] == SaveBytes(sha, s);
      code, clone := WorldLoad(bytes[0..written], limits, sha);
      if clone != null {
        assert w.Value() == s;
        LoadedIsSource(sha, limits, s, clone.Value());
      }
    }
  }

  lemma LoadedIsSource(sha: HashFunction, limits: Limits, s: State, t: State)
    requires Authentic(sha, s) && Savable(s) && Loads(sha, limits, SaveBytes(sha, s), t)
    ensures t == s
  {
    SaveLoadSave(sha, limits, s, t);
  }
}
