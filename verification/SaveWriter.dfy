/** Writing the save: a cursor over a caller's buffer, one method per section. */
module SaveWriter {
  import opened Grid
  import opened World
  import opened Codec
  import opened Hashing
  import opened Decisions
  import opened Frames
  import opened Step
  import opened SaveFormat

  /** fd_writer_internal, writing from base on.  front is everything before the payload being
      written, part the payload so far, before the buffer as it was. */
  class Writer {
    const bytes: array<u8>
    const base: nat
    var position: nat
    ghost var front: Bytes
    ghost var part: Bytes
    ghost const before: Bytes

    ghost predicate Valid()
      reads this, bytes
    {
      && position == base + |front| + |part| <= bytes.Length == |before|
      && bytes[base..position] == front + part
      && bytes[..base] == before[..base] && bytes[position..] == before[position..]
    }

    constructor (bytes: array<u8>, base: nat)
      requires base <= bytes.Length
      ensures Valid() && this.bytes == bytes && this.base == base && front == [] && part == [] && before == bytes[..]
    {
      this.bytes, this.base, this.position, this.front, this.part, this.before := bytes, base, base, [], [], bytes[..];
    }

    /** fd_write_bytes and its word-sized variants. */
    method Put(b: Bytes)
      requires Valid() && base + |front| + |part| + |b| <= bytes.Length
      modifies this`position, this`part, bytes
      ensures Valid() && part == old(part) + b
    {
      ghost var was := bytes[base..position];
      forall i | 0 <= i < |b| {
        bytes[position + i] := b[i];
      }
      assert bytes[base..position] == was && bytes[position..position + |b|] == b;
      assert bytes[base..position + |b|] == bytes[base..position] + bytes[position..position + |b|];
      position := position + |b|;
      part := part + b;
    }

    /** What is written so far becomes the front of the next payload. */
    ghost method Settle()
      requires Valid()
      modifies this`front, this`part
      ensures Valid() && front == old(front) + old(part) && part == []
    {
      front, part := front + part, [];
    }

    /** fd_begin_section */
    method BeginSection(tag: u16, length: u64) returns (payload: nat)
      requires Valid() && part == [] && base + |front| + HEADER <= bytes.Length
      modifies this`position, this`front, this`part, bytes
      ensures Valid() && part == [] && front == old(front) + HeaderBytes(tag, true, length)
      ensures payload == base + |front|
    {
      hide Valid, Store16, Store32, Store64;
      Put(Store16(tag));
      assert part == Store16(tag);
      Put(Store16(1));
      Put(Store32(0));
      Put(Store64(length));
      assert part == HeaderBytes(tag, true, length);
      Settle();
      payload := position;
      assert position == base + |front| by { Cursor(); }
    }

    lemma Cursor()
      requires Valid()
      ensures position == base + |front| + |part|
    {
    }

    lemma PayloadSlice()
      requires Valid()
      ensures base + |front| + |part| <= bytes.Length
      ensures bytes[base + |front|..base + |front| + |part|] == part
    {
      var whole := bytes[base..position];
      assert whole[|front|..] == part;
      assert bytes[base + |front|..position] == whole[|front|..];
    }

    /** fd_end_section: the frame of the payload just written is complete. */
    method EndSection(payload: nat, length: u64, sha: HashFunction, ghost start: Bytes, ghost tag: u16)
      requires Valid() && payload == base + |front| && length == |part| && |part| < FILE_LIMIT
      requires front == start + HeaderBytes(tag, true, |part|) && base + |front| + |part| + DIGEST <= bytes.Length
      modifies this`position, this`front, this`part, bytes
      ensures Valid() && part == [] && front == start + FrameBytes(sha, Frame(tag, true, old(part)))
    {
      hide Valid, HeaderBytes;
      PayloadSlice();
      var digest := sha(bytes[payload..payload + length]);
      Put(digest);
      ghost var f := Frame(tag, true, old(part));
      assert front + part == start + FrameBytes(sha, f);
      Settle();
    }
  }

  // ----- the sections

  /** The frames so far, written behind the magic. */
  ghost predicate Wrote(writer: Writer, sha: HashFunction, s: State, n: nat)
    requires Savable(s) && n <= 11
    reads writer, writer.bytes
  {
    && writer.Valid() && writer.part == []
    && writer.front == Magic() + BodyBytes(sha, SaveFrames(s, n))
    && writer.base + SaveSize(s) <= writer.bytes.Length
  }

  /** Room left for the sections still to come. */
  lemma Room(writer: Writer, sha: HashFunction, s: State, n: nat)
    requires Savable(s) && n < 11 && Wrote(writer, sha, s, n)
    ensures writer.base + |writer.front| + FRAME_OVERHEAD + |Payload(s, n + 1)| <= writer.bytes.Length
  {
    hide Writer.Valid, Payload, FrameBytes, SaveSize;
    FramesLength(sha, s, n);
    FramesMonotone(s, n + 1, 11);
    SaveSizeExact(sha, s);
    FramesLength(sha, s, 11);
    assert FramesSize(s, n + 1) == FramesSize(s, n) + FRAME_OVERHEAD + |Payload(s, n + 1)|;
  }

  lemma {:induction false} FramesMonotone(s: State, m: nat, n: nat)
    requires Savable(s) && m <= n <= 11
    ensures FramesSize(s, m) <= FramesSize(s, n)
  {
    hide Payload;
    if m < n { FramesMonotone(s, m, n - 1); }
  }

  lemma NextSection(writer: Writer, sha: HashFunction, s: State, n: nat)
    requires Savable(s) && n < 11 && writer.Valid() && writer.part == []
    requires writer.front == Magic() + BodyBytes(sha, SaveFrames(s, n)) + FrameBytes(sha, SaveFrame(s, n + 1))
    requires writer.base + SaveSize(s) <= writer.bytes.Length
    ensures Wrote(writer, sha, s, n + 1)
  {
    hide Writer.Valid, FrameBytes, SaveFrame, SaveSize;
    assert SaveFrames(s, n + 1)[..n] == SaveFrames(s, n);
    assert Magic() + BodyBytes(sha, SaveFrames(s, n + 1))
        == Magic() + BodyBytes(sha, SaveFrames(s, n)) + FrameBytes(sha, SaveFrame(s, n + 1));
  }

  method BeginNext(writer: Writer, ghost sha: HashFunction, ghost s: State, tag: nat,
                   length: u64) returns (payload: nat)
    requires Savable(s) && 1 <= tag <= 11 && Wrote(writer, sha, s, tag - 1) && length == |Payload(s, tag)|
    modifies writer`position, writer`front, writer`part, writer.bytes
    ensures writer.Valid() && writer.part == [] && payload == writer.base + |writer.front|
    ensures writer.front == old(writer.front) + HeaderBytes(tag, true, length)
    ensures writer.base + |writer.front| + |Payload(s, tag)| + DIGEST <= writer.bytes.Length
  {
    hide Writer.Valid, Payload, SaveSize;
    Room(writer, sha, s, tag - 1);
    payload := writer.BeginSection(tag, length);
  }

  method EndNext(writer: Writer, sha: HashFunction, ghost s: State, ghost tag: nat, payload: nat, length: u64,
                 ghost start: Bytes)
    requires Savable(s) && 1 <= tag <= 11 && writer.Valid() && writer.part == Payload(s, tag) && length == |writer.part|
    requires start == Magic() + BodyBytes(sha, SaveFrames(s, tag - 1))
    requires writer.front == start + HeaderBytes(tag, true, length) && payload == writer.base + |writer.front|
    requires writer.base + |writer.front| + |writer.part| + DIGEST <= writer.bytes.Length
    requires writer.base + SaveSize(s) <= writer.bytes.Length
    modifies writer`position, writer`front, writer`part, writer.bytes
    ensures Wrote(writer, sha, s, tag)
  {
    hide Writer.Valid, Payload, HeaderBytes, FrameBytes, SaveSize, BodyBytes;
    PayloadFits(s, tag);
    writer.EndSection(payload, length, sha, start, tag);
    assert SaveFrame(s, tag) == Frame(tag, true, Payload(s, tag));
    NextSection(writer, sha, s, tag - 1);
  }

  method PutManifest(writer: Writer, sha: HashFunction, ghost s: State)
    requires Savable(s) && Wrote(writer, sha, s, 0)
    modifies writer`position, writer`front, writer`part, writer.bytes
    ensures Wrote(writer, sha, s, 1)
  {
    hide Writer.Valid, Store16, Store32, HeaderBytes, SaveSize, BodyBytes, Savable, SaveFrames;
    ghost var start := writer.front;
    var payload := BeginNext(writer, sha, s, 1, 16);
    writer.Put(Store16(1));
    assert writer.part == Store16(1);
    writer.Put(Store16(0));
    writer.Put(Store16(1));
    writer.Put(Store16(0));
    writer.Put(Store32(11));
    writer.Put(Store32(0));
    EndNext(writer, sha, s, 1, payload, 16, start);
  }

  /** The save, replay and registry versions. */
  method PutFormatVersions(writer: Writer)
    requires writer.Valid() && writer.base + |writer.front| + |writer.part| + 20 <= writer.bytes.Length
    modifies writer`position, writer`part, writer.bytes
    ensures writer.Valid()
    ensures writer.part == old(writer.part) + Store32(1) + Store32(0) + Store32(1) + Store32(0) + Store32(1)
  {
    hide Writer.Valid, Store32;
    writer.Put(Store32(1));
    writer.Put(Store32(0));
    writer.Put(Store32(1));
    writer.Put(Store32(0));
    writer.Put(Store32(1));
  }

  method PutVersions(writer: Writer, w: Game, sha: HashFunction, ghost s: State)
    requires w.Valid() && s == w.Value() && Savable(s) && Wrote(writer, sha, s, 1)
    modifies writer`position, writer`front, writer`part, writer.bytes
    ensures Wrote(writer, sha, s, 2)
  {
    hide Writer.Valid, Store16, Store32, Store64, HeaderBytes, SaveSize, BodyBytes, Savable, SaveFrames;
    ghost var start := writer.front;
    var payload := BeginNext(writer, sha, s, 2, 40);
    writer.Put(Store32(0));
    assert writer.part == Store32(0);
    writer.Put(Store32(1));
    writer.Put(Store32(0));
    writer.Put(Store32(w.config.generatorVersion));
    writer.Put(Store32(w.config.rulesetVersion));
    PutFormatVersions(writer);
    EndNext(writer, sha, s, 2, payload, 40, start);
  }

  method PutSettings(writer: Writer, c: Config)
    requires writer.Valid() && writer.part == []
    requires c.dims.width <= NONE32 && c.dims.height <= NONE32
    requires writer.base + |writer.front| + 36 <= writer.bytes.Length
    modifies writer`position, writer`part, writer.bytes
    ensures writer.Valid() && writer.front == old(writer.front)
    ensures writer.part == Store32(c.dims.width) + Store32(c.dims.height) + Store32(c.attemptBudget)
                           + Store32(c.generatorVersion) + Store32(c.rulesetVersion) + Store32(c.forestPpm)
                           + Store32(c.hillPpm) + Store32(c.wetlandPpm) + Store32(c.referenceMode)
  {
    hide Writer.Valid, Store32;
    writer.Put(Store32(c.dims.width));
    assert writer.part == Store32(c.dims.width);
    writer.Put(Store32(c.dims.height));
    writer.Put(Store32(c.attemptBudget));
    writer.Put(Store32(c.generatorVersion));
    writer.Put(Store32(c.rulesetVersion));
    writer.Put(Store32(c.forestPpm));
    writer.Put(Store32(c.hillPpm));
    writer.Put(Store32(c.wetlandPpm));
    writer.Put(Store32(c.referenceMode));
  }

  method PutConfig(writer: Writer, w: Game, sha: HashFunction, ghost s: State)
    requires w.Valid() && s == w.Value() && Savable(s) && Wrote(writer, sha, s, 2)
    modifies writer`position, writer`front, writer`part, writer.bytes
    ensures Wrote(writer, sha, s, 3)
  {
    hide Writer.Valid, Store16, Store32, Store64, HeaderBytes, SaveSize, BodyBytes, Savable, SaveFrames;
    ghost var start := writer.front;
    var payload := BeginNext(writer, sha, s, 3, 68);
    PutSettings(writer, w.config);
    writer.Put(w.configHash);
    EndNext(writer, sha, s, 3, payload, 68, start);
  }

  method PutPack(writer: Writer, p: Pack)
    requires writer.Valid() && writer.base + |writer.front| + |writer.part| + 40 <= writer.bytes.Length
    modifies writer`position, writer`part, writer.bytes
    ensures writer.Valid() && writer.part == old(writer.part) + PackEntry(p)
  {
    hide Writer.Valid, Store64;
    writer.Put(Store64(p.stableId));
    writer.Put(p.sha);
    assert writer.part == old(writer.part) + (Store64(p.stableId) + p.sha);
  }

  method PutContent(writer: Writer, w: Game, sha: HashFunction, ghost s: State)
    requires w.Valid() && s == w.Value() && Savable(s) && Wrote(writer, sha, s, 3)
    modifies writer`position, writer`front, writer`part, writer.bytes
    ensures Wrote(writer, sha, s, 4)
  {
    hide Writer.Valid, Store32, HeaderBytes, SaveSize, BodyBytes, SaveFrames, PackEntry, NamesFit;
    ghost var start := writer.front;
    var length := 4 + |w.content| * 40;
    var payload := BeginNext(writer, sha, s, 4, length);
    ghost var front := writer.front;
    writer.Put(Store32(|w.content|));
    assert writer.part == Store32(|w.content|) + PackBytes(w.content[..0]);
    var index: nat := 0;
    while index < |w.content|
      invariant index <= |w.content| && writer.Valid() && writer.front == front
      invariant writer.part == Store32(|w.content|) + PackBytes(w.content[..index])
    {
      assert w.content[..index + 1][..index] == w.content[..index];
      PackBytesLength(w.content[..index]);
      PutPack(writer, w.content[index]);
      assert writer.part == Store32(|w.content|) + (PackBytes(w.content[..index]) + PackEntry(w.content[index]));
      index := index + 1;
    }
    assert w.content[..index] == w.content;
    EndNext(writer, sha, s, 4, payload, length, start);
  }

  method PutSeed(writer: Writer, w: Game, sha: HashFunction, ghost s: State)
    requires w.Valid() && s == w.Value() && Savable(s) && Wrote(writer, sha, s, 4)
    modifies writer`position, writer`front, writer`part, writer.bytes
    ensures Wrote(writer, sha, s, 5)
  {
    hide Writer.Valid, Store16, Store32, Store64, HeaderBytes, SaveSize, BodyBytes, Savable, SaveFrames;
    ghost var start := writer.front;
    var payload := BeginNext(writer, sha, s, 5, 24);
    writer.Put(w.seed);
    assert writer.part == w.seed;
    writer.Put(Store32(1));
    writer.Put(Store32(0));
    EndNext(writer, sha, s, 5, payload, 24, start);
  }

  method PutTime(writer: Writer, w: Game, sha: HashFunction, ghost s: State)
    requires w.Valid() && s == w.Value() && Savable(s) && Wrote(writer, sha, s, 5)
    modifies writer`position, writer`front, writer`part, writer.bytes
    ensures Wrote(writer, sha, s, 6)
  {
    hide Writer.Valid, Store16, Store32, Store64, HeaderBytes, SaveSize, BodyBytes, Savable, SaveFrames;
    ghost var start := writer.front;
    var payload := BeginNext(writer, sha, s, 6, 56);
    PutClock(writer, w.tick);
    EndNext(writer, sha, s, 6, payload, 56, start);
  }

  /** The tick, then the lengths of the time scales. */
  method PutClock(writer: Writer, tick: u64)
    requires writer.Valid() && writer.part == [] && writer.base + |writer.front| + 56 <= writer.bytes.Length
    modifies writer`position, writer`part, writer.bytes
    ensures writer.Valid() && writer.front == old(writer.front) && writer.part == TimePayload(tick)
  {
    hide Writer.Valid, Store64;
    writer.Put(Store64(tick));
    assert writer.part == Store64(tick);
    writer.Put(Store64(1));
    writer.Put(Store64(24));
    writer.Put(Store64(168));
    writer.Put(Store64(720));
    writer.Put(Store64(2160));
    writer.Put(Store64(8640));
  }

  method PutTile(writer: Writer, t: Tile)
    requires writer.Valid() && writer.base + |writer.front| + |writer.part| + 24 <= writer.bytes.Length
    modifies writer`position, writer`part, writer.bytes
    ensures writer.Valid() && writer.part == old(writer.part) + TileBytes(t)
  {
    hide Writer.Valid, Store32, Store64, OverlayWord, Unsigned;
    ghost var part := writer.part;
    writer.Put(Store32(t.terrain));
    writer.Put(Store32(OverlayWord(t.overlays)));
    writer.Put(Store32(Unsigned(t.elevation)));
    writer.Put(Store32(t.rainfall));
    writer.Put(Store64(t.settlement));
    assert writer.part == part + (Store32(t.terrain) + Store32(OverlayWord(t.overlays)) + Store32(Unsigned(t.elevation))
                                  + Store32(t.rainfall) + Store64(t.settlement));
  }

  /** The region's identities. */
  method PutRegionIds(writer: Writer, r: Region)
    requires writer.Valid() && writer.base + |writer.front| + |writer.part| + 48 <= writer.bytes.Length
    modifies writer`position, writer`part, writer.bytes
    ensures writer.Valid()
    ensures writer.part == old(writer.part) + Store64(r.id) + Store64(r.politicalOwnerId) + Store64(r.settlement0)
                           + Store64(r.settlement1) + Store64(r.foreign0) + Store64(r.foreign1)
  {
    hide Writer.Valid, Store64;
    writer.Put(Store64(r.id));
    writer.Put(Store64(r.politicalOwnerId));
    writer.Put(Store64(r.settlement0));
    writer.Put(Store64(r.settlement1));
    writer.Put(Store64(r.foreign0));
    writer.Put(Store64(r.foreign1));
  }

  method PutRegion(writer: Writer, r: Region)
    requires writer.Valid() && writer.base + |writer.front| + |writer.part| + 80 <= writer.bytes.Length
    modifies writer`position, writer`part, writer.bytes
    ensures writer.Valid() && writer.part == old(writer.part) + RegionBytes(r)
  {
    hide Writer.Valid, Store32, Store64, RegionBytes;
    ghost var part := writer.part;
    PutRegionIds(writer, r);
    writer.Put(Store64(r.outletTileId));
    writer.Put(Store64(r.roadStartTileId));
    writer.Put(Store64(r.roadEndTileId));
    writer.Put(Store32(r.riverTileCount));
    writer.Put(Store32(r.roadTileCount));
    RegionLayout(part, r);
  }

  lemma RegionLayout(part: Bytes, r: Region)
    ensures part + Store64(r.id) + Store64(r.politicalOwnerId) + Store64(r.settlement0)
            + Store64(r.settlement1) + Store64(r.foreign0) + Store64(r.foreign1) + Store64(r.outletTileId)
            + Store64(r.roadStartTileId) + Store64(r.roadEndTileId) + Store32(r.riverTileCount) + Store32(r.roadTileCount)
            == part + RegionBytes(r)
  {
    hide Store32, Store64;
    assert part + Store64(r.id) + Store64(r.politicalOwnerId) + Store64(r.settlement0)
           + Store64(r.settlement1) + Store64(r.foreign0) + Store64(r.foreign1)
        == part + (Store64(r.id) + Store64(r.politicalOwnerId) + Store64(r.settlement0)
                   + Store64(r.settlement1) + Store64(r.foreign0) + Store64(r.foreign1));
  }

  method PutTiles(writer: Writer, w: Game)
    requires w.Valid() && writer.Valid()
    requires writer.base + |writer.front| + |writer.part| + 24 * w.tiles.Length <= writer.bytes.Length
    modifies writer`position, writer`part, writer.bytes
    ensures writer.Valid() && writer.part == old(writer.part) + TilesBytes(w.tiles[..])
  {
    hide Writer.Valid, TileBytes;
    ghost var part, ts := writer.part, w.tiles[..];
    assert part == part + TilesBytes(ts[..0]);
    var index: nat := 0;
    while index < w.tiles.Length
      invariant index <= |ts| && writer.Valid() && ts == w.tiles[..]
      invariant writer.part == part + TilesBytes(ts[..index])
    {
      assert ts[..index + 1][..index] == ts[..index];
      PutTile(writer, w.tiles[index]);
      assert writer.part == part + (TilesBytes(ts[..index]) + TileBytes(ts[index]));
      index := index + 1;
    }
    assert ts[..index] == ts;
  }

  /** Sizes and counters, before the tiles. */
  method PutMapHead(writer: Writer, w: Game)
    requires w.Valid() && SizesOk(w.config.dims)
    requires writer.Valid() && writer.part == [] && writer.base + |writer.front| + 24 <= writer.bytes.Length
    modifies writer`position, writer`part, writer.bytes
    ensures writer.Valid() && writer.front == old(writer.front)
    ensures w.tiles.Length <= MAX_TILES
    ensures writer.part == MapHead(w.tiles.Length, w.config.dims, w.riverTileCount, w.roadTileCount, w.landTileCount)
  {
    hide Writer.Valid, Store32;
    writer.Put(Store32(w.tiles.Length));
    assert writer.part == Store32(w.tiles.Length);
    writer.Put(Store32(w.config.dims.width));
    writer.Put(Store32(w.config.dims.height));
    writer.Put(Store32(w.riverTileCount));
    writer.Put(Store32(w.roadTileCount));
    writer.Put(Store32(w.landTileCount));
  }

  method PutMap(writer: Writer, w: Game, sha: HashFunction, ghost s: State)
    requires w.Valid() && s == w.Value() && Savable(s) && Wrote(writer, sha, s, 6)
    modifies writer`position, writer`front, writer`part, writer.bytes
    ensures Wrote(writer, sha, s, 7)
  {
    hide Writer.Valid, Store32, HeaderBytes, SaveSize, BodyBytes, SaveFrames, NamesFit, TilesBytes, RegionBytes,
      MapHead;
    ghost var start := writer.front;
    var length := 104 + w.tiles.Length * 24;
    var payload := BeginNext(writer, sha, s, 7, length);
    PutMapHead(writer, w);
    PutTiles(writer, w);
    PutRegion(writer, w.region);
    EndNext(writer, sha, s, 7, payload, length, start);
  }

  /** Identity, kind and coordinates of an entity. */
  method PutPlace(writer: Writer, e: Entity)
    requires writer.Valid() && writer.base + |writer.front| + |writer.part| + 20 <= writer.bytes.Length
    modifies writer`position, writer`part, writer.bytes
    ensures writer.Valid()
    ensures writer.part == old(writer.part) + Store64(e.id) + Store32(e.kind) + Store32(e.x) + Store32(e.y)
  {
    hide Writer.Valid, Store32, Store64;
    writer.Put(Store64(e.id));
    writer.Put(Store32(e.kind));
    writer.Put(Store32(e.x));
    writer.Put(Store32(e.y));
  }

  method PutEntity(writer: Writer, e: Entity)
    requires |e.name| < MAX_NAME_BYTES && writer.Valid()
    requires writer.base + |writer.front| + |writer.part| + 40 + |e.name| <= writer.bytes.Length
    modifies writer`position, writer`part, writer.bytes
    ensures writer.Valid() && writer.part == old(writer.part) + EntityBytes(e)
  {
    hide Writer.Valid, Store32, Store64;
    ghost var part := writer.part;
    PutPlace(writer, e);
    writer.Put(Store64(e.regionId));
    writer.Put(Store64(e.ownerId));
    writer.Put(Store32(|e.name|));
    writer.Put(e.name);
    assert writer.part
        == part + (Store64(e.id) + Store32(e.kind) + Store32(e.x) + Store32(e.y) + Store64(e.regionId)
                   + Store64(e.ownerId) + Store32(|e.name|) + e.name);
  }

  /** Any front part of the table is no longer than the whole. */
  lemma {:induction false} EntitiesPrefix(es: seq<Entity>, n: nat)
    requires NamesFit(es) && n <= |es|
    ensures NamesFit(es[..n]) && |EntitiesBytes(es[..n])| <= |EntitiesBytes(es)|
    ensures n < |es| ==> |EntitiesBytes(es[..n])| + 40 + |es[n].name| <= |EntitiesBytes(es)|
    decreases |es|
  {
    hide EntityBytes;
    if n < |es| {
      var k := |es| - 1;
      EntitiesPrefix(es[..k], n);
      assert es[..k][..n] == es[..n];
    } else {
      assert es[..n] == es;
    }
  }

  /** fd_entity_section_length */
  method EntitySectionLength(w: Game) returns (length: nat)
    requires w.Valid()
    ensures length == 248 + NameBytes(w.entities)
  {
    length := 8;
    var index: nat := 0;
    while index < ENTITY_COUNT
      invariant index <= ENTITY_COUNT && length == 8 + 40 * index + NameBytes(w.entities[..index])
    {
      assert w.entities[..index + 1][..index] == w.entities[..index];
      length := length + (40 + |w.entities[index].name|);
      index := index + 1;
    }
    assert w.entities[..index] == w.entities;
  }

  method PutEntities(writer: Writer, w: Game, sha: HashFunction, ghost s: State)
    requires w.Valid() && s == w.Value() && Savable(s) && Wrote(writer, sha, s, 7)
    modifies writer`position, writer`front, writer`part, writer.bytes
    ensures Wrote(writer, sha, s, 8)
  {
    hide Writer.Valid, Store32, HeaderBytes, SaveSize, BodyBytes, SaveFrames, EntitiesBytes, NameBytes;
    ghost var start := writer.front;
    var length := EntitySectionLength(w);
    EntitiesLength(w.entities);
    var payload := BeginNext(writer, sha, s, 8, length);
    writer.Put(Store32(ENTITY_COUNT));
    assert writer.part == Store32(ENTITY_COUNT);
    writer.Put(Store32(ENTITY_COUNT));
    PutTable(writer, w.entities);
    EndNext(writer, sha, s, 8, payload, length, start);
  }

  /** The entity loop of section 8. */
  method PutTable(writer: Writer, es: seq<Entity>)
    requires writer.Valid() && NamesFit(es)
    requires writer.base + |writer.front| + |writer.part| + |EntitiesBytes(es)| <= writer.bytes.Length
    modifies writer`position, writer`part, writer.bytes
    ensures writer.Valid() && writer.front == old(writer.front)
    ensures writer.part == old(writer.part) + EntitiesBytes(es)
  {
    hide Writer.Valid, EntityBytes;
    ghost var front, before := writer.front, writer.part;
    assert before == before + EntitiesBytes(es[..0]);
    var index: nat := 0;
    while index < |es|
      invariant index <= |es| && writer.Valid() && writer.front == front
      invariant NamesFit(es[..index]) && writer.part == before + EntitiesBytes(es[..index])
    {
      EntitiesPrefix(es, index);
      EntitiesPrefix(es, index + 1);
      assert es[..index + 1][..index] == es[..index];
      PutEntity(writer, es[index]);
      assert writer.part == before + (EntitiesBytes(es[..index]) + EntityBytes(es[index]));
      index := index + 1;
    }
    assert es[..index] == es;
  }

  method PutPending(writer: Writer, sha: HashFunction, ghost s: State)
    requires Savable(s) && Wrote(writer, sha, s, 8)
    modifies writer`position, writer`front, writer`part, writer.bytes
    ensures Wrote(writer, sha, s, 9)
  {
    hide Writer.Valid, Store16, Store32, Store64, HeaderBytes, SaveSize, BodyBytes, Savable, SaveFrames;
    ghost var start := writer.front;
    var payload := BeginNext(writer, sha, s, 9, 4);
    writer.Put(Store32(0));
    assert writer.part == Store32(0);
    EndNext(writer, sha, s, 9, payload, 4, start);
  }

  method PutReserved(writer: Writer, sha: HashFunction, ghost s: State)
    requires Savable(s) && Wrote(writer, sha, s, 9)
    modifies writer`position, writer`front, writer`part, writer.bytes
    ensures Wrote(writer, sha, s, 10)
  {
    hide Writer.Valid, Store16, Store32, Store64, HeaderBytes, SaveSize, BodyBytes, Savable, SaveFrames;
    ghost var start := writer.front;
    var payload := BeginNext(writer, sha, s, 10, 16);
    writer.Put(Store32(0));
    assert writer.part == Store32(0);
    writer.Put(Store32(0));
    writer.Put(Store32(0));
    writer.Put(Store32(0));
    EndNext(writer, sha, s, 10, payload, 16, start);
  }

  method PutStateHash(writer: Writer, w: Game, sha: HashFunction, ghost s: State)
    requires w.Valid() && s == w.Value() && Savable(s) && Wrote(writer, sha, s, 10)
    modifies writer`position, writer`front, writer`part, writer.bytes
    ensures Wrote(writer, sha, s, 11)
  {
    hide Writer.Valid, Store16, Store32, Store64, HeaderBytes, SaveSize, BodyBytes, Savable, SaveFrames;
    ghost var start := writer.front;
    var payload := BeginNext(writer, sha, s, 11, 32);
    writer.Put(w.stateHash);
    assert writer.part == w.stateHash;
    EndNext(writer, sha, s, 11, payload, 32, start);
  }

  // ----- the whole save

  const BUFFER_TOO_SMALL: u32 := 8

  /** fd_save_size_internal */
  method SaveSizeOf(w: Game) returns (size: nat)
    requires w.Valid() && Savable(w.Value())
    ensures size == SaveSize(w.Value())
  {
    var content := 4 + |w.content| * 40;
    var tiles := 104 + w.tiles.Length * 24;
    var entities := EntitySectionLength(w);
    size := 8 + (16 + 40 + 68 + content + 24 + 56 + tiles + entities + 4 + 16 + 32) + 11 * 48 + 32;
  }

  /** The eleven sections in order. */
  method PutSections(writer: Writer, w: Game, sha: HashFunction, ghost s: State)
    requires w.Valid() && s == w.Value() && Savable(s) && Wrote(writer, sha, s, 0)
    modifies writer`position, writer`front, writer`part, writer.bytes
    ensures Wrote(writer, sha, s, 11)
  {
    hide Wrote, Savable;
    PutManifest(writer, sha, s);
    PutVersions(writer, w, sha, s);
    PutConfig(writer, w, sha, s);
    PutContent(writer, w, sha, s);
    PutSeed(writer, w, sha, s);
    PutTime(writer, w, sha, s);
    PutMap(writer, w, sha, s);
    PutEntities(writer, w, sha, s);
    PutPending(writer, sha, s);
    PutReserved(writer, sha, s);
    PutStateHash(writer, w, sha, s);
  }

  lemma StartWrote(writer: Writer, sha: HashFunction, s: State)
    requires Savable(s) && writer.Valid() && writer.part == [] && writer.front == Magic()
    requires writer.base + SaveSize(s) <= writer.bytes.Length
    ensures Wrote(writer, sha, s, 0)
  {
    hide Writer.Valid, SaveSize;
    assert Magic() + BodyBytes(sha, []) == Magic();
  }

  lemma AllWrote(writer: Writer, sha: HashFunction, s: State)
    requires Savable(s) && Wrote(writer, sha, s, 11)
    ensures writer.front == SaveBody(sha, s) && |SaveBody(sha, s)| + DIGEST == SaveSize(s)
    ensures writer.bytes[writer.base..writer.base + |writer.front|] == writer.front
    ensures writer.Valid() && writer.part == [] && writer.base + |writer.front| + DIGEST <= writer.bytes.Length
    ensures writer.position == writer.base + |writer.front|
  {
    hide SaveSize;
    SaveSizeExact(sha, s);
    assert writer.front + writer.part == writer.front;
  }

  lemma FooterWritten(writer: Writer, sha: HashFunction, s: State)
    requires Savable(s) && writer.Valid() && writer.front == SaveBody(sha, s) && writer.part == Footer(sha, SaveBody(sha, s))
    requires |SaveBody(sha, s)| + DIGEST == SaveSize(s)
    ensures writer.position == writer.base + SaveSize(s) <= writer.bytes.Length == |writer.before|
    ensures writer.bytes[writer.base..writer.base + SaveSize(s)] == SaveBytes(sha, s)
    ensures writer.bytes[..writer.base] == writer.before[..writer.base]
    ensures writer.bytes[writer.position..] == writer.before[writer.position..]
  {
    hide SaveSize, SaveBody, Savable, Footer;
  }

  /** Magic, sections and footer, from base on. */
  method WriteFile(w: Game, buffer: array<u8>, base: nat, sha: HashFunction) returns (position: nat)
    requires w.Valid() && Savable(w.Value()) && base + SaveSize(w.Value()) <= buffer.Length
    modifies buffer
    ensures position == base + SaveSize(w.Value()) <= buffer.Length
    ensures buffer[base..position] == SaveBytes(sha, w.Value())
    ensures buffer[..base] == old(buffer[..base]) && buffer[position..] == old(buffer[..])[position..]
  {
    hide Savable, Wrote, SaveBody, SaveSize, Writer.Valid, Game.Valid, Game.Value;
    ghost var s := w.Value();
    SaveSizeExact(sha, s);
    assert SaveSize(s) >= |Magic()|;
    var writer := new Writer(buffer, base);
    writer.Put(Magic());
    assert writer.part == Magic();
    writer.Settle();
    assert writer.front == Magic();
    StartWrote(writer, sha, s);
    PutSections(writer, w, sha, s);
    AllWrote(writer, sha, s);
    var footer := Footer(sha, buffer[base..writer.position]);
    writer.Put(footer);
    FooterWritten(writer, sha, s);
    position := writer.position;
  }

  /** fd_world_save: on success the buffer holds the canonical bytes of the world, exactly as
      many as fd_save_size_internal announced, and nothing outside them is touched. */
  method WorldSave(w: Game, buffer: array?<u8>, base: nat, capacity: u64, limits: Limits, sha: HashFunction)
    returns (code: u32, written: nat)
    requires w.Valid() && Savable(w.Value()) && (buffer != null ==> base + capacity <= buffer.Length)
    modifies buffer
    ensures code == OK <==>
              SaveSize(w.Value()) <= limits.maxFileBytes && buffer != null && SaveSize(w.Value()) <= capacity
    ensures code == OK ==>
              && written == SaveSize(w.Value()) && base + written <= buffer.Length
              && buffer[base..base + written] == SaveBytes(sha, w.Value())
              && buffer[..base] == old(buffer[..base]) && buffer[base + written..] == old(buffer[..])[base + written..]
    ensures code == OK ==>
              SealedFile(sha, buffer[base..base + written], [0x46, 0x44, 0x56, 0x53, 0, 0, 0, 1],
                         "FrontierDirectorate/Save/Footer/v1")
    ensures code != OK ==> written == 0 && (buffer != null ==> buffer[..] == old(buffer[..]))
  {
    hide Savable, SaveSize, SaveBytes, SealedFile, Game.Valid, Game.Value;
    written := 0;
    SaveIsSealed(sha, w.Value());
    var required := SaveSizeOf(w);
    if required > limits.maxFileBytes {
      return CAPACITY, 0;
    }
    if buffer == null || capacity < required {
      return BUFFER_TOO_SMALL, 0;
    }
    var position := WriteFile(w, buffer, base, sha);
    if position - base != required {
      assert false;
    }
    written := required;
    code := OK;
  }
}
