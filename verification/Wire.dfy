/** Reading the stored records back: every reader is both a left and a right inverse of the
    byte layout it reads. */
module Wire {
  import opened Grid
  import opened World
  import opened Codec
  import opened Hashing

  // ----- reasoning about layouts

  lemma HoldsSplit(b: Bytes, at: nat, front: Bytes, back: Bytes)
    ensures Holds(b, at, front + back) <==> Holds(b, at, front) && Holds(b, at + |front|, back)
  {
    var i, n := |front|, |front| + |back|;
    if at + n <= |b| {
      var x := b[at..at + n];
      assert x[..i] == b[at..at + i] && x[i..] == b[at + i..at + i + |back|];
      assert (front + back)[..i] == front && (front + back)[i..] == back;
    }
  }

  /** Stored pieces of a layout can be told apart, and stored words loaded. */
  lemma Apart(b: Bytes, at: nat)
    ensures forall x: Bytes, y: Bytes {:trigger Holds(b, at, x + y)} ::
              Holds(b, at, x + y) ==> Holds(b, at, x) && Holds(b, at + |x|, y)
    ensures forall p: nat, v: u16 {:trigger Holds(b, p, Store16(v))} :: Holds(b, p, Store16(v)) ==> Load16(b, p) == v
    ensures forall p: nat, v: u32 {:trigger Holds(b, p, Store32(v))} :: Holds(b, p, Store32(v)) ==> Load32(b, p) == v
    ensures forall p: nat, v: u64 {:trigger Holds(b, p, Store64(v))} :: Holds(b, p, Store64(v)) ==> Load64(b, p) == v
  {
    hide Store16, Store32, Store64, Load16, Load32, Load64;
    forall x: Bytes, y: Bytes {:trigger Holds(b, at, x + y)} | Holds(b, at, x + y)
      ensures Holds(b, at, x) && Holds(b, at + |x|, y)
    {
      HoldsSplit(b, at, x, y);
    }
    forall p: nat, v: u16 {:trigger Holds(b, p, Store16(v))} | Holds(b, p, Store16(v)) ensures Load16(b, p) == v {
      LoadStored16(b, p, v);
    }
    forall p: nat, v: u32 {:trigger Holds(b, p, Store32(v))} | Holds(b, p, Store32(v)) ensures Load32(b, p) == v {
      LoadStored32(b, p, v);
    }
    forall p: nat, v: u64 {:trigger Holds(b, p, Store64(v))} | Holds(b, p, Store64(v)) ensures Load64(b, p) == v {
      LoadStored64(b, p, v);
    }
  }

  /** Loaded words, stored again in place, make up the layout they were read from. */
  lemma Together(b: Bytes, at: nat)
    ensures forall x: Bytes, y: Bytes {:trigger Holds(b, at, x), x + y} ::
              Holds(b, at, x) && Holds(b, at + |x|, y) ==> Holds(b, at, x + y)
    ensures forall p: nat {:trigger Load16(b, p)} :: p + 2 <= |b| ==> Holds(b, p, Store16(Load16(b, p)))
    ensures forall p: nat {:trigger Load32(b, p)} :: p + 4 <= |b| ==> Holds(b, p, Store32(Load32(b, p)))
    ensures forall p: nat {:trigger Load64(b, p)} :: p + 8 <= |b| ==> Holds(b, p, Store64(Load64(b, p)))
  {
    hide Store16, Store32, Store64, Load16, Load32, Load64;
    forall x: Bytes, y: Bytes {:trigger Holds(b, at, x), x + y} | Holds(b, at, x) && Holds(b, at + |x|, y)
      ensures Holds(b, at, x + y)
    {
      HoldsSplit(b, at, x, y);
    }
    forall p: nat {:trigger Load16(b, p)} | p + 2 <= |b| ensures Holds(b, p, Store16(Load16(b, p))) {
      StoreLoaded16(b, p);
    }
    forall p: nat {:trigger Load32(b, p)} | p + 4 <= |b| ensures Holds(b, p, Store32(Load32(b, p))) {
      StoreLoaded32(b, p);
    }
    forall p: nat {:trigger Load64(b, p)} | p + 8 <= |b| ensures Holds(b, p, Store64(Load64(b, p))) {
      StoreLoaded64(b, p);
    }
  }

  // ----- tiles

  function ReadTile(b: Bytes, at: nat): Tile
    requires at + 24 <= |b|
  {
    Tile(Signed(Load32(b, at + 8)), Load32(b, at + 12), Load64(b, at + 16), Load32(b, at), OverlaysOf(Load32(b, at + 4)))
  }

  lemma OverlayWordRoundTrip(w: u32)
    ensures OverlayWord(OverlaysOf(w)) == w
  {
    var half, quarter, eighth, rest := w / 2, w / 4, w / 8, w / 16;
    assert w == 2 * half + w % 2 && half == 2 * quarter + half % 2;
    assert quarter == 2 * eighth + quarter % 2 && eighth == 2 * rest + eighth % 2;
  }

  lemma TileStored(b: Bytes, at: nat, t: Tile)
    requires Holds(b, at, TileBytes(t))
    ensures at + 24 <= |b| && ReadTile(b, at) == t
  {
    Apart(b, at);
    assert at + 24 <= |b|;
    hide Holds, Store32, Store64, Load32, Load64, OverlayWord, OverlaysOf, Signed, Unsigned;
    OverlayRoundTrip(t.overlays);
    SignedRoundTrip(t.elevation, 0);
  }

  lemma TileRead(b: Bytes, at: nat)
    requires at + 24 <= |b|
    ensures Holds(b, at, TileBytes(ReadTile(b, at)))
  {
    hide Holds, Store32, Store64, Load32, Load64, OverlayWord, OverlaysOf, Signed, Unsigned;
    Together(b, at);
    OverlayWordRoundTrip(Load32(b, at + 4));
    SignedRoundTrip(0, Load32(b, at + 8));
  }

  // ----- the region record

  function ReadRegion(b: Bytes, at: nat): Region
    requires at + 80 <= |b|
  {
    Region(Load64(b, at), Load64(b, at + 8), Load64(b, at + 16), Load64(b, at + 24), Load64(b, at + 32),
           Load64(b, at + 40), Load64(b, at + 48), Load64(b, at + 56), Load64(b, at + 64),
           Load32(b, at + 72), Load32(b, at + 76))
  }

  lemma RegionStored(b: Bytes, at: nat, r: Region)
    requires Holds(b, at, RegionBytes(r))
    ensures at + 80 <= |b| && ReadRegion(b, at) == r
  {
    Apart(b, at);
    assert at + 80 <= |b|;
    hide Holds, Store32, Store64, Load32, Load64;
  }

  lemma RegionRead(b: Bytes, at: nat)
    requires at + 80 <= |b|
    ensures Holds(b, at, RegionBytes(ReadRegion(b, at)))
  {
    hide Holds, Store32, Store64, Load32, Load64;
    Together(b, at);
  }

  // ----- content packs

  function ReadPack(b: Bytes, at: nat): Pack
    requires at + 40 <= |b|
  {
    Pack(Load64(b, at), b[at + 8..at + 40])
  }

  lemma PackStored(b: Bytes, at: nat, p: Pack)
    requires Holds(b, at, PackEntry(p))
    ensures at + 40 <= |b| && ReadPack(b, at) == p
  {
    hide Store64, Load64;
    Apart(b, at);
    assert Holds(b, at + 8, p.sha);
  }

  lemma PackRead(b: Bytes, at: nat)
    requires at + 40 <= |b|
    ensures Holds(b, at, PackEntry(ReadPack(b, at)))
  {
    hide Store64, Load64;
    Together(b, at);
    assert Holds(b, at + 8, ReadPack(b, at).sha);
  }

  // ----- entities

  /** An entity behind its fixed forty bytes, the last four of which give the name length. */
  function ReadEntity(b: Bytes, at: nat): Entity
    requires at + 40 <= |b| && at + 40 + Load32(b, at + 36) <= |b|
  {
    Entity(Load64(b, at), Load32(b, at + 8), Load32(b, at + 12), Load32(b, at + 16), Load64(b, at + 20),
           Load64(b, at + 28), b[at + 40..at + 40 + Load32(b, at + 36)])
  }

  lemma EntityStored(b: Bytes, at: nat, e: Entity)
    requires |e.name| < MAX_NAME_BYTES && Holds(b, at, EntityBytes(e))
    ensures at + 40 + |e.name| <= |b| && Load32(b, at + 36) == |e.name| && ReadEntity(b, at) == e
  {
    Apart(b, at);
    assert at + 40 + |e.name| <= |b|;
    hide Store32, Store64, Load32, Load64;
    assert Holds(b, at + 40, e.name);
  }

  lemma EntityRead(b: Bytes, at: nat)
    requires at + 40 <= |b| && Load32(b, at + 36) < MAX_NAME_BYTES && at + 40 + Load32(b, at + 36) <= |b|
    ensures Holds(b, at, EntityBytes(ReadEntity(b, at)))
  {
    hide Store32, Store64, Load32, Load64;
    Together(b, at);
    assert Holds(b, at + 40, ReadEntity(b, at).name);
  }
}
