/** Which draws give which terrain: the densities of a configuration as exact shares of the
    million draws a biome is chosen from. */
module BiomeShares {
  import opened Grid
  import opened World
  import opened Biomes

  const DRAWS := 1000000

  /** The draws that give a dry land tile the terrain. */
  ghost function Giving(terrain: u32, eligible: bool, c: Config): set<nat> {
    set v: nat | v < DRAWS && Biome(v, eligible, c) == terrain
  }

  predicate Within(v: nat, low: nat, high: nat) { low <= v < high }

  ghost function Between(low: nat, high: nat): set<nat> {
    set v: nat | v < high && Within(v, low, high)
  }

  lemma {:induction false} BetweenSize(low: nat, high: nat)
    requires low <= high
    ensures |Between(low, high)| == high - low
    decreases high
  {
    if low == high {
      assert Between(low, high) == {};
    } else {
      BetweenSize(low, high - 1);
      assert Between(low, high) == Between(low, high - 1) + {high - 1};
    }
  }

  /** Away from water: the lowest draws are hills, the next ones forest, the rest grassland,
      each as many as the density in parts per million. */
  lemma DryShares(c: Config)
    requires DensitiesBounded(c)
    ensures |Giving(HILLS, false, c)| == c.hillPpm && |Giving(FOREST, false, c)| == c.forestPpm
    ensures |Giving(GRASSLAND, false, c)| == 1000000 - c.hillPpm - c.forestPpm
    ensures Giving(HILLS, false, c) + Giving(FOREST, false, c) + Giving(GRASSLAND, false, c) == Between(0, 1000000)
    ensures forall v, w :: v in Giving(HILLS, false, c) && w in Giving(FOREST, false, c) ==> v < w
    ensures forall v, w :: v in Giving(FOREST, false, c) && w in Giving(GRASSLAND, false, c) ==> v < w
    ensures forall v, w :: v in Giving(HILLS, false, c) && w in Giving(GRASSLAND, false, c) ==> v < w
  {
    assert Giving(HILLS, false, c) == Between(0, c.hillPpm);
    assert Giving(FOREST, false, c) == Between(c.hillPpm, c.hillPpm + c.forestPpm);
    assert Giving(GRASSLAND, false, c) == Between(c.hillPpm + c.forestPpm, 1000000);
    BetweenSize(0, c.hillPpm);
    BetweenSize(c.hillPpm, c.hillPpm + c.forestPpm);
    BetweenSize(c.hillPpm + c.forestPpm, 1000000);
  }

  /** Beside water: exactly the lowest draws, as many as the wetland density, give wetlands,
      and every other draw answers as it does away from water. */
  lemma WetShares(c: Config)
    requires DensitiesBounded(c)
    ensures Giving(WETLANDS, true, c) == Between(0, c.wetlandPpm) && |Giving(WETLANDS, true, c)| == c.wetlandPpm
    ensures forall v: nat :: v < DRAWS && v !in Giving(WETLANDS, true, c) ==> Biome(v, true, c) == Biome(v, false, c)
    ensures Giving(WETLANDS, false, c) == {}
  {
    assert Giving(WETLANDS, true, c) == Between(0, c.wetlandPpm);
    BetweenSize(0, c.wetlandPpm);
  }
}
