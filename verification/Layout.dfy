/** Where a candidate world puts sea, river, settlements: the geometry fixed by a few
    bounded draws, before any tile is written. */
module Layout {
  import opened Counting
  import opened Grid
  import opened World
  import opened TilePath

  /** Share of the width under water in an undisturbed row, and how far a row may stray. */
  function BaseWater(g: Dims): nat { (g.width * 30) / 100 }

  function Amplitude(g: Dims): nat { if g.width / 32 == 0 then 1 else g.width / 32 }

  function OutletRange(g: Dims): nat { if g.height / 3 < 3 then 3 else g.height / 3 }

  /** The draws of one attempt, each already reduced below its bound. */
  datatype Draws = Draws(
    facing: nat, outletOffset: nat, sourceChoice: nat, tie: nat, coast: seq<nat>,
    lattice: (nat, nat, nat) -> nat, biome: seq<nat>, roadTies: seq<bool>, names: seq<Bytes>)
  {
    ghost predicate Valid(g: Dims) {
      && facing < 2 && outletOffset < OutletRange(g) && sourceChoice < 3 && tie < 2
      && |coast| == g.height && (forall y :: 0 <= y < g.height ==> coast[y] < 2 * Amplitude(g) + 1)
      && (forall octave: nat, gy: nat, gx: nat :: lattice(octave, gy, gx) < 1024)
      && |biome| == g.Count() && (forall i :: 0 <= i < |biome| ==> biome[i] < 1000000)
      && |roadTies| == g.Count()
      && |names| == ENTITY_COUNT && (forall k :: 0 <= k < ENTITY_COUNT ==> PrintableName(names[k]))
    }
  }

  function OutletRow(g: Dims, offset: nat): nat {
    if 2 + offset + 2 >= g.height then g.height / 3 else 2 + offset
  }

  function SourceRow(g: Dims, outletY: nat, choice: nat): nat {
    var y := if outletY + choice >= outletY + 1 then outletY + choice + 1 else outletY + choice;
    if y + 2 >= g.height then outletY else y
  }

  /** Water columns of row y: undisturbed beside the river mouth, otherwise the base width
      moved by a draw (or, in the constructive fallback, by the row number). */
  function RowWater(g: Dims, d: Draws, fallback: bool, y: nat): int
    requires y < |d.coast|
  {
    var outletY := OutletRow(g, d.outletOffset);
    if y == outletY || y == outletY + 1 then BaseWater(g)
    else
      var offset := if fallback then y % (Amplitude(g) * 2 + 1) else d.coast[y];
      BaseWater(g) + offset - Amplitude(g)
  }

  datatype Plan = Plan(g: Dims, west: bool, rows: seq<int>, outletY: nat, sourceY: nat, tie: nat) {
    ghost predicate Valid() {
      && SizesOk(g)
      && |rows| == g.height
      && (forall y :: 0 <= y < |rows| ==> BaseWater(g) - Amplitude(g) <= rows[y] <= BaseWater(g) + Amplitude(g))
      && 2 <= outletY && outletY + 4 < g.height - 3
      && rows[outletY] == rows[outletY + 1] == BaseWater(g)
      && sourceY in {outletY, outletY + 2, outletY + 3}
      && tie < 2
    }

    /** First land column beside the sea in a row with the given water width. */
    function CoastX(water: int): int { if west then water else g.width - water - 1 }

    predicate Sea(x: nat, y: nat)
      requires y < |rows|
    {
      if west then x < rows[y] else x >= g.width - rows[y]
    }

    function OutletX(): int { CoastX(BaseWater(g)) }
    function SourceX(): int { if west then g.width - 2 else 1 }
    function BendX(): int { (OutletX() + SourceX() + tie) / 2 }
    function InlandX(): int { if west then g.width - 3 else 2 }
    function InlandY(): int { g.height - 3 }
    function CoastalY(): nat { outletY + 1 }

    /** Steps along the shore-to-hills course: out to the bend, down, out to the source. */
    function Leg1(): int { if west then BendX() - OutletX() else OutletX() - BendX() }
    function Leg2(): int { sourceY - outletY }
    function Leg3(): int { if west then SourceX() - BendX() else BendX() - SourceX() }
    function CourseLength(): int { Leg1() + Leg2() + Leg3() + 1 }

    function Inward(x: int, steps: int): int { if west then x + steps else x - steps }

    function CourseX(k: int): int {
      if k <= Leg1() then Inward(OutletX(), k)
      else if k <= Leg1() + Leg2() then BendX()
      else Inward(BendX(), k - Leg1() - Leg2())
    }

    function CourseY(k: int): int {
      if k <= Leg1() then outletY
      else if k <= Leg1() + Leg2() then outletY + (k - Leg1())
      else sourceY
    }
  }

  /** The plan an attempt's draws lead to. */
  function PlanOf(g: Dims, d: Draws, fallback: bool): Plan
    requires |d.coast| == g.height
  {
    var outletY := OutletRow(g, d.outletOffset);
    Plan(g, d.facing == 0, seq(g.height, y requires 0 <= y < g.height => RowWater(g, d, fallback, y)),
         outletY, SourceRow(g, outletY, d.sourceChoice), d.tie)
  }

  lemma RowWaterBounds(g: Dims, d: Draws, fallback: bool, y: nat)
    requires SizesOk(g) && d.Valid(g) && y < g.height
    ensures BaseWater(g) - Amplitude(g) <= RowWater(g, d, fallback, y) <= BaseWater(g) + Amplitude(g)
    ensures 0 <= RowWater(g, d, fallback, y)
  {
  }

  /** Every outcome of the draws, on every admissible size, gives a valid plan. */
  lemma PlanIsValid(g: Dims, d: Draws, fallback: bool)
    requires SizesOk(g) && d.Valid(g)
    ensures PlanOf(g, d, fallback).Valid()
  {
    forall y | 0 <= y < g.height
      ensures BaseWater(g) - Amplitude(g) <= RowWater(g, d, fallback, y) <= BaseWater(g) + Amplitude(g)
    {
      RowWaterBounds(g, d, fallback, y);
    }
  }

  /** The numbers behind every later argument about distances on the map. */
  lemma PlanNumbers(p: Plan)
    requires p.Valid()
    ensures 9 <= BaseWater(p.g) && 1 <= Amplitude(p.g)
    ensures 20 * p.g.width <= 100 * (BaseWater(p.g) - Amplitude(p.g))
    ensures 100 * (BaseWater(p.g) + Amplitude(p.g)) <= 45 * p.g.width
    ensures p.Leg1() >= Amplitude(p.g) + 7 && p.Leg3() >= 8 && p.Leg2() in {0, 2, 3}
    ensures 0 <= p.OutletX() < p.g.width && 0 <= p.BendX() < p.g.width
    ensures p.BendX() == p.Inward(p.OutletX(), p.Leg1()) && p.SourceX() == p.Inward(p.BendX(), p.Leg3())
  {
  }

  /** The layout in numbers: the sea takes three tenths of the width, rows stray by a
      thirty-second of it, and the river mouth lies in the third of the rows below row two.
      The guards that would move the mouth or the source never fire. */
  lemma LayoutInNumbers(g: Dims, offset: nat)
    requires SizesOk(g) && offset < OutletRange(g)
    ensures 100 * BaseWater(g) <= 30 * g.width < 100 * BaseWater(g) + 100
    ensures 32 * Amplitude(g) <= g.width < 32 * Amplitude(g) + 32
    ensures 3 * OutletRange(g) <= g.height < 3 * OutletRange(g) + 3
    ensures OutletRow(g, offset) == 2 + offset
    ensures forall choice: nat :: choice < 3 ==>
              SourceRow(g, OutletRow(g, offset), choice) == OutletRow(g, offset) + [0, 2, 3][choice]
  {
  }

  /** The bound each draw is taken below. */
  lemma DrawsInNumbers(g: Dims, d: Draws)
    requires SizesOk(g)
    ensures d.Valid(g) <==>
              && d.facing < 2 && d.outletOffset < g.height / 3 && d.sourceChoice < 3 && d.tie < 2
              && |d.coast| == g.height && (forall y :: 0 <= y < g.height ==> d.coast[y] < g.width / 32 * 2 + 1)
              && (forall octave: nat, gy: nat, gx: nat :: d.lattice(octave, gy, gx) < 1024)
              && |d.biome| == g.Count() && (forall i :: 0 <= i < |d.biome| ==> d.biome[i] < 1000000)
              && |d.roadTies| == g.Count()
              && |d.names| == 6
              && (forall k :: 0 <= k < 6 ==>
                    && 1 <= |d.names[k]| <= 47
                    && forall i :: 0 <= i < |d.names[k]| ==> 32 <= d.names[k][i] <= 126)
  {
  }

  // ----- the river course

  function CoastDistance(p: Plan, x: int, y: nat): int
    requires y < |p.rows|
  {
    var c := p.CoastX(p.rows[y]);
    if x >= c then x - c else c - x
  }

  /** Every tile of the course lies on the map, on land, within four rows of the outlet. */
  lemma CourseOnLand(p: Plan, k: int)
    requires p.Valid() && 0 <= k < p.CourseLength()
    ensures 0 <= p.CourseX(k) < p.g.width
    ensures p.outletY <= p.CourseY(k) <= p.outletY + 3 < p.g.height - 4
    ensures !p.Sea(p.CourseX(k), p.CourseY(k))
    ensures 100 * CoastDistance(p, p.CourseX(k), p.CourseY(k)) >= k
  {
    PlanNumbers(p);
  }

  /** The course never doubles back: walking it from a to b covers exactly their distance. */
  lemma CourseIsMonotone(p: Plan, a: int, b: int)
    requires p.Valid() && 0 <= a < b < p.CourseLength()
    requires 0 <= p.CourseX(a) && 0 <= p.CourseX(b)
    ensures Manhattan(p.CourseX(a), p.CourseY(a), p.CourseX(b), p.CourseY(b)) == b - a
  {
    PlanNumbers(p);
  }

  lemma AllCourseInGrid(p: Plan)
    requires p.Valid()
    ensures forall k :: 0 <= k < p.CourseLength() ==>
              && 0 <= p.CourseX(k) < p.g.width && 0 <= p.CourseY(k) < p.g.height
              && Index(p.g, p.CourseX(k), p.CourseY(k)) < p.g.Count()
  {
    hide Index, Plan.CourseX, Plan.CourseY, Plan.CourseLength;
    forall k | 0 <= k < p.CourseLength()
      ensures && 0 <= p.CourseX(k) < p.g.width && 0 <= p.CourseY(k) < p.g.height
              && Index(p.g, p.CourseX(k), p.CourseY(k)) < p.g.Count()
    {
      CourseOnLand(p, k);
      IndexCoordinates(p.g, p.CourseX(k), p.CourseY(k));
    }
  }

  function Course(p: Plan): (q: seq<nat>)
    requires p.Valid()
    ensures |q| == p.CourseLength() && |q| >= 16
    ensures forall k :: 0 <= k < |q| ==>
              && 0 <= p.CourseX(k) < p.g.width && 0 <= p.CourseY(k) < p.g.height
              && q[k] == Index(p.g, p.CourseX(k), p.CourseY(k)) < p.g.Count()
  {
    PlanNumbers(p);
    AllCourseInGrid(p);
    seq(p.CourseLength(), k requires 0 <= k < p.CourseLength() => Index(p.g, p.CourseX(k), p.CourseY(k)))
  }

  /** So the course is a path without chords, whatever the draws were. */
  lemma CourseIsChordless(p: Plan)
    requires p.Valid()
    ensures Distinct(Course(p)) && Chordless(p.g, Course(p))
    ensures forall k :: 0 <= k < |Course(p)| ==> InGrid(p.g, Course(p)[k])
  {
    var q := Course(p);
    forall k | 0 <= k < |q| ensures InGrid(p.g, q[k]) { CourseCoordinates(p, k); }
    forall a, b | 0 <= a < b < |q| ensures q[a] != q[b] && (Adj(p.g, q[a], q[b]) <==> b == a + 1) {
      CourseCoordinates(p, a);
      CourseCoordinates(p, b);
      CourseIsMonotone(p, a, b);
    }
  }

  lemma CourseCoordinates(p: Plan, k: int)
    requires p.Valid() && 0 <= k < p.CourseLength()
    ensures InGrid(p.g, Course(p)[k])
    ensures X(p.g, Course(p)[k]) == p.CourseX(k) && Y(p.g, Course(p)[k]) == p.CourseY(k)
  {
    hide Index, X, Y;
    IndexCoordinates(p.g, p.CourseX(k), p.CourseY(k));
  }

  // ----- the two settlements and the sea

  /** Distances between outlet, source, settlements and sea that the validator asks for. */
  lemma SitesAreApart(p: Plan, x: nat, y: nat)
    requires p.Valid() && x < p.g.width && y < p.g.height && p.Sea(x, y)
    ensures 0 <= p.SourceX() < p.g.width && 0 <= p.InlandX() < p.g.width && 0 <= p.OutletX() < p.g.width
    ensures Manhattan(p.SourceX(), p.sourceY, x, y) >= 8
    ensures Manhattan(p.InlandX(), p.InlandY(), x, y) >= 4
    ensures Manhattan(p.OutletX(), p.CoastalY(), p.InlandX(), p.InlandY()) >= 12
    ensures Manhattan(p.OutletX(), p.CoastalY(), p.OutletX(), p.outletY) == 1
  {
    PlanNumbers(p);
  }

  /** The column on the seaward side of the shore. */
  function SeawardX(p: Plan): int { if p.west then p.OutletX() - 1 else p.OutletX() + 1 }

  lemma ShoreTouchesSea(p: Plan)
    requires p.Valid()
    ensures 0 <= SeawardX(p) < p.g.width && 0 <= p.OutletX() < p.g.width && 0 <= p.InlandX() < p.g.width
    ensures p.Sea(SeawardX(p), p.outletY) && p.Sea(SeawardX(p), p.CoastalY())
    ensures !p.Sea(p.OutletX(), p.CoastalY()) && !p.Sea(p.InlandX(), p.InlandY())
    ensures p.InlandX() != p.OutletX()
  {
    PlanNumbers(p);
  }

  /** Neither settlement, nor the inland tiles beside it, lies on the river course. */
  lemma SettlementsOffCourse(p: Plan, k: int)
    requires p.Valid() && 0 <= k < p.CourseLength()
    ensures (p.CourseX(k), p.CourseY(k)) != (p.OutletX(), p.CoastalY())
    ensures p.CourseY(k) != p.InlandY()
  {
    PlanNumbers(p);
  }
}
