/** The fixed name tables of the fly model: actuated degrees of freedom,
    tarsus links, the collision-geometry presets and the size of the
    hexagonal retina (flygym/util/config.py). */
module Config {
  import opened Wrappers
  import opened Strings

  /** `for side in "LR"` and `for pos in "FMH"`: left/right, front/middle/hind. */
  const Sides: string := "LR"
  const Positions: string := "FMH"

  predicate Distinct<T(==)>(xs: seq<T>)
  {
    forall i, j :: 0 <= i < j < |xs| ==> xs[i] != xs[j]
  }

  /** The innermost comprehension level: one leg, every DoF in order. */
  function DofEntries(prefix: string, side: char, pos: char, dofs: seq<string>, suffix: string): (r: seq<string>)
    ensures |r| == |dofs|
  {
    if dofs == [] then []
    else [prefix + [side, pos] + dofs[0] + suffix] + DofEntries(prefix, side, pos, dofs[1..], suffix)
  }

  /** Entry d of one leg's names is prefix, side, position, the d-th DoF, suffix. */
  lemma {:induction false} DofEntriesAt(prefix: string, side: char, pos: char, dofs: seq<string>, suffix: string)
    ensures forall d :: 0 <= d < |dofs| ==>
      DofEntries(prefix, side, pos, dofs, suffix)[d] == prefix + [side, pos] + dofs[d] + suffix
    decreases |dofs|
  {
    if dofs != [] {
      DofEntriesAt(prefix, side, pos, dofs[1..], suffix);
      var r := DofEntries(prefix, side, pos, dofs, suffix);
      forall d | 0 < d < |dofs| ensures r[d] == prefix + [side, pos] + dofs[d] + suffix {
        assert r[d] == DofEntries(prefix, side, pos, dofs[1..], suffix)[d - 1];
        assert dofs[1..][d - 1] == dofs[d];
      }
    }
  }

  /** The middle level: every leg position of one side. */
  function SideEntries(prefix: string, side: char, positions: string,
                       dofsAt: char -> seq<string>, suffix: string): seq<string>
  {
    if positions == [] then []
    else DofEntries(prefix, side, positions[0], dofsAt(positions[0]), suffix)
         + SideEntries(prefix, side, positions[1..], dofsAt, suffix)
  }

  /** `[f"{prefix}{side}{pos}{dof}{suffix}" for side in sides for pos in positions
      for dof in dofsAt(pos)]`, the shape of every table in the configuration. */
  function LegNames(prefix: string, sides: string, positions: string,
                    dofsAt: char -> seq<string>, suffix: string): seq<string>
  {
    if sides == [] then []
    else SideEntries(prefix, sides[0], positions, dofsAt, suffix)
         + LegNames(prefix, sides[1..], positions, dofsAt, suffix)
  }

  // ---------------------------------------------------------------------
  // The tables

  /** The seven DoFs of every leg, proximal to distal. */
  function LegDofs(pos: char): seq<string>
  {
    ["Coxa", "Coxa_roll", "Coxa_yaw", "Femur", "Femur_roll", "Tibia", "Tarsus1"]
  }

  /** Three DoFs per leg: the front legs swing about Coxa, the others about Coxa_roll. */
  function ThreeDofs(pos: char): seq<string>
  {
    [if pos == 'F' then "Coxa" else "Coxa_roll", "Femur", "Tibia"]
  }

  /** `range(lo, hi)` rendered as "Tarsus{i}". */
  function TarsusRange(lo: nat, hi: nat): (r: seq<string>)
    requires lo <= hi
    ensures |r| == hi - lo
    decreases hi - lo
  {
    if lo == hi then [] else ["Tarsus" + NatToString(lo)] + TarsusRange(lo + 1, hi)
  }

  function TarsusLinks(pos: char): seq<string>
  {
    TarsusRange(1, 6)
  }

  function AllLegDofs(): seq<string>
  {
    LegNames("joint_", Sides, Positions, LegDofs, "")
  }

  function LegDofs3PerLeg(): seq<string>
  {
    LegNames("joint_", Sides, Positions, ThreeDofs, "")
  }

  function AllTarsiLinks(): seq<string>
  {
    LegNames("", Sides, Positions, TarsusLinks, "")
  }

  function LegGeomDofs(pos: char): seq<string>
  {
    ["Coxa", "Femur", "Tibia", "Tarsus1", "Tarsus2", "Tarsus3", "Tarsus4", "Tarsus5"]
  }

  function NoCoxaGeomDofs(pos: char): seq<string>
  {
    ["Femur", "Tibia", "Tarsus1", "Tarsus2", "Tarsus3", "Tarsus4", "Tarsus5"]
  }

  function TarsusGeomDofs(pos: char): seq<string>
  {
    ["Tarsus1", "Tarsus2", "Tarsus3", "Tarsus4", "Tarsus5"]
  }

  const CollisionSuffix: string := "_collision"

  /** The `config` default of get_collision_geoms, which it does not itself accept. */
  const DefaultCollisionConfig: string := "all"

  datatype ConfigError = UnknownCollisionConfig(config: string)

  predicate IsCollisionPreset(config: string)
  {
    config == "legs" || config == "legs-no-coxa" || config == "tarsi" || config == "none"
  }

  /** Resolves a collision preset to its geometry names, or raises
      ValueError for any other string. */
  function GetCollisionGeoms(config: string): (r: Result<seq<string>, ConfigError>)
    ensures r.Failure? <==> !IsCollisionPreset(config)
    ensures r.Failure? ==> r.error == UnknownCollisionConfig(config)
  {
    if config == "legs" then Success(LegNames("", Sides, Positions, LegGeomDofs, CollisionSuffix))
    else if config == "legs-no-coxa" then Success(LegNames("", Sides, Positions, NoCoxaGeomDofs, CollisionSuffix))
    else if config == "tarsi" then Success(LegNames("", Sides, Positions, TarsusGeomDofs, CollisionSuffix))
    else if config == "none" then Success([])
    else Failure(UnknownCollisionConfig(config))
  }

  // ---------------------------------------------------------------------
  // Vision

  const RetinaSideLenHex: nat := 16

  /** `3 * n**2 - 3 * n + 1`, the closed form used for the ommatidia count. */
  function HexCellCount(n: nat): int
  {
    3 * n * n - 3 * n + 1
  }

  /** A hexagon of side n is a centre cell and n - 1 rings, ring r holding 6r cells. */
  function HexCellsByRings(n: nat): nat
    requires n >= 1
  {
    if n == 1 then 1 else HexCellsByRings(n - 1) + 6 * (n - 1)
  }

  lemma {:induction false} HexCellCountIsRingCount(n: nat)
    requires n >= 1
    ensures HexCellCount(n) == HexCellsByRings(n)
  {
    if n > 1 {
      HexCellCountIsRingCount(n - 1);
      assert HexCellCount(n) == HexCellCount(n - 1) + 6 * (n - 1);
    }
  }

  function NumOmmatidiaPerEye(): (r: nat)
    ensures r == HexCellsByRings(RetinaSideLenHex)
    ensures r == 721
  {
    HexCellCountIsRingCount(RetinaSideLenHex);
    HexCellCount(RetinaSideLenHex)
  }
}
