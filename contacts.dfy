/** Contact-pair enumeration of the environment
    (flygym/envs/nmf_mujoco.py, _parse_collision_specs, _define_self_contacts,
    _define_floor_contacts). The MJCF scene graph is reduced to the data these
    routines read: each fly geometry's parent body, and the arena's geometry
    names. */
module Contacts {
  import opened Wrappers
  import opened Strings
  import opened Config
  import opened ConfigProperties

  /** A body of the fly's kinematic tree as the self-contact test reads it:
      its name, its parent's name and the names of its direct child bodies. */
  datatype Body = Body(name: string, parentName: string, childNames: seq<string>)

  /** The fly model's geometries: a geometry name resolves to its parent body. */
  type GeomIndex = map<string, Body>

  /** Sliding, torsional and rolling friction coefficients. */
  datatype Friction = Friction(sliding: real, torsional: real, rolling: real)

  /** A registered `<pair>` element. Floor pairs carry a five-component friction. */
  datatype ContactPair = ContactPair(name: string, geom1: string, geom2: string,
                                     solref: string, margin: real, friction: Option<seq<real>>)

  const PairSolref: string := "-1000000 -10000"

  datatype ContactError =
    | UnknownGeom(name: string)          // model.find returned None; `.parent` raises
    | BadPreset(error: ConfigError)      // get_collision_geoms raised ValueError

  function PairNames(pairs: seq<ContactPair>): (r: seq<string>)
    ensures |r| == |pairs|
    ensures forall i :: 0 <= i < |pairs| ==> r[i] == pairs[i].name
  {
    seq(|pairs|, i requires 0 <= i < |pairs| => pairs[i].name)
  }

  lemma PairNamesAppend(pairs: seq<ContactPair>, more: seq<ContactPair>)
    ensures PairNames(pairs + more) == PairNames(pairs) + PairNames(more)
  {
    assert PairNames(pairs + more) == PairNames(pairs) + PairNames(more);
  }

  // ---------------------------------------------------------------------
  // Collision specifications

  /** A collision argument of the constructor: a preset string or a list of geometry names. */
  datatype CollisionSpec = Preset(config: string) | Explicit(names: seq<string>)

  /** The fly model's geometries whose name contains "collision", in model order. */
  function CollisionNamed(modelGeoms: seq<string>): (r: seq<string>)
    ensures forall x :: x in r <==> x in modelGeoms && Contains(x, "collision")
    ensures |r| <= |modelGeoms|
    ensures IsSubsequence(r, modelGeoms)
  {
    if modelGeoms == [] then []
    else
      var rest := CollisionNamed(modelGeoms[1..]);
      if Contains(modelGeoms[0], "collision") then
        assert ([modelGeoms[0]] + rest)[1..] == rest;
        [modelGeoms[0]] + rest
      else
        SubsequenceAppendLeft(rest, [modelGeoms[0]], modelGeoms[1..]);
        assert [modelGeoms[0]] + modelGeoms[1..] == modelGeoms;
        rest
  }

  function PresetGeometries(config: string): Result<seq<string>, ContactError>
  {
    match GetCollisionGeoms(config)
    case Success(names) => Success(names)
    case Failure(e) => Failure(BadPreset(e))
  }

  /** _parse_collision_specs: "all" selects every collision geometry of the
      model, any other string goes to get_collision_geoms, a list is taken as is. */
  function ParseCollisionSpecs(spec: CollisionSpec, modelGeoms: seq<string>): (r: Result<seq<string>, ContactError>)
    ensures spec.Explicit? ==> r == Success(spec.names)
    ensures spec == Preset("all") ==> r == Success(CollisionNamed(modelGeoms))
    ensures spec.Preset? && spec.config != "all" ==> (r.Failure? <==> !IsCollisionPreset(spec.config))
    ensures spec.Preset? && spec.config != "all" && IsCollisionPreset(spec.config) ==>
      r == Success(GetCollisionGeoms(spec.config).value)
  {
    match spec
    case Preset(config) =>
      if config == "all" then Success(CollisionNamed(modelGeoms)) else PresetGeometries(config)
    case Explicit(names) => Success(names)
  }

  /** The constructor first resolves a string spec with get_collision_geoms
      (storing the result in self.floor_collisions / self.self_collisions)
      and only then passes the original argument to _parse_collision_specs. */
  function ResolveAtConstruction(spec: CollisionSpec, modelGeoms: seq<string>): (r: Result<seq<string>, ContactError>)
  {
    var stored := match spec
                  case Preset(config) => PresetGeometries(config)
                  case Explicit(names) => Success(names);
    match stored
    case Failure(e) => Failure(e)
    case Success(_) => ParseCollisionSpecs(spec, modelGeoms)
  }

  /** The "all" branch of _parse_collision_specs cannot be reached from the
      constructor: get_collision_geoms("all") raises first. */
  lemma AllPresetUnreachable(modelGeoms: seq<string>)
    ensures ResolveAtConstruction(Preset("all"), modelGeoms) == Failure(BadPreset(UnknownCollisionConfig("all")))
    ensures ParseCollisionSpecs(Preset("all"), modelGeoms).Success?
  {
  }

  /** Whatever the constructor accepts, the re-parse agrees with the stored geometry list. */
  lemma ConstructionAgreesWithStored(spec: CollisionSpec, modelGeoms: seq<string>)
    ensures ResolveAtConstruction(spec, modelGeoms).Success? <==>
            (spec.Explicit? || IsCollisionPreset(spec.config))
    ensures ResolveAtConstruction(spec, modelGeoms).Success? ==>
            ResolveAtConstruction(spec, modelGeoms).value
              == (if spec.Explicit? then spec.names else GetCollisionGeoms(spec.config).value)
  {
  }

  // ---------------------------------------------------------------------
  // Self contacts

  /** The exclusion test of _define_self_contacts: same body, either a
      direct child of the other (list membership), or either name a
      SUBSTRING of the other's parent name (Python `in` on str). */
  predicate Adjacent(b1: Body, b2: Body)
  {
    || b1.name == b2.name
    || b1.name in b2.childNames
    || b2.name in b1.childNames
    || Contains(b2.parentName, b1.name)
    || Contains(b1.parentName, b2.name)
  }

  function SelfPair(g1: string, g2: string): ContactPair
  {
    ContactPair(g1 + "_" + g2, g1, g2, PairSolref, 0.0, None)
  }

  /** One pass of the inner loop body for (g1, g2) on the pairs registered so far. */
  function SelfStep(geoms: GeomIndex, g1: string, g2: string, pairs: seq<ContactPair>): Result<seq<ContactPair>, ContactError>
  {
    if g1 == g2 || g1 + "_" + g2 in PairNames(pairs) then Success(pairs)
    else if g1 !in geoms then Failure(UnknownGeom(g1))
    else if g2 !in geoms then Failure(UnknownGeom(g2))
    else if Adjacent(geoms[g1], geoms[g2]) then Success(pairs)
    else Success(pairs + [SelfPair(g1, g2)])
  }

  /** The inner loop over geom2 for a fixed geom1, starting from `start`. */
  function SelfInner(geoms: GeomIndex, g1: string, g2s: seq<string>, start: seq<ContactPair>): Result<seq<ContactPair>, ContactError>
    decreases |g2s|
  {
    if g2s == [] then Success(start)
    else match SelfInner(geoms, g1, g2s[..|g2s| - 1], start)
      case Failure(e) => Failure(e)
      case Success(pairs) => SelfStep(geoms, g1, g2s[|g2s| - 1], pairs)
  }

  /** The outer loop over geom1; every geom1 meets every geometry of `all`. */
  function SelfOuter(geoms: GeomIndex, g1s: seq<string>, all: seq<string>): Result<seq<ContactPair>, ContactError>
    decreases |g1s|
  {
    if g1s == [] then Success([])
    else match SelfOuter(geoms, g1s[..|g1s| - 1], all)
      case Failure(e) => Failure(e)
      case Success(pairs) => SelfInner(geoms, g1s[|g1s| - 1], all, pairs)
  }

  function SelfContacts(geoms: GeomIndex, selfGeoms: seq<string>): Result<seq<ContactPair>, ContactError>
  {
    SelfOuter(geoms, selfGeoms, selfGeoms)
  }

  // ---------------------------------------------------------------------
  // Floor contacts

  /** A geometry of the arena touches the fly iff it has no name, or a name
      containing neither "visual" nor "collision". */
  predicate IsGround(name: Option<string>)
  {
    name.None? || !(Contains(name.value, "visual") || Contains(name.value, "collision"))
  }

  /** np.mean([fly, arena], axis=0). */
  function MeanFriction(fly: Friction, arena: Friction): Friction
  {
    Friction((fly.sliding + arena.sliding) / 2.0,
             (fly.torsional + arena.torsional) / 2.0,
             (fly.rolling + arena.rolling) / 2.0)
  }

  /** np.repeat(values, counts): each value repeated its count of times. */
  function Repeat(values: seq<real>, counts: seq<nat>): seq<real>
    requires |values| == |counts|
  {
    if values == [] then []
    else seq(counts[0], _ => values[0]) + Repeat(values[1..], counts[1..])
  }

  /** The friction of a floor pair: the mean triple expanded with counts (2, 1, 2). */
  function FloorFriction(fly: Friction, arena: Friction): seq<real>
  {
    var m := MeanFriction(fly, arena);
    Repeat([m.sliding, m.torsional, m.rolling], [2, 1, 2])
  }

  function FloorPair(ground: string, bodyGeom: string, friction: seq<real>): ContactPair
  {
    ContactPair(ground + "_" + bodyGeom, "Animat/" + bodyGeom, ground, PairSolref, 0.0, Some(friction))
  }

  /** The pairs of one ground geometry with the listed body geometries, in list order. */
  function GroundBlock(ground: string, bodyGeoms: seq<string>, friction: seq<real>): (r: seq<ContactPair>)
    ensures |r| == |bodyGeoms|
    ensures forall j :: 0 <= j < |bodyGeoms| ==> r[j] == FloorPair(ground, bodyGeoms[j], friction)
  {
    seq(|bodyGeoms|, j requires 0 <= j < |bodyGeoms| => FloorPair(ground, bodyGeoms[j], friction))
  }

  function GroundBlockName(id: nat): string
  {
    "groundblock_" + NatToString(id)
  }

  /** The name a ground geometry carries once the inner loop has run at least once. */
  function GroundName(name: Option<string>, id: nat): string
  {
    if name.None? then GroundBlockName(id) else name.value
  }

  /** After the first k arena geometries: the pairs so far, those k
      geometries' names (possibly renamed) and the ground_id counter. */
  datatype FloorState = FloorState(pairs: seq<ContactPair>, names: seq<Option<string>>, groundId: nat)

  function FloorGeom(s: FloorState, name: Option<string>, bodyGeoms: seq<string>, friction: seq<real>): FloorState
  {
    if !IsGround(name) || bodyGeoms == [] then FloorState(s.pairs, s.names + [name], s.groundId)
    else
      var ground := GroundName(name, s.groundId);
      FloorState(s.pairs + GroundBlock(ground, bodyGeoms, friction), s.names + [Some(ground)],
                 if name.None? then s.groundId + 1 else s.groundId)
  }

  function FloorFold(arenaGeoms: seq<Option<string>>, bodyGeoms: seq<string>, friction: seq<real>): (r: FloorState)
    ensures |r.names| == |arenaGeoms|
    decreases |arenaGeoms|
  {
    if arenaGeoms == [] then FloorState([], [], 0)
    else FloorGeom(FloorFold(arenaGeoms[..|arenaGeoms| - 1], bodyGeoms, friction),
                   arenaGeoms[|arenaGeoms| - 1], bodyGeoms, friction)
  }

  /** The arena's MJCF root as _define_floor_contacts touches it: the names
      of its geometries (renamed in place) and its list of contact pairs. */
  class Arena {
    var geomNames: seq<Option<string>>
    var contactPairs: seq<ContactPair>
    const friction: Friction

    constructor (geomNames: seq<Option<string>>, friction: Friction)
      ensures this.geomNames == geomNames && this.contactPairs == [] && this.friction == friction
    {
      this.geomNames := geomNames;
      this.contactPairs := [];
      this.friction := friction;
    }
  }
}
