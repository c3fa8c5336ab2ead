/** The concrete tables of the configuration: their sizes, layout,
    distinctness, and how the collision presets relate to each other. */
module ConfigTables {
  import opened Strings
  import opened Wrappers
  import opened Config
  import opened ConfigProperties

  lemma SidesAndPositionsDistinct()
    ensures Distinct(Sides) && Distinct(Positions)
    ensures forall p :: 0 <= p < |Positions| ==> (Positions[p] == 'F' <==> p == 0)
  {
  }

  lemma TarsusRangeAt(lo: nat, hi: nat, i: nat)
    requires lo <= hi && i < hi - lo
    ensures TarsusRange(lo, hi)[i] == "Tarsus" + NatToString(lo + i)
    decreases hi - lo
  {
    var rest := TarsusRange(lo + 1, hi);
    assert TarsusRange(lo, hi) == ["Tarsus" + NatToString(lo)] + rest;
    if i > 0 {
      TarsusRangeAt(lo + 1, hi, i - 1);
      assert lo + 1 + (i - 1) == lo + i;
      ConcatIndexRight(["Tarsus" + NatToString(lo)], rest, i - 1);
    }
  }

  lemma TarsusLinksLiteral(c: char)
    ensures TarsusLinks(c) == TarsusGeomDofs(c)
  {
    var r := TarsusRange(1, 6);
    forall i | 0 <= i < 5 ensures r[i] == TarsusGeomDofs(c)[i] {
      TarsusRangeAt(1, 6, i);
    }
  }

  lemma DofListsDistinct(c: char)
    ensures Distinct(LegDofs(c)) && Distinct(ThreeDofs(c))
    ensures Distinct(LegGeomDofs(c)) && Distinct(NoCoxaGeomDofs(c)) && Distinct(TarsusGeomDofs(c))
  {
  }

  /** all_leg_dofs: 42 names; side varies slowest, then leg position, then DoF. */
  lemma AllLegDofsLayout(s: nat, p: nat, d: nat)
    requires s < 2 && p < 3 && d < 7
    ensures |AllLegDofs()| == 42
    ensures AllLegDofs()[(s * 3 + p) * 7 + d] == "joint_" + [Sides[s], Positions[p]] + LegDofs(Positions[p])[d]
  {
    LegNamesAt("joint_", Sides, Positions, LegDofs, "", 7, s, p, d);
  }

  lemma AllLegDofsDistinct()
    ensures Distinct(AllLegDofs())
  {
    forall c ensures Distinct(LegDofs(c)) { DofListsDistinct(c); }
    LegNamesDistinct("joint_", Sides, Positions, LegDofs, "");
  }

  /** leg_dofs_3_per_leg: 18 names; each leg's first DoF is Coxa on the front
      legs and Coxa_roll on the middle and hind legs, then Femur, Tibia. */
  lemma LegDofs3PerLegLayout(s: nat, p: nat)
    requires s < 2 && p < 3
    ensures |LegDofs3PerLeg()| == 18
    ensures LegDofs3PerLeg()[(s * 3 + p) * 3] == "joint_" + [Sides[s], Positions[p]] + (if p == 0 then "Coxa" else "Coxa_roll")
    ensures LegDofs3PerLeg()[(s * 3 + p) * 3 + 1] == "joint_" + [Sides[s], Positions[p]] + "Femur"
    ensures LegDofs3PerLeg()[(s * 3 + p) * 3 + 2] == "joint_" + [Sides[s], Positions[p]] + "Tibia"
  {
    SidesAndPositionsDistinct();
    LegNamesAt("joint_", Sides, Positions, ThreeDofs, "", 3, s, p, 0);
    LegNamesAt("joint_", Sides, Positions, ThreeDofs, "", 3, s, p, 1);
    LegNamesAt("joint_", Sides, Positions, ThreeDofs, "", 3, s, p, 2);
  }

  lemma LegDofs3PerLegDistinct()
    ensures Distinct(LegDofs3PerLeg())
  {
    SidesAndPositionsDistinct();
    forall c ensures Distinct(ThreeDofs(c)) { DofListsDistinct(c); }
    LegNamesDistinct("joint_", Sides, Positions, ThreeDofs, "");
  }

  lemma TarsusLinksDistinct()
    ensures forall c :: Distinct(TarsusLinks(c))
  {
    forall c ensures Distinct(TarsusLinks(c)) {
      TarsusLinksLiteral(c);
      DofListsDistinct(c);
    }
  }

  /** The tarsus-link table over any sides and positions: five links per leg. */
  lemma TarsiLayout(sides: string, positions: string, s: nat, p: nat, d: nat)
    requires s < |sides| && p < |positions| && d < 5
    ensures |LegNames("", sides, positions, TarsusLinks, "")| == |sides| * |positions| * 5
    ensures (s * |positions| + p) * 5 + d < |LegNames("", sides, positions, TarsusLinks, "")|
    ensures LegNames("", sides, positions, TarsusLinks, "")[(s * |positions| + p) * 5 + d]
         == [sides[s], positions[p]] + "Tarsus" + NatToString(d + 1)
  {
    var link := TarsusLinks(positions[p])[d];
    assert link == "Tarsus" + NatToString(d + 1) by {
      TarsusLinkAt(positions[p], d);
    }
    assert UniformWidth(TarsusLinks, 5);
    LegNamesAt("", sides, positions, TarsusLinks, "", 5, s, p, d);
    assert "" + [sides[s], positions[p]] + link + "" == [sides[s], positions[p]] + link;
  }

  lemma TarsusLinkAt(c: char, d: nat)
    requires d < 5
    ensures TarsusLinks(c)[d] == "Tarsus" + NatToString(d + 1)
  {
    TarsusRangeAt(1, 6, d);
  }

  /** all_tarsi_links: 30 names, Tarsus1..Tarsus5 of each of the six legs. */
  lemma AllTarsiLinksLayout(s: nat, p: nat, d: nat)
    requires s < 2 && p < 3 && d < 5
    ensures |AllTarsiLinks()| == 30
    ensures AllTarsiLinks()[(s * 3 + p) * 5 + d] == [Sides[s], Positions[p]] + "Tarsus" + NatToString(d + 1)
  {
    TarsiLayout(Sides, Positions, s, p, d);
  }

  lemma AllTarsiLinksDistinct()
    ensures Distinct(AllTarsiLinks())
  {
    TarsusLinksDistinct();
    LegNamesDistinct("", Sides, Positions, TarsusLinks, "");
  }

  /** The names a preset resolves to, or [] for a rejected preset. */
  function PresetGeoms(config: string): seq<string>
  {
    match GetCollisionGeoms(config)
    case Success(names) => names
    case Failure(_) => []
  }

  /** Every accepted preset resolves: "legs" to 48 names, "legs-no-coxa"
      to 42, "tarsi" to 30 and "none" to none. */
  lemma CollisionPresetSizes(config: string)
    requires IsCollisionPreset(config)
    ensures GetCollisionGeoms(config).Success?
    ensures |PresetGeoms(config)| == (if config == "legs" then 48 else if config == "legs-no-coxa" then 42
                                      else if config == "tarsi" then 30 else 0)
  {
    if config == "legs" {
      LegNamesAt("", Sides, Positions, LegGeomDofs, CollisionSuffix, 8, 0, 0, 0);
    } else if config == "legs-no-coxa" {
      LegNamesAt("", Sides, Positions, NoCoxaGeomDofs, CollisionSuffix, 7, 0, 0, 0);
    } else if config == "tarsi" {
      LegNamesAt("", Sides, Positions, TarsusGeomDofs, CollisionSuffix, 5, 0, 0, 0);
    }
  }

  /** The names of every preset are distinct and end in "_collision". */
  lemma CollisionPresetNames(config: string)
    ensures Distinct(PresetGeoms(config))
    ensures forall x :: x in PresetGeoms(config) ==> IsSuffix(CollisionSuffix, x)
  {
    forall c ensures Distinct(LegGeomDofs(c)) && Distinct(NoCoxaGeomDofs(c)) && Distinct(TarsusGeomDofs(c)) {
      DofListsDistinct(c);
    }
    if config == "legs" {
      LegNamesDistinct("", Sides, Positions, LegGeomDofs, CollisionSuffix);
      LegNamesShaped("", Sides, Positions, LegGeomDofs, CollisionSuffix);
    } else if config == "legs-no-coxa" {
      LegNamesDistinct("", Sides, Positions, NoCoxaGeomDofs, CollisionSuffix);
      LegNamesShaped("", Sides, Positions, NoCoxaGeomDofs, CollisionSuffix);
    } else if config == "tarsi" {
      LegNamesDistinct("", Sides, Positions, TarsusGeomDofs, CollisionSuffix);
      LegNamesShaped("", Sides, Positions, TarsusGeomDofs, CollisionSuffix);
    }
  }

  lemma GeomDofsNest(c: char)
    ensures IsSubsequence(TarsusGeomDofs(c), NoCoxaGeomDofs(c))
    ensures IsSubsequence(NoCoxaGeomDofs(c), LegGeomDofs(c))
    ensures IsSubsequence(TarsusGeomDofs(c), LegGeomDofs(c))
  {
    var t, n, l := TarsusGeomDofs(c), NoCoxaGeomDofs(c), LegGeomDofs(c);
    SubsequenceReflexive(t);
    SubsequenceReflexive(n);
    assert n == ["Femur", "Tibia"] + t;
    SubsequenceAppendLeft(t, ["Femur", "Tibia"], t);
    assert l == ["Coxa"] + n;
    SubsequenceAppendLeft(n, ["Coxa"], n);
    assert l == ["Coxa", "Femur", "Tibia"] + t;
    SubsequenceAppendLeft(t, ["Coxa", "Femur", "Tibia"], t);
  }

  /** tarsi, legs-no-coxa and legs nest as ordered subsets. */
  lemma CollisionPresetsNest()
    ensures IsSubsequence(PresetGeoms("tarsi"), PresetGeoms("legs-no-coxa"))
    ensures IsSubsequence(PresetGeoms("legs-no-coxa"), PresetGeoms("legs"))
    ensures IsSubsequence(PresetGeoms("tarsi"), PresetGeoms("legs"))
  {
    forall c ensures IsSubsequence(TarsusGeomDofs(c), NoCoxaGeomDofs(c))
                  && IsSubsequence(NoCoxaGeomDofs(c), LegGeomDofs(c))
                  && IsSubsequence(TarsusGeomDofs(c), LegGeomDofs(c))
    {
      GeomDofsNest(c);
    }
    LegNamesSubsequence("", Sides, Positions, TarsusGeomDofs, NoCoxaGeomDofs, CollisionSuffix);
    LegNamesSubsequence("", Sides, Positions, NoCoxaGeomDofs, LegGeomDofs, CollisionSuffix);
    LegNamesSubsequence("", Sides, Positions, TarsusGeomDofs, LegGeomDofs, CollisionSuffix);
  }

  lemma NoCoxaDofs(c: char)
    ensures NoCoxaGeomDofs(c) == RemoveAll(LegGeomDofs(c), "Coxa")
  {
    var l := LegGeomDofs(c);
    assert RemoveAll(l, "Coxa") == RemoveAll(l[1..], "Coxa");
    assert l[1..] == NoCoxaGeomDofs(c);
    assert RemoveAll(l[1..], "Coxa") == l[1..];
  }

  /** "legs-no-coxa" is "legs" with the six Coxa geometries removed, order kept. */
  lemma NoCoxaIsLegsWithoutCoxa()
    ensures PresetGeoms("legs-no-coxa") == WithoutDof(PresetGeoms("legs"), "", "Coxa", CollisionSuffix)
  {
    forall c ensures NoCoxaGeomDofs(c) == RemoveAll(LegGeomDofs(c), "Coxa") {
      NoCoxaDofs(c);
    }
    LegNamesWithout("", Sides, Positions, LegGeomDofs, NoCoxaGeomDofs, "Coxa", CollisionSuffix);
  }

  /** get_collision_geoms rejects its own default argument "all". */
  lemma DefaultPresetRejected()
    ensures GetCollisionGeoms(DefaultCollisionConfig) == Failure(UnknownCollisionConfig("all"))
  {
  }
}
