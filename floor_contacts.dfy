/** _define_floor_contacts: every ground geometry of the arena paired with
    every listed fly geometry, anonymous ground geometries renamed in place
    from a counter, and the friction of each pair. */
module FloorContacts {
  import opened Wrappers
  import opened Strings
  import opened Config
  import opened ConfigProperties
  import opened Contacts

  /** The friction vector is [m0, m0, m1, m2, m2] for the elementwise mean m
      of the fly's and the arena's triples. */
  lemma FloorFrictionLayout(fly: Friction, arena: Friction)
    ensures var m0, m1, m2 := (fly.sliding + arena.sliding) / 2.0,
                              (fly.torsional + arena.torsional) / 2.0,
                              (fly.rolling + arena.rolling) / 2.0;
      FloorFriction(fly, arena) == [m0, m0, m1, m2, m2]
  {
    var m := MeanFriction(fly, arena);
    var vs: seq<real> := [m.sliding, m.torsional, m.rolling];
    var cs: seq<nat> := [2, 1, 2];
    assert vs[1..][1..][1..] == [] && cs[1..][1..][1..] == [];
    assert Repeat(vs[1..][1..], cs[1..][1..]) == [m.rolling, m.rolling];
    assert Repeat(vs[1..], cs[1..]) == [m.torsional, m.rolling, m.rolling];
  }

  // ---------------------------------------------------------------------
  // Reference definitions

  function NoneCount(arenaGeoms: seq<Option<string>>): nat
  {
    if arenaGeoms == [] then 0
    else NoneCount(arenaGeoms[..|arenaGeoms| - 1]) + (if arenaGeoms[|arenaGeoms| - 1].None? then 1 else 0)
  }

  function GroundCount(arenaGeoms: seq<Option<string>>): nat
  {
    if arenaGeoms == [] then 0
    else GroundCount(arenaGeoms[..|arenaGeoms| - 1]) + (if IsGround(arenaGeoms[|arenaGeoms| - 1]) then 1 else 0)
  }

  /** The names of the ground geometries in arena order, an anonymous one
      named after the number of anonymous geometries before it. */
  function GroundLabels(arenaGeoms: seq<Option<string>>): seq<string>
  {
    if arenaGeoms == [] then []
    else
      var init := arenaGeoms[..|arenaGeoms| - 1];
      var last := arenaGeoms[|arenaGeoms| - 1];
      GroundLabels(init) + (if IsGround(last) then [GroundName(last, NoneCount(init))] else [])
  }

  /** Ground-major cross product: every ground with every body geometry. */
  function CrossPairs(grounds: seq<string>, bodyGeoms: seq<string>, friction: seq<real>): seq<ContactPair>
  {
    if grounds == [] then []
    else CrossPairs(grounds[..|grounds| - 1], bodyGeoms, friction)
         + GroundBlock(grounds[|grounds| - 1], bodyGeoms, friction)
  }

  // ---------------------------------------------------------------------
  // Cross product layout

  lemma {:induction false} CrossPairsAt(grounds: seq<string>, bodyGeoms: seq<string>, friction: seq<real>,
                                        q: nat, j: nat)
    ensures |CrossPairs(grounds, bodyGeoms, friction)| == Offset(|grounds|, |bodyGeoms|)
    ensures q < |grounds| && j < |bodyGeoms| ==>
      Offset(q, |bodyGeoms|) + j < |CrossPairs(grounds, bodyGeoms, friction)| &&
      CrossPairs(grounds, bodyGeoms, friction)[Offset(q, |bodyGeoms|) + j]
        == FloorPair(grounds[q], bodyGeoms[j], friction)
    decreases |grounds|
  {
    if grounds != [] {
      var init := grounds[..|grounds| - 1];
      var head := CrossPairs(init, bodyGeoms, friction);
      var block := GroundBlock(grounds[|grounds| - 1], bodyGeoms, friction);
      assert CrossPairs(grounds, bodyGeoms, friction) == head + block;
      CrossPairsAt(init, bodyGeoms, friction, q, j);
      if q < |grounds| && j < |bodyGeoms| {
        OffsetBound(q, |grounds|, |bodyGeoms|, j);
        if q < |init| {
          OffsetBound(q, |init|, |bodyGeoms|, j);
          assert init[q] == grounds[q];
          ConcatIndexLeft(head, block, Offset(q, |bodyGeoms|) + j);
        } else {
          ConcatIndexRight(head, block, j);
        }
      }
    }
  }

  /** Exactly one pair per (ground geometry, listed body geometry), ground
      major, named "{ground}_{body}" and carrying the floor friction. */
  lemma CrossPairsLayout(grounds: seq<string>, bodyGeoms: seq<string>, friction: seq<real>, q: nat, j: nat)
    requires q < |grounds| && j < |bodyGeoms|
    ensures |CrossPairs(grounds, bodyGeoms, friction)| == |grounds| * |bodyGeoms|
    ensures q * |bodyGeoms| + j < |grounds| * |bodyGeoms|
    ensures var p := CrossPairs(grounds, bodyGeoms, friction)[q * |bodyGeoms| + j];
      p.name == grounds[q] + "_" + bodyGeoms[j] && p.geom1 == "Animat/" + bodyGeoms[j]
      && p.geom2 == grounds[q] && p.friction == Some(friction)
      && p.solref == PairSolref && p.margin == 0.0
  {
    CrossPairsAt(grounds, bodyGeoms, friction, q, j);
    OffsetIsProduct(q, |bodyGeoms|);
    OffsetIsProduct(|grounds|, |bodyGeoms|);
  }

  // ---------------------------------------------------------------------
  // The fold against the reference

  lemma {:induction false} FloorFoldPairs(arenaGeoms: seq<Option<string>>, bodyGeoms: seq<string>, friction: seq<real>)
    ensures FloorFold(arenaGeoms, bodyGeoms, friction).pairs == CrossPairs(GroundLabels(arenaGeoms), bodyGeoms, friction)
    ensures FloorFold(arenaGeoms, bodyGeoms, friction).groundId == (if bodyGeoms == [] then 0 else NoneCount(arenaGeoms))
    ensures |GroundLabels(arenaGeoms)| == GroundCount(arenaGeoms)
    decreases |arenaGeoms|
  {
    if arenaGeoms != [] {
      var init := arenaGeoms[..|arenaGeoms| - 1];
      FloorFoldPairs(init, bodyGeoms, friction);
      var labels := GroundLabels(init);
      var last := arenaGeoms[|arenaGeoms| - 1];
      if IsGround(last) {
        var all := labels + [GroundName(last, NoneCount(init))];
        assert GroundLabels(arenaGeoms) == all;
        assert all[..|all| - 1] == labels;
        assert CrossPairs(all, bodyGeoms, friction)
            == CrossPairs(labels, bodyGeoms, friction) + GroundBlock(GroundName(last, NoneCount(init)), bodyGeoms, friction);
        if bodyGeoms == [] {
          assert GroundBlock(GroundName(last, NoneCount(init)), bodyGeoms, friction) == [];
        }
      } else {
        assert GroundLabels(arenaGeoms) == labels;
      }
    }
  }

  lemma {:induction false} NoneCountPrefix(arenaGeoms: seq<Option<string>>, i: nat, j: nat)
    requires i < j <= |arenaGeoms| && arenaGeoms[i].None?
    ensures NoneCount(arenaGeoms[..i]) < NoneCount(arenaGeoms[..j])
    decreases j
  {
    var pre := arenaGeoms[..j];
    assert pre[..j - 1] == arenaGeoms[..j - 1];
    if j - 1 > i {
      NoneCountPrefix(arenaGeoms, i, j - 1);
    } else {
      assert arenaGeoms[..j - 1] == arenaGeoms[..i];
    }
  }

  /** Names after the loop: an anonymous geometry becomes
      "groundblock_{n}" with n the number of anonymous geometries before it,
      but only when the body-geometry list is non-empty; every other name is
      unchanged. */
  lemma {:induction false} FloorFoldNames(arenaGeoms: seq<Option<string>>, bodyGeoms: seq<string>, friction: seq<real>)
    ensures |FloorFold(arenaGeoms, bodyGeoms, friction).names| == |arenaGeoms|
    ensures forall i :: 0 <= i < |arenaGeoms| ==>
      FloorFold(arenaGeoms, bodyGeoms, friction).names[i]
        == if arenaGeoms[i].None? && bodyGeoms != [] then Some(GroundBlockName(NoneCount(arenaGeoms[..i])))
           else arenaGeoms[i]
    decreases |arenaGeoms|
  {
    if arenaGeoms != [] {
      var n := |arenaGeoms| - 1;
      var init := arenaGeoms[..n];
      FloorFoldNames(init, bodyGeoms, friction);
      FloorFoldPairs(init, bodyGeoms, friction);
      var names := FloorFold(arenaGeoms, bodyGeoms, friction).names;
      forall i | 0 <= i < |arenaGeoms|
        ensures names[i] == if arenaGeoms[i].None? && bodyGeoms != [] then Some(GroundBlockName(NoneCount(arenaGeoms[..i])))
                            else arenaGeoms[i]
      {
        if i < n {
          assert init[i] == arenaGeoms[i];
          assert init[..i] == arenaGeoms[..i];
        }
      }
    }
  }

  /** Anonymous geometries get pairwise distinct names. */
  lemma RenamedGroundsDistinct(arenaGeoms: seq<Option<string>>, bodyGeoms: seq<string>, friction: seq<real>, i: nat, j: nat)
    requires i < j < |arenaGeoms| && arenaGeoms[i].None? && arenaGeoms[j].None? && bodyGeoms != []
    ensures FloorFold(arenaGeoms, bodyGeoms, friction).names[i] != FloorFold(arenaGeoms, bodyGeoms, friction).names[j]
  {
    FloorFoldNames(arenaGeoms, bodyGeoms, friction);
    NoneCountPrefix(arenaGeoms, i, j);
    var a, b := NoneCount(arenaGeoms[..i]), NoneCount(arenaGeoms[..j]);
    if GroundBlockName(a) == GroundBlockName(b) {
      assert GroundBlockName(a)[12..] == NatToString(a);
      assert GroundBlockName(b)[12..] == NatToString(b);
      NatToStringInjective(a, b);
    }
  }

  // ---------------------------------------------------------------------
  // The loops

  lemma GroundBlockSnoc(ground: string, bodyGeoms: seq<string>, j: nat, friction: seq<real>)
    requires j < |bodyGeoms|
    ensures GroundBlock(ground, bodyGeoms[..j + 1], friction)
         == GroundBlock(ground, bodyGeoms[..j], friction) + [FloorPair(ground, bodyGeoms[j], friction)]
  {
  }

  lemma FloorFoldStep(arenaGeoms: seq<Option<string>>, i: nat, bodyGeoms: seq<string>, friction: seq<real>)
    requires i < |arenaGeoms|
    ensures FloorFold(arenaGeoms[..i + 1], bodyGeoms, friction)
         == FloorGeom(FloorFold(arenaGeoms[..i], bodyGeoms, friction), arenaGeoms[i], bodyGeoms, friction)
  {
    assert arenaGeoms[..i + 1][..i] == arenaGeoms[..i];
  }

  /** The fold after arena geometry i, in the terms the loop state is kept in. */
  lemma VisitGeomDone(orig: seq<Option<string>>, i: nat, bodyGeoms: seq<string>, friction: seq<real>,
                      pairs0: seq<ContactPair>, names0: seq<Option<string>>, id0: nat)
    requires i < |orig| == |names0| && names0[i] == orig[i]
    requires FloorFold(orig[..i], bodyGeoms, friction) == FloorState(pairs0, names0[..i], id0)
    ensures var g, ground := orig[i], GroundName(orig[i], id0);
      FloorFold(orig[..i + 1], bodyGeoms, friction)
        == if IsGround(g) && bodyGeoms != [] then
             FloorState(pairs0 + GroundBlock(ground, bodyGeoms, friction), names0[i := Some(ground)][..i + 1],
                        if g.None? then id0 + 1 else id0)
           else FloorState(pairs0, names0[..i + 1], id0)
  {
    FloorFoldStep(orig, i, bodyGeoms, friction);
    UpdateSplits(names0, i, Some(GroundName(orig[i], id0)));
  }

  /** Replacing entry i leaves the prefix before it and the suffix after it. */
  lemma UpdateSplits<T>(xs: seq<T>, i: nat, x: T)
    requires i < |xs|
    ensures xs[i := x][..i + 1] == xs[..i] + [x]
    ensures xs[i := x][i + 1..] == xs[i + 1..]
    ensures xs[..i + 1] == xs[..i] + [xs[i]]
  {
  }

  /** _define_floor_contacts, as written: for each arena geometry that is
      ground, for each listed body geometry, name the ground geometry from
      the counter if it has no name yet, and register the pair with the
      repeated mean friction. */
  method DefineFloorContacts(arena: Arena, floorGeoms: seq<string>, flyFriction: Friction)
    returns (pairs: seq<ContactPair>, names: seq<string>)
    modifies arena
    ensures var s := FloorFold(old(arena.geomNames), floorGeoms, FloorFriction(flyFriction, arena.friction));
      arena.geomNames == s.names && pairs == s.pairs
    ensures names == PairNames(pairs)
    ensures arena.contactPairs == old(arena.contactPairs) + pairs
  {
    ghost var orig := arena.geomNames;
    ghost var fr := FloorFriction(flyFriction, arena.friction);
    pairs, names := [], [];
    var groundId: nat := 0;
    var n := |arena.geomNames|;
    var i := 0;
    while i < n
      invariant 0 <= i <= n == |arena.geomNames| == |orig|
      invariant FloorFold(orig[..i], floorGeoms, fr) == FloorState(pairs, arena.geomNames[..i], groundId)
      invariant arena.geomNames[i..] == orig[i..]
      invariant names == PairNames(pairs)
      invariant arena.contactPairs == old(arena.contactPairs) + pairs
    {
      assert arena.geomNames[i] == orig[i] by { assert arena.geomNames[i..][0] == orig[i..][0]; }
      var isGround := IsGround(arena.geomNames[i]);
      ghost var g0, id0, pairs0, names0 := arena.geomNames[i], groundId, pairs, arena.geomNames;
      ghost var ground := GroundName(g0, id0);
      if isGround {
        var j := 0;
        while j < |floorGeoms|
          invariant 0 <= j <= |floorGeoms|
          invariant j == 0 ==> arena.geomNames == names0 && groundId == id0
          invariant j > 0 ==> arena.geomNames == names0[i := Some(ground)]
                              && groundId == (if g0.None? then id0 + 1 else id0)
          invariant pairs == pairs0 + GroundBlock(ground, floorGeoms[..j], fr)
          invariant names == PairNames(pairs)
          invariant arena.contactPairs == old(arena.contactPairs) + pairs
        {
          if arena.geomNames[i].None? {
            arena.geomNames := arena.geomNames[i := Some(GroundBlockName(groundId))];
            groundId := groundId + 1;
          }
          var meanFriction := MeanFriction(flyFriction, arena.friction);
          var friction := Repeat([meanFriction.sliding, meanFriction.torsional, meanFriction.rolling], [2, 1, 2]);
          var pair := FloorPair(arena.geomNames[i].value, floorGeoms[j], friction);
          GroundBlockSnoc(ground, floorGeoms, j, fr);
          PairNamesAppend(pairs, [pair]);
          arena.contactPairs := arena.contactPairs + [pair];
          pairs := pairs + [pair];
          names := names + [pair.name];
          j := j + 1;
        }
        assert floorGeoms[..j] == floorGeoms;
      }
      VisitGeomDone(orig, i, floorGeoms, fr, pairs0, names0, id0);
      UpdateSplits(names0, i, Some(ground));
      assert names0[i + 1..] == names0[i..][1..];
      i := i + 1;
    }
    assert orig[..n] == orig;
    assert arena.geomNames[..n] == arena.geomNames;
  }
}
