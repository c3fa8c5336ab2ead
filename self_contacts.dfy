/** _define_self_contacts: the nested loop over the self-collision
    geometries, its exclusion rule and its name-based duplicate check. */
module SelfContacts {
  import opened Wrappers
  import opened Strings
  import opened Config
  import opened Contacts

  /** The pair (g1, g2) passes the source's filters: distinct names, both
      geometries in the model, parent bodies not adjacent. */
  predicate Admissible(geoms: GeomIndex, g1: string, g2: string)
  {
    g1 != g2 && g1 in geoms && g2 in geoms && !Adjacent(geoms[g1], geoms[g2])
  }

  /** What every registered self pair satisfies, and no name registered twice. */
  ghost predicate SoundPairs(geoms: GeomIndex, all: seq<string>, pairs: seq<ContactPair>)
  {
    && (forall p :: p in pairs ==>
          p.geom1 in all && p.geom2 in all && Admissible(geoms, p.geom1, p.geom2)
          && p == SelfPair(p.geom1, p.geom2))
    && Distinct(PairNames(pairs))
  }

  lemma AdjacentSymmetric(b1: Body, b2: Body)
    ensures Adjacent(b1, b2) == Adjacent(b2, b1)
  {
  }

  lemma NamesGrow(a: seq<ContactPair>, b: seq<ContactPair>)
    requires a <= b
    ensures forall n :: n in PairNames(a) ==> n in PairNames(b)
  {
    forall n | n in PairNames(a) ensures n in PairNames(b) {
      var i :| 0 <= i < |a| && PairNames(a)[i] == n;
      assert PairNames(b)[i] == n;
    }
  }

  lemma InInitOrLast<T>(s: seq<T>, x: T)
    requires x in s
    ensures x == s[|s| - 1] || x in s[..|s| - 1]
  {
    var k :| 0 <= k < |s| && s[k] == x;
    if k < |s| - 1 {
      assert s[..|s| - 1][k] == x;
    }
  }

  lemma StepSound(geoms: GeomIndex, all: seq<string>, g1: string, g2: string, pairs: seq<ContactPair>)
    requires g1 in all && g2 in all && SoundPairs(geoms, all, pairs)
    requires SelfStep(geoms, g1, g2, pairs).Success?
    ensures SoundPairs(geoms, all, SelfStep(geoms, g1, g2, pairs).value)
    ensures pairs <= SelfStep(geoms, g1, g2, pairs).value
    ensures Admissible(geoms, g1, g2) ==> g1 + "_" + g2 in PairNames(SelfStep(geoms, g1, g2, pairs).value)
  {
    var r := SelfStep(geoms, g1, g2, pairs).value;
    if r != pairs {
      var p := SelfPair(g1, g2);
      assert r == pairs + [p];
      PairNamesAppend(pairs, [p]);
      assert PairNames([p]) == [p.name];
      assert p.name !in PairNames(pairs);
      var names := PairNames(r);
      forall i, j | 0 <= i < j < |names| ensures names[i] != names[j] {
        if j == |names| - 1 {
          assert names[i] in PairNames(pairs);
        } else {
          assert names[i] == PairNames(pairs)[i] && names[j] == PairNames(pairs)[j];
        }
      }
    }
  }

  lemma {:induction false} InnerSound(geoms: GeomIndex, all: seq<string>, g1: string, g2s: seq<string>,
                                      start: seq<ContactPair>)
    requires g1 in all && (forall g :: g in g2s ==> g in all) && SoundPairs(geoms, all, start)
    requires SelfInner(geoms, g1, g2s, start).Success?
    ensures SoundPairs(geoms, all, SelfInner(geoms, g1, g2s, start).value)
    ensures start <= SelfInner(geoms, g1, g2s, start).value
    ensures forall g2 :: g2 in g2s && Admissible(geoms, g1, g2) ==>
              g1 + "_" + g2 in PairNames(SelfInner(geoms, g1, g2s, start).value)
    decreases |g2s|
  {
    if g2s != [] {
      var init := g2s[..|g2s| - 1];
      var last := g2s[|g2s| - 1];
      InnerSound(geoms, all, g1, init, start);
      var mid := SelfInner(geoms, g1, init, start).value;
      StepSound(geoms, all, g1, last, mid);
      var r := SelfStep(geoms, g1, last, mid).value;
      NamesGrow(mid, r);
      forall g2 | g2 in g2s && Admissible(geoms, g1, g2) ensures g1 + "_" + g2 in PairNames(r) {
        InInitOrLast(g2s, g2);
      }
    }
  }

  lemma {:induction false} OuterSound(geoms: GeomIndex, g1s: seq<string>, all: seq<string>)
    requires forall g :: g in g1s ==> g in all
    requires SelfOuter(geoms, g1s, all).Success?
    ensures SoundPairs(geoms, all, SelfOuter(geoms, g1s, all).value)
    ensures forall g1, g2 :: g1 in g1s && g2 in all && Admissible(geoms, g1, g2) ==>
              g1 + "_" + g2 in PairNames(SelfOuter(geoms, g1s, all).value)
    decreases |g1s|
  {
    if g1s != [] {
      var init := g1s[..|g1s| - 1];
      var last := g1s[|g1s| - 1];
      OuterSound(geoms, init, all);
      var mid := SelfOuter(geoms, init, all).value;
      InnerSound(geoms, all, last, all, mid);
      var r := SelfInner(geoms, last, all, mid).value;
      assert SelfOuter(geoms, g1s, all) == SelfInner(geoms, last, all, mid);
      NamesGrow(mid, r);
      forall g1, g2 | g1 in g1s && g2 in all && Admissible(geoms, g1, g2)
        ensures g1 + "_" + g2 in PairNames(r)
      {
        InInitOrLast(g1s, g1);
      }
    }
  }

  lemma {:induction false} InnerFailure(geoms: GeomIndex, g1: string, g2s: seq<string>, start: seq<ContactPair>)
    requires SelfInner(geoms, g1, g2s, start).Failure?
    ensures var e := SelfInner(geoms, g1, g2s, start).error;
      e.UnknownGeom? && (e.name == g1 || e.name in g2s) && e.name !in geoms
    decreases |g2s|
  {
    var init := g2s[..|g2s| - 1];
    if SelfInner(geoms, g1, init, start).Failure? {
      InnerFailure(geoms, g1, init, start);
      var e := SelfInner(geoms, g1, init, start).error;
      if e.name != g1 {
        var k :| 0 <= k < |init| && init[k] == e.name;
        assert g2s[k] == e.name;
      }
    }
  }

  lemma {:induction false} OuterFailure(geoms: GeomIndex, g1s: seq<string>, all: seq<string>)
    requires SelfOuter(geoms, g1s, all).Failure?
    ensures var e := SelfOuter(geoms, g1s, all).error;
      e.UnknownGeom? && (e.name in g1s || e.name in all) && e.name !in geoms
    decreases |g1s|
  {
    var init := g1s[..|g1s| - 1];
    if SelfOuter(geoms, init, all).Failure? {
      OuterFailure(geoms, init, all);
      var e := SelfOuter(geoms, init, all).error;
      if e.name in init {
        var k :| 0 <= k < |init| && init[k] == e.name;
        assert g1s[k] == e.name;
      }
    } else {
      InnerFailure(geoms, g1s[|g1s| - 1], all, SelfOuter(geoms, init, all).value);
    }
  }

  /** Every registered self pair joins two distinct listed geometries whose
      parent bodies are not adjacent, is named "{geom1}_{geom2}", and no name
      is registered twice. */
  lemma SelfContactsSound(geoms: GeomIndex, selfGeoms: seq<string>)
    requires SelfContacts(geoms, selfGeoms).Success?
    ensures var pairs := SelfContacts(geoms, selfGeoms).value;
      && Distinct(PairNames(pairs))
      && forall p :: p in pairs ==>
           && p.geom1 != p.geom2
           && p.geom1 in selfGeoms && p.geom2 in selfGeoms
           && p.geom1 in geoms && p.geom2 in geoms
           && !Adjacent(geoms[p.geom1], geoms[p.geom2])
           && p.name == p.geom1 + "_" + p.geom2
           && p.solref == PairSolref && p.margin == 0.0 && p.friction == None
  {
    OuterSound(geoms, selfGeoms, selfGeoms);
  }

  /** Every admissible ordered pair of listed geometries has its name
      "{geom1}_{geom2}" registered; since the test is symmetric and the
      duplicate check only looks at that one order, both orders are. */
  lemma SelfContactsComplete(geoms: GeomIndex, selfGeoms: seq<string>, g1: string, g2: string)
    requires SelfContacts(geoms, selfGeoms).Success?
    requires g1 in selfGeoms && g2 in selfGeoms && Admissible(geoms, g1, g2)
    ensures g1 + "_" + g2 in PairNames(SelfContacts(geoms, selfGeoms).value)
    ensures g2 + "_" + g1 in PairNames(SelfContacts(geoms, selfGeoms).value)
  {
    OuterSound(geoms, selfGeoms, selfGeoms);
    AdjacentSymmetric(geoms[g1], geoms[g2]);
    assert Admissible(geoms, g2, g1);
  }

  /** An admissible unordered pair whose two orientations name differently
      is registered twice, once per order. */
  lemma RegisteredInBothOrders(geoms: GeomIndex, selfGeoms: seq<string>, a: string, b: string)
    requires SelfContacts(geoms, selfGeoms).Success?
    requires a in selfGeoms && b in selfGeoms && Admissible(geoms, a, b)
    requires a + "_" + b != b + "_" + a
    ensures var pairs := SelfContacts(geoms, selfGeoms).value;
      exists i, j :: 0 <= i < |pairs| && 0 <= j < |pairs| && i != j
        && pairs[i] == SelfPair(pairs[i].geom1, pairs[i].geom2) && pairs[i].name == a + "_" + b
        && pairs[j] == SelfPair(pairs[j].geom1, pairs[j].geom2) && pairs[j].name == b + "_" + a
  {
    var pairs := SelfContacts(geoms, selfGeoms).value;
    SelfContactsComplete(geoms, selfGeoms, a, b);
    SelfContactsSound(geoms, selfGeoms);
    var i :| 0 <= i < |pairs| && PairNames(pairs)[i] == a + "_" + b;
    var j :| 0 <= j < |pairs| && PairNames(pairs)[j] == b + "_" + a;
    assert pairs[i] in pairs && pairs[j] in pairs;
  }

  /** The lookup fails only on a listed geometry the model does not have;
      when every listed geometry exists, enumeration succeeds. */
  lemma SelfContactsFailure(geoms: GeomIndex, selfGeoms: seq<string>)
    ensures SelfContacts(geoms, selfGeoms).Failure? ==>
      var e := SelfContacts(geoms, selfGeoms).error;
      e.UnknownGeom? && e.name in selfGeoms && e.name !in geoms
    ensures (forall g :: g in selfGeoms ==> g in geoms) ==> SelfContacts(geoms, selfGeoms).Success?
  {
    if SelfContacts(geoms, selfGeoms).Failure? {
      OuterFailure(geoms, selfGeoms, selfGeoms);
    }
  }

  // ---------------------------------------------------------------------
  // The loops

  lemma {:induction false} InnerFailureSticks(geoms: GeomIndex, g1: string, g2s: seq<string>, k: nat,
                                              start: seq<ContactPair>)
    requires k <= |g2s|
    requires SelfInner(geoms, g1, g2s[..k], start).Failure?
    ensures SelfInner(geoms, g1, g2s, start) == SelfInner(geoms, g1, g2s[..k], start)
    decreases |g2s| - k
  {
    if k < |g2s| {
      assert g2s[..k + 1][..k] == g2s[..k];
      assert SelfInner(geoms, g1, g2s[..k + 1], start) == SelfInner(geoms, g1, g2s[..k], start);
      InnerFailureSticks(geoms, g1, g2s, k + 1, start);
    } else {
      assert g2s[..k] == g2s;
    }
  }

  lemma {:induction false} OuterFailureSticks(geoms: GeomIndex, g1s: seq<string>, k: nat, all: seq<string>)
    requires k <= |g1s|
    requires SelfOuter(geoms, g1s[..k], all).Failure?
    ensures SelfOuter(geoms, g1s, all) == SelfOuter(geoms, g1s[..k], all)
    decreases |g1s| - k
  {
    if k < |g1s| {
      assert g1s[..k + 1][..k] == g1s[..k];
      assert SelfOuter(geoms, g1s[..k + 1], all) == SelfOuter(geoms, g1s[..k], all);
      OuterFailureSticks(geoms, g1s, k + 1, all);
    } else {
      assert g1s[..k] == g1s;
    }
  }

  /** One more geom2 of the inner loop is one more SelfStep. */
  lemma InnerStep(geoms: GeomIndex, g1: string, g2s: seq<string>, j: nat, start: seq<ContactPair>,
                  pairs: seq<ContactPair>)
    requires j < |g2s| && SelfInner(geoms, g1, g2s[..j], start) == Success(pairs)
    ensures SelfInner(geoms, g1, g2s[..j + 1], start) == SelfStep(geoms, g1, g2s[j], pairs)
  {
    assert g2s[..j + 1][..j] == g2s[..j];
  }

  /** One more geom1 of the outer loop is one more full inner loop. */
  lemma OuterStep(geoms: GeomIndex, all: seq<string>, i: nat, pairs: seq<ContactPair>)
    requires i < |all| && SelfOuter(geoms, all[..i], all) == Success(pairs)
    ensures SelfOuter(geoms, all[..i + 1], all) == SelfInner(geoms, all[i], all, pairs)
  {
    assert all[..i + 1][..i] == all[..i];
  }

  /** A failure in the inner loop for geom1 = all[i] is the result of the whole enumeration. */
  lemma AbortSticks(geoms: GeomIndex, all: seq<string>, i: nat, j: nat, before: seq<ContactPair>)
    requires i < |all| && j < |all|
    requires SelfOuter(geoms, all[..i], all) == Success(before)
    requires SelfInner(geoms, all[i], all[..j + 1], before).Failure?
    ensures SelfContacts(geoms, all) == SelfInner(geoms, all[i], all[..j + 1], before)
  {
    InnerFailureSticks(geoms, all[i], all, j + 1, before);
    OuterStep(geoms, all, i, before);
    OuterFailureSticks(geoms, all, i + 1, all);
    assert all[..|all|] == all;
  }

  datatype SelfContactLists = SelfContactLists(pairs: seq<ContactPair>, names: seq<string>)

  /** _define_self_contacts, as written: for every geom1, for every geom2,
      skip equal names and names already registered in this order, look up
      both parent bodies (raising on a missing geometry), and register the
      pair unless the bodies are adjacent. */
  method DefineSelfContacts(geoms: GeomIndex, selfGeoms: seq<string>)
    returns (r: Result<SelfContactLists, ContactError>)
    ensures r.Success? <==> SelfContacts(geoms, selfGeoms).Success?
    ensures r.Success? ==>
      r.value.pairs == SelfContacts(geoms, selfGeoms).value && r.value.names == PairNames(r.value.pairs)
    ensures r.Failure? ==> r.error == SelfContacts(geoms, selfGeoms).error
  {
    var pairs: seq<ContactPair> := [];
    var names: seq<string> := [];
    var i := 0;
    while i < |selfGeoms|
      invariant 0 <= i <= |selfGeoms|
      invariant SelfOuter(geoms, selfGeoms[..i], selfGeoms) == Success(pairs)
      invariant names == PairNames(pairs)
    {
      var geom1 := selfGeoms[i];
      ghost var before := pairs;
      var j := 0;
      while j < |selfGeoms|
        invariant 0 <= j <= |selfGeoms|
        invariant SelfInner(geoms, geom1, selfGeoms[..j], before) == Success(pairs)
        invariant names == PairNames(pairs)
      {
        var geom2 := selfGeoms[j];
        InnerStep(geoms, geom1, selfGeoms, j, before, pairs);
        var isDuplicate := geom1 + "_" + geom2 in names;
        if geom1 != geom2 && !isDuplicate {
          if geom1 !in geoms || geom2 !in geoms {
            var e := if geom1 !in geoms then UnknownGeom(geom1) else UnknownGeom(geom2);
            AbortSticks(geoms, selfGeoms, i, j, before);
            return Failure(e);
          }
          var body1 := geoms[geom1];
          var body2 := geoms[geom2];
          if !Adjacent(body1, body2) {
            var pair := SelfPair(geom1, geom2);
            PairNamesAppend(pairs, [pair]);
            pairs := pairs + [pair];
            names := names + [pair.name];
          }
        }
        j := j + 1;
      }
      OuterStep(geoms, selfGeoms, i, before);
      assert selfGeoms[..j] == selfGeoms;
      i := i + 1;
    }
    assert selfGeoms[..i] == selfGeoms;
    return Success(SelfContactLists(pairs, names));
  }
}
