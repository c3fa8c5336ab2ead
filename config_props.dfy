/** Properties of the configuration tables: sizes, the order of the nested
    comprehensions, distinct names, the `_collision` suffix and how the
    collision presets nest inside each other. */
module ConfigProperties {
  import opened Wrappers
  import opened Strings
  import opened Config

  /** Every leg position is given the same number of DoFs. */
  ghost predicate UniformWidth(dofsAt: char -> seq<string>, k: nat)
  {
    forall c :: |dofsAt(c)| == k
  }

  // ---------------------------------------------------------------------
  // Length and order

  /** Where block q of width w starts: w added q times. */
  function Offset(q: nat, w: nat): nat
  {
    if q == 0 then 0 else Offset(q - 1, w) + w
  }

  lemma {:induction false} OffsetIsProduct(q: nat, w: nat)
    ensures Offset(q, w) == q * w
  {
    if q > 0 {
      OffsetIsProduct(q - 1, w);
      assert q * w == (q - 1) * w + w;
    }
  }

  lemma {:induction false} OffsetBound(q: nat, n: nat, w: nat, r: nat)
    requires q < n && r < w
    ensures Offset(q, w) + r < Offset(n, w)
    decreases n
  {
    if q < n - 1 {
      OffsetBound(q, n - 1, w, r);
    }
  }

  lemma RowMajor(s: nat, n: nat, p: nat, k: nat, d: nat)
    ensures (s * n + p) * k + d == Offset(s, Offset(n, k)) + (Offset(p, k) + d)
    ensures Offset(s, Offset(n, k)) == s * n * k
  {
    OffsetIsProduct(n, k);
    OffsetIsProduct(p, k);
    OffsetIsProduct(s, n * k);
    assert (s * n + p) * k == s * n * k + p * k;
    assert s * n * k == s * (n * k);
  }

  lemma {:induction false} SideEntriesLength(prefix: string, side: char, positions: string,
                                             dofsAt: char -> seq<string>, suffix: string, k: nat)
    requires UniformWidth(dofsAt, k)
    ensures |SideEntries(prefix, side, positions, dofsAt, suffix)| == Offset(|positions|, k)
    decreases |positions|
  {
    if positions != [] {
      SideEntriesLength(prefix, side, positions[1..], dofsAt, suffix, k);
    }
  }

  lemma {:induction false} SideEntriesAt(prefix: string, side: char, positions: string,
                                         dofsAt: char -> seq<string>, suffix: string, k: nat, p: nat, d: nat)
    requires UniformWidth(dofsAt, k)
    requires p < |positions| && d < k
    ensures Offset(p, k) + d < |SideEntries(prefix, side, positions, dofsAt, suffix)|
    ensures SideEntries(prefix, side, positions, dofsAt, suffix)[Offset(p, k) + d]
        == prefix + [side, positions[p]] + dofsAt(positions[p])[d] + suffix
    decreases |positions|
  {
    SideEntriesLength(prefix, side, positions, dofsAt, suffix, k);
    OffsetBound(p, |positions|, k, d);
    var head := DofEntries(prefix, side, positions[0], dofsAt(positions[0]), suffix);
    var rest := SideEntries(prefix, side, positions[1..], dofsAt, suffix);
    assert SideEntries(prefix, side, positions, dofsAt, suffix) == head + rest;
    if p == 0 {
      DofEntriesAt(prefix, side, positions[0], dofsAt(positions[0]), suffix);
    } else {
      SideEntriesAt(prefix, side, positions[1..], dofsAt, suffix, k, p - 1, d);
      var j := Offset(p - 1, k) + d;
      assert positions[1..][p - 1] == positions[p];
      assert (head + rest)[|head| + j] == rest[j];
    }
  }

  /** Every side contributes the same number w of names. */
  ghost predicate UniformSides(prefix: string, positions: string, dofsAt: char -> seq<string>,
                               suffix: string, w: nat)
  {
    forall c :: |SideEntries(prefix, c, positions, dofsAt, suffix)| == w
  }

  lemma UniformSidesOf(prefix: string, positions: string, dofsAt: char -> seq<string>,
                       suffix: string, k: nat)
    requires UniformWidth(dofsAt, k)
    ensures UniformSides(prefix, positions, dofsAt, suffix, Offset(|positions|, k))
  {
    forall c ensures |SideEntries(prefix, c, positions, dofsAt, suffix)| == Offset(|positions|, k) {
      SideEntriesLength(prefix, c, positions, dofsAt, suffix, k);
    }
  }

  lemma {:induction false} LegNamesLength(prefix: string, sides: string, positions: string,
                                          dofsAt: char -> seq<string>, suffix: string, w: nat)
    requires UniformSides(prefix, positions, dofsAt, suffix, w)
    ensures |LegNames(prefix, sides, positions, dofsAt, suffix)| == Offset(|sides|, w)
    decreases |sides|
  {
    if sides != [] {
      assert |SideEntries(prefix, sides[0], positions, dofsAt, suffix)| == w;
      LegNamesLength(prefix, sides[1..], positions, dofsAt, suffix, w);
    }
  }

  /** Side s contributes the s-th block of w names. */
  lemma {:induction false} LegNamesBlockAt(prefix: string, sides: string, positions: string,
                                           dofsAt: char -> seq<string>, suffix: string,
                                           w: nat, s: nat, i: nat)
    requires UniformSides(prefix, positions, dofsAt, suffix, w)
    requires s < |sides| && i < w
    ensures Offset(s, w) + i < |LegNames(prefix, sides, positions, dofsAt, suffix)|
    ensures |SideEntries(prefix, sides[s], positions, dofsAt, suffix)| == w
    ensures LegNames(prefix, sides, positions, dofsAt, suffix)[Offset(s, w) + i]
        == SideEntries(prefix, sides[s], positions, dofsAt, suffix)[i]
    decreases |sides|
  {
    var head := SideEntries(prefix, sides[0], positions, dofsAt, suffix);
    var rest := LegNames(prefix, sides[1..], positions, dofsAt, suffix);
    assert |head| == w;
    assert LegNames(prefix, sides, positions, dofsAt, suffix) == head + rest;
    LegNamesLength(prefix, sides, positions, dofsAt, suffix, w);
    OffsetBound(s, |sides|, w, i);
    if s == 0 {
      ConcatIndexLeft(head, rest, i);
    } else {
      LegNamesBlockAt(prefix, sides[1..], positions, dofsAt, suffix, w, s - 1, i);
      assert sides[1..][s - 1] == sides[s];
      ConcatIndexRight(head, rest, Offset(s - 1, w) + i);
    }
  }

  lemma ConcatIndexLeft<T>(a: seq<T>, b: seq<T>, j: nat)
    requires j < |a|
    ensures (a + b)[j] == a[j]
  {
  }

  lemma ConcatIndexRight<T>(a: seq<T>, b: seq<T>, j: nat)
    requires j < |b|
    ensures (a + b)[|a| + j] == b[j]
  {
  }

  /** Entry (s, p, d) of the nested comprehension sits at row-major index
      (s * |positions| + p) * k + d: sides vary slowest, DoFs fastest. */
  lemma LegNamesAt(prefix: string, sides: string, positions: string,
                   dofsAt: char -> seq<string>, suffix: string,
                   k: nat, s: nat, p: nat, d: nat)
    requires UniformWidth(dofsAt, k)
    requires s < |sides| && p < |positions| && d < k
    ensures |LegNames(prefix, sides, positions, dofsAt, suffix)| == |sides| * |positions| * k
    ensures (s * |positions| + p) * k + d < |LegNames(prefix, sides, positions, dofsAt, suffix)|
    ensures LegNames(prefix, sides, positions, dofsAt, suffix)[(s * |positions| + p) * k + d]
        == prefix + [sides[s], positions[p]] + dofsAt(positions[p])[d] + suffix
  {
    var w := Offset(|positions|, k);
    var j := Offset(p, k) + d;
    assert (s * |positions| + p) * k + d == Offset(s, w) + j && |sides| * |positions| * k == Offset(|sides|, w) by {
      RowMajor(s, |positions|, p, k, d);
      RowMajor(|sides|, |positions|, 0, k, 0);
    }
    UniformSidesOf(prefix, positions, dofsAt, suffix, k);
    LegNamesLength(prefix, sides, positions, dofsAt, suffix, w);
    SideEntriesAt(prefix, sides[s], positions, dofsAt, suffix, k, p, d);
    LegNamesBlockAt(prefix, sides, positions, dofsAt, suffix, w, s, j);
  }

  // ---------------------------------------------------------------------
  // The shape of every generated name

  /** `x` reads prefix, a side letter, a position letter, one of that
      position's DoFs, suffix. */
  ghost predicate Shaped(x: string, prefix: string, sides: string, positions: string,
                         dofsAt: char -> seq<string>, suffix: string)
  {
    && |x| >= |prefix| + 2 + |suffix|
    && x[..|prefix|] == prefix
    && x[|prefix|] in sides
    && x[|prefix| + 1] in positions
    && x[|x| - |suffix|..] == suffix
    && x[|prefix| + 2..|x| - |suffix|] in dofsAt(x[|prefix| + 1])
  }

  lemma EntryParts(prefix: string, side: char, pos: char, dof: string, suffix: string)
    ensures var x := prefix + [side, pos] + dof + suffix;
      && |x| == |prefix| + 2 + |dof| + |suffix|
      && x[..|prefix|] == prefix
      && x[|prefix|] == side
      && x[|prefix| + 1] == pos
      && x[|x| - |suffix|..] == suffix
      && x[|prefix| + 2..|x| - |suffix|] == dof
      && x[|prefix| + 2..] == dof + suffix
  {
    var x := prefix + [side, pos] + dof + suffix;
    assert x[..|prefix|] == prefix;
    assert x[|x| - |suffix|..] == suffix;
    assert x[|prefix| + 2..|x| - |suffix|] == dof;
    assert x[|prefix| + 2..] == dof + suffix;
  }

  lemma {:induction false} SideEntriesShaped(prefix: string, side: char, positions: string,
                                             dofsAt: char -> seq<string>, suffix: string)
    ensures forall x :: x in SideEntries(prefix, side, positions, dofsAt, suffix) ==>
      Shaped(x, prefix, [side], positions, dofsAt, suffix) && x[|prefix|] == side
    decreases |positions|
  {
    if positions != [] {
      SideEntriesShaped(prefix, side, positions[1..], dofsAt, suffix);
      var head := DofEntries(prefix, side, positions[0], dofsAt(positions[0]), suffix);
      DofEntriesAt(prefix, side, positions[0], dofsAt(positions[0]), suffix);
      forall x | x in head
        ensures Shaped(x, prefix, [side], positions, dofsAt, suffix) && x[|prefix|] == side
      {
        var d :| 0 <= d < |head| && head[d] == x;
        EntryParts(prefix, side, positions[0], dofsAt(positions[0])[d], suffix);
      }
    }
  }

  lemma {:induction false} LegNamesShaped(prefix: string, sides: string, positions: string,
                                          dofsAt: char -> seq<string>, suffix: string)
    ensures forall x :: x in LegNames(prefix, sides, positions, dofsAt, suffix) ==>
      Shaped(x, prefix, sides, positions, dofsAt, suffix)
    decreases |sides|
  {
    if sides != [] {
      SideEntriesShaped(prefix, sides[0], positions, dofsAt, suffix);
      LegNamesShaped(prefix, sides[1..], positions, dofsAt, suffix);
    }
  }

  // ---------------------------------------------------------------------
  // Distinct names

  lemma DistinctConcat<T>(a: seq<T>, b: seq<T>)
    requires Distinct(a) && Distinct(b)
    requires forall x :: x in a ==> x !in b
    ensures Distinct(a + b)
  {
    forall i, j | 0 <= i < j < |a + b| ensures (a + b)[i] != (a + b)[j] {
      if j < |a| {
      } else if i >= |a| {
        assert (a + b)[i] == b[i - |a|] && (a + b)[j] == b[j - |a|];
      } else {
        assert (a + b)[i] in a && (a + b)[j] in b;
      }
    }
  }

  lemma DofEntriesDistinct(prefix: string, side: char, pos: char, dofs: seq<string>, suffix: string)
    requires Distinct(dofs)
    ensures Distinct(DofEntries(prefix, side, pos, dofs, suffix))
  {
    var r := DofEntries(prefix, side, pos, dofs, suffix);
    DofEntriesAt(prefix, side, pos, dofs, suffix);
    forall i, j | 0 <= i < j < |r| ensures r[i] != r[j] {
      EntryParts(prefix, side, pos, dofs[i], suffix);
      EntryParts(prefix, side, pos, dofs[j], suffix);
    }
  }

  lemma {:induction false} SideEntriesDistinct(prefix: string, side: char, positions: string,
                                               dofsAt: char -> seq<string>, suffix: string)
    requires Distinct(positions)
    requires forall c :: Distinct(dofsAt(c))
    ensures Distinct(SideEntries(prefix, side, positions, dofsAt, suffix))
    decreases |positions|
  {
    if positions != [] {
      var head := DofEntries(prefix, side, positions[0], dofsAt(positions[0]), suffix);
      var rest := SideEntries(prefix, side, positions[1..], dofsAt, suffix);
      assert Distinct(positions[1..]);
      SideEntriesDistinct(prefix, side, positions[1..], dofsAt, suffix);
      DofEntriesDistinct(prefix, side, positions[0], dofsAt(positions[0]), suffix);
      DofEntriesAt(prefix, side, positions[0], dofsAt(positions[0]), suffix);
      SideEntriesShaped(prefix, side, positions[1..], dofsAt, suffix);
      forall x | x in head ensures x !in rest {
        var d :| 0 <= d < |head| && head[d] == x;
        EntryParts(prefix, side, positions[0], dofsAt(positions[0])[d], suffix);
        assert positions[0] !in positions[1..];
      }
      DistinctConcat(head, rest);
    }
  }

  lemma {:induction false} LegNamesDistinct(prefix: string, sides: string, positions: string,
                                            dofsAt: char -> seq<string>, suffix: string)
    requires Distinct(sides) && Distinct(positions)
    requires forall c :: Distinct(dofsAt(c))
    ensures Distinct(LegNames(prefix, sides, positions, dofsAt, suffix))
    decreases |sides|
  {
    if sides != [] {
      var head := SideEntries(prefix, sides[0], positions, dofsAt, suffix);
      var rest := LegNames(prefix, sides[1..], positions, dofsAt, suffix);
      assert Distinct(sides[1..]);
      LegNamesDistinct(prefix, sides[1..], positions, dofsAt, suffix);
      SideEntriesDistinct(prefix, sides[0], positions, dofsAt, suffix);
      SideEntriesShaped(prefix, sides[0], positions, dofsAt, suffix);
      LegNamesShaped(prefix, sides[1..], positions, dofsAt, suffix);
      assert sides[0] !in sides[1..];
      DistinctConcat(head, rest);
    }
  }

  // ---------------------------------------------------------------------
  // Ordered subsets

  /** `a` is `b` with some entries deleted, order preserved. */
  predicate IsSubsequence<T(==)>(a: seq<T>, b: seq<T>)
    decreases |b|
  {
    if a == [] then true
    else if b == [] then false
    else (a[0] == b[0] && IsSubsequence(a[1..], b[1..])) || IsSubsequence(a, b[1..])
  }

  lemma {:induction false} SubsequenceReflexive<T>(a: seq<T>)
    ensures IsSubsequence(a, a)
    decreases |a|
  {
    if a != [] {
      SubsequenceReflexive(a[1..]);
    }
  }

  lemma {:induction false} SubsequenceAppendLeft<T>(c: seq<T>, b: seq<T>, d: seq<T>)
    requires IsSubsequence(c, d)
    ensures IsSubsequence(c, b + d)
    decreases |b|
  {
    if b == [] {
      assert b + d == d;
    } else if c != [] {
      SubsequenceAppendLeft(c, b[1..], d);
      assert (b + d)[1..] == b[1..] + d;
    }
  }

  lemma {:induction false} SubsequenceConcat<T>(a: seq<T>, b: seq<T>, c: seq<T>, d: seq<T>)
    requires IsSubsequence(a, b) && IsSubsequence(c, d)
    ensures IsSubsequence(a + c, b + d)
    decreases |b|
  {
    if a == [] {
      assert a + c == c;
      SubsequenceAppendLeft(c, b, d);
    } else {
      assert (a + c)[1..] == a[1..] + c;
      assert (b + d)[1..] == b[1..] + d;
      if a[0] == b[0] && IsSubsequence(a[1..], b[1..]) {
        SubsequenceConcat(a[1..], b[1..], c, d);
      } else {
        SubsequenceConcat(a, b[1..], c, d);
      }
    }
  }

  lemma {:induction false} DofEntriesSubsequence(prefix: string, side: char, pos: char,
                                                 small: seq<string>, large: seq<string>, suffix: string)
    requires IsSubsequence(small, large)
    ensures IsSubsequence(DofEntries(prefix, side, pos, small, suffix), DofEntries(prefix, side, pos, large, suffix))
    decreases |large|
  {
    if small != [] {
      if small[0] == large[0] && IsSubsequence(small[1..], large[1..]) {
        DofEntriesSubsequence(prefix, side, pos, small[1..], large[1..], suffix);
      } else {
        DofEntriesSubsequence(prefix, side, pos, small, large[1..], suffix);
      }
    }
  }

  lemma {:induction false} SideEntriesSubsequence(prefix: string, side: char, positions: string,
                                                  small: char -> seq<string>, large: char -> seq<string>,
                                                  suffix: string)
    requires forall c :: IsSubsequence(small(c), large(c))
    ensures IsSubsequence(SideEntries(prefix, side, positions, small, suffix),
                          SideEntries(prefix, side, positions, large, suffix))
    decreases |positions|
  {
    if positions != [] {
      DofEntriesSubsequence(prefix, side, positions[0], small(positions[0]), large(positions[0]), suffix);
      SideEntriesSubsequence(prefix, side, positions[1..], small, large, suffix);
      SubsequenceConcat(DofEntries(prefix, side, positions[0], small(positions[0]), suffix),
                        DofEntries(prefix, side, positions[0], large(positions[0]), suffix),
                        SideEntries(prefix, side, positions[1..], small, suffix),
                        SideEntries(prefix, side, positions[1..], large, suffix));
    }
  }

  /** Deleting DoFs from every leg's list deletes the matching names from
      the table, leaving the rest in their order. */
  lemma {:induction false} LegNamesSubsequence(prefix: string, sides: string, positions: string,
                                               small: char -> seq<string>, large: char -> seq<string>,
                                               suffix: string)
    requires forall c :: IsSubsequence(small(c), large(c))
    ensures IsSubsequence(LegNames(prefix, sides, positions, small, suffix),
                          LegNames(prefix, sides, positions, large, suffix))
    decreases |sides|
  {
    if sides != [] {
      SideEntriesSubsequence(prefix, sides[0], positions, small, large, suffix);
      LegNamesSubsequence(prefix, sides[1..], positions, small, large, suffix);
      SubsequenceConcat(SideEntries(prefix, sides[0], positions, small, suffix),
                        SideEntries(prefix, sides[0], positions, large, suffix),
                        LegNames(prefix, sides[1..], positions, small, suffix),
                        LegNames(prefix, sides[1..], positions, large, suffix));
    }
  }

  // ---------------------------------------------------------------------
  // Removing one DoF from every leg

  function RemoveAll(xs: seq<string>, x: string): (r: seq<string>)
  {
    if xs == [] then []
    else (if xs[0] == x then [] else [xs[0]]) + RemoveAll(xs[1..], x)
  }

  /** `name` is `prefix + side + pos + dof + suffix` for some side and position letters. */
  predicate NamesDof(name: string, prefix: string, dof: string, suffix: string)
  {
    |name| == |prefix| + 2 + |dof| + |suffix| && name[..|prefix|] == prefix
    && name[|prefix| + 2..] == dof + suffix
  }

  /** The table with every entry naming DoF `dof` dropped. */
  function WithoutDof(names: seq<string>, prefix: string, dof: string, suffix: string): seq<string>
  {
    if names == [] then []
    else (if NamesDof(names[0], prefix, dof, suffix) then [] else [names[0]])
         + WithoutDof(names[1..], prefix, dof, suffix)
  }

  lemma {:induction false} WithoutDofConcat(a: seq<string>, b: seq<string>, prefix: string, dof: string, suffix: string)
    ensures WithoutDof(a + b, prefix, dof, suffix) == WithoutDof(a, prefix, dof, suffix) + WithoutDof(b, prefix, dof, suffix)
    decreases |a|
  {
    if a != [] {
      assert (a + b)[1..] == a[1..] + b;
      WithoutDofConcat(a[1..], b, prefix, dof, suffix);
    } else {
      assert a + b == b;
    }
  }

  lemma {:induction false} DofEntriesWithout(prefix: string, side: char, pos: char, dofs: seq<string>,
                                             dof: string, suffix: string)
    ensures WithoutDof(DofEntries(prefix, side, pos, dofs, suffix), prefix, dof, suffix)
         == DofEntries(prefix, side, pos, RemoveAll(dofs, dof), suffix)
    decreases |dofs|
  {
    if dofs != [] {
      var e := prefix + [side, pos] + dofs[0] + suffix;
      EntryParts(prefix, side, pos, dofs[0], suffix);
      if NamesDof(e, prefix, dof, suffix) {
        assert (dofs[0] + suffix)[..|dofs[0]|] == dofs[0];
        assert (dof + suffix)[..|dof|] == dof;
      }
      DofEntriesWithout(prefix, side, pos, dofs[1..], dof, suffix);
      assert DofEntries(prefix, side, pos, dofs, suffix) == [e] + DofEntries(prefix, side, pos, dofs[1..], suffix);
      WithoutDofConcat([e], DofEntries(prefix, side, pos, dofs[1..], suffix), prefix, dof, suffix);
      var rest := RemoveAll(dofs[1..], dof);
      if dofs[0] != dof {
        assert RemoveAll(dofs, dof) == [dofs[0]] + rest;
        assert DofEntries(prefix, side, pos, [dofs[0]] + rest, suffix)
            == [e] + DofEntries(prefix, side, pos, rest, suffix);
      } else {
        assert RemoveAll(dofs, dof) == rest;
      }
    }
  }

  lemma {:induction false} SideEntriesWithout(prefix: string, side: char, positions: string,
                                              full: char -> seq<string>, pruned: char -> seq<string>,
                                              dof: string, suffix: string)
    requires forall c :: pruned(c) == RemoveAll(full(c), dof)
    ensures WithoutDof(SideEntries(prefix, side, positions, full, suffix), prefix, dof, suffix)
         == SideEntries(prefix, side, positions, pruned, suffix)
    decreases |positions|
  {
    if positions != [] {
      DofEntriesWithout(prefix, side, positions[0], full(positions[0]), dof, suffix);
      SideEntriesWithout(prefix, side, positions[1..], full, pruned, dof, suffix);
      WithoutDofConcat(DofEntries(prefix, side, positions[0], full(positions[0]), suffix),
                       SideEntries(prefix, side, positions[1..], full, suffix), prefix, dof, suffix);
    }
  }

  lemma {:induction false} LegNamesWithout(prefix: string, sides: string, positions: string,
                                           full: char -> seq<string>, pruned: char -> seq<string>,
                                           dof: string, suffix: string)
    requires forall c :: pruned(c) == RemoveAll(full(c), dof)
    ensures WithoutDof(LegNames(prefix, sides, positions, full, suffix), prefix, dof, suffix)
         == LegNames(prefix, sides, positions, pruned, suffix)
    decreases |sides|
  {
    if sides != [] {
      SideEntriesWithout(prefix, sides[0], positions, full, pruned, dof, suffix);
      LegNamesWithout(prefix, sides[1..], positions, full, pruned, dof, suffix);
      WithoutDofConcat(SideEntries(prefix, sides[0], positions, full, suffix),
                       LegNames(prefix, sides[1..], positions, full, suffix), prefix, dof, suffix);
    }
  }

  // ---------------------------------------------------------------------
  // Building the tables one element at a time, as nested loops do

  lemma DofEntriesSnoc(prefix: string, side: char, pos: char, dofs: seq<string>, suffix: string, c: nat)
    requires c < |dofs|
    ensures DofEntries(prefix, side, pos, dofs[..c + 1], suffix)
         == DofEntries(prefix, side, pos, dofs[..c], suffix) + [prefix + [side, pos] + dofs[c] + suffix]
  {
    var a := DofEntries(prefix, side, pos, dofs[..c + 1], suffix);
    var b := DofEntries(prefix, side, pos, dofs[..c], suffix) + [prefix + [side, pos] + dofs[c] + suffix];
    assert |a| == |b|;
    DofEntriesAt(prefix, side, pos, dofs[..c + 1], suffix);
    DofEntriesAt(prefix, side, pos, dofs[..c], suffix);
    forall d | 0 <= d < |a| ensures a[d] == b[d] {
      assert dofs[..c + 1][d] == dofs[d];
      if d < c { assert dofs[..c][d] == dofs[d]; }
    }
  }

  lemma {:induction false} SideEntriesSnoc(prefix: string, side: char, positions: string,
                                           dofsAt: char -> seq<string>, suffix: string, b: nat)
    requires b < |positions|
    ensures SideEntries(prefix, side, positions[..b + 1], dofsAt, suffix)
         == SideEntries(prefix, side, positions[..b], dofsAt, suffix)
            + DofEntries(prefix, side, positions[b], dofsAt(positions[b]), suffix)
    decreases b
  {
    if b > 0 {
      SideEntriesSnoc(prefix, side, positions[1..], dofsAt, suffix, b - 1);
      assert positions[..b + 1][1..] == positions[1..][..b];
      assert positions[..b][1..] == positions[1..][..b - 1];
    } else {
      assert positions[..1][1..] == [];
    }
  }

  lemma {:induction false} LegNamesSnoc(prefix: string, sides: string, positions: string,
                                        dofsAt: char -> seq<string>, suffix: string, a: nat)
    requires a < |sides|
    ensures LegNames(prefix, sides[..a + 1], positions, dofsAt, suffix)
         == LegNames(prefix, sides[..a], positions, dofsAt, suffix)
            + SideEntries(prefix, sides[a], positions, dofsAt, suffix)
    decreases a
  {
    if a > 0 {
      LegNamesSnoc(prefix, sides[1..], positions, dofsAt, suffix, a - 1);
      assert sides[..a + 1][1..] == sides[1..][..a];
      assert sides[..a][1..] == sides[1..][..a - 1];
    } else {
      assert sides[..1][1..] == [];
    }
  }

  // ---------------------------------------------------------------------
  // Last characters

  /** Every name is non-empty and ends in one of the given characters. */
  ghost predicate EndsIn(names: seq<string>, last: set<char>)
  {
    forall i :: 0 <= i < |names| ==> |names[i]| > 0 && names[i][|names[i]| - 1] in last
  }

  lemma EndsInConcat(a: seq<string>, b: seq<string>, last: set<char>)
    requires EndsIn(a, last) && EndsIn(b, last)
    ensures EndsIn(a + b, last)
  {
    forall i | 0 <= i < |a + b| ensures |(a + b)[i]| > 0 && (a + b)[i][|(a + b)[i]| - 1] in last {
      if i >= |a| { assert (a + b)[i] == b[i - |a|]; }
    }
  }

  /** With no suffix, a table's names end as its DoF names do. */
  lemma {:induction false} LegNamesEndsIn(prefix: string, sides: string, positions: string,
                                          dofsAt: char -> seq<string>, last: set<char>)
    requires forall c :: EndsIn(dofsAt(c), last)
    ensures EndsIn(LegNames(prefix, sides, positions, dofsAt, ""), last)
    decreases |sides|
  {
    if sides != [] {
      LegNamesEndsIn(prefix, sides[1..], positions, dofsAt, last);
      SideEntriesEndsIn(prefix, sides[0], positions, dofsAt, last);
      EndsInConcat(SideEntries(prefix, sides[0], positions, dofsAt, ""),
                   LegNames(prefix, sides[1..], positions, dofsAt, ""), last);
    }
  }

  lemma {:induction false} SideEntriesEndsIn(prefix: string, side: char, positions: string,
                                             dofsAt: char -> seq<string>, last: set<char>)
    requires forall c :: EndsIn(dofsAt(c), last)
    ensures EndsIn(SideEntries(prefix, side, positions, dofsAt, ""), last)
    decreases |positions|
  {
    if positions != [] {
      SideEntriesEndsIn(prefix, side, positions[1..], dofsAt, last);
      var dofs := dofsAt(positions[0]);
      var block := DofEntries(prefix, side, positions[0], dofs, "");
      DofEntriesAt(prefix, side, positions[0], dofs, "");
      forall d | 0 <= d < |block| ensures |block[d]| > 0 && block[d][|block[d]| - 1] in last {
        assert block[d] == (prefix + [side, positions[0]]) + dofs[d];
      }
      EndsInConcat(block, SideEntries(prefix, side, positions[1..], dofsAt, ""), last);
    }
  }
}
