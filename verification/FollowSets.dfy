/** `FindFollowSets`: lookahead tokens travel along the propagation links until
    nothing changes. */
module FollowSets {

  ghost predicate LinksInside<N(!new)>(fplp: map<N, seq<N>>) {
    forall n, m :: n in fplp && m in fplp[n] ==> m in fplp
  }

  ghost predicate Propagated<N(!new)>(fplp: map<N, seq<N>>, fws: map<N, set<nat>>, n: N)
    requires n in fplp && LinksInside(fplp) && fws.Keys == fplp.Keys
  {
    forall m :: m in fplp[n] ==> fws[n] <= fws[m]
  }

  ghost predicate FamilyClosed<N(!new)>(fplp: map<N, seq<N>>, init: map<N, set<nat>>, fws: map<N, set<nat>>)
    requires LinksInside(fplp)
  {
    && fws.Keys == init.Keys == fplp.Keys
    && (forall n :: n in init ==> init[n] <= fws[n])
    && (forall n :: n in fplp ==> Propagated(fplp, fws, n))
  }

  ghost predicate FamilyBelow<N(!new)>(a: map<N, set<nat>>, b: map<N, set<nat>>) {
    a.Keys == b.Keys && forall n :: n in a ==> a[n] <= b[n]
  }

  /** The least family above the initial sets that is closed under all links. */
  ghost predicate IsLeast<N(!new)>(fplp: map<N, seq<N>>, init: map<N, set<nat>>, fws: map<N, set<nat>>)
    requires LinksInside(fplp)
  {
    && FamilyClosed(fplp, init, fws)
    && forall fam :: FamilyClosed(fplp, init, fam) ==> FamilyBelow(fws, fam)
  }

  ghost predicate TokensBelow<N(!new)>(fws: map<N, set<nat>>, size: nat) {
    forall n, t :: n in fws && t in fws[n] ==> t < size
  }

  ghost function Pairs<N>(fws: map<N, set<nat>>): set<(N, nat)> {
    set n, t: nat | n in fws && t in fws[n] :: (n, t)
  }

  ghost function AllPairs<N>(nodes: set<N>, size: nat): set<(N, nat)> {
    set n, t: nat | n in nodes && t < size :: (n, t)
  }

  lemma PairsGrow<N(!new)>(a: map<N, set<nat>>, b: map<N, set<nat>>, size: nat)
    requires FamilyBelow(a, b) && TokensBelow(b, size)
    ensures Pairs(a) <= Pairs(b) <= AllPairs(b.Keys, size)
    ensures a != b ==> Pairs(a) < Pairs(b)
  {
    if a != b {
      var n :| n in a && a[n] != b[n];
      var t :| t in b[n] && t !in a[n];
      assert (n, t) in Pairs(b) && (n, t) !in Pairs(a);
    }
  }

  /** Everything the worklist keeps true. */
  ghost predicate WorkOk<N(!new)>(fplp: map<N, seq<N>>, init: map<N, set<nat>>, size: nat, fws: map<N, set<nat>>,
                           incomplete: set<N>) {
    && LinksInside(fplp)
    && fws.Keys == init.Keys == fplp.Keys
    && (forall n :: n in init ==> init[n] <= fws[n])
    && (forall n :: n in fplp && n !in incomplete ==> Propagated(fplp, fws, n))
    && (forall fam :: FamilyClosed(fplp, init, fam) ==> FamilyBelow(fws, fam))
    && TokensBelow(fws, size)
  }

  /** `SetUnion` along one link. */
  lemma UnionOk<N(!new)>(fplp: map<N, seq<N>>, init: map<N, set<nat>>, size: nat, fws: map<N, set<nat>>,
                  incomplete: set<N>, n: N, m: N)
    requires WorkOk(fplp, init, size, fws, incomplete) && n in fplp && m in fplp[n]
    ensures WorkOk(fplp, init, size, fws[m := fws[m] + fws[n]], incomplete + {m})
    ensures FamilyBelow(fws, fws[m := fws[m] + fws[n]])
  {
    var after := fws[m := fws[m] + fws[n]];
    forall k | k in fplp && k !in incomplete + {m} ensures Propagated(fplp, after, k) {
      assert Propagated(fplp, fws, k);
    }
    forall fam | FamilyClosed(fplp, init, fam) ensures FamilyBelow(after, fam) {
      assert FamilyBelow(fws, fam) && Propagated(fplp, fam, n);
    }
  }

  /** One configuration's turn: its set along each of its links. */
  method Propagate<N(!new, ==)>(fplp: map<N, seq<N>>, ghost init: map<N, set<nat>>, ghost size: nat,
                         fws: map<N, set<nat>>, incomplete: set<N>, n: N)
    returns (fws': map<N, set<nat>>, incomplete': set<N>, progress: bool)
    requires WorkOk(fplp, init, size, fws, incomplete) && n in fplp
    ensures WorkOk(fplp, init, size, fws', incomplete')
    ensures FamilyBelow(fws, fws') && (progress <==> fws' != fws)
    ensures !progress ==> incomplete' == incomplete - {n}
  {
    hide FamilyClosed;
    fws', incomplete', progress := fws, incomplete, false;
    var i := 0;
    while i < |fplp[n]|
      invariant 0 <= i <= |fplp[n]|
      invariant WorkOk(fplp, init, size, fws', incomplete' + {n})
      invariant FamilyBelow(fws, fws') && (progress <==> fws' != fws) && fws'[n] == fws[n]
      invariant forall q :: 0 <= q < i ==> fws'[n] <= fws'[fplp[n][q]]
      invariant !progress ==> incomplete' == incomplete
    {
      var m := fplp[n][i];
      assert m in fplp;
      if !(fws'[n] <= fws'[m]) {
        UnionOk(fplp, init, size, fws', incomplete' + {n}, n, m);
        assert incomplete' + {n} + {m} == incomplete' + {m} + {n};
        fws' := fws'[m := fws'[m] + fws'[n]];
        incomplete' := incomplete' + {m};
        progress := true;
      }
      i := i + 1;
    }
    incomplete' := incomplete' - {n};
    assert Propagated(fplp, fws', n);
  }

  method FindFollowSets<N(!new, ==)>(order: seq<N>, init: map<N, set<nat>>, fplp: map<N, seq<N>>, ghost size: nat)
    returns (fws: map<N, set<nat>>)
    requires LinksInside(fplp) && init.Keys == fplp.Keys && TokensBelow(init, size)
    requires forall n :: n in order <==> n in fplp
    ensures IsLeast(fplp, init, fws) && TokensBelow(fws, size)
  {
    fws := init;
    var incomplete := init.Keys;
    var progress := true;
    while progress
      invariant WorkOk(fplp, init, size, fws, incomplete)
      invariant !progress ==> forall n :: n in fplp ==> n !in incomplete
      decreases AllPairs(init.Keys, size) - Pairs(fws), progress
    {
      hide FamilyClosed, Propagated;
      ghost var before := fws;
      progress := false;
      for i := 0 to |order|
        invariant WorkOk(fplp, init, size, fws, incomplete)
        invariant FamilyBelow(before, fws) && (progress <==> fws != before)
        invariant !progress ==> forall q :: 0 <= q < i ==> order[q] !in incomplete
      {
        if order[i] in incomplete {
          ghost var prev := fws;
          var change;
          fws, incomplete, change := Propagate(fplp, init, size, fws, incomplete, order[i]);
          if change {
            progress := true;
            PairsGrow(before, prev, size);
            PairsGrow(prev, fws, size);
          }
        }
      }
      PairsGrow(before, fws, size);
    }
  }

  // ---------------------------------------------------------------------------
  // The same sets, path by path

  /** The links lead along `p`. */
  ghost predicate IsPath<N(!new)>(fplp: map<N, seq<N>>, p: seq<N>) {
    && p != []
    && (forall i :: 0 <= i < |p| ==> p[i] in fplp)
    && (forall i :: 0 < i < |p| ==> p[i] in fplp[p[i - 1]])
  }

  ghost predicate Carried<N(!new)>(fplp: map<N, seq<N>>, init: map<N, set<nat>>, n: N, t: nat) {
    exists p :: IsPath(fplp, p) && p[|p| - 1] == n && p[0] in init && t in init[p[0]]
  }

  lemma {:induction false} AlongPath<N(!new)>(fplp: map<N, seq<N>>, init: map<N, set<nat>>, fws: map<N, set<nat>>,
                                       p: seq<N>, t: nat)
    requires LinksInside(fplp) && FamilyClosed(fplp, init, fws)
    requires IsPath(fplp, p) && p[0] in init && t in init[p[0]]
    ensures t in fws[p[|p| - 1]]
    decreases |p|
  {
    if |p| > 1 {
      var front := p[..|p| - 1];
      assert IsPath(fplp, front);
      AlongPath(fplp, init, fws, front, t);
      assert Propagated(fplp, fws, p[|p| - 2]);
    }
  }

  lemma CarriedOn<N(!new)>(fplp: map<N, seq<N>>, init: map<N, set<nat>>, n: N, m: N, t: nat)
    requires LinksInside(fplp) && Carried(fplp, init, n, t) && n in fplp && m in fplp[n]
    ensures Carried(fplp, init, m, t)
  {
    var p :| IsPath(fplp, p) && p[|p| - 1] == n && p[0] in init && t in init[p[0]];
    assert IsPath(fplp, p + [m]);
  }

  /** A configuration ends up with exactly the tokens that some path of links
      brings it from where they started. */
  lemma FollowByPaths<N(!new)>(fplp: map<N, seq<N>>, init: map<N, set<nat>>, fws: map<N, set<nat>>, size: nat, n: N,
                        t: nat)
    requires LinksInside(fplp) && IsLeast(fplp, init, fws) && TokensBelow(init, size) && n in fplp
    ensures t in fws[n] <==> Carried(fplp, init, n, t)
  {
    if Carried(fplp, init, n, t) {
      var p :| IsPath(fplp, p) && p[|p| - 1] == n && p[0] in init && t in init[p[0]];
      AlongPath(fplp, init, fws, p, t);
    }
    var fam := map m | m in init :: set u: nat | u < size && Carried(fplp, init, m, u);
    forall m, u | m in init && u in init[m] ensures u in fam[m] {
      assert IsPath(fplp, [m]);
    }
    forall m, k, u | m in fplp && k in fplp[m] && u in fam[m] ensures u in fam[k] {
      CarriedOn(fplp, init, m, k, u);
    }
    assert FamilyClosed(fplp, init, fam);
    assert FamilyBelow(fws, fam);
  }
}
