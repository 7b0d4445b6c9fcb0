/** Which barriers a program can do without: a barrier left out joins two intervals of every lane, in program
    order, and moves the later ones up. */
module BarrierRemoval {
  import opened ShadowWords
  import opened ShadowHistory
  import opened ProgramOrder
  import opened ProgramRuns
  import S = CleanPrograms
  import D = DetectorMachine

  /** The lists hold the accesses of the program, in whatever order and as often as it may be. */
  ghost predicate Lists(group: seq<nat>, q: Listing, p: S.Program) {
    forall l: nat, e: nat, a: Access :: l < |group| ==> (a in q(l, e) <==> p(l, e, a))
  }

  /** The program without the barrier between intervals `epoch` and `epoch + 1`. */
  ghost function Joined(q: Listing, epoch: nat): Listing { (l: nat, e: nat) => JoinedAt(q, epoch, l, e) }

  ghost function JoinedAt(q: Listing, epoch: nat, l: nat, e: nat): seq<Access> {
    if e < epoch then q(l, e) else if e == epoch then q(l, e) + q(l, e + 1) else q(l, e + 1)
  }

  lemma JoinedLists(group: seq<nat>, q: Listing, p: S.Program, epoch: nat)
    requires Lists(group, q, p)
    ensures Lists(group, Joined(q, epoch), S.Merged(p, epoch))
  {
    forall l: nat, e: nat, a: Access | l < |group|
      ensures a in Joined(q, epoch)(l, e) <==> S.Merged(p, epoch)(l, e, a)
    {
      assert a in JoinedAt(q, epoch, l, e) <==> S.Keeps(p, epoch, l, e, a) by {
        assert a in q(l, e) <==> p(l, e, a);
        assert a in q(l, e + 1) <==> p(l, e + 1, a);
      }
    }
  }

  lemma JoinedFits(cfg: D.Config, q: Listing, epoch: nat)
    requires Fits(cfg, q)
    ensures Fits(cfg, Joined(q, epoch))
  {
    forall l: nat, e: nat, i: nat | l < |cfg.group| && i < |JoinedAt(q, epoch, l, e)|
      ensures 0 < JoinedAt(q, epoch, l, e)[i].bytes && LastCell(JoinedAt(q, epoch, l, e)[i]) < |cfg.initial|
    {
      if epoch < e {
        assert JoinedAt(q, epoch, l, e)[i] == q(l, e + 1)[i];
      } else if i < |q(l, e)| {
        assert JoinedAt(q, epoch, l, e)[i] == q(l, e)[i];
      } else {
        assert JoinedAt(q, epoch, l, e)[i] == q(l, e + 1)[i - |q(l, e)|];
      }
    }
  }

  /** An access of the lists is one of the program. */
  lemma Listed(group: seq<nat>, q: Listing, p: S.Program, l: nat, e: nat, i: nat)
    requires Lists(group, q, p) && l < |group| && i < |q(l, e)|
    ensures p(l, e, q(l, e)[i])
  {
    assert q(l, e)[i] in q(l, e);
  }

  /** In whatever order a race-free and dense program performs its accesses, it is clean. */
  lemma ListedIsClean(group: seq<nat>, q: Listing, p: S.Program)
    requires Lists(group, q, p) && S.RaceFree(group, p) && S.Dense(group, p)
    ensures Clean(group, q)
  {
    hide Lists, S.RaceFree, S.Dense;
    forall z: Clash ensures !IsRace(group, q, z) {
      if RacesWithin(group, q, z) {
        Listed(group, q, p, z.l, z.e1, z.i);
        Listed(group, q, p, z.m, z.e2, z.j);
        S.NoClashWithin(group, p, z.l, z.m, z.e1, q(z.l, z.e1)[z.i], q(z.m, z.e2)[z.j], z.c);
      } else if RacesAcross(group, q, z) {
        ListedIsTouched(group, q, p, z);
      }
    }
  }

  lemma TouchIsListed(group: seq<nat>, q: Listing, p: S.Program, c: nat, e1: nat, e2: nat)
    requires Lists(group, q, p) && S.TouchedBetween(group, p, c, e1, e2)
    ensures TouchedBetween(group, q, c, e1, e2)
  {
    var n, e, d :| 0 <= n < |group| && e1 < e < e2 && p(n, e, d) && Covers(d, c);
    assert d in q(n, e);
    var k :| 0 <= k < |q(n, e)| && q(n, e)[k] == d;
    assert At(q, n, e, k, c);
  }

  lemma ListedIsTouched(group: seq<nat>, q: Listing, p: S.Program, z: Clash)
    requires Lists(group, q, p) && S.Dense(group, p)
    ensures !RacesAcross(group, q, z)
  {
    hide Lists, S.Dense, S.TouchedBetween, TouchedBetween;
    if RacesAcross(group, q, z) {
      Listed(group, q, p, z.l, z.e1, z.i);
      Listed(group, q, p, z.m, z.e2, z.j);
      S.ClashIsTouched(group, p, z.l, z.m, z.e1, z.e2, q(z.l, z.e1)[z.i], q(z.m, z.e2)[z.j], z.c);
      TouchIsListed(group, q, p, z.c, z.e1, z.e2);
    }
  }

  /** A program that is not race free is not clean, whatever the order. */
  lemma ListedRaces(group: seq<nat>, q: Listing, p: S.Program)
    requires Lists(group, q, p) && Clean(group, q)
    ensures S.RaceFree(group, p)
  {
    hide Clean;
    forall l, m, e: nat, a, b, c |
      0 <= l < |group| && 0 <= m < |group| && group[l] != group[m] && p(l, e, a) && p(m, e, b)
      && Covers(a, c) && Covers(b, c)
      ensures !a.store && !b.store
    {
      assert a in q(l, e) && b in q(m, e);
      var i :| 0 <= i < |q(l, e)| && q(l, e)[i] == a;
      var j :| 0 <= j < |q(m, e)| && q(m, e)[j] == b;
      if a.store { Unclean(group, q, Clash(l, m, e, e, i, j, c)); }
      if b.store { Unclean(group, q, Clash(m, l, e, e, j, i, c)); }
    }
  }

  lemma ListedIsNeverReported(cfg: D.Config, q: Listing, p: S.Program, s: D.State)
    requires Lists(cfg.group, q, p) && S.RaceFree(cfg.group, p) && S.Dense(cfg.group, p) && D.Init(cfg, s)
    ensures NeverReported(cfg, q, s)
  {
    ListedIsClean(cfg.group, q, p);
    CleanIsNeverReported(cfg, q, s);
  }

  /** A program that is race free and touches every reused cell within 1024 intervals, with one to spare, is
      never reported without one of its barriers, in any interleaving, exactly when no two subgroups share a
      written cell across that barrier. */
  lemma BarrierIsSpare(cfg: D.Config, q: Listing, p: S.Program, s: D.State, epoch: nat)
    requires Lists(cfg.group, q, p) && S.RaceFree(cfg.group, p) && S.Roomy(cfg.group, p)
    requires D.Init(cfg, s) && NoTokens(s) && Fits(cfg, q) && cfg.subgroups <= OWNERS
    ensures NeverReported(cfg, Joined(q, epoch), s) <==> S.RaceFreeAcross(cfg.group, p, epoch)
  {
    hide Lists, D.Init, NoTokens, Fits, NeverReported, Clean, S.RaceFree, S.Roomy, S.Dense, S.RaceFreeAcross;
    var q', p' := Joined(q, epoch), S.Merged(p, epoch);
    JoinedLists(cfg.group, q, p, epoch);
    JoinedFits(cfg, q, epoch);
    NeverReportedExactly(cfg, q', s);
    S.MergedIsRaceFree(cfg.group, p, epoch);
    S.MergedIsDense(cfg.group, p, epoch);
    if S.RaceFree(cfg.group, p') { ListedIsClean(cfg.group, q', p'); }
    if Clean(cfg.group, q') { ListedRaces(cfg.group, q', p'); }
  }
}
