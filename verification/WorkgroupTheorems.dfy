/** What the whole machine reports: exactly the neighbouring racing accesses without an import between
    them, and so none that a barrier or a handoff orders. */
module WorkgroupTheorems {
  import opened Arith
  import opened ShadowWords
  import opened ShadowHistory
  import opened Workgroup
  import P = ReleaseTable
  import PI = ReleaseTableInvariant
  import PT = ReleaseTableTheorems
  import D = DetectorMachine

  /** With a matrix that is the log's, suppression is an import from the earlier access's ten-bit epoch on. */
  lemma SuppressedByLog(tokens: seq<nat>, n: nat, log: seq<P.Entry>, prior: Touch, current: Touch)
    requires LogMatrix(tokens, n, log) && n <= OWNERS && prior.subgroup < n && current.subgroup < n
    ensures Suppressed(tokens, n, prior, current)
       <==> PT.ImportedAtLeast(log, current.subgroup, prior.subgroup, prior.epoch % EPOCHS)
  {
    SmallOwner(prior.subgroup);
    SmallOwner(current.subgroup);
    assert InMatrix(n, current.subgroup, prior.subgroup);
  }

  /** What verdict a's touch had been synchronised with when it was checked. */
  ghost predicate ImportedBefore(s: State, a: nat, prior: Touch, current: Touch, e: nat)
    requires a < |s.seen| && s.seen[a] <= |s.protocol.log|
  {
    PT.ImportedAtLeast(s.protocol.log[..s.seen[a]], current.subgroup, prior.subgroup, e)
  }

  /** The pair that verdict a is about, if there is one. */
  ghost predicate Judges(s: State, a: nat, i: nat) {
    && a < |s.detector.verdicts| && a < |s.seen| && s.seen[a] <= |s.protocol.log|
    && Neighbours(s.detector.history, i, s.detector.verdicts[a].touch)
  }

  ghost predicate Unordered(s: State, a: nat, i: nat) {
    && Judges(s, a, i)
    && var prior, current := s.detector.history[i], s.detector.history[s.detector.verdicts[a].touch];
       Races(prior, current) && !ImportedBefore(s, a, prior, current, prior.epoch % EPOCHS)
  }

  /** The part of the invariant that verdicts rest on. */
  ghost predicate Checked(cfg: Config, s: State) {
    Shape(cfg, s) && D.Inv(cfg.detector, s.detector) && Noted(cfg, s)
  }

  lemma ReachedIsChecked(cfg: Config, d: bool, s: State, t: State, n: nat)
    requires Init(cfg, s) && Reaches(cfg, d, s, t, n)
    ensures Checked(cfg, t) && PI.Inv(cfg.protocol, d, t.protocol) && (d ==> HandoffsImported(t.protocol.log))
  {
    hide Shape, Init, Reaches, PI.Inv, D.Inv, Noted, HandoffsImported;
    InitInv(cfg, d, s);
    ReachesKeeps(cfg, d, s, t, n);
  }

  lemma JudgedPair(cfg: Config, s: State, a: nat, i: nat)
    requires Checked(cfg, s) && Judges(s, a, i)
    ensures s.detector.verdicts[a].emitted <==> Unordered(s, a, i)
  {
    var v, n := s.detector.verdicts[a], cfg.detector.subgroups;
    assert SeenOk(cfg, s, a) && D.VerdictOk(cfg.detector, s.detector, v);
    NeighbourIsLastTouch(s.detector.history, i, v.touch);
    SuppressedByLog(v.tokens, n, s.protocol.log[..s.seen[a]], s.detector.history[i], s.detector.history[v.touch]);
  }

  /** Exactness of the whole machine, in every run: a check reports its touch if and only if the previous
      touch of the cell races with it and the checking subgroup had not, by then, imported a release of
      the earlier subgroup from the earlier touch's ten-bit epoch on. */
  lemma ReportedExactly(cfg: Config, d: bool, s: State, t: State, n: nat, a: nat)
    requires Init(cfg, s) && Reaches(cfg, d, s, t, n) && a < |t.detector.verdicts|
    ensures t.detector.verdicts[a].emitted <==> exists i :: Unordered(t, a, i)
  {
    hide Init, Reaches, PI.Inv, HandoffsImported;
    ReachedIsChecked(cfg, d, s, t, n);
    var v := t.detector.verdicts[a];
    assert SeenOk(cfg, t, a) && D.VerdictOk(cfg.detector, t.detector, v);
    var i := LastTouch(t.detector.history[..v.touch], t.detector.history[v.touch].cell);
    if 0 <= i {
      LastTouchIsNeighbour(t.detector.history, v.touch);
      JudgedPair(cfg, t, a, i);
    }
    if exists k :: Unordered(t, a, k) {
      var k :| Unordered(t, a, k);
      NeighbourIsLastTouch(t.detector.history, k, v.touch);
    }
  }

  /** A handoff from the earlier access's subgroup to the later one's, of the earlier access's epoch or a
      later one, finished before the check. */
  ghost predicate HandedOver(s: State, a: nat, i: nat, x: nat, y: nat) {
    && Judges(s, a, i)
    && y < s.seen[a] && x < |s.protocol.log| && Handoff(s.protocol.log, x, y)
    && var prior, current := s.detector.history[i], s.detector.history[s.detector.verdicts[a].touch];
       && s.protocol.log[x].key.producer == prior.subgroup && prior.epoch <= s.protocol.log[x].epoch
       && s.protocol.log[y].consumer == current.subgroup
  }

  lemma HandedOverIsImported(s: State, a: nat, i: nat, x: nat, y: nat)
    requires HandoffsImported(s.protocol.log) && HandedOver(s, a, i, x, y)
    ensures var prior, current := s.detector.history[i], s.detector.history[s.detector.verdicts[a].touch];
            ImportedBefore(s, a, prior, current, prior.epoch % EPOCHS)
  {
    var log, c, p := s.protocol.log, s.protocol.log[y].consumer, s.protocol.log[x].key.producer;
    var j :| 0 <= j < y && log[..y][j].Imported? && log[..y][j].consumer == c && log[..y][j].key.producer == p
             && log[x].epoch <= log[..y][j].epoch;
    assert log[..s.seen[a]][j] == log[..y][j];
    assert s.detector.history[i].epoch % EPOCHS <= s.detector.history[i].epoch;
  }

  /** A synchronised access is never reported, in any run whose concurrent releases of one key carry one
      epoch, and in any run over a single slot. */
  lemma HandedOverIsNeverReported(cfg: Config, s: State, t: State, n: nat, a: nat, i: nat, x: nat, y: nat)
    requires Init(cfg, s) && Reaches(cfg, true, s, t, n) && HandedOver(t, a, i, x, y)
    ensures !t.detector.verdicts[a].emitted
  {
    hide Init, Reaches, PI.Inv, HandoffsImported, Checked, Judges;
    ReachedIsChecked(cfg, true, s, t, n);
    HandedOverIsImported(t, a, i, x, y);
    JudgedPair(cfg, t, a, i);
  }

  /** Ordered by a barrier (fewer than 1024 of them, or no multiple) or by a handoff. */
  ghost predicate Ordered(s: State, a: nat, i: nat) {
    && Judges(s, a, i)
    && ((s.detector.history[s.detector.verdicts[a].touch].epoch - s.detector.history[i].epoch) % EPOCHS != 0
        || exists x, y :: HandedOver(s, a, i, x, y))
  }

  /** By different subgroups, one a store, in whatever epochs. */
  ghost predicate Conflicting(prior: Touch, current: Touch) {
    prior.subgroup % OWNERS != current.subgroup % OWNERS && (prior.access.store || current.access.store)
  }

  ghost predicate OrderedIfConflicting(s: State, a: nat, i: nat) {
    Judges(s, a, i) && Conflicting(s.detector.history[i], s.detector.history[s.detector.verdicts[a].touch]) ==>
      Ordered(s, a, i)
  }

  /** Racing neighbours are a multiple of 1024 epochs apart. */
  lemma RacingNeighbours(cfg: Config, s: State, a: nat, i: nat)
    requires Checked(cfg, s) && Unordered(s, a, i)
    ensures var j := s.detector.verdicts[a].touch;
            s.detector.history[i].epoch <= s.detector.history[j].epoch
            && (s.detector.history[j].epoch - s.detector.history[i].epoch) % EPOCHS == 0
  {
    D.SameResidue(s.detector.history[i].epoch, s.detector.history[s.detector.verdicts[a].touch].epoch);
  }

  /** A run in which every two successive accesses of a cell that conflict are ordered by barriers or by a
      handoff is never reported, if its concurrent releases of one key carry one epoch. */
  lemma OrderedRunsAreNeverReported(cfg: Config, s: State, t: State, n: nat)
    requires Init(cfg, s) && Reaches(cfg, true, s, t, n)
    requires forall a: nat, i: nat :: OrderedIfConflicting(t, a, i)
    ensures forall a :: 0 <= a < |t.detector.verdicts| ==> !t.detector.verdicts[a].emitted
  {
    hide Init, Reaches, PI.Inv, HandoffsImported, Checked, HandedOver;
    forall a | 0 <= a < |t.detector.verdicts| ensures !t.detector.verdicts[a].emitted {
      ReportedExactly(cfg, true, s, t, n, a);
      if t.detector.verdicts[a].emitted {
        var i :| Unordered(t, a, i);
        ReachedIsChecked(cfg, true, s, t, n);
        RacingNeighbours(cfg, t, a, i);
        assert OrderedIfConflicting(t, a, i);
        var x, y :| HandedOver(t, a, i, x, y);
        HandedOverIsNeverReported(cfg, s, t, n, a, i, x, y);
      }
    }
  }
}
