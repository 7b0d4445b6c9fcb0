/** When a suppressed access deserves it: programs that touch shared memory before they release it, never
    after, in an epoch. */
module WorkgroupReleases {
  import opened ShadowWords
  import opened ShadowHistory
  import opened Workgroup
  import opened WorkgroupTheorems
  import P = ReleaseTable
  import PI = ReleaseTableInvariant
  import PT = ReleaseTableTheorems
  import D = DetectorMachine
  import H = Handoff

  /** Touch j was made before the subgroup recorded release r, if that is of a later epoch. */
  ghost predicate StampOk(s: State, j: nat, r: nat)
    requires j < |s.stamps| && j < |s.detector.history| && r < |s.protocol.log|
  {
    var t, e := s.detector.history[j], s.protocol.log[r];
    e.Recorded? && e.key.producer == t.subgroup && t.epoch < e.epoch ==> s.stamps[j] <= r
  }

  ghost predicate Stamped(cfg: Config, s: State)
    requires Shape(cfg, s)
  {
    && (forall j :: 0 <= j < |s.detector.history| ==> s.detector.history[j].subgroup < cfg.detector.stored)
    && (forall j, r :: 0 <= j < |s.detector.history| && 0 <= r < |s.protocol.log| ==> StampOk(s, j, r))
  }

  /** A new touch is of the current epoch, which no recorded release exceeds. */
  lemma TouchStamped(cfg: Config, d: bool, s: State, l: nat, r: nat)
    requires Inv(cfg, d, s) && l < |s.detector.lanes| && s.detector.lanes[l].Exchanging? && r < |s.protocol.log|
    requires s.protocol.log[r].Recorded? && s.protocol.log[r].key.producer == cfg.detector.group[l]
    ensures cfg.detector.group[l] < cfg.detector.stored && s.protocol.log[r].epoch <= s.detector.lanes[l].epoch
  {
    assert PI.EntryOk(cfg.protocol, d, s.protocol, r);
    assert D.LaneInv(cfg.detector, s.detector, l);
  }

  lemma TickKeepsStamps(cfg: Config, d: bool, s: State, l: nat)
    requires Inv(cfg, d, s) && Stamped(cfg, s) && Enabled(cfg, s, Tick(l)) && Shape(cfg, Step(cfg, s, Tick(l)))
    ensures Stamped(cfg, Step(cfg, s, Tick(l)))
  {
    hide PI.Inv, D.Inv, PT.ImportsHeld, HandoffsImported, Linked, LogMatrix;
    var s' := Step(cfg, s, Tick(l));
    forall j, r | 0 <= j < |s'.detector.history| && 0 <= r < |s'.protocol.log| ensures StampOk(s', j, r) {
      if j < |s.detector.history| {
        assert StampOk(s, j, r);
      } else if s.protocol.log[r].Recorded? && s.protocol.log[r].key.producer == cfg.detector.group[l] {
        TouchStamped(cfg, d, s, l, r);
      }
    }
  }

  lemma StepKeepsStamps(cfg: Config, d: bool, s: State, ev: Event)
    requires Inv(cfg, d, s) && Stamped(cfg, s) && Enabled(cfg, s, ev) && Shape(cfg, Step(cfg, s, ev))
    ensures Stamped(cfg, Step(cfg, s, ev))
  {
    var s' := Step(cfg, s, ev);
    if ev.Tick? {
      TickKeepsStamps(cfg, d, s, ev.l);
    } else {
      LogGrows(cfg, d, s, ev);
      forall j, r | 0 <= j < |s'.detector.history| && 0 <= r < |s'.protocol.log| ensures StampOk(s', j, r) {
        if r < |s.protocol.log| { assert StampOk(s, j, r); }
      }
    }
  }

  /** Other steps make no touch and only add to the log. */
  lemma LogGrows(cfg: Config, d: bool, s: State, ev: Event)
    requires Inv(cfg, d, s) && Enabled(cfg, s, ev) && !ev.Tick?
    ensures var s' := Step(cfg, s, ev);
            && s.protocol.log <= s'.protocol.log && s'.detector.history == s.detector.history && s'.stamps == s.stamps
            && forall j :: 0 <= j < |s.stamps| ==> s.stamps[j] <= |s.protocol.log|
  {
    hide PI.Inv, D.Inv, P.Step, PT.ImportsHeld, HandoffsImported, Linked, LogMatrix;
    if ev.Atomic? {
      PT.StepHoldsImports(cfg.protocol, s.protocol, ev.ev);
    } else if ev.Advance? {
      PT.StepHoldsImports(cfg.protocol, s.protocol, P.Barrier);
    }
  }

  lemma {:induction false} ReachesStamped(cfg: Config, d: bool, s: State, t: State, n: nat)
    requires Init(cfg, s) && Reaches(cfg, d, s, t, n)
    ensures Shape(cfg, t) && Inv(cfg, d, t) && Stamped(cfg, t)
    decreases n
  {
    hide Init, Inv, Step, Enabled, Disciplined, Stamped, Shape;
    InitInv(cfg, d, s);
    ReachesKeeps(cfg, d, s, t, n);
    ShapeOf(cfg, d, t);
    if n == 0 {
      InitStamped(cfg, s);
    } else {
      var m, ev :| Reaches(cfg, d, s, m, n - 1) && Leads(cfg, d, m, ev, t);
      ReachesStamped(cfg, d, s, m, n - 1);
      StepKeepsStamps(cfg, d, m, ev);
    }
  }

  lemma ShapeOf(cfg: Config, d: bool, s: State)
    requires Inv(cfg, d, s)
    ensures Shape(cfg, s)
  {
  }

  lemma InitStamped(cfg: Config, s: State)
    requires Init(cfg, s)
    ensures Stamped(cfg, s)
  {
  }

  // ---------------------------------------------------------------- justified suppression

  ghost predicate ReleasesEpoch(e: P.Entry, t: Touch) {
    e.Recorded? && e.key.producer == t.subgroup && e.epoch == t.epoch
  }

  /** Touch i came before every release of its epoch that its subgroup recorded. */
  ghost predicate BeforeReleases(s: State, i: nat)
    requires i < |s.stamps| && i < |s.detector.history|
  {
    forall r :: 0 <= r < |s.protocol.log| && ReleasesEpoch(s.protocol.log[r], s.detector.history[i]) ==>
      s.stamps[i] <= r
  }

  /** Entry x, before the check, imported for the later access's subgroup what entry r recorded for the earlier
      one's, after the earlier touch. */
  ghost predicate JustifiedBy(s: State, a: nat, i: nat, r: nat, x: nat)
    requires Judges(s, a, i) && i < |s.stamps|
  {
    var log, prior, current := s.protocol.log, s.detector.history[i], s.detector.history[s.detector.verdicts[a].touch];
    && r < x < s.seen[a] && s.stamps[i] <= r
    && log[r].Recorded? && log[r].key.producer == prior.subgroup && prior.epoch <= log[r].epoch
    && log[x] == P.Imported(current.subgroup, log[r].key, log[r].epoch)
  }

  ghost predicate Justified(s: State, a: nat, i: nat)
    requires Judges(s, a, i) && i < |s.stamps|
  {
    exists r, x :: 0 <= r < |s.protocol.log| && 0 <= x < |s.protocol.log| && JustifiedBy(s, a, i, r, x)
  }

  /** In every run, an access that came before all releases of its epoch (below 1024) by its subgroup is
      silenced against a racing one exactly when that one's subgroup had, by then, imported a release made
      after it. */
  lemma SuppressedIsJustified(cfg: Config, d: bool, s: State, t: State, n: nat, a: nat, i: nat)
    requires Init(cfg, s) && Reaches(cfg, d, s, t, n) && Judges(t, a, i) && i < |t.stamps|
    requires Races(t.detector.history[i], t.detector.history[t.detector.verdicts[a].touch])
    requires t.detector.history[i].epoch < EPOCHS && BeforeReleases(t, i)
    ensures !t.detector.verdicts[a].emitted <==> Justified(t, a, i)
  {
    hide Init, Reaches, Inv, Stamped, Checked, Races, HandoffsImported, BeforeReleases, Justified;
    ReachesStamped(cfg, d, s, t, n);
    ReachedIsChecked(cfg, d, s, t, n);
    JudgedPair(cfg, t, a, i);
    H.TenBits(t.detector.history[i].epoch);
    if !t.detector.verdicts[a].emitted { ImportIsJustified(cfg, d, t, a, i); }
    if Justified(t, a, i) { JustifiedIsImported(t, a, i); }
  }

  lemma ImportIsJustified(cfg: Config, d: bool, s: State, a: nat, i: nat)
    requires Shape(cfg, s) && PI.Inv(cfg.protocol, d, s.protocol) && Stamped(cfg, s)
    requires Judges(s, a, i) && i < |s.stamps| && BeforeReleases(s, i)
    requires var prior, current := s.detector.history[i], s.detector.history[s.detector.verdicts[a].touch];
             ImportedBefore(s, a, prior, current, prior.epoch)
    ensures Justified(s, a, i)
  {
    var log, prior, current := s.protocol.log, s.detector.history[i], s.detector.history[s.detector.verdicts[a].touch];
    var x :| 0 <= x < s.seen[a] && log[..s.seen[a]][x].Imported? && log[..s.seen[a]][x].consumer == current.subgroup
             && log[..s.seen[a]][x].key.producer == prior.subgroup && prior.epoch <= log[..s.seen[a]][x].epoch;
    assert PI.EntryOk(cfg.protocol, d, s.protocol, x);
    var r :| 0 <= r < x && log[..x][r] == P.Recorded(log[x].key, log[x].epoch);
    assert StampOk(s, i, r);
    assert JustifiedBy(s, a, i, r, x);
  }

  lemma JustifiedIsImported(s: State, a: nat, i: nat)
    requires Judges(s, a, i) && i < |s.stamps| && Justified(s, a, i)
    ensures var prior, current := s.detector.history[i], s.detector.history[s.detector.verdicts[a].touch];
            ImportedBefore(s, a, prior, current, prior.epoch)
  {
    var log := s.protocol.log;
    var r, x :| 0 <= r < |log| && 0 <= x < |log| && JustifiedBy(s, a, i, r, x);
    assert log[..s.seen[a]][x] == log[x];
  }
}
