/** Barrier-phased programs the detector must find clean. A program says which accesses each lane
    performs between two barriers; lanes may perform them in any order and interleaving. */
module CleanPrograms {
  import opened ShadowWords
  import opened ShadowHistory
  import opened DetectorMachine

  /** lane, epoch, access */
  type Program = (nat, nat, Access) -> bool

  ghost predicate Touched(s: State, cell: nat, epoch: nat) {
    exists k :: 0 <= k < |s.history| && s.history[k].cell == cell && s.history[k].epoch == epoch
  }

  /** All of the program's accesses of one epoch have been performed. */
  ghost predicate Performed(cfg: Config, p: Program, s: State, epoch: nat) {
    forall l, a, c :: 0 <= l < |cfg.group| && p(l, epoch, a) && Covers(a, c) ==> Touched(s, c, epoch)
  }

  /** Lanes perform only their program's accesses, and reach a barrier only after all of them. */
  ghost predicate Follows(cfg: Config, p: Program, s: State, ev: Event) {
    match ev
    case Begin(l, a) => p(l, s.barriers, a)
    case Close => Performed(cfg, p, s, s.barriers)
    case _ => true
  }

  ghost predicate FollowingRun(cfg: Config, p: Program, s: State, evs: seq<Event>)
    requires Shape(cfg, s) && Runnable(cfg, s, evs)
    decreases |evs|
  {
    evs == [] || (&& Follows(cfg, p, s, evs[0])
                  && (StepShape(cfg, s, evs[0]); FollowingRun(cfg, p, Step(cfg, s, evs[0]), evs[1..])))
  }

  /** Between two barriers, subgroups that share a cell only read it. */
  ghost predicate RaceFree(group: seq<nat>, p: Program) {
    forall l, m, e, a, b, c ::
      0 <= l < |group| && 0 <= m < |group| && group[l] != group[m] && p(l, e, a) && p(m, e, b)
      && Covers(a, c) && Covers(b, c) ==>
        !a.store && !b.store
  }

  /** A cell touched in two epochs 1024 or a multiple apart is touched in between. */
  ghost predicate Dense(group: seq<nat>, p: Program) {
    forall l, m, e1: nat, e2: nat, a, b, c ::
      0 <= l < |group| && 0 <= m < |group| && e1 + EPOCHS <= e2 && p(l, e1, a) && p(m, e2, b)
      && Covers(a, c) && Covers(b, c) ==>
        TouchedBetween(group, p, c, e1, e2)
  }

  ghost predicate TouchedBetween(group: seq<nat>, p: Program, c: nat, e1: nat, e2: nat) {
    exists n, e, d :: 0 <= n < |group| && e1 < e < e2 && p(n, e, d) && Covers(d, c)
  }

  /** Accesses of a cell by two subgroups, one a store, a multiple of 1024 intervals apart or in the same. */
  ghost predicate Clash(group: seq<nat>, p: Program, l: nat, m: nat, e1: nat, e2: nat, a: Access, b: Access, c: nat) {
    && l < |group| && m < |group| && group[l] != group[m]
    && p(l, e1, a) && p(m, e2, b) && Covers(a, c) && Covers(b, c) && (a.store || b.store)
    && e1 <= e2 && (e2 - e1) % EPOCHS == 0
  }

  /** What clashes is touched in between, and so in different intervals. */
  ghost predicate Clean(group: seq<nat>, p: Program) {
    forall l: nat, m: nat, e1: nat, e2: nat, a, b, c: nat ::
      Clash(group, p, l, m, e1, e2, a, b, c) ==> TouchedBetween(group, p, c, e1, e2)
  }

  lemma NoClashWithin(group: seq<nat>, p: Program, l: nat, m: nat, e: nat, a: Access, b: Access, c: nat)
    requires RaceFree(group, p)
    ensures !Clash(group, p, l, m, e, e, a, b, c)
  {
  }

  lemma ClashIsTouched(group: seq<nat>, p: Program, l: nat, m: nat, e1: nat, e2: nat, a: Access, b: Access, c: nat)
    requires Dense(group, p) && Clash(group, p, l, m, e1, e2, a, b, c) && e1 != e2
    ensures TouchedBetween(group, p, c, e1, e2)
  {
    AtLeastEpochs(e2 - e1);
  }

  lemma RaceFreeAndDenseIsClean(group: seq<nat>, p: Program)
    requires RaceFree(group, p) && Dense(group, p)
    ensures Clean(group, p)
  {
    hide RaceFree, Dense, Clash, TouchedBetween;
    forall l: nat, m: nat, e1: nat, e2: nat, a, b, c: nat | Clash(group, p, l, m, e1, e2, a, b, c)
      ensures TouchedBetween(group, p, c, e1, e2)
    {
      NoClashWithin(group, p, l, m, e1, a, b, c);
      ClashIsTouched(group, p, l, m, e1, e2, a, b, c);
    }
  }

  lemma AtLeastEpochs(d: nat)
    requires 0 < d && d % EPOCHS == 0
    ensures EPOCHS <= d
  {
  }

  /** The program without the barrier between intervals `epoch` and `epoch + 1`: later intervals move up. */
  ghost function Merged(p: Program, epoch: nat): Program {
    (l: nat, e: nat, a: Access) => Keeps(p, epoch, l, e, a)
  }

  ghost predicate Keeps(p: Program, epoch: nat, l: nat, e: nat, a: Access) {
    (e <= epoch && p(l, e, a)) || (epoch <= e && p(l, e + 1, a))
  }

  /** The interval of the merged program that an interval of the program becomes. */
  function Shifted(epoch: nat, e: nat): nat { if e <= epoch then e else e - 1 }

  /** Subgroups that share a cell across the two intervals only read it. */
  ghost predicate RaceFreeAcross(group: seq<nat>, p: Program, epoch: nat) {
    forall l, m, a, b, c ::
      (0 <= l < |group| && 0 <= m < |group| && group[l] != group[m]
       && p(l, epoch, a) && p(m, epoch + 1, b) && Covers(a, c) && Covers(b, c)) ==>
        !a.store && !b.store
  }

  lemma RaceFreeAt(group: seq<nat>, p: Program, l: nat, m: nat, e: nat, a: Access, b: Access, c: nat)
    requires RaceFree(group, p) && l < |group| && m < |group| && group[l] != group[m] && p(l, e, a) && p(m, e, b)
    requires Covers(a, c) && Covers(b, c)
    ensures !a.store && !b.store
  {
  }

  lemma AcrossAt(group: seq<nat>, p: Program, l: nat, m: nat, epoch: nat, a: Access, b: Access, c: nat)
    requires RaceFreeAcross(group, p, epoch) && l < |group| && m < |group| && group[l] != group[m]
    requires p(l, epoch, a) && p(m, epoch + 1, b) && Covers(a, c) && Covers(b, c)
    ensures !a.store && !b.store
  {
  }

  lemma MergedRaceFreeMeansAcross(group: seq<nat>, p: Program, epoch: nat)
    requires RaceFree(group, Merged(p, epoch))
    ensures RaceFreeAcross(group, p, epoch)
  {
    hide RaceFree;
    forall l, m, a, b, c |
      0 <= l < |group| && 0 <= m < |group| && group[l] != group[m] && p(l, epoch, a) && p(m, epoch + 1, b)
      && Covers(a, c) && Covers(b, c)
      ensures !a.store && !b.store
    {
      assert Keeps(p, epoch, l, epoch, a) && Keeps(p, epoch, m, epoch, b);
      RaceFreeAt(group, Merged(p, epoch), l, m, epoch, a, b, c);
    }
  }

  /** Of accesses in one interval of the merged program: they were in one interval, or across the barrier. */
  lemma MergedAt(group: seq<nat>, p: Program, epoch: nat, l: nat, m: nat, e: nat, a: Access, b: Access, c: nat)
    requires RaceFree(group, p) && RaceFreeAcross(group, p, epoch)
    requires l < |group| && m < |group| && group[l] != group[m] && Keeps(p, epoch, l, e, a) && Keeps(p, epoch, m, e, b)
    requires Covers(a, c) && Covers(b, c)
    ensures !a.store && !b.store
  {
    hide RaceFree, RaceFreeAcross;
    if e <= epoch && p(l, e, a) {
      if p(m, e, b) { RaceFreeAt(group, p, l, m, e, a, b, c); } else { AcrossAt(group, p, l, m, epoch, a, b, c); }
    } else {
      if p(m, e + 1, b) {
        RaceFreeAt(group, p, l, m, e + 1, a, b, c);
      } else {
        AcrossAt(group, p, m, l, epoch, b, a, c);
      }
    }
  }

  lemma AcrossMeansMergedRaceFree(group: seq<nat>, p: Program, epoch: nat)
    requires RaceFree(group, p) && RaceFreeAcross(group, p, epoch)
    ensures RaceFree(group, Merged(p, epoch))
  {
    hide RaceFreeAcross;
    var q := Merged(p, epoch);
    forall l, m, e: nat, a, b, c |
      0 <= l < |group| && 0 <= m < |group| && group[l] != group[m] && q(l, e, a) && q(m, e, b)
      && Covers(a, c) && Covers(b, c)
      ensures !a.store && !b.store
    {
      MergedAt(group, p, epoch, l, m, e, a, b, c);
    }
  }

  lemma MergedIsRaceFree(group: seq<nat>, p: Program, epoch: nat)
    requires RaceFree(group, p)
    ensures RaceFree(group, Merged(p, epoch)) <==> RaceFreeAcross(group, p, epoch)
  {
    hide RaceFree, RaceFreeAcross;
    var q := Merged(p, epoch);
    if RaceFree(group, q) { MergedRaceFreeMeansAcross(group, p, epoch); }
    if RaceFreeAcross(group, p, epoch) { AcrossMeansMergedRaceFree(group, p, epoch); }
  }

  ghost predicate TouchedWithin(group: seq<nat>, p: Program, c: nat, e1: nat, e2: nat) {
    exists n, e, d :: 0 <= n < |group| && e1 + 1 < e && e + 1 < e2 && p(n, e, d) && Covers(d, c)
  }

  /** Dense with an interval to spare on both sides. */
  ghost predicate Roomy(group: seq<nat>, p: Program) {
    forall l, m, e1: nat, e2: nat, a, b, c ::
      0 <= l < |group| && 0 <= m < |group| && e1 + EPOCHS <= e2 && p(l, e1, a) && p(m, e2, b)
      && Covers(a, c) && Covers(b, c) ==>
        TouchedWithin(group, p, c, e1, e2)
  }

  lemma RoomyAt(group: seq<nat>, p: Program, l: nat, m: nat, e1: nat, e2: nat, a: Access, b: Access, c: nat)
    requires Roomy(group, p) && l < |group| && m < |group| && e1 + EPOCHS <= e2 && p(l, e1, a) && p(m, e2, b)
    requires Covers(a, c) && Covers(b, c)
    ensures TouchedWithin(group, p, c, e1, e2)
  {
  }

  lemma RoomyIsDense(group: seq<nat>, p: Program)
    requires Roomy(group, p)
    ensures Dense(group, p)
  {
    hide Roomy;
    forall l, m, e1: nat, e2: nat, a, b, c |
      0 <= l < |group| && 0 <= m < |group| && e1 + EPOCHS <= e2 && p(l, e1, a) && p(m, e2, b)
      && Covers(a, c) && Covers(b, c)
      ensures TouchedBetween(group, p, c, e1, e2)
    {
      RoomyAt(group, p, l, m, e1, e2, a, b, c);
    }
  }

  /** The merged program's accesses come from intervals that become the given one. */
  lemma MergedFrom(p: Program, epoch: nat, l: nat, e: nat, a: Access) returns (o: nat)
    requires Merged(p, epoch)(l, e, a)
    ensures p(l, o, a) && Shifted(epoch, o) == e
  {
    assert Keeps(p, epoch, l, e, a);
    o := if e <= epoch && p(l, e, a) then e else e + 1;
  }

  /** Leaving out a barrier of a roomy program leaves it dense. */
  lemma MergedIsDense(group: seq<nat>, p: Program, epoch: nat)
    requires Roomy(group, p)
    ensures Dense(group, Merged(p, epoch))
  {
    hide Roomy;
    var q := Merged(p, epoch);
    forall l, m, e1: nat, e2: nat, a, b, c |
      0 <= l < |group| && 0 <= m < |group| && e1 + EPOCHS <= e2 && q(l, e1, a) && q(m, e2, b)
      && Covers(a, c) && Covers(b, c)
      ensures TouchedBetween(group, q, c, e1, e2)
    {
      var o1 := MergedFrom(p, epoch, l, e1, a);
      var o2 := MergedFrom(p, epoch, m, e2, b);
      RoomyAt(group, p, l, m, o1, o2, a, b, c);
      var n, o, d :| 0 <= n < |group| && o1 + 1 < o && o + 1 < o2 && p(n, o, d) && Covers(d, c);
      assert Keeps(p, epoch, n, Shifted(epoch, o), d);
      assert q(n, Shifted(epoch, o), d);
    }
  }

  // ---------------------------------------------------------------- following a program is invariant

  ghost predicate FromProgram(cfg: Config, p: Program, t: Touch) {
    Covers(t.access, t.cell) &&
    exists l :: 0 <= l < |cfg.group| && cfg.group[l] == t.subgroup && p(l, t.epoch, t.access)
  }

  ghost predicate ProgramInv(cfg: Config, p: Program, s: State) {
    && Inv(cfg, s)
    && (forall k :: 0 <= k < |s.history| ==> FromProgram(cfg, p, s.history[k]))
    && (forall l :: 0 <= l < |s.lanes| && !s.lanes[l].Ready? ==> p(l, s.lanes[l].epoch, s.lanes[l].access))
    && (forall e :: 0 <= e < s.barriers ==> Performed(cfg, p, s, e))
    && (s.phase.Closing? ==> Performed(cfg, p, s, s.barriers))
  }

  lemma PerformedKept(cfg: Config, p: Program, s: State, s': State, e: nat)
    requires Performed(cfg, p, s, e) && s.history <= s'.history
    ensures Performed(cfg, p, s', e)
  {
    forall l, a, c | 0 <= l < |cfg.group| && p(l, e, a) && Covers(a, c) ensures Touched(s', c, e) {
      assert Touched(s, c, e);
      var k :| 0 <= k < |s.history| && s.history[k].cell == c && s.history[k].epoch == e;
      assert s'.history[k] == s.history[k];
    }
  }

  lemma ProgramStep(cfg: Config, p: Program, s: State, ev: Event)
    requires ProgramInv(cfg, p, s) && Enabled(s, ev) && Follows(cfg, p, s, ev)
    ensures ProgramInv(cfg, p, Step(cfg, s, ev))
  {
    var s' := Step(cfg, s, ev);
    StepKeeps(cfg, s, ev);
    if ev.Begin? { assert LaneInv(cfg, s', ev.l); }
    if ev.Tick? { assert p(ev.l, s.lanes[ev.l].epoch, s.lanes[ev.l].access); }
    forall k | 0 <= k < |s'.history| ensures FromProgram(cfg, p, s'.history[k]) {
      if k < |s.history| { assert s'.history[k] == s.history[k]; }
    }
    forall e | 0 <= e < s'.barriers ensures Performed(cfg, p, s', e) { PerformedKept(cfg, p, s, s', e); }
    if s'.phase.Closing? { PerformedKept(cfg, p, s, s', s.barriers); }
  }

  lemma {:induction false} ProgramRun(cfg: Config, p: Program, s: State, evs: seq<Event>)
    requires ProgramInv(cfg, p, s) && Runnable(cfg, s, evs) && FollowingRun(cfg, p, s, evs)
    ensures ProgramInv(cfg, p, Run(cfg, s, evs))
    decreases |evs|
  {
    if evs != [] {
      ProgramStep(cfg, p, s, evs[0]);
      ProgramRun(cfg, p, Step(cfg, s, evs[0]), evs[1..]);
    }
  }

  /** What the program touches between two touches of a cell, a run has touched between them. */
  lemma BetweenIsTouched(cfg: Config, p: Program, s: State, i: nat, j: nat) returns (k: nat)
    requires ProgramInv(cfg, p, s) && i < j < |s.history| && s.history[i].cell == s.history[j].cell
    requires TouchedBetween(cfg.group, p, s.history[i].cell, s.history[i].epoch, s.history[j].epoch)
    ensures i < k < j && s.history[k].cell == s.history[j].cell
  {
    var x, y := s.history[i], s.history[j];
    var n, e, d :| 0 <= n < |cfg.group| && x.epoch < e < y.epoch && p(n, e, d) && Covers(d, x.cell);
    assert Performed(cfg, p, s, e);
    assert Touched(s, x.cell, e);
    k :| 0 <= k < |s.history| && s.history[k].cell == x.cell && s.history[k].epoch == e;
  }

  lemma TouchesClash(cfg: Config, p: Program, s: State, i: nat, j: nat) returns (l: nat, m: nat)
    requires ProgramInv(cfg, p, s) && i < j < |s.history| && s.history[i].cell == s.history[j].cell
    requires s.history[i].subgroup != s.history[j].subgroup
    requires s.history[i].access.store || s.history[j].access.store
    requires (s.history[j].epoch - s.history[i].epoch) % EPOCHS == 0
    ensures var x, y := s.history[i], s.history[j];
            Clash(cfg.group, p, l, m, x.epoch, y.epoch, x.access, y.access, x.cell)
  {
    var x, y := s.history[i], s.history[j];
    assert FromProgram(cfg, p, x) && FromProgram(cfg, p, y);
    l :| 0 <= l < |cfg.group| && cfg.group[l] == x.subgroup && p(l, x.epoch, x.access);
    m :| 0 <= m < |cfg.group| && cfg.group[m] == y.subgroup && p(m, y.epoch, y.access);
  }

  /** A clean program is never reported: in no interleaving, with any tokens, although the shadow keeps only
      the last touch of a cell and ten bits of its epoch. */
  lemma CleanIsNeverReported(cfg: Config, p: Program, s: State, evs: seq<Event>)
    requires Init(cfg, s) && Runnable(cfg, s, evs) && FollowingRun(cfg, p, s, evs) && Clean(cfg.group, p)
    ensures forall v :: v in Run(cfg, s, evs).verdicts ==> !v.emitted
  {
    hide ProgramInv;
    var end := Run(cfg, s, evs);
    forall v | v in end.verdicts && v.emitted ensures false {
      var a :| 0 <= a < |end.verdicts| && end.verdicts[a] == v;
      var i, j := EmissionMeansConflict(cfg, s, evs, a);
      StartOfProgram(cfg, p, s);
      ProgramRun(cfg, p, s, evs);
      var l, m := TouchesClash(cfg, p, end, i, j);
      var k := BetweenIsTouched(cfg, p, end, i, j);
    }
  }

  lemma StartOfProgram(cfg: Config, p: Program, s: State)
    requires Init(cfg, s)
    ensures ProgramInv(cfg, p, s)
  {
  }

  /** In particular: one that is race-free between barriers and dense. */
  lemma CleanProgramsAreNeverReported(cfg: Config, p: Program, s: State, evs: seq<Event>)
    requires Init(cfg, s) && Runnable(cfg, s, evs) && FollowingRun(cfg, p, s, evs)
    requires RaceFree(cfg.group, p) && Dense(cfg.group, p)
    ensures forall v :: v in Run(cfg, s, evs).verdicts ==> !v.emitted
  {
    RaceFreeAndDenseIsClean(cfg.group, p);
    CleanIsNeverReported(cfg, p, s, evs);
  }
}
